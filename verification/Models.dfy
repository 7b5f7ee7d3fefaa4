/** The names the ledger's tables admit (internal/companyfund/models.go). */
module Models {

  predicate ValidChannel(s: string) {
    s == "SAFEHERON" || s == "AIRWALLEX" || s == "MANUAL"
  }

  predicate ValidKind(s: string) {
    s == "PRINCIPAL" || s == "FEE" || s == "REVERSAL" || s == "ADJUSTMENT" || s == "CONVERSION"
  }

  predicate ValidDirection(s: string) {
    s == "INFLOW" || s == "OUTFLOW" || s == "INTERNAL_TRANSFER"
  }

  /** The names, one by one. */
  lemma NamesExactly(s: string)
    ensures ValidChannel(s) <==> s in {"SAFEHERON", "AIRWALLEX", "MANUAL"}
    ensures ValidKind(s) <==> s in {"PRINCIPAL", "FEE", "REVERSAL", "ADJUSTMENT", "CONVERSION"}
    ensures ValidDirection(s) <==> s in {"INFLOW", "OUTFLOW", "INTERNAL_TRANSFER"}
  {
  }
}
