/** What a configured rule has to look like, field by field, and what is kept of it
    (internal/companyfund/airwallex_runtime_config.go, airwallex_normalizer.go,
    airwallex_time.go). */
module RuntimeRules {
  import opened Wrappers
  import opened Ordering
  import opened Text
  import opened RuntimeConfig

  // ---- Plain fields ----------------------------------------------------------------------

  /** Something is left between the outer spaces, and not too much. */
  ghost predicate Filled(value: string, most: nat) {
    1 <= |Trim(value)| <= most
  }

  ghost predicate Exact(value: string, most: nat) {
    1 <= |value| <= most && Trimmed(value)
  }

  ghost predicate Named(value: string) {
    Filled(value, 128) && forall i :: 0 <= i < |Trim(value)| ==> Trim(value)[i] !in {'*', '?'}
  }

  lemma FieldsExactly(value: string)
    ensures Version(value) <==> Exact(value, 64)
    ensures ExactKey(value) <==> Exact(value, 128)
    ensures TypeName(value) == (if Named(value) then Some(Upper(Trim(value))) else None)
    ensures CurrencyCode(value) == (if Filled(value, 64) then Some(Upper(Trim(value))) else None)
    ensures forall most :: Required(value, most) == if Filled(value, most) then Some(Trim(value)) else None
  {
    hide Trim, Upper;
    TrimIdempotent(value);
    NamedHasNoWildcard(value);
  }

  lemma NamedHasNoWildcard(value: string)
    ensures Named(value) <==> Filled(value, 128) && '*' !in Trim(value) && '?' !in Trim(value)
  {
    hide Trim;
  }

  // ---- Calendar dates --------------------------------------------------------------------

  const MONTH_LENGTHS: seq<nat> := [31, 28, 31, 30, 31, 30, 31, 31, 30, 31, 30, 31]

  ghost predicate LeapYear(year: nat) {
    (year % 4 == 0 && year % 100 != 0) || year % 400 == 0
  }

  ghost predicate IsDate(year: nat, month: nat, day: nat) {
    && year <= 9999 && 1 <= month <= 12
    && 1 <= day <= MONTH_LENGTHS[month - 1] + if month == 2 && LeapYear(year) then 1 else 0
  }

  function Two(n: nat): string
    requires n < 100
  {
    [DigitChar(n / 10), DigitChar(n % 10)]
  }

  function DateText(year: nat, month: nat, day: nat): string
    requires year <= 9999 && month < 100 && day < 100
  {
    Two(year / 100) + Two(year % 100) + "-" + Two(month) + "-" + Two(day)
  }

  lemma DaysExactly(year: nat, month: nat)
    requires 1 <= month <= 12
    ensures DaysIn(year, month) == MONTH_LENGTHS[month - 1] + if month == 2 && LeapYear(year) then 1 else 0
  {
  }

  lemma TwoDigits(s: string)
    requires |s| == 2 && Digits(s)
    ensures Number(s) < 100 && Two(Number(s)) == s
  {
    var n := Number(s);
    RuntimeConfig.Two(s[0], s[1]);
    assert s == [s[0], s[1]];
    assert n / 10 == s[0] as int - '0' as int && n % 10 == s[1] as int - '0' as int;
  }

  lemma TwoReads(n: nat)
    requires n < 100
    ensures Digits(Two(n)) && Number(Two(n)) == n
  {
    RuntimeConfig.Two(Two(n)[0], Two(n)[1]);
    assert Two(n) == [Two(n)[0], Two(n)[1]];
  }

  lemma FourReads(n: nat)
    requires n <= 9999
    ensures var s := Two(n / 100) + Two(n % 100); Digits(s) && Number(s) == n
  {
    TwoReads(n / 100);
    TwoReads(n % 100);
    var s := Two(n / 100) + Two(n % 100);
    assert forall i :: 0 <= i < 4 ==> s[i] == if i < 2 then Two(n / 100)[i] else Two(n % 100)[i - 2];
    Four(s[0], s[1], s[2], s[3]);
    assert s == [s[0], s[1], s[2], s[3]];
  }

  lemma Split(n: nat, high: nat, low: nat)
    requires n == 100 * high + low && low < 100 && high < 100
    ensures n <= 9999 && n / 100 == high && n % 100 == low
  {
  }

  lemma FourDigits(s: string)
    requires |s| == 4 && Digits(s)
    ensures Number(s) <= 9999 && Two(Number(s) / 100) + Two(Number(s) % 100) == s
  {
    hide Number;
    var a, b := s[..2], s[2..];
    TwoDigits(a);
    TwoDigits(b);
    Four(s[0], s[1], s[2], s[3]);
    assert s == [s[0], s[1], s[2], s[3]] && a == [s[0], s[1]] && b == [s[2], s[3]] && a + b == s;
    RuntimeConfig.Two(s[0], s[1]);
    RuntimeConfig.Two(s[2], s[3]);
    Split(Number(s), Number(a), Number(b));
  }

  /** An API version is a calendar date written in four, two and two digits. */
  lemma ApiVersionExactly(value: string)
    ensures ApiVersion(value) <==>
            exists year: nat, month: nat, day: nat ::
              IsDate(year, month, day) && value == DateText(year, month, day)
  {
    hide Number, Digits, DaysIn;
    if ApiVersion(value) {
      var year, month, day := Number(value[..4]), Number(value[5..7]), Number(value[8..]);
      FourDigits(value[..4]);
      TwoDigits(value[5..7]);
      TwoDigits(value[8..]);
      DaysExactly(year, month);
      assert value == value[..4] + [value[4]] + value[5..7] + [value[7]] + value[8..];
      assert IsDate(year, month, day) && value == DateText(year, month, day);
    }
    if year: nat, month: nat, day: nat :| IsDate(year, month, day) && value == DateText(year, month, day) {
      FourReads(year);
      TwoReads(month);
      TwoReads(day);
      DaysExactly(year, month);
      assert value[..4] == Two(year / 100) + Two(year % 100);
      assert value[5..7] == Two(month) && value[8..] == Two(day);
    }
  }

  // ---- Classifications ---------------------------------------------------------------------

  /** What APPLY asks of the other fields. */
  ghost predicate Applicable(c: Classification) {
    && Trim(c.reason) == ""
    && c.kind in {Principal, Fee, Reversal, Adjustment, Conversion}
    && c.direction in {Inflow, Outflow, InternalTransfer}
    && c.mode in {Single, Batch} && c.amountField in {WholeAmount, FeeAmount, NetAmount}
    && c.expectedSign in {Positive, Negative} && c.occurredAt in {CreatedAt, SettledAt}
    && (c.amountField == FeeAmount ==> c.kind == Fee)
    && (c.includeFee ==> c.kind != Fee && c.amountField != FeeAmount && c.feeSign in {Positive, Negative})
    && (!c.includeFee ==> c.feeSign == NoSign)
    && c.rateUse in {NoRate, ConversionRate} && (c.rateUse == ConversionRate ==> c.kind == Conversion)
  }

  /** IGNORE and QUARANTINE carry a reason and nothing else. */
  ghost predicate ReasonOnly(c: Classification) {
    && Filled(c.reason, 256)
    && c == Classification(c.transactionType, c.sourceType, c.action, c.reason, NoKind, NoDirection, NoMode,
                           NoField, NoSign, NoTime, false, NoSign, NoRate)
  }

  /** The classifications that are accepted, and what is kept of them. */
  lemma ClassificationExactly(c: Classification)
    ensures NormalizeClassification(c)
            == if Named(c.transactionType) && Named(c.sourceType)
                  && ((c.action == Apply && Applicable(c)) || (c.action in {Ignore, Quarantine} && ReasonOnly(c)))
               then Some(c.(transactionType := Upper(Trim(c.transactionType)), sourceType := Upper(Trim(c.sourceType)),
                            reason := Trim(c.reason)))
               else None
  {
    hide Trim, Upper, TypeName, Required;
    FieldsExactly(c.transactionType);
    FieldsExactly(c.sourceType);
    FieldsExactly(c.reason);
  }

  /** Classifications are listed by transaction type, and by source type within one. */
  lemma ClassOrderExactly(a: ClassKey, b: ClassKey)
    ensures LexLess(a.transactionType, b.transactionType) ==> ClassKeyLess(a, b)
    ensures ClassKeyLess(a, b) ==>
              LexLess(a.transactionType, b.transactionType) || a.transactionType == b.transactionType
    ensures a.transactionType == b.transactionType ==> (ClassKeyLess(a, b) <==> LexLess(a.sourceType, b.sourceType))
  {
    hide LexLess;
    LexStrictTotal();
  }

  // ---- Relationships -----------------------------------------------------------------------

  /** What each strategy asks of its rule, for a classification of a given kind. */
  ghost predicate Linkable(r: RelationshipRule, c: Classification, currency: string) {
    if r.strategy == NoStrategy then
      && r == RelationshipRule(NoStrategy, "", NoLeg, "", "", 0)
      && !(c.action == Apply && c.kind in {Fee, Reversal, Conversion})
    else
      && r.strategy != BadStrategy
      && Filled(r.evidence, 512) && 0 < r.sla
      && (r.strategy in {ExactParent, BatchGroup, SourceGroup} ==> c.kind == Fee)
      && (r.strategy == ReversalTarget ==> c.kind == Reversal)
      && (r.strategy == ConversionGroup ==>
            && c.kind == Conversion && r.leg in {Buy, Sell} && Filled(r.fromCurrency, 64) && Filled(r.toCurrency, 64)
            && Upper(Trim(r.fromCurrency)) != Upper(Trim(r.toCurrency))
            && (r.leg == Sell ==> currency == Upper(Trim(r.fromCurrency)))
            && (r.leg == Buy ==> currency == Upper(Trim(r.toCurrency))))
  }

  lemma RelationshipExactly(r: RelationshipRule, c: Classification, currency: string)
    ensures NormalizeRelationship(r, c, currency)
            == if !Linkable(r, c, currency) then None
               else if r.strategy == NoStrategy then Some(r)
               else if r.strategy != ConversionGroup then Some(r.(evidence := Trim(r.evidence)))
               else Some(r.(evidence := Trim(r.evidence), fromCurrency := Upper(Trim(r.fromCurrency)),
                            toCurrency := Upper(Trim(r.toCurrency))))
  {
    hide Trim, Upper, CurrencyCode, Required;
    FieldsExactly(r.evidence);
    FieldsExactly(r.fromCurrency);
    FieldsExactly(r.toCurrency);
  }

  // ---- Rules -------------------------------------------------------------------------------

  /** A manual counterparty names its evidence and at least one display field. */
  ghost predicate Displayable(p: Counterparty) {
    && Filled(p.evidence, 512)
    && (forall i :: 0 <= i < |p.display| ==> |Trim(p.display[i])| <= 512)
    && (exists i :: 0 <= i < |p.display| && Trim(p.display[i]) != "")
  }

  lemma CounterpartyExactly(p: Counterparty)
    ensures NormalizeCounterparty(p).Some? <==> Displayable(p)
    ensures NormalizeCounterparty(p).Some? ==>
              var n := NormalizeCounterparty(p).value;
              && n.evidence == Trim(p.evidence) && |n.display| == |p.display|
              && forall i :: 0 <= i < |p.display| ==> n.display[i] == Trim(p.display[i])
  {
    hide Trim, Required;
    FieldsExactly(p.evidence);
    var display := seq(|p.display|, i requires 0 <= i < |p.display| => Trim(p.display[i]));
    assert forall i :: 0 <= i < |p.display| ==> display[i] == Trim(p.display[i]);
  }

  /** Who stands on the other end, as far as the rule may say: nobody for a terminal rule, an
      external party for money that comes in or goes out, another company account and the
      configured side for a transfer, and nobody for a conversion. */
  ghost predicate OtherEnd(r: Rule) {
    var c := r.classification;
    var none := r.side == NoSide && r.otherKey == "";
    if c.action != Apply then none && r.counterparty == None && r.relationship.strategy == NoStrategy
    else if c.direction in {Inflow, Outflow} then
      none && (r.counterparty.Some? ==> Displayable(r.counterparty.value))
    else if c.kind == Conversion then none && r.counterparty == None
    else
      r.counterparty == None && r.side in {FromSide, ToSide} && Exact(r.otherKey, 128) && r.otherKey != r.accountKey
  }

  ghost predicate Configured(r: Rule) {
    var c := r.classification;
    && Filled(r.evidence, 512) && Exact(r.accountKey, 128) && Filled(r.currency, 64) && Named(r.status)
    && NormalizeClassification(c).Some? && Linkable(r.relationship, c, Upper(Trim(r.currency)))
    && (c.kind == Conversion ==> c.direction == InternalTransfer && c.rateUse == ConversionRate)
    && OtherEnd(r)
  }

  /** A rule is accepted exactly when its fields are as asked. */
  lemma RuleExactly(r: Rule)
    ensures NormalizeRule(r).Some? <==> Configured(r)
  {
    hide Trim, Upper, TypeName, CurrencyCode, Required, ExactKey, NormalizeCounterparty;
    hide NormalizeClassification, NormalizeRelationship, Linkable, Filled, Exact, Named, Displayable;
    FieldsExactly(r.evidence);
    FieldsExactly(r.accountKey);
    FieldsExactly(r.currency);
    FieldsExactly(r.status);
    FieldsExactly(r.otherKey);
    if r.counterparty.Some? { CounterpartyExactly(r.counterparty.value); }
    if NormalizeClassification(r.classification).Some? {
      ClassificationKeeps(r.classification);
      var c := NormalizeClassification(r.classification).value;
      RelationshipExactly(r.relationship, c, Upper(Trim(r.currency)));
      if Linkable(r.relationship, c, Upper(Trim(r.currency))) && c.action == Apply && c.kind == Conversion {
        ConversionsLink(r.relationship, c, Upper(Trim(r.currency)));
      }
      LinkableAlike(r.relationship, r.classification, c, Upper(Trim(r.currency)));
    }
  }

  /** And it keeps them all, but for outer spaces and the letter case of names and
      currencies. */
  lemma RuleKeeps(r: Rule)
    requires NormalizeRule(r).Some?
    ensures var n := NormalizeRule(r).value;
            && n.evidence == Trim(r.evidence) && n.accountKey == r.accountKey
            && n.currency == Upper(Trim(r.currency)) && n.status == Upper(Trim(r.status))
            && Some(n.classification) == NormalizeClassification(r.classification)
            && Some(n.relationship) == NormalizeRelationship(r.relationship, n.classification, n.currency)
            && n.side == r.side && n.otherKey == r.otherKey
            && (r.counterparty == None ==> n.counterparty == None)
            && (r.counterparty.Some? ==> n.counterparty == NormalizeCounterparty(r.counterparty.value))
  {
    hide Trim, Upper, TypeName, CurrencyCode, Required, ExactKey, NormalizeCounterparty, NormalizeRelationship;
    hide NormalizeClassification;
    FieldsExactly(r.currency);
    FieldsExactly(r.status);
    if NormalizeClassification(r.classification).Some? { ClassificationKeeps(r.classification); }
  }

  lemma ClassificationKeeps(c: Classification)
    requires NormalizeClassification(c).Some?
    ensures var n := NormalizeClassification(c).value;
            n.action == c.action && n.kind == c.kind && n.direction == c.direction && n.rateUse == c.rateUse
            && (c.action == Apply ==> c.direction in {Inflow, Outflow, InternalTransfer})
            && c.action != BadAction && (c.action != Apply ==> c.kind == NoKind && c.direction == NoDirection)
  {
    hide Trim, Upper, Named;
    ClassificationExactly(c);
  }

  lemma ConversionsLink(r: RelationshipRule, c: Classification, currency: string)
    requires Linkable(r, c, currency) && c.action == Apply && c.kind == Conversion
    ensures r.strategy == ConversionGroup
  {
  }

  lemma LinkableAlike(r: RelationshipRule, c: Classification, d: Classification, currency: string)
    requires c.action == d.action && c.kind == d.kind
    ensures Linkable(r, c, currency) <==> Linkable(r, d, currency)
  {
    hide Trim, Upper;
  }

  // ---- What an event resolves to -----------------------------------------------------------

  /** The reference an event carries for a strategy: its batch for a batch group, its source
      otherwise. */
  lemma ReferenceExactly(strategy: Strategy, e: Event)
    ensures strategy == BatchGroup ==> ReferenceFor(strategy, e) == Trim(e.batchId)
    ensures strategy != BatchGroup ==> ReferenceFor(strategy, e) == Trim(e.sourceId)
  {
  }

  /** Every link and every task carries the reference its strategy looked up, and a task the
      evidence and the SLA of its rule. */
  lemma LinksCarryTheReference(rule: RelationshipRule, e: Event)
    requires ResolveRelationship(rule, e).Some? && rule.strategy != NoStrategy
    ensures var reference := ReferenceFor(rule.strategy, e);
            var r := ResolveRelationship(rule, e).value;
            var l := r.link;
            && reference != "" && l.referenceKey == reference
            && l.groupKey == (if rule.strategy in {SourceGroup, BatchGroup, ConversionGroup} then reference else "")
            && l.conversionGroup == (if rule.strategy == ConversionGroup then reference else "")
            && l.parent == (if rule.strategy == ExactParent then "pending-parent:" + reference else "")
            && l.reversalOf == (if rule.strategy == ReversalTarget then "pending-reversal:" + reference else "")
            && (rule.strategy == ConversionGroup ==> l.leg == rule.leg && l.state == Incomplete)
            && (rule.strategy != ConversionGroup ==> l.leg == NoLeg && l.state == NoState)
            && (l.reference == match rule.strategy
                               case ExactParent => ExactParentRef
                               case ReversalTarget => ReversalRef
                               case ConversionGroup => ConversionRef
                               case SourceGroup => SourceGroupRef
                               case _ => BatchGroupRef)
            && (r.Waiting? ==>
                  && r.task.reference == l.reference && r.task.referenceKey == reference
                  && r.task.groupKey == l.groupKey && r.task.evidence == rule.evidence && r.task.sla == rule.sla)
  {
    hide Trim;
  }

  /** A task needs a reference and evidence that are not blank, an SLA of a microsecond, and
      room for the marker in front of its reference. */
  lemma TasksExactly(t: Task)
    ensures TaskAccepted(t) <==>
            && !AllSpace(t.referenceKey) && !AllSpace(t.evidence) && |t.evidence| <= 512 && 1000 <= t.sla
            && |t.referenceKey| <= match t.kind
                                   case FeeRelationship => 241
                                   case ReversalRelationship => 239
                                   case ConversionPair => 256
  {
    hide Trim;
    BlankIsAllSpace(t.referenceKey);
    BlankIsAllSpace(t.evidence);
  }

  /** Normalizing a link fills in the reference of a link that has none, and trims it. */
  lemma LinkNormalizedExactly(l: Relationship)
    ensures var n := NormalizeLink(l);
            && n.parent == Trim(l.parent) && n.reversalOf == Trim(l.reversalOf)
            && n.conversionGroup == Trim(l.conversionGroup) && n.leg == l.leg && n.state == l.state
            && (l.reference != NoReference ==>
                  && n.reference == l.reference && n.referenceKey == Trim(l.referenceKey)
                  && n.groupKey == Trim(l.groupKey))
            && (l.reference == NoReference && n.parent != "" ==>
                  n.reference == ExactParentRef && n.referenceKey == n.parent && n.groupKey == Trim(l.groupKey))
            && (l.reference == NoReference && n.parent == "" && n.reversalOf != "" ==>
                  n.reference == ReversalRef && n.referenceKey == n.reversalOf && n.groupKey == Trim(l.groupKey))
            && (l.reference == NoReference && n.parent == n.reversalOf == "" && n.conversionGroup != "" ==>
                  n.reference == ConversionRef && n.referenceKey == n.groupKey == n.conversionGroup)
  {
    hide Trim;
  }

  /** An event finds a rule by its exact account and its four names without outer spaces, in
      capitals. */
  lemma InputKeyExactly(e: Event)
    ensures InputKey(e)
            == if Exact(e.accountKey, 128) && Named(e.transactionType) && Named(e.sourceType) && Filled(e.currency, 64)
                  && Named(e.status)
               then Some(RuleKey(e.accountKey, Upper(Trim(e.transactionType)), Upper(Trim(e.sourceType)),
                                 Upper(Trim(e.currency)), Upper(Trim(e.status))))
               else None
  {
    hide Trim, Upper, TypeName, CurrencyCode, ExactKey;
    FieldsExactly(e.accountKey);
    TwiceNamed(e.transactionType);
    TwiceNamed(e.sourceType);
    TwiceNamed(e.status);
    TwiceNamed(e.currency);
  }

  lemma TwiceNamed(value: string)
    ensures TypeName(Trim(value)) == if Named(value) then Some(Upper(Trim(value))) else None
    ensures CurrencyCode(Trim(value)) == if Filled(value, 64) then Some(Upper(Trim(value))) else None
  {
    hide Trim, Upper;
    TrimTwice(value);
    FieldsExactly(Trim(value));
  }

  /** For APPLY, what account resolution refuses: an internal assignment on an external
      movement, and a transfer without a valid other account or a side. */
  lemma ResolutionExactly(kind: Kind, direction: Direction, own: Account, other: Option<Account>, side: Side)
    ensures ResolveAccounts(kind, direction, own, other, side).Some? <==>
            || (direction in {Inflow, Outflow} && other == None && side == NoSide)
            || (direction == InternalTransfer && kind == Conversion && other == None && side == NoSide)
            || (direction == InternalTransfer && other.Some? && side in {FromSide, ToSide}
                && 0 < other.value.id && Filled(other.value.key, 128) && other.value.id != own.id)
  {
    hide Trim, Required;
    if other.Some? { FieldsExactly(other.value.key); }
  }

  /** The relationship check, kind by kind and direction by direction. */
  lemma RelationshipCheckExactly(c: Classification, ends: Ends, l: Relationship)
    ensures RelationshipValid(c, ends, l) <==>
            && c.kind in {Principal, Fee, Reversal, Adjustment, Conversion} && c.mode in {Single, Batch}
            && c.direction in {Inflow, Outflow, InternalTransfer}
            && (c.direction in {Inflow, InternalTransfer} ==> ends.to.Some?)
            && (c.direction in {Outflow, InternalTransfer} ==> ends.from.Some?)
            && (c.kind == Reversal ==> Trim(l.reversalOf) != "")
            && (c.kind == Conversion ==> Trim(l.conversionGroup) != "" && l.leg in {Buy, Sell} && l.state != NoState)
            && (c.kind == Fee ==>
                  || Trim(l.parent) != ""
                  || (l.reference in {BatchGroupRef, SourceGroupRef}
                      && Trim(l.referenceKey) != "" && Trim(l.groupKey) != ""))
  {
    hide Trim;
  }

  /** Transfer details are looked up for principal payouts that are applied. */
  lemma TransferDetailsExactly(c: Classification)
    requires NormalizeClassification(c).Some?
    ensures var n := NormalizeClassification(c).value;
            UsesTransferDetails(n) <==>
            && c.action == Apply && c.kind == Principal && c.direction == Outflow
            && n.transactionType == "PAYOUT" && n.sourceType == "PAYOUT"
  {
    hide Trim, Upper, Named;
    ClassificationExactly(c);
    UpperIdempotent(Trim(c.transactionType));
    UpperIdempotent(Trim(c.sourceType));
  }
}
