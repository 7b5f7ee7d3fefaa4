/** The Airwallex runtime configuration: one list of reviewed rules is compiled into a
    classification table and an exact-match rule table
    (internal/companyfund/airwallex_runtime_config.go, airwallex_normalizer.go, airwallex_time.go). */
module RuntimeConfig {
  import opened Wrappers
  import opened Ordering
  import opened Text

  const MAX_RULES := 256
  const MAX_TYPE_BYTES := 128
  const MAX_KEY_BYTES := 128
  const MAX_CURRENCY_BYTES := 64
  const MAX_REASON_BYTES := 256
  const MAX_EVIDENCE_BYTES := 512
  const MAX_DISPLAY_BYTES := 512
  const MAX_VERSION_BYTES := 64

  // ---- Configuration -----------------------------------------------------------------

  /** `No...` is the empty string of the program's string types, `Bad...` any other value
      outside the list. */
  datatype Action = Apply | Ignore | Quarantine | BadAction
  datatype Kind = NoKind | Principal | Fee | Reversal | Adjustment | Conversion | BadKind
  datatype Direction = NoDirection | Inflow | Outflow | InternalTransfer | BadDirection
  datatype Mode = NoMode | Single | Batch | BadMode
  datatype AmountField = NoField | WholeAmount | FeeAmount | NetAmount | BadField
  datatype ValueSign = NoSign | Positive | Negative | BadSign
  datatype TimeField = NoTime | CreatedAt | SettledAt | BadTime
  datatype RateUse = NoRate | ConversionRate | BadRate
  datatype Side = NoSide | FromSide | ToSide | BadSide
  datatype Leg = NoLeg | Buy | Sell | BadLeg
  datatype Strategy =
    NoStrategy | ExactParent | BatchGroup | SourceGroup | ConversionGroup | ReversalTarget | BadStrategy

  datatype Classification = Classification(
    transactionType: string, sourceType: string, action: Action, reason: string, kind: Kind, direction: Direction,
    mode: Mode, amountField: AmountField, expectedSign: ValueSign, occurredAt: TimeField, includeFee: bool,
    feeSign: ValueSign, rateUse: RateUse)

  datatype ClassKey = ClassKey(transactionType: string, sourceType: string)

  /** The SLA is a duration in nanoseconds. */
  datatype RelationshipRule = RelationshipRule(
    strategy: Strategy, evidence: string, leg: Leg, fromCurrency: string, toCurrency: string, sla: int)

  const NO_RELATIONSHIP := RelationshipRule(NoStrategy, "", NoLeg, "", "", 0)

  /** `display` lists address, name, entity, fund account, sub-account and account type. */
  datatype Counterparty = Counterparty(evidence: string, display: seq<string>)

  datatype Rule = Rule(
    evidence: string, accountKey: string, currency: string, status: string, classification: Classification, side: Side,
    otherKey: string, counterparty: Option<Counterparty>, relationship: RelationshipRule)

  datatype Config = Config(
    enabled: bool, apiVersion: string, schemaVersion: string, eventVersion: string, mappingVersion: string,
    factVersion: int, rules: seq<Rule>)

  // ---- Field normalization -------------------------------------------------------------

  function Required(value: string, maxBytes: nat): Option<string> {
    var t := Trim(value);
    if t == "" || |t| > maxBytes then None else Some(t)
  }

  function TypeName(value: string): Option<string> {
    match Required(value, MAX_TYPE_BYTES)
    case None => None
    case Some(t) => if '*' in t || '?' in t then None else Some(Upper(t))
  }

  function CurrencyCode(value: string): Option<string> {
    match Required(value, MAX_CURRENCY_BYTES) case None => None case Some(t) => Some(Upper(t))
  }

  predicate ExactKey(value: string) {
    value != "" && value == Trim(value) && |value| <= MAX_KEY_BYTES
  }

  predicate Version(value: string) {
    value != "" && value == Trim(value) && |value| <= MAX_VERSION_BYTES
  }

  predicate Digits(s: string) {
    forall i :: 0 <= i < |s| ==> '0' <= s[i] <= '9'
  }

  function Number(s: string): nat
    requires Digits(s)
  {
    if s == "" then 0 else 10 * Number(s[..|s| - 1]) + (s[|s| - 1] as int - '0' as int)
  }

  function DaysIn(year: nat, month: nat): nat {
    if month in {4, 6, 9, 11} then 30
    else if month != 2 then 31
    else if year % 4 == 0 && (year % 100 != 0 || year % 400 == 0) then 29 else 28
  }

  /** An API version is an exact calendar date, YYYY-MM-DD. */
  predicate ApiVersion(value: string) {
    && |value| == 10 && value[4] == '-' && value[7] == '-'
    && Digits(value[..4]) && Digits(value[5..7]) && Digits(value[8..])
    && 1 <= Number(value[5..7]) <= 12
    && 1 <= Number(value[8..]) <= DaysIn(Number(value[..4]), Number(value[5..7]))
  }

  predicate ValidKind(k: Kind) { k != NoKind && k != BadKind }
  predicate ValidDirection(d: Direction) { d != NoDirection && d != BadDirection }
  predicate ValidMode(m: Mode) { m == Single || m == Batch }
  predicate ValidField(f: AmountField) { f != NoField && f != BadField }
  predicate ValidSign(s: ValueSign) { s == Positive || s == Negative }
  predicate ValidTime(t: TimeField) { t == CreatedAt || t == SettledAt }
  predicate ValidLeg(l: Leg) { l == Buy || l == Sell }

  /** What an APPLY classification has to fulfil besides its two type names. */
  predicate ApplyShape(c: Classification) {
    && Trim(c.reason) == ""
    && ValidKind(c.kind) && ValidDirection(c.direction) && ValidMode(c.mode)
    && ValidField(c.amountField) && ValidSign(c.expectedSign) && ValidTime(c.occurredAt)
    && (c.amountField == FeeAmount ==> c.kind == Fee)
    && (if c.includeFee then c.kind != Fee && c.amountField != FeeAmount && ValidSign(c.feeSign)
        else c.feeSign == NoSign)
    && c.rateUse != BadRate && (c.rateUse == ConversionRate ==> c.kind == Conversion)
  }

  predicate TerminalShape(c: Classification) {
    && Required(c.reason, MAX_REASON_BYTES).Some?
    && c.kind == NoKind && c.direction == NoDirection && c.mode == NoMode && c.amountField == NoField
    && c.expectedSign == NoSign && c.occurredAt == NoTime && !c.includeFee && c.feeSign == NoSign && c.rateUse == NoRate
  }

  function NormalizeClassification(c: Classification): Option<Classification> {
    var transactionType, sourceType := TypeName(c.transactionType), TypeName(c.sourceType);
    if transactionType.None? || sourceType.None? then None
    else
      var n := c.(transactionType := transactionType.value, sourceType := sourceType.value, reason := Trim(c.reason));
      match c.action
      case Apply => if ApplyShape(c) then Some(n) else None
      case BadAction => None
      case _ => if TerminalShape(c) then Some(n) else None
  }

  function KeyOf(c: Classification): ClassKey {
    ClassKey(c.transactionType, c.sourceType)
  }

  function NormalizeRelationship(r: RelationshipRule, c: Classification, currency: string): Option<RelationshipRule> {
    if r.strategy == NoStrategy then
      if c.action == Apply && (c.kind == Fee || c.kind == Reversal || c.kind == Conversion) then None
      else if r != NO_RELATIONSHIP then None
      else Some(r)
    else if Required(r.evidence, MAX_EVIDENCE_BYTES).None? || r.sla <= 0 then None
    else
      var n := r.(evidence := Trim(r.evidence));
      match r.strategy
      case ExactParent | BatchGroup | SourceGroup => if c.kind == Fee then Some(n) else None
      case ReversalTarget => if c.kind == Reversal then Some(n) else None
      case ConversionGroup =>
        var from, to := CurrencyCode(r.fromCurrency), CurrencyCode(r.toCurrency);
        if c.kind != Conversion || !ValidLeg(r.leg) || from.None? || to.None? || from == to then None
        else if (r.leg == Sell && currency != from.value) || (r.leg == Buy && currency != to.value) then None
        else Some(n.(fromCurrency := from.value, toCurrency := to.value))
      case _ => None
  }

  function NormalizeCounterparty(c: Counterparty): Option<Counterparty> {
    var display := seq(|c.display|, i requires 0 <= i < |c.display| => Trim(c.display[i]));
    if Required(c.evidence, MAX_EVIDENCE_BYTES).None? then None
    else if exists i :: 0 <= i < |display| && |display[i]| > MAX_DISPLAY_BYTES then None
    else if forall i :: 0 <= i < |display| ==> display[i] == "" then None
    else Some(Counterparty(Trim(c.evidence), display))
  }

  function NormalizeRule(source: Rule): Option<Rule> {
    var classification := NormalizeClassification(source.classification);
    var currency, status := CurrencyCode(source.currency), TypeName(source.status);
    if Required(source.evidence, MAX_EVIDENCE_BYTES).None? || classification.None? || !ExactKey(source.accountKey)
       || currency.None? || status.None? then None
    else
      var c := classification.value;
      var relationship := NormalizeRelationship(source.relationship, c, currency.value);
      var n := Rule(Trim(source.evidence), source.accountKey, currency.value, status.value, c, NoSide, "", None,
                    NO_RELATIONSHIP);
      if relationship.None? then None
      else if c.kind == Conversion && (c.direction != InternalTransfer || c.rateUse != ConversionRate) then None
      else
        var m := n.(relationship := relationship.value);
        if c.action != Apply then
          if source.side != NoSide || source.otherKey != "" || source.counterparty != None
             || source.relationship.strategy != NoStrategy
          then None else Some(m)
        else if c.direction == Inflow || c.direction == Outflow then
          if source.side != NoSide || source.otherKey != "" then None
          else if source.counterparty == None then Some(m)
          else
            match NormalizeCounterparty(source.counterparty.value)
            case None => None
            case Some(p) => Some(m.(counterparty := Some(p)))
        else if source.counterparty != None then None
        else if c.kind == Conversion && source.relationship.strategy == ConversionGroup then
          if source.side != NoSide || source.otherKey != "" then None else Some(m)
        else if source.side != FromSide && source.side != ToSide then None
        else if !ExactKey(source.otherKey) || source.otherKey == source.accountKey then None
        else Some(m.(side := source.side, otherKey := source.otherKey))
  }

  // ---- Compilation -----------------------------------------------------------------------

  datatype RuleKey = RuleKey(
    accountKey: string, transactionType: string, sourceType: string, currency: string, status: string)

  function RuleKeyOf(r: Rule): RuleKey {
    RuleKey(r.accountKey, r.classification.transactionType, r.classification.sourceType, r.currency, r.status)
  }

  /** What the rule table keeps of a rule. */
  datatype RuntimeRule = RuntimeRule(
    side: Side, otherKey: string, counterparty: Option<Counterparty>, relationship: RelationshipRule,
    transferDetails: bool)

  /** Whether the counterparty of a matched event may be looked up in its transfer. */
  predicate UsesTransferDetails(c: Classification) {
    && c.action == Apply && c.kind == Principal && c.direction == Outflow
    && Upper(c.transactionType) == "PAYOUT" && Upper(c.sourceType) == "PAYOUT"
  }

  function RuntimeOf(r: Rule): RuntimeRule {
    RuntimeRule(r.side, r.otherKey, r.counterparty, r.relationship, UsesTransferDetails(r.classification))
  }

  datatype Compiled = Compiled(classifications: seq<Classification>, rules: map<RuleKey, RuntimeRule>)

  datatype Outcome = Rejected | Disabled | Ready(compiled: Compiled)

  predicate RulesNormalize(rules: seq<Rule>) {
    forall i :: 0 <= i < |rules| ==> NormalizeRule(rules[i]).Some?
  }

  function Normals(rules: seq<Rule>): (ns: seq<Rule>)
    requires RulesNormalize(rules)
    ensures |ns| == |rules| && forall i :: 0 <= i < |rules| ==> ns[i] == NormalizeRule(rules[i]).value
  {
    seq(|rules|, i requires 0 <= i < |rules| => NormalizeRule(rules[i]).value)
  }

  /** Normalized rules agree on each classification ... */
  ghost predicate Agree(ns: seq<Rule>) {
    forall i, j :: 0 <= i < j < |ns| && KeyOf(ns[i].classification) == KeyOf(ns[j].classification) ==>
      ns[i].classification == ns[j].classification
  }

  /** ... and no two cover the same exact tuple. */
  ghost predicate Distinct(ns: seq<Rule>) {
    forall i, j :: 0 <= i < j < |ns| ==> RuleKeyOf(ns[i]) != RuleKeyOf(ns[j])
  }

  ghost predicate Acceptable(config: Config) {
    && ApiVersion(config.apiVersion)
    && Version(config.schemaVersion) && Version(config.eventVersion) && Version(config.mappingVersion)
    && config.factVersion > 0 && 1 <= |config.rules| <= MAX_RULES
    && RulesNormalize(config.rules) && Agree(Normals(config.rules)) && Distinct(Normals(config.rules))
  }

  /** The classification table holds exactly what the rules say, and so does the rule table. */
  ghost predicate ClassesOf(ns: seq<Rule>, classes: map<ClassKey, Classification>) {
    && (forall i :: 0 <= i < |ns| ==>
          KeyOf(ns[i].classification) in classes && classes[KeyOf(ns[i].classification)] == ns[i].classification)
    && (forall k :: k in classes ==> exists i :: 0 <= i < |ns| && KeyOf(ns[i].classification) == k)
  }

  ghost predicate TableOf(ns: seq<Rule>, table: map<RuleKey, RuntimeRule>) {
    && (forall i :: 0 <= i < |ns| ==> RuleKeyOf(ns[i]) in table && table[RuleKeyOf(ns[i])] == RuntimeOf(ns[i]))
    && (forall k :: k in table ==> exists i :: 0 <= i < |ns| && RuleKeyOf(ns[i]) == k)
  }

  predicate ClassKeyLess(a: ClassKey, b: ClassKey) {
    LexLess(a.transactionType, b.transactionType)
    || (a.transactionType == b.transactionType && LexLess(a.sourceType, b.sourceType))
  }

  /** The classification list: the table's values by strictly increasing key. */
  ghost predicate Lists(classes: map<ClassKey, Classification>, list: seq<Classification>) {
    && (forall i, j :: 0 <= i < j < |list| ==> ClassKeyLess(KeyOf(list[i]), KeyOf(list[j])))
    && (forall i :: 0 <= i < |list| ==> KeyOf(list[i]) in classes && classes[KeyOf(list[i])] == list[i])
    && (forall k :: k in classes ==> exists i :: 0 <= i < |list| && KeyOf(list[i]) == k)
  }

  lemma ClassKeyOrder()
    ensures StrictTotal(ClassKeyLess)
  {
    hide LexLess;
    LexStrictTotal();
  }

  lemma ClassSnoc(ns: seq<Rule>, r: Rule, classes: map<ClassKey, Classification>)
    requires Agree(ns) && ClassesOf(ns, classes)
    ensures var key := KeyOf(r.classification);
            && (Agree(ns + [r]) <==> (key in classes ==> classes[key] == r.classification))
            && (Agree(ns + [r]) ==> ClassesOf(ns + [r], classes[key := r.classification]))
  {
    hide KeyOf;
    var key, all := KeyOf(r.classification), ns + [r];
    assert all[|ns|] == r;
    if key in classes {
      var j :| 0 <= j < |ns| && KeyOf(ns[j].classification) == key;
      assert all[j] == ns[j];
      assert classes[key] == ns[j].classification;
    }
    if Agree(all) {
      var classes' := classes[key := r.classification];
      forall k | k in classes'
        ensures exists i :: 0 <= i < |all| && KeyOf(all[i].classification) == k
      {
        if k != key {
          var j :| 0 <= j < |ns| && KeyOf(ns[j].classification) == k;
          assert all[j] == ns[j];
        }
      }
    }
  }

  lemma TableSnoc(ns: seq<Rule>, r: Rule, table: map<RuleKey, RuntimeRule>)
    requires Distinct(ns) && TableOf(ns, table)
    ensures Distinct(ns + [r]) <==> RuleKeyOf(r) !in table
    ensures Distinct(ns + [r]) ==> TableOf(ns + [r], table[RuleKeyOf(r) := RuntimeOf(r)])
  {
    hide RuleKeyOf, RuntimeOf;
    var key, all := RuleKeyOf(r), ns + [r];
    assert all[|ns|] == r;
    if key in table {
      var j :| 0 <= j < |ns| && RuleKeyOf(ns[j]) == key;
      assert all[j] == ns[j];
    } else {
      var table' := table[key := RuntimeOf(r)];
      forall k | k in table'
        ensures exists i :: 0 <= i < |all| && RuleKeyOf(all[i]) == k
      {
        if k != key {
          var j :| 0 <= j < |ns| && RuleKeyOf(ns[j]) == k;
          assert all[j] == ns[j];
        }
      }
    }
  }

  lemma NormalsSnoc(rules: seq<Rule>, i: nat)
    requires i < |rules| && RulesNormalize(rules[..i]) && NormalizeRule(rules[i]).Some?
    ensures RulesNormalize(rules[..i + 1])
    ensures Normals(rules[..i + 1]) == Normals(rules[..i]) + [NormalizeRule(rules[i]).value]
  {
    hide NormalizeRule;
    assert rules[..i + 1] == rules[..i] + [rules[i]];
  }

  /** A prefix that fails fails the whole list. */
  lemma BadPrefix(rules: seq<Rule>, i: nat)
    requires i <= |rules|
    ensures RulesNormalize(rules) && Agree(Normals(rules)) && Distinct(Normals(rules)) ==>
              RulesNormalize(rules[..i]) && Agree(Normals(rules[..i])) && Distinct(Normals(rules[..i]))
  {
    hide NormalizeRule, KeyOf, RuleKeyOf;
    if RulesNormalize(rules) {
      assert Normals(rules[..i]) == Normals(rules)[..i];
    }
  }

  lemma BadRule(rules: seq<Rule>, i: nat)
    requires i < |rules| && NormalizeRule(rules[i]).None?
    ensures !RulesNormalize(rules)
  {
    hide NormalizeRule;
  }

  /** The two tables a configuration is compiled into, the first one as a sorted list. */
  ghost predicate CompilesTo(config: Config, compiled: Compiled)
    requires RulesNormalize(config.rules)
  {
    && TableOf(Normals(config.rules), compiled.rules)
    && exists classes :: ClassesOf(Normals(config.rules), classes) && Lists(classes, compiled.classifications)
  }

  /** normalizeAirwallexFinancialTransactionsRuntimeConfig: an enabled configuration is
      accepted exactly when every rule is sound by itself and the rules agree, and then the
      two tables are what the rules say. */
  method Compile(config: Config) returns (r: Outcome)
    ensures r.Disabled? <==> config == Config(false, "", "", "", "", 0, [])
    ensures r.Ready? <==> config.enabled && Acceptable(config)
    ensures r.Ready? ==> CompilesTo(config, r.compiled)
  {
    hide NormalizeRule, ClassesOf, TableOf, Agree, Distinct, RulesNormalize, ApiVersion, Version, ClassKeyLess, KeyOf;
    hide RuleKeyOf, StrictTotal;
    if !config.enabled {
      return if config == Config(false, "", "", "", "", 0, []) then Disabled else Rejected;
    }
    if !ApiVersion(config.apiVersion) || !Version(config.schemaVersion) || !Version(config.eventVersion)
       || !Version(config.mappingVersion) || config.factVersion <= 0
       || |config.rules| == 0 || |config.rules| > MAX_RULES {
      return Rejected;
    }
    var classes: map<ClassKey, Classification> := map[];
    var table: map<RuleKey, RuntimeRule> := map[];
    NoRules(config.rules);
    for i := 0 to |config.rules|
      invariant RulesNormalize(config.rules[..i])
      invariant Agree(Normals(config.rules[..i])) && ClassesOf(Normals(config.rules[..i]), classes)
      invariant Distinct(Normals(config.rules[..i])) && TableOf(Normals(config.rules[..i]), table)
    {
      var normalized := NormalizeRule(config.rules[i]);
      if normalized.None? {
        BadRule(config.rules, i);
        return Rejected;
      }
      var rule := normalized.value;
      NormalsSnoc(config.rules, i);
      ClassSnoc(Normals(config.rules[..i]), rule, classes);
      TableSnoc(Normals(config.rules[..i]), rule, table);
      var key := KeyOf(rule.classification);
      if (key in classes && classes[key] != rule.classification) || RuleKeyOf(rule) in table {
        BadPrefix(config.rules, i + 1);
        return Rejected;
      }
      classes := classes[key := rule.classification];
      table := table[RuleKeyOf(rule) := RuntimeOf(rule)];
    }
    assert config.rules[..|config.rules|] == config.rules;
    ClassKeyOrder();
    var keys := SortedList(ClassKeyLess, classes.Keys);
    KeysMatch(Normals(config.rules), classes);
    var list := seq(|keys|, i requires 0 <= i < |keys| => assert keys[i] in keys; classes[keys[i]]);
    KeysList(classes, keys, list);
    return Ready(Compiled(list, table));
  }

  lemma NoRules(rules: seq<Rule>)
    ensures RulesNormalize(rules[..0])
    ensures Agree(Normals(rules[..0])) && ClassesOf(Normals(rules[..0]), map[])
    ensures Distinct(Normals(rules[..0])) && TableOf(Normals(rules[..0]), map[])
  {
  }

  lemma KeysMatch(ns: seq<Rule>, classes: map<ClassKey, Classification>)
    requires ClassesOf(ns, classes)
    ensures forall k :: k in classes ==> KeyOf(classes[k]) == k
  {
    hide KeyOf;
  }

  lemma KeysList(classes: map<ClassKey, Classification>, keys: seq<ClassKey>, list: seq<Classification>)
    requires StrictlySorted(ClassKeyLess, keys) && forall k :: k in keys <==> k in classes
    requires forall k :: k in classes ==> KeyOf(classes[k]) == k
    requires |list| == |keys| && forall i :: 0 <= i < |keys| ==> keys[i] in classes && list[i] == classes[keys[i]]
    ensures Lists(classes, list)
  {
    hide ClassKeyLess, KeyOf;
    forall k | k in classes
      ensures exists i :: 0 <= i < |list| && KeyOf(list[i]) == k
    {
      var i :| 0 <= i < |keys| && keys[i] == k;
      assert KeyOf(list[i]) == k;
    }
  }

  // ---- What acceptance guarantees ----------------------------------------------------------

  lemma TypeNameTwice(value: string)
    requires TypeName(value).Some?
    ensures TypeName(TypeName(value).value) == TypeName(value)
  {
    hide Trim;
    var t := Trim(value);
    TrimIdempotent(value);
    UpperIdempotent(t);
    TrimIdempotent(Upper(t));
    assert forall c :: c in Upper(t) && (c == '*' || c == '?') ==> c in t;
  }

  /** Normalizing a classification twice is normalizing it once. */
  lemma ClassificationTwice(c: Classification)
    requires NormalizeClassification(c).Some?
    ensures NormalizeClassification(NormalizeClassification(c).value) == NormalizeClassification(c)
  {
    hide Trim, TypeName;
    TypeNameTwice(c.transactionType);
    TypeNameTwice(c.sourceType);
    TrimTwice(c.reason);
  }

  // ---- The strict normalizer's own check -----------------------------------------------------

  /** A list the strict normalizer accepts: each member normalizes, no two to the same key. */
  ghost predicate StrictList(list: seq<Classification>) {
    && (forall i :: 0 <= i < |list| ==> NormalizeClassification(list[i]).Some?)
    && forall i, j :: 0 <= i < j < |list| ==>
         KeyOf(NormalizeClassification(list[i]).value) != KeyOf(NormalizeClassification(list[j]).value)
  }

  /** The strict normalizer's table of such a list. */
  ghost predicate StrictTable(list: seq<Classification>, table: map<ClassKey, Classification>) {
    && (forall i :: 0 <= i < |list| ==>
          var n := NormalizeClassification(list[i]);
          n.Some? && KeyOf(n.value) in table && table[KeyOf(n.value)] == n.value)
    && (forall k :: k in table ==>
          exists i :: 0 <= i < |list| && NormalizeClassification(list[i]).Some?
                      && KeyOf(NormalizeClassification(list[i]).value) == k)
  }

  /** NewAirwallexFinancialTransactionNormalizer: everything is checked again. */
  method StrictNormalizer(schemaVersion: string, eventVersion: string, mappingVersion: string, factVersion: int,
                          list: seq<Classification>)
    returns (r: Option<map<ClassKey, Classification>>)
    ensures r.Some? <==>
            && Required(schemaVersion, MAX_VERSION_BYTES).Some? && Required(eventVersion, MAX_VERSION_BYTES).Some?
            && Required(mappingVersion, MAX_VERSION_BYTES).Some? && factVersion > 0
            && list != [] && StrictList(list)
    ensures r.Some? ==> StrictTable(list, r.value)
  {
    hide NormalizeClassification, KeyOf, Required;
    if Required(schemaVersion, MAX_VERSION_BYTES).None? || Required(eventVersion, MAX_VERSION_BYTES).None?
       || Required(mappingVersion, MAX_VERSION_BYTES).None? || factVersion <= 0 || list == [] {
      return None;
    }
    var table: map<ClassKey, Classification> := map[];
    for i := 0 to |list|
      invariant StrictList(list[..i]) && StrictTable(list[..i], table)
    {
      assert list[..i + 1] == list[..i] + [list[i]];
      var n := NormalizeClassification(list[i]);
      StrictSnoc(list[..i], list[i], table);
      if n.None? || KeyOf(n.value) in table {
        StrictPrefix(list, i + 1);
        return None;
      }
      table := table[KeyOf(n.value) := n.value];
    }
    assert list[..|list|] == list;
    return Some(table);
  }

  lemma StrictSnoc(list: seq<Classification>, c: Classification, table: map<ClassKey, Classification>)
    requires StrictList(list) && StrictTable(list, table)
    ensures var n := NormalizeClassification(c);
            && (StrictList(list + [c]) <==> n.Some? && KeyOf(n.value) !in table)
            && (StrictList(list + [c]) ==> StrictTable(list + [c], table[KeyOf(n.value) := n.value]))
  {
    hide NormalizeClassification, KeyOf;
    var n, all := NormalizeClassification(c), list + [c];
    assert all[|list|] == c;
    assert forall i :: 0 <= i < |list| ==> all[i] == list[i];
    if n.Some? && KeyOf(n.value) in table {
      var i :| 0 <= i < |list| && NormalizeClassification(list[i]).Some?
               && KeyOf(NormalizeClassification(list[i]).value) == KeyOf(n.value);
      assert all[i] == list[i];
    } else if n.Some? {
      var table' := table[KeyOf(n.value) := n.value];
      forall k | k in table'
        ensures exists i :: 0 <= i < |all| && NormalizeClassification(all[i]).Some?
                            && KeyOf(NormalizeClassification(all[i]).value) == k
      {
        if k != KeyOf(n.value) {
          var i :| 0 <= i < |list| && NormalizeClassification(list[i]).Some?
                   && KeyOf(NormalizeClassification(list[i]).value) == k;
          assert all[i] == list[i];
        }
      }
    }
  }

  /** A prefix that is refused fails the whole list. */
  lemma StrictPrefix(list: seq<Classification>, i: nat)
    requires i <= |list|
    ensures StrictList(list) ==> StrictList(list[..i])
  {
    hide NormalizeClassification, KeyOf;
  }

  /** The strict normalizer never refuses what the compiler hands it, and the table it builds
      from the sorted list is the classification table the rules were compiled into. */
  lemma StrictNormalizerAccepts(config: Config, classes: map<ClassKey, Classification>, list: seq<Classification>)
    requires Acceptable(config) && ClassesOf(Normals(config.rules), classes) && Lists(classes, list)
    ensures Required(config.schemaVersion, MAX_VERSION_BYTES).Some?
    ensures Required(config.eventVersion, MAX_VERSION_BYTES).Some?
    ensures Required(config.mappingVersion, MAX_VERSION_BYTES).Some?
    ensures list != [] && StrictList(list) && StrictTable(list, classes)
    ensures forall table :: StrictTable(list, table) ==> table == classes
  {
    hide NormalizeRule, NormalizeClassification, KeyOf, Agree, Distinct, TableOf, ClassKeyLess, Trim, ApiVersion;
    forall i | 0 <= i < |list|
      ensures NormalizeClassification(list[i]) == Some(list[i])
    {
      var j :| 0 <= j < |config.rules| && KeyOf(Normals(config.rules)[j].classification) == KeyOf(list[i]);
      RuleClassificationIsNormal(config.rules[j]);
    }
    DistinctKeys(list);
    assert KeyOf(Normals(config.rules)[0].classification) in classes;
    forall table | StrictTable(list, table)
      ensures table == classes
    {
      StrictTableIs(list, table, classes);
    }
  }

  lemma RuleClassificationIsNormal(r: Rule)
    requires NormalizeRule(r).Some?
    ensures var c := NormalizeRule(r).value.classification; NormalizeClassification(c) == Some(c)
  {
    hide Trim, TypeName, CurrencyCode, NormalizeClassification, NormalizeRelationship, NormalizeCounterparty;
    ClassificationTwice(r.classification);
  }

  lemma DistinctKeys(list: seq<Classification>)
    requires forall i, j :: 0 <= i < j < |list| ==> ClassKeyLess(KeyOf(list[i]), KeyOf(list[j]))
    ensures forall i, j :: 0 <= i < j < |list| ==> KeyOf(list[i]) != KeyOf(list[j])
  {
    hide ClassKeyLess, KeyOf;
    ClassKeyOrder();
  }

  lemma StrictTableIs(
      list: seq<Classification>, table: map<ClassKey, Classification>, classes: map<ClassKey, Classification>)
    requires forall i :: 0 <= i < |list| ==> NormalizeClassification(list[i]) == Some(list[i])
    requires StrictTable(list, table) && Lists(classes, list)
    ensures table == classes
  {
    hide NormalizeClassification, KeyOf, ClassKeyLess;
    forall k | k in table ensures k in classes && table[k] == classes[k] {
      var i :| 0 <= i < |list| && NormalizeClassification(list[i]).Some?
               && KeyOf(NormalizeClassification(list[i]).value) == k;
      assert classes[KeyOf(list[i])] == list[i];
    }
    forall k | k in classes ensures k in table {
      var i :| 0 <= i < |list| && KeyOf(list[i]) == k;
      assert NormalizeClassification(list[i]) == Some(list[i]);
    }
  }

  // ---- An event ----------------------------------------------------------------------------

  datatype Event = Event(
    accountKey: string, transactionType: string, sourceType: string, currency: string, status: string,
    sourceId: string, batchId: string)

  datatype Account = Account(id: int, key: string)

  /** Enabled accounts by trimmed provider key, as the account registry publishes them. */
  ghost predicate WellFormed(registry: map<string, Account>) {
    && (forall k :: k in registry ==> registry[k].key == k && ExactKey(k) && registry[k].id > 0)
    && (forall k, l :: k in registry && l in registry && registry[k].id == registry[l].id ==> k == l)
  }

  function InputKey(e: Event): Option<RuleKey> {
    var t, s := TypeName(Trim(e.transactionType)), TypeName(Trim(e.sourceType));
    var c, st := CurrencyCode(Trim(e.currency)), TypeName(Trim(e.status));
    if !ExactKey(e.accountKey) || t.None? || s.None? || c.None? || st.None? then None
    else Some(RuleKey(e.accountKey, t.value, s.value, c.value, st.value))
  }

  function Lookup(table: map<RuleKey, RuntimeRule>, e: Event): Option<RuntimeRule> {
    match InputKey(e)
    case None => None
    case Some(k) => if k in table then Some(table[k]) else None
  }

  // ---- Relationship resolution -----------------------------------------------------------

  datatype Reference = NoReference | ExactParentRef | ReversalRef | ConversionRef | SourceGroupRef | BatchGroupRef
  datatype TaskKind = FeeRelationship | ConversionPair | ReversalRelationship
  datatype GroupState = NoState | Incomplete | Complete

  datatype Relationship = Relationship(
    parent: string, reversalOf: string, reference: Reference, referenceKey: string, groupKey: string,
    conversionGroup: string, leg: Leg, state: GroupState)

  const NO_LINK := Relationship("", "", NoReference, "", "", "", NoLeg, NoState)

  datatype Task = Task(
    kind: TaskKind, reference: Reference, referenceKey: string, groupKey: string, evidence: string, sla: int)

  /** RESOLVED, or WAITING with the task that will finish it. */
  datatype Resolution = Resolved(link: Relationship) | Waiting(link: Relationship, task: Task)

  /** What the strategy looks up in the event. */
  function ReferenceFor(strategy: Strategy, e: Event): string {
    if strategy == BatchGroup then Trim(e.batchId) else Trim(e.sourceId)
  }

  function ResolveRelationship(rule: RelationshipRule, e: Event): Option<Resolution> {
    var reference := ReferenceFor(rule.strategy, e);
    if rule.strategy == NoStrategy then Some(Resolved(NO_LINK))
    else if reference == "" then None
    else
      match rule.strategy
      case SourceGroup => Some(Resolved(
        NO_LINK.(reference := SourceGroupRef, referenceKey := reference, groupKey := reference)))
      case BatchGroup => Some(Resolved(
        NO_LINK.(reference := BatchGroupRef, referenceKey := reference, groupKey := reference)))
      case ExactParent => Some(Waiting(
        NO_LINK.(parent := "pending-parent:" + reference, reference := ExactParentRef, referenceKey := reference),
        Task(FeeRelationship, ExactParentRef, reference, "", rule.evidence, rule.sla)))
      case ReversalTarget => Some(Waiting(
        NO_LINK.(reversalOf := "pending-reversal:" + reference, reference := ReversalRef, referenceKey := reference),
        Task(ReversalRelationship, ReversalRef, reference, "", rule.evidence, rule.sla)))
      case ConversionGroup => Some(Waiting(
        Relationship("", "", ConversionRef, reference, reference, reference, rule.leg, Incomplete),
        Task(ConversionPair, ConversionRef, reference, reference, rule.evidence, rule.sla)))
      case _ => None
  }

  /** normalizeAirwallexRelationship. */
  function NormalizeLink(l: Relationship): Relationship {
    var n := l.(parent := Trim(l.parent), reversalOf := Trim(l.reversalOf), referenceKey := Trim(l.referenceKey),
                groupKey := Trim(l.groupKey), conversionGroup := Trim(l.conversionGroup));
    if n.reference != NoReference then n
    else if n.parent != "" then n.(reference := ExactParentRef, referenceKey := n.parent)
    else if n.reversalOf != "" then n.(reference := ReversalRef, referenceKey := n.reversalOf)
    else if n.conversionGroup != "" then
      n.(reference := ConversionRef, referenceKey := n.conversionGroup, groupKey := n.conversionGroup)
    else n
  }

  // ---- Account resolution and the relationship check ---------------------------------------

  /** The company accounts on the two ends of a movement. */
  datatype Ends = Ends(from: Option<int>, to: Option<int>)

  function ResolveAccounts(kind: Kind, direction: Direction, own: Account, other: Option<Account>, side: Side)
    : Option<Ends>
  {
    match direction
    case Inflow => if other.Some? || side != NoSide then None else Some(Ends(None, Some(own.id)))
    case Outflow => if other.Some? || side != NoSide then None else Some(Ends(Some(own.id), None))
    case InternalTransfer =>
      if kind == Conversion && other == None && side == NoSide then Some(Ends(Some(own.id), Some(own.id)))
      else if other == None || (side != FromSide && side != ToSide) then None
      else if other.value.id <= 0 || Required(other.value.key, MAX_KEY_BYTES).None? || other.value.id == own.id
      then None
      else if side == FromSide then Some(Ends(Some(own.id), Some(other.value.id)))
      else Some(Ends(Some(other.value.id), Some(own.id)))
    case _ => None
  }

  /** ValidateMovementRelationship. */
  predicate RelationshipValid(c: Classification, ends: Ends, l: Relationship) {
    && ValidKind(c.kind) && ValidMode(c.mode) && ValidDirection(c.direction)
    && (ends.from.Some? || ends.to.Some?)
    && (c.direction == Inflow ==> ends.to.Some?)
    && (c.direction == Outflow ==> ends.from.Some?)
    && (c.direction == InternalTransfer ==> ends.from.Some? && ends.to.Some?)
    && (c.kind == Fee ==>
          || Trim(l.parent) != ""
          || ((l.reference == BatchGroupRef || l.reference == SourceGroupRef)
              && Trim(l.referenceKey) != "" && Trim(l.groupKey) != ""))
    && (c.kind == Reversal ==> Trim(l.reversalOf) != "")
    && (c.kind == Conversion ==> Trim(l.conversionGroup) != "" && ValidLeg(l.leg) && l.state != NoState)
  }

  lemma StartsNonBlank(s: string)
    requires s != "" && !IsSpace(s[0])
    ensures Trim(s) != "" && Trim(Trim(s)) != ""
  {
    TrimRightKeepsHead(s);
    TrimTwice(s);
  }

  lemma TrimmedReference(strategy: Strategy, e: Event)
    ensures var t := ReferenceFor(strategy, e); Trim(t) == t
  {
    TrimTwice(e.batchId);
    TrimTwice(e.sourceId);
  }

  /** What an accepted rule says about its classification and its relationship. */
  ghost predicate Sound(r: Rule) {
    var c := r.classification;
    && (r.relationship.strategy == NoStrategy ==>
          r.relationship == NO_RELATIONSHIP && (c.action == Apply ==> c.kind !in {Fee, Reversal, Conversion}))
    && (r.relationship.strategy in {ExactParent, BatchGroup, SourceGroup} ==> c.kind == Fee)
    && (r.relationship.strategy == ReversalTarget ==> c.kind == Reversal)
    && (r.relationship.strategy == ConversionGroup ==> c.kind == Conversion && ValidLeg(r.relationship.leg))
    && r.relationship.strategy != BadStrategy
    && (r.relationship.strategy != NoStrategy ==>
          && r.relationship.sla > 0
          && Required(r.relationship.evidence, MAX_EVIDENCE_BYTES) == Some(r.relationship.evidence))
    && (c.action == Apply ==>
          && ValidKind(c.kind) && ValidDirection(c.direction) && ValidMode(c.mode)
          && (c.kind == Conversion ==> c.direction == InternalTransfer)
          && (c.direction != InternalTransfer || c.kind == Conversion ==> r.side == NoSide && r.otherKey == "")
          && (c.direction == InternalTransfer && c.kind != Conversion ==>
                (r.side == FromSide || r.side == ToSide) && ExactKey(r.otherKey) && r.otherKey != r.accountKey))
  }

  lemma AcceptedRuleIsSound(source: Rule)
    requires NormalizeRule(source).Some?
    ensures Sound(NormalizeRule(source).value)
    ensures ExactKey(NormalizeRule(source).value.accountKey)
  {
    hide Trim, TypeName, CurrencyCode, NormalizeCounterparty;
    TrimTwice(source.relationship.evidence);
    ClassificationShape(source.classification);
  }

  lemma ClassificationShape(c: Classification)
    requires NormalizeClassification(c).Some?
    ensures var n := NormalizeClassification(c).value;
            n.action == c.action && n.kind == c.kind && n.direction == c.direction && n.mode == c.mode
            && n.rateUse == c.rateUse
            && (c.action == Apply ==> ValidKind(c.kind) && ValidDirection(c.direction) && ValidMode(c.mode))
  {
    hide Trim, TypeName;
  }

  /** An accepted rule's relationship can be resolved exactly when the event carries the
      reference its strategy looks up; resolution waits exactly for the three strategies
      that need another movement, always with a task of the matching kind. */
  lemma ResolutionFailsOnlyOnBlankReference(r: Rule, e: Event)
    requires Sound(r)
    ensures var strategy := r.relationship.strategy;
            var resolution := ResolveRelationship(r.relationship, e);
            && (resolution.None? <==> strategy != NoStrategy && ReferenceFor(strategy, e) == "")
            && (resolution.Some? ==>
                  && (resolution.value.Waiting? <==> strategy in {ExactParent, ReversalTarget, ConversionGroup})
                  && (resolution.value.Waiting? ==>
                        resolution.value.task.kind
                        == (match r.classification.kind
                            case Reversal => ReversalRelationship
                            case Conversion => ConversionPair
                            case _ => FeeRelationship)))
  {
    hide Trim;
  }

  /** The rule an event matched, seen from the configuration. */
  lemma MatchedRule(
      rules: seq<Rule>, classes: map<ClassKey, Classification>, table: map<RuleKey, RuntimeRule>, e: Event)
      returns (r: Rule)
    requires RulesNormalize(rules) && ClassesOf(Normals(rules), classes) && TableOf(Normals(rules), table)
    requires Lookup(table, e).Some?
    ensures Sound(r) && RuntimeOf(r) == Lookup(table, e).value && r.accountKey == e.accountKey
    ensures TypeName(e.transactionType).Some? && TypeName(e.sourceType).Some?
    ensures var key := ClassKey(TypeName(e.transactionType).value, TypeName(e.sourceType).value);
            key in classes && classes[key] == r.classification
  {
    hide NormalizeRule, Trim, Sound, ExactKey, CurrencyCode, RulesNormalize;
    EventTypes(e);
    var k := InputKey(e).value;
    var i :| 0 <= i < |rules| && RuleKeyOf(Normals(rules)[i]) == k;
    Normalizes(rules, i);
    AcceptedRuleIsSound(rules[i]);
    r := Normals(rules)[i];
  }

  lemma Normalizes(rules: seq<Rule>, i: nat)
    requires RulesNormalize(rules) && i < |rules|
    ensures NormalizeRule(rules[i]).Some?
  {
    hide NormalizeRule;
  }

  /** Trimming first, as the lookup does, makes no difference to the strict normalizer's key. */
  lemma EventTypes(e: Event)
    requires InputKey(e).Some?
    ensures TypeName(e.transactionType) == Some(InputKey(e).value.transactionType)
    ensures TypeName(e.sourceType) == Some(InputKey(e).value.sourceType)
    ensures InputKey(e).value.accountKey == e.accountKey
  {
    hide Trim, Upper;
    TrimTwice(e.transactionType);
    TrimTwice(e.sourceType);
  }

  /** The account key of the counterparty is resolved against the registry. */
  function Other(registry: map<string, Account>, otherKey: string): Option<Account> {
    if otherKey != "" && otherKey in registry then Some(registry[otherKey]) else None
  }

  /** Whose accounts stand on the two ends of a movement that is booked: money comes in to
      the configured account, goes out of it, or runs between it and the counterparty in the
      direction its configured side says. */
  ghost predicate EndsOf(c: Classification, own: Account, other: Option<Account>, side: Side, ends: Ends) {
    && (c.direction == Inflow ==> ends == Ends(None, Some(own.id)))
    && (c.direction == Outflow ==> ends == Ends(Some(own.id), None))
    && (c.direction == InternalTransfer && c.kind == Conversion ==> ends == Ends(Some(own.id), Some(own.id)))
    && (c.direction == InternalTransfer && c.kind != Conversion ==>
          && other.Some? && other.value.id != own.id && side in {FromSide, ToSide}
          && (side == FromSide ==> ends == Ends(Some(own.id), Some(other.value.id)))
          && (side == ToSide ==> ends == Ends(Some(other.value.id), Some(own.id))))
  }

  /** Acceptance is sound. When an accepted configuration matches an event whose account
      and counterparty the registry knows and whose reference is not blank, the table the
      strict normalizer builds from the compiled list has the event's classification, and for
      APPLY neither account resolution nor the relationship check can reject. */
  lemma AcceptedConfigNeverRejects(
      config: Config, compiled: Compiled, strict: map<ClassKey, Classification>, registry: map<string, Account>,
      e: Event)
    requires Acceptable(config) && CompilesTo(config, compiled) && StrictTable(compiled.classifications, strict)
    requires WellFormed(registry) && e.accountKey in registry
    requires Lookup(compiled.rules, e).Some?
    requires var rule := Lookup(compiled.rules, e).value;
             && (rule.otherKey != "" ==> rule.otherKey in registry)
             && (rule.relationship.strategy != NoStrategy ==> ReferenceFor(rule.relationship.strategy, e) != "")
    ensures TypeName(e.transactionType).Some? && TypeName(e.sourceType).Some?
    ensures var key := ClassKey(TypeName(e.transactionType).value, TypeName(e.sourceType).value);
            var rule := Lookup(compiled.rules, e).value;
            && key in strict
            && var c := strict[key];
            && rule.transferDetails == UsesTransferDetails(c)
            && var resolution := ResolveRelationship(rule.relationship, e);
            && resolution.Some?
            && (c.action == Apply ==>
                  var ends := ResolveAccounts(c.kind, c.direction, registry[e.accountKey],
                                              Other(registry, rule.otherKey), rule.side);
                  && ends.Some? && RelationshipValid(c, ends.value, NormalizeLink(resolution.value.link))
                  && EndsOf(c, registry[e.accountKey], Other(registry, rule.otherKey), rule.side, ends.value))
  {
    hide Trim, ClassesOf, TableOf, RulesNormalize, Agree, Distinct, TypeName, Lookup, ApiVersion, Lists, StrictTable;
    hide UsesTransferDetails;
    var classes :| ClassesOf(Normals(config.rules), classes) && Lists(classes, compiled.classifications);
    StrictNormalizerAccepts(config, classes, compiled.classifications);
    var r := MatchedRule(config.rules, classes, compiled.rules, e);
    ResolutionFailsOnlyOnBlankReference(r, e);
    if r.classification.action == Apply {
      AccountsResolve(r, registry);
      LinkValid(r, e);
    }
  }

  lemma AccountsResolve(r: Rule, registry: map<string, Account>)
    requires Sound(r) && r.classification.action == Apply
    requires WellFormed(registry) && r.accountKey in registry && (r.otherKey != "" ==> r.otherKey in registry)
    ensures var c := r.classification;
            var own, other := registry[r.accountKey], if r.otherKey == "" then None else Some(registry[r.otherKey]);
            var ends := ResolveAccounts(c.kind, c.direction, own, other, r.side);
            && other == Other(registry, r.otherKey)
            && ends.Some? && EndsOf(c, own, other, r.side, ends.value)
            && (c.direction != Outflow ==> ends.value.to.Some?)
            && (c.direction != Inflow ==> ends.value.from.Some?)
  {
    hide Trim;
  }

  lemma LinkValid(r: Rule, e: Event)
    requires Sound(r) && r.classification.action == Apply && ResolveRelationship(r.relationship, e).Some?
    ensures var c, l := r.classification, NormalizeLink(ResolveRelationship(r.relationship, e).value.link);
            && (c.kind == Fee ==>
                  || Trim(l.parent) != ""
                  || ((l.reference == BatchGroupRef || l.reference == SourceGroupRef)
                      && Trim(l.referenceKey) != "" && Trim(l.groupKey) != ""))
            && (c.kind == Reversal ==> Trim(l.reversalOf) != "")
            && (c.kind == Conversion ==> Trim(l.conversionGroup) != "" && ValidLeg(l.leg) && l.state != NoState)
  {
    hide Trim;
    var reference := ReferenceFor(r.relationship.strategy, e);
    TrimmedReference(r.relationship.strategy, e);
    StartsNonBlank("pending-parent:" + reference);
    StartsNonBlank("pending-reversal:" + reference);
  }

  // ---- The deferred task -------------------------------------------------------------------

  const MAX_REFERENCE_BYTES := 256

  /** The checks a deferred task has to pass before it is stored, for a subject the strict
      normalizer accepted. A duration is rounded down to microseconds. */
  predicate TaskAccepted(t: Task) {
    && Trim(t.referenceKey) != "" && |t.referenceKey| <= MAX_REFERENCE_BYTES
    && Trim(t.evidence) != "" && |t.evidence| <= MAX_EVIDENCE_BYTES
    && t.sla > 0 && t.sla / 1000 > 0
    && (t.kind == FeeRelationship ==> |"pending-parent:" + t.referenceKey| <= MAX_REFERENCE_BYTES)
    && (t.kind == ReversalRelationship ==> |"pending-reversal:" + t.referenceKey| <= MAX_REFERENCE_BYTES)
  }

  /** Acceptance of a rule does not guarantee acceptance of its task: the task is accepted
      exactly when the SLA is at least one microsecond and the reference leaves room for the
      marker in front of it. */
  lemma TaskAcceptedExactly(r: Rule, e: Event)
    requires Sound(r)
    requires ResolveRelationship(r.relationship, e).Some? && ResolveRelationship(r.relationship, e).value.Waiting?
    ensures TaskAccepted(ResolveRelationship(r.relationship, e).value.task)
            <==> r.relationship.sla >= 1000
                 && |ReferenceFor(r.relationship.strategy, e)|
                    <= (match r.relationship.strategy case ExactParent => 241 case ReversalTarget => 239 case _ => 256)
  {
    hide Trim;
    TrimmedReference(r.relationship.strategy, e);
  }

  /** A rule with an SLA of 500ns, which passes configuration. */
  const HASTY := Rule(
    "review-1", "acct", "USD", "SETTLED",
    Classification(
      "FEE", "FEE", Apply, "", Fee, Outflow, Single, WholeAmount, Negative, CreatedAt, false, NoSign, NoRate),
    NoSide, "", None, RelationshipRule(ExactParent, "review-2", NoLeg, "", "", 500))

  lemma HastyRule(e: Event)
    requires Trim(e.sourceId) != ""
    ensures NormalizeRule(HASTY) == Some(HASTY)
    ensures ResolveRelationship(HASTY.relationship, e).Some?
    ensures ResolveRelationship(HASTY.relationship, e).value.Waiting?
    ensures !TaskAccepted(ResolveRelationship(HASTY.relationship, e).value.task)
  {
    hide Trim, Required, TypeName, CurrencyCode, NormalizeClassification;
    HastyParts();
  }

  const HASTY_EVENT := Event("acct", "FEE", "FEE", "USD", "SETTLED", "src-1", "")

  const HASTY_CONFIG := Config(true, "2024-02-29", "v1", "v1", "v1", 1, [HASTY])
  const HASTY_COMPILED := Compiled([HASTY.classification], map[RuleKeyOf(HASTY) := RuntimeOf(HASTY)])

  /** The premises of acceptance can be met: a configuration of that one rule is accepted,
      and an event finds it. */
  lemma HastyConfigMatches()
    ensures Acceptable(HASTY_CONFIG) && CompilesTo(HASTY_CONFIG, HASTY_COMPILED)
    ensures StrictTable(HASTY_COMPILED.classifications, map[KeyOf(HASTY.classification) := HASTY.classification])
    ensures WellFormed(map["acct" := Account(1, "acct")])
    ensures Lookup(HASTY_COMPILED.rules, HASTY_EVENT) == Some(RuntimeOf(HASTY))
    ensures ReferenceFor(ExactParent, HASTY_EVENT) != ""
  {
    hide Trim, Upper, NormalizeRule, InputKey, RuntimeOf, Acceptable, CompilesTo, StrictTable, NormalizeClassification;
    hide KeyOf, RuleKeyOf;
    Plain("src-1");
    HastyParts();
    HastyIsAcceptable();
    HastyCompiles();
    HastyKey();
    assert [HASTY.classification][0] == HASTY.classification;
  }

  lemma HastyIsAcceptable()
    ensures Acceptable(HASTY_CONFIG) && Normals([HASTY]) == [HASTY]
  {
    hide Trim, Upper, NormalizeRule, TypeName, CurrencyCode, ApiVersion;
    Plain("v1");
    LeapDay();
    Plain("src-1");
    HastyRule(HASTY_EVENT);
    assert Normals([HASTY]) == [HASTY];
  }

  lemma HastyCompiles()
    ensures RulesNormalize([HASTY]) && CompilesTo(HASTY_CONFIG, HASTY_COMPILED)
    ensures StrictTable(HASTY_COMPILED.classifications, map[KeyOf(HASTY.classification) := HASTY.classification])
  {
    hide Trim, Acceptable, NormalizeRule, NormalizeClassification, ClassesOf, TableOf, KeyOf, RuleKeyOf, RuntimeOf;
    Plain("src-1");
    HastyParts();
    HastyRule(HASTY_EVENT);
    assert Normals([HASTY]) == [HASTY];
    OneRule(HASTY);
    assert [HASTY.classification][0] == HASTY.classification;
    assert Lists(map[KeyOf(HASTY.classification) := HASTY.classification], [HASTY.classification]);
  }

  /** 2024 has a 29 February and 2023 has not. */
  lemma LeapDay()
    ensures ApiVersion("2024-02-29") && !ApiVersion("2023-02-29")
  {
    assert "2024-02-29"[..4] == "2024" && "2024-02-29"[5..7] == "02" && "2024-02-29"[8..] == "29";
    assert "2023-02-29"[..4] == "2023" && "2023-02-29"[5..7] == "02" && "2023-02-29"[8..] == "29";
    Four('2', '0', '2', '4');
    Four('2', '0', '2', '3');
    Two('0', '2');
    Two('2', '9');
  }

  lemma Two(a: char, b: char)
    requires Digits([a, b])
    ensures Number([a, b]) == 10 * (a as int - '0' as int) + (b as int - '0' as int)
  {
    assert [a, b][..1] == [a] && [a][..0] == "";
    assert Number([a]) == a as int - '0' as int;
  }

  lemma Four(a: char, b: char, c: char, d: char)
    requires Digits([a, b, c, d])
    ensures Number([a, b, c, d])
            == 1000 * (a as int - '0' as int) + 100 * (b as int - '0' as int)
               + 10 * (c as int - '0' as int) + (d as int - '0' as int)
  {
    assert [a, b, c, d][..3] == [a, b, c] && [a, b, c][..2] == [a, b];
    assert forall i :: 0 <= i < 3 ==> [a, b, c][i] == [a, b, c, d][i];
    assert forall i :: 0 <= i < 2 ==> [a, b][i] == [a, b, c, d][i];
    Two(a, b);
  }

  lemma OneRule(r: Rule)
    ensures ClassesOf([r], map[KeyOf(r.classification) := r.classification])
    ensures TableOf([r], map[RuleKeyOf(r) := RuntimeOf(r)])
  {
    hide KeyOf, RuleKeyOf, RuntimeOf;
    assert [r][0] == r;
    assert RuleKeyOf([r][0]) == RuleKeyOf(r) && KeyOf([r][0].classification) == KeyOf(r.classification);
  }

  lemma HastyKey()
    ensures InputKey(HASTY_EVENT) == Some(RuleKeyOf(HASTY))
  {
    hide Trim, Upper;
    HastyParts();
    Plain("USD");
    Plain("SETTLED");
    Plain("FEE");
    Shouted("FEE");
  }

  lemma HastyParts()
    ensures NormalizeClassification(HASTY.classification) == Some(HASTY.classification)
    ensures Required("review-1", MAX_EVIDENCE_BYTES) == Some("review-1") && Trim("review-1") == "review-1"
    ensures Required("review-2", MAX_EVIDENCE_BYTES) == Some("review-2") && Trim("review-2") == "review-2"
    ensures ExactKey("acct") && CurrencyCode("USD") == Some("USD") && TypeName("SETTLED") == Some("SETTLED")
  {
    hide Trim, Upper;
    Plain("review-1");
    Plain("review-2");
    Plain("acct");
    Plain("USD");
    Plain("SETTLED");
    Plain("FEE");
    TrimIdempotent("");
    Shouted("USD");
    Shouted("SETTLED");
    Shouted("FEE");
  }

  lemma Shouted(s: string)
    requires forall i :: 0 <= i < |s| ==> 'A' <= s[i] <= 'Z'
    ensures Upper(s) == s
  {
  }

  lemma Plain(s: string)
    requires Trimmed(s)
    ensures Trim(s) == s
  {
    TrimIdempotent(s);
  }
}
