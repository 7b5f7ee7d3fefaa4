/** Fallback movement identities: length-delimited tuples, their digest, and the numbering
    of indistinguishable movements in a batch (internal/companyfund/identity.go). */
module MovementIdentity {
  import opened Wrappers
  import opened Models
  import opened Ordering
  import opened Text

  // ---- lengthDelimitedTuple ----------------------------------------------------------

  function Field(value: string): string {
    Itoa(|value|) + ":" + value
  }

  function Tuple(values: seq<string>): string {
    if values == [] then "" else Field(values[0]) + Tuple(values[1..])
  }

  method LengthDelimitedTuple(values: seq<string>) returns (s: string)
    ensures s == Tuple(values)
  {
    s := "";
    for i := 0 to |values|
      invariant s + Tuple(values[i..]) == Tuple(values)
    {
      assert values[i..][1..] == values[i + 1..];
      s := s + Itoa(|values[i]|) + ":" + values[i];
    }
  }

  /** How many digits a string starts with. */
  function DigitCount(s: string): (n: nat)
    ensures n <= |s| && forall i :: 0 <= i < n ==> '0' <= s[i] <= '9'
  {
    if s != "" && '0' <= s[0] <= '9' then 1 + DigitCount(s[1..]) else 0
  }

  /** The components of a tuple, or nothing when the bytes are not one. */
  function Decode(s: string): Option<seq<string>>
    decreases |s|
  {
    if s == "" then Some([])
    else
      var digits := DigitCount(s);
      if digits == 0 || digits == |s| || s[digits] != ':' then None
      else
        var size := Atoi(s[..digits]);
        var rest := s[digits + 1..];
        if size > |rest| then None
        else
          match Decode(rest[size..])
          case None => None
          case Some(values) => Some([rest[..size]] + values)
  }

  lemma {:induction false} DigitsEnd(digits: string, rest: string)
    requires forall i :: 0 <= i < |digits| ==> '0' <= digits[i] <= '9'
    requires rest != "" && !('0' <= rest[0] <= '9')
    ensures DigitCount(digits + rest) == |digits|
  {
    if digits == "" {
      assert digits + rest == rest;
    } else {
      DigitsEnd(digits[1..], rest);
      assert (digits + rest)[1..] == digits[1..] + rest;
    }
  }

  lemma DecodeField(value: string, tail: string)
    ensures Decode(Field(value) + tail)
            == match Decode(tail) case None => None case Some(values) => Some([value] + values)
  {
    hide Itoa, Atoi, DigitCount;
    var digits, rest := Itoa(|value|), value + tail;
    var s := Field(value) + tail;
    AtoiItoa(|value|);
    assert s == digits + (":" + rest);
    DigitsEnd(digits, ":" + rest);
    assert s[..|digits|] == digits;
    assert s[|digits| + 1..] == rest;
    assert rest[|value|..] == tail && rest[..|value|] == value;
  }

  /** Every tuple decodes to exactly the components it was made of. */
  lemma {:induction false} DecodeTuple(values: seq<string>)
    ensures Decode(Tuple(values)) == Some(values)
  {
    hide Decode, Field;
    if values == [] {
      DecodeNothing();
    } else {
      DecodeTuple(values[1..]);
      DecodeField(values[0], Tuple(values[1..]));
      assert values == [values[0]] + values[1..];
    }
  }

  lemma DecodeNothing()
    ensures Decode("") == Some([])
  {
  }

  /** So distinct component lists, of whatever lengths, encode differently. */
  lemma TupleInjective(a: seq<string>, b: seq<string>)
    requires Tuple(a) == Tuple(b)
    ensures a == b
  {
    DecodeTuple(a);
    DecodeTuple(b);
  }

  lemma ItoaInjective(m: nat, n: nat)
    requires Itoa(m) == Itoa(n)
    ensures m == n
  {
    AtoiItoa(m);
    AtoiItoa(n);
  }

  // ---- Inputs ------------------------------------------------------------------------

  datatype Asset = Asset(currency: string, chainCode: string, providerKey: string, contract: string)

  /** Amounts are counted in the smallest unit. */
  datatype Input = Input(
    channel: string, parent: string, kind: string, asset: Asset, from: string, to: string, amount: int, occurrence: int)

  /** An accepted input after normalization, without its occurrence. */
  datatype Movement = Movement(
    channel: string, parent: string, kind: string, asset: Asset, from: string, to: string, amount: nat)

  /** SHA-256 taken as injective: a digest is known by what was hashed. */
  datatype Digest = Digest(preimage: string)

  datatype Identity = Identity(key: Digest, occurrence: nat, movement: Movement)

  datatype IdentityError = BadChannel | BadKind | NegativeAmount | NoParent | NoAsset | IncompleteChainAsset

  function NormalizeAsset(a: Asset): Asset {
    Asset(TrimUpper(a.currency), TrimUpper(a.chainCode), Trim(a.providerKey), Trim(a.contract))
  }

  function Normalize(input: Input): Result<Movement, IdentityError> {
    var asset := NormalizeAsset(input.asset);
    if !ValidChannel(input.channel) then Err(BadChannel)
    else if !ValidKind(input.kind) then Err(BadKind)
    else if input.amount < 0 then Err(NegativeAmount)
    else if Trim(input.parent) == "" then Err(NoParent)
    else if asset == Asset("", "", "", "") then Err(NoAsset)
    else if asset.chainCode != "" && asset.providerKey == "" && asset.contract == "" then Err(IncompleteChainAsset)
    else Ok(Movement(
        input.channel, Trim(input.parent), input.kind, asset, Trim(input.from), Trim(input.to), input.amount))
  }

  /** The inputs that are accepted, and the errors of the others in checking order. */
  lemma NormalizedExactly(input: Input)
    ensures var r := Normalize(input);
            var channelOk := input.channel in {"SAFEHERON", "AIRWALLEX", "MANUAL"};
            var kindOk := input.kind in {"PRINCIPAL", "FEE", "REVERSAL", "ADJUSTMENT", "CONVERSION"};
            var a := input.asset;
            var named := Trim(a.providerKey) != "" || Trim(a.contract) != "";
            && (r == Err(BadChannel) <==> !channelOk)
            && (r == Err(BadKind) <==> channelOk && !kindOk)
            && (r == Err(NegativeAmount) <==> channelOk && kindOk && input.amount < 0)
            && (r == Err(NoParent) <==> channelOk && kindOk && 0 <= input.amount && Trim(input.parent) == "")
            && (r == Err(NoAsset) <==>
                  && channelOk && kindOk && 0 <= input.amount && Trim(input.parent) != ""
                  && !named && Trim(a.currency) == "" && Trim(a.chainCode) == "")
            && (r == Err(IncompleteChainAsset) <==>
                  && channelOk && kindOk && 0 <= input.amount && Trim(input.parent) != ""
                  && !named && Trim(a.chainCode) != "")
  {
    hide Trim, Upper;
    assert |Upper(Trim(input.asset.chainCode))| == |Trim(input.asset.chainCode)|;
    assert |Upper(Trim(input.asset.currency))| == |Trim(input.asset.currency)|;
  }

  /** What makes two inputs one movement: the names but for outer spaces, currency and chain
      but for their letter case too, and the amount. */
  predicate SameFields(a: Input, b: Input) {
    && a.channel == b.channel && a.kind == b.kind && a.amount == b.amount
    && Trim(a.parent) == Trim(b.parent) && Trim(a.from) == Trim(b.from) && Trim(a.to) == Trim(b.to)
    && Upper(Trim(a.asset.currency)) == Upper(Trim(b.asset.currency))
    && Upper(Trim(a.asset.chainCode)) == Upper(Trim(b.asset.chainCode))
    && Trim(a.asset.providerKey) == Trim(b.asset.providerKey)
    && Trim(a.asset.contract) == Trim(b.asset.contract)
  }

  /** Normalization keeps exactly those fields. */
  lemma NormalizationKeeps(a: Input, b: Input)
    requires Normalize(a).Ok? && Normalize(b).Ok?
    ensures Normalize(a) == Normalize(b) <==> SameFields(a, b)
    ensures var m := Normalize(a).value;
            && m.channel == a.channel && m.kind == a.kind && m.amount == a.amount
            && m.parent == Trim(a.parent) && m.from == Trim(a.from) && m.to == Trim(a.to)
            && m.asset.currency == Upper(Trim(a.asset.currency)) && m.asset.chainCode == Upper(Trim(a.asset.chainCode))
            && m.asset.providerKey == Trim(a.asset.providerKey) && m.asset.contract == Trim(a.asset.contract)
  {
    hide Trim, Upper;
  }

  function AssetKey(a: Asset): string {
    Tuple([a.currency, a.chainCode, a.providerKey, a.contract])
  }

  function Components(m: Movement): seq<string> {
    ["company-fund-movement", "v1", m.channel, m.parent, m.kind, AssetKey(m.asset), m.from, m.to, Itoa(m.amount)]
  }

  function BaseTuple(m: Movement): string {
    Tuple(Components(m))
  }

  function FullTuple(m: Movement, occurrence: nat): string {
    Tuple(Components(m) + [Itoa(occurrence)])
  }

  /** Every tuple says what it identifies, and in which version of the encoding. */
  lemma TuplesAreVersioned(m: Movement, occurrence: nat)
    ensures "21:company-fund-movement" + "2:v1" <= BaseTuple(m)
    ensures "21:company-fund-movement" + "2:v1" <= FullTuple(m, occurrence)
  {
    hide AssetKey;
    VersionPrefix(Components(m));
    VersionPrefix(Components(m) + [Itoa(occurrence)]);
  }

  lemma VersionPrefix(values: seq<string>)
    requires 2 <= |values| && values[0] == "company-fund-movement" && values[1] == "v1"
    ensures "21:company-fund-movement" + "2:v1" <= Tuple(values)
  {
    hide Field, Tuple;
    FirstFields();
    TwoFields(values);
  }

  lemma TwoFields(values: seq<string>)
    requires 2 <= |values|
    ensures Field(values[0]) + Field(values[1]) <= Tuple(values)
  {
    hide Field, Tuple;
    TupleStep(values);
    TupleStep(values[1..]);
    Prefixed(Field(values[0]), Field(values[1]), Tuple(values[1..][1..]));
  }

  lemma TupleStep(values: seq<string>)
    requires values != []
    ensures Tuple(values) == Field(values[0]) + Tuple(values[1..])
  {
  }

  lemma Prefixed(a: string, b: string, tail: string)
    ensures a + b <= a + (b + tail)
  {
  }

  lemma FirstFields()
    ensures Field("company-fund-movement") == "21:company-fund-movement" && Field("v1") == "2:v1"
  {
    hide Itoa;
    Lengths();
    assert |"company-fund-movement"| == 21 && |"v1"| == 2;
    assert "21" + ":" == "21:" && "2" + ":" == "2:";
  }

  lemma Lengths()
    ensures Itoa(21) == "21" && Itoa(2) == "2"
  {
    assert Itoa(21) == Itoa(2) + [DigitChar(1)];
  }

  /** Two movements share a tuple only when they agree in every identity field, nested asset
      fields included; with occurrences, only when those agree too. */
  lemma TuplesIdentify(a: Movement, i: nat, b: Movement, j: nat)
    ensures BaseTuple(a) == BaseTuple(b) <==> a == b
    ensures FullTuple(a, i) == FullTuple(b, j) <==> a == b && i == j
  {
    hide Tuple, Itoa;
    if BaseTuple(a) == BaseTuple(b) {
      TupleInjective(Components(a), Components(b));
      ComponentsIdentify(a, b);
    }
    if FullTuple(a, i) == FullTuple(b, j) {
      TupleInjective(Components(a) + [Itoa(i)], Components(b) + [Itoa(j)]);
      assert (Components(a) + [Itoa(i)])[..9] == Components(a);
      assert (Components(b) + [Itoa(j)])[..9] == Components(b);
      assert (Components(a) + [Itoa(i)])[9] == (Components(b) + [Itoa(j)])[9];
      ComponentsIdentify(a, b);
      ItoaInjective(i, j);
    }
  }

  lemma ComponentsIdentify(a: Movement, b: Movement)
    requires Components(a) == Components(b)
    ensures a == b
  {
    hide Tuple, Itoa;
    var x, y := Components(a), Components(b);
    assert x[2] == y[2] && x[3] == y[3] && x[4] == y[4] && x[5] == y[5] && x[6] == y[6] && x[7] == y[7] && x[8] == y[8];
    ItoaInjective(a.amount, b.amount);
    var p := [a.asset.currency, a.asset.chainCode, a.asset.providerKey, a.asset.contract];
    var q := [b.asset.currency, b.asset.chainCode, b.asset.providerKey, b.asset.contract];
    TupleInjective(p, q);
    assert p[0] == q[0] && p[1] == q[1] && p[2] == q[2] && p[3] == q[3];
  }

  // ---- One movement --------------------------------------------------------------------

  function IdentityOf(m: Movement, occurrence: nat): Identity {
    Identity(Digest(FullTuple(m, occurrence)), occurrence, m)
  }

  /** BuildMovementIdentity: an occurrence that is not positive counts as the first. */
  function Build(input: Input): Result<Identity, IdentityError> {
    match Normalize(input)
    case Err(e) => Err(e)
    case Ok(m) => Ok(IdentityOf(m, if input.occurrence <= 0 then 1 else input.occurrence))
  }

  /** Two accepted inputs have one key if and only if they agree in those fields and are the
      same occurrence, which counts from 1. */
  lemma KeysIdentifyInputs(a: Input, b: Input)
    requires Build(a).Ok? && Build(b).Ok?
    ensures Build(a).value.key == Build(b).value.key
            <==> && SameFields(a, b)
                 && (a.occurrence == b.occurrence || (a.occurrence <= 1 && b.occurrence <= 1))
    ensures 1 <= Build(a).value.occurrence
    ensures 1 <= a.occurrence ==> Build(a).value.occurrence == a.occurrence
  {
    hide Normalize, SameFields, FullTuple, BaseTuple;
    NormalizationKeeps(a, b);
    TuplesIdentify(Normalize(a).value, Build(a).value.occurrence, Normalize(b).value, Build(b).value.occurrence);
  }

  /** The input an accepted movement would be if it came again as stored. */
  function AsInput(m: Movement, occurrence: int): Input {
    Input(m.channel, m.parent, m.kind, m.asset, m.from, m.to, m.amount, occurrence)
  }

  /** The normalized input kept in an identity builds that very identity again, so spacing
      and letter case of what a provider sent do not change keys. */
  lemma StoredInputRebuildsKey(input: Input)
    requires Build(input).Ok?
    ensures var id := Build(input).value; Build(AsInput(id.movement, id.occurrence)) == Ok(id)
  {
    hide Trim, TrimUpper, IdentityOf;
    Occurrence(Normalize(input).value, if input.occurrence <= 0 then 1 else input.occurrence);
    TrimTwice(input.parent);
    TrimTwice(input.from);
    TrimTwice(input.to);
    TrimUpperTwice(input.asset.currency);
    TrimUpperTwice(input.asset.chainCode);
    TrimTwice(input.asset.providerKey);
    TrimTwice(input.asset.contract);
  }

  // ---- A batch -------------------------------------------------------------------------

  predicate TupleLess(a: Movement, b: Movement) {
    LexLess(BaseTuple(a), BaseTuple(b))
  }

  lemma TupleOrder()
    ensures StrictTotal(TupleLess)
  {
    hide LexLess, BaseTuple;
    LexStrictTotal();
    forall x, y
      ensures TupleLess(x, y) || TupleLess(y, x) || x == y
    {
      TuplesIdentify(x, 0, y, 0);
    }
  }

  predicate AllValid(inputs: seq<Input>) {
    forall i :: 0 <= i < |inputs| ==> Normalize(inputs[i]).Ok?
  }

  function Movements(inputs: seq<Input>): seq<Movement>
    requires AllValid(inputs)
  {
    if inputs == [] then []
    else Movements(inputs[..|inputs| - 1]) + [Normalize(inputs[|inputs| - 1]).value]
  }

  /** The identity of the last of `sorted`, given those of the others. */
  function NextIdentity(ids: seq<Identity>, sorted: seq<Movement>): Identity
    requires |sorted| == |ids| + 1
  {
    var n := |sorted|;
    IdentityOf(sorted[n - 1], if n > 1 && sorted[n - 2] == sorted[n - 1] then ids[n - 2].occurrence + 1 else 1)
  }

  /** Numbers each run of equal movements from 1. */
  function Numbered(sorted: seq<Movement>): (ids: seq<Identity>)
    ensures |ids| == |sorted|
  {
    if sorted == [] then []
    else
      var front := Numbered(sorted[..|sorted| - 1]);
      front + [NextIdentity(front, sorted)]
  }

  function Assigned(inputs: seq<Input>): seq<Identity>
    requires AllValid(inputs)
  {
    Numbered(Sort(TupleLess, Movements(inputs)))
  }

  /** AssignBatchMovementIdentities: one invalid input fails the whole batch. */
  method AssignBatch(inputs: seq<Input>) returns (r: Option<seq<Identity>>)
    ensures r.Some? <==> AllValid(inputs)
    ensures r.Some? ==> r.value == Assigned(inputs)
  {
    hide Normalize, BaseTuple, FullTuple, Sort;
    var sortable: seq<Movement> := [];
    for i := 0 to |inputs|
      invariant AllValid(inputs[..i]) && sortable == Movements(inputs[..i])
    {
      var normalized := Normalize(inputs[i]);
      if normalized.Err? {
        return None;
      }
      assert inputs[..i + 1][..i] == inputs[..i];
      sortable := sortable + [normalized.value];
    }
    assert inputs[..|inputs|] == inputs;
    var sorted := Sort(TupleLess, sortable);
    var identities: seq<Identity> := [];
    var lastTuple, occurrence := "", 0;
    for i := 0 to |sorted|
      invariant identities == Numbered(sorted[..i])
      invariant i == 0 ==> lastTuple == "" && occurrence == 0
      invariant i > 0 ==> lastTuple == BaseTuple(sorted[i - 1]) && occurrence == identities[i - 1].occurrence
    {
      var item := sorted[i];
      var tuple := BaseTuple(item);
      BaseNotEmpty(item);
      if i > 0 {
        TuplesIdentify(item, 0, sorted[i - 1], 0);
      }
      if tuple != lastTuple {
        lastTuple, occurrence := tuple, 0;
      }
      occurrence := occurrence + 1;
      assert sorted[..i + 1][..i] == sorted[..i];
      identities := identities + [IdentityOf(item, occurrence)];
    }
    assert sorted[..|sorted|] == sorted;
    return Some(identities);
  }

  lemma BaseNotEmpty(m: Movement)
    ensures BaseTuple(m) != ""
  {
    assert Field(Components(m)[0]) != "";
  }

  // ---- What the numbering means ----------------------------------------------------------

  function Without<T>(s: seq<T>, j: nat): seq<T>
    requires j < |s|
  {
    s[..j] + s[j + 1..]
  }

  lemma WithoutCounts<T>(s: seq<T>, j: nat)
    requires j < |s|
    ensures multiset(Without(s, j)) == multiset(s) - multiset{s[j]}
  {
    assert s == s[..j] + [s[j]] + s[j + 1..];
  }

  lemma MovementsSnoc(front: seq<Input>, last: Input)
    requires AllValid(front) && Normalize(last).Ok?
    ensures AllValid(front + [last])
    ensures Movements(front + [last]) == Movements(front) + [Normalize(last).value]
  {
    hide Normalize;
    assert (front + [last])[..|front|] == front;
  }

  lemma WithoutFront<T>(s: seq<T>, j: nat)
    requires j < |s|
    ensures j == |s| - 1 ==> Without(s, j) == s[..|s| - 1]
    ensures j < |s| - 1 ==> Without(s, j) == Without(s[..|s| - 1], j) + [s[|s| - 1]]
  {
  }

  lemma {:induction false} MovementsWithout(inputs: seq<Input>, j: nat)
    requires AllValid(inputs) && j < |inputs|
    ensures AllValid(Without(inputs, j))
    ensures multiset(Movements(inputs))
            == multiset(Movements(Without(inputs, j))) + multiset{Normalize(inputs[j]).value}
  {
    hide Normalize, Without, Movements;
    var front, last := inputs[..|inputs| - 1], inputs[|inputs| - 1];
    assert inputs == front + [last];
    MovementsSnoc(front, last);
    WithoutFront(inputs, j);
    if j < |inputs| - 1 {
      MovementsWithout(front, j);
      MovementsSnoc(Without(front, j), last);
    }
  }

  lemma {:induction false} MovementsPermute(a: seq<Input>, b: seq<Input>)
    requires AllValid(a) && AllValid(b) && multiset(a) == multiset(b)
    ensures multiset(Movements(a)) == multiset(Movements(b))
  {
    hide Normalize, Without, Movements;
    if a == [] {
      assert |multiset(b)| == 0;
      assert Movements(a) == Movements(b);
    } else {
      var n := |a|;
      assert a[..n - 1] + [a[n - 1]] == a;
      MovementsSnoc(a[..n - 1], a[n - 1]);
      assert a[n - 1] in multiset(b);
      var j :| 0 <= j < |b| && b[j] == a[n - 1];
      DropLastMultiset(a);
      WithoutCounts(b, j);
      MovementsWithout(b, j);
      MovementsPermute(a[..n - 1], Without(b, j));
    }
  }

  /** The batch may arrive in any order: acceptance and the whole list of identities, keys
      and occurrences included, are the same. */
  lemma OrderDoesNotMatter(a: seq<Input>, b: seq<Input>)
    requires multiset(a) == multiset(b)
    ensures AllValid(a) <==> AllValid(b)
    ensures AllValid(a) ==> Assigned(a) == Assigned(b)
  {
    hide Normalize, StrictTotal, TupleLess;
    forall i | 0 <= i < |a| ensures a[i] in b { assert a[i] in multiset(b); }
    forall i | 0 <= i < |b| ensures b[i] in a { assert b[i] in multiset(a); }
    if AllValid(a) {
      MovementsPermute(a, b);
      TupleOrder();
      SortSorts(TupleLess, Movements(a));
      SortSorts(TupleLess, Movements(b));
      SortedUnique(TupleLess, Sort(TupleLess, Movements(a)), Sort(TupleLess, Movements(b)));
    }
  }

  lemma NumberedUnfold(sorted: seq<Movement>)
    requires sorted != []
    ensures var front := Numbered(sorted[..|sorted| - 1]); Numbered(sorted) == front + [NextIdentity(front, sorted)]
  {
    hide NextIdentity;
  }

  lemma LastOccurrence(sorted: seq<Movement>)
    requires StrictTotal(TupleLess) && Sorted(TupleLess, sorted) && sorted != []
    requires var n := |sorted|;
             n > 1 ==> Numbered(sorted[..n - 1])[n - 2]
                       == IdentityOf(sorted[n - 2], multiset(sorted[..n - 1])[sorted[n - 2]])
    ensures Numbered(sorted)[|sorted| - 1] == IdentityOf(sorted[|sorted| - 1], multiset(sorted)[sorted[|sorted| - 1]])
  {
    hide StrictTotal, Sorted, TupleLess, IdentityOf, Numbered;
    var n := |sorted|;
    var front, last := sorted[..n - 1], sorted[n - 1];
    NumberedUnfold(sorted);
    assert sorted == front + [last];
    if n > 1 {
      if sorted[n - 2] == last {
        Occurrence(last, multiset(front)[last]);
      } else {
        NotEarlier(sorted);
      }
    }
  }

  /** In sorted order an occurrence counts the equal movements so far. */
  lemma {:induction false} OccurrenceCounts(sorted: seq<Movement>, i: nat)
    requires StrictTotal(TupleLess) && Sorted(TupleLess, sorted) && i < |sorted|
    ensures Numbered(sorted)[i] == IdentityOf(sorted[i], multiset(sorted[..i + 1])[sorted[i]])
  {
    hide StrictTotal, Sorted, TupleLess, IdentityOf, Numbered, NextIdentity;
    var n := |sorted|;
    var front := sorted[..n - 1];
    NumberedUnfold(sorted);
    SortedPrefix(TupleLess, sorted, n - 1);
    if i < n - 1 {
      OccurrenceCounts(front, i);
      assert front[..i + 1] == sorted[..i + 1];
    } else {
      assert sorted[..n] == sorted;
      if n > 1 {
        OccurrenceCounts(front, n - 2);
        assert front[..n - 1] == front;
      }
      LastOccurrence(sorted);
    }
  }

  lemma Occurrence(m: Movement, k: nat)
    ensures IdentityOf(m, k).occurrence == k && IdentityOf(m, k).movement == m
  {
  }

  lemma NotEarlier(sorted: seq<Movement>)
    requires StrictTotal(TupleLess) && Sorted(TupleLess, sorted)
    requires |sorted| > 1 && sorted[|sorted| - 2] != sorted[|sorted| - 1]
    ensures multiset(sorted[..|sorted| - 1])[sorted[|sorted| - 1]] == 0
  {
    hide TupleLess;
    var n := |sorted|;
    forall k | 0 <= k < n - 1
      ensures sorted[k] != sorted[n - 1]
    {
      assert k < n - 2 ==> !TupleLess(sorted[n - 2], sorted[k]);
    }
  }

  lemma {:induction false} CountGrows<T>(s: seq<T>, i: nat, j: nat)
    requires i < j < |s| && s[i] == s[j]
    ensures multiset(s[..i + 1])[s[i]] < multiset(s[..j + 1])[s[j]]
  {
    assert s[..j + 1] == s[..i + 1] + s[i + 1..j + 1];
    assert s[i + 1..j + 1][j - i - 1] == s[j];
    assert s[j] in s[i + 1..j + 1];
  }

  /** Every count from 1 to the total is reached at some position. */
  lemma {:induction false} CountReached<T>(s: seq<T>, x: T, k: nat) returns (i: nat)
    requires 1 <= k <= multiset(s)[x]
    ensures i < |s| && s[i] == x && multiset(s[..i + 1])[x] == k
  {
    assert s != [];
    var front, last := s[..|s| - 1], s[|s| - 1];
    assert s == front + [last];
    if k <= multiset(front)[x] {
      i := CountReached(front, x, k);
      assert front[..i + 1] == s[..i + 1];
    } else {
      i := |s| - 1;
      assert s[..i + 1] == s;
    }
  }

  /** The identities of a batch: some arrangement of its movements, each numbered by how
      often it has come up. */
  lemma BatchShape(inputs: seq<Input>) returns (s: seq<Movement>)
    requires AllValid(inputs)
    ensures multiset(s) == multiset(Movements(inputs))
    ensures |s| == |inputs| == |Assigned(inputs)|
    ensures forall i :: 0 <= i < |s| ==> Assigned(inputs)[i] == IdentityOf(s[i], multiset(s[..i + 1])[s[i]])
  {
    hide StrictTotal, TupleLess, Sorted, IdentityOf, Sort, Numbered, Movements, Normalize;
    TupleOrder();
    s := Sort(TupleLess, Movements(inputs));
    SortSorts(TupleLess, Movements(inputs));
    SameLength(inputs);
    forall i | 0 <= i < |s|
      ensures Numbered(s)[i] == IdentityOf(s[i], multiset(s[..i + 1])[s[i]])
    {
      OccurrenceCounts(s, i);
    }
  }

  /** No two movements of a batch share a key, not even truly indistinguishable ones. */
  lemma BatchKeysDistinct(inputs: seq<Input>)
    requires AllValid(inputs)
    ensures var ids := Assigned(inputs); forall i, j :: 0 <= i < j < |ids| ==> ids[i].key != ids[j].key
  {
    hide FullTuple, BaseTuple, Assigned, AllValid;
    var s := BatchShape(inputs);
    var ids := Assigned(inputs);
    forall i, j | 0 <= i < j < |ids|
      ensures ids[i].key != ids[j].key
    {
      if s[i] == s[j] { CountGrows(s, i, j); }
      TuplesIdentify(s[i], ids[i].occurrence, s[j], ids[j].occurrence);
    }
  }

  /** The identities of each class of equal movements are exactly those numbered from 1 to
      the size of the class, one for every input. */
  lemma BatchNumbering(inputs: seq<Input>, m: Movement, k: nat)
    requires AllValid(inputs)
    ensures |Assigned(inputs)| == |inputs|
    ensures IdentityOf(m, k) in Assigned(inputs) <==> 1 <= k <= multiset(Movements(inputs))[m]
  {
    hide FullTuple, Assigned, AllValid, Movements;
    var s := BatchShape(inputs);
    var ids := Assigned(inputs);
    if 1 <= k <= multiset(s)[m] {
      var i := CountReached(s, m, k);
      assert ids[i] == IdentityOf(m, k);
    }
    if IdentityOf(m, k) in ids {
      var i :| 0 <= i < |ids| && ids[i] == IdentityOf(m, k);
      PrefixCount(s, i);
    }
  }

  /** How many inputs are the same movement as `x`. */
  function Alike(inputs: seq<Input>, x: Input): nat {
    if inputs == [] then 0
    else Alike(inputs[..|inputs| - 1], x) + if SameFields(inputs[|inputs| - 1], x) then 1 else 0
  }

  lemma {:induction false} AlikeIsTheClass(inputs: seq<Input>, x: Input)
    requires AllValid(inputs) && Normalize(x).Ok?
    ensures multiset(Movements(inputs))[Normalize(x).value] == Alike(inputs, x)
  {
    hide Normalize, SameFields;
    if inputs != [] {
      AlikeIsTheClass(inputs[..|inputs| - 1], x);
      NormalizationKeeps(inputs[|inputs| - 1], x);
    }
  }

  /** Seen from the inputs: the keys a batch gives to one movement are those it would have
      built alone as occurrence 1, 2 and so on up to the number of inputs that are the same
      movement. */
  lemma BatchNumbersInputs(inputs: seq<Input>, x: Input, k: int)
    requires AllValid(inputs) && Normalize(x).Ok? && 1 <= k
    ensures Build(x.(occurrence := k)).Ok?
    ensures Build(x.(occurrence := k)).value in Assigned(inputs) <==> k <= Alike(inputs, x)
  {
    hide Assigned, Movements, IdentityOf, Normalize, SameFields;
    OccurrenceIgnored(x, k);
    AlikeIsTheClass(inputs, x);
    BatchNumbering(inputs, Normalize(x).value, k);
  }

  lemma PrefixCount<T>(s: seq<T>, i: nat)
    requires i < |s|
    ensures 1 <= multiset(s[..i + 1])[s[i]] <= multiset(s)[s[i]]
  {
    assert s == s[..i + 1] + s[i + 1..];
    assert s[..i + 1][i] == s[i];
  }

  lemma {:induction false} SameLength(inputs: seq<Input>)
    requires AllValid(inputs)
    ensures |Movements(inputs)| == |inputs|
  {
    hide Normalize;
    if inputs != [] {
      SameLength(inputs[..|inputs| - 1]);
    }
  }

  lemma OccurrenceIgnored(input: Input, k: int)
    ensures Normalize(input.(occurrence := k)) == Normalize(input)
  {
    hide NormalizeAsset, Trim;
  }

  /** The identity numbered k is the one built alone with occurrence k. */
  lemma BatchAgreesWithBuild(inputs: seq<Input>, i: nat, k: nat)
    requires AllValid(inputs) && i < |inputs|
    requires 1 <= k <= multiset(Movements(inputs))[Normalize(inputs[i]).value]
    ensures Build(inputs[i].(occurrence := k)).Ok?
    ensures Build(inputs[i].(occurrence := k)).value in Assigned(inputs)
  {
    hide Assigned, Movements, IdentityOf, Normalize;
    OccurrenceIgnored(inputs[i], k);
    BatchNumbering(inputs, Normalize(inputs[i]).value, k);
  }
}
