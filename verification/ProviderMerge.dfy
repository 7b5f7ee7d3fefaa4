/** Merging provider facts by metadata order, and the two channels' status policies
    (internal/companyfund/lifecycle.go). */
module ProviderMerge {
  import opened Wrappers
  import opened MovementIdentity
  import Text

  datatype Metadata = Metadata(revision: Option<int>, updatedAt: Option<int>, source: string)

  datatype Fields = Fields(
    metadata: Metadata, amount: Option<int>, currency: Option<string>, asset: Option<Asset>, txHash: Option<string>,
    status: Option<string>, occurredAt: Option<int>, completedAt: Option<int>)

  datatype Outcome = Applied | Unchanged | Quarantined

  // ---- compareProviderMetadata -------------------------------------------------------

  function Sign(incoming: int, existing: int): int {
    if incoming > existing then 1 else if incoming < existing then -1 else 0
  }

  /** nil sorts below everything. */
  function SignOptional(incoming: Option<int>, existing: Option<int>): int {
    if incoming == None && existing == None then 0
    else if incoming == None then -1
    else if existing == None then 1
    else Sign(incoming.value, existing.value)
  }

  function Priority(source: string): int {
    if source == "RECONCILIATION" then 3
    else if source == "PRODUCT_DETAIL" then 2
    else if source == "WEBHOOK" then 1
    else 0
  }

  /** Positive when the incoming fact is the newer one. */
  function Compare(existing: Metadata, incoming: Metadata): int {
    var byPriority := Sign(Priority(incoming.source), Priority(existing.source));
    if incoming.revision.Some? && existing.revision.Some? then
      var byRevision := Sign(incoming.revision.value, existing.revision.value);
      if byRevision != 0 then byRevision
      else if incoming.updatedAt.Some? && existing.updatedAt.Some?
              && Sign(incoming.updatedAt.value, existing.updatedAt.value) != 0
      then Sign(incoming.updatedAt.value, existing.updatedAt.value)
      else byPriority
    else
      var byTime := SignOptional(incoming.updatedAt, existing.updatedAt);
      if byTime != 0 then byTime
      else
        var byRevision := SignOptional(incoming.revision, existing.revision);
        if byRevision != 0 then byRevision else byPriority
  }

  /** All with revision and timestamp, all with a revision alone, or none with a revision. */
  ghost predicate Uniform(facts: seq<Fields>) {
    || (forall i :: 0 <= i < |facts| ==> facts[i].metadata.revision.Some? && facts[i].metadata.updatedAt.Some?)
    || (forall i :: 0 <= i < |facts| ==> facts[i].metadata.revision.Some? && facts[i].metadata.updatedAt.None?)
    || (forall i :: 0 <= i < |facts| ==> facts[i].metadata.revision.None?)
  }

  /** Swapping the two facts always negates the comparison, but on facts that mix present
      and absent revisions or timestamps it is not an order: here b is newer than a and c
      newer than b, yet a is newer than c. */
  lemma CompareIsNotAnOrder(x: Metadata, y: Metadata)
    ensures Compare(x, y) == -Compare(y, x)
    ensures var a := Metadata(Some(3), Some(1), "WEBHOOK");
            var b := Metadata(None, Some(2), "WEBHOOK");
            var c := Metadata(Some(1), Some(3), "WEBHOOK");
            Compare(a, b) > 0 && Compare(b, c) > 0 && Compare(a, c) < 0
  {
  }

  /** On uniform facts it is one. */
  lemma CompareTransitive(a: Fields, b: Fields, c: Fields)
    requires Uniform([a, b, c])
    requires Compare(a.metadata, b.metadata) >= 0 && Compare(b.metadata, c.metadata) >= 0
    ensures Compare(a.metadata, c.metadata) >= 0
    ensures Compare(a.metadata, b.metadata) > 0 || Compare(b.metadata, c.metadata) > 0 ==>
              Compare(a.metadata, c.metadata) > 0
  {
    assert [a, b, c][0] == a && [a, b, c][1] == b && [a, b, c][2] == c;
  }

  /** Which of two facts is the newer one: by revision when both have one, then by timestamp
      when both have one, then by source; otherwise by timestamp, then by revision, where one
      that is missing counts as oldest, then by source. */
  ghost predicate IsNewer(existing: Metadata, incoming: Metadata) {
    var fromBetter := SourceRank(existing.source) < SourceRank(incoming.source);
    if existing.revision.Some? && incoming.revision.Some? then
      || existing.revision.value < incoming.revision.value
      || (existing.revision == incoming.revision
          && if existing.updatedAt.Some? && incoming.updatedAt.Some? && existing.updatedAt != incoming.updatedAt
             then existing.updatedAt.value < incoming.updatedAt.value
             else fromBetter)
    else if existing.updatedAt != incoming.updatedAt then
      incoming.updatedAt.Some? && (existing.updatedAt.Some? ==> existing.updatedAt.value < incoming.updatedAt.value)
    else if existing.revision != incoming.revision then incoming.revision.Some?
    else fromBetter
  }

  /** Reconciliation is trusted before the product's detail, that before a webhook, and a
      webhook before anything else. */
  ghost function SourceRank(source: string): nat {
    if source in {"RECONCILIATION"} then 3
    else if source in {"PRODUCT_DETAIL"} then 2
    else if source in {"WEBHOOK"} then 1
    else 0
  }

  lemma ComparesExactly(existing: Metadata, incoming: Metadata)
    ensures Compare(existing, incoming) > 0 <==> IsNewer(existing, incoming)
    ensures Compare(existing, incoming) < 0 <==> IsNewer(incoming, existing)
  {
  }

  // ---- MergeProviderFields -----------------------------------------------------------

  predicate SameCurrency(a: string, b: string) {
    Text.TrimUpper(a) == Text.TrimUpper(b)
  }

  predicate MoneyConflict(existing: Fields, incoming: Fields) {
    || (existing.amount.Some? && incoming.amount.Some? && existing.amount != incoming.amount)
    || (existing.currency.Some? && incoming.currency.Some?
        && !SameCurrency(existing.currency.value, incoming.currency.value))
    || (existing.asset.Some? && incoming.asset.Some?
        && AssetKey(NormalizeAsset(existing.asset.value)) != AssetKey(NormalizeAsset(incoming.asset.value)))
  }

  function Pick<T>(existing: Option<T>, incoming: Option<T>, comparison: int): Option<T> {
    if incoming == None then existing else if existing == None || comparison > 0 then incoming else existing
  }

  predicate Takes<T>(existing: Option<T>, incoming: Option<T>, comparison: int) {
    incoming.Some? && (existing.None? || comparison > 0)
  }

  const NO_METADATA := Metadata(None, None, "")
  const EMPTY := Fields(NO_METADATA, None, None, None, None, None, None, None)

  function Merge(existing: Fields, incoming: Fields): (Fields, Outcome) {
    var c := Compare(existing.metadata, incoming.metadata);
    if c == 0 && MoneyConflict(existing, incoming) then (existing, Quarantined)
    else
      var merged := existing.(
        amount := Pick(existing.amount, incoming.amount, c),
        currency := Pick(existing.currency, incoming.currency, c),
        asset := Pick(existing.asset, incoming.asset, c),
        txHash := Pick(existing.txHash, incoming.txHash, c),
        occurredAt := Pick(existing.occurredAt, incoming.occurredAt, c),
        completedAt := Pick(existing.completedAt, incoming.completedAt, c),
        metadata := if c > 0 || existing.metadata == NO_METADATA then incoming.metadata else existing.metadata);
      var changed :=
        || c > 0 || Takes(existing.amount, incoming.amount, c) || Takes(existing.currency, incoming.currency, c)
        || Takes(existing.asset, incoming.asset, c) || Takes(existing.txHash, incoming.txHash, c)
        || Takes(existing.occurredAt, incoming.occurredAt, c) || Takes(existing.completedAt, incoming.completedAt, c);
      (merged, if changed then Applied else Unchanged)
  }

  // ---- Convergence -------------------------------------------------------------------

  datatype FieldName = Amount | Currency | TheAsset | TxHash | OccurredAt | CompletedAt
  datatype Value = OfInt(i: int) | OfString(s: string) | OfAsset(a: Asset)

  /** The optional field of that name. */
  function Get(p: Fields, k: FieldName): Option<Value> {
    match k
    case Amount => if p.amount.Some? then Some(OfInt(p.amount.value)) else None
    case Currency => if p.currency.Some? then Some(OfString(p.currency.value)) else None
    case TheAsset => if p.asset.Some? then Some(OfAsset(p.asset.value)) else None
    case TxHash => if p.txHash.Some? then Some(OfString(p.txHash.value)) else None
    case OccurredAt => if p.occurredAt.Some? then Some(OfInt(p.occurredAt.value)) else None
    case CompletedAt => if p.completedAt.Some? then Some(OfInt(p.completedAt.value)) else None
  }

  /** A fact of equal rank is quarantined when amount, currency or asset contradict what is
      stored; otherwise it is applied when it is newer or fills in a missing field, and leaves
      everything as it was when it does neither. */
  lemma MergesExactly(existing: Fields, incoming: Fields)
    ensures var (merged, outcome) := Merge(existing, incoming);
            var newer := IsNewer(existing.metadata, incoming.metadata);
            var older := IsNewer(incoming.metadata, existing.metadata);
            var fills := exists k :: Get(existing, k).None? && Get(incoming, k).Some?;
            var contradicts :=
              || (existing.amount.Some? && incoming.amount.Some? && existing.amount != incoming.amount)
              || (existing.currency.Some? && incoming.currency.Some?
                  && Text.TrimUpper(existing.currency.value) != Text.TrimUpper(incoming.currency.value))
              || (existing.asset.Some? && incoming.asset.Some?
                  && NormalizeAsset(existing.asset.value) != NormalizeAsset(incoming.asset.value));
            && (outcome == Quarantined <==> !newer && !older && contradicts)
            && (outcome == Applied <==> outcome != Quarantined && (newer || fills))
            && (outcome == Quarantined ==> merged == existing)
            && (outcome == Unchanged ==> merged == existing.(metadata := merged.metadata))
  {
    hide Compare, IsNewer, Text.TrimUpper, AssetKey, NormalizeAsset;
    ComparesExactly(existing.metadata, incoming.metadata);
    if existing.asset.Some? && incoming.asset.Some? {
      AssetKeyIdentifies(NormalizeAsset(existing.asset.value), NormalizeAsset(incoming.asset.value));
    }
    GetsFields(existing);
    GetsFields(incoming);
  }

  lemma GetsFields(p: Fields)
    ensures Get(p, Amount).Some? <==> p.amount.Some?
    ensures Get(p, Currency).Some? <==> p.currency.Some?
    ensures Get(p, TheAsset).Some? <==> p.asset.Some?
    ensures Get(p, TxHash).Some? <==> p.txHash.Some?
    ensures Get(p, OccurredAt).Some? <==> p.occurredAt.Some?
    ensures Get(p, CompletedAt).Some? <==> p.completedAt.Some?
  {
  }

  lemma AssetKeyIdentifies(a: Asset, b: Asset)
    ensures AssetKey(a) == AssetKey(b) <==> a == b
  {
    hide Tuple;
    var p := [a.currency, a.chainCode, a.providerKey, a.contract];
    var q := [b.currency, b.chainCode, b.providerKey, b.contract];
    if AssetKey(a) == AssetKey(b) {
      TupleInjective(p, q);
      assert p[0] == q[0] && p[1] == q[1] && p[2] == q[2] && p[3] == q[3];
    }
  }

  /** The state a sequence of deliveries leaves, the first one creating it. */
  function Fold(facts: seq<Fields>): Fields {
    if facts == [] then EMPTY else Merge(Fold(facts[..|facts| - 1]), facts[|facts| - 1]).0
  }

  function Newest(facts: seq<Fields>): Fields
    requires facts != []
  {
    var last := facts[|facts| - 1];
    if |facts| == 1 then last
    else
      var m := Newest(facts[..|facts| - 1]);
      if Compare(m.metadata, last.metadata) > 0 then last else m
  }

  /** Facts of equal rank are redeliveries of one fact. */
  ghost predicate DistinctRanks(facts: seq<Fields>) {
    forall i, j :: 0 <= i < |facts| && 0 <= j < |facts| && Compare(facts[i].metadata, facts[j].metadata) == 0 ==>
      facts[i] == facts[j]
  }

  ghost predicate Comparable(facts: seq<Fields>) {
    facts != [] && Uniform(facts) && DistinctRanks(facts)
  }

  lemma ComparableFront(facts: seq<Fields>)
    requires Comparable(facts) && |facts| > 1
    ensures Comparable(facts[..|facts| - 1])
  {
    hide Compare;
  }

  lemma {:induction false} NewestIsNewest(facts: seq<Fields>, y: Fields)
    requires facts != [] && Comparable(facts)
    ensures Newest(facts) in facts
    ensures y in facts ==> Compare(Newest(facts).metadata, y.metadata) <= 0
  {
    hide Compare, Comparable;
    var front, last := facts[..|facts| - 1], facts[|facts| - 1];
    if |facts| == 1 {
      CompareIsNotAnOrder(last.metadata, last.metadata);
    } else {
      ComparableFront(facts);
      NewestIsNewest(front, y);
      var m := Newest(front);
      if y in front && Compare(m.metadata, last.metadata) > 0 {
        UniformThree(facts, y, m, last);
        CompareIsNotAnOrder(m.metadata, y.metadata);
        CompareIsNotAnOrder(last.metadata, y.metadata);
        CompareTransitive(y, m, last);
      }
      CompareIsNotAnOrder(last.metadata, last.metadata);
      assert y in facts ==> y in front || y == last;
    }
  }

  lemma UniformThree(facts: seq<Fields>, a: Fields, b: Fields, c: Fields)
    requires Comparable(facts) && a in facts && b in facts && c in facts
    ensures Uniform([a, b, c])
  {
    hide Compare;
  }

  lemma MergeGet(existing: Fields, incoming: Fields, k: FieldName)
    ensures var c := Compare(existing.metadata, incoming.metadata);
            var (merged, outcome) := Merge(existing, incoming);
            && merged.status == existing.status
            && (outcome == Quarantined ==> merged == existing && c == 0)
            && (outcome != Quarantined ==>
                  && Get(merged, k) == Pick(Get(existing, k), Get(incoming, k), c)
                  && merged.metadata
                     == (if c > 0 || existing.metadata == NO_METADATA then incoming.metadata else existing.metadata))
  {
    hide Compare, MoneyConflict;
  }

  /** A redelivery of the fact the state ranks with never conflicts with it. */
  lemma NoConflict(state: Fields, fact: Fields)
    requires forall k :: Get(fact, k) == None || Get(state, k) == Get(fact, k)
    ensures !MoneyConflict(state, fact)
  {
    hide NormalizeAsset, AssetKey, SameCurrency;
    assert Get(fact, Amount) == None || Get(state, Amount) == Get(fact, Amount);
    assert Get(fact, Currency) == None || Get(state, Currency) == Get(fact, Currency);
    assert Get(fact, TheAsset) == None || Get(state, TheAsset) == Get(fact, TheAsset);
    if fact.currency.Some? {
      SameAsItself(fact.currency.value);
    }
  }

  lemma SameAsItself(s: string)
    ensures SameCurrency(s, s)
  {
  }

  lemma FirstMerge(x: Fields, k: FieldName)
    ensures Merge(EMPTY, x).1 != Quarantined
    ensures Get(Merge(EMPTY, x).0, k) == Get(x, k)
    ensures Merge(EMPTY, x).0.metadata == x.metadata
  {
  }

  /** After any deliveries the state carries the newest fact's metadata and every field the
      newest fact carries; a field it lacks holds a value some fact carried, if any did. */
  lemma {:induction false} FoldState(facts: seq<Fields>, k: FieldName)
    requires facts != [] && Comparable(facts)
    ensures var state, m := Fold(facts), Newest(facts);
            && state.metadata == m.metadata && state.status == None
            && (Get(m, k).Some? ==> Get(state, k) == Get(m, k))
            && (Get(state, k).Some? ==> exists x :: x in facts && Get(x, k) == Get(state, k))
            && (Get(state, k).None? ==> forall x :: x in facts ==> Get(x, k).None?)
  {
    hide Compare, Merge, Get, Comparable;
    var front, last := facts[..|facts| - 1], facts[|facts| - 1];
    if |facts| == 1 {
      assert front == [];
      FirstMerge(last, k);
      MergeGet(EMPTY, last, k);
      assert last in facts;
    } else {
      ComparableFront(facts);
      FoldState(front, k);
      forall j { FoldState(front, j); }
      var state, m := Fold(front), Newest(front);
      NewestIsNewest(front, m);
      MergeGet(state, last, k);
      if Compare(m.metadata, last.metadata) == 0 {
        SameRank(facts, m, last);
        NoConflict(state, last);
        NotQuarantined(state, last);
      }
      EmptyMetadata(facts, m, last);
      assert forall x :: x in facts <==> x in front || x == last;
      var merged := Fold(facts);
      if Get(merged, k).Some? {
        if Get(merged, k) == Get(last, k) {
          assert last in facts;
        } else {
          assert Get(merged, k) == Get(state, k);
          var x :| x in front && Get(x, k) == Get(state, k);
          assert x in facts;
        }
      }
    }
  }

  lemma SameRank(facts: seq<Fields>, a: Fields, b: Fields)
    requires Comparable(facts) && a in facts && b in facts && Compare(a.metadata, b.metadata) == 0
    ensures a == b
  {
    hide Compare;
  }

  lemma NotQuarantined(state: Fields, fact: Fields)
    requires !MoneyConflict(state, fact)
    ensures Merge(state, fact).1 != Quarantined
  {
    hide MoneyConflict, Compare;
  }

  /** Metadata that says nothing never outranks anything. */
  lemma EmptyMetadata(facts: seq<Fields>, m: Fields, last: Fields)
    requires Comparable(facts) && m in facts && last in facts
    ensures m.metadata == NO_METADATA && Compare(m.metadata, last.metadata) <= 0 ==> m.metadata == last.metadata
  {
    if Compare(m.metadata, last.metadata) == 0 {
      SameRank(facts, m, last);
    }
  }

  ghost predicate SameFacts(a: seq<Fields>, b: seq<Fields>) {
    forall x :: x in a <==> x in b
  }

  lemma ComparableAgain(a: seq<Fields>, b: seq<Fields>)
    requires a != [] && Comparable(a) && b != [] && SameFacts(a, b)
    ensures Comparable(b)
  {
    hide Compare;
    forall i | 0 <= i < |b| ensures b[i] in a { assert b[i] in b; }
  }

  /** The newest fact does not depend on the order of delivery. */
  lemma NewestUnique(a: seq<Fields>, b: seq<Fields>)
    requires a != [] && Comparable(a) && b != [] && SameFacts(a, b)
    ensures Comparable(b) && Newest(a) == Newest(b)
  {
    hide Compare, Comparable;
    ComparableAgain(a, b);
    NewestIsNewest(a, Newest(b));
    NewestIsNewest(b, Newest(a));
    CompareIsNotAnOrder(Newest(a).metadata, Newest(b).metadata);
    SameRank(a, Newest(a), Newest(b));
  }

  /** Either the newest fact carries the field, or all facts that carry it agree. */
  ghost predicate Settled(facts: seq<Fields>, k: FieldName)
    requires facts != []
  {
    || Get(Newest(facts), k).Some?
    || forall x, y :: x in facts && y in facts && Get(x, k).Some? && Get(y, k).Some? ==> Get(x, k) == Get(y, k)
  }

  lemma GetsDetermine(a: Fields, b: Fields)
    requires a.metadata == b.metadata && a.status == b.status
    requires forall k :: Get(a, k) == Get(b, k)
    ensures a == b
  {
    assert Get(a, Amount) == Get(b, Amount) && Get(a, Currency) == Get(b, Currency);
    assert Get(a, TheAsset) == Get(b, TheAsset) && Get(a, TxHash) == Get(b, TxHash);
    assert Get(a, OccurredAt) == Get(b, OccurredAt) && Get(a, CompletedAt) == Get(b, CompletedAt);
  }

  lemma SettledFolds(a: seq<Fields>, b: seq<Fields>, k: FieldName)
    requires a != [] && Comparable(a) && b != [] && SameFacts(a, b) && Settled(a, k)
    ensures Get(Fold(a), k) == Get(Fold(b), k)
    ensures Fold(a).metadata == Fold(b).metadata && Fold(a).status == Fold(b).status
  {
    hide Compare, Comparable, Fold, Get, Newest;
    NewestUnique(a, b);
    FoldState(a, k);
    FoldState(b, k);
  }

  /** While no newer fact arrives, a field that is present does not move. */
  lemma {:induction false} Stays(p: seq<Fields>, s: seq<Fields>, m: Fields, k: FieldName)
    requires Fold(p).metadata == m.metadata && Get(Fold(p), k).Some?
    requires forall z :: z in s ==> Compare(m.metadata, z.metadata) <= 0
    requires forall z :: z in s ==> m.metadata == NO_METADATA ==> z.metadata == NO_METADATA
    ensures Fold(p + s).metadata == m.metadata && Get(Fold(p + s), k) == Get(Fold(p), k)
  {
    hide Compare, Get, Merge;
    if s == [] {
      assert p + s == p;
    } else {
      var front, last := s[..|s| - 1], s[|s| - 1];
      Stays(p, front, m, k);
      assert (p + s)[..|p + s| - 1] == p + front;
      MergeGet(Fold(p + front), last, k);
    }
  }

  /** Taking one fact out of a sequence and putting it in front. */
  lemma OneToTheFront<T>(s: seq<T>, x: T) returns (rest: seq<T>)
    requires x in s
    ensures multiset(s) == multiset{x} + multiset(rest)
  {
    var i :| 0 <= i < |s| && s[i] == x;
    rest := Without(s, i);
    WithoutCounts(s, i);
  }

  /** Taking two different facts out of a sequence and putting them in front. */
  lemma ToTheFront(facts: seq<Fields>, m: Fields, x: Fields) returns (rest: seq<Fields>)
    requires m in facts && x in facts && m != x
    ensures multiset([m, x] + rest) == multiset(facts)
    ensures forall z :: z in rest ==> z in facts
  {
    var others := OneToTheFront(facts, m);
    assert x in multiset(facts);
    rest := OneToTheFront(others, x);
    forall z | z in rest
      ensures z in facts
    {
      assert z in multiset(rest);
      assert z in multiset(facts);
    }
  }

  /** Delivering the newest fact first and `x` next decides a field only older facts carry,
      whatever comes after. */
  lemma FirstComerWins(facts: seq<Fields>, x: Fields, rest: seq<Fields>, k: FieldName)
    requires facts != [] && Comparable(facts) && x in facts && forall z :: z in rest ==> z in facts
    requires Get(Newest(facts), k).None? && Get(x, k).Some?
    ensures Get(Fold([Newest(facts), x] + rest), k) == Get(x, k)
  {
    hide Compare, Comparable, Get, Fold;
    var m := Newest(facts);
    NewestIsNewest(facts, x);
    var p := [m, x];
    PairComparable(facts, m, x);
    NewestOfPair(m, x);
    FoldState(p, k);
    assert p[0] == m && p[1] == x && x in p;
    forall z | z in rest
      ensures Compare(m.metadata, z.metadata) <= 0
      ensures m.metadata == NO_METADATA ==> z.metadata == NO_METADATA
    {
      NewestIsNewest(facts, z);
      EmptyMetadata(facts, m, z);
    }
    Stays(p, rest, m, k);
  }

  lemma PairComparable(facts: seq<Fields>, a: Fields, b: Fields)
    requires Comparable(facts) && a in facts && b in facts
    ensures Comparable([a, b])
  {
    hide Compare;
    var p := [a, b];
    assert p[0] == a && p[1] == b;
    forall i, j | 0 <= i < 2 && 0 <= j < 2 && Compare(p[i].metadata, p[j].metadata) == 0
      ensures p[i] == p[j]
    {
      SameRank(facts, p[i], p[j]);
    }
  }

  lemma NewestOfPair(m: Fields, x: Fields)
    requires Compare(m.metadata, x.metadata) <= 0
    ensures Newest([m, x]) == m
  {
    hide Compare;
    assert [m, x][..1] == [m];
    assert Newest([m]) == m;
  }

  /** The same facts in another order, each delivered as often as before. */
  ghost predicate Permuted(a: seq<Fields>, b: seq<Fields>) {
    multiset(a) == multiset(b)
  }

  lemma PermutedSame(a: seq<Fields>, b: seq<Fields>)
    requires Permuted(a, b)
    ensures SameFacts(a, b) && (a == [] <==> b == [])
  {
    forall x
      ensures x in a <==> x in b
    {
      assert x in a <==> x in multiset(a);
      assert x in b <==> x in multiset(b);
    }
    assert |multiset(a)| == |a| && |multiset(b)| == |b|;
  }

  /** A disputed field: two permutations of the facts end with different values. */
  lemma DisputeShows(facts: seq<Fields>, k: FieldName) returns (one: seq<Fields>, two: seq<Fields>)
    requires facts != [] && Comparable(facts) && !Settled(facts, k)
    ensures Permuted(facts, one) && Permuted(facts, two) && Fold(one) != Fold(two)
  {
    hide Compare, Comparable, Get, Fold, Newest;
    var m := Newest(facts);
    var x, y :| x in facts && y in facts && Get(x, k).Some? && Get(y, k).Some? && Get(x, k) != Get(y, k);
    NewestIsNewest(facts, m);
    var afterX := ToTheFront(facts, m, x);
    var afterY := ToTheFront(facts, m, y);
    FirstComerWins(facts, x, afterX, k);
    FirstComerWins(facts, y, afterY, k);
    one, two := [m, x] + afterX, [m, y] + afterY;
  }

  lemma SettledConverges(facts: seq<Fields>, other: seq<Fields>)
    requires facts != [] && Comparable(facts) && (forall k :: Settled(facts, k))
    requires other != [] && SameFacts(facts, other)
    ensures Fold(other) == Fold(facts)
  {
    hide Compare, Comparable, Get, Fold, Newest, SameFacts, Settled;
    forall k { SettledFolds(facts, other, k); }
    SettledFolds(facts, other, Amount);
    GetsDetermine(Fold(facts), Fold(other));
  }

  /** Merge convergence: every permutation of the deliveries leaves the same state if and
      only if each field is carried by the newest fact or not disputed among the facts that
      carry it; and then so does every order with redeliveries. When the newest fact carries
      all fields it is the state. */
  lemma MergeConverges(facts: seq<Fields>)
    requires facts != [] && Comparable(facts)
    ensures (forall k :: Settled(facts, k)) <==> (forall other :: Permuted(facts, other) ==> Fold(other) == Fold(facts))
    ensures (forall k :: Settled(facts, k))
            <==> (forall other :: other != [] && SameFacts(facts, other) ==> Fold(other) == Fold(facts))
    ensures (forall k :: Get(Newest(facts), k).Some?) ==> Fold(facts) == Newest(facts).(status := None)
  {
    hide Compare, Comparable, Get, Fold, Newest, SameFacts, Settled, Permuted;
    if forall k :: Settled(facts, k) {
      forall other | other != [] && SameFacts(facts, other)
        ensures Fold(other) == Fold(facts)
      {
        SettledConverges(facts, other);
      }
      forall other | Permuted(facts, other)
        ensures Fold(other) == Fold(facts)
      {
        PermutedSame(facts, other);
      }
    } else {
      var k :| !Settled(facts, k);
      var one, two := DisputeShows(facts, k);
      PermutedSame(facts, one);
      PermutedSame(facts, two);
    }
    if forall k :: Get(Newest(facts), k).Some? {
      forall k { FoldState(facts, k); }
      FoldState(facts, Amount);
      NewestGets(Newest(facts));
      GetsDetermine(Fold(facts), Newest(facts).(status := None));
    }
  }

  /** Two webhook facts report different hashes, and a newer one reports none: the hash
      delivered right after the newest fact stays. */
  lemma DisputedHash()
    ensures var x := EMPTY.(metadata := Metadata(Some(1), Some(1), "WEBHOOK"), txHash := Some("0xa"));
            var y := EMPTY.(metadata := Metadata(Some(2), Some(2), "WEBHOOK"), txHash := Some("0xb"));
            var newest := EMPTY.(metadata := Metadata(Some(3), Some(3), "WEBHOOK"));
            && Permuted([newest, x, y], [newest, y, x])
            && Fold([newest, x, y]).txHash == Some("0xa") && Fold([newest, y, x]).txHash == Some("0xb")
  {
    var x := EMPTY.(metadata := Metadata(Some(1), Some(1), "WEBHOOK"), txHash := Some("0xa"));
    var y := EMPTY.(metadata := Metadata(Some(2), Some(2), "WEBHOOK"), txHash := Some("0xb"));
    var newest := EMPTY.(metadata := Metadata(Some(3), Some(3), "WEBHOOK"));
    FoldOfThree(newest, x, y);
    FoldOfThree(newest, y, x);
  }

  lemma FoldOfThree(a: Fields, b: Fields, c: Fields)
    ensures Fold([a, b, c]) == Merge(Merge(Merge(EMPTY, a).0, b).0, c).0
  {
    hide Merge;
    assert [a, b, c][..2] == [a, b] && [a, b][..1] == [a] && [a][..0] == [];
    assert Fold([a]) == Merge(EMPTY, a).0;
    assert Fold([a, b]) == Merge(Fold([a]), b).0;
  }

  lemma NewestGets(m: Fields)
    ensures forall k :: Get(m.(status := None), k) == Get(m, k)
  {
  }

  // ---- Status policies ---------------------------------------------------------------

  datatype Disposition = Apply | Keep | Quarantine

  datatype Decision = Decision(disposition: Disposition, status: string)

  function SafeheronRank(status: string): Option<nat> {
    if status == "PENDING" then Some(0)
    else if status == "SUBMITTED" then Some(1)
    else if status == "SIGNING" || status == "PROCESSING" then Some(2)
    else if status == "BROADCASTING" then Some(3)
    else if status == "CONFIRMING" then Some(4)
    else if SafeheronTerminal(status) then Some(5)
    else None
  }

  predicate SafeheronTerminal(status: string) {
    status == "COMPLETED" || status == "FAILED" || status == "CANCELLED" || status == "REJECTED"
  }

  function SafeheronTransition(rawCurrent: string, rawIncoming: string): Decision {
    var current, incoming := Text.TrimUpper(rawCurrent), Text.TrimUpper(rawIncoming);
    if incoming == "" || SafeheronRank(incoming).None? then Decision(Quarantine, current)
    else if current == "" then Decision(Apply, incoming)
    else if SafeheronRank(current).None? then Decision(Quarantine, current)
    else if current == incoming || SafeheronTerminal(current) then Decision(Keep, current)
    else if SafeheronRank(incoming).value <= SafeheronRank(current).value then Decision(Keep, current)
    else Decision(Apply, incoming)
  }

  /** The statuses by rank. */
  const SAFEHERON_RANKS: seq<set<string>> := [
    {"PENDING"}, {"SUBMITTED"}, {"SIGNING", "PROCESSING"}, {"BROADCASTING"}, {"CONFIRMING"},
    {"COMPLETED", "FAILED", "CANCELLED", "REJECTED"}]

  lemma SafeheronRanks(status: string, rank: nat)
    ensures SafeheronRank(status) == Some(rank) <==> rank < |SAFEHERON_RANKS| && status in SAFEHERON_RANKS[rank]
    ensures SafeheronTerminal(status) <==> SafeheronRank(status) == Some(5)
  {
  }

  predicate AirwallexKnown(status: string) {
    status == "PENDING" || status == "SUBMITTED" || status == "PROCESSING" || status == "PAID" || status == "FAILED"
    || status == "CANCELLED" || status == "REJECTED" || status == "REVERSED"
  }

  predicate AirwallexAllowed(current: string, incoming: string) {
    if current == "PENDING" then
      || incoming == "SUBMITTED" || incoming == "PROCESSING" || incoming == "PAID" || incoming == "FAILED"
      || incoming == "CANCELLED"
    else if current == "SUBMITTED" then
      incoming == "PROCESSING" || incoming == "PAID" || incoming == "FAILED" || incoming == "CANCELLED"
    else if current == "PROCESSING" then incoming == "PAID" || incoming == "FAILED" || incoming == "CANCELLED"
    else if current == "PAID" then incoming == "FAILED" || incoming == "REVERSED"
    else false
  }

  function AirwallexTransition(rawCurrent: string, rawIncoming: string): Decision {
    var current, incoming := Text.TrimUpper(rawCurrent), Text.TrimUpper(rawIncoming);
    if incoming == "" || !AirwallexKnown(incoming) then Decision(Quarantine, current)
    else if current == "" then Decision(Apply, incoming)
    else if !AirwallexKnown(current) then Decision(Quarantine, current)
    else if current == incoming then Decision(Keep, current)
    else if AirwallexAllowed(current, incoming) then Decision(Apply, incoming)
    else Decision(Quarantine, current)
  }

  /** The moves an Airwallex status may make. */
  const AIRWALLEX_MOVES: set<(string, string)> := {
    ("PENDING", "SUBMITTED"), ("PENDING", "PROCESSING"), ("PENDING", "PAID"), ("PENDING", "FAILED"),
    ("PENDING", "CANCELLED"), ("SUBMITTED", "PROCESSING"), ("SUBMITTED", "PAID"), ("SUBMITTED", "FAILED"),
    ("SUBMITTED", "CANCELLED"), ("PROCESSING", "PAID"), ("PROCESSING", "FAILED"), ("PROCESSING", "CANCELLED"),
    ("PAID", "FAILED"), ("PAID", "REVERSED")}

  const AIRWALLEX_STATUSES: set<string> := {
    "PENDING", "SUBMITTED", "PROCESSING", "PAID", "FAILED", "CANCELLED", "REJECTED", "REVERSED"}

  /** A first known status and every listed move are taken; the status already there is kept;
      anything else is quarantined. */
  lemma AirwallexMovesExactly(rawCurrent: string, rawIncoming: string)
    ensures var current, incoming := Text.TrimUpper(rawCurrent), Text.TrimUpper(rawIncoming);
            var decision := AirwallexTransition(rawCurrent, rawIncoming);
            var known := incoming in AIRWALLEX_STATUSES && (current == "" || current in AIRWALLEX_STATUSES);
            && (decision == Decision(Apply, incoming) <==>
                  known && (current == "" || (current, incoming) in AIRWALLEX_MOVES))
            && (decision == Decision(Keep, current) <==> known && current == incoming)
            && (decision == Decision(Quarantine, current) <==>
                  !known || (current != "" && current != incoming && (current, incoming) !in AIRWALLEX_MOVES))
  {
    hide Text.TrimUpper;
  }

  /** The same for Safeheron: a first supported status and every higher rank are taken. */
  lemma SafeheronMovesExactly(rawCurrent: string, rawIncoming: string)
    ensures var current, incoming := Text.TrimUpper(rawCurrent), Text.TrimUpper(rawIncoming);
            var decision := SafeheronTransition(rawCurrent, rawIncoming);
            var was, asks := SafeheronRank(current), SafeheronRank(incoming);
            var known := asks.Some? && (current == "" || was.Some?);
            && (decision == Decision(Apply, incoming) <==> known && (current == "" || was.value < asks.value))
            && (decision == Decision(Keep, current) <==> known && current != "" && asks.value <= was.value)
            && (decision == Decision(Quarantine, current) <==> !known)
  {
    hide Text.TrimUpper;
  }

  /** Only two channels have a policy. */
  function Transition(channel: string, current: string, incoming: string): Option<Decision> {
    if channel == "SAFEHERON" then Some(SafeheronTransition(current, incoming))
    else if channel == "AIRWALLEX" then Some(AirwallexTransition(current, incoming))
    else None
  }

  /** A stored movement; what finance entered by hand is opaque here. */
  datatype Movement<M> = Movement(provider: Fields, manual: M)

  function MergeMovement<M>(existing: Movement<M>, incoming: Fields): (Movement<M>, Outcome) {
    var (provider, outcome) := Merge(existing.provider, incoming);
    if outcome == Quarantined then (existing, outcome) else (existing.(provider := provider), outcome)
  }

  function StatusOf(p: Fields): string {
    if p.status.Some? then p.status.value else ""
  }

  /** MergeMovementProviderFieldsForChannel. */
  function MergeForChannel<M>(channel: string, existing: Movement<M>, incoming: Fields): (Movement<M>, Outcome) {
    if Transition(channel, "", "").None? then (existing, Quarantined)
    else if incoming.status == None then MergeMovement(existing, incoming)
    else
      var decision := Transition(channel, StatusOf(existing.provider), incoming.status.value).value;
      if decision.disposition == Quarantine then (existing, Quarantined)
      else
        var (merged, outcome) := MergeMovement(existing, incoming.(status := None));
        if outcome == Quarantined then (existing, Quarantined)
        else if decision.disposition != Apply || merged.provider.status == Some(decision.status) then (merged, outcome)
        else
          var newer := Compare(existing.provider.metadata, incoming.metadata) > 0;
          (merged.(provider := merged.provider.(
             status := Some(decision.status),
             metadata := if newer then incoming.metadata else merged.provider.metadata)), Applied)
  }

  function MergeAll<M>(channel: string, start: Movement<M>, facts: seq<Fields>): Movement<M> {
    if facts == [] then start
    else MergeForChannel(channel, MergeAll(channel, start, facts[..|facts| - 1]), facts[|facts| - 1]).0
  }

  lemma MergeForChannelFacts<M>(channel: string, existing: Movement<M>, incoming: Fields, k: FieldName)
    ensures var (merged, outcome) := MergeForChannel(channel, existing, incoming);
            && merged.manual == existing.manual
            && (outcome == Quarantined ==> merged == existing)
            && (Get(existing.provider, k).Some? ==> Get(merged.provider, k).Some?)
            && (merged.provider.status != existing.provider.status ==>
                  && incoming.status.Some? && Transition(channel, "", "").Some?
                  && Transition(channel, StatusOf(existing.provider), incoming.status.value).value.disposition == Apply
                  && merged.provider.status
                     == Some(Transition(channel, StatusOf(existing.provider), incoming.status.value).value.status))
  {
    hide Compare, MoneyConflict, SafeheronTransition, AirwallexTransition, Merge;
    MergeGet(existing.provider, incoming, k);
    MergeGet(existing.provider, incoming.(status := None), k);
  }

  /** Status aside, the channel's merge is the plain merge of the fields; it quarantines what
      the channel's policy quarantines, what the plain merge does, and everything of a channel
      without a policy. */
  lemma StatusAside<M>(channel: string, existing: Movement<M>, incoming: Fields)
    ensures var (merged, outcome) := MergeForChannel(channel, existing, incoming);
            var (plain, verdict) := Merge(existing.provider, incoming.(status := None));
            var refused := incoming.status.Some? && channel in {"SAFEHERON", "AIRWALLEX"}
                           && Transition(channel, StatusOf(existing.provider), incoming.status.value).value.disposition
                              == Quarantine;
            && (outcome == Quarantined <==>
                  channel !in {"SAFEHERON", "AIRWALLEX"} || refused || verdict == Quarantined)
            && (outcome != Quarantined ==>
                  && merged.manual == existing.manual
                  && merged.provider == plain.(status := merged.provider.status))
            && (channel == "SAFEHERON" && incoming.status.Some? ==>
                  Transition(channel, StatusOf(existing.provider), incoming.status.value)
                  == Some(SafeheronTransition(StatusOf(existing.provider), incoming.status.value)))
            && (channel == "AIRWALLEX" && incoming.status.Some? ==>
                  Transition(channel, StatusOf(existing.provider), incoming.status.value)
                  == Some(AirwallexTransition(StatusOf(existing.provider), incoming.status.value)))
  {
    hide Compare, MoneyConflict, SafeheronTransition, AirwallexTransition;
    StatusIsNoField(existing.provider, incoming);
  }

  lemma StatusIsNoField(existing: Fields, incoming: Fields)
    ensures Merge(existing, incoming) == Merge(existing, incoming.(status := None))
    ensures Merge(existing, incoming).0.status == existing.status
  {
    hide Compare, Text.TrimUpper, AssetKey, NormalizeAsset;
  }

  /** Whatever arrives for whatever channel: manual fields never change, no provider field
      that was present is ever nil again. */
  lemma {:induction false} NothingErased<M>(channel: string, start: Movement<M>, facts: seq<Fields>, k: FieldName)
    ensures MergeAll(channel, start, facts).manual == start.manual
    ensures Get(start.provider, k).Some? ==> Get(MergeAll(channel, start, facts).provider, k).Some?
    ensures start.provider.status.Some? ==> MergeAll(channel, start, facts).provider.status.Some?
  {
    hide MergeForChannel, Get;
    if facts != [] {
      var front, last := facts[..|facts| - 1], facts[|facts| - 1];
      NothingErased(channel, start, front, k);
      MergeForChannelFacts(channel, MergeAll(channel, start, front), last, k);
    }
  }

  /** A fact that is quarantined might as well never have come: leaving it out of a history
      leaves every later state as it is. */
  lemma {:induction false} QuarantineChangesNothing<M>(
      channel: string, start: Movement<M>, a: seq<Fields>, x: Fields, b: seq<Fields>)
    requires MergeForChannel(channel, MergeAll(channel, start, a), x).1 == Quarantined
    ensures MergeAll(channel, start, a + [x] + b) == MergeAll(channel, start, a + b)
  {
    hide MergeForChannel;
    if b == [] {
      MergeForChannelFacts(channel, MergeAll(channel, start, a), x, Amount);
      assert (a + [x])[..|a|] == a && a + [x] + b == a + [x] && a + b == a;
    } else {
      var front, last := b[..|b| - 1], b[|b| - 1];
      QuarantineChangesNothing(channel, start, a, x, front);
      assert (a + [x] + b)[..|a + [x] + b| - 1] == a + [x] + front;
      assert (a + b)[..|a + b| - 1] == a + front;
    }
  }

  lemma SafeheronStep(current: string, incoming: string)
    requires SafeheronTransition(current, incoming).disposition == Apply
    ensures var next := SafeheronTransition(current, incoming).status;
            && Text.TrimUpper(next) == next && SafeheronRank(next).Some?
            && (Text.TrimUpper(current) != "" ==>
                  && !SafeheronTerminal(Text.TrimUpper(current)) && SafeheronRank(Text.TrimUpper(current)).Some?
                  && SafeheronRank(Text.TrimUpper(current)).value < SafeheronRank(next).value)
  {
    hide Text.TrimUpper, SafeheronRank;
    Text.TrimUpperTwice(incoming);
  }

  /** Safeheron movements only ever advance, and a terminal status is final. */
  lemma {:induction false} SafeheronOnlyAdvances<M>(start: Movement<M>, facts: seq<Fields>)
    requires start.provider.status.Some? && SafeheronRank(Text.TrimUpper(start.provider.status.value)).Some?
    ensures var end := MergeAll("SAFEHERON", start, facts).provider.status;
            && end.Some? && SafeheronRank(Text.TrimUpper(end.value)).Some?
            && SafeheronRank(Text.TrimUpper(start.provider.status.value)).value
               <= SafeheronRank(Text.TrimUpper(end.value)).value
            && (SafeheronTerminal(Text.TrimUpper(start.provider.status.value)) ==> end == start.provider.status)
  {
    hide MergeForChannel, SafeheronTransition, Text.TrimUpper, SafeheronRank, SafeheronTerminal;
    if facts != [] {
      var front, last := facts[..|facts| - 1], facts[|facts| - 1];
      SafeheronOnlyAdvances(start, front);
      var before := MergeAll("SAFEHERON", start, front);
      var after := MergeAll("SAFEHERON", start, facts);
      MergeForChannelFacts("SAFEHERON", before, last, Amount);
      if after.provider.status != before.provider.status {
        RankedIsSomething(Text.TrimUpper(before.provider.status.value));
        SafeheronStep(before.provider.status.value, last.status.value);
      }
    }
  }

  lemma RankedIsSomething(status: string)
    requires SafeheronRank(status).Some?
    ensures status != ""
  {
  }

  /** The rank of a status as it is stored, or -1 for a missing or unsupported one. */
  function RankOf(status: Option<string>): int {
    if status.None? then -1
    else
      var rank := SafeheronRank(Text.TrimUpper(status.value));
      if rank.Some? then rank.value else -1
  }

  function Normal(p: Fields): string {
    Text.TrimUpper(StatusOf(p))
  }

  /** A stored status the policy supports, or none. */
  predicate KnownStatus(p: Fields) {
    Normal(p) == "" || SafeheronRank(Normal(p)).Some?
  }

  /** The highest rank among the start and the deliveries that were not quarantined. */
  function TopRank<M>(start: Movement<M>, facts: seq<Fields>): int {
    if facts == [] then RankOf(start.provider.status)
    else
      var front, last := facts[..|facts| - 1], facts[|facts| - 1];
      var top := TopRank(start, front);
      if MergeForChannel("SAFEHERON", MergeAll("SAFEHERON", start, front), last).1 == Quarantined then top
      else if RankOf(last.status) > top then RankOf(last.status)
      else top
  }

  /** What one merge does to the status: nothing when it is quarantined, and otherwise the
      incoming status is taken exactly when its rank is higher. */
  lemma SafeheronMergeStatus<M>(existing: Movement<M>, incoming: Fields)
    requires KnownStatus(existing.provider)
    ensures var (merged, outcome) := MergeForChannel("SAFEHERON", existing, incoming);
            && (outcome == Quarantined ==> merged == existing)
            && (if outcome != Quarantined && RankOf(incoming.status) > RankOf(existing.provider.status)
                then merged.provider.status == Some(Normal(incoming))
                else merged.provider.status == existing.provider.status)
            && KnownStatus(merged.provider)
            && RankOf(Some(Normal(incoming))) == RankOf(Some(StatusOf(incoming)))
            && Text.TrimUpper(Normal(incoming)) == Normal(incoming)
  {
    hide Compare, MoneyConflict, Text.TrimUpper;
    NoStatusIsBlank();
    Text.TrimUpperTwice(StatusOf(incoming));
  }

  lemma NoStatusIsBlank()
    ensures Text.TrimUpper("") == ""
  {
  }

  /** The final rank of a Safeheron movement is the highest among its first status and the
      deliveries that were accepted. */
  lemma {:induction false} FinalRankIsHighest<M>(start: Movement<M>, facts: seq<Fields>)
    requires KnownStatus(start.provider)
    ensures KnownStatus(MergeAll("SAFEHERON", start, facts).provider)
    ensures RankOf(MergeAll("SAFEHERON", start, facts).provider.status) == TopRank(start, facts)
  {
    hide MergeForChannel, KnownStatus;
    if facts != [] {
      var front, last := facts[..|facts| - 1], facts[|facts| - 1];
      FinalRankIsHighest(start, front);
      SafeheronMergeStatus(MergeAll("SAFEHERON", start, front), last);
    }
  }

  /** Whatever amount, currency and asset a fact carries are these. */
  predicate AgreesOn(p: Fields, amount: int, currency: string, asset: string) {
    && (p.amount.Some? ==> p.amount.value == amount)
    && (p.currency.Some? ==> Text.TrimUpper(p.currency.value) == currency)
    && (p.asset.Some? ==> AssetKey(NormalizeAsset(p.asset.value)) == asset)
  }

  /** Facts that agree on money are quarantined for their status alone. */
  lemma AgreedMerge<M>(existing: Movement<M>, incoming: Fields, amount: int, currency: string, asset: string)
    requires AgreesOn(existing.provider, amount, currency, asset) && AgreesOn(incoming, amount, currency, asset)
    requires KnownStatus(existing.provider)
    ensures var (merged, outcome) := MergeForChannel("SAFEHERON", existing, incoming);
            && AgreesOn(merged.provider, amount, currency, asset)
            && (outcome == Quarantined <==> incoming.status.Some? && RankOf(incoming.status) == -1)
  {
    hide Compare, Text.TrimUpper, AssetKey, NormalizeAsset;
    RankedIsNotBlank(Normal(incoming));
  }

  lemma RankedIsNotBlank(status: string)
    ensures status == "" ==> SafeheronRank(status).None?
  {
  }

  /** The highest rank among the start and all deliveries, in whatever order. */
  function HighestRank(start: int, facts: seq<Fields>): (top: int)
    ensures top >= start && forall x :: x in facts ==> RankOf(x.status) <= top
    ensures top == start || exists x :: x in facts && RankOf(x.status) == top
  {
    if facts == [] then start
    else
      var last := facts[|facts| - 1];
      var top := HighestRank(start, facts[..|facts| - 1]);
      if RankOf(last.status) > top then assert last in facts; RankOf(last.status) else top
  }

  /** Where a history that agrees on money ends: at the start's status when no delivery ranks
      higher, and otherwise at the status of some delivery of the highest rank. */
  lemma {:induction false} FinalStatus<M>(
      start: Movement<M>, facts: seq<Fields>, amount: int, currency: string, asset: string)
    requires KnownStatus(start.provider) && AgreesOn(start.provider, amount, currency, asset)
    requires forall x :: x in facts ==> AgreesOn(x, amount, currency, asset)
    ensures var end := MergeAll("SAFEHERON", start, facts).provider;
            var top := HighestRank(RankOf(start.provider.status), facts);
            && KnownStatus(end) && AgreesOn(end, amount, currency, asset) && RankOf(end.status) == top
            && (if top == RankOf(start.provider.status) then end.status == start.provider.status
                else exists x :: x in facts && RankOf(x.status) == top && end.status == Some(Normal(x)))
  {
    hide MergeForChannel, KnownStatus, AgreesOn, RankOf;
    if facts != [] {
      var front, last := facts[..|facts| - 1], facts[|facts| - 1];
      FinalStatus(start, front, amount, currency, asset);
      var before := MergeAll("SAFEHERON", start, front);
      SafeheronMergeStatus(before, last);
      AgreedMerge(before, last, amount, currency, asset);
      RankBounds(last);
      RankBounds(before.provider);
      assert last in facts;
    }
  }

  lemma RankBounds(p: Fields)
    ensures -1 <= RankOf(p.status) && (p.status.None? ==> RankOf(p.status) == -1)
    ensures p.status.Some? ==> RankOf(Some(Normal(p))) == RankOf(p.status)
  {
    hide Text.TrimUpper;
    if p.status.Some? { Text.TrimUpperTwice(p.status.value); }
  }

  /** No delivery ranks above the start, or those of the highest rank name one status. */
  ghost predicate StatusSettled(start: Fields, facts: seq<Fields>) {
    var top := HighestRank(RankOf(start.status), facts);
    top == RankOf(start.status)
    || forall x, y :: x in facts && y in facts && RankOf(x.status) == top && RankOf(y.status) == top ==>
         Normal(x) == Normal(y)
  }

  lemma SameHighest(start: int, a: seq<Fields>, b: seq<Fields>)
    requires forall x :: x in a <==> x in b
    ensures HighestRank(start, a) == HighestRank(start, b)
  {
    hide RankOf;
  }

  lemma HighestOfTheFront(start: int, x: Fields, rest: seq<Fields>)
    requires rest != [] && RankOf(x.status) == HighestRank(start, [x] + rest)
    ensures HighestRank(start, [x] + rest[..|rest| - 1]) == RankOf(x.status)
    ensures RankOf(rest[|rest| - 1].status) <= RankOf(x.status)
  {
    hide RankOf;
    var front := [x] + rest[..|rest| - 1];
    assert ([x] + rest)[..|rest|] == front;
    assert x in front;
  }

  /** Delivering a fact of the highest rank first decides the status. */
  lemma FirstOfTheHighest<M>(
      start: Movement<M>, x: Fields, rest: seq<Fields>, amount: int, currency: string, asset: string)
    requires KnownStatus(start.provider) && AgreesOn(start.provider, amount, currency, asset)
    requires forall z :: z in [x] + rest ==> AgreesOn(z, amount, currency, asset)
    requires RankOf(x.status) == HighestRank(RankOf(start.provider.status), [x] + rest) > RankOf(start.provider.status)
    ensures MergeAll("SAFEHERON", start, [x] + rest).provider.status == Some(Normal(x))
    decreases |rest|
  {
    hide MergeForChannel, KnownStatus, AgreesOn, RankOf, HighestRank, Normal;
    var all := [x] + rest;
    assert x in all;
    RankBounds(x);
    if rest == [] {
      assert all == [x] && all[..0] == [];
      assert MergeAll("SAFEHERON", start, []) == start;
      SafeheronMergeStatus(start, x);
      AgreedMerge(start, x, amount, currency, asset);
      RankBounds(start.provider);
    } else {
      var front := rest[..|rest| - 1];
      assert all[..|all| - 1] == [x] + front;
      assert forall z :: z in [x] + front ==> z in all;
      HighestOfTheFront(RankOf(start.provider.status), x, rest);
      FirstOfTheHighest(start, x, front, amount, currency, asset);
      FinalStatus(start, [x] + front, amount, currency, asset);
      SafeheronMergeStatus(MergeAll("SAFEHERON", start, [x] + front), all[|all| - 1]);
    }
  }

  /** When the deliveries agree on money, the final Safeheron status is independent of their
      order if and only if those of the highest rank name one status, or none ranks above the
      start. */
  lemma StatusConverges<M>(start: Movement<M>, facts: seq<Fields>, amount: int, currency: string, asset: string)
    requires KnownStatus(start.provider) && AgreesOn(start.provider, amount, currency, asset)
    requires forall x :: x in facts ==> AgreesOn(x, amount, currency, asset)
    ensures StatusSettled(start.provider, facts)
            <==> forall other :: Permuted(facts, other) ==>
                   MergeAll("SAFEHERON", start, other).provider.status
                   == MergeAll("SAFEHERON", start, facts).provider.status
  {
    hide MergeForChannel, KnownStatus, AgreesOn, RankOf, Permuted, MergeAll, HighestRank;
    if StatusSettled(start.provider, facts) {
      FinalStatus(start, facts, amount, currency, asset);
      forall other | Permuted(facts, other)
        ensures MergeAll("SAFEHERON", start, other).provider.status
                == MergeAll("SAFEHERON", start, facts).provider.status
      {
        PermutedSame(facts, other);
        SameHighest(RankOf(start.provider.status), facts, other);
        FinalStatus(start, other, amount, currency, asset);
      }
    } else {
      var top := HighestRank(RankOf(start.provider.status), facts);
      var x, y :| x in facts && y in facts && RankOf(x.status) == top && RankOf(y.status) == top
                  && Normal(x) != Normal(y);
      var one := AtTheFront(start, facts, x, amount, currency, asset);
      var two := AtTheFront(start, facts, y, amount, currency, asset);
    }
  }

  lemma AtTheFront<M>(
      start: Movement<M>, facts: seq<Fields>, x: Fields, amount: int, currency: string, asset: string)
      returns (order: seq<Fields>)
    requires KnownStatus(start.provider) && AgreesOn(start.provider, amount, currency, asset)
    requires forall z :: z in facts ==> AgreesOn(z, amount, currency, asset)
    requires x in facts && RankOf(x.status) == HighestRank(RankOf(start.provider.status), facts)
    requires RankOf(x.status) > RankOf(start.provider.status)
    ensures Permuted(facts, order) && MergeAll("SAFEHERON", start, order).provider.status == Some(Normal(x))
  {
    hide MergeForChannel, KnownStatus, AgreesOn, RankOf, MergeAll, HighestRank;
    var rest := OneToTheFront(facts, x);
    order := [x] + rest;
    assert multiset(order) == multiset(facts);
    PermutedSame(facts, order);
    SameHighest(RankOf(start.provider.status), facts, order);
    FirstOfTheHighest(start, x, rest, amount, currency, asset);
  }

  /** A completed and a failed delivery in two orders: whichever comes first stays. */
  lemma TwoTerminals()
    ensures var start := Movement.Movement(EMPTY, "");
            var completed, failed := EMPTY.(status := Some("COMPLETED")), EMPTY.(status := Some("FAILED"));
            && MergeAll("SAFEHERON", start, [completed, failed]).provider.status == Some("COMPLETED")
            && MergeAll("SAFEHERON", start, [failed, completed]).provider.status == Some("FAILED")
  {
    hide MergeForChannel, KnownStatus, AgreesOn, RankOf, HighestRank, MergeAll;
    var start := Movement.Movement(EMPTY, "");
    var completed, failed := EMPTY.(status := Some("COMPLETED")), EMPTY.(status := Some("FAILED"));
    TerminalWord("COMPLETED");
    TerminalWord("FAILED");
    NoStatusIsBlank();
    Blank(start.provider);
    FirstTerminal(start, completed, failed);
    FirstTerminal(start, failed, completed);
  }

  lemma TerminalWord(word: string)
    requires word == "COMPLETED" || word == "FAILED"
    ensures Text.TrimUpper(word) == word && RankOf(Some(word)) == 5
  {
    assert Text.Trim(word) == word by { Text.TrimIdempotent(word); }
    assert Text.Upper(word) == word;
  }

  lemma Blank(p: Fields)
    requires p == EMPTY
    ensures KnownStatus(p) && RankOf(p.status) == -1 && AgreesOn(p, 0, "", "")
  {
    NoStatusIsBlank();
  }

  lemma FirstTerminal(start: Movement<string>, x: Fields, y: Fields)
    requires start.provider == EMPTY && x == EMPTY.(status := x.status) && y == EMPTY.(status := y.status)
    requires x.status.Some? && Text.TrimUpper(x.status.value) == x.status.value && RankOf(x.status) == 5
    requires y.status.Some? && RankOf(y.status) == 5
    ensures MergeAll("SAFEHERON", start, [x, y]).provider.status == x.status
  {
    hide MergeForChannel, KnownStatus, RankOf, MergeAll, Text.TrimUpper;
    Blank(start.provider);
    assert [x, y] == [x] + [y];
    assert HighestRank(-1, [x] + [y]) == 5 by { assert x in [x] + [y]; }
    FirstOfTheHighest(start, x, [y], 0, "", "");
  }

  /** Airwallex statuses with no outgoing transition are final. */
  predicate AirwallexFinal(status: string) {
    status == "FAILED" || status == "CANCELLED" || status == "REJECTED" || status == "REVERSED"
  }

  lemma FinalStatusesHaveNoMove(status: string)
    requires status in AIRWALLEX_STATUSES
    ensures AirwallexFinal(status) <==> forall next :: (status, next) !in AIRWALLEX_MOVES
  {
    if status == "PENDING" || status == "SUBMITTED" || status == "PROCESSING" || status == "PAID" {
      assert (status, "FAILED") in AIRWALLEX_MOVES;
    }
  }

  lemma {:induction false} AirwallexFinalStays<M>(start: Movement<M>, facts: seq<Fields>)
    requires start.provider.status.Some? && AirwallexFinal(Text.TrimUpper(start.provider.status.value))
    ensures MergeAll("AIRWALLEX", start, facts).provider.status == start.provider.status
  {
    hide MergeForChannel, Text.TrimUpper;
    if facts != [] {
      var front, last := facts[..|facts| - 1], facts[|facts| - 1];
      AirwallexFinalStays(start, front);
      MergeForChannelFacts("AIRWALLEX", MergeAll("AIRWALLEX", start, front), last, Amount);
    }
  }
}
