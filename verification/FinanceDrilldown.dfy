/** Dashboard aggregates and the drill-down filters they return
    (internal/companyfund/finance_query.go). */
module FinanceDrilldown {
  import opened Wrappers
  import opened Models
  import opened Ordering
  import opened FinanceFilter
  import opened FinanceQuery
  import Text

  datatype Key = Key(direction: string, currency: string)

  datatype Aggregate = Aggregate(key: Key, count: nat, amount: int, usd: Option<int>, unpriced: nat, drilldown: Filter)

  datatype Summary = Summary(filter: Filter, aggregates: seq<Aggregate>)

  function KeyOf(r: Row): Key {
    Key(EffectiveDirection(r), r.currency)
  }

  /** The detail rows of a filter, in table order. */
  function Details(table: seq<Row>, f: Filter): seq<Row> {
    if table == [] then []
    else
      var front, last := Details(table[..|table| - 1], f), table[|table| - 1];
      if Matches(f, last) then front + [last] else front
  }

  function InGroup(rows: seq<Row>, key: Key): seq<Row> {
    if rows == [] then []
    else
      var front, last := InGroup(rows[..|rows| - 1], key), rows[|rows| - 1];
      if KeyOf(last) == key then front + [last] else front
  }

  function SumAmount(rows: seq<Row>): int {
    if rows == [] then 0
    else
      var last := rows[|rows| - 1];
      SumAmount(rows[..|rows| - 1]) + if last.kind == "REVERSAL" then -last.amount else last.amount
  }

  /** SUM is NULL when no row has a USD value. */
  function SumUsd(rows: seq<Row>): Option<int> {
    if rows == [] then None
    else
      var front, last := SumUsd(rows[..|rows| - 1]), rows[|rows| - 1];
      if last.usdValue == None then front
      else
        var signed := if last.kind == "REVERSAL" then -last.usdValue.value else last.usdValue.value;
        Some(signed + if front.Some? then front.value else 0)
  }

  function CountUnpriced(rows: seq<Row>): nat {
    if rows == [] then 0
    else CountUnpriced(rows[..|rows| - 1]) + if rows[|rows| - 1].usdValue == None then 1 else 0
  }

  function AggregateOf(key: Key, rows: seq<Row>, drilldown: Filter): Aggregate {
    Aggregate(key, |rows|, SumAmount(rows), SumUsd(rows), CountUnpriced(rows), drilldown)
  }

  function Drilldown(f: Filter, key: Key): Filter {
    f.(directions := [key.direction], currencies := [key.currency])
  }

  function KeysOf(rows: seq<Row>): (keys: seq<Key>)
    ensures |keys| == |rows|
    ensures forall i :: 0 <= i < |rows| ==> keys[i] == KeyOf(rows[i])
  {
    seq(|rows|, i requires 0 <= i < |rows| => KeyOf(rows[i]))
  }

  /** One aggregate per (effective direction, currency) among the rows. */
  function Aggregates(rows: seq<Row>, keys: seq<Key>, f: Filter): (a: seq<Aggregate>)
    ensures |a| == |keys|
    ensures forall i :: 0 <= i < |keys| ==> a[i] == AggregateOf(keys[i], InGroup(rows, keys[i]), Drilldown(f, keys[i]))
  {
    seq(|keys|, i requires 0 <= i < |keys| => AggregateOf(keys[i], InGroup(rows, keys[i]), Drilldown(f, keys[i])))
  }

  function Grouped(table: seq<Row>, f: Filter): seq<Aggregate> {
    var rows := Details(table, f);
    Aggregates(rows, Dedup(KeysOf(rows)), f)
  }

  // ---- Queries -----------------------------------------------------------------------

  /** Runs the compiled clause over the table. */
  method Select(table: seq<Row>, f: Filter) returns (rows: seq<Row>)
    ensures rows == Details(table, f)
  {
    hide Matches, Selects;
    var conditions, args, _ := BuildTransactionWhere(f, 1);
    rows := [];
    for i := 0 to |table|
      invariant rows == Details(table[..i], f)
    {
      assert table[..i + 1][..i] == table[..i];
      if Selects(conditions, table[i], args, 1) {
        rows := rows + [table[i]];
      }
    }
    assert table[..|table|] == table;
  }

  method Dashboard(table: seq<Row>, raw: Filter) returns (r: Result<Summary, FilterError>)
    ensures r.Ok? <==> Canonical(raw).Ok?
    ensures r.Err? ==> r.error == Canonical(raw).error
    ensures r.Ok? ==> r.value == Summary(Canonical(raw).value, Grouped(table, Canonical(raw).value))
  {
    var canonical := Canonicalize(raw);
    if canonical.Err? {
      return Err(canonical.error);
    }
    var f := canonical.value;
    var rows := Select(table, f);
    return Ok(Summary(f, Aggregates(rows, Dedup(KeysOf(rows)), f)));
  }

  const DEFAULT_LIMIT := 100
  const MAX_LIMIT := 1000

  datatype DetailRequest = DetailRequest(filter: Filter, limit: int, offset: int)

  datatype DetailError = BadFilter(error: FilterError) | BadLimit | BadOffset

  function EffectiveLimit(limit: int): int {
    if limit == 0 then DEFAULT_LIMIT else limit
  }

  /** The first problem of a request, in checking order. */
  function RequestProblem(q: DetailRequest): Option<DetailError> {
    if Canonical(q.filter).Err? then Some(BadFilter(Canonical(q.filter).error))
    else if EffectiveLimit(q.limit) < 1 || EffectiveLimit(q.limit) > MAX_LIMIT then Some(BadLimit)
    else if q.offset < 0 then Some(BadOffset)
    else None
  }

  /** Which requests are refused, and why: no limit means a hundred, and a thousand is the
      most. */
  lemma RequestsExactly(q: DetailRequest)
    ensures var filterOk := Canonical(q.filter).Ok?;
            && (RequestProblem(q) == None <==> filterOk && 0 <= q.limit <= 1000 && 0 <= q.offset)
            && (RequestProblem(q) == Some(BadLimit) <==> filterOk && !(0 <= q.limit <= 1000))
            && (RequestProblem(q) == Some(BadOffset) <==> filterOk && 0 <= q.limit <= 1000 && q.offset < 0)
            && (!filterOk ==> RequestProblem(q) == Some(BadFilter(Canonical(q.filter).error)))
            && EffectiveLimit(q.limit) == if q.limit == 0 then 100 else q.limit
  {
    hide Canonical;
  }

  /** Newest first, and among rows of one instant the higher ID first. */
  predicate Newer(a: Row, b: Row) {
    EffectiveDate(a) > EffectiveDate(b) || (EffectiveDate(a) == EffectiveDate(b) && a.id > b.id)
  }

  /** LIMIT limit OFFSET offset. */
  function Page(rows: seq<Row>, limit: nat, offset: nat): seq<Row> {
    if offset >= |rows| then [] else rows[offset..if offset + limit < |rows| then offset + limit else |rows|]
  }

  method ListDetails(table: seq<Row>, q: DetailRequest) returns (r: Result<seq<Row>, DetailError>)
    ensures r.Ok? <==> RequestProblem(q).None?
    ensures r.Err? ==> Some(r.error) == RequestProblem(q)
    ensures r.Ok? ==>
              r.value == Page(Sort(Newer, Details(table, Canonical(q.filter).value)), EffectiveLimit(q.limit), q.offset)
  {
    hide Canonical, Details, Sort;
    var canonical := Canonicalize(q.filter);
    if canonical.Err? {
      return Err(BadFilter(canonical.error));
    }
    var limit := if q.limit == 0 then DEFAULT_LIMIT else q.limit;
    if limit < 1 || limit > MAX_LIMIT {
      return Err(BadLimit);
    }
    if q.offset < 0 {
      return Err(BadOffset);
    }
    var rows := Select(table, canonical.value);
    return Ok(Page(Sort(Newer, rows), limit, q.offset));
  }

  /** The first n pages, one after the other. */
  function Pages(rows: seq<Row>, limit: nat, n: nat): seq<Row> {
    if n == 0 then [] else Pages(rows, limit, n - 1) + Page(rows, limit, (n - 1) * limit)
  }

  function Upto(rows: seq<Row>, n: nat): seq<Row> {
    if n < |rows| then rows[..n] else rows
  }

  lemma OnePageMore(rows: seq<Row>, limit: nat, listed: nat)
    ensures Upto(rows, listed) + Page(rows, limit, listed) == Upto(rows, listed + limit)
  {
  }

  lemma {:induction false} PagesAreAPrefix(rows: seq<Row>, limit: nat, n: nat)
    ensures Pages(rows, limit, n) == Upto(rows, n * limit)
  {
    hide Page, Upto;
    if n == 0 {
      assert Upto(rows, 0) == [] by { NothingListed(rows); }
    } else {
      PagesAreAPrefix(rows, limit, n - 1);
      OnePageMore(rows, limit, (n - 1) * limit);
      assert n * limit == (n - 1) * limit + limit;
    }
  }

  lemma NothingListed(rows: seq<Row>)
    ensures Upto(rows, 0) == []
  {
  }

  /** Paging neither skips nor repeats a row: the pages of a filter put together are its
      matching rows, newest first, as soon as they are many enough. */
  lemma PagesCoverDetails(table: seq<Row>, f: Filter, limit: nat, n: nat)
    requires n * limit >= |Details(table, f)|
    ensures var listed := Pages(Sort(Newer, Details(table, f)), limit, n);
            multiset(listed) == multiset(Details(table, f)) && Sorted(Newer, listed)
  {
    hide Details, Sort, Sorted;
    assert WeakOrder(Newer);
    WeakSortSorts(Newer, Details(table, f));
    PagesAreAPrefix(Sort(Newer, Details(table, f)), limit, n);
  }

  // ---- Drill-down ----------------------------------------------------------------------

  lemma {:induction false} DetailsMatch(table: seq<Row>, f: Filter, r: Row)
    ensures r in Details(table, f) <==> r in table && Matches(f, r)
  {
    hide Matches;
    if table != [] {
      DetailsMatch(table[..|table| - 1], f, r);
      assert r in table <==> r in table[..|table| - 1] || r == table[|table| - 1];
    }
  }

  lemma {:induction false} DetailsAreGroup(table: seq<Row>, d: Filter, f: Filter, key: Key)
    requires forall r :: r in table ==> (Matches(d, r) <==> Matches(f, r) && KeyOf(r) == key)
    ensures Details(table, d) == InGroup(Details(table, f), key)
  {
    hide Matches, KeyOf;
    if table != [] {
      var front, last := table[..|table| - 1], table[|table| - 1];
      DetailsAreGroup(front, d, f, key);
      if Matches(f, last) {
        assert (Details(front, f) + [last])[..|Details(front, f)|] == Details(front, f);
      }
    }
  }

  lemma CanonSingleton<T(!new)>(less: (T, T) -> bool, x: T)
    ensures Canon(less, [x]) == [x]
  {
    assert [x][..0] == [];
    assert Dedup([x]) == [x];
    assert Sort(less, [x]) == Insert(less, x, Sort(less, []));
  }

  lemma IsCanonical(f: Filter, raw: Filter)
    requires Canonical(raw) == Ok(f)
    ensures Canonical(f) == Ok(f) && FirstError(f) == None
  {
    hide Canon, StrictlySorted, FirstError;
    CanonicalIsCanonical(raw);
  }

  lemma NormalizedOne(currency: string)
    ensures NormalizedAll([currency]) == [Text.TrimUpper(currency)]
  {
  }

  /** A drill-down filter is accepted exactly when its direction and currency are, and then
      it keeps everything else and asks for the normalized currency. */
  lemma DrilldownCanonical(f: Filter, raw: Filter, key: Key)
    requires Canonical(raw) == Ok(f)
    ensures Canonical(Drilldown(f, key)).Ok? <==> ValidDirection(key.direction) && ValidCurrency(key.currency)
    ensures Canonical(Drilldown(f, key)).Ok? ==>
              Canonical(Drilldown(f, key)).value == Drilldown(f, key).(currencies := [Text.TrimUpper(key.currency)])
  {
    hide Canon, NormalizedAll, ValidCurrency, ValidDirection, ValidChannel, AllPositive;
    IsCanonical(f, raw);
    CanonSingleton(LexLess, key.direction);
    CanonSingleton(LexLess, Text.TrimUpper(key.currency));
    NormalizedOne(key.currency);
    assert Drilldown(f, key).directions[0] == key.direction;
    assert Drilldown(f, key).currencies[0] == key.currency;
  }

  /** A displayed total can be drilled into exactly when its currency is stored in canonical
      form: the re-canonicalised drill-down filter of a group lists exactly that group's
      rows, hence its count, signed sums and unpriced count, if and only if it is. */
  lemma DrilldownReproducesGroup(table: seq<Row>, raw: Filter, f: Filter, key: Key)
    requires Canonical(raw) == Ok(f)
    requires forall r :: r in table ==> ValidDirection(EffectiveDirection(r))
    requires InGroup(Details(table, f), key) != []
    ensures (Canonical(Drilldown(f, key)).Ok?
             && Details(table, Canonical(Drilldown(f, key)).value) == InGroup(Details(table, f), key))
            <==> CanonicalCurrency(key.currency)
  {
    hide Details, InGroup, Canonical, FirstError, EffectiveDirection, ValidDirection, ValidCurrency, Canon;
    hide Text.TrimUpper;
    var group := InGroup(Details(table, f), key);
    var sample := group[0];
    InGroupMembers(Details(table, f), key, sample);
    DetailsMatch(table, f, sample);
    DrilldownCanonical(f, raw, key);
    if CanonicalCurrency(key.currency) {
      var d := Canonical(Drilldown(f, key)).value;
      forall r | r in table
        ensures Matches(d, r) <==> Matches(f, r) && KeyOf(r) == key
      {
        DrilldownMatches(f, key, sample, r);
      }
      DetailsAreGroup(table, d, f, key);
    } else if ValidCurrency(key.currency) {
      var d := Canonical(Drilldown(f, key)).value;
      DetailsMatch(table, d, sample);
      assert !Matches(d, sample);
    }
  }

  lemma {:induction false} InGroupMembers(rows: seq<Row>, key: Key, r: Row)
    ensures r in InGroup(rows, key) <==> r in rows && KeyOf(r) == key
  {
    if rows != [] {
      InGroupMembers(rows[..|rows| - 1], key, r);
      assert r in rows <==> r in rows[..|rows| - 1] || r == rows[|rows| - 1];
    }
  }

  lemma DrilldownMatches(f: Filter, key: Key, sample: Row, r: Row)
    requires Matches(f, sample) && KeyOf(sample) == key
    ensures Matches(Drilldown(f, key), r) <==> Matches(f, r) && KeyOf(r) == key
  {
    hide EffectiveDirection;
  }

  /** The drill-downs of a dashboard are disjoint and cover exactly its rows: a row belongs
      to the dashboard exactly when one aggregate's drill-down lists it, and never to two. */
  lemma DrilldownsPartition(table: seq<Row>, raw: Filter, f: Filter, r: Row)
    requires Canonical(raw) == Ok(f)
    requires forall x :: x in table ==> ValidDirection(EffectiveDirection(x)) && CanonicalCurrency(x.currency)
    requires r in table
    ensures forall i :: 0 <= i < |Grouped(table, f)| ==> Canonical(Grouped(table, f)[i].drilldown).Ok?
    ensures Matches(f, r) <==>
            exists i :: 0 <= i < |Grouped(table, f)| && Matches(Canonical(Grouped(table, f)[i].drilldown).value, r)
    ensures forall i, j :: 0 <= i < j < |Grouped(table, f)| ==>
              !(Matches(Canonical(Grouped(table, f)[i].drilldown).value, r)
                && Matches(Canonical(Grouped(table, f)[j].drilldown).value, r))
  {
    hide Canonical, FirstError, Matches, EffectiveDirection, ValidDirection, CanonicalCurrency, Canon, Dedup, InGroup;
    var rows := Details(table, f);
    var keys := Dedup(KeysOf(rows));
    var groups := Grouped(table, f);
    DedupSame(KeysOf(rows));
    forall i | 0 <= i < |keys|
      ensures Canonical(groups[i].drilldown).Ok?
      ensures Matches(Canonical(groups[i].drilldown).value, r) <==> Matches(f, r) && KeyOf(r) == keys[i]
    {
      assert keys[i] in KeysOf(rows);
      var j :| 0 <= j < |rows| && KeyOf(rows[j]) == keys[i];
      DetailsMatch(table, f, rows[j]);
      DrilldownOf(f, raw, keys[i], rows[j], r);
    }
    if Matches(f, r) {
      DetailsMatch(table, f, r);
      var j :| 0 <= j < |rows| && rows[j] == r;
      assert KeysOf(rows)[j] == KeyOf(r);
      assert KeyOf(r) in keys;
      var i :| 0 <= i < |keys| && keys[i] == KeyOf(r);
      assert Matches(Canonical(groups[i].drilldown).value, r);
    }
  }

  lemma DrilldownOf(f: Filter, raw: Filter, key: Key, sample: Row, r: Row)
    requires Canonical(raw) == Ok(f)
    requires Matches(f, sample) && KeyOf(sample) == key
    requires ValidDirection(key.direction) && CanonicalCurrency(key.currency)
    ensures Canonical(Drilldown(f, key)).Ok?
    ensures Matches(Canonical(Drilldown(f, key)).value, r) <==> Matches(f, r) && KeyOf(r) == key
  {
    hide Canonical, Matches, KeyOf, ValidDirection, Text.TrimUpper, ValidCurrency;
    DrilldownCanonical(f, raw, key);
    DrilldownMatches(f, key, sample, r);
  }

  function TotalCount(groups: seq<Aggregate>): nat {
    if groups == [] then 0 else TotalCount(groups[..|groups| - 1]) + groups[|groups| - 1].count
  }

  /** Nothing is counted twice and nothing is lost: the counts add up to the number of rows
      the filter matches. */
  lemma CountsAddUp(table: seq<Row>, f: Filter)
    ensures TotalCount(Grouped(table, f)) == |Details(table, f)|
  {
    hide Dedup, Details;
    var rows := Details(table, f);
    DedupSame(KeysOf(rows));
    var keys := Dedup(KeysOf(rows));
    forall i | 0 <= i < |rows|
      ensures KeyOf(rows[i]) in keys
    {
      assert KeysOf(rows)[i] == KeyOf(rows[i]);
      assert KeyOf(rows[i]) in KeysOf(rows);
    }
    GroupsCover(rows, keys, f);
  }

  lemma {:induction false} GroupsCover(rows: seq<Row>, keys: seq<Key>, f: Filter)
    requires forall i, j :: 0 <= i < j < |keys| ==> keys[i] != keys[j]
    requires forall i :: 0 <= i < |rows| ==> KeyOf(rows[i]) in keys
    ensures TotalCount(Aggregates(rows, keys, f)) == |rows|
  {
    hide TotalCount, Aggregates, EffectiveDirection;
    if rows == [] {
      NoRows(keys, f);
    } else {
      var front, last := rows[..|rows| - 1], rows[|rows| - 1];
      GroupsCover(front, keys, f);
      OneMore(front, last, keys, f);
      assert front + [last] == rows;
    }
  }

  lemma {:induction false} NoRows(keys: seq<Key>, f: Filter)
    ensures TotalCount(Aggregates([], keys, f)) == 0
  {
    if keys != [] {
      NoRows(keys[..|keys| - 1], f);
      assert Aggregates([], keys, f)[..|keys| - 1] == Aggregates([], keys[..|keys| - 1], f);
    }
  }

  lemma TotalUnfold(rows: seq<Row>, keys: seq<Key>, f: Filter)
    requires keys != []
    ensures TotalCount(Aggregates(rows, keys, f))
            == TotalCount(Aggregates(rows, keys[..|keys| - 1], f)) + |InGroup(rows, keys[|keys| - 1])|
  {
    hide InGroup;
    assert Aggregates(rows, keys, f)[..|keys| - 1] == Aggregates(rows, keys[..|keys| - 1], f);
  }

  lemma InGroupSnoc(front: seq<Row>, last: Row, key: Key)
    ensures |InGroup(front + [last], key)| == |InGroup(front, key)| + if KeyOf(last) == key then 1 else 0
  {
    hide KeyOf;
    assert (front + [last])[..|front|] == front;
  }

  lemma {:induction false} OneMore(front: seq<Row>, last: Row, keys: seq<Key>, f: Filter)
    requires forall i, j :: 0 <= i < j < |keys| ==> keys[i] != keys[j]
    ensures TotalCount(Aggregates(front + [last], keys, f))
            == TotalCount(Aggregates(front, keys, f)) + if KeyOf(last) in keys then 1 else 0
  {
    hide TotalCount, Aggregates, InGroup, KeyOf;
    if keys == [] {
      NoRows(keys, f);
      assert Aggregates(front + [last], keys, f) == Aggregates(front, keys, f);
    } else {
      var before, key := keys[..|keys| - 1], keys[|keys| - 1];
      OneMore(front, last, before, f);
      TotalUnfold(front + [last], keys, f);
      TotalUnfold(front, keys, f);
      InGroupSnoc(front, last, key);
      assert keys == before + [key];
    }
  }

  lemma {:induction false} DetailsAppend(a: seq<Row>, b: seq<Row>, f: Filter)
    ensures Details(a + b, f) == Details(a, f) + Details(b, f)
  {
    hide Matches;
    if b == [] {
      assert a + b == a;
    } else {
      DetailsAppend(a, b[..|b| - 1], f);
      assert (a + b)[..|a + b| - 1] == a + b[..|b| - 1];
    }
  }

  lemma {:induction false} GroupAppend(a: seq<Row>, b: seq<Row>, key: Key)
    ensures InGroup(a + b, key) == InGroup(a, key) + InGroup(b, key)
  {
    hide KeyOf;
    if b == [] {
      assert a + b == a;
    } else {
      GroupAppend(a, b[..|b| - 1], key);
      assert (a + b)[..|a + b| - 1] == a + b[..|b| - 1];
    }
  }

  function AddUsd(a: Option<int>, b: Option<int>): Option<int> {
    if a == None then b else if b == None then a else Some(a.value + b.value)
  }

  lemma {:induction false} AmountAppend(a: seq<Row>, b: seq<Row>)
    ensures SumAmount(a + b) == SumAmount(a) + SumAmount(b)
  {
    if b == [] {
      assert a + b == a;
    } else {
      AmountAppend(a, b[..|b| - 1]);
      assert (a + b)[..|a + b| - 1] == a + b[..|b| - 1];
    }
  }

  lemma {:induction false} UsdAppend(a: seq<Row>, b: seq<Row>)
    ensures SumUsd(a + b) == AddUsd(SumUsd(a), SumUsd(b))
  {
    if b == [] {
      assert a + b == a;
    } else {
      UsdAppend(a, b[..|b| - 1]);
      assert (a + b)[..|a + b| - 1] == a + b[..|b| - 1];
    }
  }

  lemma {:induction false} UnpricedAppend(a: seq<Row>, b: seq<Row>)
    ensures CountUnpriced(a + b) == CountUnpriced(a) + CountUnpriced(b)
  {
    if b == [] {
      assert a + b == a;
    } else {
      UnpricedAppend(a, b[..|b| - 1]);
      assert (a + b)[..|a + b| - 1] == a + b[..|b| - 1];
    }
  }

  lemma SumsAppend(a: seq<Row>, b: seq<Row>)
    ensures SumAmount(a + b) == SumAmount(a) + SumAmount(b)
    ensures SumUsd(a + b) == AddUsd(SumUsd(a), SumUsd(b))
    ensures CountUnpriced(a + b) == CountUnpriced(a) + CountUnpriced(b)
  {
    hide SumAmount, SumUsd, CountUnpriced;
    AmountAppend(a, b);
    UsdAppend(a, b);
    UnpricedAppend(a, b);
  }

  lemma One(r: Row, f: Filter, key: Key)
    ensures Details([r], f) == (if Matches(f, r) then [r] else [])
    ensures InGroup([r], key) == (if KeyOf(r) == key then [r] else [])
    ensures SumAmount([r]) == (if r.kind == "REVERSAL" then -r.amount else r.amount)
    ensures SumUsd([r]) == (if r.usdValue == None then None
                            else Some(if r.kind == "REVERSAL" then -r.usdValue.value else r.usdValue.value))
    ensures CountUnpriced([r]) == if r.usdValue == None then 1 else 0
  {
    hide Matches, KeyOf;
    assert [r][..0] == [];
  }

  /** The rows of one group, with two more rows of the table somewhere among them. */
  lemma GroupOfFive(a: seq<Row>, p: Row, b: seq<Row>, q: Row, c: seq<Row>, f: Filter, key: Key)
    requires Matches(f, p) && Matches(f, q)
    ensures var group, rest := InGroup(Details(a + [p] + b + [q] + c, f), key), InGroup(Details(a + b + c, f), key);
            if KeyOf(p) == key == KeyOf(q) then
              && |group| == |rest| + 2
              && SumAmount(group) == SumAmount(rest) + SumAmount([p]) + SumAmount([q])
              && SumUsd(group) == AddUsd(SumUsd(rest), AddUsd(SumUsd([p]), SumUsd([q])))
              && CountUnpriced(group) == CountUnpriced(rest) + CountUnpriced([p]) + CountUnpriced([q])
            else KeyOf(p) != key && KeyOf(q) != key ==> group == rest
  {
    hide Matches, KeyOf, Details, InGroup, SumAmount, SumUsd, CountUnpriced;
    DetailsAppend(a + [p] + b + [q], c, f);
    DetailsAppend(a + [p] + b, [q], f);
    DetailsAppend(a + [p], b, f);
    DetailsAppend(a, [p], f);
    DetailsAppend(a + b, c, f);
    DetailsAppend(a, b, f);
    One(p, f, key);
    One(q, f, key);
    var x, y, z := Details(a, f), Details(b, f), Details(c, f);
    GroupAppend(x + [p] + y + [q], z, key);
    GroupAppend(x + [p] + y, [q], key);
    GroupAppend(x + [p], y, key);
    GroupAppend(x, [p], key);
    GroupAppend(x + y, z, key);
    GroupAppend(x, y, key);
    var u, v, w := InGroup(x, key), InGroup(y, key), InGroup(z, key);
    if KeyOf(p) == key == KeyOf(q) {
      SumsAppend(u + [p] + v + [q], w);
      SumsAppend(u + [p] + v, [q]);
      SumsAppend(u + [p], v);
      SumsAppend(u, [p]);
      SumsAppend(u + v, w);
      SumsAppend(u, v);
    } else if KeyOf(p) != key && KeyOf(q) != key {
      assert u + [] + v + [] + w == u + v + w;
    }
  }

  /** `reversal` takes back all of `original`. */
  predicate FullReversal(original: Row, reversal: Row) {
    && original.kind != "REVERSAL" && reversal.kind == "REVERSAL"
    && reversal.originalDirection == Some(original.direction) && reversal.currency == original.currency
    && reversal.amount == original.amount && reversal.usdValue == original.usdValue
  }

  /** What an aggregate says when `rest` are its group's rows without `p` and its reversal. */
  ghost predicate NetsOut(g: Aggregate, rest: seq<Row>, p: Row) {
    if g.key == KeyOf(p) then
      && g.count == |rest| + 2 && g.amount == SumAmount(rest)
      && g.usd == (if p.usdValue == None then SumUsd(rest)
                   else Some(if SumUsd(rest).Some? then SumUsd(rest).value else 0))
      && g.unpriced == CountUnpriced(rest) + if p.usdValue == None then 2 else 0
    else g == AggregateOf(g.key, rest, g.drilldown)
  }

  lemma OneAggregate(a: seq<Row>, p: Row, b: seq<Row>, q: Row, c: seq<Row>, f: Filter, key: Key)
    requires FullReversal(p, q) || FullReversal(q, p)
    requires Matches(f, p) && Matches(f, q)
    ensures var group := InGroup(Details(a + [p] + b + [q] + c, f), key);
            NetsOut(AggregateOf(key, group, Drilldown(f, key)), InGroup(Details(a + b + c, f), key), p)
  {
    hide Details, InGroup, SumAmount, SumUsd, CountUnpriced, Matches, KeyOf;
    SameKey(p, q);
    GroupOfFive(a, p, b, q, c, f, key);
    One(p, f, key);
    One(q, f, key);
  }

  /** A movement and a full reversal of it, anywhere in the table and in either order, fall
      into one aggregate of the dashboard. That aggregate counts both, and its amount, and
      its USD value when it has priced rows besides or they are unpriced, are those of the
      table without the two; if they are its only priced rows its USD value is zero. Every
      other aggregate is what it is without them. */
  lemma ReversalNetsOut(a: seq<Row>, p: Row, b: seq<Row>, q: Row, c: seq<Row>, f: Filter)
    requires FullReversal(p, q) || FullReversal(q, p)
    requires Matches(f, p) && Matches(f, q)
    ensures var groups := Grouped(a + [p] + b + [q] + c, f);
            && KeyOf(p) == KeyOf(q)
            && (exists i :: 0 <= i < |groups| && groups[i].key == KeyOf(p))
            && forall i :: 0 <= i < |groups| ==> NetsOut(groups[i], InGroup(Details(a + b + c, f), groups[i].key), p)
  {
    hide Details, InGroup, NetsOut, AggregateOf, Dedup, Matches, KeyOf, FullReversal;
    var table := a + [p] + b + [q] + c;
    var rows := Details(table, f);
    var keys := Dedup(KeysOf(rows));
    var groups := Grouped(table, f);
    DedupSame(KeysOf(rows));
    SameKey(p, q);
    assert p in table by { assert table[|a|] == p; }
    DetailsMatch(table, f, p);
    var j :| 0 <= j < |rows| && rows[j] == p;
    assert KeysOf(rows)[j] == KeyOf(p);
    assert KeyOf(p) in keys;
    var at :| 0 <= at < |keys| && keys[at] == KeyOf(p);
    KeyOfAggregate(keys[at], InGroup(rows, keys[at]), Drilldown(f, keys[at]));
    forall i | 0 <= i < |groups|
      ensures NetsOut(groups[i], InGroup(Details(a + b + c, f), groups[i].key), p)
    {
      KeyOfAggregate(keys[i], InGroup(rows, keys[i]), Drilldown(f, keys[i]));
      OneAggregate(a, p, b, q, c, f, keys[i]);
    }
  }

  lemma KeyOfAggregate(key: Key, rows: seq<Row>, drilldown: Filter)
    ensures AggregateOf(key, rows, drilldown).key == key
  {
  }

  lemma SameKey(p: Row, q: Row)
    requires FullReversal(p, q) || FullReversal(q, p)
    ensures KeyOf(p) == KeyOf(q)
  {
  }

  // ---- Canonicalisation and matching -------------------------------------------------

  /** Canonicalising never changes which rows match except through the spelling of
      currencies: it leaves every row's verdict alone if and only if the currencies asked
      for were already canonical. */
  lemma CanonicalKeepsMatches(f: Filter, g: Filter)
    requires Canonical(f) == Ok(g)
    ensures forall r :: Matches(g, r) <==> Matches(f.(currencies := NormalizedAll(f.currencies)), r)
    ensures (forall r :: Matches(f, r) <==> Matches(g, r))
            <==> (forall i :: 0 <= i < |f.currencies| ==> CanonicalCurrency(f.currencies[i]))
  {
    hide StrictlySorted, Canon, EffectiveDirection, EffectiveDate, SummaryIncluded, Text.TrimUpper, ValidCurrency;
    CanonicalIsCanonical(f);
    var n := f.(currencies := NormalizedAll(f.currencies));
    SameMembers(f.channels, g.channels);
    SameMembers(f.directions, g.directions);
    SameMembers(n.currencies, g.currencies);
    SameMembers(f.accounts, g.accounts);
    SameMembers(f.level1, g.level1);
    SameMembers(f.level2, g.level2);
    forall r
      ensures Matches(g, r) <==> Matches(n, r)
    {
      assert Picks(g.accounts, r.fromAccount) <==> Picks(n.accounts, r.fromAccount);
      assert Picks(g.accounts, r.toAccount) <==> Picks(n.accounts, r.toAccount);
      assert Picks(g.level1, r.level1) <==> Picks(n.level1, r.level1);
      assert Picks(g.level2, r.level2) <==> Picks(n.level2, r.level2);
    }
    if forall i :: 0 <= i < |f.currencies| ==> CanonicalCurrency(f.currencies[i]) {
      assert NormalizedAll(f.currencies) == f.currencies;
      assert n == f;
    } else {
      var i :| 0 <= i < |f.currencies| && !CanonicalCurrency(f.currencies[i]);
      var r := Witness(f, f.currencies[i]);
      assert f.currencies[i] in f.currencies;
      WitnessMatches(f, f.currencies[i]);
      assert f.currencies[i] !in g.currencies;
    }
  }

  lemma SameMembers<T>(a: seq<T>, b: seq<T>)
    requires forall x :: x in b <==> x in a
    ensures a == [] <==> b == []
  {
    if a != [] { assert a[0] in b; }
    if b != [] { assert b[0] in a; }
  }

  /** A row an acceptable filter picks, in the currency given. */
  function Witness(f: Filter, currency: string): Row {
    var date := if f.dateFrom.Some? then f.dateFrom.value else if f.dateTo.Some? then f.dateTo.value - 1 else 0;
    Row(
      0, Some(date), None, 0,
      if f.channels == [] then "MANUAL" else f.channels[0],
      if f.accounts == [] then None else Some(f.accounts[0]), None,
      if f.directions == [] then "INFLOW" else f.directions[0], "PRINCIPAL", None, currency,
      if f.level1 == [] then None else Some(f.level1[0]), if f.level2 == [] then None else Some(f.level2[0]),
      f.operating, None, Some(true), false, 0, None)
  }

  lemma WitnessMatches(f: Filter, currency: string)
    requires Canonical(f).Ok?
    requires currency in f.currencies
    ensures Matches(f, Witness(f, currency))
  {
    hide Canon, NormalizedAll, ValidCurrency, ValidChannel, ValidDirection, AllPositive;
    assert FirstError(f) == None;
  }

  // ---- Two concrete cases ------------------------------------------------------------------

  const EVERYTHING := Filter(None, None, [], [], [], [], [], [], None, true)

  /** A deposit whose currency was stored in lower case. */
  const LOWER_CASE :=
    Row(1, Some(0), None, 0, "MANUAL", None, Some(7), "INFLOW", "PRINCIPAL", None, "usd", None, None, None, None, None,
        false, 100, None)

  lemma LowerCaseCurrency()
    ensures Text.TrimUpper("usd") == "USD" && ValidCurrency("usd") && !CanonicalCurrency("usd")
  {
    hide Text.Trim;
    Text.TrimIdempotent("usd");
  }

  lemma EverythingIsCanonical()
    ensures Canonical(EVERYTHING) == Ok(EVERYTHING)
  {
    assert Dedup<string>([]) == [] && Dedup<int>([]) == [];
    assert NormalizedAll([]) == [];
  }

  /** Its dashboard shows a total of 100 usd, and the drill-down of that total lists nothing. */
  lemma LowerCaseTotalHasNoDetails()
    ensures Canonical(EVERYTHING) == Ok(EVERYTHING)
    ensures Details([LOWER_CASE], EVERYTHING) == [LOWER_CASE]
    ensures InGroup([LOWER_CASE], Key("INFLOW", "usd")) == [LOWER_CASE] && SumAmount([LOWER_CASE]) == 100
    ensures var d := Canonical(Drilldown(EVERYTHING, Key("INFLOW", "usd")));
            d.Ok? && Details([LOWER_CASE], d.value) == []
  {
    hide Details, InGroup, SumAmount, Canonical;
    EverythingIsCanonical();
    LowerCaseCurrency();
    One(LOWER_CASE, EVERYTHING, Key("INFLOW", "usd"));
    DrilldownCanonical(EVERYTHING, EVERYTHING, Key("INFLOW", "usd"));
    One(LOWER_CASE, Canonical(Drilldown(EVERYTHING, Key("INFLOW", "usd"))).value, Key("INFLOW", "usd"));
  }

  /** Asking for "usd" finds that row before canonicalisation and not after it. */
  lemma LowerCaseRequestLosesRow()
    ensures var asked := EVERYTHING.(currencies := ["usd"]);
            && Matches(asked, LOWER_CASE)
            && Canonical(asked).Ok? && !Matches(Canonical(asked).value, LOWER_CASE)
  {
    hide Canonical, Text.TrimUpper;
    var asked := EVERYTHING.(currencies := ["usd"]);
    LowerCaseCurrency();
    assert asked.currencies[0] == "usd";
    OneCurrency(asked);
  }

  lemma OneCurrency(f: Filter)
    requires |f.currencies| == 1 && ValidCurrency(f.currencies[0]) && f == EVERYTHING.(currencies := f.currencies)
    ensures Canonical(f) == Ok(f.(currencies := [Text.TrimUpper(f.currencies[0])]))
  {
    hide ValidCurrency, Text.TrimUpper;
    EverythingIsCanonical();
    assert f.currencies == [f.currencies[0]];
    NormalizedOne(f.currencies[0]);
    CanonSingleton(LexLess, Text.TrimUpper(f.currencies[0]));
  }
}
