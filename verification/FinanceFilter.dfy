/** The shared finance filter and its canonical form
    (internal/companyfund/finance_query_types.go). */
module FinanceFilter {
  import opened Wrappers
  import opened Models
  import opened Ordering
  import Text

  const MAX_CURRENCY_BYTES := 64

  datatype Filter = Filter(
    dateFrom: Option<int>, dateTo: Option<int>, channels: seq<string>, accounts: seq<int>, directions: seq<string>,
    currencies: seq<string>, level1: seq<int>, level2: seq<int>, operating: Option<bool>, includeExcluded: bool)

  datatype FilterError = DateRange | Channel | Direction | Currency | AccountID | Level1ID | Level2ID

  predicate ValidCurrency(currency: string) {
    && |currency| <= MAX_CURRENCY_BYTES
    && Text.TrimUpper(currency) != "" && |Text.TrimUpper(currency)| <= MAX_CURRENCY_BYTES
  }

  /** A currency as it stands after normalization. */
  predicate CanonicalCurrency(currency: string) {
    ValidCurrency(currency) && Text.TrimUpper(currency) == currency
  }

  // ---- Deduplicated, sorted lists --------------------------------------------------

  function Dedup<T(==)>(s: seq<T>): seq<T> {
    if s == [] then []
    else
      var front, last := Dedup(s[..|s| - 1]), s[|s| - 1];
      if last in s[..|s| - 1] then front else front + [last]
  }

  function Canon<T(==)>(less: (T, T) -> bool, s: seq<T>): seq<T> {
    Sort(less, Dedup(s))
  }

  lemma {:induction false} DedupSame<T>(s: seq<T>)
    ensures forall x :: x in Dedup(s) <==> x in s
    ensures forall i, j :: 0 <= i < j < |Dedup(s)| ==> Dedup(s)[i] != Dedup(s)[j]
  {
    if s != [] {
      DedupSame(s[..|s| - 1]);
      assert forall x :: x in s <==> x in s[..|s| - 1] || x == s[|s| - 1];
    }
  }

  /** Strictly increasing, with the same members. */
  lemma CanonShape<T(!new)>(less: (T, T) -> bool, s: seq<T>)
    requires StrictTotal(less)
    ensures StrictlySorted(less, Canon(less, s))
    ensures forall x :: x in Canon(less, s) <==> x in s
  {
    hide StrictTotal, Sort;
    var d := Dedup(s);
    DedupSame(s);
    SortSorts(less, d);
    var c := Canon(less, s);
    forall x
      ensures x in c <==> x in d
    {
      assert x in c <==> x in multiset(c);
      assert x in d <==> x in multiset(d);
    }
    SortedStrictly(less, d, c);
  }

  /** Canonical lists are equal exactly when they have the same members. */
  lemma CanonUnique<T(!new)>(less: (T, T) -> bool, s: seq<T>, c: seq<T>)
    requires StrictTotal(less) && StrictlySorted(less, c)
    requires forall x :: x in c <==> x in s
    ensures Canon(less, s) == c
  {
    hide StrictTotal, StrictlySorted, Canon;
    CanonShape(less, s);
    StrictlySortedUnique(less, Canon(less, s), c);
  }

  // ---- Canonical form ----------------------------------------------------------------

  function NormalizedAll(currencies: seq<string>): (r: seq<string>)
    ensures |r| == |currencies|
    ensures forall i :: 0 <= i < |r| ==> r[i] == Text.TrimUpper(currencies[i])
  {
    seq(|currencies|, i requires 0 <= i < |currencies| => Text.TrimUpper(currencies[i]))
  }

  predicate AllPositive(s: seq<int>) {
    forall i :: 0 <= i < |s| ==> s[i] > 0
  }

  function FirstError(f: Filter): Option<FilterError> {
    if f.dateFrom.Some? && f.dateTo.Some? && f.dateTo.value <= f.dateFrom.value then Some(DateRange)
    else if !forall i :: 0 <= i < |f.channels| ==> ValidChannel(f.channels[i]) then Some(Channel)
    else if !forall i :: 0 <= i < |f.directions| ==> ValidDirection(f.directions[i]) then Some(Direction)
    else if !forall i :: 0 <= i < |f.currencies| ==> ValidCurrency(f.currencies[i]) then Some(Currency)
    else if !AllPositive(f.accounts) then Some(AccountID)
    else if !AllPositive(f.level1) then Some(Level1ID)
    else if !AllPositive(f.level2) then Some(Level2ID)
    else None
  }

  function Canonical(f: Filter): Result<Filter, FilterError> {
    match FirstError(f)
    case Some(e) => Err(e)
    case None => Ok(f.(
        channels := Canon(LexLess, f.channels),
        directions := Canon(LexLess, f.directions),
        currencies := Canon(LexLess, NormalizedAll(f.currencies)),
        accounts := Canon(IntLess, f.accounts),
        level1 := Canon(IntLess, f.level1),
        level2 := Canon(IntLess, f.level2)))
  }

  /** What is wrong with a filter when it is refused with an error. */
  ghost predicate Offends(f: Filter, e: FilterError) {
    match e
    case DateRange => exists since, until :: f.dateFrom == Some(since) && f.dateTo == Some(until) && until <= since
    case Channel => exists i :: 0 <= i < |f.channels| && f.channels[i] !in {"SAFEHERON", "AIRWALLEX", "MANUAL"}
    case Direction =>
      exists i :: 0 <= i < |f.directions| && f.directions[i] !in {"INFLOW", "OUTFLOW", "INTERNAL_TRANSFER"}
    case Currency => exists i :: 0 <= i < |f.currencies| && (Text.AllSpace(f.currencies[i]) || |f.currencies[i]| > 64)
    case AccountID => exists i :: 0 <= i < |f.accounts| && f.accounts[i] <= 0
    case Level1ID => exists i :: 0 <= i < |f.level1| && f.level1[i] <= 0
    case Level2ID => exists i :: 0 <= i < |f.level2| && f.level2[i] <= 0
  }

  /** The errors in the order they are looked for. */
  const ERRORS: seq<FilterError> := [DateRange, Channel, Direction, Currency, AccountID, Level1ID, Level2ID]

  /** A filter is refused exactly when something is wrong with it, and for the first thing
      that is. */
  lemma ErrorsExactly(f: Filter)
    ensures Canonical(f).Ok? <==> forall k :: 0 <= k < |ERRORS| ==> !Offends(f, ERRORS[k])
    ensures forall k :: 0 <= k < |ERRORS| ==>
              (Canonical(f) == Err(ERRORS[k]) <==>
                 Offends(f, ERRORS[k]) && forall j :: 0 <= j < k ==> !Offends(f, ERRORS[j]))
  {
    NamesOffend(f);
    NumbersOffend(f);
    hide Offends, AllPositive, ValidChannel, ValidDirection, ValidCurrency, Canon, NormalizedAll, IntLess, LexLess;
    assert |ERRORS| == 7 && ERRORS[0] == DateRange && ERRORS[1] == Channel && ERRORS[2] == Direction
           && ERRORS[3] == Currency && ERRORS[4] == AccountID && ERRORS[5] == Level1ID && ERRORS[6] == Level2ID;
  }

  lemma NamesOffend(f: Filter)
    ensures Offends(f, Channel) <==> !forall i :: 0 <= i < |f.channels| ==> ValidChannel(f.channels[i])
    ensures Offends(f, Direction) <==> !forall i :: 0 <= i < |f.directions| ==> ValidDirection(f.directions[i])
    ensures Offends(f, Currency) <==> !forall i :: 0 <= i < |f.currencies| ==> ValidCurrency(f.currencies[i])
  {
    hide ValidChannel, ValidDirection, ValidCurrency, Text.AllSpace;
    forall i | 0 <= i < |f.channels|
      ensures ValidChannel(f.channels[i]) <==> f.channels[i] in {"SAFEHERON", "AIRWALLEX", "MANUAL"}
    {
      NamesExactly(f.channels[i]);
    }
    forall i | 0 <= i < |f.directions|
      ensures ValidDirection(f.directions[i]) <==> f.directions[i] in {"INFLOW", "OUTFLOW", "INTERNAL_TRANSFER"}
    {
      NamesExactly(f.directions[i]);
    }
    forall i | 0 <= i < |f.currencies|
      ensures ValidCurrency(f.currencies[i]) <==> !Text.AllSpace(f.currencies[i]) && |f.currencies[i]| <= 64
    {
      CurrencyExactly(f.currencies[i]);
    }
  }

  lemma CurrencyExactly(currency: string)
    ensures ValidCurrency(currency) <==> !Text.AllSpace(currency) && |currency| <= 64
  {
    hide Text.Trim, Text.AllSpace;
    Text.BlankIsAllSpace(currency);
    Text.TrimIdempotent(currency);
  }

  lemma NumbersOffend(f: Filter)
    ensures Offends(f, DateRange) <==> f.dateFrom.Some? && f.dateTo.Some? && f.dateTo.value <= f.dateFrom.value
    ensures Offends(f, AccountID) <==> !AllPositive(f.accounts)
    ensures Offends(f, Level1ID) <==> !AllPositive(f.level1)
    ensures Offends(f, Level2ID) <==> !AllPositive(f.level2)
  {
    if f.dateFrom.Some? && f.dateTo.Some? && f.dateTo.value <= f.dateFrom.value {
      assert f.dateFrom == Some(f.dateFrom.value) && f.dateTo == Some(f.dateTo.value);
    }
  }

  /** canonicalPositiveInt64Set: a set, listed in no particular order and then sorted. */
  method CanonicalPositiveSet(values: seq<int>) returns (r: Option<seq<int>>)
    ensures r.Some? <==> AllPositive(values)
    ensures r.Some? ==> r.value == Canon(IntLess, values)
  {
    var members: set<int> := {};
    for i := 0 to |values|
      invariant forall j :: 0 <= j < i ==> values[j] > 0
      invariant forall x :: x in members <==> x in values[..i]
    {
      if values[i] <= 0 {
        return None;
      }
      assert values[..i + 1] == values[..i] + [values[i]];
      members := members + {values[i]};
    }
    assert values[..|values|] == values;
    assert forall x :: x in members <==> x in values;
    IntStrictTotal();
    var sorted := SortedList(IntLess, members);
    forall x
      ensures x in sorted <==> x in values
    {
      assert x in sorted <==> x in members;
    }
    CanonUnique(IntLess, values, sorted);
    return Some(sorted);
  }

  /** The loops over strings: check, skip what was seen, then sort. */
  method CanonicalStrings(values: seq<string>, valid: string -> bool) returns (r: Option<seq<string>>)
    ensures r.Some? <==> forall i :: 0 <= i < |values| ==> valid(values[i])
    ensures r.Some? ==> r.value == Canon(LexLess, values)
  {
    var seen: set<string> := {};
    var kept: seq<string> := [];
    for i := 0 to |values|
      invariant forall j :: 0 <= j < i ==> valid(values[j])
      invariant forall x :: x in seen <==> x in values[..i]
      invariant kept == Dedup(values[..i])
    {
      if !valid(values[i]) {
        return None;
      }
      assert values[..i + 1][..i] == values[..i];
      assert values[..i + 1] == values[..i] + [values[i]];
      if values[i] !in seen {
        seen := seen + {values[i]};
        kept := kept + [values[i]];
      }
    }
    assert values[..|values|] == values;
    return Some(Sort(LexLess, kept));
  }

  method CanonicalCurrencies(values: seq<string>) returns (r: Option<seq<string>>)
    ensures r.Some? <==> forall i :: 0 <= i < |values| ==> ValidCurrency(values[i])
    ensures r.Some? ==> r.value == Canon(LexLess, NormalizedAll(values))
  {
    hide Text.Trim, Text.Upper;
    ghost var all := NormalizedAll(values);
    var seen: set<string> := {};
    var kept: seq<string> := [];
    for i := 0 to |values|
      invariant forall j :: 0 <= j < i ==> ValidCurrency(values[j])
      invariant forall x :: x in seen <==> x in all[..i]
      invariant kept == Dedup(all[..i])
    {
      if |values[i]| > MAX_CURRENCY_BYTES {
        return None;
      }
      var normalized := Text.Upper(Text.Trim(values[i]));
      if normalized == "" || |normalized| > MAX_CURRENCY_BYTES {
        return None;
      }
      assert all[..i + 1][..i] == all[..i];
      assert all[..i + 1] == all[..i] + [normalized];
      if normalized !in seen {
        seen := seen + {normalized};
        kept := kept + [normalized];
      }
    }
    assert all[..|values|] == all;
    return Some(Sort(LexLess, kept));
  }

  /** canonical(): the first offending field, in the order the fields are checked, or the
      filter with every list deduplicated and sorted. */
  method Canonicalize(f: Filter) returns (r: Result<Filter, FilterError>)
    ensures r == Canonical(f)
  {
    hide Canon, AllPositive, ValidCurrency, ValidDirection, ValidChannel;
    if f.dateFrom.Some? && f.dateTo.Some? && !(f.dateTo.value > f.dateFrom.value) {
      return Err(DateRange);
    }
    var channels := CanonicalStrings(f.channels, ValidChannel);
    if channels.None? { return Err(Channel); }
    var directions := CanonicalStrings(f.directions, ValidDirection);
    if directions.None? { return Err(Direction); }
    var currencies := CanonicalCurrencies(f.currencies);
    if currencies.None? { return Err(Currency); }
    var accounts := CanonicalPositiveSet(f.accounts);
    if accounts.None? { return Err(AccountID); }
    var level1 := CanonicalPositiveSet(f.level1);
    if level1.None? { return Err(Level1ID); }
    var level2 := CanonicalPositiveSet(f.level2);
    if level2.None? { return Err(Level2ID); }
    return Ok(f.(channels := channels.value, directions := directions.value, currencies := currencies.value,
                 accounts := accounts.value, level1 := level1.value, level2 := level2.value));
  }

  lemma NormalizedIsCanonical(currency: string)
    requires ValidCurrency(currency)
    ensures CanonicalCurrency(Text.TrimUpper(currency))
  {
    hide Text.TrimUpper;
    Text.TrimUpperTwice(currency);
  }

  lemma CanonTwice<T(!new)>(less: (T, T) -> bool, s: seq<T>)
    requires StrictTotal(less)
    ensures Canon(less, Canon(less, s)) == Canon(less, s)
  {
    hide StrictTotal, Canon;
    CanonShape(less, s);
    CanonUnique(less, Canon(less, s), Canon(less, s));
  }

  /** Every list of a canonical filter is strictly increasing with the members it had, its
      currencies normalized; making it canonical again changes nothing. */
  lemma CanonicalIsCanonical(f: Filter)
    requires Canonical(f).Ok?
    ensures var g := Canonical(f).value;
            && Canonical(g) == Ok(g)
            && (forall x :: x in g.channels <==> x in f.channels)
            && (forall x :: x in g.directions <==> x in f.directions)
            && (forall x :: x in g.currencies <==> x in NormalizedAll(f.currencies))
            && (forall x :: x in g.accounts <==> x in f.accounts)
            && (forall x :: x in g.level1 <==> x in f.level1)
            && (forall x :: x in g.level2 <==> x in f.level2)
            && StrictlySorted(LexLess, g.channels) && StrictlySorted(LexLess, g.directions)
            && StrictlySorted(LexLess, g.currencies) && StrictlySorted(IntLess, g.accounts)
            && StrictlySorted(IntLess, g.level1) && StrictlySorted(IntLess, g.level2)
            && (forall x :: x in g.currencies ==> CanonicalCurrency(x))
  {
    hide Canon, StrictTotal, StrictlySorted, Text.TrimUpper, ValidCurrency, LexLess, IntLess;
    LexStrictTotal();
    IntStrictTotal();
    var g := Canonical(f).value;
    CanonShape(LexLess, f.channels);
    CanonShape(LexLess, f.directions);
    CanonShape(LexLess, NormalizedAll(f.currencies));
    CanonShape(IntLess, f.accounts);
    CanonShape(IntLess, f.level1);
    CanonShape(IntLess, f.level2);
    forall x | x in g.currencies
      ensures CanonicalCurrency(x)
    {
      var i :| 0 <= i < |f.currencies| && NormalizedAll(f.currencies)[i] == x;
      NormalizedIsCanonical(f.currencies[i]);
    }
    forall i | 0 <= i < |g.currencies|
      ensures NormalizedAll(g.currencies)[i] == g.currencies[i]
    {
      assert CanonicalCurrency(g.currencies[i]);
    }
    assert NormalizedAll(g.currencies) == g.currencies;
    CanonTwice(LexLess, f.channels);
    CanonTwice(LexLess, f.directions);
    CanonTwice(LexLess, NormalizedAll(f.currencies));
    CanonTwice(IntLess, f.accounts);
    CanonTwice(IntLess, f.level1);
    CanonTwice(IntLess, f.level2);
    assert FirstError(f) == None;
    assert FirstError(g) == None by {
      forall i | 0 <= i < |g.channels| ensures ValidChannel(g.channels[i]) { assert g.channels[i] in f.channels; }
      forall i | 0 <= i < |g.directions|
        ensures ValidDirection(g.directions[i])
      {
        assert g.directions[i] in f.directions;
      }
      forall i | 0 <= i < |g.currencies|
        ensures ValidCurrency(g.currencies[i])
      {
        assert CanonicalCurrency(g.currencies[i]);
      }
      forall i | 0 <= i < |g.accounts| ensures g.accounts[i] > 0 { assert g.accounts[i] in f.accounts; }
      forall i | 0 <= i < |g.level1| ensures g.level1[i] > 0 { assert g.level1[i] in f.level1; }
      forall i | 0 <= i < |g.level2| ensures g.level2[i] > 0 { assert g.level2[i] in f.level2; }
    }
  }
}
