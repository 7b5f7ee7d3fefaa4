/** Sorting as the program uses it: `sort.Slice`, `sort.Strings` and
    `sort.SliceStable` over a strict order. */
module Ordering {

  /** A strict order in which ties are equal. */
  ghost predicate StrictTotal<T(!new)>(less: (T, T) -> bool) {
    && (forall x :: !less(x, x))
    && (forall x, y, z :: less(x, y) && less(y, z) ==> less(x, z))
    && (forall x, y :: less(x, y) || less(y, x) || x == y)
  }

  ghost predicate Sorted<T>(less: (T, T) -> bool, s: seq<T>) {
    forall i, j :: 0 <= i < j < |s| ==> !less(s[j], s[i])
  }

  ghost predicate StrictlySorted<T>(less: (T, T) -> bool, s: seq<T>) {
    forall i, j :: 0 <= i < j < |s| ==> less(s[i], s[j])
  }

  /** Places `x` behind every element that is not greater. */
  function Insert<T>(less: (T, T) -> bool, x: T, s: seq<T>): seq<T> {
    if s == [] then [x]
    else if less(x, s[|s| - 1]) then Insert(less, x, s[..|s| - 1]) + [s[|s| - 1]]
    else s + [x]
  }

  /** Stable insertion sort. */
  function Sort<T>(less: (T, T) -> bool, s: seq<T>): seq<T> {
    if s == [] then [] else Insert(less, s[|s| - 1], Sort(less, s[..|s| - 1]))
  }

  /** Inserting adds exactly one element, and only that one. */
  lemma {:induction false} InsertAdds<T(!new)>(less: (T, T) -> bool, x: T, s: seq<T>)
    ensures multiset(Insert(less, x, s)) == multiset(s) + multiset{x}
    ensures |Insert(less, x, s)| == |s| + 1
    ensures forall k :: 0 <= k <= |s| ==> Insert(less, x, s)[k] in s || Insert(less, x, s)[k] == x
  {
    if s != [] {
      assert s == s[..|s| - 1] + [s[|s| - 1]];
      InsertAdds(less, x, s[..|s| - 1]);
    }
  }

  /** A strict order in which "neither is less" is an equivalence: ties may differ. */
  ghost predicate WeakOrder<T(!new)>(less: (T, T) -> bool) {
    && (forall x :: !less(x, x))
    && (forall x, y, z :: less(x, y) && less(y, z) ==> less(x, z))
    && (forall x, y, z :: less(x, z) ==> less(x, y) || less(y, z))
  }

  lemma TotalIsWeak<T(!new)>(less: (T, T) -> bool)
    requires StrictTotal(less)
    ensures WeakOrder(less)
  {
  }

  lemma {:induction false} InsertKeepsOrder<T(!new)>(less: (T, T) -> bool, x: T, s: seq<T>)
    requires WeakOrder(less) && Sorted(less, s)
    ensures Sorted(less, Insert(less, x, s))
  {
    if s != [] {
      var front, last := s[..|s| - 1], s[|s| - 1];
      if less(x, last) {
        InsertKeepsOrder(less, x, front);
        InsertAdds(less, x, front);
        var r := Insert(less, x, front);
        assert Insert(less, x, s) == r + [last];
        forall k | 0 <= k < |r|
          ensures !less(last, r[k])
        {
          if r[k] != x {
            var j :| 0 <= j < |front| && front[j] == r[k];
            assert !less(s[|s| - 1], s[j]);
          }
        }
      } else {
        forall k | 0 <= k < |s|
          ensures !less(x, s[k])
        {
          assert k < |s| - 1 ==> !less(last, s[k]);
        }
      }
    }
  }

  /** Sorting sorts and keeps exactly the elements. */
  lemma {:induction false} WeakSortSorts<T(!new)>(less: (T, T) -> bool, s: seq<T>)
    requires WeakOrder(less)
    ensures Sorted(less, Sort(less, s))
    ensures multiset(Sort(less, s)) == multiset(s)
    ensures |Sort(less, s)| == |s|
  {
    if s != [] {
      assert s == s[..|s| - 1] + [s[|s| - 1]];
      WeakSortSorts(less, s[..|s| - 1]);
      InsertAdds(less, s[|s| - 1], Sort(less, s[..|s| - 1]));
      InsertKeepsOrder(less, s[|s| - 1], Sort(less, s[..|s| - 1]));
    }
    assert |multiset(Sort(less, s))| == |multiset(s)|;
  }

  lemma SortSorts<T(!new)>(less: (T, T) -> bool, s: seq<T>)
    requires StrictTotal(less)
    ensures Sorted(less, Sort(less, s))
    ensures multiset(Sort(less, s)) == multiset(s)
    ensures |Sort(less, s)| == |s|
  {
    hide StrictTotal, WeakOrder, Sort, Sorted;
    TotalIsWeak(less);
    WeakSortSorts(less, s);
  }

  lemma LastIsGreatest<T(!new)>(less: (T, T) -> bool, a: seq<T>, y: T)
    requires StrictTotal(less) && Sorted(less, a) && y in a
    ensures !less(a[|a| - 1], y)
  {
    var i :| 0 <= i < |a| && a[i] == y;
  }

  lemma DropLastMultiset<T>(a: seq<T>)
    requires a != []
    ensures multiset(a[..|a| - 1]) == multiset(a) - multiset{a[|a| - 1]}
  {
    assert a == a[..|a| - 1] + [a[|a| - 1]];
  }

  lemma SortedPrefix<T(!new)>(less: (T, T) -> bool, a: seq<T>, n: nat)
    requires Sorted(less, a) && n <= |a|
    ensures Sorted(less, a[..n])
  {
  }

  lemma LastAgree<T(!new)>(less: (T, T) -> bool, a: seq<T>, b: seq<T>)
    requires StrictTotal(less) && Sorted(less, a) && Sorted(less, b)
    requires multiset(a) == multiset(b) && a != [] && b != []
    ensures a[|a| - 1] == b[|b| - 1]
  {
    var x, y := a[|a| - 1], b[|b| - 1];
    assert x in multiset(b) && y in multiset(a);
    LastIsGreatest(less, b, x);
    LastIsGreatest(less, a, y);
  }

  lemma PrefixesAgree<T(!new)>(less: (T, T) -> bool, a: seq<T>, b: seq<T>)
    requires StrictTotal(less) && Sorted(less, a) && Sorted(less, b) && a != [] && b != []
    requires multiset(a) == multiset(b)
    ensures a[|a| - 1] == b[|b| - 1]
    ensures multiset(a[..|a| - 1]) == multiset(b[..|b| - 1])
    ensures Sorted(less, a[..|a| - 1]) && Sorted(less, b[..|b| - 1])
  {
    hide StrictTotal, Sorted;
    LastAgree(less, a, b);
    SortedPrefix(less, a, |a| - 1);
    SortedPrefix(less, b, |b| - 1);
    DropLastMultiset(a);
    DropLastMultiset(b);
  }

  /** A sorted sequence is determined by its elements. */
  lemma {:induction false} SortedUnique<T(!new)>(less: (T, T) -> bool, a: seq<T>, b: seq<T>)
    requires StrictTotal(less) && Sorted(less, a) && Sorted(less, b)
    requires multiset(a) == multiset(b)
    ensures a == b
  {
    hide StrictTotal, Sorted;
    if a == [] {
      assert |multiset(b)| == 0;
    } else {
      assert |multiset(b)| == |a| > 0;
      PrefixesAgree(less, a, b);
      SortedUnique(less, a[..|a| - 1], b[..|b| - 1]);
      assert a == a[..|a| - 1] + [a[|a| - 1]] && b == b[..|b| - 1] + [b[|b| - 1]];
    }
  }

  /** A strictly sorted sequence is determined by its set of elements. */
  lemma {:induction false} StrictlySortedUnique<T(!new)>(less: (T, T) -> bool, a: seq<T>, b: seq<T>)
    requires StrictTotal(less) && StrictlySorted(less, a) && StrictlySorted(less, b)
    requires forall x :: x in a <==> x in b
    ensures a == b
  {
    if b != [] {
      assert b[0] in a;
    }
    if a != [] {
      assert a[0] in b;
      var x, y := a[|a| - 1], b[|b| - 1];
      assert x in b && y in a;
      assert x == y;
      var a', b' := a[..|a| - 1], b[..|b| - 1];
      forall z
        ensures z in a' <==> z in b'
      {
        assert z in a' ==> z in a && z != x;
        assert z in b' ==> z in b && z != x;
        assert z in a && z != x ==> z in a';
        assert z in b && z != x ==> z in b';
      }
      StrictlySortedUnique(less, a', b');
    }
  }

  predicate IntLess(a: int, b: int) {
    a < b
  }

  /** Byte-wise string order. */
  predicate LexLess(a: string, b: string) {
    b != "" && (a == "" || a[0] < b[0] || (a[0] == b[0] && LexLess(a[1..], b[1..])))
  }

  lemma SharedHead(a: string, b: string)
    ensures forall k :: 0 < k <= |a| && k <= |b| && a[..k] == b[..k] ==> a[0] == b[0]
  {
    forall k | 0 < k <= |a| && k <= |b| && a[..k] == b[..k]
      ensures a[0] == b[0]
    {
      assert a[..k][0] == b[..k][0];
    }
  }

  /** The order of bytes: a prefix comes first, and otherwise the first byte that differs
      decides. */
  lemma {:induction false} LexLessExactly(a: string, b: string)
    ensures LexLess(a, b) <==>
            exists k :: 0 <= k <= |a| && k < |b| && a[..k] == b[..k] && (k == |a| || a[k] < b[k])
  {
    if a == "" || b == "" || a[0] != b[0] {
      if b != "" { assert a[..0] == b[..0]; }
      SharedHead(a, b);
    } else {
      LexLessExactly(a[1..], b[1..]);
      if k :|
        && 0 <= k <= |a[1..]| && k < |b[1..]| && a[1..][..k] == b[1..][..k]
        && (k == |a[1..]| || a[1..][k] < b[1..][k])
      {
        assert a[..k + 1] == [a[0]] + a[1..][..k] && b[..k + 1] == [b[0]] + b[1..][..k];
        assert k + 1 <= |a| && k + 1 < |b|;
      }
      if k :| 0 <= k <= |a| && k < |b| && a[..k] == b[..k] && (k == |a| || a[k] < b[k]) {
        assert k > 0;
        assert a[1..][..k - 1] == a[..k][1..] && b[1..][..k - 1] == b[..k][1..];
      }
    }
  }

  lemma {:induction false} LexTransitive(a: string, b: string, c: string)
    requires LexLess(a, b) && LexLess(b, c)
    ensures LexLess(a, c)
  {
    if a != "" && a[0] == b[0] && b[0] == c[0] {
      LexTransitive(a[1..], b[1..], c[1..]);
    }
  }

  lemma {:induction false} LexTotal(a: string, b: string)
    ensures LexLess(a, b) || LexLess(b, a) || a == b
    ensures !LexLess(a, a)
  {
    if a != "" {
      if b != "" && a[0] == b[0] {
        LexTotal(a[1..], b[1..]);
        assert a == [a[0]] + a[1..] && b == [b[0]] + b[1..];
      } else {
        LexTotal(a[1..], a[1..]);
      }
    }
  }

  lemma LexStrictTotal()
    ensures StrictTotal(LexLess)
  {
    forall x, y, z | LexLess(x, y) && LexLess(y, z)
      ensures LexLess(x, z)
    {
      LexTransitive(x, y, z);
    }
    forall x, y
      ensures LexLess(x, y) || LexLess(y, x) || x == y
      ensures !LexLess(x, x)
    {
      LexTotal(x, y);
    }
  }

  lemma IntStrictTotal()
    ensures StrictTotal(IntLess)
  {
  }

  lemma DistinctSortedIsStrict<T(!new)>(less: (T, T) -> bool, s: seq<T>)
    requires StrictTotal(less) && Sorted(less, s)
    requires forall i, j :: 0 <= i < j < |s| ==> s[i] != s[j]
    ensures StrictlySorted(less, s)
  {
  }

  lemma SortedStrictly<T(!new)>(less: (T, T) -> bool, d: seq<T>, c: seq<T>)
    requires StrictTotal(less) && Sorted(less, c) && multiset(c) == multiset(d)
    requires forall i, j :: 0 <= i < j < |d| ==> d[i] != d[j]
    ensures StrictlySorted(less, c)
  {
    hide StrictTotal, Sorted, StrictlySorted;
    DistinctOnce(d);
    forall i, j | 0 <= i < j < |c|
      ensures c[i] != c[j]
    {
      if c[i] == c[j] {
        TwiceCounts(c, i, j);
        assert false;
      }
    }
    DistinctSortedIsStrict(less, c);
  }

  lemma {:induction false} DistinctOnce<T>(d: seq<T>)
    requires forall i, j :: 0 <= i < j < |d| ==> d[i] != d[j]
    ensures forall x :: multiset(d)[x] <= 1
  {
    if d != [] {
      var front, last := d[..|d| - 1], d[|d| - 1];
      DistinctOnce(front);
      assert d == front + [last];
      assert last !in front;
      assert multiset(front)[last] == 0;
    }
  }

  lemma TwiceCounts<T>(c: seq<T>, i: int, j: int)
    requires 0 <= i < j < |c| && c[i] == c[j]
    ensures multiset(c)[c[i]] >= 2
  {
    assert c == c[..j] + c[j..];
    assert c[i] in c[..j] && c[j] in c[j..];
    assert multiset(c) == multiset(c[..j]) + multiset(c[j..]);
  }

  lemma SomeMember<T(!new)>(s: set<T>) returns (x: T)
    requires s != {}
    ensures x in s
  {
    EmptyOrNot(s);
    x :| x in s;
  }

  lemma EmptyOrNot<T(!new)>(s: set<T>)
    ensures s == {} || exists x :: x in s
  {
    if forall x :: x !in s {
      assert s == {};
    }
  }

  lemma Appended<T>(listed: seq<T>, x: T)
    requires x !in listed && forall i, j :: 0 <= i < j < |listed| ==> listed[i] != listed[j]
    ensures forall i, j :: 0 <= i < j < |listed + [x]| ==> (listed + [x])[i] != (listed + [x])[j]
  {
  }

  /** A set, listed in no particular order and then sorted. */
  method SortedList<T(!new, ==)>(less: (T, T) -> bool, members: set<T>) returns (sorted: seq<T>)
    requires StrictTotal(less)
    ensures StrictlySorted(less, sorted)
    ensures forall x :: x in sorted <==> x in members
  {
    hide StrictTotal, StrictlySorted, Sort;
    var listed: seq<T> := [];
    var rest := members;
    while rest != {}
      invariant rest <= members
      invariant forall x :: x in listed <==> x in members - rest
      invariant forall i, j :: 0 <= i < j < |listed| ==> listed[i] != listed[j]
      decreases rest
    {
      ghost var some := SomeMember(rest);
      var x :| x in rest;
      assert x !in listed;
      Appended(listed, x);
      listed := listed + [x];
      rest := rest - {x};
    }
    sorted := Sort(less, listed);
    SortSorts(less, listed);
    SortedStrictly(less, listed, sorted);
    forall x
      ensures x in sorted <==> x in listed
    {
      assert x in sorted <==> x in multiset(sorted);
      assert x in listed <==> x in multiset(listed);
    }
  }
}
