/**
 The few facts about sequences that every table of the model rests on: selecting
 rows (a SQL WHERE), ordering rows (a SQL ORDER BY, Python's `sorted`) and comparing text.

 Every function recurses from the end of its sequence, because tables grow at the end.
 A predicate is always obtained from a named function, so that two uses of it are one term.
 */
module Sequences {

  datatype Option<+T> = None | Some(value: T)

  // --- Selecting ---------------------------------------------------------------------------

  function Filter<T(!new)>(s: seq<T>, p: T -> bool): (r: seq<T>)
    ensures |r| <= |s|
  {
    if s == [] then []
    else if p(s[|s| - 1]) then Filter(s[..|s| - 1], p) + [s[|s| - 1]]
    else Filter(s[..|s| - 1], p)
  }

  /** Exactly the rows that satisfy the predicate are selected. */
  lemma {:induction false} FilterMembers<T(!new)>(s: seq<T>, p: T -> bool)
    ensures forall x :: x in Filter(s, p) <==> x in s && p(x)
  {
    if s != [] {
      var init, last := s[..|s| - 1], s[|s| - 1];
      FilterMembers(init, p);
      assert s == init + [last];
    }
  }

  lemma FilterAppend<T(!new)>(s: seq<T>, x: T, p: T -> bool)
    ensures Filter(s + [x], p) == if p(x) then Filter(s, p) + [x] else Filter(s, p)
  {
    assert (s + [x])[..|s|] == s;
  }

  lemma {:induction false} FilterConcat<T(!new)>(s: seq<T>, t: seq<T>, p: T -> bool)
    ensures Filter(s + t, p) == Filter(s, p) + Filter(t, p)
  {
    if t == [] {
      assert s + t == s;
    } else {
      var init, last := t[..|t| - 1], t[|t| - 1];
      FilterConcat(s, init, p);
      assert (s + t)[..|s + t| - 1] == s + init && (s + t)[|s + t| - 1] == last;
      assert Filter(s, p) + (Filter(init, p) + [last]) == (Filter(s, p) + Filter(init, p)) + [last];
    }
  }

  lemma {:induction false} FilterAll<T(!new)>(s: seq<T>, p: T -> bool)
    requires forall x :: x in s ==> p(x)
    ensures Filter(s, p) == s
  {
    if s != [] {
      FilterAll(s[..|s| - 1], p);
    }
  }

  lemma {:induction false} FilterNone<T(!new)>(s: seq<T>, p: T -> bool)
    requires forall x :: x in s ==> !p(x)
    ensures Filter(s, p) == []
  {
    if s != [] {
      FilterNone(s[..|s| - 1], p);
    }
  }

  /** A condition that holds at one place only selects one row. */
  lemma FilterOne<T(!new)>(s: seq<T>, i: nat, p: T -> bool)
    requires i < |s| && p(s[i]) && forall j :: 0 <= j < |s| && j != i ==> !p(s[j])
    ensures Filter(s, p) == [s[i]]
  {
    assert s == (s[..i] + [s[i]]) + s[i + 1..];
    FilterConcat(s[..i] + [s[i]], s[i + 1..], p);
    FilterAppend(s[..i], s[i], p);
    FilterNone(s[..i], p);
    FilterNone(s[i + 1..], p);
  }

  /** Selecting twice is selecting once when the outer choice implies the inner one. */
  lemma {:induction false} FilterNested<T(!new)>(s: seq<T>, p: T -> bool, q: T -> bool)
    requires forall x :: x in s && q(x) ==> p(x)
    ensures Filter(Filter(s, p), q) == Filter(s, q)
  {
    if s != [] {
      var init, last := s[..|s| - 1], s[|s| - 1];
      FilterNested(init, p, q);
      FilterAppend(Filter(init, p), last, q);
    }
  }

  /** Selecting by one condition and then by another is selecting by both. */
  lemma {:induction false} FilterBoth<T(!new)>(s: seq<T>, p: T -> bool, q: T -> bool, both: T -> bool)
    requires forall x :: both(x) <==> p(x) && q(x)
    ensures Filter(Filter(s, p), q) == Filter(s, both)
  {
    if s != [] {
      var init, last := s[..|s| - 1], s[|s| - 1];
      FilterBoth(init, p, q, both);
      FilterAppend(Filter(init, p), last, q);
    }
  }

  /** Two choices that agree on a table select the same rows of it. */
  lemma {:induction false} FilterAgree<T(!new)>(s: seq<T>, p: T -> bool, q: T -> bool)
    requires forall x :: x in s ==> p(x) == q(x)
    ensures Filter(s, p) == Filter(s, q)
  {
    if s != [] {
      FilterAgree(s[..|s| - 1], p, q);
    }
  }

  /** A row the inner choice drops but the outer one wants makes the nested selection shorter. */
  lemma {:induction false} FilterNestedShorter<T(!new)>(s: seq<T>, p: T -> bool, q: T -> bool, x: T)
    requires x in s && q(x) && !p(x)
    ensures |Filter(Filter(s, p), q)| < |Filter(s, q)|
  {
    var init, last := s[..|s| - 1], s[|s| - 1];
    assert s == init + [last];
    FilterNestedAtMost(init, p, q);
    if p(last) {
      FilterAppend(Filter(init, p), last, q);
    }
    if x in init {
      FilterNestedShorter(init, p, q, x);
    }
  }

  lemma {:induction false} FilterNestedAtMost<T(!new)>(s: seq<T>, p: T -> bool, q: T -> bool)
    ensures |Filter(Filter(s, p), q)| <= |Filter(s, q)|
  {
    if s != [] {
      var init, last := s[..|s| - 1], s[|s| - 1];
      FilterNestedAtMost(init, p, q);
      if p(last) {
        FilterAppend(Filter(init, p), last, q);
      }
    }
  }

  // --- Ordering ----------------------------------------------------------------------------

  ghost predicate TotalOrder<T(!new)>(leq: (T, T) -> bool) {
    && (forall x, y :: leq(x, y) || leq(y, x))
    && (forall x, y, z :: leq(x, y) && leq(y, z) ==> leq(x, z))
  }

  ghost predicate Sorted<T>(s: seq<T>, leq: (T, T) -> bool) {
    forall i, j :: 0 <= i < j < |s| ==> leq(s[i], s[j])
  }

  function Insert<T>(s: seq<T>, x: T, leq: (T, T) -> bool): (r: seq<T>) {
    if s == [] || leq(s[|s| - 1], x) then s + [x]
    else Insert(s[..|s| - 1], x, leq) + [s[|s| - 1]]
  }

  /** Stable insertion sort. */
  function SortBy<T>(s: seq<T>, leq: (T, T) -> bool): (r: seq<T>) {
    if s == [] then [] else Insert(SortBy(s[..|s| - 1], leq), s[|s| - 1], leq)
  }

  lemma {:induction false} InsertPermutes<T(!new)>(s: seq<T>, x: T, leq: (T, T) -> bool)
    ensures multiset(Insert(s, x, leq)) == multiset(s) + multiset{x}
    ensures |Insert(s, x, leq)| == |s| + 1
    ensures forall y :: y in Insert(s, x, leq) <==> y in s || y == x
  {
    if s == [] || leq(s[|s| - 1], x) {
    } else {
      InsertPermutes(s[..|s| - 1], x, leq);
      assert s == s[..|s| - 1] + [s[|s| - 1]];
    }
  }

  /** Sorting keeps exactly the elements it was given. */
  lemma {:induction false} SortByPermutes<T(!new)>(s: seq<T>, leq: (T, T) -> bool)
    ensures multiset(SortBy(s, leq)) == multiset(s)
    ensures |SortBy(s, leq)| == |s|
    ensures forall y :: y in SortBy(s, leq) <==> y in s
  {
    if s != [] {
      SortByPermutes(s[..|s| - 1], leq);
      InsertPermutes(SortBy(s[..|s| - 1], leq), s[|s| - 1], leq);
      assert s == s[..|s| - 1] + [s[|s| - 1]];
    }
  }

  lemma {:induction false} InsertSorted<T(!new)>(s: seq<T>, x: T, leq: (T, T) -> bool)
    requires TotalOrder(leq) && Sorted(s, leq)
    ensures Sorted(Insert(s, x, leq), leq)
  {
    if s == [] || leq(s[|s| - 1], x) {
    } else {
      var init, last := s[..|s| - 1], s[|s| - 1];
      InsertSorted(init, x, leq);
      InsertPermutes(init, x, leq);
      var r := Insert(init, x, leq);
      forall i | 0 <= i < |r| ensures leq(r[i], last) {
        assert r[i] in r;
      }
    }
  }

  lemma {:induction false} SortBySorted<T(!new)>(s: seq<T>, leq: (T, T) -> bool)
    requires TotalOrder(leq)
    ensures Sorted(SortBy(s, leq), leq)
  {
    if s != [] {
      SortBySorted(s[..|s| - 1], leq);
      InsertSorted(SortBy(s[..|s| - 1], leq), s[|s| - 1], leq);
    }
  }

  /** Ordering rows that are already in order changes nothing. */
  lemma {:induction false} SortByIdentity<T(!new)>(s: seq<T>, leq: (T, T) -> bool)
    requires Sorted(s, leq)
    ensures SortBy(s, leq) == s
  {
    if s != [] {
      SortByIdentity(s[..|s| - 1], leq);
    }
  }

  ghost predicate Antisymmetric<T(!new)>(leq: (T, T) -> bool) {
    forall x, y :: leq(x, y) && leq(y, x) ==> x == y
  }

  /** Two lists in the same order with the same elements are the same list. */
  lemma {:induction false} SortedSame<T(!new)>(a: seq<T>, b: seq<T>, leq: (T, T) -> bool)
    requires TotalOrder(leq) && Antisymmetric(leq) && Sorted(a, leq) && Sorted(b, leq) && multiset(a) == multiset(b)
    ensures a == b
    decreases |a|
  {
    SameLength(a, b);
    if |a| > 0 {
      SameLast(a, b, leq);
      var front, rest := a[..|a| - 1], b[..|b| - 1];
      WithoutLast(a);
      WithoutLast(b);
      SortedFront(a, leq);
      SortedFront(b, leq);
      SortedSame(front, rest, leq);
      assert a == front + [a[|a| - 1]] && b == rest + [b[|b| - 1]];
    }
  }

  lemma SameLength<T(!new)>(a: seq<T>, b: seq<T>)
    requires multiset(a) == multiset(b)
    ensures |a| == |b|
  {
    assert |multiset(a)| == |a| && |multiset(b)| == |b|;
  }

  lemma SameLast<T(!new)>(a: seq<T>, b: seq<T>, leq: (T, T) -> bool)
    requires TotalOrder(leq) && Antisymmetric(leq) && Sorted(a, leq) && Sorted(b, leq) && multiset(a) == multiset(b)
    requires |a| == |b| > 0
    ensures a[|a| - 1] == b[|b| - 1]
  {
    var x, y := a[|a| - 1], b[|b| - 1];
    assert x in multiset(b) && y in multiset(a);
    LastIsGreatest(a, y, leq);
    LastIsGreatest(b, x, leq);
  }

  lemma SortedFront<T(!new)>(s: seq<T>, leq: (T, T) -> bool)
    requires Sorted(s, leq) && s != []
    ensures Sorted(s[..|s| - 1], leq)
  {
  }

  lemma WithoutLast<T(!new)>(s: seq<T>)
    requires s != []
    ensures multiset(s[..|s| - 1]) == multiset(s) - multiset{s[|s| - 1]}
  {
    assert s == s[..|s| - 1] + [s[|s| - 1]];
  }

  lemma LastIsGreatest<T(!new)>(a: seq<T>, x: T, leq: (T, T) -> bool)
    requires TotalOrder(leq) && Sorted(a, leq) && a != [] && x in a
    ensures leq(x, a[|a| - 1])
  {
    var i :| 0 <= i < |a| && a[i] == x;
    assert i < |a| - 1 ==> leq(a[i], a[|a| - 1]);
  }

  lemma {:induction false} FilterSorted<T(!new)>(s: seq<T>, p: T -> bool, leq: (T, T) -> bool)
    requires Sorted(s, leq)
    ensures Sorted(Filter(s, p), leq)
  {
    if s != [] {
      var init, last := s[..|s| - 1], s[|s| - 1];
      FilterSorted(init, p, leq);
      FilterMembers(init, p);
      forall x | x in Filter(init, p) ensures leq(x, last) {
        var i :| 0 <= i < |init| && init[i] == x;
        assert leq(s[i], s[|s| - 1]);
      }
    }
  }

  lemma InsertAppend<T(!new)>(s: seq<T>, y: T, x: T, leq: (T, T) -> bool)
    ensures Insert(s + [y], x, leq) == if leq(y, x) then s + [y] + [x] else Insert(s, x, leq) + [y]
  {
    assert (s + [y])[..|s|] == s;
  }

  lemma InsertLast<T(!new)>(s: seq<T>, x: T, leq: (T, T) -> bool)
    requires forall y :: y in s ==> leq(y, x)
    ensures Insert(s, x, leq) == s + [x]
  {
  }

  lemma {:induction false} FilterInsert<T(!new)>(s: seq<T>, x: T, leq: (T, T) -> bool, p: T -> bool)
    requires TotalOrder(leq) && Sorted(s, leq)
    ensures Filter(Insert(s, x, leq), p) == if p(x) then Insert(Filter(s, p), x, leq) else Filter(s, p)
  {
    if s == [] {
      FilterAppend(s, x, p);
    } else if leq(s[|s| - 1], x) {
      FilterAppend(s, x, p);
      forall y | y in Filter(s, p) ensures leq(y, x) {
        FilterMembers(s, p);
        assert leq(y, s[|s| - 1]);
      }
      InsertLast(Filter(s, p), x, leq);
    } else {
      var init, last := s[..|s| - 1], s[|s| - 1];
      assert s == init + [last];
      FilterInsert(init, x, leq, p);
      FilterAppend(init, last, p);
      FilterAppend(Insert(init, x, leq), last, p);
      InsertAppend(init, last, x, leq);
      InsertAppend(Filter(init, p), last, x, leq);
    }
  }

  lemma SortByAppend<T(!new)>(s: seq<T>, x: T, leq: (T, T) -> bool)
    ensures SortBy(s + [x], leq) == Insert(SortBy(s, leq), x, leq)
  {
    assert (s + [x])[..|s|] == s;
  }

  /** ORDER BY and WHERE commute. */
  lemma {:induction false} FilterSortBy<T(!new)>(s: seq<T>, leq: (T, T) -> bool, p: T -> bool)
    requires TotalOrder(leq)
    ensures Filter(SortBy(s, leq), p) == SortBy(Filter(s, p), leq)
  {
    if s != [] {
      var init, last := s[..|s| - 1], s[|s| - 1];
      FilterSortBy(init, leq, p);
      SortBySorted(init, leq);
      FilterInsert(SortBy(init, leq), last, leq, p);
      if p(last) {
        SortByAppend(Filter(init, p), last, leq);
      }
    }
  }

  // --- Rows that occur once ----------------------------------------------------------------

  ghost predicate Distinct<T(!new)>(s: seq<T>) {
    forall i, j :: 0 <= i < j < |s| ==> s[i] != s[j]
  }

  lemma {:induction false} DistinctCounts<T(!new)>(s: seq<T>)
    ensures Distinct(s) <==> forall x :: multiset(s)[x] <= 1
  {
    if s != [] {
      var init, last := s[..|s| - 1], s[|s| - 1];
      assert s == init + [last];
      DistinctCounts(init);
      assert last in init <==> multiset(init)[last] >= 1;
      if Distinct(init) && last !in init {
        assert forall x :: multiset(s)[x] == multiset(init)[x] + if x == last then 1 else 0;
      } else if Distinct(init) {
        var i :| 0 <= i < |init| && init[i] == last;
        assert s[i] == s[|s| - 1];
        assert multiset(s)[last] >= 2;
      } else {
        var x :| multiset(init)[x] > 1;
        assert multiset(s)[x] > 1;
        var i, j :| 0 <= i < j < |init| && init[i] == init[j];
        assert s[i] == s[j];
      }
    }
  }

  lemma SortByDistinct<T(!new)>(s: seq<T>, leq: (T, T) -> bool)
    requires Distinct(s)
    ensures Distinct(SortBy(s, leq))
  {
    SortByPermutes(s, leq);
    DistinctCounts(s);
    DistinctCounts(SortBy(s, leq));
  }

  lemma {:induction false} FilterDistinct<T(!new)>(s: seq<T>, p: T -> bool)
    requires Distinct(s)
    ensures Distinct(Filter(s, p))
  {
    if s != [] {
      var init := s[..|s| - 1];
      FilterDistinct(init, p);
      FilterMembers(init, p);
    }
  }

  // --- Numbers -----------------------------------------------------------------------------

  predicate IntLeq(a: int, b: int) { a <= b }

  function Min(a: int, b: int): (r: int)
    ensures r <= a && r <= b && (r == a || r == b)
  {
    if a <= b then a else b
  }

  function Max(a: int, b: int): (r: int)
    ensures r >= a && r >= b && (r == a || r == b)
  {
    if a <= b then b else a
  }

  // --- Text --------------------------------------------------------------------------------

  /** Code point order of text, as Python and SQLite's BINARY collation compare it. */
  predicate TextLeq(a: string, b: string) {
    a == "" || (b != "" && (a[0] < b[0] || (a[0] == b[0] && TextLeq(a[1..], b[1..]))))
  }

  /** A text comes no later than another if it is a beginning of it or has the smaller character where
      they first differ. */
  lemma {:induction false} TextLeqExactly(a: string, b: string)
    ensures TextLeq(a, b) <==> a <= b || exists n :: DiffersAt(a, b, n) && a[n] < b[n]
  {
    if a != "" && b != "" && a[0] == b[0] {
      TextLeqExactly(a[1..], b[1..]);
      assert a == [a[0]] + a[1..] && b == [b[0]] + b[1..];
      if n :| DiffersAt(a[1..], b[1..], n) && a[1..][n] < b[1..][n] {
        assert a[..n + 1] == [a[0]] + a[1..][..n] && b[..n + 1] == [b[0]] + b[1..][..n];
        assert DiffersAt(a, b, n + 1);
      }
      if n :| DiffersAt(a, b, n) && a[n] < b[n] {
        assert a[1..][..n - 1] == a[..n][1..] && b[1..][..n - 1] == b[..n][1..];
        assert DiffersAt(a[1..], b[1..], n - 1);
      }
    } else if a != "" && b != "" && a[0] < b[0] {
      assert DiffersAt(a, b, 0);
    }
  }

  ghost predicate DiffersAt(a: string, b: string, n: int) {
    0 <= n < |a| && n < |b| && a[..n] == b[..n] && a[n] != b[n]
  }

  lemma {:induction false} TextLeqTotal(a: string, b: string)
    ensures TextLeq(a, b) || TextLeq(b, a)
  {
    if a != "" && b != "" && a[0] == b[0] {
      TextLeqTotal(a[1..], b[1..]);
    }
  }

  lemma {:induction false} TextLeqTransitive(a: string, b: string, c: string)
    requires TextLeq(a, b) && TextLeq(b, c)
    ensures TextLeq(a, c)
  {
    if a != "" && a[0] == b[0] == c[0] {
      TextLeqTransitive(a[1..], b[1..], c[1..]);
    }
  }

  lemma {:induction false} TextLeqAntisymmetric(a: string, b: string)
    requires TextLeq(a, b) && TextLeq(b, a)
    ensures a == b
  {
    if a != "" {
      TextLeqAntisymmetric(a[1..], b[1..]);
      assert a == [a[0]] + a[1..] && b == [b[0]] + b[1..];
    }
  }
}
