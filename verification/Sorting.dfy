/** Stable sorting by a comparison, as `sort.SliceStable` does it. */
module Sorting {

  ghost predicate StrictWeak<T(!new)>(less: (T, T) -> bool) {
    && (forall x :: !less(x, x))
    && (forall x, y, z :: less(x, y) && less(y, z) ==> less(x, z))
    && (forall x, y, z :: less(x, z) ==> less(x, y) || less(y, z))
  }

  ghost predicate Sorted<T>(less: (T, T) -> bool, s: seq<T>) {
    forall i, j :: 0 <= i < j < |s| ==> !less(s[j], s[i])
  }

  /** `x` goes behind everything that is not greater. */
  function Insert<T>(less: (T, T) -> bool, s: seq<T>, x: T): seq<T> {
    if s == [] || !less(x, s[|s| - 1]) then s + [x]
    else Insert(less, s[..|s| - 1], x) + [s[|s| - 1]]
  }

  function StableSort<T>(less: (T, T) -> bool, s: seq<T>): seq<T> {
    if s == [] then [] else Insert(less, StableSort(less, s[..|s| - 1]), s[|s| - 1])
  }

  lemma {:induction false} InsertKeeps<T>(less: (T, T) -> bool, s: seq<T>, x: T)
    ensures multiset(Insert(less, s, x)) == multiset(s) + multiset{x}
    ensures |Insert(less, s, x)| == |s| + 1
  {
    if s != [] && less(x, s[|s| - 1]) {
      InsertKeeps(less, s[..|s| - 1], x);
      assert s == s[..|s| - 1] + [s[|s| - 1]];
    }
  }

  lemma InsertMember<T>(less: (T, T) -> bool, s: seq<T>, x: T, y: T)
    requires y in Insert(less, s, x)
    ensures y in s || y == x
  {
    InsertKeeps(less, s, x);
    assert y in multiset(Insert(less, s, x));
  }

  lemma {:induction false} InsertSorts<T(!new)>(less: (T, T) -> bool, s: seq<T>, x: T)
    requires StrictWeak(less) && Sorted(less, s)
    ensures Sorted(less, Insert(less, s, x))
  {
    if s != [] && less(x, s[|s| - 1]) {
      var head, last := s[..|s| - 1], s[|s| - 1];
      InsertSorts(less, head, x);
      var r := Insert(less, head, x);
      forall i | 0 <= i < |r| ensures !less(last, r[i]) {
        InsertMember(less, head, x, r[i]);
      }
    } else if s != [] {
      forall i | 0 <= i < |s| ensures !less(x, s[i]) {
        assert i < |s| - 1 ==> !less(s[|s| - 1], s[i]);
      }
    }
  }

  lemma {:induction false} StableSortSorts<T(!new)>(less: (T, T) -> bool, s: seq<T>)
    requires StrictWeak(less)
    ensures Sorted(less, StableSort(less, s)) && multiset(StableSort(less, s)) == multiset(s)
    ensures |StableSort(less, s)| == |s|
  {
    if s != [] {
      var n := |s| - 1;
      StableSortSorts(less, s[..n]);
      InsertSorts(less, StableSort(less, s[..n]), s[n]);
      InsertKeeps(less, StableSort(less, s[..n]), s[n]);
      assert s == s[..n] + [s[n]];
    }
  }

  /** The elements that tie with `x`, in their order. */
  function Ties<T>(less: (T, T) -> bool, s: seq<T>, x: T): seq<T> {
    if s == [] then []
    else
      var last := s[|s| - 1];
      Ties(less, s[..|s| - 1], x) + if !less(x, last) && !less(last, x) then [last] else []
  }

  lemma {:induction false} InsertStable<T(!new)>(less: (T, T) -> bool, s: seq<T>, x: T, y: T)
    requires StrictWeak(less)
    ensures Ties(less, Insert(less, s, x), y) == Ties(less, s + [x], y)
  {
    assert (s + [x])[..|s|] == s;
    if s != [] && less(x, s[|s| - 1]) {
      var n := |s| - 1;
      InsertStable(less, s[..n], x, y);
      var r := Insert(less, s[..n], x);
      assert (r + [s[n]])[..|r|] == r;
      assert (s[..n] + [x])[..n] == s[..n];
    }
  }

  /** Elements that tie keep their order. */
  lemma {:induction false} StableSortStable<T(!new)>(less: (T, T) -> bool, s: seq<T>, y: T)
    requires StrictWeak(less)
    ensures Ties(less, StableSort(less, s), y) == Ties(less, s, y)
  {
    if s != [] {
      var n := |s| - 1;
      StableSortStable(less, s[..n], y);
      var r := StableSort(less, s[..n]);
      InsertStable(less, r, s[n], y);
      assert (r + [s[n]])[..|r|] == r;
    }
  }

  // ----- Canonical results ----------------------------------------------------

  /** Each element comes strictly before those behind it. */
  ghost predicate Strict<T>(less: (T, T) -> bool, s: seq<T>) {
    forall i, j :: 0 <= i < j < |s| ==> less(s[i], s[j])
  }

  /** No two positions tie. */
  ghost predicate Comparable<T>(less: (T, T) -> bool, s: seq<T>) {
    forall i, j :: 0 <= i < j < |s| ==> less(s[i], s[j]) || less(s[j], s[i])
  }

  lemma {:induction false} InsertStrict<T(!new)>(less: (T, T) -> bool, s: seq<T>, x: T)
    requires StrictWeak(less) && Strict(less, s)
    requires forall i :: 0 <= i < |s| ==> less(s[i], x) || less(x, s[i])
    ensures Strict(less, Insert(less, s, x))
  {
    if s != [] && less(x, s[|s| - 1]) {
      var head, last := s[..|s| - 1], s[|s| - 1];
      InsertStrict(less, head, x);
      var r := Insert(less, head, x);
      forall i | 0 <= i < |r| ensures less(r[i], last) {
        InsertMember(less, head, x, r[i]);
      }
    } else if s != [] {
      forall i | 0 <= i < |s| ensures less(s[i], x) {
        assert i < |s| - 1 ==> less(s[i], s[|s| - 1]);
      }
    }
  }

  /** Without ties the order is strict. */
  lemma {:induction false} StableSortStrict<T(!new)>(less: (T, T) -> bool, s: seq<T>)
    requires StrictWeak(less) && Comparable(less, s)
    ensures Strict(less, StableSort(less, s))
  {
    if s != [] {
      var n := |s| - 1;
      var r := StableSort(less, s[..n]);
      StableSortStrict(less, s[..n]);
      StableSortSorts(less, s[..n]);
      forall i | 0 <= i < |r| ensures less(r[i], s[n]) || less(s[n], r[i]) {
        assert r[i] in multiset(r);
        assert r[i] in s[..n];
      }
      InsertStrict(less, r, s[n]);
    }
  }

  lemma SortedMembers<T(!new)>(less: (T, T) -> bool, s: seq<T>, x: T)
    requires StrictWeak(less)
    ensures x in StableSort(less, s) <==> x in s
  {
    StableSortSorts(less, s);
    assert x in s <==> x in multiset(s);
    assert x in StableSort(less, s) <==> x in multiset(StableSort(less, s));
  }

  /** A strictly ordered sequence is determined by its elements. */
  lemma {:induction false} StrictUnique<T(!new)>(less: (T, T) -> bool, a: seq<T>, b: seq<T>)
    requires StrictWeak(less) && Strict(less, a) && Strict(less, b)
    requires forall x :: x in a <==> x in b
    ensures a == b
  {
    SameEmpty(a, b);
    if a != [] {
      assert a[0] in b;
      SameFirst(less, a, b);
      forall x ensures x in a[1..] <==> x in b[1..] {
        NotAgain(less, a, x);
        NotAgain(less, b, x);
      }
      StrictUnique(less, a[1..], b[1..]);
    }
  }

  lemma SameEmpty<T(!new)>(a: seq<T>, b: seq<T>)
    requires forall x :: x in a <==> x in b
    ensures a == [] <==> b == []
  {
    assert a == [] || a[0] in a;
    assert b == [] || b[0] in b;
  }

  lemma SameFirst<T(!new)>(less: (T, T) -> bool, a: seq<T>, b: seq<T>)
    requires StrictWeak(less) && Strict(less, a) && Strict(less, b)
    requires a != [] && b != [] && a[0] in b && b[0] in a
    ensures a[0] == b[0]
  {
    FirstBefore(less, a, b[0]);
    FirstBefore(less, b, a[0]);
  }

  lemma FirstBefore<T(!new)>(less: (T, T) -> bool, a: seq<T>, x: T)
    requires Strict(less, a) && x in a
    ensures x == a[0] || less(a[0], x)
  {
    var i :| 0 <= i < |a| && a[i] == x;
    assert i > 0 ==> less(a[0], a[i]);
  }

  lemma NotAgain<T(!new)>(less: (T, T) -> bool, a: seq<T>, x: T)
    requires StrictWeak(less) && Strict(less, a) && a != []
    ensures x in a[1..] <==> x in a && x != a[0]
  {
    assert a == [a[0]] + a[1..];
    if x in a[1..] {
      var i :| 0 <= i < |a| - 1 && a[1..][i] == x;
      assert less(a[0], a[i + 1]);
    }
  }
}
