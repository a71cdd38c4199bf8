/** Stable sorting, as Python's `sorted` does it, and the uniqueness of its result. */
module Sorting {

  ghost predicate TotalOrder<T(!new)>(le: (T, T) -> bool) {
    && (forall x :: le(x, x))
    && (forall x, y :: le(x, y) || le(y, x))
    && (forall x, y, z :: le(x, y) && le(y, z) ==> le(x, z))
  }

  ghost predicate Sorted<T>(s: seq<T>, le: (T, T) -> bool) {
    forall i, j :: 0 <= i < j < |s| ==> le(s[i], s[j])
  }

  /** Inserts `x` behind every element that is not greater. */
  function Insert<T>(x: T, s: seq<T>, le: (T, T) -> bool): seq<T> {
    if s == [] || le(s[|s| - 1], x) then s + [x]
    else Insert(x, s[..|s| - 1], le) + [s[|s| - 1]]
  }

  function Sort<T>(s: seq<T>, le: (T, T) -> bool): seq<T> {
    if s == [] then [] else Insert(s[|s| - 1], Sort(s[..|s| - 1], le), le)
  }

  lemma SortedAppend<T(!new)>(s: seq<T>, x: T, le: (T, T) -> bool)
    requires Sorted(s, le)
    requires forall i :: 0 <= i < |s| ==> le(s[i], x)
    ensures Sorted(s + [x], le)
  {}

  lemma SortedPrefix<T(!new)>(rest: seq<T>, last: T, le: (T, T) -> bool)
    requires Sorted(rest + [last], le)
    ensures Sorted(rest, le)
    ensures forall x :: x in rest ==> le(x, last)
  {
    var s := rest + [last];
    forall x | x in rest ensures le(x, last) {
      var i :| 0 <= i < |rest| && rest[i] == x;
      assert le(s[i], s[|rest|]);
    }
    forall i, j | 0 <= i < j < |rest| ensures le(rest[i], rest[j]) {
      assert le(s[i], s[j]);
    }
  }

  lemma {:induction false} InsertSorts<T(!new)>(x: T, s: seq<T>, le: (T, T) -> bool)
    requires TotalOrder(le) && Sorted(s, le)
    ensures Sorted(Insert(x, s, le), le)
    ensures multiset(Insert(x, s, le)) == multiset(s) + multiset{x}
  {
    hide Sorted;
    if s == [] || le(s[|s| - 1], x) {
      AllBelow(s, x, le);
      SortedAppend(s, x, le);
    } else {
      var last, rest := s[|s| - 1], s[..|s| - 1];
      assert s == rest + [last];
      SortedPrefix(rest, last, le);
      InsertSorts(x, rest, le);
      var inserted := Insert(x, rest, le);
      forall i | 0 <= i < |inserted| ensures le(inserted[i], last) {
        assert inserted[i] in multiset(inserted);
        assert inserted[i] == x || inserted[i] in rest;
      }
      SortedAppend(inserted, last, le);
    }
  }

  lemma AllBelow<T(!new)>(s: seq<T>, x: T, le: (T, T) -> bool)
    requires TotalOrder(le) && Sorted(s, le)
    requires s == [] || le(s[|s| - 1], x)
    ensures forall i :: 0 <= i < |s| ==> le(s[i], x)
  {
    assert forall i :: 0 <= i < |s| - 1 ==> le(s[i], s[|s| - 1]);
  }

  lemma {:induction false} SortSorts<T(!new)>(s: seq<T>, le: (T, T) -> bool)
    requires TotalOrder(le)
    ensures Sorted(Sort(s, le), le)
    ensures multiset(Sort(s, le)) == multiset(s)
    ensures |Sort(s, le)| == |s|
  {
    hide Sorted, TotalOrder, Insert;
    if s == [] {
      SortedEmpty(le);
    } else {
      var rest, last := s[..|s| - 1], s[|s| - 1];
      SortSorts(rest, le);
      InsertSorts(last, Sort(rest, le), le);
      assert s == rest + [last];
    }
    SameSize(Sort(s, le), s);
  }

  lemma SortedEmpty<T(!new)>(le: (T, T) -> bool)
    ensures Sorted([], le)
  {}

  lemma SortMembers<T(!new)>(s: seq<T>, le: (T, T) -> bool)
    requires TotalOrder(le)
    ensures forall x :: x in Sort(s, le) <==> x in s
  {
    SortSorts(s, le);
    assert forall x :: x in Sort(s, le) <==> x in multiset(Sort(s, le));
    assert forall x :: x in s <==> x in multiset(s);
  }

  ghost predicate AntiSymmetricOn<T(!new)>(s: seq<T>, le: (T, T) -> bool) {
    forall x, y :: x in s && y in s && le(x, y) && le(y, x) ==> x == y
  }

  /** The sorted arrangement of a bag is unique when no two different members tie. */
  lemma {:induction false} SortedIsUnique<T(!new)>(a: seq<T>, b: seq<T>, le: (T, T) -> bool)
    requires Sorted(a, le) && Sorted(b, le)
    requires AntiSymmetricOn(a, le)
    requires multiset(a) == multiset(b)
    ensures a == b
  {
    SameSize(a, b);
    if a != [] {
      var n := |a| - 1;
      LastIsGreatest(a, b, le);
      SplitLast(a);
      SplitLast(b);
      assert multiset(a[..n]) == multiset(b[..n]);
      assert AntiSymmetricOn(a[..n], le);
      SortedIsUnique(a[..n], b[..n], le);
    }
  }

  lemma SplitLast<T>(s: seq<T>)
    requires s != []
    ensures s == s[..|s| - 1] + [s[|s| - 1]]
    ensures multiset(s[..|s| - 1]) == multiset(s) - multiset{s[|s| - 1]}
  {
    assert s == s[..|s| - 1] + [s[|s| - 1]];
  }

  lemma SameSize<T>(a: seq<T>, b: seq<T>)
    requires multiset(a) == multiset(b)
    ensures |a| == |b|
  {
    assert |multiset(a)| == |multiset(b)|;
  }

  lemma LastIsGreatest<T(!new)>(a: seq<T>, b: seq<T>, le: (T, T) -> bool)
    requires Sorted(a, le) && Sorted(b, le)
    requires AntiSymmetricOn(a, le)
    requires multiset(a) == multiset(b) && |a| == |b| > 0
    ensures a[|a| - 1] == b[|b| - 1]
  {
    var n := |a| - 1;
    assert a[n] in multiset(b) && b[n] in multiset(a);
    assert a[n] in b && b[n] in a;
    var i :| 0 <= i < |b| && b[i] == a[n];
    var j :| 0 <= j < |a| && a[j] == b[n];
    if i < n && j < n {
      assert le(b[i], b[n]) && le(a[j], a[n]);
    }
  }
}
