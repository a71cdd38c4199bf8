/** Half-open quantity intervals of one child order: the checks a fill must pass, the
    fallback position, and the sweep that measures how much is covered. */
module Intervals {
  import opened Models
  import opened Sorting

  datatype Interval = Interval(start: int, end: int) {
    function Length(): int { end - start }

    predicate Has(x: int) { start <= x < end }
  }

  /** Order of Python tuples. */
  predicate IntervalLe(a: Interval, b: Interval) {
    a.start < b.start || (a.start == b.start && a.end <= b.end)
  }

  lemma IntervalOrderIsTotal()
    ensures TotalOrder(IntervalLe)
  {}

  predicate FillIntervalIsValid(start: int, end: int, limit: int) {
    start >= 0 && end > start && end <= limit
  }

  predicate FillIntervalOverlaps(start: int, end: int, intervals: seq<Interval>) {
    exists i :: 0 <= i < |intervals| && start < intervals[i].end && end > intervals[i].start
  }

  // ---- meaning ----

  ghost predicate Covers(intervals: seq<Interval>, x: int) {
    exists i :: 0 <= i < |intervals| && intervals[i].Has(x)
  }

  lemma CoversAppend(intervals: seq<Interval>, iv: Interval, x: int)
    ensures Covers(intervals + [iv], x) <==> Covers(intervals, x) || iv.Has(x)
  {
    var all := intervals + [iv];
    if Covers(intervals, x) {
      var i :| 0 <= i < |intervals| && intervals[i].Has(x);
      assert all[i].Has(x);
    }
    if iv.Has(x) {
      assert all[|intervals|].Has(x);
    }
    if Covers(all, x) {
      var i :| 0 <= i < |all| && all[i].Has(x);
      assert i < |intervals| ==> intervals[i].Has(x);
    }
  }

  /** The covered units below `limit`. */
  ghost function CoveredUnits(intervals: seq<Interval>, limit: int): (units: set<int>) {
    set x | 0 <= x < limit && Covers(intervals, x)
  }

  /** Non-empty, pairwise disjoint and inside [0, limit]. */
  ghost predicate Ledgered(intervals: seq<Interval>, limit: int) {
    && (forall i :: 0 <= i < |intervals| ==> FillIntervalIsValid(intervals[i].start, intervals[i].end, limit))
    && (forall i, j :: 0 <= i < j < |intervals| ==>
          intervals[i].end <= intervals[j].start || intervals[j].end <= intervals[i].start)
  }

  ghost function TotalLength(intervals: seq<Interval>): int {
    if intervals == [] then 0
    else TotalLength(intervals[..|intervals| - 1]) + intervals[|intervals| - 1].Length()
  }

  lemma LedgeredAppend(intervals: seq<Interval>, iv: Interval, limit: int)
    requires Ledgered(intervals, limit)
    requires FillIntervalIsValid(iv.start, iv.end, limit)
    requires !FillIntervalOverlaps(iv.start, iv.end, intervals)
    ensures Ledgered(intervals + [iv], limit)
    ensures TotalLength(intervals + [iv]) == TotalLength(intervals) + iv.Length()
  {
    assert (intervals + [iv])[..|intervals|] == intervals;
    forall i | 0 <= i < |intervals|
      ensures intervals[i].end <= iv.start || iv.end <= intervals[i].start
    {
      assert !(iv.start < intervals[i].end && iv.end > intervals[i].start);
    }
  }

  predicate Between(lo: int, x: int, hi: int) { lo <= x < hi }

  ghost function Range(lo: int, hi: int): set<int> {
    set x | lo <= x < hi && Between(lo, x, hi)
  }

  lemma {:induction false} RangeSize(lo: int, hi: int)
    requires lo <= hi
    ensures |Range(lo, hi)| == hi - lo
    decreases hi - lo
  {
    if lo < hi {
      RangeSize(lo, hi - 1);
      assert Range(lo, hi) == Range(lo, hi - 1) + {hi - 1};
    } else {
      assert Range(lo, hi) == {};
    }
  }

  /** Adding an interval whose new units below the limit are exactly [lo, hi). */
  lemma MeasureAppend(intervals: seq<Interval>, iv: Interval, limit: int, lo: int, hi: int)
    requires 0 <= lo <= hi <= limit
    requires forall x :: Between(lo, x, hi) ==> iv.Has(x) && !Covers(intervals, x)
    requires forall x :: iv.Has(x) && Between(0, x, limit) && !Between(lo, x, hi) ==> Covers(intervals, x)
    ensures |CoveredUnits(intervals + [iv], limit)| == |CoveredUnits(intervals, limit)| + (hi - lo)
  {
    var a, b, c := CoveredUnits(intervals, limit), Range(lo, hi), CoveredUnits(intervals + [iv], limit);
    RangeSize(lo, hi);
    forall x ensures x in c <==> x in a || x in b {
      CoversAppend(intervals, iv, x);
      assert Between(lo, x, hi) || !Between(lo, x, hi);
    }
    assert c == a + b;
    assert a !! b;
  }

  /** For the ledger's disjoint intervals the measure is the plain sum of lengths. */
  lemma {:induction false} DisjointMeasure(intervals: seq<Interval>, limit: int)
    requires Ledgered(intervals, limit)
    ensures |CoveredUnits(intervals, limit)| == TotalLength(intervals)
  {
    var n := |intervals| - 1;
    if n < 0 {
      assert CoveredUnits(intervals, limit) == {};
    } else {
      var rest, iv := intervals[..n], intervals[n];
      DisjointMeasure(rest, limit);
      forall x | Between(iv.start, x, iv.end) ensures !Covers(rest, x) {
        LastIsApart(intervals, limit, x);
      }
      MeasureAppend(rest, iv, limit, iv.start, iv.end);
      assert intervals == rest + [iv];
    }
  }

  lemma LastIsApart(intervals: seq<Interval>, limit: int, x: int)
    requires Ledgered(intervals, limit) && intervals != []
    requires intervals[|intervals| - 1].Has(x)
    ensures !Covers(intervals[..|intervals| - 1], x)
  {}

  lemma CoveredWithin(intervals: seq<Interval>, limit: nat)
    ensures 0 <= |CoveredUnits(intervals, limit)| <= limit
    ensures |CoveredUnits(intervals, limit)| == limit <==> forall x :: 0 <= x < limit ==> Covers(intervals, x)
  {
    RangeSize(0, limit);
    assert CoveredUnits(intervals, limit) <= Range(0, limit);
    SubsetSize(CoveredUnits(intervals, limit), Range(0, limit));
    if |CoveredUnits(intervals, limit)| == limit {
      forall x | 0 <= x < limit ensures Covers(intervals, x) {
        assert x in Range(0, limit);
      }
    }
  }

  lemma SubsetSize(a: set<int>, b: set<int>)
    requires a <= b
    ensures |a| <= |b|
    ensures |a| == |b| <==> a == b
  {
    assert b == a + (b - a);
    assert |b| == |a| + |b - a|;
  }

  lemma SortKeepsCovered(intervals: seq<Interval>)
    ensures forall x :: Covers(Sort(intervals, IntervalLe), x) <==> Covers(intervals, x)
  {
    IntervalOrderIsTotal();
    SortMembers(intervals, IntervalLe);
    var sorted := Sort(intervals, IntervalLe);
    forall x ensures Covers(sorted, x) <==> Covers(intervals, x) {
      if Covers(sorted, x) {
        var i :| 0 <= i < |sorted| && sorted[i].Has(x);
        assert sorted[i] in intervals;
        assert exists j :: 0 <= j < |intervals| && intervals[j] == sorted[i];
      }
      if Covers(intervals, x) {
        var i :| 0 <= i < |intervals| && intervals[i].Has(x);
        assert intervals[i] in sorted;
        assert exists j :: 0 <= j < |sorted| && sorted[j] == intervals[i];
      }
    }
  }

  // ---- the sweep ----

  /** The single pass over the sorted intervals counts exactly the covered units in
      [0, confirmed), however the intervals overlap or nest. */
  method CoveredIntervalQuantity(intervals: seq<Interval>, confirmed: nat) returns (covered: int)
    ensures covered == |CoveredUnits(intervals, confirmed)|
  {
    hide SweptTo, CoveredUnits, TotalOrder, Sorted;
    var sorted := Sort(intervals, IntervalLe);
    IntervalOrderIsTotal();
    SortSorts(intervals, IntervalLe);
    SortedSweep(intervals, confirmed);
    covered := 0;
    var coveredUntil := 0;
    SweepStart(confirmed);
    assert sorted[..0] == [];
    var k := 0;
    while k < |sorted|
      invariant 0 <= k <= |sorted|
      invariant covered == |CoveredUnits(sorted[..k], confirmed)|
      invariant SweptTo(sorted[..k], coveredUntil, confirmed)
    {
      SweepNext(sorted, k, coveredUntil, confirmed);
      var clippedStart := if sorted[k].start > 0 then sorted[k].start else 0;
      var clippedEnd := if sorted[k].end < confirmed then sorted[k].end else confirmed;
      k := k + 1;
      if clippedEnd <= clippedStart {
        continue;
      }
      if clippedStart < coveredUntil {
        clippedStart := coveredUntil;
      }
      if clippedEnd <= clippedStart {
        continue;
      }
      covered := covered + (clippedEnd - clippedStart);
      coveredUntil := clippedEnd;
      if coveredUntil >= confirmed {
        SweepRest(sorted, k, confirmed);
        return;
      }
    }
    assert sorted[..k] == sorted;
  }

  lemma SortedSweep(intervals: seq<Interval>, limit: nat)
    ensures CoveredUnits(Sort(intervals, IntervalLe), limit) == CoveredUnits(intervals, limit)
  {
    SortKeepsCovered(intervals);
  }

  lemma SweepStart(limit: nat)
    ensures CoveredUnits([], limit) == {} && SweptTo([], 0, limit)
  {}

  /** The line stands at the end of a swept interval and no swept interval reaches past it. */
  ghost predicate SweptTo(swept: seq<Interval>, until: int, limit: nat) {
    && 0 <= until <= limit
    && (forall x :: Between(until, x, limit) ==> !Covers(swept, x))
    && (until == 0 || exists i :: 0 <= i < |swept| && swept[i].start < until <= swept[i].end)
  }

  /** A unit of a later interval below the line is covered already. */
  lemma BelowLineIsCovered(swept: seq<Interval>, iv: Interval, until: int, limit: nat, x: int)
    requires SweptTo(swept, until, limit)
    requires forall i :: 0 <= i < |swept| ==> IntervalLe(swept[i], iv)
    requires 0 <= x < until && iv.start <= x
    ensures Covers(swept, x)
  {
    var i :| 0 <= i < |swept| && swept[i].start < until <= swept[i].end;
    assert IntervalLe(swept[i], iv);
    assert swept[i].Has(x);
  }

  lemma SweepStep(swept: seq<Interval>, iv: Interval, until: int, limit: nat)
    requires SweptTo(swept, until, limit)
    requires forall i :: 0 <= i < |swept| ==> IntervalLe(swept[i], iv)
    ensures
      var lo := if iv.start > until then iv.start else until;
      var hi := if iv.end < limit then iv.end else limit;
      && (lo < hi ==> |CoveredUnits(swept + [iv], limit)| == |CoveredUnits(swept, limit)| + (hi - lo)
                      && SweptTo(swept + [iv], hi, limit))
      && (lo >= hi ==> |CoveredUnits(swept + [iv], limit)| == |CoveredUnits(swept, limit)|
                       && SweptTo(swept + [iv], until, limit))
  {
    var all := swept + [iv];
    var lo := if iv.start > until then iv.start else until;
    var hi := if iv.end < limit then iv.end else limit;
    forall x | 0 <= x < until && iv.Has(x) ensures Covers(swept, x) {
      BelowLineIsCovered(swept, iv, until, limit, x);
    }
    forall x | x >= until ensures Covers(all, x) <==> Covers(swept, x) || iv.Has(x) {
      CoversAppend(swept, iv, x);
    }
    if lo < hi {
      assert forall x :: Between(lo, x, hi) ==> Between(until, x, limit);
      MeasureAppend(swept, iv, limit, lo, hi);
      forall x | Between(hi, x, limit) ensures !Covers(all, x) {
        assert Between(until, x, limit);
      }
      assert all[|swept|].start < hi <= all[|swept|].end;
    } else {
      MeasureAppend(swept, iv, limit, until, until);
      if until != 0 {
        var i :| 0 <= i < |swept| && swept[i].start < until <= swept[i].end;
        assert all[i] == swept[i];
      }
    }
  }

  /** Once the line reaches the limit the remaining intervals add nothing. */
  lemma {:induction false} SweepDone(swept: seq<Interval>, rest: seq<Interval>, limit: nat)
    requires SweptTo(swept, limit, limit)
    requires forall i, j :: 0 <= i < |swept| && 0 <= j < |rest| ==> IntervalLe(swept[i], rest[j])
    ensures CoveredUnits(swept + rest, limit) == CoveredUnits(swept, limit)
  {
    forall x | 0 <= x < limit ensures Covers(swept + rest, x) <==> Covers(swept, x) {
      if Covers(swept + rest, x) {
        var j :| 0 <= j < |swept + rest| && (swept + rest)[j].Has(x);
        if j < |swept| {
          assert swept[j].Has(x);
        } else {
          BelowLineIsCovered(swept, rest[j - |swept|], limit, limit, x);
        }
      }
      if Covers(swept, x) {
        var i :| 0 <= i < |swept| && swept[i].Has(x);
        assert (swept + rest)[i].Has(x);
      }
    }
  }

  /** One turn of the sweep over a sorted list. */
  lemma SweepNext(sorted: seq<Interval>, k: nat, until: int, limit: nat)
    requires Sorted(sorted, IntervalLe) && k < |sorted| && SweptTo(sorted[..k], until, limit)
    ensures
      var lo := if sorted[k].start > until then sorted[k].start else until;
      var hi := if sorted[k].end < limit then sorted[k].end else limit;
      && (lo < hi ==> |CoveredUnits(sorted[..k + 1], limit)| == |CoveredUnits(sorted[..k], limit)| + (hi - lo)
                      && SweptTo(sorted[..k + 1], hi, limit))
      && (lo >= hi ==> |CoveredUnits(sorted[..k + 1], limit)| == |CoveredUnits(sorted[..k], limit)|
                       && SweptTo(sorted[..k + 1], until, limit))
  {
    hide SweptTo, CoveredUnits;
    SweepStep(sorted[..k], sorted[k], until, limit);
    assert sorted[..k] + [sorted[k]] == sorted[..k + 1];
  }

  lemma SweepRest(sorted: seq<Interval>, k: nat, limit: nat)
    requires Sorted(sorted, IntervalLe) && k <= |sorted| && SweptTo(sorted[..k], limit, limit)
    ensures CoveredUnits(sorted, limit) == CoveredUnits(sorted[..k], limit)
  {
    hide SweptTo, CoveredUnits;
    SweepDone(sorted[..k], sorted[k..], limit);
    assert sorted[..k] + sorted[k..] == sorted;
  }

  // ---- the fallback position ----

  /** How far the intervals, taken in sorted order, extend a covered prefix that ends at `reached`. */
  function PrefixEndFrom(sorted: seq<Interval>, reached: int): int
    decreases |sorted|
  {
    if sorted == [] || sorted[0].start > reached then reached
    else PrefixEndFrom(sorted[1..], if sorted[0].end > reached then sorted[0].end else reached)
  }

  /** The end of the contiguous covered prefix. */
  function PrefixEnd(intervals: seq<Interval>): int {
    PrefixEndFrom(Sort(intervals, IntervalLe), 0)
  }

  lemma {:induction false} PrefixEndFromIsMaximal(sorted: seq<Interval>, reached: int)
    requires Sorted(sorted, IntervalLe) && reached >= 0
    ensures PrefixEndFrom(sorted, reached) >= reached
    ensures forall x :: reached <= x < PrefixEndFrom(sorted, reached) ==> Covers(sorted, x)
    ensures !Covers(sorted, PrefixEndFrom(sorted, reached))
    decreases |sorted|
  {
    var p := PrefixEndFrom(sorted, reached);
    if sorted == [] {
    } else if sorted[0].start > reached {
      assert forall i :: 0 < i < |sorted| ==> IntervalLe(sorted[0], sorted[i]);
    } else {
      var next := if sorted[0].end > reached then sorted[0].end else reached;
      PrefixEndFromIsMaximal(sorted[1..], next);
      forall x | reached <= x < p ensures Covers(sorted, x) {
        if x < next {
          assert sorted[0].Has(x);
        } else {
          var rest := sorted[1..];
          assert Covers(rest, x);
          var i :| 0 <= i < |rest| && rest[i].Has(x);
          assert sorted[i + 1].Has(x);
        }
      }
      forall i | 0 <= i < |sorted| ensures !sorted[i].Has(p) {
        if i > 0 {
          assert sorted[1..][i - 1] == sorted[i];
        }
      }
    }
  }

  /** The fallback starts at the first uncovered unit. */
  lemma PrefixEndIsFirstUncovered(intervals: seq<Interval>, p: int)
    ensures p == PrefixEnd(intervals) <==>
            p >= 0 && (forall x :: 0 <= x < p ==> Covers(intervals, x)) && !Covers(intervals, p)
  {
    IntervalOrderIsTotal();
    SortSorts(intervals, IntervalLe);
    SortKeepsCovered(intervals);
    PrefixEndFromIsMaximal(Sort(intervals, IntervalLe), 0);
  }

  /** Where a trade that claims to start at zero may be moved to: the end of the covered prefix. */
  function WindowLocalFillInterval(start: int, end: int, delta: int, limit: int,
                                   intervals: seq<Interval>, tradeId: Option<nat>): (r: Option<Interval>)
    ensures r.Some? ==> FillIntervalIsValid(r.value.start, r.value.end, limit)
                        && !FillIntervalOverlaps(r.value.start, r.value.end, intervals)
                        && r.value.Length() == delta && tradeId.Some?
  {
    if tradeId.None? || start != 0 || end <= start || limit <= 0 then None
    else
      var fallbackStart := PrefixEnd(intervals);
      var fallbackEnd := fallbackStart + delta;
      if fallbackStart <= 0 then None
      else if !FillIntervalIsValid(fallbackStart, fallbackEnd, limit)
              || FillIntervalOverlaps(fallbackStart, fallbackEnd, intervals) then None
      else Some(Interval(fallbackStart, fallbackEnd))
  }

  /** The loop that finds the fallback interval. */
  method FindWindowLocalFillInterval(start: int, end: int, delta: int, limit: int,
                                     intervals: seq<Interval>, tradeId: Option<nat>) returns (r: Option<Interval>)
    ensures r == WindowLocalFillInterval(start, end, delta, limit, intervals, tradeId)
  {
    if tradeId.None? || start != 0 || end <= start || limit <= 0 {
      return None;
    }
    var sorted := Sort(intervals, IntervalLe);
    var prefixEnd := 0;
    var k := 0;
    while k < |sorted|
      invariant 0 <= k <= |sorted|
      invariant PrefixEndFrom(sorted[k..], prefixEnd) == PrefixEnd(intervals)
    {
      if sorted[k].start > prefixEnd {
        break;
      }
      assert sorted[k..][1..] == sorted[k + 1..];
      if sorted[k].end > prefixEnd {
        prefixEnd := sorted[k].end;
      }
      k := k + 1;
    }
    if prefixEnd <= 0 {
      return None;
    }
    if !FillIntervalIsValid(prefixEnd, prefixEnd + delta, limit)
       || FillIntervalOverlaps(prefixEnd, prefixEnd + delta, intervals) {
      return None;
    }
    return Some(Interval(prefixEnd, prefixEnd + delta));
  }
}
