/** The time-weighted schedule of src/algorithms/twap.py and the step rounding of
    src/risk/decimal_math.py, over exact rationals. */
module Schedule {
  import opened Models

  /** Rounds a non-negative value down to a multiple of the step. */
  function FloorToStep(value: real, step: nat): nat
    requires value >= 0.0 && step > 0
  {
    var steps := (value / step as real).Floor;
    QuotientFloor(value, step as real);
    steps * step
  }

  function ScheduledCumulative(total: nat, elapsed: real, duration: real): real
    requires duration > 0.0
  {
    var clamped := if elapsed < 0.0 then 0.0 else if elapsed > duration then duration else elapsed;
    total as real * clamped / duration
  }

  /** Elapsed time snapped down to the last completed slice. */
  function EffectiveElapsed(elapsed: real, duration: real, slices: nat): real
    requires duration > 0.0 && slices > 0
  {
    if elapsed <= 0.0 then 0.0
    else if elapsed >= duration then duration
    else
      var slice := duration / slices as real;
      slice * (elapsed / slice).Floor as real
  }

  function ScheduledDeficit(scheduled: real, confirmed: nat): real {
    if scheduled > confirmed as real then scheduled - confirmed as real else 0.0
  }

  function SafeChildQuantity(deficit: real, reserved: nat): real {
    if deficit > reserved as real then deficit - reserved as real else 0.0
  }

  /** What the engine schedules at a given elapsed time. */
  function SnappedSchedule(total: nat, elapsed: real, duration: real, slices: nat): real
    requires duration > 0.0 && slices > 0
  {
    ScheduledCumulative(total, EffectiveElapsed(elapsed, duration, slices), duration)
  }

  // ---- arithmetic ----

  lemma MulMonotone(a: real, b: real, c: real)
    requires a <= b && c >= 0.0
    ensures a * c <= b * c
  {
    assert (b - a) * c >= 0.0;
  }

  lemma MulStrict(a: real, b: real, c: real)
    requires a < b && c > 0.0
    ensures a * c < b * c
  {
    assert (b - a) * c > 0.0;
  }

  lemma QuotientTimes(a: real, b: real)
    requires b != 0.0
    ensures a / b * b == a
  {}

  lemma DivMonotone(a: real, b: real, c: real)
    requires c > 0.0 && a <= b
    ensures a / c <= b / c
  {
    var x, y := a / c, b / c;
    QuotientTimes(a, c);
    QuotientTimes(b, c);
    if x > y {
      MulStrict(y, x, c);
    }
  }

  lemma DivStrict(a: real, b: real, c: real)
    requires c > 0.0 && a < b
    ensures a / c < b / c
  {
    var x, y := a / c, b / c;
    QuotientTimes(a, c);
    QuotientTimes(b, c);
    if x >= y {
      MulMonotone(y, x, c);
    }
  }

  lemma QuotientIs(a: real, b: real, q: real)
    requires b != 0.0 && q * b == a
    ensures a / b == q
  {}

  lemma QuotientFloor(a: real, b: real)
    requires a >= 0.0 && b > 0.0
    ensures (a / b).Floor >= 0
    ensures (a / b).Floor as real * b <= a < ((a / b).Floor + 1) as real * b
  {
    QuotientTimes(a, b);
    QuotientNonNegative(a, b);
    FloorScaledTo(a / b, b, a);
  }

  lemma FloorScaledTo(q: real, b: real, a: real)
    requires q >= 0.0 && b > 0.0 && q * b == a
    ensures q.Floor >= 0
    ensures q.Floor as real * b <= a < (q.Floor + 1) as real * b
  {
    Between(q.Floor as real, q, (q.Floor + 1) as real, b, a);
  }

  lemma Between(lo: real, q: real, hi: real, b: real, a: real)
    requires lo <= q < hi && b > 0.0 && q * b == a
    ensures lo * b <= a < hi * b
  {
    MulMonotone(lo, q, b);
    MulStrict(q, hi, b);
  }

  lemma QuotientNonNegative(a: real, b: real)
    requires a >= 0.0 && b > 0.0
    ensures a / b >= 0.0
  {
    DivMonotone(0.0, a, b);
    QuotientIs(0.0, b, 0.0);
  }

  // ---- completed slices ----

  /** How many slices are over at `elapsed`. */
  function CompletedSlices(elapsed: real, duration: real, slices: nat): int
    requires duration > 0.0 && slices > 0
  {
    if elapsed <= 0.0 then 0
    else if elapsed >= duration then slices
    else (elapsed / (duration / slices as real)).Floor
  }

  lemma CompletedSlicesInRange(elapsed: real, duration: real, slices: nat)
    requires duration > 0.0 && slices > 0
    ensures 0 <= CompletedSlices(elapsed, duration, slices) <= slices
    ensures 0.0 < elapsed < duration ==>
              var k := CompletedSlices(elapsed, duration, slices);
              k as real * (duration / slices as real) <= elapsed < (k + 1) as real * (duration / slices as real)
  {
    var slice := duration / slices as real;
    SlicePositive(duration, slices);
    if 0.0 < elapsed < duration {
      QuotientFloor(elapsed, slice);
      var k := CompletedSlices(elapsed, duration, slices);
      if k > slices {
        MulMonotone(slices as real, k as real, slice);
      }
    }
  }

  lemma SlicePositive(duration: real, slices: nat)
    requires duration > 0.0 && slices > 0
    ensures duration / slices as real > 0.0
    ensures slices as real * (duration / slices as real) == duration
  {
    QuotientTimes(duration, slices as real);
    DivStrict(0.0, duration, slices as real);
    QuotientIs(0.0, slices as real, 0.0);
  }

  lemma CompletedSlicesMonotone(s: real, t: real, duration: real, slices: nat)
    requires duration > 0.0 && slices > 0 && s <= t
    ensures CompletedSlices(s, duration, slices) <= CompletedSlices(t, duration, slices)
  {
    CompletedSlicesInRange(s, duration, slices);
    CompletedSlicesInRange(t, duration, slices);
    SlicePositive(duration, slices);
    if 0.0 < s && t < duration {
      DivMonotone(s, t, duration / slices as real);
    }
  }

  /** One slice's share of the total, k times. */
  function Share(total: nat, k: int, slices: nat): real
    requires slices > 0
  {
    k as real * (total as real / slices as real)
  }

  lemma ShareMonotone(total: nat, j: int, k: int, slices: nat)
    requires slices > 0 && 0 <= j <= k <= slices
    ensures 0.0 <= Share(total, j, slices) <= Share(total, k, slices) <= total as real
  {
    var share := total as real / slices as real;
    QuotientTimes(total as real, slices as real);
    DivMonotone(0.0, total as real, slices as real);
    QuotientIs(0.0, slices as real, 0.0);
    MulMonotone(0.0, j as real, share);
    MulMonotone(j as real, k as real, share);
    MulMonotone(k as real, slices as real, share);
  }

  /** The linear schedule at a slice boundary. */
  lemma LinearAtBoundary(total: nat, k: int, duration: real, slices: nat)
    requires duration > 0.0 && slices > 0
    ensures total as real * (k as real * (duration / slices as real)) / duration == Share(total, k, slices)
  {
    var (t, n, x, s, u) := (total as real, slices as real, k as real, duration / slices as real, total as real / slices as real);
    QuotientTimes(duration, n);
    QuotientTimes(t, n);
    Regroup(u, n, x, s);
    assert (u * n) * (x * s) == (x * u) * (s * n);
    QuotientIs(t * (x * s), duration, x * u);
  }

  lemma Regroup(u: real, n: real, x: real, s: real)
    ensures (u * n) * (x * s) == (x * u) * (s * n)
  {
    assert (u * n) * (x * s) == ((u * n) * x) * s;
    assert (u * n) * x == (x * u) * n;
    assert ((x * u) * n) * s == (x * u) * (n * s);
  }

  /** The schedule is a step function: after k completed slices of n it is exactly k/n of the
      total. */
  lemma ScheduleIsStepFunction(total: nat, elapsed: real, duration: real, slices: nat)
    requires duration > 0.0 && slices > 0
    ensures SnappedSchedule(total, elapsed, duration, slices) == Share(total, CompletedSlices(elapsed, duration, slices), slices)
  {
    CompletedSlicesInRange(elapsed, duration, slices);
    SlicePositive(duration, slices);
    var k := CompletedSlices(elapsed, duration, slices);
    var slice := duration / slices as real;
    MulMonotone(0.0, k as real, slice);
    MulMonotone(k as real, slices as real, slice);
    assert EffectiveElapsed(elapsed, duration, slices) == k as real * slice;
    LinearAtBoundary(total, k, duration, slices);
  }

  /** The schedule never goes back and stays between nothing and everything. */
  lemma ScheduleIsMonotone(total: nat, s: real, t: real, duration: real, slices: nat)
    requires duration > 0.0 && slices > 0 && s <= t
    ensures 0.0 <= SnappedSchedule(total, s, duration, slices)
                <= SnappedSchedule(total, t, duration, slices) <= total as real
  {
    hide SnappedSchedule, CompletedSlices, Share;
    ScheduleIsStepFunction(total, s, duration, slices);
    ScheduleIsStepFunction(total, t, duration, slices);
    CompletedSlicesMonotone(s, t, duration, slices);
    CompletedSlicesInRange(s, duration, slices);
    CompletedSlicesInRange(t, duration, slices);
    ShareMonotone(total, CompletedSlices(s, duration, slices), CompletedSlices(t, duration, slices), slices);
  }

  /** The step schedule runs behind the straight line by less than one slice. */
  lemma ScheduleLagsByLessThanASlice(total: nat, elapsed: real, duration: real, slices: nat)
    requires duration > 0.0 && slices > 0 && total > 0
    ensures SnappedSchedule(total, elapsed, duration, slices) <= ScheduledCumulative(total, elapsed, duration)
    ensures ScheduledCumulative(total, elapsed, duration)
            < SnappedSchedule(total, elapsed, duration, slices) + total as real / slices as real
  {
    ScheduleIsStepFunction(total, elapsed, duration, slices);
    PositiveShare(total, slices);
    if elapsed <= 0.0 {
      QuotientIs(total as real * 0.0, duration, 0.0);
    } else if elapsed >= duration {
      QuotientIs(total as real * duration, duration, total as real);
      QuotientTimes(total as real, slices as real);
    } else {
      LagInside(total, elapsed, duration, slices);
    }
  }

  lemma LagInside(total: nat, elapsed: real, duration: real, slices: nat)
    requires duration > 0.0 && slices > 0 && total > 0 && 0.0 < elapsed < duration
    ensures
      var k := CompletedSlices(elapsed, duration, slices);
      Share(total, k, slices) <= ScheduledCumulative(total, elapsed, duration)
      < Share(total, k, slices) + total as real / slices as real
  {
    hide Share, CompletedSlices;
    CompletedSlicesInRange(elapsed, duration, slices);
    var k := CompletedSlices(elapsed, duration, slices);
    LinearBetweenShares(total, elapsed, k, duration, slices);
    NextShare(total, k, slices);
  }

  lemma PositiveShare(total: nat, slices: nat)
    requires total > 0 && slices > 0
    ensures total as real / slices as real > 0.0
  {
    DivStrict(0.0, total as real, slices as real);
    QuotientIs(0.0, slices as real, 0.0);
  }

  lemma LinearBetweenShares(total: nat, elapsed: real, k: int, duration: real, slices: nat)
    requires duration > 0.0 && slices > 0 && total > 0
    requires k as real * (duration / slices as real) <= elapsed < (k + 1) as real * (duration / slices as real)
    ensures Share(total, k, slices) <= total as real * elapsed / duration < Share(total, k + 1, slices)
  {
    hide Share;
    var t := total as real;
    var a, b := k as real * (duration / slices as real), (k + 1) as real * (duration / slices as real);
    LinearAtBoundary(total, k, duration, slices);
    LinearAtBoundary(total, k + 1, duration, slices);
    MulMonotone(a, elapsed, t);
    MulStrict(elapsed, b, t);
    DivMonotone(t * a, t * elapsed, duration);
    DivStrict(t * elapsed, t * b, duration);
  }

  lemma NextShare(total: nat, k: int, slices: nat)
    requires slices > 0
    ensures Share(total, k + 1, slices) == Share(total, k, slices) + total as real / slices as real
  {}

  // ---- sizing ----

  /** The largest multiple of the step that fits. */
  lemma FloorToStepIsLargestMultiple(value: real, step: nat, n: nat)
    requires value >= 0.0 && step > 0
    ensures FloorToStep(value, step) as real <= value < (FloorToStep(value, step) + step) as real
    ensures exists k: nat :: FloorToStep(value, step) == k * step
    ensures (n * step) as real <= value ==> n * step <= FloorToStep(value, step)
  {
    QuotientFloor(value, step as real);
    var k := (value / step as real).Floor;
    assert FloorToStep(value, step) == k * step;
    ProductAsReal(k, step);
    ProductAsReal(k + 1, step);
    assert ((k + 1) * step) as real == (k * step + step) as real;
    if (n * step) as real <= value {
      MultipleBelow(k * step + step, n, k, step, value);
    }
  }

  lemma MultipleBelow(next: int, n: int, k: int, step: int, value: real)
    requires step > 0 && next == (k + 1) * step
    requires (n * step) as real <= value < next as real
    ensures n * step <= k * step
  {
    if n > k {
      ProductMonotone(k + 1, n, step);
    } else {
      ProductMonotone(n, k, step);
    }
  }

  lemma ProductAsReal(a: int, b: int)
    ensures (a * b) as real == a as real * b as real
  {}

  lemma ProductMonotone(a: int, b: int, c: int)
    requires a <= b && c >= 0
    ensures a * c <= b * c
  {
    assert (b - a) * c >= 0;
  }

  /** A child sized from the deficit never takes confirmed plus reserved past the schedule. */
  lemma SafeSizing(scheduled: real, confirmed: nat, reserved: nat, step: nat)
    requires step > 0
    ensures
      var q := FloorToStep(SafeChildQuantity(ScheduledDeficit(scheduled, confirmed), reserved), step);
      q > 0 ==> (confirmed + reserved + q) as real <= scheduled
  {
    FloorToStepIsLargestMultiple(SafeChildQuantity(ScheduledDeficit(scheduled, confirmed), reserved), step, 0);
  }

  // ---- admission of a request ----

  /** The tradable part of a required quantity and what is left as dust. */
  function Tradable(raw: nat, step: nat): nat
    requires step > 0
  {
    FloorToStep(raw as real, step)
  }

  /** Trading any part of the tradable quantity keeps the position between its start and the
      target; the dust is smaller than one step. */
  lemma TradableStaysInsideTarget(target: int, start: int, step: nat, filled: nat)
    requires step > 0
    ensures
      var side, raw := RequiredTrade(target, start).0, RequiredTrade(target, start).1;
      && Tradable(raw, step) <= raw < Tradable(raw, step) + step
      && (filled <= Tradable(raw, step) ==>
            if start <= target then start <= PositionAfter(start, side, filled) <= target
            else target <= PositionAfter(start, side, filled) <= start)
      && (filled == Tradable(raw, step) ==> target - step < PositionAfter(start, side, filled) < target + step)
  {
    FloorToStepIsLargestMultiple(RequiredTrade(target, start).1 as real, step, 0);
  }
}
