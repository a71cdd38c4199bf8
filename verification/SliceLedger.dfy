/** The per-slice report of a TWAP summary: every child is booked in exactly one slice, and the
    columns add up to the children and to the schedule. */
module SliceLedger {
  import opened Models
  import opened Records
  import opened Schedule
  import opened Coupling
  import opened Invariant
  import opened Protocol
  import opened Steps
  import opened Runs

  datatype Row = Row(
    index: int, start: real, end: real, plannedCumulative: real, planned: real,
    submitted: int, open: int, filled: int, cancelled: int, unfilled: real, deficit: real, ids: seq<nat>)

  function Ceiling(x: real): int { -((-x).Floor) }

  /** The slice a child was submitted in: (k - 1, k] in units of the slice length, the ends and
      unknown times clamped. */
  function SliceIndex(cfg: Config, submittedAt: map<nat, real>, id: nat): (k: int)
    requires cfg.slices > 0
    ensures 1 <= k <= cfg.slices
  {
    var slice := cfg.duration / cfg.slices as real;
    if id !in submittedAt || slice <= 0.0 then cfg.slices
    else
      var elapsed := submittedAt[id] - cfg.started;
      if elapsed <= 0.0 then 1
      else
        var k := Ceiling(elapsed / slice);
        if k < 1 then 1 else if k > cfg.slices then cfg.slices else k
  }

  /** A child submitted inside the requested duration is booked in the one slice whose half-open
      interval contains its submission time. */
  lemma SliceContainsSubmission(cfg: Config, submittedAt: map<nat, real>, id: nat, k: int)
    requires cfg.slices > 0 && cfg.duration > 0.0
    requires id in submittedAt && cfg.started < submittedAt[id] <= cfg.Deadline()
    requires 1 <= k <= cfg.slices
    ensures
      var slice := cfg.duration / cfg.slices as real;
      SliceIndex(cfg, submittedAt, id) == k <==>
      (k - 1) as real * slice < submittedAt[id] - cfg.started <= k as real * slice
  {
    var slice := cfg.duration / cfg.slices as real;
    var elapsed := submittedAt[id] - cfg.started;
    SlicePositive(cfg.duration, cfg.slices);
    CeilingInRange(elapsed, slice, cfg.slices);
    CeilingBrackets(elapsed, slice, k);
  }

  lemma CeilingIs(q: real, k: int)
    ensures Ceiling(q) == k <==> (k - 1) as real < q <= k as real
  {
    var f := (-q).Floor;
    assert f as real <= -q < (f + 1) as real;
  }

  lemma CeilingBrackets(a: real, b: real, k: int)
    requires b > 0.0
    ensures Ceiling(a / b) == k <==> (k - 1) as real * b < a <= k as real * b
  {
    QuotientTimes(a, b);
    CeilingIs(a / b, k);
    ScaledTo((k - 1) as real, a / b, k as real, b, a);
  }

  lemma ScaledTo(lo: real, q: real, hi: real, b: real, a: real)
    requires b > 0.0 && q * b == a
    ensures (lo < q <= hi) <==> (lo * b < a <= hi * b)
  {
    ScaledBracket(lo, q, hi, b);
  }

  lemma ScaledBracket(lo: real, q: real, hi: real, b: real)
    requires b > 0.0
    ensures (lo < q <= hi) <==> (lo * b < q * b <= hi * b)
  {
    if lo < q { MulStrict(lo, q, b); } else { MulMonotone(q, lo, b); }
    if q <= hi { MulMonotone(q, hi, b); } else { MulStrict(hi, q, b); }
  }

  lemma CeilingInRange(a: real, b: real, n: nat)
    requires b > 0.0 && 0.0 < a <= n as real * b
    ensures 1 <= Ceiling(a / b) <= n
  {
    hide Ceiling;
    var k := Ceiling(a / b);
    CeilingBrackets(a, b, k);
    if k < 1 { MulMonotone(k as real, 0.0, b); }
    if k > n { NextMultiple(n, k, b); }
  }

  lemma NextMultiple(n: nat, k: int, b: real)
    requires k > n && b > 0.0
    ensures n as real * b <= (k - 1) as real * b
  {
    MulMonotone(n as real, (k - 1) as real, b);
  }

  // ---- columns ----

  /** What the children of slice `k` add up to. */
  ghost function SliceSum(cfg: Config, submittedAt: map<nat, real>, children: seq<ChildOrder>, k: int, f: ChildOrder -> int): int
    requires cfg.slices > 0
  {
    if children == [] then 0
    else
      var c := children[|children| - 1];
      SliceSum(cfg, submittedAt, children[..|children| - 1], k, f)
      + if SliceIndex(cfg, submittedAt, c.id) == k then f(c) else 0
  }

  ghost function SliceIds(cfg: Config, submittedAt: map<nat, real>, children: seq<ChildOrder>, k: int): seq<nat>
    requires cfg.slices > 0
  {
    if children == [] then []
    else
      var c := children[|children| - 1];
      SliceIds(cfg, submittedAt, children[..|children| - 1], k)
      + if SliceIndex(cfg, submittedAt, c.id) == k then [c.id] else []
  }

  /** The first `k` slices together. */
  ghost function UpTo(cfg: Config, submittedAt: map<nat, real>, children: seq<ChildOrder>, k: nat, f: ChildOrder -> int): int
    requires cfg.slices > 0
  {
    if k == 0 then 0
    else UpTo(cfg, submittedAt, children, k - 1, f) + SliceSum(cfg, submittedAt, children, k, f)
  }

  lemma {:induction false} UpToOneMore(cfg: Config, submittedAt: map<nat, real>, children: seq<ChildOrder>, k: nat, f: ChildOrder -> int)
    requires cfg.slices > 0 && children != []
    ensures
      var c := children[|children| - 1];
      UpTo(cfg, submittedAt, children, k, f)
      == UpTo(cfg, submittedAt, children[..|children| - 1], k, f) + if SliceIndex(cfg, submittedAt, c.id) <= k then f(c) else 0
  {
    if k > 0 {
      UpToOneMore(cfg, submittedAt, children, k - 1, f);
    }
  }

  /** All slices together hold every child exactly once. */
  lemma {:induction false} ColumnsAddUp(cfg: Config, submittedAt: map<nat, real>, children: seq<ChildOrder>, f: ChildOrder -> int)
    requires cfg.slices > 0
    ensures UpTo(cfg, submittedAt, children, cfg.slices, f) == Sum(children, f)
  {
    if children == [] {
      EmptyColumns(cfg, submittedAt, cfg.slices, f);
    } else {
      ColumnsAddUp(cfg, submittedAt, children[..|children| - 1], f);
      UpToOneMore(cfg, submittedAt, children, cfg.slices, f);
    }
  }

  lemma {:induction false} EmptyColumns(cfg: Config, submittedAt: map<nat, real>, k: nat, f: ChildOrder -> int)
    requires cfg.slices > 0
    ensures UpTo(cfg, submittedAt, [], k, f) == 0
  {
    if k > 0 { EmptyColumns(cfg, submittedAt, k - 1, f); }
  }

  // ---- rows ----

  function SubmittedOf(c: ChildOrder): int { c.submitted }

  function CancelledOf(c: ChildOrder): int { if c.status == ChildCancelled then c.Remaining() else 0 }

  function Positive(x: real): real { if x > 0.0 then x else 0.0 }

  function PlannedCumulative(cfg: Config, k: int): real
    requires cfg.slices > 0
  {
    cfg.required as real * k as real / cfg.slices as real
  }

  function EmptyRow(cfg: Config, k: int): Row
    requires cfg.slices > 0
  {
    var slice := cfg.duration / cfg.slices as real;
    Row(k, slice * (k - 1) as real, slice * k as real, PlannedCumulative(cfg, k),
        PlannedCumulative(cfg, k) - PlannedCumulative(cfg, k - 1), 0, 0, 0, 0, 0.0, 0.0, [])
  }

  /** Row `k` once the children are booked. */
  ghost function BookedRow(cfg: Config, submittedAt: map<nat, real>, children: seq<ChildOrder>, k: int): Row
    requires cfg.slices > 0
  {
    EmptyRow(cfg, k).(submitted := SliceSum(cfg, submittedAt, children, k, SubmittedOf),
                      open := SliceSum(cfg, submittedAt, children, k, LiveOf),
                      filled := SliceSum(cfg, submittedAt, children, k, ConfirmedOf),
                      cancelled := SliceSum(cfg, submittedAt, children, k, CancelledOf),
                      ids := SliceIds(cfg, submittedAt, children, k))
  }

  /** The finished row. */
  ghost function LedgerRow(cfg: Config, submittedAt: map<nat, real>, children: seq<ChildOrder>, k: nat): Row
    requires cfg.slices > 0
  {
    var row := BookedRow(cfg, submittedAt, children, k);
    row.(unfilled := Positive(row.planned - row.filled as real),
         deficit := Positive(row.plannedCumulative - UpTo(cfg, submittedAt, children, k, ConfirmedOf) as real))
  }

  method EmptyRows(cfg: Config) returns (rows: seq<Row>)
    requires cfg.slices > 0
    ensures |rows| == cfg.slices && forall j :: 0 <= j < |rows| ==> rows[j] == EmptyRow(cfg, j + 1)
  {
    rows := [];
    while |rows| < cfg.slices
      invariant |rows| <= cfg.slices
      invariant forall j :: 0 <= j < |rows| ==> rows[j] == EmptyRow(cfg, j + 1)
    {
      rows := rows + [EmptyRow(cfg, |rows| + 1)];
    }
  }

  function AddToRow(row: Row, c: ChildOrder): Row {
    row.(submitted := row.submitted + c.submitted,
         filled := row.filled + c.confirmed,
         open := row.open + LiveOf(c),
         cancelled := row.cancelled + CancelledOf(c),
         ids := row.ids + [c.id])
  }

  method BookChildren(cfg: Config, submittedAt: map<nat, real>, children: seq<ChildOrder>, empty: seq<Row>) returns (rows: seq<Row>)
    requires cfg.slices > 0 && |empty| == cfg.slices
    requires forall j :: 0 <= j < |empty| ==> empty[j] == EmptyRow(cfg, j + 1)
    ensures |rows| == cfg.slices
    ensures forall j :: 0 <= j < |rows| ==> rows[j] == BookedRow(cfg, submittedAt, children, j + 1)
  {
    rows := empty;
    var i := 0;
    while i < |children|
      invariant 0 <= i <= |children| && |rows| == cfg.slices
      invariant forall j :: 0 <= j < |rows| ==> rows[j] == BookedRow(cfg, submittedAt, children[..i], j + 1)
    {
      var c := children[i];
      var k := SliceIndex(cfg, submittedAt, c.id);
      assert children[..i + 1][..i] == children[..i];
      rows := rows[k - 1 := AddToRow(rows[k - 1], c)];
      i := i + 1;
    }
    assert children[..i] == children;
  }

  /** _twap_slice_ledger. */
  method TwapSliceLedger(cfg: Config, submittedAt: map<nat, real>, children: seq<ChildOrder>) returns (rows: seq<Row>)
    ensures cfg.algorithm != Twap || cfg.side == NoAction || cfg.required == 0 || cfg.slices == 0 ==> rows == []
    ensures cfg.algorithm == Twap && cfg.side != NoAction && cfg.required > 0 && cfg.slices > 0 ==>
              && |rows| == cfg.slices
              && forall j :: 0 <= j < |rows| ==> rows[j] == LedgerRow(cfg, submittedAt, children, j + 1)
  {
    if cfg.algorithm != Twap || cfg.side == NoAction || cfg.required <= 0 {
      return [];
    }
    if cfg.slices <= 0 {
      return [];
    }
    rows := EmptyRows(cfg);
    rows := BookChildren(cfg, submittedAt, children, rows);
    var cumulative := 0;
    var k := 0;
    while k < |rows|
      invariant 0 <= k <= |rows| == cfg.slices
      invariant cumulative == UpTo(cfg, submittedAt, children, k, ConfirmedOf)
      invariant forall j :: 0 <= j < k ==> rows[j] == LedgerRow(cfg, submittedAt, children, j + 1)
      invariant forall j :: k <= j < |rows| ==> rows[j] == BookedRow(cfg, submittedAt, children, j + 1)
    {
      var row := rows[k];
      cumulative := cumulative + row.filled;
      rows := rows[k := row.(unfilled := Positive(row.planned - row.filled as real),
                             deficit := Positive(row.plannedCumulative - cumulative as real))];
      k := k + 1;
    }
  }

  // ---- conservation ----

  ghost function PlannedUpTo(cfg: Config, k: nat): real
    requires cfg.slices > 0
  {
    if k == 0 then 0.0 else PlannedUpTo(cfg, k - 1) + EmptyRow(cfg, k).planned
  }

  /** The planned slice quantities telescope. */
  lemma {:induction false} PlannedTelescopes(cfg: Config, k: nat)
    requires cfg.slices > 0
    ensures PlannedUpTo(cfg, k) == PlannedCumulative(cfg, k)
  {
    if k == 0 {
      QuotientIs(0.0, cfg.slices as real, 0.0);
    } else {
      PlannedTelescopes(cfg, k - 1);
    }
  }

  /** A row's planned cumulative quantity is what the schedule says at the end of its slice. */
  lemma PlannedIsScheduled(cfg: Config, k: int)
    requires cfg.slices > 0 && cfg.duration > 0.0 && 1 <= k <= cfg.slices
    ensures EmptyRow(cfg, k).plannedCumulative == ScheduledCumulative(cfg.required, EmptyRow(cfg, k).end, cfg.duration)
    ensures EmptyRow(cfg, k).plannedCumulative == Share(cfg.required, k, cfg.slices)
  {
    var (n, slice) := (cfg.slices as real, cfg.duration / cfg.slices as real);
    SlicePositive(cfg.duration, cfg.slices);
    MulMonotone(0.0, k as real, slice);
    MulMonotone(k as real, n, slice);
    LinearAtBoundary(cfg.required, k, cfg.duration, cfg.slices);
    assert EmptyRow(cfg, k).end == k as real * slice;
    ShareIsFraction(cfg.required as real, k as real, n);
  }

  lemma ShareIsFraction(t: real, x: real, n: real)
    requires n > 0.0
    ensures t * x / n == x * (t / n)
  {
    QuotientTimes(t, n);
    assert (x * (t / n)) * n == x * ((t / n) * n);
    QuotientIs(t * x, n, x * (t / n));
  }

  /** Over all rows the submitted and filled columns are the children's totals, the planned column
      is the required quantity, and the last deficit is what is missing from it. */
  lemma LedgerIsConserved(cfg: Config, submittedAt: map<nat, real>, children: seq<ChildOrder>)
    requires cfg.slices > 0 && Sum(children, ConfirmedOf) <= cfg.required
    ensures UpTo(cfg, submittedAt, children, cfg.slices, SubmittedOf) == Sum(children, SubmittedOf)
    ensures UpTo(cfg, submittedAt, children, cfg.slices, ConfirmedOf) == Sum(children, ConfirmedOf)
    ensures PlannedUpTo(cfg, cfg.slices) == cfg.required as real
    ensures LedgerRow(cfg, submittedAt, children, cfg.slices).deficit == (cfg.required - Sum(children, ConfirmedOf)) as real
  {
    ColumnsAddUp(cfg, submittedAt, children, SubmittedOf);
    ColumnsAddUp(cfg, submittedAt, children, ConfirmedOf);
    PlannedTelescopes(cfg, cfg.slices);
    QuotientIs(cfg.required as real * cfg.slices as real, cfg.slices as real, cfg.required as real);
  }
  /** At every moment of every run the ledger accounts for exactly the tracker's confirmed quantity,
      and every child is booked by its own submission time. */
  lemma RunLedgerIsConserved(cfg: Config, run: Run, i: nat, k: nat)
    requires IsRun(cfg, run) && i < |run.worlds|
    ensures
      var r := run.worlds[i].rec;
      && UpTo(cfg, r.submittedAt, r.children, cfg.slices, SubmittedOf) == Sum(r.children, SubmittedOf)
      && UpTo(cfg, r.submittedAt, r.children, cfg.slices, ConfirmedOf) == r.exposure.confirmed <= cfg.required
      && PlannedUpTo(cfg, cfg.slices) == cfg.required as real
      && LedgerRow(cfg, r.submittedAt, r.children, cfg.slices).deficit == (cfg.required - r.exposure.confirmed) as real
      && (k < |r.children| ==> r.children[k].id in r.submittedAt && r.submittedAt[r.children[k].id] >= cfg.started)
  {
    hide IsRun, BooksOk, Tied, Traced, CapOk, SingleOk, UpTo, LedgerRow, PlannedUpTo, Sum, Exposure.Reserved;
    RunsAreSafe(cfg, run, i);
    var w := run.worlds[i];
    CommittedBelowTarget(cfg, w);
    BooksConfirmed(w.rec);
    LedgerIsConserved(cfg, w.rec.submittedAt, w.rec.children);
    assert k < |w.rec.children| ==> SubmissionAt(cfg, w.rec.children, w.rec.submittedAt, w.rec.aggressive, w.now, k);
  }
}
