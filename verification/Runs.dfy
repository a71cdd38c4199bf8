/** Every run of the protocol: what holds at each of its moments, what never goes back, and what
    a finished execution means at the exchange. */
module Runs {
  import opened Models
  import opened StateMachine
  import opened Intervals
  import opened Records
  import opened FillLedger
  import opened Venues
  import opened Coupling
  import opened Schedule
  import opened Invariant
  import opened Protocol
  import opened Steps
  import opened Deliveries
  import opened Evidence
  import opened Exactness

  lemma StepKeepsInv(cfg: Config, w: World, e: Event, w': World)
    requires Inv(cfg, w) && Step(cfg, w, e, w')
    ensures Inv(cfg, w')
    ensures if e.Decides? then w'.rec == Decide(cfg, w.rec, w.now) else Moved(w.rec, w'.rec)
    ensures e.Decides? || e.SubmitBegins? || e.SubmitEnds? || Steady(w.rec, w'.rec)
  {
    hide Inv, ChildrenAdvanced, Terminate, Decide, BeginSubmit, EndSubmit, BeginCancel, EndCancel, Refresh, ApplyResult, ApplyResultExact,
         ResultOk, WarningOk, AnswersOk, ListsAll, MaySubmit, MayStop, SubmitOutcomeOk, CancelOutcomeOk, Evolves;
    AdvancedReflexive(w.rec.children);
    match e {
      case VenueMoves => VenueKeepsInv(cfg, w, w');
      case ClockTicks => ClockKeepsInv(cfg, w, w');
      case SubmitBegins(quantity, price, postOnly, bid, ask) =>
        SubmitBeginKeepsInv(cfg, w, w', quantity, price, postOnly, bid, ask);
      case SubmitEnds(outcome) => SubmitEndKeepsInv(cfg, w, w', outcome);
      case CancelBegins(i) => CancelBeginKeepsInv(cfg, w, w', i);
      case CancelEnds(outcome) => CancelEndKeepsInv(cfg, w, w', outcome);
      case Refreshes(answers) => RefreshKeepsInv(cfg, w, w', answers);
      case Delivers(result) => DeliveryKeepsInv(cfg, w, w', result);
      case DeliversExact(result, answers) => ExactDeliveryKeepsInv(cfg, w, w', result, answers);
      case BacksOff(until) => BackOffKeepsInv(cfg, w, until);
      case Decides => DecisionKeepsInv(cfg, w);
      case CancelIsRequested => CancelRequestKeepsInv(cfg, w, w');
      case Stops(target) => StopKeepsInv(cfg, w, w', target);
    }
  }

  // ---- runs ----

  /** Any interleaving of engine steps with the venue and the clock. */
  datatype Run = Run(worlds: seq<World>, events: seq<Event>)

  ghost predicate StepAt(cfg: Config, run: Run, i: nat)
    requires cfg.Valid() && i < |run.events| && |run.worlds| == |run.events| + 1
  {
    Step(cfg, run.worlds[i], run.events[i], run.worlds[i + 1])
  }

  ghost predicate IsRun(cfg: Config, run: Run) {
    && cfg.Valid()
    && |run.worlds| == |run.events| + 1
    && run.worlds[0] == World(InitialRecord(), EmptyVenue(), cfg.started)
    && forall i: nat :: i < |run.events| ==> StepAt(cfg, run, i)
  }

  lemma RunStarted(cfg: Config, run: Run)
    requires IsRun(cfg, run)
    ensures run.worlds != [] && cfg.Valid()
  {}

  function Last(run: Run): World
    requires run.worlds != []
  {
    run.worlds[|run.worlds| - 1]
  }

  function Extended(run: Run, e: Event, w: World): Run {
    Run(run.worlds + [w], run.events + [e])
  }

  lemma RunExtends(cfg: Config, run: Run, e: Event, w: World)
    requires IsRun(cfg, run) && Step(cfg, Last(run), e, w)
    ensures IsRun(cfg, Extended(run, e, w)) && Last(Extended(run, e, w)) == w
  {
    hide Step;
    var run' := Extended(run, e, w);
    forall i: nat | i < |run'.events| ensures StepAt(cfg, run', i) {
      if i < |run.events| { assert StepAt(cfg, run, i); }
    }
  }

  /** The invariant holds at every moment of every run. */
  lemma {:induction false} RunsAreSafe(cfg: Config, run: Run, i: nat)
    requires IsRun(cfg, run) && i < |run.worlds|
    ensures Inv(cfg, run.worlds[i])
  {
    hide Inv, Step;
    if i == 0 {
      InitialInv(cfg, cfg.started);
    } else {
      RunsAreSafe(cfg, run, i - 1);
      assert StepAt(cfg, run, i - 1);
      StepKeepsInv(cfg, run.worlds[i - 1], run.events[i - 1], run.worlds[i]);
    }
  }

  ghost predicate Reaches(cfg: Config, run: Run, w: World) {
    IsRun(cfg, run) && Last(run) == w
  }

  /** Some run leads to `w`. */
  ghost predicate Reachable(cfg: Config, w: World) {
    exists run :: Reaches(cfg, run, w)
  }

  lemma InitiallyReachable(cfg: Config)
    requires cfg.Valid()
    ensures Reachable(cfg, World(InitialRecord(), EmptyVenue(), cfg.started))
  {
    assert Reaches(cfg, Run([World(InitialRecord(), EmptyVenue(), cfg.started)], []), World(InitialRecord(), EmptyVenue(), cfg.started));
  }

  lemma StepReaches(cfg: Config, w: World, e: Event, w': World)
    requires cfg.Valid() && Reachable(cfg, w) && Step(cfg, w, e, w')
    ensures Reachable(cfg, w')
  {
    hide Step, IsRun;
    var run :| Reaches(cfg, run, w);
    RunExtends(cfg, run, e, w');
    assert Reaches(cfg, Extended(run, e, w'), w');
  }

  lemma ReachableIsSafe(cfg: Config, w: World)
    requires Reachable(cfg, w)
    ensures cfg.Valid() && Inv(cfg, w)
  {
    hide Inv, StepAt;
    var run :| Reaches(cfg, run, w);
    RunsAreSafe(cfg, run, |run.worlds| - 1);
  }

  // ---- what never goes back ----

  ghost predicate FinishedKeptAt(a: seq<ChildOrder>, b: seq<ChildOrder>, i: nat)
    requires i < |a|
  {
    a[i].status.IsTerminal() ==> i < |b| && b[i] == a[i]
  }

  /** Confirmed quantities only grow, finished children stay exactly as they are, a finished
      parent stays in its status with its summary, and no child is created once cancellation
      was requested or the parent stopped without failing. */
  ghost predicate Later(r: Record, r': Record) {
    && r.exposure.confirmed <= r'.exposure.confirmed
    && (forall i: nat :: i < |r.children| ==> FinishedKeptAt(r.children, r'.children, i))
    && (r.status.IsTerminal() ==> r'.status == r.status && r'.summary == Some(r.status))
    && (r.cancelRequested ==> r'.cancelRequested)
    && r.openings <= r'.openings
    && r.lastSequence <= r'.lastSequence
    && (r.cancelRequested || (r.status.IsTerminal() && r.status != Failed) ==> r'.lastSequence == r.lastSequence)
  }

  lemma MovedConfirmed(a: seq<ChildOrder>, b: seq<ChildOrder>)
    requires ChildrenMoved(a, b)
    ensures Sum(a, ConfirmedOf) <= Sum(b, ConfirmedOf)
    ensures forall i: nat :: i < |a| ==> FinishedKeptAt(a, b, i)
  {
    if ChildrenAdvanced(a, b) {
      AdvancedCommitsNoMore(a, b);
      forall i: nat | i < |a| ensures FinishedKeptAt(a, b, i) {
        assert AdvancedAt(a, b, i);
      }
    } else if |b| == |a| + 1 && b[..|a|] == a {
      assert b == a + [b[|a|]];
      SumAppend(a, b[|a|], ConfirmedOf);
    }
  }

  lemma StepIsLater(cfg: Config, w: World, e: Event, w': World)
    requires Inv(cfg, w) && Step(cfg, w, e, w')
    ensures Later(w.rec, w'.rec)
  {
    hide Step, ChildrenMoved, Sum, Tied, Traced, CapOk, SingleOk, IdsOk, SubmissionsOk, AggressiveOk, StreakOk, CallOk, Ledger,
         BucketsOk, Exposure.Reserved;
    StepKeepsInv(cfg, w, e, w');
    if e.Decides? {
      LaterReflexive(cfg, w);
      return;
    }
    MovedConfirmed(w.rec.children, w'.rec.children);
    BooksConfirmed(w.rec);
    BooksConfirmed(w'.rec);
    ExecutionTerminalIsAbsorbing(w.rec.status);
  }

  lemma LaterTransitive(a: Record, b: Record, c: Record)
    requires Later(a, b) && Later(b, c)
    ensures Later(a, c)
  {
    forall i: nat | i < |a.children| ensures FinishedKeptAt(a.children, c.children, i) {
      assert FinishedKeptAt(a.children, b.children, i);
      assert i < |b.children| ==> FinishedKeptAt(b.children, c.children, i);
    }
  }

  lemma {:induction false} RunsOnlyProgress(cfg: Config, run: Run, i: nat, j: nat)
    requires IsRun(cfg, run) && i <= j < |run.worlds|
    ensures Later(run.worlds[i].rec, run.worlds[j].rec)
    decreases j - i
  {
    hide Step, Later, Inv;
    RunsAreSafe(cfg, run, i);
    if i == j {
      LaterReflexive(cfg, run.worlds[i]);
    } else {
      RunsOnlyProgress(cfg, run, i, j - 1);
      RunsAreSafe(cfg, run, j - 1);
      assert StepAt(cfg, run, j - 1);
      StepIsLater(cfg, run.worlds[j - 1], run.events[j - 1], run.worlds[j]);
      LaterTransitive(run.worlds[i].rec, run.worlds[j - 1].rec, run.worlds[j].rec);
    }
  }

  lemma LaterReflexive(cfg: Config, w: World)
    requires Inv(cfg, w)
    ensures Later(w.rec, w.rec)
  {
    forall i: nat | i < |w.rec.children| ensures FinishedKeptAt(w.rec.children, w.rec.children, i) {}
  }

  /** Parent statuses follow the transition table, step by step. */
  lemma StatusesFollowTheTable(cfg: Config, run: Run, i: nat)
    requires IsRun(cfg, run) && i < |run.events|
    ensures run.worlds[i + 1].rec.status == run.worlds[i].rec.status
            || run.worlds[i + 1].rec.status in ExecutionTargets(run.worlds[i].rec.status)
  {
    hide Inv, Step, ChildrenMoved;
    RunsAreSafe(cfg, run, i);
    assert StepAt(cfg, run, i);
    StepKeepsInv(cfg, run.worlds[i], run.events[i], run.worlds[i + 1]);
  }

  // ---- no overfill ----

  /** In every interleaving of engine steps, exchange fills and stale deliveries the exchange's
      fills plus what its live orders may still fill stay within the required quantity. */
  lemma ExchangeNeverOverfills(cfg: Config, run: Run, i: nat)
    requires IsRun(cfg, run) && i < |run.worlds|
    ensures
      var w := run.worlds[i];
      && Traded(w.venue.trades) <= TotalExposure(w.venue.orders)
      && TotalExposure(w.venue.orders) <= w.rec.exposure.confirmed + w.rec.exposure.Reserved() <= cfg.required
  {
    hide Inv, Step;
    RunsAreSafe(cfg, run, i);
    ExchangeStaysWithinTarget(cfg, run.worlds[i]);
    InvVenue(cfg, run.worlds[i]);
    TradedIsExposed(run.worlds[i].venue);
  }

  /** The exchange position never passes the target. */
  lemma PositionStaysInside(cfg: Config, run: Run, i: nat, target: int, start: int, step: nat)
    requires IsRun(cfg, run) && i < |run.worlds| && step > 0
    requires cfg.side == RequiredTrade(target, start).0
    requires cfg.required == Tradable(RequiredTrade(target, start).1, step)
    ensures
      var position := PositionAfter(start, cfg.side, Traded(run.worlds[i].venue.trades));
      if start <= target then start <= position <= target else target <= position <= start
  {
    hide IsRun, Tradable;
    ExchangeNeverOverfills(cfg, run, i);
    TradableStaysInsideTarget(target, start, step, Traded(run.worlds[i].venue.trades));
  }

  // ---- schedule, outstanding orders, deadline, rejects ----

  /** A TWAP run is never ahead of its schedule. */
  lemma TwapNeverAheadOfSchedule(cfg: Config, run: Run, i: nat)
    requires IsRun(cfg, run) && i < |run.worlds| && cfg.algorithm == Twap
    ensures
      var w := run.worlds[i];
      (w.rec.exposure.confirmed + w.rec.exposure.Reserved()) as real
      <= Share(cfg.required, CompletedSlices(w.now - cfg.started, cfg.duration, cfg.slices), cfg.slices)
  {
    hide IsRun, Ledger, Tied, Traced, SingleOk, LifeOk, SnappedSchedule, BooksOk, Share, CompletedSlices, Exposure.Reserved;
    RunsAreSafe(cfg, run, i);
    BooksCommit(run.worlds[i].rec);
    ScheduleIsStepFunction(cfg.required, run.worlds[i].now - cfg.started, cfg.duration, cfg.slices);
  }

  /** At most one child may still fill, and it is the last one submitted; the four buckets are
      exactly the fold over the children. */
  lemma OneOutstandingChild(cfg: Config, run: Run, i: nat, k: nat)
    requires IsRun(cfg, run) && i < |run.worlds| && k < |run.worlds[i].rec.children|
    ensures
      var r := run.worlds[i].rec;
      && (!r.children[k].status.IsTerminal() && r.children[k].Remaining() > 0 ==> k == |r.children| - 1)
      && r.exposure == Recomputed(r.children, r.exposure.confirmed)
      && r.exposure.confirmed == Sum(r.children, ConfirmedOf)
  {
    hide IsRun, Ledger, Tied, Traced, CapOk, LifeOk, Sum;
    RunsAreSafe(cfg, run, i);
    var children := run.worlds[i].rec.children;
    assert k + 1 < |children| ==> NothingReserved(children, k);
  }

  /** Orders submitted past the deadline that the summary counts as scheduled. */
  function ScheduledAfterDeadline(cfg: Config, children: seq<ChildOrder>, submittedAt: map<nat, real>, aggressive: set<nat>): nat {
    if children == [] then 0
    else
      var id := children[|children| - 1].id;
      ScheduledAfterDeadline(cfg, children[..|children| - 1], submittedAt, aggressive)
      + if id in submittedAt && submittedAt[id] > cfg.Deadline() && id !in aggressive then 1 else 0
  }

  lemma {:induction false} NothingScheduledAfterDeadline(cfg: Config, children: seq<ChildOrder>, submittedAt: map<nat, real>,
                                                         aggressive: set<nat>, now: real)
    requires SubmissionsOk(cfg, children, submittedAt, aggressive, now)
    ensures ScheduledAfterDeadline(cfg, children, submittedAt, aggressive) == 0
  {
    if children != [] {
      var n := |children| - 1;
      assert SubmissionAt(cfg, children, submittedAt, aggressive, now, n);
      forall i: nat | i < n ensures SubmissionAt(cfg, children[..n], submittedAt, aggressive, now, i) {
        assert SubmissionAt(cfg, children, submittedAt, aggressive, now, i);
      }
      NothingScheduledAfterDeadline(cfg, children[..n], submittedAt, aggressive, now);
    }
  }

  /** A child submitted at or after the deadline is aggressive and was asked for; so a run that
      cancels its remainder submits nothing then, and the summary's count of scheduled orders
      after the deadline is always zero. */
  lemma DeadlineIsKept(cfg: Config, run: Run, i: nat, k: nat)
    requires IsRun(cfg, run) && i < |run.worlds|
    ensures
      var r := run.worlds[i].rec;
      && ScheduledAfterDeadline(cfg, r.children, r.submittedAt, r.aggressive) == 0
      && (k < |r.children| ==>
            var id := r.children[k].id;
            id in r.submittedAt
            && (r.submittedAt[id] >= cfg.Deadline() <==> id in r.aggressive)
            && (cfg.policy == CancelRemainder ==> r.submittedAt[id] < cfg.Deadline()))
  {
    hide IsRun, BooksOk, Tied, Traced, CapOk, SingleOk;
    RunsAreSafe(cfg, run, i);
    var w := run.worlds[i];
    NothingScheduledAfterDeadline(cfg, w.rec.children, w.rec.submittedAt, w.rec.aggressive, w.now);
    assert k < |w.rec.children| ==> SubmissionAt(cfg, w.rec.children, w.rec.submittedAt, w.rec.aggressive, w.now, k);
  }

  /** Event `k` is a deadline decision taken over an outstanding attempt while a passive child
      still shows as open. */
  ghost predicate OpensAt(cfg: Config, run: Run, k: nat)
    requires k < |run.events| && k < |run.worlds|
  {
    run.events[k].Decides? && OpensAttempt(cfg, run.worlds[k].rec, run.worlds[k].now)
  }

  /** How many such decisions there were before moment `n`. */
  ghost function Openings(cfg: Config, run: Run, n: nat): nat
    requires n <= |run.events| <= |run.worlds|
  {
    if n == 0 then 0 else Openings(cfg, run, n - 1) + if OpensAt(cfg, run, n - 1) then 1 else 0
  }

  lemma {:induction false} OpeningsCounted(cfg: Config, run: Run, i: nat)
    requires IsRun(cfg, run) && i < |run.worlds|
    ensures run.worlds[i].rec.openings == Openings(cfg, run, i)
  {
    hide Inv, Step, ChildrenMoved, OpensAttempt;
    if i > 0 {
      OpeningsCounted(cfg, run, i - 1);
      RunsAreSafe(cfg, run, i - 1);
      assert StepAt(cfg, run, i - 1);
      StepKeepsInv(cfg, run.worlds[i - 1], run.events[i - 1], run.worlds[i]);
    }
  }

  /** A TWAP run has one aggressive attempt, and at most one more for each decision that opened
      one. */
  lemma AttemptsAreCounted(cfg: Config, run: Run, i: nat)
    requires IsRun(cfg, run) && i < |run.worlds| && cfg.algorithm == Twap
    ensures |run.worlds[i].rec.aggressive| <= 1 + Openings(cfg, run, i)
  {
    hide IsRun, BooksOk, Tied, Traced, CapOk, SingleOk;
    RunsAreSafe(cfg, run, i);
    OpeningsCounted(cfg, run, i);
  }

  /** So it keeps to one attempt as long as no decision is taken over an outstanding attempt while
      a passive child still shows as open. */
  lemma {:induction false} OneAggressiveAttempt(cfg: Config, run: Run, i: nat)
    requires IsRun(cfg, run) && i < |run.worlds| && cfg.algorithm == Twap
    requires forall k: nat :: k < i ==> !OpensAt(cfg, run, k)
    ensures |run.worlds[i].rec.aggressive| <= 1
  {
    hide IsRun, OpensAt;
    AttemptsAreCounted(cfg, run, i) by { IsRunLength(cfg, run); }
    NothingOpened(cfg, run, i) by { IsRunLength(cfg, run); }
  }

  lemma IsRunLength(cfg: Config, run: Run)
    requires IsRun(cfg, run)
    ensures |run.worlds| == |run.events| + 1
  {}

  lemma {:induction false} NothingOpened(cfg: Config, run: Run, n: nat)
    requires n <= |run.events| <= |run.worlds|
    requires forall k: nat :: k < n ==> !OpensAt(cfg, run, k)
    ensures Openings(cfg, run, n) == 0
  {
    if n > 0 { NothingOpened(cfg, run, n - 1); }
  }

  /** While running the reject streak is below its limit, and neighbouring rejects are a second
      apart with a new price or a new quote on the other side: the ask for a buyer, the bid for a
      seller. */
  lemma RejectsAreSpaced(cfg: Config, run: Run, i: nat, k: nat)
    requires IsRun(cfg, run) && i < |run.worlds|
    ensures
      var r := run.worlds[i].rec;
      && (r.status == Running ==> |r.rejects| < cfg.retryLimit)
      && (k + 1 < |r.rejects| ==>
            var a, b := r.rejects[k], r.rejects[k + 1];
            b.time - a.time >= 1.0
            && (b.price != a.price || if cfg.side == Buy then b.ask != a.ask else b.bid != a.bid))
  {
    hide IsRun, BooksOk, Tied, Traced, CapOk, SingleOk;
    RunsAreSafe(cfg, run, i);
    assert k + 1 < |run.worlds[i].rec.rejects| ==> SpacedAt(cfg.side, run.worlds[i].rec.rejects, k);
  }

  // ---- books ----

  /** Every release finds what it takes out of its bucket, and a cancellation all it moves, so no
      bucket is ever cut off at zero. */
  lemma NoBucketIsTruncated(cfg: Config, run: Run, i: nat, k: nat)
    requires IsRun(cfg, run) && i < |run.worlds| && k < |run.worlds[i].rec.children|
    ensures
      var r := run.worlds[i].rec;
      && LiveOf(r.children[k]) <= r.exposure.liveOpen && PendingSubmitOf(r.children[k]) <= r.exposure.pendingSubmit
      && PendingCancelOf(r.children[k]) <= r.exposure.pendingCancel && UnknownOf(r.children[k]) <= r.exposure.unknown
      && (r.call.AwaitingSubmit? ==> r.children[|r.children| - 1].submitted <= r.exposure.pendingSubmit)
      && (r.call.AwaitingCancel? ==> r.call.remaining <= r.exposure.pendingCancel)
  {
    hide IsRun, Inv, BucketsOk;
    var w := run.worlds[i];
    RunsAreSafe(cfg, run, i);
    InvBuckets(cfg, w);
    BucketsReplace(w.rec.children, w.rec.exposure, k, w.rec.children[k]);
    if w.rec.call.AwaitingSubmit? { LastPending(cfg, w); }
    if w.rec.call.AwaitingCancel? { CancellingChild(cfg, w); }
  }

  /** In every reachable state the quantities behind the reported average price add up to the
      tracker's confirmed quantity, maker and taker fills are part of it, and every child's booked
      intervals are non-empty, disjoint and inside what it has confirmed. */
  lemma FillLedgerAddsUp(cfg: Config, run: Run, i: nat, k: nat)
    requires IsRun(cfg, run) && i < |run.worlds|
    ensures
      var r := run.worlds[i].rec;
      && Quantity(SummaryInputs(r)) == r.exposure.confirmed
      && r.maker + r.taker <= r.exposure.confirmed
      && r.trackerSeen <= r.seen
      && (k < |r.children| ==>
            Ledgered(IntervalsOf(r.intervals, r.children[k].id), r.children[k].confirmed))
  {
    hide IsRun, Tied, Traced, CapOk, SingleOk, LifeOk, SummaryInputs, BucketsOk, Ledgered, Sum, TradesOnce, InputsMatch, DistinctIds,
         OnlyChildren;
    RunsAreSafe(cfg, run, i);
    var r := run.worlds[i].rec;
    SummaryQuantityIsConserved(r);
    assert k < |r.children| ==> BookedAt(r.children, r.intervals, [], k);
  }
}
