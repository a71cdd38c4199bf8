/** The one place where a TWAP execution can make a second aggressive attempt: the deadline decision
    of run_once, exactly when it is taken over an outstanding attempt while a passive child still
    shows as open and the exchange has not traded the whole target. */
module Attempts {
  import opened Models
  import opened StateMachine
  import opened Records
  import opened FillLedger
  import opened Venues
  import opened Coupling
  import opened Evidence
  import opened Schedule
  import opened Invariant
  import opened Protocol
  import opened Steps
  import opened Deliveries
  import opened Runs
  import opened Outcomes
  import opened Adapters
  import opened Lookups
  import Idempotence

  // ---- pending children ----

  ghost predicate PendingAt(children: seq<ChildOrder>, j: nat)
    requires j < |children|
  {
    children[j].status == PendingSubmit
  }

  /** A child is pending only while its request is being awaited. */
  ghost predicate PendingOk(r: Record) {
    forall j: nat :: j < |r.children| && PendingAt(r.children, j) ==> r.call.AwaitingSubmit? && j == |r.children| - 1
  }

  lemma SteadyKeepsPending(r: Record, r': Record)
    requires PendingOk(r) && Steady(r, r') && (r'.call.AwaitingSubmit? <==> r.call.AwaitingSubmit?)
    ensures PendingOk(r')
  {
    forall j: nat | j < |r'.children| && PendingAt(r'.children, j) ensures r'.call.AwaitingSubmit? && j == |r'.children| - 1 {
      assert AdvancedAt(r.children, r'.children, j);
      assert PendingAt(r.children, j);
    }
  }

  lemma OthersNotPending(r: Record, j: nat)
    requires PendingOk(r) && j < |r.children| && (j < |r.children| - 1 || !r.call.AwaitingSubmit?)
    ensures r.children[j].status != PendingSubmit
  {
    if r.children[j].status == PendingSubmit { assert PendingAt(r.children, j); }
  }

  lemma EndLeavesNonePending(cfg: Config, w: World, outcome: SubmitOutcome)
    requires Inv(cfg, w) && w.rec.call.AwaitingSubmit? && w.rec.children != [] && PendingOk(w.rec)
    requires SubmitOutcomeOk(w.venue, w.rec.children[|w.rec.children| - 1].id, outcome)
    ensures PendingOk(EndSubmit(cfg, w.rec, w.now, outcome))
  {
    hide Inv, PendingOk, ChildOk, TakeSnapshot;
    LastPending(cfg, w);
    var r, n := w.rec, |w.rec.children| - 1;
    var r' := EndSubmit(cfg, r, w.now, outcome);
    if outcome.Accepted? {
      InvVenue(cfg, w);
      ReportedStatus(w.venue.orders[r.children[n].id], outcome.status, outcome.filled);
      AcceptedShape(cfg, r, w.now, outcome.status, outcome.filled);
      ReportKeepsChild(r.children[n], w.venue, outcome.status, outcome.filled);
    }
    forall j: nat | j < |r'.children| ensures r'.children[j].status != PendingSubmit {
      if j < n { OthersNotPending(r, j); }
    }
    NonePending(r');
  }

  lemma NonePending(r: Record)
    requires forall j: nat :: j < |r.children| ==> r.children[j].status != PendingSubmit
    ensures PendingOk(r)
  {}

  lemma BeginLeavesOnePending(r: Record, now: real, quantity: nat, price: int, postOnly: bool, bid: int, ask: int)
    requires PendingOk(r) && r.call == Idle
    ensures PendingOk(BeginSubmit(r, now, quantity, price, postOnly, bid, ask))
  {
    var r' := BeginSubmit(r, now, quantity, price, postOnly, bid, ask);
    forall j: nat | j < |r'.children| && PendingAt(r'.children, j) ensures j == |r'.children| - 1 {
      if j < |r.children| { assert PendingAt(r.children, j); }
    }
  }

  /** Only the beginning of a submission makes the engine wait for one, and only its end stops it. */
  lemma WaitingSteps(cfg: Config, w: World, e: Event, w': World)
    requires cfg.Valid() && Step(cfg, w, e, w') && !e.SubmitBegins? && !e.SubmitEnds?
    ensures w.rec.call.AwaitingSubmit? ==> w'.rec.call == w.rec.call
    ensures e.Decides? ==> w.rec.call == Idle
  {
    hide BeginCancel, EndCancel, Refresh, ApplyResult, ApplyResultExact, ApplyEvidence, ResultOk, WarningOk, ListsAll, OpensAttempt,
         AnswersOk, Evolves, CancelOutcomeOk, TransitionExecution;
  }

  lemma StepKeepsPending(cfg: Config, w: World, e: Event, w': World)
    requires Inv(cfg, w) && Step(cfg, w, e, w') && PendingOk(w.rec)
    ensures PendingOk(w'.rec)
  {
    hide Inv, PendingOk, BeginSubmit, EndSubmit, BeginCancel, EndCancel, Refresh, ApplyResult, ApplyResultExact, ApplyEvidence, ResultOk,
         WarningOk, ListsAll, DemandOk, GateOpen, MayStop, SubmitOutcomeOk, CancelOutcomeOk, Evolves, AnswersOk, ChildrenMoved, Steady,
         ParentMoved, OpensAttempt;
    StepKeepsInv(cfg, w, e, w');
    match e {
      case SubmitBegins(quantity, price, postOnly, bid, ask) =>
        BeginLeavesOnePending(w.rec, w.now, quantity, price, postOnly, bid, ask);
      case SubmitEnds(outcome) => EndLeavesNonePending(cfg, w, outcome);
      case Decides => SamePending(w.rec, w'.rec);
      case _ =>
        WaitingSteps(cfg, w, e, w') by { InvValid(cfg, w); }
        SteadyAwaits(w.rec, w'.rec);
        SteadyKeepsPending(w.rec, w'.rec);
    }
  }

  lemma InvValid(cfg: Config, w: World)
    requires Inv(cfg, w)
    ensures cfg.Valid()
  {}

  lemma SteadyAwaits(r: Record, r': Record)
    requires Steady(r, r') && (r.call.AwaitingSubmit? ==> r'.call == r.call)
    ensures r'.call.AwaitingSubmit? <==> r.call.AwaitingSubmit?
  {}

  lemma SamePending(r: Record, r': Record)
    requires PendingOk(r) && r'.children == r.children && r'.call == r.call
    ensures PendingOk(r')
  {
    forall j: nat | j < |r'.children| && PendingAt(r'.children, j) ensures r'.call.AwaitingSubmit? && j == |r'.children| - 1 {
      assert PendingAt(r.children, j);
    }
  }

  /** In every run a child is pending only while its request is being awaited. */
  lemma {:induction false} PendingIsAwaited(cfg: Config, run: Run, i: nat)
    requires IsRun(cfg, run) && i < |run.worlds|
    ensures PendingOk(run.worlds[i].rec)
  {
    hide Inv, Step, PendingOk;
    if i == 0 {
      NonePending(InitialRecord());
    } else {
      PendingIsAwaited(cfg, run, i - 1);
      RunsAreSafe(cfg, run, i - 1);
      assert StepAt(cfg, run, i - 1);
      StepKeepsPending(cfg, run.worlds[i - 1], run.events[i - 1], run.worlds[i]);
    }
  }

  // ---- the exchange calls everything off ----

  function Withdrawn(o: Order): Order { if o.Live() then o.(cancelled := true) else o }

  /** Every live order is cancelled and every request is lost. */
  function CalledOff(v: VenueState): VenueState {
    VenueState(map id | id in v.orders :: Withdrawn(v.orders[id]), map[], v.trades)
  }

  lemma CallingOffEvolves(v: VenueState)
    requires VenueOk(v)
    ensures Evolves(v, CalledOff(v))
  {
    var v' := CalledOff(v);
    forall id | id in v'.orders ensures OrderOk(v', id) { assert OrderOk(v, id); }
    forall k: nat | k < |v'.trades| ensures TradeOk(v', k) { assert TradeOk(v, k); }
    forall id: nat ensures OrderEvolves(v, v', id) {}
  }

  function AnswerFor(v: VenueState, id: nat): Lookup {
    if id in v.orders then Found(v.orders[id].Status(), v.orders[id].filled) else NotFound
  }

  function AnswersFor(v: VenueState, children: seq<ChildOrder>): seq<Lookup> {
    seq(|children|, i requires 0 <= i < |children| => AnswerFor(v, children[i].id))
  }

  lemma AnswersAreTrue(r: Record, v: VenueState, n: nat)
    requires Tied(r, v) && v.inflight == map[] && n <= |r.children|
    ensures AnsweredOk(v, r.children, AnswersFor(v, r.children)[..n])
    ensures NoHalt(r, AnswersFor(v, r.children)[..n])
  {
    hide LedgerView, Coupled, VenueOk, ReportOk;
    var answers := AnswersFor(v, r.children)[..n];
    forall j: nat | j < |answers| ensures AnswerOkAt(v, r.children, answers, j) {
      CoupledChild(r.children, v, j);
      if r.children[j].id in v.orders { VenueReportsItself(v, r.children[j].id); }
    }
  }

  /** Looking up a child whose order is over, or never was, finishes the child. */
  lemma OverIsFinished(r: Record, v: VenueState, i: nat)
    requires Tied(r, v) && v.inflight == map[] && i < |r.children| && r.children[i].status != PendingSubmit
    requires r.children[i].id in v.orders ==> !v.orders[r.children[i].id].Live()
    ensures |LookupOne(r, i, AnswerFor(v, r.children[i].id)).children| == |r.children|
    ensures LookupOne(r, i, AnswerFor(v, r.children[i].id)).children[i].status.IsTerminal()
  {
    hide LedgerView, VenueOk, Coupled, TakeReport;
    var c := r.children[i];
    CoupledChild(r.children, v, i);
    LookupOneShape(r, i, AnswerFor(v, c.id));
    if c.id in v.orders {
      Idempotence.ReportShape(r, i, v.orders[c.id].Status(), v.orders[c.id].filled);
    }
  }

  lemma {:induction false} RefreshFinishesAll(r: Record, v: VenueState, n: nat)
    requires Tied(r, v) && v.inflight == map[] && n <= |r.children|
    requires forall id :: id in v.orders ==> !v.orders[id].Live()
    requires forall i: nat :: i < |r.children| ==> r.children[i].status != PendingSubmit
    ensures
      var r' := LookedUp(r, AnswersFor(v, r.children)[..n]);
      Tied(r', v) && forall i: nat :: i < n ==> r'.children[i].status.IsTerminal()
  {
    hide Tied, LookupOne, AnswerFor, AnsweredOk, NoHalt;
    var answers := AnswersFor(v, r.children)[..n];
    AnswersAreTrue(r, v, n);
    CompleteRefreshSettles(r, v, answers);
    if n > 0 {
      RefreshFinishesAll(r, v, n - 1);
      assert answers[..n - 1] == AnswersFor(v, r.children)[..n - 1];
      var r1 := LookedUp(r, answers[..n - 1]);
      assert answers[n - 1] == AnswerFor(v, r.children[n - 1].id);
      OverIsFinished(r1, v, n - 1);
      LookupOneShape(r1, n - 1, answers[n - 1]);
    }
  }

  // ---- the decision ----

  /** run_once has looked at the exchange and now decides what the deadline means. */
  ghost predicate AtDecision(cfg: Config, w: World) {
    && w.rec.call == Idle && w.rec.status in {Running, Failed} && !w.rec.cancelRequested
    && cfg.algorithm == Twap && w.rec.aggressive != {}
  }

  /** Event `k` neither decides nor submits. */
  ghost predicate Between(run: Run, k: nat)
    requires k < |run.events|
  {
    !run.events[k].Decides? && !run.events[k].SubmitBegins?
  }

  /** `later` goes on from `run` with the decision and ends with the submission of an aggressive
      child by the same call. */
  ghost predicate FurtherAttempt(cfg: Config, run: Run, later: Run) {
    && IsRun(cfg, later)
    && run.worlds <= later.worlds && run.events <= later.events
    && |later.events| >= |run.events| + 2
    && later.events[|run.events|].Decides?
    && (forall k: nat :: |run.events| < k < |later.events| - 1 ==> Between(later, k))
    && later.events[|later.events| - 1].SubmitBegins? && !later.events[|later.events| - 1].postOnly
  }

  // ---- only then ----

  lemma {:induction false} TradedPrefix(trades: seq<Trade>, n: nat)
    requires n <= |trades|
    ensures Traded(trades[..n]) <= Traded(trades)
    decreases |trades|
  {
    if n == |trades| {
      assert trades[..n] == trades;
    } else {
      TradedPrefix(trades[..|trades| - 1], n);
      assert trades[..|trades| - 1][..n] == trades[..n];
    }
  }

  lemma StepKeepsTrades(cfg: Config, w: World, e: Event, w': World)
    requires cfg.Valid() && Step(cfg, w, e, w')
    ensures Traded(w.venue.trades) <= Traded(w'.venue.trades)
  {
    hide VenueOk, EndSubmit, EndCancel, Refresh, ApplyResult, ApplyResultExact, ApplyEvidence, ResultOk, WarningOk, ListsAll, MayStop,
         SubmitOutcomeOk, CancelOutcomeOk, DemandOk, OpensAttempt, Traded;
    var n := |w.venue.trades|;
    assert w.venue.trades == w'.venue.trades[..n];
    TradedPrefix(w'.venue.trades, n);
  }

  /** Between the decision and the submission nothing changes about the attempts. */
  lemma {:induction false} DecisionStands(cfg: Config, run: Run, later: Run, k: nat)
    requires IsRun(cfg, run) && AtDecision(cfg, Last(run)) && FurtherAttempt(cfg, run, later)
    requires |run.events| < k < |later.events|
    ensures
      var (a, b) := (Last(run), later.worlds[k]);
      && b.rec.aggressive == a.rec.aggressive && b.rec.attemptOpen == OpensAttempt(cfg, a.rec, a.now)
      && !b.rec.call.AwaitingSubmit?
      && Traded(a.venue.trades) <= Traded(b.venue.trades)
  {
    hide Inv, Step, OpensAttempt, ChildrenMoved, ParentMoved, ChildrenAdvanced, Traded;
    var n := |run.events|;
    assert later.worlds[n] == Last(run);
    RunsAreSafe(cfg, later, k - 1);
    assert StepAt(cfg, later, k - 1);
    StepKeepsInv(cfg, later.worlds[k - 1], later.events[k - 1], later.worlds[k]);
    StepKeepsTrades(cfg, later.worlds[k - 1], later.events[k - 1], later.worlds[k]);
    if k > n + 1 {
      DecisionStands(cfg, run, later, k - 1);
      assert Between(later, k - 1);
      SubmitEndsAwaited(cfg, later.worlds[k - 1], later.events[k - 1], later.worlds[k]);
    }
  }

  lemma SubmitEndsAwaited(cfg: Config, w: World, e: Event, w': World)
    requires cfg.Valid() && Step(cfg, w, e, w')
    ensures e.SubmitEnds? ==> w.rec.call.AwaitingSubmit?
  {
    hide EndSubmit;
  }

  /** A further attempt can only follow a decision that opened it, with the target not yet traded. */
  lemma FurtherAttemptNeedsOpening(cfg: Config, run: Run, later: Run)
    requires IsRun(cfg, run) && AtDecision(cfg, Last(run)) && FurtherAttempt(cfg, run, later)
    ensures OpensAttempt(cfg, Last(run).rec, Last(run).now) && Traded(Last(run).venue.trades) < cfg.required
    ensures |Last(later).rec.aggressive| == |Last(run).rec.aggressive| + 1
  {
    hide Inv, Step, OpensAttempt, IsRun, Traded, Between, Exposure.Reserved;
    var k := |later.events| - 1;
    DecisionStands(cfg, run, later, k);
    LastStep(cfg, later, k);
    var w := later.worlds[k];
    RunsAreSafe(cfg, later, k) by { IsRunLength(cfg, later); }
    var e := later.events[k];
    SubmissionMeans(cfg, w, e.quantity, e.price, e.bid, e.ask, Last(later));
    UnreservedMeansQuiet(cfg, w);
    FreshId(cfg, w);
  }

  lemma LastStep(cfg: Config, run: Run, k: nat)
    requires IsRun(cfg, run) && k + 1 == |run.events|
    ensures cfg.Valid() && k + 1 < |run.worlds| && Last(run) == run.worlds[k + 1]
    ensures Step(cfg, run.worlds[k], run.events[k], Last(run))
  {
    hide Step;
    assert StepAt(cfg, run, k);
  }

  lemma SubmissionMeans(cfg: Config, w: World, quantity: nat, price: int, bid: int, ask: int, w': World)
    requires cfg.Valid() && cfg.algorithm == Twap && w.rec.aggressive != {}
    requires Step(cfg, w, SubmitBegins(quantity, price, false, bid, ask), w')
    ensures w.rec.attemptOpen && w.rec.exposure.Reserved() == 0 && w.rec.exposure.confirmed < cfg.required
    ensures w'.rec.aggressive == w.rec.aggressive + {w.rec.lastSequence + 1}
  {
    hide SnappedSchedule, Exposure.Reserved;
  }

  // ---- and then indeed ----

  /** Past the deadline the whole target is scheduled. */
  lemma AllScheduled(cfg: Config, now: real)
    requires cfg.Valid() && cfg.DeadlineReached(now)
    ensures CapOk(cfg, cfg.required, now)
  {
    hide SnappedSchedule;
    ScheduleIsStepFunction(cfg.required, now - cfg.started, cfg.duration, cfg.slices);
    QuotientTimes(cfg.required as real, cfg.slices as real);
  }

  /** After the exchange has called everything off and was looked up, nothing is reserved. */
  lemma LookedUpLeavesNothing(cfg: Config, w: World, w': World)
    requires Inv(cfg, w) && w.rec.call == Idle && PendingOk(w.rec)
    requires w.venue.inflight == map[] && forall id :: id in w.venue.orders ==> !w.venue.orders[id].Live()
    requires w' == w.(rec := RefreshReserved(LookedUp(w.rec, AnswersFor(w.venue, w.rec.children))))
    ensures Step(cfg, w, Refreshes(AnswersFor(w.venue, w.rec.children)), w')
    ensures w'.rec.exposure.Reserved() == 0
    ensures LifeKept(w.rec, w'.rec)
  {
    hide Inv, Tied, AnswerFor, AnsweredOk, AnswersOk, NoHalt, PendingOk, Recomputed, LookupFrom, LookedUp, Exposure.Reserved, ChildrenAdvanced;
    var r, v := w.rec, w.venue;
    var answers := AnswersFor(v, r.children);
    assert answers[..|r.children|] == answers;
    InvVenue(cfg, w);
    AnswersAreTrue(r, v, |r.children|);
    AllAnsweredOk(v, r.children, answers);
    RefreshRuns(r, answers);
    LookupsInform(r, v, answers, 0) by { AllAnswersOk(v, r.children, answers); }
    forall i: nat | i < |r.children| ensures r.children[i].status != PendingSubmit { OthersNotPending(r, i); }
    RefreshFinishesAll(r, v, |r.children|);
    RefreshKeepsInv(cfg, w, w', answers);
    NothingLeft(cfg, w');
  }

  lemma NothingLeft(cfg: Config, w: World)
    requires Inv(cfg, w)
    requires forall i: nat :: i < |w.rec.children| ==> w.rec.children[i].status.IsTerminal()
    ensures w.rec.exposure.Reserved() == 0
  {
    hide Inv, BucketsOk, Exposure.Reserved;
    InvBuckets(cfg, w);
    BucketsAddUp(w.rec.children, w.rec.exposure);
    SumZero(w.rec.children, ReservedOf);
  }

  /** The call that makes a further attempt: the decision, the exchange calling everything off, the
      second look, and the submission of what is missing. The passive child has nothing left to fill,
      so the call asks for no cancellation on the way. */
  lemma OpeningIsTaken(cfg: Config, run: Run) returns (later: Run)
    requires IsRun(cfg, run) && AtDecision(cfg, Last(run))
    requires OpensAttempt(cfg, Last(run).rec, Last(run).now) && Traded(Last(run).venue.trades) < cfg.required
    ensures FurtherAttempt(cfg, run, later)
  {
    hide Inv, IsRun, Step, Traded, PendingOk, Exposure.Reserved, PassiveShown, Recomputed, LookedUp;
    RunStarted(cfg, run);
    var w0 := Last(run);
    var w1 := w0.(rec := Decide(cfg, w0.rec, w0.now));
    DecisionIsStep(cfg, w0);
    RunExtends(cfg, run, Decides, w1);
    var run1 := Extended(run, Decides, w1);
    CurrentlySafe(cfg, run1);
    InvVenue(cfg, w1);
    CallingOffEvolves(w1.venue);
    var w2 := w1.(venue := CalledOff(w1.venue));
    VenueIsStep(cfg, w1, w2.venue);
    RunExtends(cfg, run1, VenueMoves, w2);
    var run2 := Extended(run1, VenueMoves, w2);
    CurrentlySafe(cfg, run2);
    var answers := AnswersFor(w2.venue, w2.rec.children);
    var w3 := w2.(rec := RefreshReserved(LookedUp(w2.rec, answers)));
    LookedUpLeavesNothing(cfg, w2, w3);
    RunExtends(cfg, run2, Refreshes(answers), w3);
    var run3 := Extended(run2, Refreshes(answers), w3);
    CurrentlySafe(cfg, run3);
    UnreservedMeansQuiet(cfg, w3);
    var missing := cfg.required - w3.rec.exposure.confirmed;
    var w4 := World(BeginSubmit(w3.rec, w3.now, missing, 0, false, 0, 0), Sent(w3.venue, w3.rec.lastSequence + 1, missing), w3.now);
    MissingMaySubmit(cfg, w0.rec, w3, missing);
    RunExtends(cfg, run3, SubmitBegins(missing, 0, false, 0, 0), w4);
    later := Extended(run3, SubmitBegins(missing, 0, false, 0, 0), w4);
    FourEvents(run, later, w1, w2, w3, w4, answers, missing);
  }

  lemma FourEvents(run: Run, later: Run, w1: World, w2: World, w3: World, w4: World, answers: seq<Lookup>, missing: nat)
    requires later.worlds == run.worlds + [w1] + [w2] + [w3] + [w4]
    requires later.events == run.events + [Decides] + [VenueMoves] + [Refreshes(answers)] + [SubmitBegins(missing, 0, false, 0, 0)]
    ensures run.worlds <= later.worlds && run.events <= later.events
    ensures |later.events| == |run.events| + 4 && later.events[|run.events|].Decides?
    ensures forall k: nat :: |run.events| < k < |later.events| - 1 ==> Between(later, k)
    ensures later.events[|later.events| - 1] == SubmitBegins(missing, 0, false, 0, 0)
  {}

  lemma CurrentlySafe(cfg: Config, run: Run)
    requires IsRun(cfg, run)
    ensures run.worlds != [] && Inv(cfg, Last(run)) && PendingOk(Last(run).rec)
  {
    hide Inv, PendingOk, StepAt;
    RunsAreSafe(cfg, run, |run.worlds| - 1);
    PendingIsAwaited(cfg, run, |run.worlds| - 1);
  }

  lemma DecisionIsStep(cfg: Config, w: World)
    requires cfg.Valid() && w.rec.call == Idle && OpensAttempt(cfg, w.rec, w.now)
    ensures Step(cfg, w, Decides, w.(rec := Decide(cfg, w.rec, w.now)))
  {}

  lemma VenueIsStep(cfg: Config, w: World, v: VenueState)
    requires cfg.Valid() && Evolves(w.venue, v)
    ensures Step(cfg, w, VenueMoves, w.(venue := v))
  {
    hide Evolves;
  }

  lemma MissingMaySubmit(cfg: Config, before: Record, w: World, missing: nat)
    requires cfg.Valid() && cfg.UseAggressivePrice(w.now)
    requires w.rec.call == Idle && w.rec.status in {Running, Failed} && !w.rec.cancelRequested && w.rec.attemptOpen
    requires w.rec.exposure.Reserved() == 0 && missing == cfg.required - w.rec.exposure.confirmed > 0
    ensures Step(cfg, w, SubmitBegins(missing, 0, false, 0, 0),
                 World(BeginSubmit(w.rec, w.now, missing, 0, false, 0, 0), Sent(w.venue, w.rec.lastSequence + 1, missing), w.now))
  {
    hide CapOk, Exposure.Reserved;
    AllScheduled(cfg, w.now);
  }

  /** After the first look of run_once a TWAP execution with an aggressive attempt on record can
      make another one in the same call exactly when that attempt seems outstanding, a passive
      child still shows as open, and the exchange has not traded the whole target. */
  lemma FurtherAttemptIff(cfg: Config, run: Run)
    requires IsRun(cfg, run) && AtDecision(cfg, Last(run))
    ensures
      var w := Last(run);
      (exists later :: FurtherAttempt(cfg, run, later)) <==>
      OpensAttempt(cfg, w.rec, w.now) && Traded(w.venue.trades) < cfg.required
  {
    hide IsRun, AtDecision, FurtherAttempt, OpensAttempt, Traded;
    RunStarted(cfg, run);
    if later :| FurtherAttempt(cfg, run, later) {
      FurtherAttemptNeedsOpening(cfg, run, later);
    } else if OpensAttempt(cfg, Last(run).rec, Last(run).now) && Traded(Last(run).venue.trades) < cfg.required {
      var later := OpeningIsTaken(cfg, run);
    }
  }
}
