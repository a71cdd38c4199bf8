/** Where the engine relies on its venue: for each such place the exact condition under which the
    books or the view of the venue stay right, and a concrete case in which they do not. */
module Limits {
  import opened Models
  import opened StateMachine
  import opened Sorting
  import opened Records
  import opened FillLedger
  import opened Venues
  import opened Coupling
  import opened Evidence
  import opened Invariant
  import opened Protocol
  import opened Steps
  import opened Deliveries
  import opened Runs
  import opened Attempts
  import opened Lookups
  import opened Scenarios
  import Idempotence
  import Simulators

  // ---- the not-found warning ----

  /** An order no row speaks of keeps its unknown status until the warning rejects it. */
  lemma UnlistedIsRejected(r: Record, v: VenueState, result: ReconciliationResult, i: nat)
    requires Tied(r, v) && Traced(r.children, v) && ResultOk(v, result)
    requires i < |r.children| && r.children[i].status == Unknown && r.children[i].id !in ClientsOfOrders(result.orders)
    requires result.notFound
    ensures
      var r' := ApplyResult(r, result);
      i < |r'.children| && r'.children[i].id == r.children[i].id && r'.children[i].status == Rejected
  {
    hide Tied, Traced, ResultOk, ApplyFills, ApplyRows, AdoptRows, ChildrenAdvanced, RejectMissingFrom;
    EvidenceInforms(r, v, result);
    var sorted := Sort(result.fills, FillLe);
    var filled := ApplyFills(r, result.orders, sorted);
    FillsKeepStatuses(r, result.orders, sorted);
    assert GrewAt(r.children, filled.children, i);
    assert !HasId(result.orders, r.children[i].id);
    OthersRowsLeaveAlone(filled, result.orders, i);
    Idempotence.RejectMissingShape(ApplyEvidence(r, result), ClientsOfOrders(result.orders), 0);
  }

  /** A delivered result keeps the record a view of the venue exactly when its warning may be
      believed: no unlisted unknown child has an order or a request on its way. */
  lemma DeliveryKeepsViewIff(r: Record, v: VenueState, result: ReconciliationResult)
    requires Tied(r, v) && Traced(r.children, v) && ResultOk(v, result)
    ensures Tied(ApplyResult(r, result), v) <==> WarningOk(v, r.children, result)
  {
    hide LedgerView, VenueOk, ApplyEvidence, ApplyWarning, Traced, ResultOk, ChildrenAdvanced, Absent, Coupled, Recomputed, ClientsOfOrders;
    if WarningOk(v, r.children, result) {
      DeliveryInforms(r, v, result);
      TiedFrame(ApplyWarning(ApplyEvidence(r, result), result), ApplyResult(r, result), v);
    } else {
      var i :| 0 <= i < |r.children| && r.children[i].status == Unknown
               && r.children[i].id !in ClientsOfOrders(result.orders) && !Absent(v, r.children[i].id);
      UnlistedIsRejected(r, v, result, i);
      var r' := ApplyResult(r, result);
      if Coupled(r'.children, v) {
        CoupledChild(r'.children, v, i);
      }
    }
  }

  /** A result fetched before order 1 existed, delivered after it went live. */
  lemma StaleWarningLosesALiveOrder() returns (w: World)
    ensures Reachable(CHASE_RUN, w) && w.rec.call == Idle
    ensures
      var stale := ReconciliationResult([], [], true);
      && ResultOk(w.venue, stale) && TotalExposure(w.venue.orders) == 10 && w.rec.exposure == Exposure(0, 0, 0, 0, 10)
      && ApplyResult(w.rec, stale).exposure == Exposure(0, 0, 0, 0, 0)
  {
    hide Reachable;
    w := AnswerLost();
    LiveExposure();
    WarningRejects(w.rec);
  }

  lemma LiveExposure()
    ensures TotalExposure(LIVE.orders) == 10
  {
    TotalExposureWithout(LIVE.orders, 1);
    assert LIVE.orders - {1} == map[];
  }

  lemma WarningRejects(r: Record)
    requires r.children == [ChildOrder(1, 10, 100, Unknown, 0)] && r.exposure == Exposure(0, 0, 0, 0, 10)
    ensures ApplyResult(r, ReconciliationResult([], [], true)).exposure == Exposure(0, 0, 0, 0, 0)
  {
    hide Recomputed;
    var stale := ReconciliationResult([], [], true);
    assert Sort(stale.fills, FillLe) == [] && ApplyEvidence(r, stale) == r && ClientsOfOrders([]) == {};
    Idempotence.RejectMissingShape(r, {}, 0);
    assert RejectMissingFrom(r, {}, 0).children == [ChildOrder(1, 10, 100, Rejected, 0)];
    OneReserved(ChildOrder(1, 10, 100, Rejected, 0), 0);
  }

  // ---- lookups that find nothing ----

  /** A lookup that does not find an unknown order keeps the record a view of the venue exactly when
      the venue neither has the order nor will have it. */
  lemma NotFoundKeepsViewIff(r: Record, v: VenueState, i: nat)
    requires Tied(r, v) && i < |r.children| && r.children[i].status == Unknown
    ensures Tied(LookupOne(r, i, NotFound), v) <==> Absent(v, r.children[i].id)
  {
    hide LedgerView, VenueOk, Coupled, Absent, ChildrenAdvanced;
    var r' := LookupOne(r, i, NotFound);
    if Absent(v, r.children[i].id) {
      RejectionInforms(r, v, i);
    }
    if Tied(r', v) {
      CoupledChild(r'.children, v, i);
    }
  }

  // ---- answers to cancellations ----

  /** The bucket of a cancelled child stays right exactly when the answer is one of the four
      statuses the engine handles, or brings no new fill. */
  lemma CancelAnswerKeepsBucketsIff(cfg: Config, w: World, status: ChildStatus, filled: nat)
    requires Inv(cfg, w) && w.rec.call.AwaitingCancel? && w.rec.call.index < |w.rec.children|
    ensures
      var r' := EndCancel(w.rec, w.now, CancelAnswered(status, filled));
      BucketsOk(r'.children, r'.exposure) <==>
      status in {Open, PartiallyFilled, ChildCancelled, Filled} || filled <= w.rec.children[w.rec.call.index].confirmed
  {
    hide Inv, BucketsOk, EndCancel;
    CancellingChild(cfg, w);
    InvBuckets(cfg, w);
    var r, i := w.rec, w.rec.call.index;
    var c := r.children[i];
    if status in {Open, PartiallyFilled, ChildCancelled, Filled} {
      CancelAnsweredShape(r, w.now, status, filled);
      var c' := c.(status := status, confirmed := Max(c.confirmed, filled));
      RebalancedBuckets(r.children, r.exposure, i, c', EndCancel(r, w.now, CancelAnswered(status, filled)).exposure);
    } else {
      OddAnswerShape(r, w.now, status, filled);
      var c' := c.(confirmed := Max(c.confirmed, filled));
      var e' := EndCancel(r, w.now, CancelAnswered(status, filled)).exposure;
      OddAnswerBuckets(r.children, r.exposure, i, c', e');
    }
  }

  lemma OddAnswerShape(r: Record, now: real, status: ChildStatus, filled: nat)
    requires r.call.AwaitingCancel? && r.call.index < |r.children|
    requires r.children[r.call.index].status == PendingCancel
    requires status in {PendingSubmit, PendingCancel, Rejected, Unknown}
    ensures
      var i := r.call.index;
      var c' := r.children[i].(confirmed := Max(r.children[i].confirmed, filled));
      var r' := EndCancel(r, now, CancelAnswered(status, filled));
      && r'.children == r.children[i := c']
      && r'.exposure == r.exposure.(confirmed := r.exposure.confirmed + c'.confirmed - r.children[i].confirmed)
  {
    hide TakeReport, UpdateFill;
    Idempotence.ReportShape(r.(call := Idle), r.call.index, status, filled);
    SnapshotIsReport(r.(call := Idle), r.call.index, status, filled);
  }

  lemma OddAnswerBuckets(children: seq<ChildOrder>, e: Exposure, i: nat, c: ChildOrder, e': Exposure)
    requires BucketsOk(children, e) && i < |children| && children[i].status == PendingCancel
    requires children[i].Remaining() > 0 && c == children[i].(confirmed := c.confirmed) && c.confirmed >= children[i].confirmed
    requires e' == e.(confirmed := e'.confirmed)
    ensures BucketsOk(children[i := c], e') <==> c.confirmed == children[i].confirmed
  {
    hide Sum;
    BucketsReplace(children, e, i, c);
    BucketsIgnoreConfirmed(children[i := c], e.confirmed, e'.confirmed);
  }

  /** A PENDING_CANCEL answer that brings a fill of 4 for an order of 10: the fill is counted
      twice, and the exposure check against a target of 10 fails. */
  lemma PendingCancelAnswerCountsAFillTwice() returns (w: World)
    ensures Reachable(CHASE_RUN, w) && w.rec.call.AwaitingCancel? && w.rec.call.index < |w.rec.children|
    ensures w.venue.orders == map[1 := Order(10, 4, false)] && CHASE_RUN.required == 10
    ensures
      var r' := EndCancel(w.rec, w.now, CancelAnswered(PendingCancel, 4));
      r'.exposure.confirmed == 4 && r'.exposure.Reserved() == 10
  {
    hide Reachable, EndCancel, Evolves;
    w := CancelSent();
    LiveOrderFills();
    w := VenueReaches(CHASE_RUN, w, PARTLY_FILLED);
    OddAnswerShape(w.rec, w.now, PendingCancel, 4);
  }

  // ---- answers to create requests ----

  /** The buckets stay right after a create response exactly when it does not leave the child
      pending, or the order is filled already. */
  lemma CreateAnswerKeepsBucketsIff(cfg: Config, w: World, status: ChildStatus, filled: nat)
    requires Inv(cfg, w) && w.rec.call.AwaitingSubmit? && w.rec.children != []
    ensures
      var r' := EndSubmit(cfg, w.rec, w.now, Accepted(status, filled));
      BucketsOk(r'.children, r'.exposure) <==>
      status !in {PendingSubmit, PendingCancel} || filled >= w.rec.children[|w.rec.children| - 1].submitted
  {
    hide Inv, BucketsOk, EndSubmit;
    LastPending(cfg, w);
    InvBuckets(cfg, w);
    var r, n := w.rec, |w.rec.children| - 1;
    var c := r.children[n];
    var c' := c.(status := SetChildStatus(c.status, status), confirmed := Max(c.confirmed, filled));
    CreateAnswerShape(cfg, r, w.now, status, filled);
    CreateAnswerBuckets(r.children, r.exposure, c', EndSubmit(cfg, r, w.now, Accepted(status, filled)).exposure);
  }

  lemma CreateAnswerShape(cfg: Config, r: Record, now: real, status: ChildStatus, filled: nat)
    requires r.call.AwaitingSubmit? && r.children != []
    requires r.children[|r.children| - 1].status == PendingSubmit
    ensures
      var n := |r.children| - 1;
      var c := r.children[n];
      var c' := c.(status := SetChildStatus(c.status, status), confirmed := Max(c.confirmed, filled));
      var r' := EndSubmit(cfg, r, now, Accepted(status, filled));
      && r'.children == r.children[n := c']
      && r'.exposure == Exposure(r.exposure.confirmed + c'.confirmed - c.confirmed, r.exposure.liveOpen + LiveOf(c'),
                                 FloorZero(r.exposure.pendingSubmit, c.submitted), r.exposure.pendingCancel,
                                 r.exposure.unknown + UnknownOf(c'))
  {
    hide TakeReport, UpdateFill;
    var n := |r.children| - 1;
    var released := ReleasePendingSubmit(r.(call := Idle), r.children[n].submitted);
    Idempotence.ReportShape(released, n, status, filled);
    SnapshotIsReport(released, n, status, filled);
  }

  lemma CreateAnswerBuckets(children: seq<ChildOrder>, e: Exposure, c: ChildOrder, e': Exposure)
    requires BucketsOk(children, e) && children != []
    requires children[|children| - 1].status == PendingSubmit && children[|children| - 1].confirmed == 0
    requires c.submitted == children[|children| - 1].submitted && c.status != PendingCancel
    requires e' == Exposure(e'.confirmed, e.liveOpen + LiveOf(c),
                            FloorZero(e.pendingSubmit, children[|children| - 1].submitted),
                            e.pendingCancel, e.unknown + UnknownOf(c))
    ensures BucketsOk(children[|children| - 1 := c], e') <==> PendingSubmitOf(c) == 0
  {
    hide Sum;
    BucketsReplace(children, e, |children| - 1, c);
    BucketsIgnoreConfirmed(children[|children| - 1 := c], e.confirmed, e'.confirmed);
  }

  // ---- create requests that end in an error ----

  /** When a create request ends without an acceptance or a timeout, the engine either takes the
      child back or marks it rejected. The invariant survives exactly when the exchange has no such
      order and will not have one. */
  lemma CreateErrorKeepsInvIff(cfg: Config, w: World, outcome: SubmitOutcome)
    requires Inv(cfg, w) && w.rec.call.AwaitingSubmit? && w.rec.children != []
    requires !outcome.Accepted? && !outcome.CreateTimeout?
    ensures
      Inv(cfg, w.(rec := EndSubmit(cfg, w.rec, w.now, outcome)))
      <==> Absent(w.venue, w.rec.children[|w.rec.children| - 1].id)
  {
    hide Inv, EndSubmit, Absent;
    var w' := w.(rec := EndSubmit(cfg, w.rec, w.now, outcome));
    if Absent(w.venue, w.rec.children[|w.rec.children| - 1].id) {
      ErrorIsStep(cfg, w, outcome);
      SubmitEndKeepsInv(cfg, w, w', outcome);
    }
    if Inv(cfg, w') {
      InvVenue(cfg, w');
      InvBuckets(cfg, w);
      LedgerIds(w.rec);
      LastPending(cfg, w);
      if outcome in {SubmitLimited, SubmitNoData, SubmitRaised} {
        TakenBackIsAbsent(cfg, w, outcome);
      } else {
        RefusedIsAbsent(cfg, w, outcome);
      }
    }
  }

  lemma ErrorIsStep(cfg: Config, w: World, outcome: SubmitOutcome)
    requires Inv(cfg, w) && w.rec.call.AwaitingSubmit? && w.rec.children != []
    requires !outcome.Accepted? && !outcome.CreateTimeout?
    requires Absent(w.venue, w.rec.children[|w.rec.children| - 1].id)
    ensures Step(cfg, w, SubmitEnds(outcome), w.(rec := EndSubmit(cfg, w.rec, w.now, outcome)))
  {
    hide BooksOk, Tied, Traced, CapOk, SingleOk, LifeOk, EndSubmit, Absent;
  }

  lemma TakenBackIsAbsent(cfg: Config, w: World, outcome: SubmitOutcome)
    requires w.rec.call.AwaitingSubmit? && w.rec.children != [] && DistinctIds(w.rec.children)
    requires outcome in {SubmitLimited, SubmitNoData, SubmitRaised}
    requires Traced(EndSubmit(cfg, w.rec, w.now, outcome).children, w.venue)
    ensures Absent(w.venue, w.rec.children[|w.rec.children| - 1].id)
  {
    var n := |w.rec.children| - 1;
    assert EndSubmit(cfg, w.rec, w.now, outcome).children == w.rec.children[..n];
    forall i | 0 <= i < n ensures w.rec.children[..n][i].id != w.rec.children[n].id {
      assert IdsDiffer(w.rec.children, i, n);
    }
    assert !HasId(w.rec.children[..n], w.rec.children[n].id);
  }

  lemma RefusedIsAbsent(cfg: Config, w: World, outcome: SubmitOutcome)
    requires w.rec.call.AwaitingSubmit? && w.rec.children != []
    requires w.rec.children[|w.rec.children| - 1].status == PendingSubmit
    requires outcome in {SubmitBanned, OrderRejected, TerminalOrderRejected}
    requires Tied(EndSubmit(cfg, w.rec, w.now, outcome), w.venue)
    ensures Absent(w.venue, w.rec.children[|w.rec.children| - 1].id)
  {
    hide LedgerView, VenueOk, Coupled;
    var n := |w.rec.children| - 1;
    var r' := EndSubmit(cfg, w.rec, w.now, outcome);
    assert r'.children == w.rec.children[n := w.rec.children[n].(status := Rejected)];
    CoupledChild(r'.children, w.venue, n);
  }

  /** A rate limit reported for a request that did become an order of 10: the child is taken back
      while the order lives, nothing is reserved, and the whole target may be asked for again. */
  lemma RateLimitLosesALiveOrder() returns (w: World)
    ensures Reachable(CHASE_RUN, w) && w.rec.call.AwaitingSubmit? && w.rec.children != []
    ensures
      var r' := EndSubmit(CHASE_RUN, w.rec, w.now, SubmitLimited);
      && TotalExposure(w.venue.orders) == 10 && r'.children == [] && r'.exposure == Exposure(0, 0, 0, 0, 0)
      && MaySubmit(CHASE_RUN, r', w.now + 1.0, 10, 100, true, 99, 101)
  {
    hide Reachable;
    w := OrderLive();
    assert w.rec.children == [ChildOrder(1, 10, 100, PendingSubmit, 0)];
    LiveExposure();
  }

  // ---- refreshes that are cut short ----

  /** Past the deadline of a TWAP execution a passive order is filled but not yet known to be
      finished, and the aggressive attempt was cancelled unfilled at the venue. A rate limit cuts
      the first look short, so the attempt still seems outstanding and the deadline decision passes
      it by; the second look of the same call then finds nothing reserved, and a second aggressive
      child is submitted. */
  lemma CutRefreshAllowsASecondAttempt() returns (run: Run)
    ensures IsRun(TWAP_RUN, run) && |Last(run).rec.aggressive| == 2
  {
    hide IsRun, AtDecision, FurtherAttempt, OpensAttempt;
    var w := SecondCall();
    var before :| Reaches(TWAP_RUN, before, w);
    run := OpeningIsTaken(TWAP_RUN, before);
    FurtherAttemptNeedsOpening(TWAP_RUN, before, run);
    IsFurther(TWAP_RUN, before, run);
  }

  lemma IsFurther(cfg: Config, run: Run, later: Run)
    requires FurtherAttempt(cfg, run, later)
    ensures IsRun(cfg, later)
  {}

  // ---- a fill that comes in while a chase is up for repricing ----

  const ALL_FILLED := VenueState(map[1 := Order(10, 10, false)], map[], [Trade(1, 10, 10, 100, 0, None)])

  lemma OrderFillsUp()
    ensures Evolves(LIVE, ALL_FILLED)
  {
    assert VenueOk(LIVE);
    Simulators.FillIsEvolution(LIVE, 1, Trade(1, 10, 10, 100, 0, None));
    assert LIVE.(orders := LIVE.orders[1 := LIVE.orders[1].(filled := 10)], trades := LIVE.trades + [Trade(1, 10, 10, 100, 0, None)])
           == ALL_FILLED;
  }

  lemma LooksOnce(w: World, status: ChildStatus, filled: nat) returns (w': World)
    requires w.rec.children == [ChildOrder(1, 10, 100, Open, 0)] && w.rec.exposure.confirmed == 0 && w.rec.call == Idle
    requires w.rec.rejects == [] && ((filled == 0 && status == Open) || (filled == 10 && status == Filled))
    requires 1 in w.venue.orders && ReportOk(w.venue.orders[1], status, filled)
    ensures Step(CHASE_RUN, w, Refreshes([Found(status, filled)]), w')
    ensures w'.rec.children == [ChildOrder(1, 10, 100, status, filled)] && w'.rec.exposure.confirmed == filled
    ensures w'.rec.call == Idle && w'.rec.status == w.rec.status && w'.rec.rejects == []
    ensures w'.venue == w.venue && w'.now == w.now
  {
    hide Recomputed;
    var answers := [Found(status, filled)];
    forall j: nat | j < 1 ensures AnswerOkAt(w.venue, w.rec.children, answers, j) {}
    Idempotence.ReportShape(w.rec, 0, status, filled);
    var r := TakeReport(w.rec, 0, status, filled);
    assert r.children == [ChildOrder(1, 10, 100, status, filled)];
    assert LookupFrom(w.rec, answers, 0) == (r, Ran);
    OneReserved(r.children[0], r.exposure.confirmed);
    w' := w.(rec := RefreshReserved(r));
  }

  /** The first look of a call finds a CHASE order open. While the engine asks whether to reprice it
      the order fills, the quote turns out stale, and the look that follows learns of the fill: the
      call ends there, RUNNING with its target filled. */
  lemma RepriceMayEndFilled() returns (run: Run)
    ensures IsRun(CHASE_RUN, run) && |run.events| >= 3
    ensures run.events[|run.events| - 3..] == [Refreshes([Found(Open, 0)]), VenueMoves, Refreshes([Found(Filled, 10)])]
    ensures Last(run).rec.status == Running && Last(run).rec.call == Idle && Last(run).rec.exposure.confirmed == CHASE_RUN.required
  {
    hide Step, StepAt, Evolves, ReportOk;
    var w := OrderLive();
    assert w.rec.children == [ChildOrder(1, 10, 100, PendingSubmit, 0)];
    w := OpenReaches(CHASE_RUN, w);
    assert w.rec.children == [ChildOrder(1, 10, 100, Open, 0)];
    run :| Reaches(CHASE_RUN, run, w);
    FilledReport();
    var w1 := LooksOnce(w, Open, 0);
    RunExtends(CHASE_RUN, run, Refreshes([Found(Open, 0)]), w1);
    run := Extended(run, Refreshes([Found(Open, 0)]), w1);
    OrderFillsUp();
    var w2 := w1.(venue := ALL_FILLED);
    assert Step(CHASE_RUN, w1, VenueMoves, w2) by { VenueIsStep(CHASE_RUN, w1, ALL_FILLED); }
    RunExtends(CHASE_RUN, run, VenueMoves, w2);
    run := Extended(run, VenueMoves, w2);
    var w3 := LooksOnce(w2, Filled, 10);
    RunExtends(CHASE_RUN, run, Refreshes([Found(Filled, 10)]), w3);
    run := Extended(run, Refreshes([Found(Filled, 10)]), w3);
  }

  lemma FilledReport()
    ensures ReportOk(Order(10, 0, false), Open, 0) && ReportOk(Order(10, 10, false), Filled, 10)
  {}
}
