/** Short runs to particular states, for the cases in which the engine's reliance on its venue
    matters. */
module Scenarios {
  import opened Models
  import opened StateMachine
  import opened Sorting
  import opened Intervals
  import opened Records
  import opened FillLedger
  import opened Venues
  import opened Coupling
  import opened Evidence
  import opened Schedule
  import opened Invariant
  import opened Protocol
  import opened Steps
  import opened Adapters
  import opened Runs
  import opened Attempts
  import Simulators

  const CHASE_RUN := Config(Buy, Chase, CancelRemainder, 10, 0.0, 10.0, 2, 3, 1000.0)

  const TWAP_RUN := Config(Buy, Twap, AggressiveWithinRange, 10, 0.0, 10.0, 2, 3, 1000.0)

  lemma OneReserved(c: ChildOrder, confirmed: nat)
    ensures Recomputed([c], confirmed) == Exposure(confirmed, LiveOf(c), PendingSubmitOf(c), PendingCancelOf(c), UnknownOf(c))
  {
    hide Sum;
    SumOfOne(c, LiveOf);
    SumOfOne(c, PendingSubmitOf);
    SumOfOne(c, PendingCancelOf);
    SumOfOne(c, UnknownOf);
  }

  lemma SumOfOne(c: ChildOrder, f: ChildOrder -> int)
    ensures Sum([c], f) == f(c)
  {
    assert [] + [c] == [c];
    SumAppend([], c, f);
  }

  lemma VenueReaches(cfg: Config, w: World, v: VenueState) returns (w': World)
    requires Reachable(cfg, w) && Evolves(w.venue, v)
    ensures Reachable(cfg, w') && w' == w.(venue := v)
  {
    hide Reachable, Inv, Evolves;
    ReachableIsSafe(cfg, w);
    VenueIsStep(cfg, w, v);
    w' := w.(venue := v);
    StepReaches(cfg, w, VenueMoves, w');
  }

  lemma ClockReaches(cfg: Config, w: World, now: real) returns (w': World)
    requires Reachable(cfg, w) && w.now <= now
    ensures Reachable(cfg, w') && w' == w.(now := now)
  {
    hide Reachable, Inv;
    ReachableIsSafe(cfg, w);
    w' := w.(now := now);
    StepReaches(cfg, w, ClockTicks, w');
  }

  /** The exchange answers a create request with an open order. */
  lemma OpenReaches(cfg: Config, w: World) returns (w': World)
    requires Reachable(cfg, w) && w.rec.call.AwaitingSubmit? && w.rec.children != []
    requires
      var c := w.rec.children[|w.rec.children| - 1];
      c.status == PendingSubmit && c.confirmed == 0 && c.id in w.venue.orders
      && w.venue.orders[c.id] == Order(c.submitted, 0, false) && c.submitted > 0
    ensures Reachable(cfg, w')
    ensures
      var n := |w.rec.children| - 1;
      var c := w.rec.children[n];
      w' == w.(rec := w.rec.(children := w.rec.children[n := c.(status := Open)], call := Idle, rejects := [],
                             exposure := w.rec.exposure.(liveOpen := w.rec.exposure.liveOpen + c.submitted,
                                                         pendingSubmit := FloorZero(w.rec.exposure.pendingSubmit, c.submitted))))
  {
    hide Reachable, Inv, EndSubmit;
    ReachableIsSafe(cfg, w);
    AcceptedShape(cfg, w.rec, w.now, Open, 0);
    w' := w.(rec := EndSubmit(cfg, w.rec, w.now, Accepted(Open, 0)));
    StepReaches(cfg, w, SubmitEnds(Accepted(Open, 0)), w');
  }

  // ---- a chase that asks for its whole target ----

  const LIVE := VenueState(map[1 := Order(10, 0, false)], map[], [])

  /** Order 1 is live, and its request not yet answered. */
  lemma OrderLive() returns (w: World)
    ensures Reachable(CHASE_RUN, w)
    ensures w == World(BeginSubmit(InitialRecord(), 0.0, 10, 100, true, 99, 101), LIVE, 0.0)
  {
    hide Reachable, Evolves;
    InitiallyReachable(CHASE_RUN);
    w := World(BeginSubmit(InitialRecord(), 0.0, 10, 100, true, 99, 101), Sent(EmptyVenue(), 1, 10), 0.0);
    StepReaches(CHASE_RUN, World(InitialRecord(), EmptyVenue(), 0.0), SubmitBegins(10, 100, true, 99, 101), w);
    Simulators.ArrivalIsEvolution(EmptyVenue(), 1, 10);
    w := VenueReaches(CHASE_RUN, w, LIVE);
  }

  /** Order 1 is live, but its request timed out. */
  lemma AnswerLost() returns (w: World)
    ensures Reachable(CHASE_RUN, w)
    ensures w.rec.children == [ChildOrder(1, 10, 100, Unknown, 0)] && w.rec.exposure == Exposure(0, 0, 0, 0, 10)
    ensures w.rec.call == Idle && w.rec.seen == {} && w.venue == LIVE && w.now == 0.0
  {
    hide Reachable;
    w := OrderLive();
    assert w.rec.children == [ChildOrder(1, 10, 100, PendingSubmit, 0)];
    var r := EndSubmit(CHASE_RUN, w.rec, 0.0, CreateTimeout);
    StepReaches(CHASE_RUN, w, SubmitEnds(CreateTimeout), w.(rec := r));
    assert r.children == [ChildOrder(1, 10, 100, Unknown, 0)];
    w := w.(rec := r);
  }

  /** The cancellation of order 1 is on its way. */
  lemma CancelSent() returns (w: World)
    ensures Reachable(CHASE_RUN, w)
    ensures w.rec.children == [ChildOrder(1, 10, 100, PendingCancel, 0)] && w.rec.exposure == Exposure(0, 0, 0, 10, 0)
    ensures w.rec.call == AwaitingCancel(0, Open, 10) && w.venue == LIVE && w.now == 0.0
  {
    hide Reachable;
    w := OrderLive();
    assert w.rec.children == [ChildOrder(1, 10, 100, PendingSubmit, 0)];
    w := OpenReaches(CHASE_RUN, w);
    assert w.rec.children == [ChildOrder(1, 10, 100, Open, 0)];
    var r := BeginCancel(w.rec, 0);
    StepReaches(CHASE_RUN, w, CancelBegins(0), w.(rec := r));
    assert r.children == [ChildOrder(1, 10, 100, PendingCancel, 0)];
    w := w.(rec := r);
  }

  const PARTLY_FILLED := VenueState(map[1 := Order(10, 4, false)], map[], [Trade(1, 4, 4, 100, 0, None)])

  lemma LiveOrderFills()
    ensures Evolves(LIVE, PARTLY_FILLED)
  {
    assert VenueOk(LIVE);
    Simulators.FillIsEvolution(LIVE, 1, Trade(1, 4, 4, 100, 0, None));
    assert LIVE.(orders := LIVE.orders[1 := LIVE.orders[1].(filled := 4)], trades := LIVE.trades + [Trade(1, 4, 4, 100, 0, None)])
           == PARTLY_FILLED;
  }

  // ---- a TWAP execution past its deadline ----

  const FIRST_TRADE := Trade(1, 5, 5, 100, 0, None)

  const ONE_FILLED := VenueState(map[1 := Order(5, 5, false)], map[], [FIRST_TRADE])

  const BOTH_ORDERS := VenueState(map[1 := Order(5, 5, false), 2 := Order(5, 0, false)], map[], [FIRST_TRADE])

  lemma HalfScheduled()
    ensures CapOk(TWAP_RUN, 5, 5.0)
  {
    hide SnappedSchedule;
    ScheduleIsStepFunction(10, 5.0, 10.0, 2);
    assert 10.0 / 2.0 == 5.0 && (5.0 / 5.0).Floor == 1;
  }

  /** A passive order for the first half is open. */
  lemma PassiveOpen() returns (w: World)
    ensures Reachable(TWAP_RUN, w)
    ensures w.rec == InitialRecord().(children := [ChildOrder(1, 5, 100, Open, 0)], exposure := Exposure(0, 5, 0, 0, 0),
                                      lastSequence := 1, submittedAt := map[1 := 5.0])
    ensures w.venue == VenueState(map[1 := Order(5, 0, false)], map[], []) && w.now == 5.0
  {
    hide Reachable, Evolves, CapOk;
    InitiallyReachable(TWAP_RUN);
    w := ClockReaches(TWAP_RUN, World(InitialRecord(), EmptyVenue(), 0.0), 5.0);
    HalfScheduled();
    var sent := World(BeginSubmit(w.rec, 5.0, 5, 100, true, 99, 101), Sent(EmptyVenue(), 1, 5), 5.0);
    StepReaches(TWAP_RUN, w, SubmitBegins(5, 100, true, 99, 101), sent);
    Simulators.ArrivalIsEvolution(EmptyVenue(), 1, 5);
    w := VenueReaches(TWAP_RUN, sent, VenueState(map[1 := Order(5, 0, false)], map[], []));
    assert w.rec.children == [ChildOrder(1, 5, 100, PendingSubmit, 0)];
    w := OpenReaches(TWAP_RUN, w);
    assert w.rec.children == [ChildOrder(1, 5, 100, Open, 0)];
  }

  /** What the fill of order 1 does to the record, its row still outstanding. */
  lemma FillTaken(r: Record, f: Fill)
    requires r.children == [ChildOrder(1, 5, 100, Open, 0)] && r.exposure == Exposure(0, 5, 0, 0, 0)
    requires r.seen == {} && r.trackerSeen == {} && r.intervals == map[]
    requires f == FillOfTrade(0, FIRST_TRADE)
    ensures
      var r' := ApplyResult(r, ReconciliationResult([], [f], false));
      r'.children == [ChildOrder(1, 5, 100, Open, 5)] && r'.exposure == Exposure(5, 0, 0, 0, 0) && SameLife(r, r')
  {
    hide BookInputs, Sum, Recomputed;
    var clients := ClientsOfFills([f]);
    assert AdoptRows(r, [], clients) == r;
    assert [f][..0] == [] && Sort([f], FillLe) == [f];
    var details := DetailsOf(f, 5);
    assert RowConfirmed([], 1) == 0 && IndexOf(r.children, 1) == Some(0);
    assert ApplyFills(r, [], [f]) == UpdateFill(r, 0, 5, Some(details));
    assert AcceptedInterval(r.children[0], [], 5, details) == Some(Interval(0, 5));
    var raised := RaiseConfirmed(r, 0, 5, Some(1));
    assert raised.children == [ChildOrder(1, 5, 100, Open, 5)];
    BookFrame(raised, 1, Interval(0, 5), details);
    OneReserved(ChildOrder(1, 5, 100, Open, 5), 5);
  }

  lemma PassiveFillMoves()
    ensures Evolves(VenueState(map[1 := Order(5, 0, false)], map[], []), ONE_FILLED)
  {
    var v := VenueState(map[1 := Order(5, 0, false)], map[], []);
    assert VenueOk(v);
    Simulators.FillIsEvolution(v, 1, FIRST_TRADE);
    assert v.(orders := v.orders[1 := v.orders[1].(filled := 5)], trades := v.trades + [FIRST_TRADE]) == ONE_FILLED;
  }

  /** Order 1 is filled; its fill has arrived, its row has not. */
  lemma PassiveFilled() returns (w: World)
    ensures Reachable(TWAP_RUN, w)
    ensures w.rec.children == [ChildOrder(1, 5, 100, Open, 5)] && w.rec.exposure == Exposure(5, 0, 0, 0, 0)
    ensures w.rec.lastSequence == 1 && w.rec.aggressive == {} && w.rec.status == Running && !w.rec.cancelRequested
    ensures w.rec.call == Idle && w.venue == ONE_FILLED && w.now == 5.0
  {
    hide Reachable, Evolves, ApplyResult;
    w := PassiveOpen();
    PassiveFillMoves();
    w := VenueReaches(TWAP_RUN, w, ONE_FILLED);
    var f := FillOfTrade(0, FIRST_TRADE);
    var result := ReconciliationResult([], [f], false);
    assert FillOk(ONE_FILLED, f);
    FillTaken(w.rec, f);
    StepReaches(TWAP_RUN, w, Delivers(result), w.(rec := ApplyResult(w.rec, result)));
    w := w.(rec := ApplyResult(w.rec, result));
  }

  /** A refresh that meets a rate limit at once changes nothing but the back-off. */
  lemma LimitedAtOnce(cfg: Config, w: World, answers: seq<Lookup>) returns (w': World)
    requires Reachable(cfg, w)
    requires w.rec.call == Idle && w.rec.children != [] && !w.rec.children[0].status.IsTerminal()
    requires |answers| == |w.rec.children| && answers[0] == Limited && forall j :: 1 <= j < |answers| ==> answers[j] == Raised
    ensures Reachable(cfg, w') && w' == w.(rec := w.rec.(rateLimitedUntil := Some(w.now + 1.0)))
  {
    hide Reachable, Inv;
    ReachableIsSafe(cfg, w);
    InvBuckets(cfg, w);
    w' := w.(rec := w.rec.(rateLimitedUntil := Some(w.now + 1.0)));
    LimitedIsStep(cfg, w, answers, w');
    StepReaches(cfg, w, Refreshes(answers), w');
  }

  lemma LimitedIsStep(cfg: Config, w: World, answers: seq<Lookup>, w': World)
    requires cfg.Valid() && w.rec.call == Idle && w.rec.children != [] && !w.rec.children[0].status.IsTerminal()
    requires |answers| == |w.rec.children| && answers[0] == Limited && forall j :: 1 <= j < |answers| ==> answers[j] == Raised
    requires BucketsOk(w.rec.children, w.rec.exposure)
    requires w' == w.(rec := w.rec.(rateLimitedUntil := Some(w.now + 1.0)))
    ensures Step(cfg, w, Refreshes(answers), w')
  {
    hide Recomputed;
    forall j: nat | j < |w.rec.children| ensures AnswerOkAt(w.venue, w.rec.children, answers, j) {}
    assert LookupFrom(w.rec, answers, 0) == (w.rec, HaltLimited);
  }

  /** Past the deadline; two looks at the exchange were cut short, so order 1 still shows as open. */
  lemma PastDeadline() returns (w: World)
    ensures Reachable(TWAP_RUN, w)
    ensures w.rec.children == [ChildOrder(1, 5, 100, Open, 5)] && w.rec.exposure == Exposure(5, 0, 0, 0, 0)
    ensures w.rec.lastSequence == 1 && w.rec.aggressive == {} && w.rec.status == Running && !w.rec.cancelRequested
    ensures w.rec.call == Idle && w.venue == ONE_FILLED && w.now == 11.0
  {
    hide Reachable;
    w := PassiveFilled();
    w := ClockReaches(TWAP_RUN, w, 11.0);
    w := LimitedAtOnce(TWAP_RUN, w, [Limited]);
    var decided := w.(rec := Decide(TWAP_RUN, w.rec, 11.0));
    StepReaches(TWAP_RUN, w, Decides, decided);
    w := LimitedAtOnce(TWAP_RUN, decided, [Limited]);
  }

  /** The first aggressive attempt is open. */
  lemma FirstAttempt() returns (w: World)
    ensures Reachable(TWAP_RUN, w)
    ensures w.rec.children == [ChildOrder(1, 5, 100, Open, 5), ChildOrder(2, 5, 101, Open, 0)]
    ensures w.rec.exposure == Exposure(5, 5, 0, 0, 0) && w.rec.aggressive == {2}
    ensures w.rec.status == Running && !w.rec.cancelRequested && w.rec.call == Idle && w.venue == BOTH_ORDERS && w.now == 11.0
  {
    hide Reachable, Evolves, Inv;
    w := PastDeadline();
    w := FirstAttemptSent(w);
    ReachableIsSafe(TWAP_RUN, w);
    SecondOrderArrives();
    w := VenueReaches(TWAP_RUN, w, BOTH_ORDERS);
    w := OpenReaches(TWAP_RUN, w);
    assert w.rec.children == [ChildOrder(1, 5, 100, Open, 5), ChildOrder(2, 5, 101, Open, 0)];
  }

  lemma FirstAttemptSent(w: World) returns (w': World)
    requires Reachable(TWAP_RUN, w)
    requires w.rec.children == [ChildOrder(1, 5, 100, Open, 5)] && w.rec.exposure == Exposure(5, 0, 0, 0, 0)
    requires w.rec.lastSequence == 1 && w.rec.aggressive == {} && w.rec.status == Running && !w.rec.cancelRequested
    requires w.rec.call == Idle && w.venue == ONE_FILLED && w.now == 11.0
    ensures Reachable(TWAP_RUN, w')
    ensures w'.rec.children == [ChildOrder(1, 5, 100, Open, 5), ChildOrder(2, 5, 101, PendingSubmit, 0)]
    ensures w'.rec.exposure == Exposure(5, 0, 5, 0, 0) && w'.rec.aggressive == {2} && w'.rec.call.AwaitingSubmit?
    ensures w'.rec.status == Running && !w'.rec.cancelRequested && w'.venue == Sent(ONE_FILLED, 2, 5) && w'.now == 11.0
  {
    hide Reachable, MaySubmit;
    FirstAttemptMaySubmit(w.rec);
    w' := World(BeginSubmit(w.rec, 11.0, 5, 101, false, 100, 101), Sent(ONE_FILLED, 2, 5), 11.0);
    StepReaches(TWAP_RUN, w, SubmitBegins(5, 101, false, 100, 101), w');
    assert w'.rec.children == [ChildOrder(1, 5, 100, Open, 5), ChildOrder(2, 5, 101, PendingSubmit, 0)];
  }

  lemma FirstAttemptMaySubmit(r: Record)
    requires r.exposure == Exposure(5, 0, 0, 0, 0) && r.aggressive == {} && r.status == Running && !r.cancelRequested && r.call == Idle
    ensures MaySubmit(TWAP_RUN, r, 11.0, 5, 101, false, 100, 101)
  {
    hide CapOk;
    AllScheduled(TWAP_RUN, 11.0);
  }

  lemma SecondOrderArrives()
    ensures Evolves(Sent(ONE_FILLED, 2, 5), BOTH_ORDERS)
  {
    PassiveFillMoves();
    Simulators.ArrivalIsEvolution(ONE_FILLED, 2, 5);
    assert ONE_FILLED.(orders := ONE_FILLED.orders[2 := Order(5, 0, false)]) == BOTH_ORDERS;
  }

  /** A second later the first look of the next call is cut short too. */
  lemma SecondCall() returns (w: World)
    ensures Reachable(TWAP_RUN, w)
    ensures AtDecision(TWAP_RUN, w) && OpensAttempt(TWAP_RUN, w.rec, w.now)
    ensures w.rec.aggressive == {2} && Traded(w.venue.trades) == 5
  {
    hide Reachable;
    w := FirstAttempt();
    w := ClockReaches(TWAP_RUN, w, 12.0);
    w := LimitedAtOnce(TWAP_RUN, w, [Limited, Raised]);
    assert w.rec.children[0].status.IsLive() && w.rec.children[0].id !in w.rec.aggressive;
    assert [FIRST_TRADE][..0] == [];
  }
}
