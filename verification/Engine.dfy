/** One execution and the engine operations on it, as src/execution/engine.py performs them on
    its mutable record. Each operation is verified to do what its function in Records says, and
    each public call to extend the run of the execution by steps of the protocol. */
module Engine {
  import opened Models
  import opened StateMachine
  import opened Sorting
  import opened Intervals
  import opened Records
  import opened FillLedger
  import opened Venues
  import opened Coupling
  import opened Evidence
  import opened Schedule
  import opened Invariant
  import opened Protocol
  import opened Steps
  import opened Deliveries
  import opened Runs
  import opened Adapters
  import opened Trackers
  import opened Lookups
  import opened Calls
  import opened Prices
  import LedgerRuns
  import Idempotence

  class Execution {
    const cfg: Config
    const tracker: ExposureTracker
    const venue: Venue
    var now: real
    var children: seq<ChildOrder>
    var status: ExecutionStatus
    var summary: Option<ExecutionStatus>
    var lastSequence: nat
    var submittedAt: map<nat, real>
    var aggressive: set<nat>
    var rateLimitedUntil: Option<real>
    // fill ledger
    var seen: set<nat>
    var ignored: set<nat>
    var duplicates: nat
    var trades: seq<TradeEntry>
    var intervals: map<nat, seq<Interval>>
    var anonymous: seq<TradeEntry>
    var fillInputs: seq<PriceQuantity>
    var maker: int
    var taker: int
    // reject gate
    var rejectStreak: nat
    var lastReject: Option<Reject>
    // history
    ghost var rejects: seq<Reject>
    ghost var cancelRequested: bool
    ghost var attemptOpen: bool
    ghost var openings: nat
    ghost var call: Call
    ghost var run: Run

    /** The state as a value. */
    ghost function View(): Record
      reads `children, `seen, `ignored, `duplicates, `trades, `intervals, `anonymous, `fillInputs, `maker, `taker,
            `status, `summary, `lastSequence, `submittedAt, `aggressive, `rejects, `rateLimitedUntil,
            `cancelRequested, `attemptOpen, `openings, `call, tracker
    {
      Record(children, tracker.View(), tracker.seenTradeIds, seen, ignored, duplicates, trades, intervals, anonymous, fillInputs,
             maker, taker, status, summary, lastSequence, submittedAt, aggressive, rejects, rateLimitedUntil,
             cancelRequested, attemptOpen, openings, call)
    }

    /** The streak and its last reject summarise the rejects. */
    ghost predicate GateOk()
      reads `rejectStreak, `lastReject, `rejects
    {
      rejectStreak == |rejects| && lastReject == if rejects == [] then None else Some(rejects[|rejects| - 1])
    }

    /** The run so far ends in the present state. */
    ghost predicate Recorded()
      reads this, tracker, venue
    {
      GateOk() && tracker.target == cfg.required && IsRun(cfg, run) && Last(run) == World(View(), venue.state, now)
    }

    ghost predicate Valid()
      reads this, tracker, venue
    {
      Recorded() && call == Idle
    }

    constructor (cfg: Config)
      requires cfg.Valid()
      ensures Valid() && this.cfg == cfg && View() == InitialRecord() && fresh(tracker) && fresh(venue)
    {
      this.cfg := cfg;
      tracker := new ExposureTracker(cfg.required);
      venue := new Venue();
      now := cfg.started;
      children, status, summary, lastSequence := [], Running, None, 0;
      submittedAt, aggressive, rateLimitedUntil := map[], {}, None;
      seen, ignored, duplicates, trades, intervals := {}, {}, 0, [], map[];
      anonymous, fillInputs, maker, taker := [], [], 0, 0;
      rejectStreak, lastReject := 0, None;
      rejects, cancelRequested, attemptOpen, openings, call := [], false, false, 0, Idle;
      run := Run([World(InitialRecord(), EmptyVenue(), cfg.started)], []);
    }

    /** Appends a step to the run. */
    ghost method Advance(e: Event, w: World)
      requires IsRun(cfg, run) && Step(cfg, Last(run), e, w)
      modifies this`run
      ensures IsRun(cfg, run) && Last(run) == w && run.events == old(run.events) + [e]
      ensures forall earlier :: Continues(earlier, old(run)) ==> Continues(earlier, run)
    {
      hide Step;
      RunExtends(cfg, run, e, w);
      forall earlier | Continues(earlier, run) ensures Continues(earlier, Extended(run, e, w)) {
        ContinuesExtended(earlier, run, e, w);
      }
      run := Extended(run, e, w);
    }

    // ---- child orders ----

    /** _set_child_status: one table step, or one of the composite hops, each of them legal. */
    method SetChildStatus(i: nat, target: ChildStatus) returns (ok: bool)
      requires i < |children|
      modifies this`children
      ensures View() == SetStatus(old(View()), i, target)
      ensures |children| == old(|children|)
      ensures ok <==> children[i].status == target
    {
      var c := children[i];
      if c.status == target {
        assert children[i := c] == children;
        return true;
      }
      var step := TransitionChild(c.status, target);
      if step.Some? {
        children := children[i := c.(status := step.value)];
        return true;
      }
      if target == ChildCancelled && c.status in {Open, PartiallyFilled} {
        assert TransitionChild(c.status, PendingCancel).Some? && TransitionChild(PendingCancel, target).Some?;
        children := children[i := c.(status := target)];
        return true;
      }
      if target == ChildCancelled && c.status == PendingSubmit {
        assert TransitionChild(c.status, Open).Some? && TransitionChild(Open, PendingCancel).Some?;
        assert TransitionChild(PendingCancel, target).Some?;
        children := children[i := c.(status := target)];
        return true;
      }
      if c.status == PendingSubmit && target in {PartiallyFilled, Filled} {
        assert TransitionChild(c.status, Open).Some? && TransitionChild(Open, target).Some?;
        children := children[i := c.(status := target)];
        return true;
      }
      assert children[i := c] == children;
      return false;
    }

    /** _refresh_reserved_exposure_locked. */
    method RefreshReservedExposure()
      modifies tracker
      ensures View() == RefreshReserved(old(View()))
    {
      tracker.ResetReserved();
      var k := 0;
      while k < |children|
        invariant k <= |children|
        invariant tracker.View() == Recomputed(children[..k], old(tracker.confirmed))
        invariant tracker.seenTradeIds == old(tracker.seenTradeIds)
      {
        assert children[..k + 1][..k] == children[..k];
        var remaining := children[k].Remaining();
        match children[k].status {
          case Open => tracker.liveOpen := tracker.liveOpen + remaining;
          case PartiallyFilled => tracker.liveOpen := tracker.liveOpen + remaining;
          case PendingSubmit => tracker.pendingSubmit := tracker.pendingSubmit + remaining;
          case PendingCancel => tracker.pendingCancel := tracker.pendingCancel + remaining;
          case Unknown => tracker.unknown := tracker.unknown + remaining;
          case _ =>
        }
        k := k + 1;
      }
      assert children[..k] == children;
    }

    // ---- fills ----

    method RecordIgnoredFillTradeId(id: nat)
      modifies this`ignored, this`duplicates
      ensures View() == Ignore(old(View()), id)
    {
      if id in ignored {
        return;
      }
      ignored := ignored + {id};
      duplicates := duplicates + 1;
    }

    method DropFill(tradeId: Option<nat>)
      modifies this`seen, this`ignored, this`duplicates
      ensures View() == Drop(old(View()), tradeId)
    {
      if tradeId.Some? {
        seen := seen + {tradeId.value};
        RecordIgnoredFillTradeId(tradeId.value);
      }
    }

    method RaiseChildConfirmed(i: nat, incoming: int, tradeId: Option<nat>)
      requires i < |children|
      modifies this`children, tracker
      ensures View() == RaiseConfirmed(old(View()), i, incoming, tradeId)
    {
      var c := children[i];
      if incoming > c.confirmed {
        var delta := incoming - c.confirmed;
        children := children[i := c.(confirmed := incoming)];
        var applied := tracker.ApplyFill(tradeId, tracker.confirmed + delta);
      }
    }

    method BookNamedInputs(id: nat, iv: Interval, t: TradeDetails)
      requires t.tradeId.Some?
      modifies this`intervals, this`seen, this`trades, this`fillInputs, tracker`seenTradeIds
      ensures View() == BookInputs(old(View()), id, iv, t)
    {
      hide RebuiltInputs, IntervalsOf;
      var more := trades + [EntryOf(t)];
      tracker.seenTradeIds := tracker.seenTradeIds + {t.tradeId.value};
      intervals, seen, trades, fillInputs :=
        intervals[id := IntervalsOf(intervals, id) + [iv]], seen + {t.tradeId.value}, more, RebuiltInputs(more, anonymous);
    }

    method BookAnonymousInputs(id: nat, iv: Interval, t: TradeDetails)
      requires t.tradeId.None?
      modifies this`intervals, this`anonymous, this`fillInputs
      ensures View() == BookInputs(old(View()), id, iv, t)
    {
      hide RebuiltInputs, IntervalsOf;
      intervals, anonymous, fillInputs :=
        intervals[id := IntervalsOf(intervals, id) + [iv]], anonymous + [EntryOf(t)], fillInputs + [PriceQuantity(t.price, t.delta)];
    }

    /** Accepts a trade under its interval. */
    method BookFill(id: nat, iv: Interval, t: TradeDetails)
      modifies this`intervals, this`seen, this`trades, this`fillInputs, this`anonymous, this`maker, this`taker, tracker`seenTradeIds
      ensures View() == BookTrade(old(View()), id, iv, t)
    {
      hide BookInputs;
      if t.tradeId.Some? {
        BookNamedInputs(id, iv, t);
      } else {
        BookAnonymousInputs(id, iv, t);
      }
      if t.isMaker == Some(true) {
        maker := maker + t.delta;
      } else if t.isMaker == Some(false) {
        taker := taker + t.delta;
      }
    }

    /** _update_child_cumulative_fill_locked; no trade details means a mere order snapshot. */
    method UpdateChildCumulativeFill(i: nat, incoming: int, trade: Option<TradeDetails>)
      requires i < |children|
      modifies this`children, this`intervals, this`seen, this`ignored, this`duplicates, this`trades, this`fillInputs, this`anonymous,
               this`maker, this`taker, tracker
      ensures View() == UpdateFill(old(View()), i, incoming, trade)
      ensures |children| == old(|children|)
    {
      hide RebuiltInputs, BookTrade, RaiseConfirmed;
      if trade.None? {
        RaiseChildConfirmed(i, incoming, None);
        RaiseFrame(old(View()), i, incoming, None);
        return;
      }
      var t := trade.value;
      if t.tradeId.Some? && t.tradeId.value in seen {
        RecordIgnoredFillTradeId(t.tradeId.value);
        return;
      }
      if t.delta <= 0 {
        DropFill(t.tradeId);
        return;
      }
      var c := children[i];
      var start, end := incoming - t.delta, incoming;
      var known := IntervalsOf(intervals, c.id);
      var limit := Max(Max(c.confirmed, incoming), t.limit);
      var accepted;
      if FillIntervalIsValid(start, end, limit) && !FillIntervalOverlaps(start, end, known) {
        accepted := Some(Interval(start, end));
      } else {
        accepted := FindWindowLocalFillInterval(start, end, t.delta, limit, known, t.tradeId);
      }
      if accepted.None? {
        DropFill(t.tradeId);
        return;
      }
      RaiseChildConfirmed(i, incoming, t.tradeId);
      RaiseFrame(old(View()), i, incoming, t.tradeId);
      BookFrame(View(), c.id, accepted.value, t);
      BookFill(c.id, accepted.value, t);
    }

    // ---- the reject gate and the parent status ----

    method ResetRejectGate()
      modifies this`rejectStreak, this`lastReject, this`rejects
      ensures View() == old(View()).(rejects := []) && GateOk()
    {
      rejectStreak, lastReject, rejects := 0, None, [];
    }

    method RecordRetryableReject(price: int, bid: int, ask: int)
      requires GateOk()
      modifies this`rejectStreak, this`lastReject, this`rejects
      ensures View() == old(View()).(rejects := old(rejects) + [Reject(now, price, bid, ask)]) && GateOk()
    {
      var reject := Reject(now, price, bid, ask);
      rejectStreak, lastReject, rejects := rejectStreak + 1, Some(reject), rejects + [reject];
    }

    /** transition_execution to a terminal status, with its summary. */
    method TransitionTo(target: ExecutionStatus)
      requires TransitionExecution(status, target) == Some(target)
      modifies this`status, this`summary
      ensures View() == Terminate(old(View()), target)
    {
      status := TransitionExecution(status, target).value;
      summary := Some(status);
    }

    method FailLocked()
      modifies this`status, this`summary
      ensures View() == Fail(old(View()))
    {
      if status == Running || status == Cancelling {
        TransitionTo(Failed);
      }
    }

    method RecordRateLimitBackoff()
      modifies this`rateLimitedUntil
      ensures View() == BackOff(old(View()), now)
    {
      rateLimitedUntil := Some(now + 1.0);
    }

    // ---- submission ----

    /** _assert_exposure_invariant_locked: the check that closes every operation never fails. */
    method AssertExposureInvariant() returns (ok: bool)
      requires Recorded()
      ensures ok
    {
      hide Inv, StepAt;
      ok := tracker.CanSubmit(0);
      CurrentInv(cfg, run);
      CommittedBelowTarget(cfg, Last(run));
    }

    method AppendChild(quantity: nat, price: int, next: Call)
      modifies this`lastSequence, this`children, this`attemptOpen, this`call
      ensures View() == old(View()).(lastSequence := old(lastSequence) + 1, attemptOpen := false, call := next,
                                     children := old(children) + [ChildOrder(old(lastSequence) + 1, quantity, price, PendingSubmit, 0)])
    {
      lastSequence, children, attemptOpen, call :=
        lastSequence + 1, children + [ChildOrder(lastSequence + 1, quantity, price, PendingSubmit, 0)], false, next;
    }

    method NoteSubmission(id: nat, postOnly: bool)
      modifies this`submittedAt, this`aggressive
      ensures View() == old(View()).(submittedAt := old(submittedAt)[id := now],
                                     aggressive := if postOnly then old(aggressive) else old(aggressive) + {id})
    {
      submittedAt := submittedAt[id := now];
      if !postOnly {
        aggressive := aggressive + {id};
      }
    }

    method RegisterChild(quantity: nat, price: int, postOnly: bool, bid: int, ask: int)
      requires tracker.target == cfg.required && tracker.CanSubmit(quantity)
      modifies this`lastSequence, this`children, this`submittedAt, this`aggressive, this`attemptOpen, this`call, tracker
      ensures View() == BeginSubmit(old(View()), now, quantity, price, postOnly, bid, ask)
    {
      AppendChild(quantity, price, AwaitingSubmit(price, postOnly, bid, ask));
      NoteSubmission(lastSequence, postOnly);
      var reserved := tracker.ReservePendingSubmit(quantity);
      assert reserved;
    }

    method TakeOrderSnapshot(i: nat, target: ChildStatus, filled: nat)
      requires i < |children|
      modifies this`children, this`intervals, this`seen, this`ignored, this`duplicates, this`trades, this`fillInputs, this`anonymous,
               this`maker, this`taker, tracker
      ensures View() == TakeSnapshot(old(View()), i, target, filled) && |children| == old(|children|)
    {
      hide UpdateFill, StateMachine.SetChildStatus;
      var taken := SetChildStatus(i, target);
      if filled > 0 {
        UpdateChildCumulativeFill(i, filled, None);
      } else {
        EmptySnapshot(View(), i);
      }
    }

    method ReserveForStatus(i: nat)
      requires i < |children| && tracker.target == cfg.required && Fits(cfg, ReserveTaken(View(), i))
      modifies tracker
      ensures View() == ReserveTaken(old(View()), i)
    {
      if children[i].status.IsLive() {
        var ok := tracker.ReserveLiveOpen(children[i].Remaining());
        assert ok;
      } else if children[i].status == Unknown {
        var ok := tracker.ReserveUnknownCreate(children[i].Remaining());
        assert ok;
      }
    }

    method ClearGateFor(s: ChildStatus)
      requires GateOk()
      modifies this`rejectStreak, this`lastReject, this`rejects
      ensures View() == ClearGate(old(View()), s) && GateOk()
    {
      if s != Unknown && s != Rejected {
        ResetRejectGate();
      }
    }

    method CallEnds()
      modifies this`call
      ensures View() == old(View()).(call := Idle)
    {
      call := Idle;
    }

    method ReleaseSubmit(quantity: nat)
      modifies tracker
      ensures View() == ReleasePendingSubmit(old(View()), quantity)
    {
      tracker.ReleasePendingSubmit(quantity);
    }

    method TakeCreateAnswer(i: nat, status: ChildStatus, filled: nat)
      requires i < |children|
      modifies this`children, this`intervals, this`seen, this`ignored, this`duplicates, this`trades, this`fillInputs, this`anonymous,
               this`maker, this`taker, this`call, tracker
      ensures View() == TakeSnapshot(ReleasePendingSubmit(old(View()).(call := Idle), old(children[i].submitted)), i, status, filled)
      ensures |children| == old(|children|)
    {
      hide TakeSnapshot, ReleasePendingSubmit;
      var submitted := children[i].submitted;
      CallEnds();
      ReleaseSubmit(submitted);
      TakeOrderSnapshot(i, status, filled);
    }

    method ReserveAndClear(i: nat)
      requires i < |children| && tracker.target == cfg.required && Fits(cfg, ReserveTaken(View(), i)) && GateOk()
      modifies this`rejectStreak, this`lastReject, this`rejects, tracker
      ensures View() == ClearGate(ReserveTaken(old(View()), i), old(children[i].status)) && GateOk()
    {
      hide ReserveTaken, ClearGate, Fits;
      ReserveForStatus(i);
      ClearGateFor(children[i].status);
    }

    method TakeAccepted(status: ChildStatus, filled: nat)
      requires GateOk() && children != [] && call.AwaitingSubmit? && tracker.target == cfg.required
      requires Fits(cfg, EndSubmit(cfg, View(), now, Accepted(status, filled)))
      modifies this`children, this`intervals, this`seen, this`ignored, this`duplicates, this`trades, this`fillInputs, this`anonymous,
               this`maker, this`taker, this`rejectStreak, this`lastReject, this`rejects, this`call, tracker
      ensures View() == EndSubmit(cfg, old(View()), now, Accepted(status, filled)) && GateOk()
    {
      hide TakeSnapshot, ReserveTaken, ReleasePendingSubmit, ClearGate, EndSubmit;
      var i := |children| - 1;
      AcceptedInParts(cfg, View(), now, status, filled);
      TakeCreateAnswer(i, status, filled);
      ReserveAndClear(i);
    }

    method RefuseChild()
      requires children != []
      modifies this`children, this`call, tracker
      ensures View() == Refused(old(View())) && |children| == old(|children|)
    {
      hide Records.SetStatus, ReleasePendingSubmit;
      var i := |children| - 1;
      var submitted := children[i].submitted;
      CallEnds();
      ReleaseSubmit(submitted);
      var taken := SetChildStatus(i, Rejected);
    }

    method TerminalizeRejectLimit()
      requires GateOk()
      modifies this`status, this`summary
      ensures View() == Records.TerminalizeRejectLimit(cfg, old(View()))
    {
      if status != Running {
        return;
      }
      if rejectStreak < cfg.retryLimit {
        return;
      }
      if tracker.View().Reserved() > 0 {
        return;
      }
      TransitionTo(if tracker.confirmed > 0 then PartiallyCompleted else Expired);
    }

    method TakeReject(price: int, postOnly: bool, bid: int, ask: int)
      requires GateOk() && children != [] && call == AwaitingSubmit(price, postOnly, bid, ask)
      modifies this`children, this`call, this`rejectStreak, this`lastReject, this`rejects, this`status, this`summary, tracker
      ensures View() == EndSubmit(cfg, old(View()), now, OrderRejected) && GateOk()
    {
      hide Refused, Records.TerminalizeRejectLimit, Fail, EndSubmit;
      RejectedInParts(cfg, View(), now);
      RefuseChild();
      if postOnly {
        RecordRetryableReject(price, bid, ask);
        TerminalizeRejectLimit();
      } else {
        FailLocked();
      }
    }

    method TakeRefusal(outcome: SubmitOutcome)
      requires children != [] && call.AwaitingSubmit? && (outcome == SubmitBanned || outcome == TerminalOrderRejected)
      modifies this`children, this`call, this`status, this`summary, tracker
      ensures View() == EndSubmit(cfg, old(View()), now, outcome)
    {
      hide Refused, Fail, EndSubmit;
      RefusedInParts(cfg, View(), now, outcome);
      RefuseChild();
      FailLocked();
    }

    method TakeCreateTimeout()
      requires children != [] && call.AwaitingSubmit? && tracker.target == cfg.required
      requires Fits(cfg, EndSubmit(cfg, View(), now, CreateTimeout))
      modifies this`children, this`call, tracker
      ensures View() == EndSubmit(cfg, old(View()), now, CreateTimeout)
    {
      hide Records.SetStatus, ReleasePendingSubmit;
      var i := |children| - 1;
      var submitted := children[i].submitted;
      CallEnds();
      ReleaseSubmit(submitted);
      var taken := SetChildStatus(i, Unknown);
      var ok := tracker.ReserveUnknownCreate(children[i].Remaining());
      assert ok;
    }

    method RemoveLastChild()
      requires children != []
      modifies this`children, this`submittedAt, this`aggressive
      ensures View() == WithoutLastChild(old(View()))
    {
      var id := children[|children| - 1].id;
      children, submittedAt, aggressive := children[..|children| - 1], submittedAt - {id}, aggressive - {id};
    }

    method TakeBack(outcome: SubmitOutcome)
      requires children != [] && call.AwaitingSubmit?
      requires outcome == SubmitLimited || outcome == SubmitNoData || outcome == SubmitRaised
      modifies this`children, this`submittedAt, this`aggressive, this`call, this`rateLimitedUntil, tracker
      ensures View() == EndSubmit(cfg, old(View()), now, outcome)
    {
      hide WithoutLastChild, ReleasePendingSubmit, BackOff, EndSubmit;
      var submitted := children[|children| - 1].submitted;
      TakenBackInParts(cfg, View(), now, outcome);
      assert submitted == View().children[|View().children| - 1].submitted;
      hide View;
      CallEnds();
      ReleaseSubmit(submitted);
      RemoveLastChild();
      if outcome == SubmitLimited {
        RecordRateLimitBackoff();
      }
    }

    method TakeCreateOutcome(outcome: SubmitOutcome, price: int, postOnly: bool, bid: int, ask: int)
      requires GateOk() && children != [] && call == AwaitingSubmit(price, postOnly, bid, ask) && tracker.target == cfg.required
      requires Fits(cfg, EndSubmit(cfg, View(), now, outcome))
      modifies this`children, this`intervals, this`seen, this`ignored, this`duplicates, this`trades, this`fillInputs, this`anonymous,
               this`maker, this`taker, this`rejectStreak, this`lastReject, this`rejects, this`call, this`status, this`summary,
               this`submittedAt, this`aggressive, this`rateLimitedUntil, tracker
      ensures View() == EndSubmit(cfg, old(View()), now, outcome) && GateOk()
    {
      hide EndSubmit, Fits;
      match outcome {
        case Accepted(status, filled) => TakeAccepted(status, filled);
        case CreateTimeout => TakeCreateTimeout();
        case OrderRejected => TakeReject(price, postOnly, bid, ask);
        case SubmitBanned => TakeRefusal(outcome);
        case TerminalOrderRejected => TakeRefusal(outcome);
        case _ => TakeBack(outcome);
      }
    }

    /** _submit_child_locked; NoFreshMarketData and unexpected errors of the adapter are handed on
        to the caller. */
    method SubmitChild(quantity: nat, price: int, postOnly: bool, bid: int, ask: int) returns (outcome: SubmitOutcome)
      requires Valid() && MaySubmit(cfg, View(), now, quantity, price, postOnly, bid, ask)
      modifies this, tracker, venue
      ensures Valid() && now == old(now)
      ensures run.events == old(run.events) + [SubmitBegins(quantity, price, postOnly, bid, ask), VenueMoves, SubmitEnds(outcome)]
      ensures openings == old(openings) && EndsWell(cfg, old(status), View(), now, Sound)
      ensures outcome.SubmitNoData? ==> tracker.View() == old(tracker.View()) && status == old(status)
      ensures forall earlier :: Continues(earlier, old(run)) ==> Continues(earlier, run)
    {
      hide Inv, Step, MaySubmit, StepAt, Continues, SubmitOutcomeOk, GateOk, EndSubmit;
      outcome := BeginCreate(quantity, price, postOnly, bid, ask);
      SubmissionEndsWell(cfg, View(), now, outcome, Sound);
      EndCreate(outcome, price, postOnly, bid, ask);
      NoDataUndoes(cfg, old(View()), now, quantity, price, postOnly, bid, ask);
      assert old(run.events) + [SubmitBegins(quantity, price, postOnly, bid, ask), VenueMoves] + [SubmitEnds(outcome)]
             == old(run.events) + [SubmitBegins(quantity, price, postOnly, bid, ask), VenueMoves, SubmitEnds(outcome)];
    }

    method BeginCreate(quantity: nat, price: int, postOnly: bool, bid: int, ask: int) returns (outcome: SubmitOutcome)
      requires Valid() && MaySubmit(cfg, View(), now, quantity, price, postOnly, bid, ask)
      modifies this, tracker, venue
      ensures Recorded() && now == old(now) && children != [] && call == AwaitingSubmit(price, postOnly, bid, ask)
      ensures SubmitOutcomeOk(venue.state, children[|children| - 1].id, outcome)
      ensures View() == BeginSubmit(old(View()), now, quantity, price, postOnly, bid, ask)
      ensures run.events == old(run.events) + [SubmitBegins(quantity, price, postOnly, bid, ask), VenueMoves]
      ensures openings == old(openings)
      ensures forall earlier :: Continues(earlier, old(run)) ==> Continues(earlier, run)
    {
      hide IsRun, Inv, BeginSubmit, EndSubmit, Step, MaySubmit, StepAt, Continues, SubmitOutcomeOk, GateOk;
      RunStarted(cfg, run);
      ghost var w := Last(run);
      CurrentInv(cfg, run);
      InvVenue(cfg, w);
      FreshId(cfg, w);
      SubmissionFits(cfg, w, quantity, price, postOnly, bid, ask);
      RegisterChild(quantity, price, postOnly, bid, ask);
      ghost var sent := World(View(), Sent(venue.state, w.rec.lastSequence + 1, quantity), now);
      assert sent == World(BeginSubmit(w.rec, now, quantity, price, postOnly, bid, ask), sent.venue, now) by { hide View; }
      BeginIsStep(cfg, w, sent, quantity, price, postOnly, bid, ask);
      Advance(SubmitBegins(quantity, price, postOnly, bid, ask), sent);
      outcome := venue.SubmitLimitOrder(lastSequence, quantity);
      NoteVenue(sent.venue);
      assert old(run.events) + [SubmitBegins(quantity, price, postOnly, bid, ask)] + [VenueMoves]
             == old(run.events) + [SubmitBegins(quantity, price, postOnly, bid, ask), VenueMoves];
    }

    method EndCreate(outcome: SubmitOutcome, price: int, postOnly: bool, bid: int, ask: int)
      requires Recorded() && children != [] && call == AwaitingSubmit(price, postOnly, bid, ask)
      requires SubmitOutcomeOk(venue.state, children[|children| - 1].id, outcome)
      modifies this, tracker
      ensures Valid() && now == old(now) && run.events == old(run.events) + [SubmitEnds(outcome)] && openings == old(openings)
      ensures View() == EndSubmit(cfg, old(View()), now, outcome)
      ensures forall earlier :: Continues(earlier, old(run)) ==> Continues(earlier, run)
    {
      hide IsRun, Inv, EndSubmit, StepAt, Continues, SubmitOutcomeOk, Fits, GateOk;
      RunStarted(cfg, run);
      ghost var w := Last(run);
      CurrentInv(cfg, run);
      CreateOutcomeFits(cfg, w, outcome);
      hide View;
      TakeCreateOutcome(outcome, price, postOnly, bid, ask);
      NoteCreateEnd(w, outcome);
      var ok := AssertExposureInvariant();
    }

    /** Records the answer to a create request. */
    ghost method NoteCreateEnd(w: World, outcome: SubmitOutcome)
      requires GateOk() && tracker.target == cfg.required && IsRun(cfg, run) && Last(run) == w && w.now == now
      requires w.venue == venue.state && w.rec.call.AwaitingSubmit? && w.rec.children != []
      requires SubmitOutcomeOk(w.venue, w.rec.children[|w.rec.children| - 1].id, outcome)
      requires View() == EndSubmit(cfg, w.rec, now, outcome) && View().call == Idle
      modifies this`run
      ensures Valid() && run.events == old(run.events) + [SubmitEnds(outcome)]
      ensures forall earlier :: Continues(earlier, old(run)) ==> Continues(earlier, run)
    {
      hide StepAt, Continues, GateOk, EndSubmit, SubmitOutcomeOk;
      assert call == Idle;
      hide View;
      Advance(SubmitEnds(outcome), World(View(), venue.state, now));
    }

    /** Records the answer to a cancellation. */
    ghost method NoteCancelEnd(w: World, outcome: CancelOutcome)
      requires GateOk() && tracker.target == cfg.required && IsRun(cfg, run) && Last(run) == w && w.now == now
      requires w.venue == venue.state && w.rec.call.AwaitingCancel? && w.rec.call.index < |w.rec.children|
      requires CancelOutcomeOk(w.venue, w.rec.children[w.rec.call.index].id, outcome)
      requires View() == EndCancel(w.rec, now, outcome) && View().call == Idle
      modifies this`run
      ensures Valid() && View().exposure == tracker.View() && View().children == children
      ensures run.events == old(run.events) + [CancelEnds(outcome)]
      ensures forall earlier :: Continues(earlier, old(run)) ==> Continues(earlier, run)
    {
      hide StepAt, Continues, GateOk, EndCancel, CancelOutcomeOk;
      assert call == Idle && View().exposure == tracker.View() && View().children == children;
      hide View;
      Advance(CancelEnds(outcome), World(View(), venue.state, now));
    }

    /** Records what the venue did during an adapter call. */
    ghost method NoteVenue(before: VenueState)
      requires GateOk() && tracker.target == cfg.required
      requires IsRun(cfg, run) && Last(run) == World(View(), before, now) && Evolves(before, venue.state)
      modifies this`run
      ensures Recorded() && run.events == old(run.events) + [VenueMoves]
      ensures forall earlier :: Continues(earlier, old(run)) ==> Continues(earlier, run)
    {
      hide StepAt, Continues, Evolves;
      Advance(VenueMoves, World(View(), venue.state, now));
    }

    // ---- cancellation ----

    /** _rate_limit_backoff_blocks: an expired back-off is cleared on the way. */
    method RateLimitBackoffBlocks() returns (blocked: bool)
      requires Valid()
      modifies this`rateLimitedUntil, this`run
      ensures Valid() && blocked == (old(rateLimitedUntil).Some? && now < old(rateLimitedUntil).value)
      ensures View() == old(View()).(rateLimitedUntil := if blocked then old(rateLimitedUntil) else None)
      ensures SameCourse(old(View()), View()) && NoneAsked(old(run), run)
      ensures forall earlier :: Continues(earlier, old(run)) ==> Continues(earlier, run)
    {
      hide StepAt, Continues;
      if rateLimitedUntil.None? {
        return false;
      }
      if now < rateLimitedUntil.value {
        return true;
      }
      rateLimitedUntil := None;
      Advance(BacksOff(None), World(View(), venue.state, now));
      return false;
    }

    method MarkCancelling(i: nat, before: ChildStatus, remaining: nat)
      requires i < |children| && children[i].status == before && children[i].Remaining() == remaining
      modifies this`children, this`call, tracker
      ensures View() == BeginCancel(old(View()), i) && |children| == old(|children|)
    {
      hide Records.SetStatus, Records.MarkPendingCancel;
      tracker.MarkPendingCancel(remaining);
      call := AwaitingCancel(i, before, remaining);
      var marked := SetChildStatus(i, PendingCancel);
    }

    method RevertChild(i: nat, before: ChildStatus, remaining: nat)
      requires i < |children| && call == AwaitingCancel(i, before, remaining) && tracker.target == cfg.required
      requires Fits(cfg, RevertCancel(View()))
      modifies this`children, this`call, tracker
      ensures View() == RevertCancel(old(View())) && |children| == old(|children|)
    {
      hide Records.SetStatus;
      RevertExposure(View());
      tracker.ReleasePendingCancel(remaining);
      var ok := tracker.ReserveLiveOpen(remaining);
      assert ok;
      CallEnds();
      var reverted := SetChildStatus(i, before);
    }

    method SettleCancelled(i: nat, remaining: nat)
      requires i < |children| && tracker.target == cfg.required
      requires Fits(cfg, SettleCancel(View(), i, remaining))
      modifies tracker
      ensures View() == SettleCancel(old(View()), i, remaining)
    {
      if children[i].status == ChildCancelled || children[i].status == Filled {
        tracker.ReleasePendingCancel(remaining);
      } else if children[i].status.IsLive() {
        tracker.ReleasePendingCancel(remaining);
        var ok := tracker.ReserveLiveOpen(children[i].Remaining());
        assert ok;
      }
    }

    method TakeCancelAnswer(i: nat, remaining: nat, status: ChildStatus, filled: nat)
      requires i < |children| && call.AwaitingCancel? && call.index == i && call.remaining == remaining && tracker.target == cfg.required
      requires Fits(cfg, EndCancel(View(), now, CancelAnswered(status, filled)))
      modifies this`children, this`intervals, this`seen, this`ignored, this`duplicates, this`trades, this`fillInputs, this`anonymous,
               this`maker, this`taker, this`call, tracker
      ensures View() == EndCancel(old(View()), now, CancelAnswered(status, filled))
      ensures |children| == old(|children|)
    {
      hide TakeSnapshot, SettleCancel;
      CallEnds();
      TakeOrderSnapshot(i, status, filled);
      SettleCancelled(i, remaining);
    }

    method TakeCancelOutcome(i: nat, before: ChildStatus, remaining: nat, outcome: CancelOutcome)
      requires i < |children| && call == AwaitingCancel(i, before, remaining) && tracker.target == cfg.required
      requires Fits(cfg, EndCancel(View(), now, outcome))
      modifies this`children, this`intervals, this`seen, this`ignored, this`duplicates, this`trades, this`fillInputs, this`anonymous,
               this`maker, this`taker, this`call, this`status, this`summary, this`rateLimitedUntil, tracker
      ensures View() == EndCancel(old(View()), now, outcome)
      ensures |children| == old(|children|)
    {
      hide RevertCancel, TakeSnapshot;
      match outcome {
        case CancelAnswered(status, filled) => TakeCancelAnswer(i, remaining, status, filled);
        case CancelBanned =>
          RevertChild(i, before, remaining);
          FailLocked();
        case CancelTimeout => CallEnds();
        case CancelLimited =>
          RevertChild(i, before, remaining);
          RecordRateLimitBackoff();
        case CancelRaised => RevertChild(i, before, remaining);
      }
    }

    /** _cancel_child_locked: a live child with something left is asked to be cancelled unless the
        engine is backing off, and no other child is touched. */
    method CancelChild(i: nat) returns (cancelled: bool)
      requires Valid() && i < |children|
      modifies this, tracker, venue
      ensures Valid() && now == old(now)
      ensures forall earlier :: Continues(earlier, old(run)) ==> Continues(earlier, run)
      ensures SameCourse(old(View()), View()) && |children| == old(|children|)
      ensures aggressive == old(aggressive) && submittedAt == old(submittedAt)
      ensures forall j :: 0 <= j < |children| && j != i ==> children[j] == old(children)[j]
      ensures
        var c := old(children[i]);
        var due := (c.status == Open || c.status == PartiallyFilled) && c.confirmed < c.submitted && !old(Blocked());
        && (forall j: nat :: Asked(old(run), run, j) <==> j == i && due)
        && (!due ==> !cancelled && children == old(children))
      ensures old(Blocked()) ==> Blocked()
      ensures !cancelled ==> tracker.View().Reserved() == old(tracker.View().Reserved()) && tracker.confirmed == old(tracker.confirmed)
    {
      hide StepAt, SameCourse, Exposure.Reserved, GateOk, IsRun, Asked, Continues;
      SameCourseReflexive(View());
      ContinuesReflexive(run);
      NobodyAsked(run);
      var before, remaining := children[i].status, children[i].Remaining();
      if !before.IsLive() {
        return false;
      }
      if remaining <= 0 {
        return false;
      }
      var blocked := RateLimitBackoffBlocks();
      ghost var r, started := View(), run;
      NoneAskedAtAll(old(run), started);
      if blocked {
        return false;
      }
      ContinuesReflexive(started);
      cancelled := AskToCancel(i, before, remaining);
      SameCourseTransitive(old(View()), r, View());
      AskedSoFar(old(run), started, run);
    }

    /** The request itself and its answer. */
    method AskToCancel(i: nat, before: ChildStatus, remaining: nat) returns (cancelled: bool)
      requires Valid() && i < |children| && CanCancel(children[i])
      requires before == children[i].status && remaining == children[i].Remaining()
      modifies this, tracker, venue
      ensures Valid() && now == old(now)
      ensures forall earlier :: Continues(earlier, old(run)) ==> Continues(earlier, run)
      ensures SameCourse(old(View()), View()) && |children| == old(|children|)
      ensures aggressive == old(aggressive) && submittedAt == old(submittedAt)
      ensures forall j :: 0 <= j < |children| && j != i ==> children[j] == old(children)[j]
      ensures forall j: nat :: Asked(old(run), run, j) <==> j == i
      ensures !cancelled ==> tracker.View().Reserved() == old(tracker.View().Reserved()) && tracker.confirmed == old(tracker.confirmed)
    {
      hide Inv, Step, StepAt, SameCourse, Exposure.Reserved, GateOk, CancelOutcomeOk, IsRun, Asked, Continues;
      var outcome := BeginCancelCall(i, before, remaining);
      ghost var r := View();
      cancelled := EndCancelCall(i, before, remaining, outcome);
      SameCourseTransitive(old(View()), r, View());
      SameCourseFields(old(View()), View());
      JustAsked(old(run), run, i, outcome);
    }

    method BeginCancelCall(i: nat, before: ChildStatus, remaining: nat) returns (outcome: CancelOutcome)
      requires Valid() && i < |children| && CanCancel(children[i])
      requires before == children[i].status && remaining == children[i].Remaining()
      modifies this, tracker, venue
      ensures Recorded() && now == old(now) && |children| == old(|children|) && call == AwaitingCancel(i, before, remaining)
      ensures forall j :: 0 <= j < |children| && j != i ==> children[j] == old(children)[j]
      ensures CancelOutcomeOk(venue.state, children[i].id, outcome)
      ensures run.events == old(run.events) + [CancelBegins(i)] + [VenueMoves]
      ensures forall earlier :: Continues(earlier, old(run)) ==> Continues(earlier, run)
      ensures SameCourse(old(View()), View()) && rateLimitedUntil == old(rateLimitedUntil)
      ensures tracker.View().Reserved() == old(tracker.View().Reserved()) && tracker.confirmed == old(tracker.confirmed)
    {
      hide Inv, Step, StepAt, Continues, BeginCancel, SameCourse, Exposure.Reserved, GateOk, CancelOutcomeOk, IsRun;
      RunStarted(cfg, run);
      ghost var w := Last(run);
      CurrentInv(cfg, run);
      InvVenue(cfg, w);
      CancelBeginsWell(cfg, w, i);
      MarkCancelling(i, before, remaining);
      ghost var sent := World(View(), venue.state, now);
      assert sent == w.(rec := BeginCancel(w.rec, i)) by { hide View; }
      Advance(CancelBegins(i), sent);
      outcome := venue.CancelOrder(children[i].id);
      NoteVenue(sent.venue);
    }

    method EndCancelCall(i: nat, before: ChildStatus, remaining: nat, outcome: CancelOutcome) returns (cancelled: bool)
      requires Recorded() && i < |children| && call == AwaitingCancel(i, before, remaining)
      requires CancelOutcomeOk(venue.state, children[i].id, outcome)
      modifies this, tracker
      ensures Valid() && now == old(now) && run.events == old(run.events) + [CancelEnds(outcome)]
      ensures forall earlier :: Continues(earlier, old(run)) ==> Continues(earlier, run)
      ensures SameCourse(old(View()), View()) && |children| == old(|children|)
      ensures forall j :: 0 <= j < |children| && j != i ==> children[j] == old(children)[j]
      ensures !cancelled ==> tracker.View().Reserved() == old(tracker.View().Reserved()) && tracker.confirmed == old(tracker.confirmed)
    {
      hide IsRun, Inv, EndCancel, StepAt, Continues, CancelOutcomeOk, Fits, SameCourse, Exposure.Reserved, GateOk;
      RunStarted(cfg, run);
      ghost var w := Last(run);
      CurrentInv(cfg, run);
      CancelOutcomeFits(cfg, w, outcome);
      assert w.rec.exposure == tracker.View() && w.rec.children == children;
      hide View;
      TakeCancelOutcome(i, before, remaining, outcome);
      NoteCancelEnd(w, outcome);
      var ok := AssertExposureInvariant();
      cancelled := !outcome.CancelRaised?;
    }

    predicate ChildTimedOut(i: nat)
      requires i < |children|
      reads this
    {
      children[i].status.IsLive()
      && now - (if children[i].id in submittedAt then submittedAt[children[i].id] else cfg.started) >= cfg.timeout
    }

    predicate NeedsAggressiveDeadlineCancel(i: nat)
      requires i < |children|
      reads this
    {
      children[i].status.IsLive() && children[i].id !in aggressive
    }

    predicate Selected(selection: Selection, i: nat)
      requires i < |children|
      reads this
    {
      match selection
      case Active => true
      case TimedOut => ChildTimedOut(i)
      case Passive => NeedsAggressiveDeadlineCancel(i)
    }

    /** The three cancellation loops. Every selected child that can be cancelled is asked to be,
        unless a ban fails the execution or a rate limit starts a back-off. */
    method CancelChildren(selection: Selection) returns (any: bool)
      requires Valid()
      modifies this, tracker, venue
      ensures Valid() && now == old(now)
      ensures forall earlier :: Continues(earlier, old(run)) ==> Continues(earlier, run)
      ensures SameCourse(old(View()), View())
      ensures |old(run.events)| < |run.worlds| && SweepAt(cfg, selection, run, |old(run.events)|, |run.events|)
      ensures Swept(cfg, selection, run, |old(run.events)|)
      ensures !any ==> tracker.View().Reserved() == old(tracker.View().Reserved()) && tracker.confirmed == old(tracker.confirmed)
    {
      hide Inv, Step, StepAt, Continues, SameCourse, Exposure.Reserved, GateOk, IsRun, Asked, SweepAt, Swept, Due;
      any := false;
      RunStarted(cfg, run);
      ghost var before, w := View(), Last(run);
      assert w.rec.children == children && w.rec.submittedAt == submittedAt && w.rec.aggressive == aggressive;
      hide View;
      SameCourseReflexive(before);
      ContinuesReflexive(run);
      NobodyAsked(run);
      var n := |children|;
      var i := 0;
      while i < n
        invariant i <= n == |children| == old(|children|)
        invariant Valid() && now == old(now) && aggressive == old(aggressive) && submittedAt == old(submittedAt)
        invariant forall earlier :: Continues(earlier, old(run)) ==> Continues(earlier, run)
        invariant SameCourse(before, View())
        invariant forall j :: i <= j < n ==> children[j] == old(children)[j]
        invariant forall j: nat :: Asked(old(run), run, j) ==> Due(cfg, selection, w, j)
        invariant forall j: nat :: j < i && Due(cfg, selection, w, j) ==> Asked(old(run), run, j) || Blocked()
        invariant !any ==> tracker.View().Reserved() == old(tracker.View().Reserved()) && tracker.confirmed == old(tracker.confirmed)
      {
        SelectedAreDue(selection, i, w);
        if Selected(selection, i) {
          ghost var r, run1 := View(), run;
          ContinuesReflexive(run1);
          var cancelled := CancelChild(i);
          SameCourseTransitive(before, r, View());
          any := any || cancelled;
          AskedSoFar(old(run), run1, run);
          if status.IsTerminal() {
            break;
          }
        }
        i := i + 1;
      }
      CurrentlyInterrupted();
      DueIsKnown(selection, w);
      JustSwept(cfg, selection, old(run), run);
    }

    /** The loops go for the children that are due. */
    lemma SelectedAreDue(selection: Selection, i: nat, w: World)
      requires i < |children| && i < |w.rec.children| && children[i] == w.rec.children[i]
      requires w.rec.submittedAt == submittedAt && w.rec.aggressive == aggressive && w.now == now
      ensures
        var c := children[i];
        Due(cfg, selection, w, i) <==>
          Selected(selection, i) && (c.status == Open || c.status == PartiallyFilled) && c.confirmed < c.submitted
    {}

    lemma DueIsKnown(selection: Selection, w: World)
      ensures forall j: nat :: Due(cfg, selection, w, j) ==> j < |w.rec.children|
    {}

    lemma CurrentlyInterrupted()
      requires Valid()
      ensures run.worlds != [] && (Interrupted(Last(run)) <==> status.IsTerminal() || Blocked())
    {
      hide StepAt, GateOk;
    }

    /** _cancel_active_children_locked. */
    method CancelActiveChildren() returns (any: bool)
      requires Valid()
      modifies this, tracker, venue
      ensures Valid() && now == old(now)
      ensures forall earlier :: Continues(earlier, old(run)) ==> Continues(earlier, run)
      ensures SameCourse(old(View()), View())
      ensures |old(run.events)| < |run.worlds| && SweepAt(cfg, Active, run, |old(run.events)|, |run.events|)
      ensures Swept(cfg, Active, run, |old(run.events)|)
    {
      hide StepAt, Continues, SameCourse, GateOk, IsRun, SweepAt, Swept;
      any := CancelChildren(Active);
    }

    // ---- exact refresh ----

    method TakeReported(i: nat, target: ChildStatus, filled: nat)
      requires i < |children| && GateOk()
      modifies this`children, this`intervals, this`seen, this`ignored, this`duplicates, this`trades, this`fillInputs, this`anonymous,
               this`maker, this`taker, this`rejectStreak, this`lastReject, this`rejects, tracker
      ensures View() == TakeReport(old(View()), i, target, filled) && |children| == old(|children|) && GateOk()
    {
      hide TakeSnapshot;
      var wasUnknown := children[i].status == Unknown;
      TakeOrderSnapshot(i, target, filled);
      if wasUnknown && ResetsRejectGate(children[i]) {
        ResetRejectGate();
      }
    }

    /** One exact lookup, applied unless it failed. */
    method LookUpChild(i: nat) returns (answer: Lookup)
      requires i < |children| && !children[i].status.IsTerminal() && GateOk() && VenueOk(venue.state)
      modifies this`children, this`intervals, this`seen, this`ignored, this`duplicates, this`trades, this`fillInputs, this`anonymous,
               this`maker, this`taker, this`rejectStreak, this`lastReject, this`rejects, tracker, venue
      ensures View() == LookupOne(old(View()), i, answer) && |children| == old(|children|) && GateOk()
      ensures LookupOk(venue.state, old(children[i].id), answer) && Evolves(old(venue.state), venue.state)
    {
      hide TakeReport, Records.SetStatus, GateOk;
      answer := venue.GetOrderByClientOrderId(children[i].id);
      match answer {
        case NotFound =>
          if children[i].status == Unknown {
            var rejected := SetChildStatus(i, Rejected);
          }
        case Found(status, filled) => TakeReported(i, status, filled);
        case _ =>
      }
    }

    /** Asks the venue about every child that is not finished, until an answer fails. */
    method LookUpChildren() returns (fault: Lookup, ghost answers: seq<Lookup>)
      requires Valid()
      modifies this`children, this`intervals, this`seen, this`ignored, this`duplicates, this`trades, this`fillInputs, this`anonymous,
               this`maker, this`taker, this`rejectStreak, this`lastReject, this`rejects, tracker, venue
      ensures GateOk() && Evolves(old(venue.state), venue.state)
      ensures |answers| <= old(|children|) && NoHalt(old(View()), answers) && View() == LookedUp(old(View()), answers)
      ensures AnsweredOk(venue.state, old(children), answers)
      ensures Halts(fault) ==> |answers| < old(|children|) && !old(children)[|answers|].status.IsTerminal()
      ensures !Halts(fault) ==> |answers| == old(|children|)
    {
      hide Inv, StepAt, LookupOne, AnsweredOk, Evolves, GateOk;
      ghost var r0, v0 := View(), venue.state;
      CurrentInv(cfg, run);
      InvVenue(cfg, Last(run));
      EvolvesReflexive(v0);
      answers := [];
      NothingAnswered(v0, r0.children);
      var k := 0;
      while k < |children|
        invariant k <= |children| == |r0.children| && |answers| == k
        invariant GateOk() && Evolves(v0, venue.state)
        invariant View() == LookedUp(r0, answers) && NoHalt(r0, answers)
        invariant AnsweredOk(venue.state, r0.children, answers)
      {
        assert View().children[k] == r0.children[k];
        ghost var r, v := View(), venue.state;
        EvolvedVenueOk(v0, v);
        var answer := NotFound;
        if !children[k].status.IsTerminal() {
          answer := LookUpChild(k);
          EvolvesTransitive(v0, v, venue.state);
          AnswersAge(v, venue.state, r0.children, answers);
          LookupIsFresh(r0, v0, venue.state, k, answer);
          if Halts(answer) {
            HaltingChangesNothing(r, k, answer);
            return answer, answers;
          }
        } else {
          FinishedNotAsked(r, k, answer);
        }
        OneMoreAnswer(venue.state, r0.children, answers, answer);
        OneMoreLookup(r0, answers, answer);
        answers := answers + [answer];
        k := k + 1;
      }
      fault := NotFound;
    }

    /** Records a refresh: first what the venue did meanwhile, then what was learned. */
    ghost method NoteRefresh(w: World, answers: seq<Lookup>)
      requires GateOk() && tracker.target == cfg.required && IsRun(cfg, run) && Last(run) == w && w.now == now
      requires call == Idle && w.rec.call == Idle
      requires Evolves(w.venue, venue.state) && AnswersOk(venue.state, w.rec.children, answers)
      requires View() == Refresh(w.rec, now, answers)
      modifies this`run
      ensures Valid() && children == View().children
      ensures run.events == old(run.events) + [VenueMoves] + [Refreshes(answers)]
      ensures forall earlier :: Continues(earlier, old(run)) ==> Continues(earlier, run)
    {
      hide StepAt, Continues, Evolves, AnswersOk, Refresh, GateOk;
      assert children == View().children;
      hide View;
      Advance(VenueMoves, w.(venue := venue.state));
      Advance(Refreshes(answers), World(View(), venue.state, now));
    }

    /** A ban fails the execution in the middle of a call; the exposure check made there passes,
        although the buckets were not rebuilt yet. */
    method FailForVenueBan()
      requires tracker.target == cfg.required && Fits(cfg, View())
      modifies this`status, this`summary
      ensures View() == Fail(old(View()))
    {
      hide Fail;
      FailLocked();
      var ok := tracker.CanSubmit(0);
      assert ok;
    }

    /** The end of a refresh: a ban fails the execution, a rate limit still rebuilds the buckets. */
    method ConcludeRefresh(fault: Lookup)
      requires tracker.target == cfg.required && (fault.Banned? ==> Fits(cfg, View()))
      modifies this`status, this`summary, this`rateLimitedUntil, tracker
      ensures View() == Concluded(old(View()), now, fault)
    {
      hide Fail, RefreshReserved, BackOff, Fits;
      match fault {
        case Banned => FailForVenueBan();
        case Limited =>
          RecordRateLimitBackoff();
          RefreshReservedExposure();
        case Raised =>
        case _ => RefreshReservedExposure();
      }
    }

    /** Lookups and their conclusion, without a trace in the run yet. */
    method TakeRefresh() returns (fault: Lookup, ghost answers: seq<Lookup>)
      requires Valid()
      modifies this`children, this`intervals, this`seen, this`ignored, this`duplicates, this`trades, this`fillInputs, this`anonymous,
               this`maker, this`taker, this`rejectStreak, this`lastReject, this`rejects, this`status, this`summary,
               this`rateLimitedUntil, tracker, venue
      ensures GateOk() && Evolves(old(venue.state), venue.state)
      ensures LookedUpSoFar(old(View()), venue.state, answers, fault) && |answers| <= |old(View()).children|
      ensures View() == Concluded(LookedUp(old(View()), answers), now, fault)
    {
      hide StepAt, Evolves, AnsweredOk, LookedUp, NoHalt, Concluded, GateOk, IsRun, Fits, Inv;
      RunStarted(cfg, run);
      ghost var w := Last(run);
      assert w.rec.call == Idle && w.rec.children == children;
      hide View;
      CurrentInv(cfg, run);
      fault, answers := LookUpChildren();
      if fault.Banned? { CutFits(cfg, w, venue.state, answers, fault); }
      ConcludeRefresh(fault);
    }

    /** _refresh_order_states_exact_locked. */
    method RefreshOrderStates() returns (raised: bool)
      requires Valid()
      modifies this, tracker, venue
      ensures Valid() && now == old(now)
      ensures forall earlier :: Continues(earlier, old(run)) ==> Continues(earlier, run)
      ensures SameCourse(old(View()), View())
      ensures Settled(children) || CutShort(old(run), run)
      ensures Refreshed(old(run), run)
      ensures raised ==> Erred(run, |old(run.events)|)
    {
      hide IsRun, Inv, StepAt, Continues, Evolves, AnsweredOk, NoHalt, AnswersOk, LookedUp, Concluded, Refresh, GateOk, SameCourse, Settled, AllAnswers,
           Halts, Refreshed, CutShort, Erred;
      RunStarted(cfg, run);
      ghost var w := Last(run);
      assert w.rec.call == Idle;
      CurrentInv(cfg, run);
      hide View;
      ContinuesReflexive(run);
      var fault;
      ghost var answers;
      fault, answers := TakeRefresh();
      RefreshConcluded(cfg, w, venue.state, answers, fault);
      NoteRefresh(w, AllAnswers(answers, fault, |w.rec.children|));
      JustRefreshed(old(run), run, AllAnswers(answers, fault, |w.rec.children|));
      if Halts(fault) { JustCutShort(old(run), run, answers, fault, |w.rec.children|); }
      if fault.Raised? { RefreshErred(cfg, old(run), run, venue.state, answers); }
      var ok := AssertExposureInvariant();
      raised := fault.Raised?;
    }

    // ---- reconciliation results ----

    method AdoptUnknownOrders(rows: seq<ChildOrder>, fillClients: set<nat>)
      modifies this`children
      ensures View() == AdoptRows(old(View()), rows, fillClients)
    {
      var k := 0;
      while k < |rows|
        invariant k <= |rows|
        invariant View() == AdoptRows(old(View()), rows[..k], fillClients)
      {
        assert rows[..k + 1][..k] == rows[..k];
        if IndexOf(children, rows[k].id).None? {
          children := children + [if rows[k].id in fillClients then rows[k].(confirmed := 0) else rows[k]];
        }
        k := k + 1;
      }
      assert rows[..k] == rows;
    }

    method ApplyReportedFill(rows: seq<ChildOrder>, f: Fill)
      modifies this`children, this`intervals, this`seen, this`ignored, this`duplicates, this`trades, this`fillInputs, this`anonymous,
               this`maker, this`taker, tracker
      ensures View() == ApplyFill(old(View()), rows, f)
    {
      hide UpdateFill, RowConfirmed;
      var i := IndexOf(children, f.client);
      if i.Some? {
        var limit := Max(Max(children[i.value].confirmed, RowConfirmed(rows, f.client)), f.cumulative);
        UpdateChildCumulativeFill(i.value, f.cumulative, Some(DetailsOf(f, limit)));
      }
    }

    method ApplyReportedFills(rows: seq<ChildOrder>, fills: seq<Fill>)
      modifies this`children, this`intervals, this`seen, this`ignored, this`duplicates, this`trades, this`fillInputs, this`anonymous,
               this`maker, this`taker, tracker
      ensures View() == ApplyFills(old(View()), rows, fills)
    {
      hide View, ApplyFill;
      var k := 0;
      while k < |fills|
        invariant k <= |fills|
        invariant View() == ApplyFills(old(View()), rows, fills[..k])
      {
        assert fills[..k + 1][..k] == fills[..k];
        ApplyReportedFill(rows, fills[k]);
        k := k + 1;
      }
      assert fills[..k] == fills;
    }

    /** One order row: the fill first, then the status. */
    method TakeRow(i: nat, target: ChildStatus, filled: nat)
      requires i < |children| && GateOk()
      modifies this`children, this`intervals, this`seen, this`ignored, this`duplicates, this`trades, this`fillInputs, this`anonymous,
               this`maker, this`taker, this`rejectStreak, this`lastReject, this`rejects, tracker
      ensures View() == TakeReport(old(View()), i, target, filled) && |children| == old(|children|) && GateOk()
    {
      hide UpdateFill, StateMachine.SetChildStatus;
      FillAndStatusCommute(View(), i, target, filled);
      var wasUnknown := children[i].status == Unknown;
      UpdateChildCumulativeFill(i, filled, None);
      var taken := SetChildStatus(i, target);
      if wasUnknown && ResetsRejectGate(children[i]) {
        ResetRejectGate();
      }
    }

    method ApplyReportedOrder(row: ChildOrder)
      requires GateOk()
      modifies this`children, this`intervals, this`seen, this`ignored, this`duplicates, this`trades, this`fillInputs, this`anonymous,
               this`maker, this`taker, this`rejectStreak, this`lastReject, this`rejects, tracker
      ensures View() == ApplyRow(old(View()), row) && GateOk()
    {
      hide TakeReport, GateOk;
      var i := IndexOf(children, row.id);
      if i.Some? {
        TakeRow(i.value, row.status, row.confirmed);
      }
    }

    method ApplyReportedOrders(rows: seq<ChildOrder>)
      requires GateOk()
      modifies this`children, this`intervals, this`seen, this`ignored, this`duplicates, this`trades, this`fillInputs, this`anonymous,
               this`maker, this`taker, this`rejectStreak, this`lastReject, this`rejects, tracker
      ensures View() == ApplyRows(old(View()), rows) && GateOk()
    {
      hide View, ApplyRow, GateOk;
      var k := 0;
      while k < |rows|
        invariant k <= |rows| && GateOk()
        invariant View() == ApplyRows(old(View()), rows[..k])
      {
        assert rows[..k + 1][..k] == rows[..k];
        ApplyReportedOrder(rows[k]);
        k := k + 1;
      }
      assert rows[..k] == rows;
    }

    method TakeEvidence(result: ReconciliationResult)
      requires GateOk()
      modifies this`children, this`intervals, this`seen, this`ignored, this`duplicates, this`trades, this`fillInputs, this`anonymous,
               this`maker, this`taker, this`rejectStreak, this`lastReject, this`rejects, tracker
      ensures View() == ApplyEvidence(old(View()), result) && GateOk()
    {
      hide AdoptRows, ApplyFills, ApplyRows, GateOk, ClientsOfFills;
      AdoptUnknownOrders(result.orders, ClientsOfFills(result.fills));
      ApplyReportedFills(result.orders, Sort(result.fills, FillLe));
      ApplyReportedOrders(result.orders);
    }

    method RejectMissingOrders(listed: set<nat>)
      modifies this`children
      ensures View() == RejectMissingFrom(old(View()), listed, 0)
    {
      var k := 0;
      while k < |children|
        invariant k <= |children| == old(|children|)
        invariant RejectMissingFrom(View(), listed, k) == RejectMissingFrom(old(View()), listed, 0)
      {
        if children[k].status == Unknown && children[k].id !in listed {
          var rejected := SetChildStatus(k, Rejected);
        }
        k := k + 1;
      }
    }

    /** The warning, then the rebuild of the buckets. */
    method ConcludeReconciliation(result: ReconciliationResult)
      modifies this`children, tracker
      ensures View() == RefreshReserved(ApplyWarning(old(View()), result))
    {
      hide RejectMissingFrom, ClientsOfOrders, Recomputed;
      if result.notFound {
        RejectMissingOrders(ClientsOfOrders(result.orders));
        tracker.ClearUnknownCreate();
      }
      RefreshReservedExposure();
    }

    method TakeResult(result: ReconciliationResult)
      requires GateOk()
      modifies this`children, this`intervals, this`seen, this`ignored, this`duplicates, this`trades, this`fillInputs, this`anonymous,
               this`maker, this`taker, this`rejectStreak, this`lastReject, this`rejects, tracker
      ensures View() == ApplyResult(old(View()), result) && GateOk()
    {
      hide ApplyEvidence, ApplyWarning, RefreshReserved, GateOk;
      TakeEvidence(result);
      ConcludeReconciliation(result);
    }

    ghost method NoteDelivery(w: World, result: ReconciliationResult)
      requires GateOk() && tracker.target == cfg.required && IsRun(cfg, run) && Last(run) == w && w.now == now && call == Idle
      requires w.venue == venue.state && ResultOk(w.venue, result) && WarningOk(w.venue, w.rec.children, result)
      requires View() == ApplyResult(w.rec, result)
      modifies this`run
      ensures Valid()
      ensures forall earlier :: Continues(earlier, old(run)) ==> Continues(earlier, run)
    {
      hide Inv, StepAt, Continues, GateOk, ResultOk, WarningOk, ApplyResult;
      CurrentInv(cfg, run);
      DeliveryStaysIdle(cfg, w, result);
      assert w.rec.call == Idle;
      hide View;
      Advance(Delivers(result), World(View(), venue.state, now));
    }

    /** Exact lookups of the children that are still unknown. */
    method ResolveUnknownChildren(ghost v0: VenueState) returns (fault: Lookup, ghost answers: seq<Lookup>)
      requires GateOk() && Tied(View(), v0) && Evolves(v0, venue.state)
      modifies this`children, this`intervals, this`seen, this`ignored, this`duplicates, this`trades, this`fillInputs, this`anonymous,
               this`maker, this`taker, this`rejectStreak, this`lastReject, this`rejects, tracker, venue
      ensures GateOk() && Evolves(old(venue.state), venue.state)
      ensures |answers| <= old(|children|) && NoHaltUnknown(old(View()), answers) && View() == Resolved(old(View()), answers)
      ensures AnsweredOk(venue.state, old(children), answers)
      ensures Halts(fault) ==> |answers| < old(|children|) && old(children)[|answers|].status == Unknown
      ensures !Halts(fault) ==> |answers| == old(|children|)
    {
      hide LookupOne, ResolveOne, AnsweredOk, Evolves, GateOk, Tied, LookupOk, AnswerOk;
      ghost var r0, v1 := View(), venue.state;
      EvolvedVenueOk(v0, v1);
      EvolvesReflexive(v1);
      answers := [];
      NothingAnswered(v1, r0.children);
      var k := 0;
      while k < |children|
        invariant k <= |children| == |r0.children| && |answers| == k
        invariant GateOk() && Evolves(v1, venue.state) && Evolves(v0, venue.state)
        invariant View() == Resolved(r0, answers) && NoHaltUnknown(r0, answers)
        invariant AnsweredOk(venue.state, r0.children, answers)
      {
        assert View().children[k] == r0.children[k];
        ghost var r, v := View(), venue.state;
        EvolvedVenueOk(v0, v);
        var answer := Raised;
        if children[k].status != Unknown {
          KnownNotAsked(r, r0.children, venue.state, k, answer);
        } else {
          answer := LookUpChild(k);
          UnknownAsked(r, k, answer);
          EvolvesTransitive(v0, v, venue.state);
          EvolvesTransitive(v1, v, venue.state);
          AnswersAge(v, venue.state, r0.children, answers);
          LookupIsFresh(r0, v0, venue.state, k, answer);
          if Halts(answer) {
            HaltingChangesNothing(r, k, answer);
            return answer, answers;
          }
        }
        OneMoreAnswer(venue.state, r0.children, answers, answer);
        OneMoreLookup(r0, answers, answer);
        answers := answers + [answer];
        k := k + 1;
      }
      fault := NotFound;
    }

    /** Bans and rate limits on the way do not stop a reconciliation, other errors do. */
    method ConcludeExact(fault: Lookup, result: ReconciliationResult)
      requires tracker.target == cfg.required && (fault.Banned? ==> Fits(cfg, View()))
      modifies this`status, this`summary, this`rateLimitedUntil, this`children, tracker
      ensures View() == ConcludedExact(old(View()), now, fault, result)
    {
      hide Fail, RefreshReserved, BackOff, ApplyWarning, Fits;
      if fault == Raised {
        return;
      }
      if fault == Banned {
        FailForVenueBan();
      }
      if fault == Limited {
        RecordRateLimitBackoff();
      }
      ConcludeReconciliation(result);
    }

    ghost method NoteExactDelivery(w: World, result: ReconciliationResult, answers: seq<Lookup>)
      requires GateOk() && tracker.target == cfg.required && IsRun(cfg, run) && Last(run) == w && w.now == now && w.rec.call == Idle
      requires Evolves(w.venue, venue.state)
      requires Step(cfg, w.(venue := venue.state), DeliversExact(result, answers), World(View(), venue.state, now))
      modifies this`run
      ensures Recorded() && run.events == old(run.events) + [VenueMoves] + [DeliversExact(result, answers)]
      ensures forall earlier :: Continues(earlier, old(run)) ==> Continues(earlier, run)
    {
      hide StepAt, Continues, Evolves, GateOk, View, AnswersOk, ApplyEvidence, ApplyResultExact, ResultOk, WarningOk, ListsAll;
      Advance(VenueMoves, w.(venue := venue.state));
      Advance(DeliversExact(result, answers), World(View(), venue.state, now));
    }

    /** Lookups of what is still unknown and their conclusion, without a trace in the run yet. */
    method ResolveAndConclude(result: ReconciliationResult, ghost w: World) returns (fault: Lookup, ghost answers: seq<Lookup>)
      requires GateOk() && tracker.target == cfg.required && View() == ApplyEvidence(w.rec, result) && venue.state == w.venue
      requires Inv(cfg, w) && w.rec.call == Idle && FreshOk(w.venue, Reconciled(result))
      modifies this`children, this`intervals, this`seen, this`ignored, this`duplicates, this`trades, this`fillInputs, this`anonymous,
               this`maker, this`taker, this`rejectStreak, this`lastReject, this`rejects, this`status, this`summary,
               this`rateLimitedUntil, tracker, venue
      ensures GateOk() && Evolves(old(venue.state), venue.state)
      ensures ResolvedSoFar(old(View()), venue.state, answers, fault) && |answers| <= |old(View()).children|
      ensures View() == ConcludedExact(Resolved(old(View()), answers), now, fault, result)
    {
      hide Evolves, AnsweredOk, Resolved, NoHaltUnknown, ConcludedExact, GateOk, Tied, VenueOk, Inv, FreshOk, ApplyEvidence, Fits;
      EvidenceTied(cfg, w, result);
      InvVenue(cfg, w);
      EvolvesReflexive(w.venue);
      fault, answers := ResolveUnknownChildren(w.venue);
      if fault.Banned? { ResolvedFits(cfg, w, venue.state, result, answers, fault); }
      ConcludeExact(fault, result);
    }

    /** The same for a whole fetched result. */
    method TakeResultExact(result: ReconciliationResult, ghost w: World) returns (fault: Lookup, ghost answers: seq<Lookup>)
      requires GateOk() && tracker.target == cfg.required && View() == w.rec && venue.state == w.venue
      requires Inv(cfg, w) && w.rec.call == Idle && FreshOk(w.venue, Reconciled(result))
      modifies this`children, this`intervals, this`seen, this`ignored, this`duplicates, this`trades, this`fillInputs, this`anonymous,
               this`maker, this`taker, this`rejectStreak, this`lastReject, this`rejects, this`status, this`summary,
               this`rateLimitedUntil, tracker, venue
      ensures GateOk() && Evolves(old(venue.state), venue.state)
      ensures ResolvedSoFar(ApplyEvidence(old(View()), result), venue.state, answers, fault)
      ensures |answers| <= |ApplyEvidence(old(View()), result).children|
      ensures View() == ConcludedExact(Resolved(ApplyEvidence(old(View()), result), answers), now, fault, result)
    {
      hide View, Evolves, ResolvedSoFar, Resolved, ConcludedExact, GateOk, Tied, VenueOk, ApplyEvidence, Inv, FreshOk;
      TakeEvidence(result);
      fault, answers := ResolveAndConclude(result, w);
    }

    /** _apply_reconciliation_result_locked with exact lookups. */
    method ApplyResultExactLocked(result: ReconciliationResult) returns (raised: bool)
      requires Valid() && FreshOk(venue.state, Reconciled(result))
      modifies this, tracker, venue
      ensures Valid() && now == old(now)
      ensures forall earlier :: Continues(earlier, old(run)) ==> Continues(earlier, run)
      ensures SameCourse(old(View()), View())
      ensures DeliveredThis(old(run), run, result) && NoneAsked(old(run), run)
      ensures raised ==> Erred(run, |old(run.events)|)
    {
      hide IsRun, Inv, StepAt, Step, Continues, Evolves, ResolvedSoFar, DeliveredThis, ApplyEvidence, Resolved, ConcludedExact, GateOk, SameCourse, FreshOk, Tied,
           VenueOk, Erred;
      RunStarted(cfg, run);
      ghost var w := Last(run);
      CurrentInv(cfg, run);
      assert w.rec.call == Idle;
      ContinuesReflexive(run);
      var fault;
      ghost var answers;
      fault, answers := TakeResultExact(result, w);
      ExactConcluded(cfg, w, venue.state, result, answers, fault);
      ghost var w' := World(View(), venue.state, now);
      assert w' == World(ConcludedExact(Resolved(ApplyEvidence(w.rec, result), answers), w.now, fault, result), venue.state, w.now)
      by { hide View; }
      NoteExactDelivery(w, result, AllAnswers(answers, fault, |ApplyEvidence(w.rec, result).children|));
      JustDelivered(old(run), run, result, AllAnswers(answers, fault, |ApplyEvidence(w.rec, result).children|));
      if fault.Raised? { DeliveryErred(cfg, old(run), run, venue.state, result, answers); }
      var ok := AssertExposureInvariant();
      raised := fault.Raised?;
    }

    // ---- the parent stops ----

    /** A parent transition, recorded as a step while the run is being kept. */
    method StopRecorded(target: ExecutionStatus, ghost kept: bool)
      requires TransitionExecution(status, target) == Some(target)
      requires kept ==> Valid() && MayStop(cfg, View(), target)
      modifies this`status, this`summary, this`run
      ensures View() == Terminate(old(View()), target)
      ensures kept ==> Valid() && NoneAsked(old(run), run)
      ensures forall earlier :: kept && Continues(earlier, old(run)) ==> Continues(earlier, run)
    {
      hide Inv, StepAt, Continues, GateOk;
      ghost var before := View();
      TransitionTo(target);
      if kept {
        ghost var w := Last(run);
        ghost var w' := World(View(), venue.state, now);
        assert w' == w.(rec := Terminate(before, target)) by { hide View; }
        Advance(Stops(target), w');
      }
    }

    /** While the run is being kept the callers make sure that the target is filled. */
    method CompleteLocked(ghost kept: bool)
      requires kept ==> Valid() && TargetFilled(cfg, View())
      modifies this`status, this`summary, this`run
      ensures View() == Complete(old(View()))
      ensures kept ==> Valid() && NoneAsked(old(run), run)
      ensures forall earlier :: kept && Continues(earlier, old(run)) ==> Continues(earlier, run)
    {
      hide StepAt, Continues, IsRun, GateOk;
      if status == Running || status == Cancelling {
        StopRecorded(Completed, kept);
      }
    }

    method TerminalizeDeadlineLocked(ghost kept: bool)
      requires kept ==> Valid() && !TargetFilled(cfg, View())
      modifies this`status, this`summary, this`run
      ensures View() == TerminalizeDeadline(old(View()))
      ensures kept ==> Valid() && NoneAsked(old(run), run)
      ensures forall earlier :: kept && Continues(earlier, old(run)) ==> Continues(earlier, run)
    {
      hide StepAt, Continues, IsRun, GateOk;
      if status != Running {
        return;
      }
      if tracker.View().Reserved() > 0 {
        return;
      }
      StopRecorded(if tracker.confirmed > 0 then PartiallyCompleted else Expired, kept);
    }

    /** An order that fails its validation ends a running execution, whatever is outstanding; while
        the run is being kept its caller makes sure that nothing is. */
    method ExpireForValidation(ghost kept: bool)
      requires kept ==> Valid() && !TargetFilled(cfg, View()) && tracker.View().Reserved() == 0
      modifies this`status, this`summary, this`run
      ensures View() == Records.ExpireForValidation(old(View()))
      ensures kept ==> Valid()
      ensures forall earlier :: kept && Continues(earlier, old(run)) ==> Continues(earlier, run)
    {
      hide StepAt, Continues, IsRun, GateOk;
      if status == Running {
        StopRecorded(if tracker.confirmed > 0 then PartiallyCompleted else Expired, kept);
      }
    }

    method TerminalizeManualCancelLocked()
      requires Valid()
      modifies this`status, this`summary, this`run
      ensures Valid() && View() == TerminalizeManualCancel(cfg, old(View())) && NoneAsked(old(run), run)
      ensures forall earlier :: Continues(earlier, old(run)) ==> Continues(earlier, run)
    {
      hide StepAt, Continues, IsRun, GateOk;
      if status != Cancelling {
        return;
      }
      if tracker.confirmed >= cfg.required {
        CompleteLocked(true);
        return;
      }
      if tracker.View().Reserved() > 0 {
        return;
      }
      StopRecorded(if tracker.confirmed > 0 then PartiallyCompleted else ExecutionStatus.Cancelled, true);
    }

    /** _reconcile_locked with exact lookups: a ban fails the execution, a rate limit backs off,
        any other error is handed on. */
    method ReconcileLocked() returns (raised: bool, ghost heard: ReconcileAnswer)
      requires Valid()
      modifies this, tracker, venue
      ensures Valid() && now == old(now)
      ensures forall earlier :: Continues(earlier, old(run)) ==> Continues(earlier, run)
      ensures SameCourse(old(View()), View())
      ensures TakenOver(old(run), run, heard, raised, View(), now)
      ensures NoneAsked(old(run), run)
    {
      hide IsRun, Inv, StepAt, Continues, Evolves, SameCourse, GateOk, FreshOk, DeliveredThis, Erred;
      SameCourseReflexive(View());
      RunStarted(cfg, run);
      ContinuesReflexive(run);
      ghost var w := Last(run);
      CurrentInv(cfg, run);
      InvVenue(cfg, w);
      var answer := venue.ReconcileOrdersAndFills();
      heard := answer;
      NoteVenue(w.venue);
      ghost var asked := run;
      ContinuesReflexive(asked);
      assert NoneAsked(old(run), asked);
      hide NoneAsked;
      raised := false;
      match answer {
        case Reconciled(result) =>
          raised := ApplyResultExactLocked(result);
          ThisIsDeliveredEarlier(old(run), asked, run, result);
          ErredSince(run, |asked.events|, |old(run.events)|);
        case ReconcileBanned => FailAlone();
        case ReconcileLimited => BackOffAlone();
        case ReconcileRaised => raised := true;
      }
      if run != asked { NoneAskedMore(old(run), asked, run); }
    }

    /** A ban outside an order call. */
    method FailAlone()
      requires Valid()
      modifies this`status, this`summary, this`run
      ensures Valid() && SameCourse(old(View()), View()) && status.IsTerminal() && NoneAsked(old(run), run)
      ensures forall earlier :: Continues(earlier, old(run)) ==> Continues(earlier, run)
    {
      hide StepAt, Continues, IsRun, GateOk;
      if !status.IsTerminal() { ActiveStatus(); }
      if status == Running || status == Cancelling {
        StopRecorded(Failed, true);
      }
      var ok := AssertExposureInvariant();
    }

    method BackOffAlone()
      requires Valid()
      modifies this`rateLimitedUntil, this`run
      ensures Valid() && SameCourse(old(View()), View()) && rateLimitedUntil == Some(now + 1.0) && NoneAsked(old(run), run)
      ensures forall earlier :: Continues(earlier, old(run)) ==> Continues(earlier, run)
    {
      hide StepAt, Continues, GateOk;
      RecordRateLimitBackoff();
      Advance(BacksOff(rateLimitedUntil), World(View(), venue.state, now));
    }

    // ---- public calls ----

    /** Time passes while no call is in progress. */
    method TimePasses(later: real)
      requires Valid() && now <= later
      modifies this`now, this`run
      ensures Valid() && View() == old(View()) && Continues(old(run), run)
    {
      hide StepAt, Continues, GateOk;
      ContinuesReflexive(run);
      now := later;
      Advance(ClockTicks, World(View(), venue.state, now));
    }

    /** The exchange moves while no call is in progress. */
    method VenueActs()
      requires Valid()
      modifies venue, this`run
      ensures Valid() && View() == old(View()) && Continues(old(run), run)
    {
      hide Inv, StepAt, Continues, GateOk, Evolves;
      ContinuesReflexive(run);
      ghost var before := venue.state;
      CurrentInv(cfg, run);
      InvVenue(cfg, Last(run));
      venue.Move();
      NoteVenue(before);
    }

    /** apply_reconciliation_result, for any result whatever, after any results whatever. The ledger
        stays in order as long as the rows name orders of this execution. A result that is evidence
        of the venue, fetched at any earlier time and with a warning that may be believed, extends
        the run and cannot raise. */
    method ApplyReconciliationResult(result: ReconciliationResult) returns (raised: bool)
      requires GateOk() && tracker.target == cfg.required
      modifies this, tracker
      ensures now == old(now) && call == old(call) && GateOk()
      ensures raised <==> !Fits(cfg, ApplyResult(old(View()), result))
      ensures View() == if raised then ApplyResult(old(View()), result) else Idempotence.Deliver(cfg, old(View()), result)
      ensures !raised && (status == Running || status == Cancelling) ==> tracker.confirmed < cfg.required
      ensures !raised && status == Cancelling ==> tracker.View().Reserved() > 0
      ensures old(call) == Idle && LedgerRuns.Accounted(old(View())) && LedgerRuns.OwnRows(old(View()), result.orders) ==>
                LedgerRuns.Accounted(View())
      ensures old(Valid()) && ResultOk(venue.state, result) && WarningOk(venue.state, old(children), result) ==>
                !raised && Valid() && Continues(old(run), run)
    {
      hide StepAt, Continues, IsRun, GateOk, ApplyResult, ResultOk, WarningOk, Records.TerminalizeManualCancel, LedgerRuns.Accounted,
           LedgerRuns.OwnRows, Idempotence.Settle, Exposure.Reserved;
      ContinuesReflexive(run);
      ghost var good := Valid() && ResultOk(venue.state, result) && WarningOk(venue.state, children, result);
      ghost var before := View();
      if before.call == Idle && LedgerRuns.Accounted(before) && LedgerRuns.OwnRows(before, result.orders) {
        LedgerRuns.DeliverKeepsAccount(cfg, before, result);
      }
      if good { RunStarted(cfg, run); }
      ghost var w := if good then Last(run) else World(before, venue.state, now);
      TakeResult(result);
      if good {
        NoteDelivery(w, result);
        CurrentFits();
      }
      raised := !tracker.CanSubmit(0);
      if !raised {
        SettleLocked(good);
      }
    }

    /** Between calls of a run the ledger is in order. */
    lemma ValidIsAccounted()
      requires Valid()
      ensures LedgerRuns.Accounted(View())
    {
      hide IsRun, LedgerRuns.Accounted;
      RunStarted(cfg, run);
      LedgerRuns.RunsAreAccounted(cfg, run, |run.worlds| - 1);
    }

    lemma CurrentFits()
      requires Valid()
      ensures tracker.CanSubmit(0)
    {
      hide Inv, StepAt;
      CurrentInv(cfg, run);
      CommittedBelowTarget(cfg, Last(run));
    }

    /** What follows a reconciliation. */
    method SettleLocked(ghost kept: bool)
      requires kept ==> Valid()
      modifies this`status, this`summary, this`run
      ensures View() == Idempotence.Settle(cfg, old(View()))
      ensures status == Running || status == Cancelling ==> tracker.confirmed < cfg.required
      ensures status == Cancelling ==> tracker.View().Reserved() > 0
      ensures kept ==> Valid()
      ensures forall earlier :: kept && Continues(earlier, old(run)) ==> Continues(earlier, run)
    {
      hide StepAt, Continues, IsRun, GateOk;
      var filled := tracker.confirmed >= cfg.required;
      if status == Cancelling {
        if filled {
          StopRecorded(Completed, kept);
        } else if tracker.View().Reserved() == 0 {
          StopRecorded(if tracker.confirmed > 0 then PartiallyCompleted else ExecutionStatus.Cancelled, kept);
        }
      } else if status == Running && filled {
        StopRecorded(Completed, kept);
      }
    }

    /** reconcile_execution: unless it is backing off or an error is handed on, a fetched result is
        taken over, or a ban has ended the execution, or a rate limit has started a back-off; an
        execution that still runs has not filled its target, and one that is still cancelling has
        something outstanding. */
    method ReconcileExecution() returns (raised: bool, ghost heard: ReconcileAnswer)
      requires Valid()
      modifies this, tracker, venue
      ensures Valid() && now == old(now) && Continues(old(run), run)
      ensures old(Blocked()) ==> !raised && View() == old(View())
      ensures !old(Blocked()) ==> TakenOver(old(run), run, heard, raised, View(), now)
      ensures !raised && !old(Blocked()) && !status.IsTerminal() ==> !TargetFilled(cfg, View())
      ensures !raised && !old(Blocked()) && status == Cancelling ==> tracker.View().Reserved() > 0
    {
      hide StepAt, Continues, IsRun, GateOk, TakenOver, Exposure.Reserved;
      ContinuesReflexive(run);
      heard := ReconcileRaised;
      var blocked := RateLimitBackoffBlocks();
      if blocked {
        return false, heard;
      }
      ghost var started := run;
      ContinuesReflexive(started);
      raised, heard := ReconcileLocked();
      ghost var reconciled := run;
      ContinuesReflexive(reconciled);
      ghost var r := View();
      if !raised {
        if !status.IsTerminal() { ActiveStatus(); }
        SettleLocked(true);
        SettledFrame(cfg, r);
      }
      TakenOverAround(old(run), started, reconciled, run, heard, raised, r, View(), now);
    }

    method SetCancelling()
      requires status == Running
      modifies this`status, this`cancelRequested
      ensures View() == old(View()).(status := ExecutionStatus.Cancelling, cancelRequested := true)
    {
      status, cancelRequested := TransitionExecution(status, ExecutionStatus.Cancelling).value, true;
    }

    method RequestCancel()
      requires Valid() && status == Running
      modifies this`status, this`cancelRequested, this`run
      ensures Valid() && status == Cancelling && cancelRequested && children == old(children) && NoneAsked(old(run), run)
      ensures forall earlier :: Continues(earlier, old(run)) ==> Continues(earlier, run)
    {
      hide IsRun, StepAt, Continues, GateOk;
      RunStarted(cfg, run);
      ghost var w := Last(run);
      SetCancelling();
      ghost var w' := World(View(), venue.state, now);
      assert w' == w.(rec := w.rec.(status := ExecutionStatus.Cancelling, cancelRequested := true)) by { hide View; }
      Advance(CancelIsRequested, w');
    }

    ghost predicate Blocked()
      reads `rateLimitedUntil, `now
    {
      rateLimitedUntil.Some? && now < rateLimitedUntil.value
    }

    /** Reconcile, then cancel what is live. */
    method ReconcileAndSweep() returns (raised: bool, ghost heard: ReconcileAnswer)
      requires Valid() && status == Cancelling && cancelRequested
      modifies this, tracker, venue
      ensures Valid() && now == old(now) && cancelRequested && (status == Cancelling || status.IsTerminal())
      ensures forall earlier :: Continues(earlier, old(run)) ==> Continues(earlier, run)
      ensures !raised ==> SweptOnce(cfg, old(run), run)
      ensures raised ==> heard.ReconcileRaised? || Erred(run, |old(run.events)|)
    {
      hide StepAt, IsRun, GateOk, Exposure.Reserved, SweepAt, Swept, SweptOnce, NoneAsked, DeliveredThis, Erred;
      ContinuesReflexive(run);
      raised, heard := ReconcileLocked();
      if raised {
        return;
      }
      ghost var reconciled := run;
      ContinuesReflexive(reconciled);
      RunLength(cfg, reconciled);
      var any := CancelActiveChildren();
      ContinuesReflexive(run);
      RunLength(cfg, run);
      NoneAskedYet(run);
      OneSweep(cfg, old(run), reconciled, run, run);
    }

    /** Reconcile again, and stop if nothing is left. */
    method ReconcileAndStop() returns (raised: bool, ghost heard: ReconcileAnswer)
      requires Valid() && status == Cancelling && cancelRequested
      modifies this, tracker, venue
      ensures Valid() && now == old(now) && cancelRequested && NoneAsked(old(run), run)
      ensures forall earlier :: Continues(earlier, old(run)) ==> Continues(earlier, run)
      ensures !raised ==> status.IsTerminal() || tracker.View().Reserved() > 0
      ensures !raised ==> Delivered(old(run), run) || status.IsTerminal() || Blocked()
      ensures raised ==> heard.ReconcileRaised? || Erred(run, |old(run.events)|)
    {
      hide StepAt, IsRun, GateOk, Exposure.Reserved, NoneAsked, Delivered, DeliveredThis, Erred;
      ContinuesReflexive(run);
      raised, heard := ReconcileLocked();
      if raised {
        return;
      }
      ghost var reconciled := run;
      ContinuesReflexive(reconciled);
      if heard.Reconciled? { ThisIsDelivered(old(run), reconciled, heard.result); }
      if tracker.confirmed >= cfg.required {
        CompleteLocked(true);
      } else {
        TerminalizeManualCancelLocked();
      }
      NoneAskedMore(old(run), reconciled, run);
      DeliveredEarlier(old(run), reconciled, run);
    }

    /** Reconcile, cancel what is live, reconcile again, and stop if nothing is left. */
    method CancelAndReconcile() returns (raised: bool, ghost heard: ReconcileAnswer)
      requires Valid() && status == Cancelling && cancelRequested
      modifies this, tracker, venue
      ensures Valid() && now == old(now) && cancelRequested
      ensures forall earlier :: Continues(earlier, old(run)) ==> Continues(earlier, run)
      ensures !raised ==> status.IsTerminal() || tracker.View().Reserved() > 0
      ensures !raised ==> SweptOnce(cfg, old(run), run)
      ensures !raised ==> Delivered(old(run), run) || status.IsTerminal() || Blocked()
      ensures raised ==> heard.ReconcileRaised? || Erred(run, |old(run.events)|)
    {
      hide StepAt, IsRun, GateOk, Exposure.Reserved, SweptOnce, NoneAsked, Delivered, Erred;
      ContinuesReflexive(run);
      raised, heard := ReconcileAndSweep();
      if raised || status.IsTerminal() {
        return;
      }
      ghost var swept := run;
      ContinuesReflexive(swept);
      raised, heard := ReconcileAndStop();
      RunLength(cfg, run);
      SweptOnceStays(cfg, old(run), swept, run);
      DeliveredEarlier(old(run), swept, run);
      ErredEarlier(old(run), swept, run);
    }

    /** cancel_execution: unless it is backing off or an error is handed on, every live child is
        asked to be cancelled, and the execution ends or still has something outstanding. */
    method CancelExecution() returns (raised: bool, ghost heard: ReconcileAnswer)
      requires Valid()
      modifies this, tracker, venue
      ensures Valid() && now == old(now) && Continues(old(run), run)
      ensures old(status).IsTerminal() ==> View() == old(View())
      ensures !old(status).IsTerminal() ==> cancelRequested
      ensures !raised && !old(Blocked()) ==> status.IsTerminal() || tracker.View().Reserved() > 0
      ensures !raised && !old(Blocked()) && !old(status).IsTerminal() ==> SweptOnce(cfg, old(run), run)
      ensures old(Blocked()) ==> NoneAsked(old(run), run) && children == old(children)
      ensures !raised && !old(Blocked()) ==> Delivered(old(run), run) || status.IsTerminal() || Blocked()
      ensures raised ==> heard.ReconcileRaised? || Erred(run, |old(run.events)|)
    {
      hide StepAt, IsRun, GateOk, Exposure.Reserved, SweptOnce, NoneAsked, Delivered, Erred;
      ContinuesReflexive(run);
      NoneAskedYet(run);
      heard := ReconcileRaised;
      if status.IsTerminal() {
        return false, heard;
      }
      ActiveStatus();
      if status != Cancelling {
        RequestCancel();
      }
      ghost var requested := run;
      ContinuesReflexive(requested);
      var blocked := RateLimitBackoffBlocks();
      ghost var started := run;
      ContinuesReflexive(started);
      NoneAskedMore(old(run), requested, started);
      if blocked {
        return false, heard;
      }
      raised, heard := CancelAndReconcile();
      EventsGrow(old(run), started);
      ErredSince(run, |started.events|, |old(run.events)|);
      if !raised {
        SweptOnceSince(cfg, old(run), started, run);
        DeliveredEarlier(old(run), started, run);
      }
    }

    /** A status that is not terminal is RUNNING, or CANCELLING after a request. */
    lemma ActiveStatus()
      requires Valid() && !status.IsTerminal()
      ensures status == Running || status == Cancelling
      ensures cancelRequested <==> status == Cancelling
    {
      hide BooksOk, Tied, Coupling.Traced, CapOk, SingleOk, StepAt;
      CurrentInv(cfg, run);
    }

    // ---- run_once ----

    /** Cancel what is live, look again, and complete or stop at the deadline. */
    method CancelAllAndTerminalize() returns (raised: bool)
      requires Valid()
      modifies this, tracker, venue
      ensures Valid() && now == old(now)
      ensures forall earlier :: Continues(earlier, old(run)) ==> Continues(earlier, run)
      ensures !raised && old(status) in {Running, Failed} ==> status.IsTerminal() || tracker.View().Reserved() > 0
      ensures !raised ==> status.IsTerminal() || !TargetFilled(cfg, View())
      ensures Swept(cfg, Active, run, |old(run.events)|) && openings == old(openings) && lastSequence == old(lastSequence)
      ensures raised ==> Erred(run, |old(run.events)|)
    {
      hide StepAt, Continues, IsRun, GateOk, Exposure.Reserved, Settled, SweepAt, Swept, NoneAsked, Erred;
      ContinuesReflexive(run);
      raised := false;
      var any := CancelActiveChildren();
      if status.IsTerminal() {
        return;
      }
      ghost var swept := run;
      ContinuesReflexive(swept);
      raised := RefreshOrderStates();
      ErredEarlier(old(run), swept, run);
      if !raised {
        if !status.IsTerminal() { ActiveStatus(); }
        if tracker.confirmed >= cfg.required {
          CompleteLocked(true);
        } else {
          TerminalizeDeadlineLocked(true);
        }
      }
      RunLength(cfg, run);
      SweptContinues(cfg, Active, swept, run, |old(run.events)|, |old(run.events)|);
    }

    /** Market data went stale: look again, and past the deadline cancel what is live and stop. */
    method HandleStaleMarket() returns (raised: bool)
      requires Valid()
      modifies this, tracker, venue
      ensures Valid() && now == old(now) && openings == old(openings) && lastSequence == old(lastSequence)
      ensures forall earlier :: Continues(earlier, old(run)) ==> Continues(earlier, run)
      ensures EndsWell(cfg, old(status), View(), now, Sound)
      ensures raised ==> Erred(run, |old(run.events)|)
      ensures !raised && cfg.DeadlineReached(now) ==> status.IsTerminal() || !TargetFilled(cfg, View())
      ensures old(tracker.View().Reserved()) == 0 && !old(TargetFilled(cfg, View())) ==> !TargetFilled(cfg, View())
      ensures !raised && cfg.DeadlineReached(now) && old(status) in {Running, Failed}
              ==> status.IsTerminal() || (tracker.View().Reserved() > 0 && Swept(cfg, Active, run, |old(run.events)|))
    {
      hide StepAt, Continues, IsRun, GateOk, Settled, SweepAt, Swept, Exposure.Reserved, Erred;
      RunStarted(cfg, run);
      ghost var from := |run.events|;
      ContinuesReflexive(run);
      raised := RefreshOrderStates();
      ghost var looked := run;
      ContinuesReflexive(looked);
      if !raised && cfg.DeadlineReached(now) {
        raised := CancelAllAndTerminalize();
        EventsGrow(old(run), looked);
        ErredEarlier(old(run), looked, run);
        SweptSince(cfg, Active, run, |looked.events|, from);
      }
      if old(tracker.View().Reserved()) == 0 {
        RunStarted(cfg, run);
        StaysUnfilled(cfg, old(run), run);
      }
    }

    predicate ShouldTerminalizeAggressive()
      reads this, tracker
    {
      cfg.UseAggressivePrice(now) && aggressive != {} && tracker.View().Reserved() == 0
    }

    predicate ShouldCancelForAggressive()
      reads this
    {
      cfg.UseAggressivePrice(now) && PassiveShown(children, aggressive)
    }

    /** _retryable_order_reject_gate_blocks: too soon after the last reject, or at the same price
        against the same ask for a buyer, the same bid for a seller. */
    method RejectGateBlocks(price: int, bid: int, ask: int) returns (blocked: bool)
      requires GateOk()
      ensures blocked <==> StillRejected(cfg, View(), now, price, bid, ask)
    {
      if rejectStreak == 0 {
        return false;
      }
      var last := lastReject.value;
      if now - last.time < 1.0 {
        return true;
      }
      return price == last.price && Crossing(cfg.side, bid, ask) == Crossing(cfg.side, last.bid, last.ask);
    }

    /** How much a child may ask for now. */
    function DemandQuantity(step: nat): nat
      requires cfg.duration > 0.0 && cfg.slices > 0 && step > 0
      reads this, tracker
    {
      match cfg.algorithm
      case Twap =>
        var scheduled := SnappedSchedule(cfg.required, now - cfg.started, cfg.duration, cfg.slices);
        FloorToStep(SafeChildQuantity(ScheduledDeficit(scheduled, tracker.confirmed), tracker.View().Reserved()), step)
      case Chase =>
        FloorToStep(tracker.AvailableToSubmit() as real, step)
    }

    /** When the engine may think about submitting. */
    ghost predicate ReadyToSubmit()
      reads this, tracker, venue
    {
      && Valid() && (status == Running || status == Failed) && !cancelRequested
      && (cfg.DeadlineReached(now) ==> cfg.policy == AggressiveWithinRange)
    }

    /** A TWAP run has one aggressive attempt, unless the last deadline decision opened another. */
    ghost predicate AttemptLeft()
      reads this
    {
      cfg.algorithm == Twap && cfg.UseAggressivePrice(now) ==> aggressive == {} || attemptOpen
    }

    /** Records the deadline decision. */
    ghost method NoteDecision()
      requires Valid() && !ShouldTerminalizeAggressive()
      modifies this`attemptOpen, this`openings, this`run
      ensures Valid() && View() == Decide(cfg, old(View()), now)
      ensures attemptOpen == (ShouldCancelForAggressive() && aggressive != {} && tracker.View().Reserved() > 0)
      ensures openings == old(openings) + if attemptOpen then 1 else 0
      ensures forall earlier :: Continues(earlier, old(run)) ==> Continues(earlier, run)
    {
      hide StepAt, Continues, IsRun, GateOk, PassiveShown, Exposure.Reserved;
      RunStarted(cfg, run);
      ghost var w := Last(run);
      SetDecision(ShouldCancelForAggressive() && aggressive != {} && tracker.View().Reserved() > 0);
      ghost var w' := World(View(), venue.state, now);
      assert w' == w.(rec := Decide(cfg, w.rec, w.now)) by { hide View; }
      hide View;
      Advance(Decides, w');
    }

    ghost method SetDecision(open: bool)
      requires open == OpensAttempt(cfg, View(), now)
      modifies this`attemptOpen, this`openings
      ensures View() == Decide(cfg, old(View()), now) && attemptOpen == open
      ensures openings == old(openings) + if open then 1 else 0
    {
      hide OpensAttempt;
      attemptOpen, openings := open, openings + if open then 1 else 0;
    }

    /** _build_child_demand_locked. Prices and the outcome of the validation are arbitrary; given
        them, the engine asks for the most that fits, in quantity steps, and refrains only for the
        reasons it has. */
    method BuildChildDemand() returns (demand: Demand, ghost market: MarketAnswer, ghost price: int, ghost validation: Validation)
      requires ReadyToSubmit() && AttemptLeft() && tracker.View().Reserved() == 0
      modifies this`status, this`summary, this`run, venue
      ensures Valid() && EndsWell(cfg, old(status), View(), now, validation)
      ensures forall earlier :: Continues(earlier, old(run)) ==> Continues(earlier, run)
      ensures demand.Ask? ==>
                MaySubmit(cfg, View(), now, demand.quantity, demand.price, demand.postOnly, demand.bid, demand.ask)
      ensures demand.Stale? <==> market.NoFreshData?
      ensures !market.Quote? ==> validation == Sound
      ensures demand.DemandRaised? <==> market.MarketRaised?
      ensures market.Quote? ==> market.step > 0 && Sized(cfg, old(View()), now, demand, market, price, validation)
      ensures market.Quote? && validation != Sound && (validation == Unsound || validation == OutsideRange(true) || cfg.DeadlineReached(now))
              ==> status.IsTerminal()
      ensures validation == Sound ==> View() == old(View())
    {
      hide Inv, StepAt, Continues, Evolves, GateOk, IsRun, Sized, MaySubmit;
      RunStarted(cfg, run);
      ghost var w := Last(run);
      CurrentInv(cfg, run);
      InvVenue(cfg, w);
      var answer := venue.GetBestBidAsk();
      market, price, validation := answer, 0, Sound;
      NoteVenue(w.venue);
      match answer {
        case NoFreshData => demand := Stale;
        case MarketRaised => demand := DemandRaised;
        case Quote(bid, ask, step) => demand, price, validation := SizeChild(bid, ask, step);
      }
    }

    method SizeChild(bid: int, ask: int, step: nat) returns (demand: Demand, ghost price: int, ghost validation: Validation)
      requires ReadyToSubmit() && AttemptLeft() && tracker.View().Reserved() == 0 && step > 0
      modifies this`status, this`summary, this`run
      ensures Valid() && EndsWell(cfg, old(status), View(), now, validation) && (demand.Ask? || demand.NoDemand?)
      ensures forall earlier :: Continues(earlier, old(run)) ==> Continues(earlier, run)
      ensures demand.Ask? ==>
                MaySubmit(cfg, View(), now, demand.quantity, demand.price, demand.postOnly, demand.bid, demand.ask)
      ensures Sized(cfg, old(View()), now, demand, Quote(bid, ask, step), price, validation)
      ensures validation != Sound && (validation == Unsound || validation == OutsideRange(true) || cfg.DeadlineReached(now))
              ==> status.IsTerminal()
      ensures validation == Sound ==> View() == old(View())
    {
      hide Inv, StepAt, Continues, Evolves, GateOk, LargestDemand, IsRun, DemandQuantity, CapOk, StillRejected, GateOpen;
      RunStarted(cfg, run);
      validation, price := Sound, 0;
      var postOnly := !cfg.UseAggressivePrice(now);
      var quantity := DemandQuantity(step);
      DemandIsLargest(step);
      if quantity <= 0 {
        demand := NoDemand;
        return;
      }
      DemandFits(step, quantity);
      var asked: int := *;
      var check: Validation := *;
      validation, price := check, asked;
      if check != Sound {
        RefuseDemand(check);
        demand := NoDemand;
        return;
      }
      GateOpens(cfg, View(), now, asked, bid, ask);
      if postOnly {
        var blocked := RejectGateBlocks(asked, bid, ask);
        if blocked {
          demand := NoDemand;
          return;
        }
      }
      demand := Ask(quantity, asked, postOnly, bid, ask);
    }

    /** A child order that failed its validation: for good, or for as long as the deadline allows. */
    method RefuseDemand(validation: Validation)
      requires Valid() && (status == Running || status == Failed) && validation != Sound
      requires tracker.View().Reserved() == 0 && !TargetFilled(cfg, View())
      modifies this`status, this`summary, this`run
      ensures Valid() && EndsWell(cfg, old(status), View(), now, validation)
      ensures validation == Unsound || validation == OutsideRange(true) || cfg.DeadlineReached(now) ==> status.IsTerminal()
      ensures forall earlier :: Continues(earlier, old(run)) ==> Continues(earlier, run)
    {
      hide StepAt, Continues, IsRun, GateOk;
      match validation {
        case OutsideRange(shapeRefused) =>
          if shapeRefused {
            ExpireForValidation(true);
          } else if cfg.DeadlineReached(now) {
            ExpireForValidation(true);
          }
        case TemporarilyUntradeable =>
          if cfg.DeadlineReached(now) {
            TerminalizeDeadlineLocked(true);
          }
        case Unsound => ExpireForValidation(true);
      }
    }

    lemma DemandFits(step: nat, quantity: nat)
      requires Valid() && cfg.Valid() && LargestDemand(cfg, View(), now, step, quantity) && quantity > 0
      ensures DemandOk(cfg, View(), now, quantity) && !TargetFilled(cfg, View())
    {
      hide StepAt, IsRun, GateOk, SnappedSchedule;
    }

    /** The quantity asked for is the largest multiple of the step that target and schedule admit. */
    lemma DemandIsLargest(step: nat)
      requires Valid() && cfg.Valid() && step > 0 && tracker.View().Reserved() == 0
      ensures LargestDemand(cfg, View(), now, step, DemandQuantity(step))
    {
      hide StepAt, IsRun, GateOk, FloorToStep, SnappedSchedule;
      var scheduled := SnappedSchedule(cfg.required, now - cfg.started, cfg.duration, cfg.slices);
      ScheduleIsMonotone(cfg.required, now - cfg.started, now - cfg.started, cfg.duration, cfg.slices);
      var quantity := DemandQuantity(step);
      match cfg.algorithm {
        case Twap =>
          var value := SafeChildQuantity(ScheduledDeficit(scheduled, tracker.confirmed), tracker.View().Reserved());
          FloorToStepIsLargestMultiple(value, step, 0);
          MultipleOfStep(value, step);
        case Chase =>
          FloorToStepIsLargestMultiple(tracker.AvailableToSubmit() as real, step, 0);
          MultipleOfStep(tracker.AvailableToSubmit() as real, step);
      }
    }

    /** _maybe_reprice_chase_locked: whether to reprice is an arbitrary decision. */
    method MaybeRepriceChase() returns (answer: Reprice, ghost market: MarketAnswer, ghost wanted: bool)
      requires Valid()
      modifies this, tracker, venue
      ensures Valid() && now == old(now)
      ensures forall earlier :: Continues(earlier, old(run)) ==> Continues(earlier, run)
      ensures SameCourse(old(View()), View())
      ensures if answer.Repriced? then Swept(cfg, Active, run, |old(run.events)|) else View() == old(View())
      ensures
        var live := exists i :: 0 <= i < |old(children)| && old(children)[i].status in {Open, PartiallyFilled};
        && (answer.Repriced? <==> live && market.Quote? && wanted)
        && (answer.RepriceStale? <==> live && market.NoFreshData?)
        && (answer.RepriceRaised? <==> live && market.MarketRaised?)
    {
      hide IsRun, Inv, StepAt, Continues, Evolves, GateOk, SameCourse, SweepAt, Swept;
      SameCourseReflexive(View());
      if !exists i :: 0 <= i < |children| && children[i].status.IsLive() {
        return Kept, NoFreshData, false;
      }
      RunStarted(cfg, run);
      ghost var w := Last(run);
      CurrentInv(cfg, run);
      InvVenue(cfg, w);
      var quote := venue.GetBestBidAsk();
      market, wanted := quote, false;
      NoteVenue(w.venue);
      if quote.NoFreshData? {
        return RepriceStale, market, wanted;
      }
      if quote.MarketRaised? {
        return RepriceRaised, market, wanted;
      }
      var reprice: bool := *;
      wanted := reprice;
      if !reprice {
        return Kept, market, wanted;
      }
      var any := CancelActiveChildren();
      SweptSince(cfg, Active, run, |old(run.events)| + 1, |old(run.events)|);
      return Repriced, market, wanted;
    }

    /** A live order of a CHASE execution may have to go before a new one is asked for. */
    method RepriceLive() returns (done: bool, raised: bool, ghost sight: Sight)
      requires ReadyToSubmit() && (AttemptLeft() || tracker.View().Reserved() > 0) && !TargetFilled(cfg, View())
      modifies this, tracker, venue
      ensures Valid() && now == old(now) && openings == old(openings) && sight.healthy && sight.validation == Sound
      ensures forall earlier :: Continues(earlier, old(run)) ==> Continues(earlier, run)
      ensures raised || status.IsTerminal() || !TargetFilled(cfg, View()) || (cfg.algorithm == Chase && sight.repriced)
      ensures EndsWell(cfg, old(status), View(), now, Sound)
      ensures raised ==> Erred(run, |old(run.events)|) || sight.market == Some(MarketRaised)
      ensures !raised ==> StaleHandled(cfg, old(run), run, sight)
      ensures !raised ==> Consulted(cfg, old(run), run, sight)
      ensures done && !raised ==> Refrains(cfg, Last(run), sight)
      ensures !done ==> !raised && ReadyToSubmit() && AttemptLeft() && tracker.View().Reserved() == 0 && sight.market.None?
    {
      hide StepAt, Continues, IsRun, GateOk, Exposure.Reserved, Settled, LargestDemand, StillRejected, SweepAt, Swept, Erred;
      RunStarted(cfg, run);
      ContinuesReflexive(run);
      sight, done, raised := UNSEEN, false, false;
      if tracker.View().Reserved() > 0 {
        if cfg.algorithm == Chase {
          var answer;
          ghost var market, wanted;
          answer, market, wanted := MaybeRepriceChase();
          ghost var asked := run;
          ContinuesReflexive(asked);
          if answer.RepriceStale? {
            sight := sight.(market := Some(NoFreshData), repriced := true);
            raised := HandleStaleMarket();
            ErredEarlier(old(run), asked, run);
            RunStarted(cfg, run);
            StaleHandledEarlier(cfg, old(run), asked, run, sight);
            return true, raised, sight;
          }
          if answer.RepriceRaised? {
            return true, true, sight.(market := Some(MarketRaised));
          }
          if answer.Repriced? {
            sight := sight.(wanted := Some(true), repriced := true);
            raised := RefreshOrderStates();
            ErredEarlier(old(run), asked, run);
            if raised {
              return true, raised, sight;
            }
            RunLength(cfg, run);
            SweptContinues(cfg, Active, asked, run, |old(run.events)|, |old(run.events)|);
          } else if market.Quote? {
            sight := sight.(wanted := Some(false));
          }
        }
        RunStarted(cfg, run);
        done := tracker.View().Reserved() > 0;
      }
    }

    /** The part of run_once that may submit: it submits the demand it has built, or had a reason
        to refrain. */
    method SubmitDemand() returns (raised: bool, ghost sight: Sight)
      requires ReadyToSubmit() && (AttemptLeft() || tracker.View().Reserved() > 0) && !TargetFilled(cfg, View())
      modifies this, tracker, venue
      ensures Valid() && now == old(now) && openings == old(openings) && sight.healthy
      ensures forall earlier :: Continues(earlier, old(run)) ==> Continues(earlier, run)
      ensures raised ==> Erred(run, |old(run.events)|) || sight.market == Some(MarketRaised)
      ensures !raised ==> StaleHandled(cfg, old(run), run, sight)
      ensures !raised ==> Consulted(cfg, old(run), run, sight)
      ensures !raised ==> Submitted(cfg, old(run), run, sight) || Refrains(cfg, Last(run), sight)
      ensures raised || status.IsTerminal() || !TargetFilled(cfg, View()) || (cfg.algorithm == Chase && sight.repriced)
      ensures EndsWell(cfg, old(status), View(), now, sight.validation)
    {
      hide StepAt, Continues, IsRun, GateOk, Exposure.Reserved, LargestDemand, StillRejected, Submitted, Refrains, MaySubmit, Erred;
      ContinuesReflexive(run);
      RunStarted(cfg, run);
      var done;
      done, raised, sight := RepriceLive();
      if done {
        return;
      }
      ghost var repriced := run;
      ContinuesReflexive(repriced);
      ghost var before := sight;
      raised, sight := AskAndSubmit(sight);
      ErredEarlier(old(run), repriced, run);
      RunStarted(cfg, run);
      StaleHandledEarlier(cfg, old(run), repriced, run, sight);
      ConsultedLater(cfg, old(run), repriced, run, before, sight);
      ContinuesReflexive(run);
      RunLength(cfg, run);
      TerminalStays(cfg, old(run), repriced);
      TerminalStays(cfg, repriced, run);
      if Submitted(cfg, repriced, run, sight) { SubmittedContinues(cfg, old(run), repriced, run, run, sight); }
    }

    /** A demand is built and submitted. */
    method AskAndSubmit(ghost before: Sight) returns (raised: bool, ghost sight: Sight)
      requires ReadyToSubmit() && AttemptLeft() && tracker.View().Reserved() == 0 && before.market.None? && before.validation == Sound
      modifies this, tracker, venue
      ensures Valid() && now == old(now) && openings == old(openings)
      ensures sight.healthy == before.healthy && sight.repriced == before.repriced && sight.wanted == before.wanted && sight.market.Some?
      ensures forall earlier :: Continues(earlier, old(run)) ==> Continues(earlier, run)
      ensures raised ==> Erred(run, |old(run.events)|) || sight.market == Some(MarketRaised)
      ensures !raised ==> StaleHandled(cfg, old(run), run, sight)
      ensures !raised ==> Submitted(cfg, old(run), run, sight) || Refrains(cfg, Last(run), sight)
      ensures raised || status.IsTerminal() || !TargetFilled(cfg, View()) || old(TargetFilled(cfg, View()))
      ensures EndsWell(cfg, old(status), View(), now, sight.validation)
    {
      hide StepAt, Continues, IsRun, GateOk, Exposure.Reserved, LargestDemand, StillRejected, Submitted, MaySubmit, Erred;
      ContinuesReflexive(run);
      RunStarted(cfg, run);
      var demand;
      ghost var market, price, validation;
      demand, market, price, validation := BuildChildDemand();
      sight := before.(market := Some(market), price := price, validation := validation);
      ghost var built := run;
      ContinuesReflexive(built);
      RunStarted(cfg, run);
      raised := false;
      match demand {
        case NoDemand =>
        case DemandRaised => raised := true;
        case Stale =>
          raised := HandleStaleMarket();
          ErredEarlier(old(run), built, run);
          RunStarted(cfg, run);
          StaleHandledEarlier(cfg, old(run), built, run, sight);
        case Ask(quantity, asked, postOnly, bid, ask) =>
          raised := SubmitAndSettle(quantity, asked, postOnly, bid, ask, sight);
          ErredEarlier(old(run), built, run);
          ContinuesReflexive(run);
          RunLength(cfg, run);
          if !raised { SubmittedContinues(cfg, old(run), built, run, run, sight); }
      }
    }

    method SubmitAndSettle(quantity: nat, price: int, postOnly: bool, bid: int, ask: int, ghost sight: Sight) returns (raised: bool)
      requires Valid() && MaySubmit(cfg, View(), now, quantity, price, postOnly, bid, ask) && sight.market.Some? && sight.market.value.Quote?
      requires Sized(cfg, View(), now, Ask(quantity, price, postOnly, bid, ask), sight.market.value, sight.price, sight.validation)
      modifies this, tracker, venue
      ensures Valid() && now == old(now) && openings == old(openings)
      ensures forall earlier :: Continues(earlier, old(run)) ==> Continues(earlier, run)
      ensures raised ==> Erred(run, |old(run.events)|)
      ensures !raised ==> Submitted(cfg, old(run), run, sight)
      ensures raised || status.IsTerminal() || !TargetFilled(cfg, View())
      ensures EndsWell(cfg, old(status), View(), now, sight.validation)
    {
      hide StepAt, Continues, IsRun, GateOk, MaySubmit, LargestDemand, StillRejected, Submitted, Exposure.Reserved, EndSubmit, BeginSubmit, NoneAsked, Erred;
      RunStarted(cfg, run);
      ContinuesReflexive(run);
      SubmissionUnfilled(quantity, price, postOnly, bid, ask);
      var outcome := SubmitChild(quantity, price, postOnly, bid, ask);
      ghost var submitted := run;
      ContinuesReflexive(submitted);
      RunLength(cfg, run);
      JustSubmitted(cfg, old(run), submitted, quantity, price, postOnly, bid, ask, outcome, sight);
      if outcome.SubmitRaised? {
        SubmissionErred(cfg, old(run), submitted, SubmitBegins(quantity, price, postOnly, bid, ask));
        return true;
      }
      raised := false;
      if outcome.SubmitNoData? {
        raised := HandleStaleMarket();
        ErredEarlier(old(run), submitted, run);
      } else {
        if !status.IsTerminal() { ActiveStatus(); }
        if tracker.confirmed >= cfg.required {
          CompleteLocked(true);
        }
      }
      RunLength(cfg, run);
      SubmittedContinues(cfg, old(run), old(run), submitted, run, sight);
    }

    /** What may be submitted is still to be filled. */
    lemma SubmissionUnfilled(quantity: nat, price: int, postOnly: bool, bid: int, ask: int)
      requires Valid() && cfg.Valid() && MaySubmit(cfg, View(), now, quantity, price, postOnly, bid, ask)
      ensures !TargetFilled(cfg, View()) && tracker.View().Reserved() == 0
    {
      hide StepAt, IsRun, GateOk, GateOpen, SnappedSchedule;
    }

    /** An execution with a live passive child has submitted nothing aggressive. */
    lemma NoPassiveLeft()
      requires Valid() && Settled(children) && aggressive != {}
      ensures !PassiveShown(children, aggressive)
    {
      hide BooksOk, Tied, Coupling.Traced, CapOk, SubmissionsOk, StreakOk, OutcomeOk, StepAt, Settled, SingleOk;
      CurrentInv(cfg, run);
      if PassiveShown(children, aggressive) {
        var i :| 0 <= i < |children| && children[i].status.IsLive() && children[i].id !in aggressive;
        SettledLiveIsLast(children, i);
        PassiveLast(children, aggressive, lastSequence);
      }
    }

    /** The health of the streams, the deadline decisions of run_once and its timeouts, after the
        first refresh. A second attempt is opened only when that refresh was cut short. */
    method DecideAfterRefresh() returns (raised: bool, ghost sight: Sight)
      requires Valid() && (status == Running || status == Failed) && !cancelRequested
      requires !TargetFilled(cfg, View())
      modifies this, tracker, venue
      ensures Valid() && now == old(now)
      ensures old(Settled(children)) ==> openings == old(openings)
      ensures forall earlier :: Continues(earlier, old(run)) ==> Continues(earlier, run)
      ensures EndsWell(cfg, old(status), View(), now, sight.validation)
      ensures raised ==> Erred(run, |old(run.events)|) || sight.market == Some(MarketRaised)
      ensures !raised ==> LooksAndActs(cfg, old(run), run, sight)
    {
      hide IsRun, Inv, StepAt, Continues, Evolves, GateOk, Exposure.Reserved, Settled, LooksAndActs, Erred;
      RunStarted(cfg, run);
      ContinuesReflexive(run);
      ghost var w := Last(run);
      CurrentInv(cfg, run);
      InvVenue(cfg, w);
      var healthy := venue.HealthCheckStreams();
      NoteVenue(w.venue);
      ghost var checked := run;
      ContinuesReflexive(checked);
      if healthy {
        raised, sight := DecideHealthy();
      } else {
        raised, sight := DecideUnhealthy();
      }
      ErredEarlier(old(run), checked, run);
      RunStarted(cfg, run);
      RunLength(cfg, run);
      ContinuesReflexive(run);
      if !raised { ActsEarlier(cfg, old(run), checked, run, sight); }
    }

    method DecideUnhealthy() returns (raised: bool, ghost sight: Sight)
      requires Valid() && (status == Running || status == Failed) && !cancelRequested
      requires !TargetFilled(cfg, View())
      modifies this, tracker, venue
      ensures Valid() && now == old(now) && openings == old(openings)
      ensures forall earlier :: Continues(earlier, old(run)) ==> Continues(earlier, run)
      ensures EndsWell(cfg, old(status), View(), now, sight.validation)
      ensures raised ==> Erred(run, |old(run.events)|)
      ensures !raised ==> LooksAndActs(cfg, old(run), run, sight)
    {
      hide IsRun, StepAt, Continues, GateOk, Exposure.Reserved, SweepAt, Swept, Submitted, Refrains, Erred;
      sight, raised := UNSEEN.(healthy := false), false;
      RunStarted(cfg, run);
      if cfg.DeadlineReached(now) {
        raised := CancelAllAndTerminalize();
        RunStarted(cfg, run);
      }
    }

    method DecideHealthy() returns (raised: bool, ghost sight: Sight)
      requires Valid() && (status == Running || status == Failed) && !cancelRequested
      requires !TargetFilled(cfg, View())
      modifies this, tracker, venue
      ensures Valid() && now == old(now)
      ensures old(Settled(children)) ==> openings == old(openings)
      ensures forall earlier :: Continues(earlier, old(run)) ==> Continues(earlier, run)
      ensures EndsWell(cfg, old(status), View(), now, sight.validation)
      ensures raised ==> Erred(run, |old(run.events)|) || sight.market == Some(MarketRaised)
      ensures !raised ==> LooksAndActs(cfg, old(run), run, sight)
    {
      hide IsRun, StepAt, Continues, GateOk, Exposure.Reserved, Settled, SweepAt, Swept, Submitted, LargestDemand, StillRejected, Erred;
      RunStarted(cfg, run);
      sight, raised := UNSEEN, false;
      if ShouldTerminalizeAggressive() {
        TerminalizeDeadlineLocked(true);
        RunStarted(cfg, run);
        return;
      }
      if cfg.DeadlineReached(now) && cfg.policy == CancelRemainder {
        if tracker.View().Reserved() > 0 || children != [] {
          raised := CancelAllAndTerminalize();
        } else {
          TerminalizeDeadlineLocked(true);
        }
        RunStarted(cfg, run);
        return;
      }
      if aggressive != {} && Settled(children) {
        NoPassiveLeft();
      }
      raised, sight := CancelDueChildren();
      RunStarted(cfg, run);
    }

    /** Past the deadline passive children make way for an aggressive one. */
    method CancelPassive() returns (stop: bool, raised: bool)
      requires ReadyToSubmit() && !TargetFilled(cfg, View()) && (AttemptLeft() || tracker.View().Reserved() > 0)
      requires ShouldCancelForAggressive() ==> AttemptLeft()
      modifies this, tracker, venue
      ensures Valid() && now == old(now) && openings == old(openings)
      ensures forall earlier :: Continues(earlier, old(run)) ==> Continues(earlier, run)
      ensures EndsWell(cfg, old(status), View(), now, Sound)
      ensures raised ==> Erred(run, |old(run.events)|)
      ensures if stop then raised || status.IsTerminal()
              else !raised && ReadyToSubmit() && !TargetFilled(cfg, View()) && (AttemptLeft() || tracker.View().Reserved() > 0)
      ensures !stop && cfg.UseAggressivePrice(now) ==> Swept(cfg, Passive, run, |old(run.events)|)
    {
      hide StepAt, Continues, IsRun, GateOk, Exposure.Reserved, Settled, SweepAt, Swept, Erred;
      RunStarted(cfg, run);
      ContinuesReflexive(run);
      stop, raised := false, false;
      if !ShouldCancelForAggressive() {
        if cfg.UseAggressivePrice(now) {
          NothingDue(cfg, Passive, run);
        }
        return;
      }
      var any := CancelChildren(Passive);
      if status.IsTerminal() {
        return true, false;
      }
      ghost var swept := run;
      ContinuesReflexive(swept);
      raised := RefreshOrderStates();
      ErredEarlier(old(run), swept, run);
      if raised {
        return true, true;
      }
      if tracker.confirmed >= cfg.required {
        if !status.IsTerminal() { ActiveStatus(); }
        CompleteLocked(true);
        return true, false;
      }
      RunLength(cfg, run);
      SweptContinues(cfg, Passive, swept, run, |old(run.events)|, |old(run.events)|);
    }

    method CancelTimedOut() returns (stop: bool, raised: bool)
      requires ReadyToSubmit() && !TargetFilled(cfg, View()) && (AttemptLeft() || tracker.View().Reserved() > 0)
      modifies this, tracker, venue
      ensures Valid() && now == old(now) && openings == old(openings)
      ensures forall earlier :: Continues(earlier, old(run)) ==> Continues(earlier, run)
      ensures EndsWell(cfg, old(status), View(), now, Sound)
      ensures raised ==> Erred(run, |old(run.events)|)
      ensures if stop then raised || status.IsTerminal()
              else !raised && ReadyToSubmit() && !TargetFilled(cfg, View()) && (AttemptLeft() || tracker.View().Reserved() > 0)
      ensures !stop ==> Swept(cfg, TimedOut, run, |old(run.events)|)
    {
      hide StepAt, Continues, IsRun, GateOk, Exposure.Reserved, Settled, SweepAt, Swept, Erred;
      RunStarted(cfg, run);
      ContinuesReflexive(run);
      stop, raised := false, false;
      var any := CancelChildren(TimedOut);
      if !any {
        return;
      }
      if status.IsTerminal() {
        return true, false;
      }
      ghost var swept := run;
      ContinuesReflexive(swept);
      raised := RefreshOrderStates();
      ErredEarlier(old(run), swept, run);
      if raised {
        return true, true;
      }
      if tracker.confirmed >= cfg.required {
        if !status.IsTerminal() { ActiveStatus(); }
        CompleteLocked(true);
        return true, false;
      }
      if ShouldTerminalizeAggressive() {
        TerminalizeDeadlineLocked(true);
        return true, false;
      }
      RunLength(cfg, run);
      SweptContinues(cfg, TimedOut, swept, run, |old(run.events)|, |old(run.events)|);
    }

    /** Cancels passive children past the deadline and timed-out ones, then goes on to submit. With
        an aggressive attempt on record something is outstanding here; a further attempt is opened
        exactly when a passive child still shows as open besides. */
    method CancelDueChildren() returns (raised: bool, ghost sight: Sight)
      requires ReadyToSubmit() && !TargetFilled(cfg, View())
      requires !ShouldTerminalizeAggressive()
      modifies this, tracker, venue
      ensures Valid() && now == old(now) && sight.healthy
      ensures openings == old(openings) + if old(ShouldCancelForAggressive() && aggressive != {}) then 1 else 0
      ensures forall earlier :: Continues(earlier, old(run)) ==> Continues(earlier, run)
      ensures raised || status.IsTerminal() || !TargetFilled(cfg, View()) || (cfg.algorithm == Chase && sight.repriced)
      ensures EndsWell(cfg, old(status), View(), now, sight.validation)
      ensures raised ==> Erred(run, |old(run.events)|) || sight.market == Some(MarketRaised)
      ensures !raised ==> StaleHandled(cfg, old(run), run, sight)
      ensures !raised ==> Consulted(cfg, old(run), run, sight)
      ensures !raised ==> Submitted(cfg, old(run), run, sight) || Refrains(cfg, Last(run), sight)
      ensures !raised ==> status.IsTerminal() || Swept(cfg, TimedOut, run, |old(run.events)|)
      ensures !raised && cfg.UseAggressivePrice(now) ==> status.IsTerminal() || Swept(cfg, Passive, run, |old(run.events)|)
    {
      hide StepAt, Continues, IsRun, GateOk, Exposure.Reserved, Settled, PassiveShown, SweepAt, Swept, Submitted, LargestDemand, StillRejected, Erred;
      sight := UNSEEN;
      RunStarted(cfg, run);
      ContinuesReflexive(run);
      NoteDecision();
      ghost var decided := run;
      ContinuesReflexive(decided);
      var stop;
      stop, raised := CancelPassive();
      RunStarted(cfg, run);
      ErredEarlier(old(run), decided, run);
      if stop {
        return;
      }
      ghost var passive := run;
      ContinuesReflexive(passive);
      raised, sight := CancelAndSubmit();
      ErredEarlier(old(run), passive, run);
      RunStarted(cfg, run);
      StaleHandledEarlier(cfg, old(run), passive, run, sight);
      ConsultedEarlier(cfg, old(run), passive, run, sight);
      ContinuesReflexive(run);
      RunLength(cfg, run);
      EventsGrow(old(run), decided);
      EventsGrow(old(run), passive);
      SweptSince(cfg, TimedOut, run, |passive.events|, |old(run.events)|);
      if cfg.UseAggressivePrice(now) { SweptContinues(cfg, Passive, passive, run, |decided.events|, |old(run.events)|); }
      TerminalStays(cfg, old(run), passive);
      TerminalStays(cfg, passive, run);
      if Submitted(cfg, passive, run, sight) { SubmittedContinues(cfg, old(run), passive, run, run, sight); }
    }

    /** Cancels timed-out children, then goes on to submit. */
    method CancelAndSubmit() returns (raised: bool, ghost sight: Sight)
      requires ReadyToSubmit() && !TargetFilled(cfg, View()) && (AttemptLeft() || tracker.View().Reserved() > 0)
      modifies this, tracker, venue
      ensures Valid() && now == old(now) && sight.healthy && openings == old(openings)
      ensures forall earlier :: Continues(earlier, old(run)) ==> Continues(earlier, run)
      ensures raised || status.IsTerminal() || !TargetFilled(cfg, View()) || (cfg.algorithm == Chase && sight.repriced)
      ensures EndsWell(cfg, old(status), View(), now, sight.validation)
      ensures raised ==> Erred(run, |old(run.events)|) || sight.market == Some(MarketRaised)
      ensures !raised ==> StaleHandled(cfg, old(run), run, sight)
      ensures !raised ==> Consulted(cfg, old(run), run, sight)
      ensures !raised ==> Submitted(cfg, old(run), run, sight) || Refrains(cfg, Last(run), sight)
      ensures !raised ==> status.IsTerminal() || Swept(cfg, TimedOut, run, |old(run.events)|)
    {
      hide StepAt, Continues, IsRun, GateOk, Exposure.Reserved, SweepAt, Swept, Submitted, LargestDemand, StillRejected, Erred;
      sight := UNSEEN;
      ContinuesReflexive(run);
      var stop;
      stop, raised := CancelTimedOut();
      RunStarted(cfg, run);
      if stop {
        return;
      }
      ghost var swept := run;
      ContinuesReflexive(swept);
      raised, sight := SubmitDemand();
      ErredEarlier(old(run), swept, run);
      RunStarted(cfg, run);
      StaleHandledEarlier(cfg, old(run), swept, run, sight);
      ConsultedEarlier(cfg, old(run), swept, run, sight);
      ContinuesReflexive(run);
      RunLength(cfg, run);
      SweptContinues(cfg, TimedOut, swept, run, |old(run.events)|, |old(run.events)|);
      TerminalStays(cfg, old(run), swept);
      TerminalStays(cfg, swept, run);
      if Submitted(cfg, swept, run, sight) { SubmittedContinues(cfg, old(run), swept, run, run, sight); }
    }

    /** run_once of a running execution of which no order is unknown. */
    method RunRunning() returns (raised: bool, ghost sight: Sight)
      requires Valid() && status == Running && !cancelRequested
      modifies this, tracker, venue
      ensures Valid() && now == old(now)
      ensures forall earlier :: Continues(earlier, old(run)) ==> Continues(earlier, run)
      ensures Refreshed(old(run), run)
      ensures openings == old(openings) || CutShort(old(run), run)
      ensures EndsWell(cfg, old(status), View(), now, sight.validation)
      ensures raised ==> Erred(run, |old(run.events)|) || sight.market == Some(MarketRaised)
      ensures !raised ==> LooksAndActs(cfg, old(run), run, sight)
    {
      hide StepAt, IsRun, GateOk, Exposure.Reserved, Settled, Refreshed, CutShort, LooksAndActs, Erred;
      ContinuesReflexive(run);
      sight := UNSEEN;
      raised := RefreshOrderStates();
      RunStarted(cfg, run);
      if raised {
        return;
      }
      ghost var refreshed := run;
      ContinuesReflexive(refreshed);
      if tracker.confirmed >= cfg.required {
        if !status.IsTerminal() { ActiveStatus(); }
        CompleteLocked(true);
        EndedActs(cfg, refreshed, run, sight);
      } else {
        raised, sight := DecideAfterRefresh();
        ErredEarlier(old(run), refreshed, run);
      }
      ContinuesReflexive(run);
      RunLength(cfg, run);
      RunStarted(cfg, run);
      if !raised { ActsEarlier(cfg, old(run), refreshed, run, sight); }
      RefreshedEarlier(old(run), refreshed, run);
      CutShortEarlier(old(run), refreshed, run);
    }

    /** run_once past its guards. */
    method RunActive() returns (raised: bool, ghost sight: Sight)
      requires Valid() && (status == Running || status == Cancelling) && (cancelRequested <==> status == Cancelling)
      modifies this, tracker, venue
      ensures Valid() && now == old(now)
      ensures forall earlier :: Continues(earlier, old(run)) ==> Continues(earlier, run)
      ensures Refreshed(old(run), run)
      ensures openings == old(openings) || CutShort(old(run), run)
      ensures !raised && old(status) == Cancelling
              ==> status.IsTerminal() || (tracker.View().Reserved() > 0 && !TargetFilled(cfg, View()))
      ensures old(status) == Running ==> EndsWell(cfg, Running, View(), now, sight.validation)
      ensures raised ==> Erred(run, |old(run.events)|) || sight.market == Some(MarketRaised)
      ensures !raised && old(status) == Running && old(tracker.unknown) == 0
              ==> LooksAndActs(cfg, old(run), run, sight)
    {
      hide StepAt, IsRun, GateOk, Exposure.Reserved, Refreshed, CutShort, Submitted, Refrains, SweepAt, Swept, Erred;
      ContinuesReflexive(run);
      sight := UNSEEN;
      if status == Cancelling {
        raised := RefreshOrderStates();
        ghost var refreshed := run;
        ContinuesReflexive(refreshed);
        if !raised {
          if !status.IsTerminal() { ActiveStatus(); }
          TerminalizeManualCancelLocked();
        }
        RefreshedEarlier(old(run), refreshed, run);
        return;
      }
      if tracker.unknown > 0 {
        raised := RefreshOrderStates();
        return;
      }
      raised, sight := RunRunning();
      RunStarted(cfg, run);
    }

    /** run_once. A finished execution is left alone; otherwise, unless it is backing off, the call
        looks at the exchange; only a look that was cut short can open a further attempt; a
        cancelling execution ends or still has something outstanding. A running one of which no
        order is unknown does all that it should, and ends only for a reason. */
    method RunOnce() returns (raised: bool, ghost sight: Sight)
      requires Valid()
      modifies this, tracker, venue
      ensures Valid() && now == old(now) && Continues(old(run), run)
      ensures old(status).IsTerminal() || old(Blocked()) ==> View() == old(View()) && NoneAsked(old(run), run)
      ensures !old(status).IsTerminal() && !old(Blocked()) ==> Refreshed(old(run), run)
      ensures openings == old(openings) || CutShort(old(run), run)
      ensures !raised && !old(Blocked()) && old(status) == Cancelling
              ==> status.IsTerminal() || (tracker.View().Reserved() > 0 && !TargetFilled(cfg, View()))
      ensures old(status) == Running ==> EndsWell(cfg, Running, View(), now, sight.validation)
      ensures raised ==> Erred(run, |old(run.events)|) || sight.market == Some(MarketRaised)
      ensures !raised && !old(Blocked()) && old(status) == Running && old(tracker.unknown) == 0
              ==> LooksAndActs(cfg, old(run), run, sight)
    {
      hide StepAt, IsRun, GateOk, Exposure.Reserved, Refreshed, CutShort, LooksAndActs, NoneAsked, Erred;
      ContinuesReflexive(run);
      NoneAskedYet(run);
      sight := UNSEEN;
      if status.IsTerminal() {
        return false, sight;
      }
      ActiveStatus();
      var blocked := RateLimitBackoffBlocks();
      if blocked {
        return false, sight;
      }
      ghost var started := run;
      ContinuesReflexive(started);
      raised, sight := RunActive();
      ErredEarlier(old(run), started, run);
      RefreshedEarlier(old(run), started, run);
      CutShortEarlier(old(run), started, run);
      ContinuesReflexive(run);
      RunLength(cfg, run);
      RunStarted(cfg, run);
      if LooksAndActs(cfg, started, run, sight) { ActsEarlier(cfg, old(run), started, run, sight); }
    }

    // ---- summary ----

    method ProvisionalVwapInputs() returns (inputs: seq<PriceQuantity>)
      ensures inputs == ProvisionalInputs(children)
    {
      inputs := [];
      var k := 0;
      while k < |children|
        invariant k <= |children| && inputs == ProvisionalInputs(children[..k])
      {
        assert children[..k + 1][..k] == children[..k];
        if children[k].confirmed > 0 {
          inputs := inputs + [PriceQuantity(children[k].price, children[k].confirmed)];
        }
        k := k + 1;
      }
      assert children[..k] == children;
    }

    method UncoveredVwapInputs() returns (inputs: seq<PriceQuantity>)
      ensures inputs == UncoveredInputs(children, intervals)
    {
      hide CoveredUnits, IntervalsOf;
      inputs := [];
      var k := 0;
      while k < |children|
        invariant k <= |children| && inputs == UncoveredInputs(children[..k], intervals)
      {
        assert children[..k + 1][..k] == children[..k];
        var covered := CoveredIntervalQuantity(IntervalsOf(intervals, children[k].id), children[k].confirmed);
        if children[k].confirmed - covered > 0 {
          inputs := inputs + [PriceQuantity(children[k].price, children[k].confirmed - covered)];
        }
        k := k + 1;
      }
      assert children[..k] == children;
    }

    /** _summary_vwap_inputs: the prices and quantities behind the reported average price add up to
        the children's confirmed quantities whenever the ledger is in order, and to the tracker's in
        a run. */
    method SummaryVwapInputs() returns (inputs: seq<PriceQuantity>)
      ensures inputs == SummaryInputs(View())
      ensures Ledger(View()) ==>
                && Quantity(inputs) == Sum(children, ConfirmedOf) && maker + taker <= Quantity(inputs)
                && Notional(inputs) == EntryNotional(trades) + EntryNotional(anonymous) + UncoveredNotional(children, intervals)
      ensures Valid() ==> Quantity(inputs) == tracker.confirmed
    {
      hide StepAt, IsRun, GateOk, ProvisionalInputs, UncoveredInputs, Quantity, Notional, LedgerWith, Sum, EntryNotional, UncoveredNotional;
      if Ledger(View()) {
        SummaryQuantityIsConserved(View());
        SummaryNotional(View());
      }
      if Valid() {
        RunStarted(cfg, run);
        LedgerRuns.RunsAddUp(cfg, run, |run.worlds| - 1);
      }
      if fillInputs == [] {
        inputs := ProvisionalVwapInputs();
      } else {
        inputs := UncoveredVwapInputs();
        inputs := fillInputs + inputs;
      }
    }

    /** _post_deadline_submission_counts: every order submitted past the deadline is an aggressive
        one, so none of them counts as scheduled. */
    method PostDeadlineSubmissionCounts() returns (all: nat, scheduled: nat, deadlineAggressive: nat)
      requires Valid()
      ensures scheduled == 0 && all == deadlineAggressive
      ensures all == |LateOnes(children, submittedAt, cfg.started + cfg.duration, |children|)|
      ensures cfg.policy == CancelRemainder ==> all == 0
    {
      hide StepAt, IsRun, GateOk, LateOnes;
      RunStarted(cfg, run);
      NoneLate(children, submittedAt, cfg.started + cfg.duration);
      all, scheduled, deadlineAggressive := 0, 0, 0;
      var k := 0;
      while k < |children|
        invariant k <= |children| && scheduled == 0 && all == deadlineAggressive
        invariant all == |LateOnes(children, submittedAt, cfg.started + cfg.duration, k)|
        invariant cfg.policy == CancelRemainder ==> all == 0
      {
        var id := children[k].id;
        DeadlineIsKept(cfg, run, |run.worlds| - 1, k);
        var late := id in submittedAt && submittedAt[id] > cfg.Deadline();
        OneMoreLate(children, submittedAt, cfg.started + cfg.duration, k);
        all := all + if late then 1 else 0;
        deadlineAggressive := deadlineAggressive + if late && id in aggressive then 1 else 0;
        scheduled := scheduled + if late && id !in aggressive then 1 else 0;
        k := k + 1;
      }
    }
  }
}
