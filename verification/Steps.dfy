/** The remaining steps of the protocol keep the invariant: answers to create and cancel
    requests, lookups, delivered results, and the parent's own transitions. */
module Steps {
  import opened Models
  import opened StateMachine
  import opened Intervals
  import opened Records
  import opened FillLedger
  import opened Venues
  import opened Coupling
  import opened Evidence
  import opened Schedule
  import opened Invariant
  import opened Protocol
  import Idempotence

  // ---- parent transitions ----

  lemma FailKeepsInv(cfg: Config, w: World)
    requires Inv(cfg, w)
    ensures Inv(cfg, w.(rec := Fail(w.rec)))
  {
    hide Coupled, LedgerView, VenueOk, Traced, CapOk, SingleOk, IdsOk, SubmissionsOk, CallOk, Sum, BucketsOk;
    LedgerFrame(w.rec, Fail(w.rec)) by { BooksLedger(w.rec); }
    ViewIgnoresChildren(w.rec, Fail(w.rec), w.venue);
  }

  lemma BooksLedger(r: Record)
    requires BooksOk(r)
    ensures Ledger(r)
  {}

  lemma StopKeepsInv(cfg: Config, w: World, w': World, target: ExecutionStatus)
    requires Inv(cfg, w) && Step(cfg, w, Stops(target), w')
    ensures Inv(cfg, w')
    ensures w'.rec == w.rec.(status := w'.rec.status, summary := w'.rec.summary)
    ensures ParentMoved(w.rec, w'.rec) && w'.rec.children == w.rec.children
  {
    hide Coupled, LedgerView, VenueOk, Traced, SingleOk, IdsOk, SubmissionsOk, Sum, BucketsOk, Ledger, SnappedSchedule;
    BooksCommit(w.rec);
    LedgerFrame(w.rec, w'.rec) by { BooksLedger(w.rec); }
    ViewIgnoresChildren(w.rec, w'.rec, w.venue);
  }

  lemma CancelRequestKeepsInv(cfg: Config, w: World, w': World)
    requires Inv(cfg, w) && Step(cfg, w, CancelIsRequested, w')
    ensures Inv(cfg, w')
    ensures ParentMoved(w.rec, w'.rec) && w'.rec.children == w.rec.children
  {
    hide Coupled, LedgerView, VenueOk, Traced, SingleOk, IdsOk, SubmissionsOk, Sum, BucketsOk, Ledger, CapOk;
    LedgerFrame(w.rec, w'.rec) by { BooksLedger(w.rec); }
    ViewIgnoresChildren(w.rec, w'.rec, w.venue);
  }

  lemma BackOffKeepsInv(cfg: Config, w: World, until: Option<real>)
    requires Inv(cfg, w)
    ensures Inv(cfg, w.(rec := w.rec.(rateLimitedUntil := until)))
  {
    hide Coupled, LedgerView, VenueOk, Traced, SingleOk, IdsOk, SubmissionsOk, Sum, BucketsOk, Ledger, CapOk, OutcomeOk, CallOk;
    var r' := w.rec.(rateLimitedUntil := until);
    LedgerFrame(w.rec, r') by { BooksLedger(w.rec); }
    ViewIgnoresChildren(w.rec, r', w.venue);
  }

  lemma DecisionKeepsInv(cfg: Config, w: World)
    requires Inv(cfg, w) && w.rec.call == Idle
    ensures Inv(cfg, w.(rec := Decide(cfg, w.rec, w.now)))
  {
    hide Coupled, LedgerView, VenueOk, Traced, SingleOk, IdsOk, SubmissionsOk, Sum, BucketsOk, Ledger, CapOk, OutcomeOk, CallOk,
         OpensAttempt;
    var r' := Decide(cfg, w.rec, w.now);
    LedgerFrame(w.rec, r') by { BooksLedger(w.rec); }
    ViewIgnoresChildren(w.rec, r', w.venue);
  }

  // ---- one child is replaced ----

  /** The whole invariant after child `i` is replaced by one further along, its buckets are
      rebalanced and the adapter call is over. */
  lemma ReplacementKeepsInv(cfg: Config, w: World, r': Record, i: nat, c: ChildOrder)
    requires Inv(cfg, w) && i < |w.rec.children|
    requires ChildrenAdvanced(w.rec.children, w.rec.children[i := c])
    requires ChildOk(c, w.venue)
    requires r' == w.rec.(children := w.rec.children[i := c], exposure := r'.exposure, call := r'.call, rejects := r'.rejects)
    requires r'.exposure.confirmed == w.rec.exposure.confirmed + c.confirmed - w.rec.children[i].confirmed
    requires BucketsOk(r'.children, r'.exposure)
    requires r'.rejects == w.rec.rejects || r'.rejects == []
    requires CallOk(cfg, r'.call, r'.children, r'.rejects, w.now)
    ensures Inv(cfg, w.(rec := r'))
  {
    hide Ledger, Uncredited, Tied, Traced, CapOk, SingleOk, LifeOk, ChildrenAdvanced, BucketsOk, CallOk, Sum;
    ReplacementKeeps(cfg, w, r', i, c);
    AdvanceKeepsLife(cfg, w.rec, r', w.now);
  }

  lemma LastPending(cfg: Config, w: World)
    requires Inv(cfg, w) && w.rec.call.AwaitingSubmit?
    ensures
      var n := |w.rec.children| - 1;
      && n >= 0 && w.rec.children[n].status == PendingSubmit && w.rec.children[n].confirmed == 0
      && ChildOk(w.rec.children[n], w.venue)
      && w.rec.exposure.pendingSubmit >= w.rec.children[n].submitted > 0
      && (w.rec.call.postOnly && w.rec.rejects != [] ==>
            GateOpen(cfg.side, w.rec.rejects[|w.rec.rejects| - 1], w.now, w.rec.call.price, w.rec.call.bid, w.rec.call.ask))
  {
    hide Ledger, LedgerView, Traced, CapOk, SingleOk, IdsOk, SubmissionsOk, StreakOk, OutcomeOk, Sum, GateOpen;
    var n := |w.rec.children| - 1;
    CoupledChild(w.rec.children, w.venue, n);
    BucketsReplace(w.rec.children, w.rec.exposure, n, w.rec.children[n]) by { BooksBuckets(w.rec); }
  }

  /** Buckets after the last, pending child becomes `c`. */
  lemma PendingBecomes(children: seq<ChildOrder>, e: Exposure, c: ChildOrder, e': Exposure)
    requires BucketsOk(children, e) && children != []
    requires children[|children| - 1].status == PendingSubmit && children[|children| - 1].confirmed == 0
    requires e'.confirmed >= 0
    requires e' == Exposure(e'.confirmed, e.liveOpen + LiveOf(c),
                            FloorZero(e.pendingSubmit, children[|children| - 1].submitted),
                            e.pendingCancel, e.unknown + UnknownOf(c))
    requires c.status != PendingSubmit && c.status != PendingCancel
    ensures BucketsOk(children[|children| - 1 := c], e')
  {
    hide Sum;
    BucketsReplace(children, e, |children| - 1, c);
    BucketsIgnoreConfirmed(children[|children| - 1 := c], e.confirmed, e'.confirmed);
  }

  lemma BucketsIgnoreConfirmed(children: seq<ChildOrder>, a: nat, b: nat)
    ensures Recomputed(children, b) == Recomputed(children, a).(confirmed := b)
  {}

  /** What an acceptance does to the record, in one piece. */
  lemma AcceptedShape(cfg: Config, r: Record, now: real, status: ChildStatus, filled: nat)
    requires r.call.AwaitingSubmit? && r.children != []
    requires r.children[|r.children| - 1].status == PendingSubmit
    requires status in {Open, PartiallyFilled, Filled, ChildCancelled}
    ensures
      var n := |r.children| - 1;
      var c := r.children[n];
      var c' := c.(status := SetChildStatus(c.status, status), confirmed := Max(c.confirmed, filled));
      var r' := EndSubmit(cfg, r, now, Accepted(status, filled));
      && r' == r.(children := r.children[n := c'], call := Idle, rejects := [],
                  exposure := Exposure(r.exposure.confirmed + c'.confirmed - c.confirmed, r.exposure.liveOpen + LiveOf(c'),
                                       FloorZero(r.exposure.pendingSubmit, c.submitted), r.exposure.pendingCancel,
                                       r.exposure.unknown + UnknownOf(c')))
  {
    hide TakeReport, UpdateFill;
    var n := |r.children| - 1;
    var released := ReleasePendingSubmit(r.(call := Idle), r.children[n].submitted);
    Idempotence.ReportShape(released, n, status, filled);
    SnapshotIsReport(released, n, status, filled);
  }

  lemma AcceptedKeepsInv(cfg: Config, w: World, status: ChildStatus, filled: nat)
    requires Inv(cfg, w) && w.rec.call.AwaitingSubmit? && w.rec.children != []
    requires SubmitOutcomeOk(w.venue, w.rec.children[|w.rec.children| - 1].id, Accepted(status, filled))
    ensures Inv(cfg, w.(rec := EndSubmit(cfg, w.rec, w.now, Accepted(status, filled))))
    ensures ChildrenAdvanced(w.rec.children, EndSubmit(cfg, w.rec, w.now, Accepted(status, filled)).children)
    ensures ParentMoved(w.rec, EndSubmit(cfg, w.rec, w.now, Accepted(status, filled)))
  {
    hide Inv, ChildOk, ChildrenAdvanced, BucketsOk, EndSubmit, StateMachine.SetChildStatus, GateOpen, VenueOk, Tied, Traced, BooksOk, ReportOk,
         LiveOf, UnknownOf;
    LastPending(cfg, w);
    var r, n := w.rec, |w.rec.children| - 1;
    PendingTakes(status);
    var c := r.children[n];
    InvVenue(cfg, w);
    ReportedStatus(w.venue.orders[c.id], status, filled);
    AcceptedShape(cfg, r, w.now, status, filled);
    var c' := c.(status := SetChildStatus(c.status, status), confirmed := Max(c.confirmed, filled));
    ReportKeepsChild(c, w.venue, status, filled);
    OneChildAdvances(r.children, n, c');
    var r' := EndSubmit(cfg, r, w.now, Accepted(status, filled));
    PendingBecomes(r.children, r.exposure, c', r'.exposure) by { InvBuckets(cfg, w); }
    ReplacementKeepsInv(cfg, w, r', n, c') by { IdleCallOk(cfg, r', w.now); }
  }

  /** A pending child takes every status an exchange may answer with. */
  lemma PendingTakes(status: ChildStatus)
    ensures status in {Open, PartiallyFilled, Filled, ChildCancelled} ==> StateMachine.SetChildStatus(PendingSubmit, status) == status
  {}

  lemma IdleCallOk(cfg: Config, r: Record, now: real)
    requires r.call == Idle
    ensures CallOk(cfg, r.call, r.children, r.rejects, now)
  {}

  lemma SnapshotIsReport(r: Record, i: nat, status: ChildStatus, filled: nat)
    requires i < |r.children| && r.children[i].status != Unknown
    ensures TakeSnapshot(r, i, status, filled) == TakeReport(r, i, status, filled)
  {}

  lemma ReportedStatus(o: Order, status: ChildStatus, filled: nat)
    requires ReportOk(o, status, filled)
    ensures status in {Open, PartiallyFilled, Filled, ChildCancelled}
  {}

  lemma InvVenue(cfg: Config, w: World)
    requires Inv(cfg, w)
    ensures VenueOk(w.venue) && Tied(w.rec, w.venue) && Traced(w.rec.children, w.venue)
  {}

  lemma InvBuckets(cfg: Config, w: World)
    requires Inv(cfg, w)
    ensures BucketsOk(w.rec.children, w.rec.exposure) && BooksOk(w.rec)
  {}

  lemma TimedOutShape(cfg: Config, r: Record, now: real)
    requires r.call.AwaitingSubmit? && r.children != [] && r.children[|r.children| - 1].status == PendingSubmit
    ensures
      var n := |r.children| - 1;
      var c' := r.children[n].(status := Unknown);
      var r' := EndSubmit(cfg, r, now, CreateTimeout);
      r' == r.(children := r.children[n := c'], call := Idle,
               exposure := r.exposure.(pendingSubmit := FloorZero(r.exposure.pendingSubmit, c'.submitted),
                                       unknown := r.exposure.unknown + c'.Remaining()))
  {}

  lemma TimedOutKeepsInv(cfg: Config, w: World)
    requires Inv(cfg, w) && w.rec.call.AwaitingSubmit? && w.rec.children != []
    ensures Inv(cfg, w.(rec := EndSubmit(cfg, w.rec, w.now, CreateTimeout)))
    ensures ChildrenAdvanced(w.rec.children, EndSubmit(cfg, w.rec, w.now, CreateTimeout).children)
  {
    hide Inv, ChildrenAdvanced, BucketsOk, Absent, EndSubmit;
    LastPending(cfg, w);
    var r, n := w.rec, |w.rec.children| - 1;
    var c' := r.children[n].(status := Unknown);
    OneChildAdvances(r.children, n, c');
    var r' := EndSubmit(cfg, r, w.now, CreateTimeout);
    TimedOutShape(cfg, r, w.now);
    PendingBecomes(r.children, r.exposure, c', r'.exposure) by { InvBuckets(cfg, w); }
    ReplacementKeepsInv(cfg, w, r', n, c') by { IdleCallOk(cfg, r', w.now); }
  }

  /** The record right after a definite refusal, before its consequences for the parent. */
  function Refused(r: Record): Record
    requires r.children != []
  {
    SetStatus(ReleasePendingSubmit(r.(call := Idle), r.children[|r.children| - 1].submitted), |r.children| - 1, Rejected)
  }

  lemma RefusedKeepsInv(cfg: Config, w: World)
    requires Inv(cfg, w) && w.rec.call.AwaitingSubmit? && w.rec.children != []
    requires Absent(w.venue, w.rec.children[|w.rec.children| - 1].id)
    ensures Inv(cfg, w.(rec := Refused(w.rec)))
    ensures ChildrenAdvanced(w.rec.children, Refused(w.rec).children)
    ensures Refused(w.rec).exposure.Reserved() == 0
    ensures Refused(w.rec).exposure.confirmed < cfg.required
  {
    hide Inv, ChildrenAdvanced, BucketsOk;
    LastPending(cfg, w);
    var r, n := w.rec, |w.rec.children| - 1;
    var c' := r.children[n].(status := Rejected);
    OneChildAdvances(r.children, n, c');
    var r' := Refused(r);
    PendingBecomes(r.children, r.exposure, c', r'.exposure) by { InvBuckets(cfg, w); }
    ReplacementKeepsInv(cfg, w, r', n, c') by { IdleCallOk(cfg, r', w.now); }
    OnlyLastReserves(cfg, w.(rec := r'));
    CommittedBelowTarget(cfg, w);
  }

  /** With a finished last child nothing is reserved. */
  lemma OnlyLastReserves(cfg: Config, w: World)
    requires Inv(cfg, w) && w.rec.children != []
    requires ReservedOf(w.rec.children[|w.rec.children| - 1]) == 0
    ensures w.rec.exposure.Reserved() == 0
  {
    hide Ledger, Tied, Traced, CapOk, LifeOk, Exposure.Reserved;
    BucketsAddUp(w.rec.children, w.rec.exposure) by { BooksBuckets(w.rec); }
    forall i | 0 <= i < |w.rec.children| ensures ReservedOf(w.rec.children[i]) == 0 {
      if i + 1 < |w.rec.children| { assert NothingReserved(w.rec.children, i); }
    }
    SumZero(w.rec.children, ReservedOf);
  }

  lemma CommittedBelowTarget(cfg: Config, w: World)
    requires Inv(cfg, w)
    ensures w.rec.exposure.confirmed + w.rec.exposure.Reserved() <= cfg.required
  {
    hide Ledger, Tied, Traced, LifeOk, SingleOk, Exposure.Reserved, BooksOk, SnappedSchedule;
    BooksCommit(w.rec);
  }

  lemma RejectCountedKeepsInv(cfg: Config, w: World, reject: Reject)
    requires Inv(cfg, w) && w.rec.call == Idle
    requires w.rec.exposure.Reserved() == 0 && w.rec.exposure.confirmed < cfg.required
    requires reject.time == w.now
    requires w.rec.rejects != [] ==>
               GateOpen(cfg.side, w.rec.rejects[|w.rec.rejects| - 1], w.now, reject.price, reject.bid, reject.ask)
    ensures Inv(cfg, w.(rec := TerminalizeRejectLimit(cfg, w.rec.(rejects := w.rec.rejects + [reject]))))
  {
    hide Tied, Traced, CapOk, SingleOk, IdsOk, SubmissionsOk, Sum, BucketsOk, Ledger, GateOpen;
    var r' := TerminalizeRejectLimit(cfg, w.rec.(rejects := w.rec.rejects + [reject]));
    LedgerFrame(w.rec, r') by { BooksLedger(w.rec); }
    TiedFrame(w.rec, r', w.venue);
    forall i: nat | i + 1 < |r'.rejects| ensures SpacedAt(cfg.side, r'.rejects, i) {
      if i + 1 < |w.rec.rejects| { assert SpacedAt(cfg.side, w.rec.rejects, i); }
    }
  }

  lemma TiedFrame(r: Record, r': Record, v: VenueState)
    requires Tied(r, v)
    requires r'.children == r.children && r'.anonymous == r.anonymous && r'.trades == r.trades
    requires r'.seen == r.seen && r'.intervals == r.intervals
    ensures Tied(r', v)
  {
    hide Coupled, LedgerView, VenueOk;
    ViewIgnoresChildren(r, r', v);
  }

  // ---- a request that left no trace ----

  lemma RemovalKeepsLedger(r: Record, r': Record, v: VenueState)
    requires BooksOk(r) && Tied(r, v) && r.children != []
    requires Absent(v, r.children[|r.children| - 1].id)
    requires r'.children == r.children[..|r.children| - 1]
    requires r'.trackerSeen == r.trackerSeen && r'.seen == r.seen && r'.trades == r.trades
    requires r'.intervals == r.intervals && r'.anonymous == r.anonymous && r'.fillInputs == r.fillInputs
    requires r'.maker == r.maker && r'.taker == r.taker
    ensures Ledger(r')
  {
    hide Ledger, Sum, BucketsOk, Coupled, VenueOk;
    NoIntervalsWithoutOrder(r, v, r.children[|r.children| - 1].id);
    LastChildLeavesLedger(r, r');
  }

  /** A child under which nothing is booked leaves no gap in the ledger. */
  lemma LastChildLeavesLedger(r: Record, r': Record)
    requires Ledger(r) && r.children != []
    requires IntervalsOf(r.intervals, r.children[|r.children| - 1].id) == []
    requires r'.children == r.children[..|r.children| - 1]
    requires r'.trackerSeen == r.trackerSeen && r'.seen == r.seen && r'.trades == r.trades
    requires r'.intervals == r.intervals && r'.anonymous == r.anonymous && r'.fillInputs == r.fillInputs
    requires r'.maker == r.maker && r'.taker == r.taker
    ensures Ledger(r')
  {
    hide InputsMatch, TradesOnce, DistinctIds;
    var n := |r.children| - 1;
    DistinctPrefix(r.children, n);
    forall i: nat | i < n ensures BookedAt(r'.children, r.intervals, [], i) {
      assert BookedAt(r.children, r.intervals, [], i);
    }
    forall k ensures IntervalsOf(r.intervals, k) != [] ==> HasId(r'.children, k) {
      HasIdSplit(r.children, k);
    }
  }

  lemma NoIntervalsWithoutOrder(r: Record, v: VenueState, id: nat)
    requires VenueOk(v) && LedgerView(r, v) && id !in v.orders
    ensures IntervalsOf(r.intervals, id) == []
  {
    if IntervalsOf(r.intervals, id) != [] {
      assert IntervalAt(r.intervals, v, r.seen, id, 0);
      var n: nat :| FromTrade(v, r.seen, id, IntervalsOf(r.intervals, id)[0], n);
      TradeHasOrder(v, n - 1);
    }
  }

  lemma TradeHasOrder(v: VenueState, k: nat)
    requires VenueOk(v) && k < |v.trades|
    ensures v.trades[k].client in v.orders
  {
    assert TradeOk(v, k);
  }

  lemma PrefixFacts(r: Record, r': Record, v: VenueState)
    requires Coupled(r.children, v) && Traced(r.children, v) && SingleOk(r.children) && r.children != []
    requires Absent(v, r.children[|r.children| - 1].id)
    requires r'.children == r.children[..|r.children| - 1]
    ensures Coupled(r'.children, v) && Traced(r'.children, v) && SingleOk(r'.children)
  {
    var n := |r.children| - 1;
    forall i: nat | i < n ensures ChildOkAt(r'.children, v, i) {
      assert ChildOkAt(r.children, v, i);
    }
    forall id: nat ensures id in v.orders || id in v.inflight ==> HasId(r'.children, id) {
      HasIdSplit(r.children, id);
    }
    forall i: nat | i + 1 < n ensures NothingReserved(r'.children, i) {
      assert NothingReserved(r.children, i);
    }
  }

  lemma RemovalKeepsLife(cfg: Config, r: Record, now: real)
    requires LifeOk(cfg, r, now) && r.children != [] && DistinctIds(r.children)
    ensures
      var r' := WithoutLastChild(r);
      && IdsOk(r'.children, r'.aggressive, r'.lastSequence)
      && SubmissionsOk(cfg, r'.children, r'.submittedAt, r'.aggressive, now)
      && AggressiveOk(cfg, r'.aggressive, r'.attemptOpen, r'.openings)
  {
    hide StreakOk, OutcomeOk, CallOk;
    var r' := WithoutLastChild(r);
    var n := |r.children| - 1;
    forall i: nat | i < n ensures IdAt(r'.children, r'.lastSequence, i) {
      assert IdAt(r.children, r.lastSequence, i);
    }
    forall i: nat | i < n ensures SubmissionAt(cfg, r'.children, r'.submittedAt, r'.aggressive, now, i) {
      assert SubmissionAt(cfg, r.children, r.submittedAt, r.aggressive, now, i);
      assert IdsDiffer(r.children, i, n);
    }
    forall id | id in r'.aggressive ensures HasId(r'.children, id) {
      HasIdSplit(r.children, id);
    }
    forall i: nat, j: nat | i < j < n ensures FollowsAt(r'.children, r'.aggressive, i, j) {
      assert FollowsAt(r.children, r.aggressive, i, j);
      assert IdsDiffer(r.children, j, n);
    }
    SmallerSet(r.aggressive, r.children[n].id);
  }

  lemma SmallerSet(s: set<nat>, x: nat)
    ensures |s - {x}| <= |s|
  {
    if x in s {
      assert s == (s - {x}) + {x};
    } else {
      assert s - {x} == s;
    }
  }

  lemma RemovedKeepsInv(cfg: Config, w: World)
    requires Inv(cfg, w) && w.rec.call.AwaitingSubmit? && w.rec.children != []
    requires Absent(w.venue, w.rec.children[|w.rec.children| - 1].id)
    ensures
      var released := ReleasePendingSubmit(w.rec.(call := Idle), w.rec.children[|w.rec.children| - 1].submitted);
      Inv(cfg, w.(rec := WithoutLastChild(released)))
    ensures w.rec.children[|w.rec.children| - 1].status == PendingSubmit && w.rec.children[|w.rec.children| - 1].confirmed == 0
  {
    hide LedgerView, Coupled, VenueOk, Traced, CapOk, SingleOk, IdsOk, SubmissionsOk, AggressiveOk, Sum, BucketsOk, Ledger, DistinctIds, ChildOk, StreakOk;
    LastPending(cfg, w);
    var r, n := w.rec, |w.rec.children| - 1;
    var c := r.children[n];
    var released := ReleasePendingSubmit(r.(call := Idle), c.submitted);
    var r' := WithoutLastChild(released);
    RemovalKeepsLedger(r, r', w.venue);
    PrefixFacts(r, r', w.venue);
    ViewIgnoresChildren(r, r', w.venue);
    LedgerIds(r);
    RemovalKeepsLife(cfg, r, w.now);
    RemovalKeepsSums(r, r');
    CapShrinks(cfg, Sum(r.children, CommittedOf), Sum(r'.children, CommittedOf), w.now, w.now);
  }

  lemma RemovalKeepsSums(r: Record, r': Record)
    requires BooksOk(r) && r.children != []
    requires r.children[|r.children| - 1].status == PendingSubmit && r.children[|r.children| - 1].confirmed == 0
    requires r'.children == r.children[..|r.children| - 1]
    requires r'.exposure == r.exposure.(pendingSubmit := FloorZero(r.exposure.pendingSubmit, r.children[|r.children| - 1].submitted))
    ensures Uncredited(r') == 0 && BucketsOk(r'.children, r'.exposure)
    ensures Sum(r'.children, CommittedOf) <= Sum(r.children, CommittedOf)
  {
    BucketsDropLast(r.children, r.exposure);
  }

  lemma SubmitEndKeepsInv(cfg: Config, w: World, w': World, outcome: SubmitOutcome)
    requires Inv(cfg, w) && Step(cfg, w, SubmitEnds(outcome), w')
    ensures Inv(cfg, w')
    ensures Moved(w.rec, w'.rec)
  {
    hide Inv, Absent;
    match outcome {
      case Accepted(status, filled) =>
        AcceptedKeepsInv(cfg, w, status, filled);
      case CreateTimeout =>
        TimedOutKeepsInv(cfg, w);
      case SubmitBanned =>
        RefusedKeepsInv(cfg, w);
        FailKeepsInv(cfg, w.(rec := Refused(w.rec)));
      case TerminalOrderRejected =>
        RefusedKeepsInv(cfg, w);
        FailKeepsInv(cfg, w.(rec := Refused(w.rec)));
      case OrderRejected =>
        RefusedKeepsInv(cfg, w);
        if w.rec.call.postOnly {
          LastPending(cfg, w);
          RejectCountedKeepsInv(cfg, w.(rec := Refused(w.rec)),
                                Reject(w.now, w.rec.call.price, w.rec.call.bid, w.rec.call.ask));
        } else {
          FailKeepsInv(cfg, w.(rec := Refused(w.rec)));
        }
      case SubmitLimited =>
        RemovedKeepsInv(cfg, w);
        var released := ReleasePendingSubmit(w.rec.(call := Idle), w.rec.children[|w.rec.children| - 1].submitted);
        BackOffKeepsInv(cfg, w.(rec := WithoutLastChild(released)), Some(w.now + 1.0));
      case SubmitNoData =>
        RemovedKeepsInv(cfg, w);
      case SubmitRaised =>
        RemovedKeepsInv(cfg, w);
    }
  }

  // ---- cancellation ----

  lemma CancelBeginKeepsInv(cfg: Config, w: World, w': World, i: nat)
    requires Inv(cfg, w) && Step(cfg, w, CancelBegins(i), w')
    ensures Inv(cfg, w')
    ensures ChildrenAdvanced(w.rec.children, w'.rec.children) && ParentMoved(w.rec, w'.rec)
    ensures Steady(w.rec, w'.rec)
  {
    hide Inv;
    CancelMarkedKeepsInv(cfg, w, w', i);
  }

  /** The live bucket always holds what a cancellation moves out of it. */
  lemma CancelMarkedKeepsInv(cfg: Config, w: World, w': World, i: nat)
    requires Inv(cfg, w) && i < |w.rec.children| && CanCancel(w.rec.children[i])
    requires w' == w.(rec := BeginCancel(w.rec, i))
    ensures Inv(cfg, w')
    ensures ChildrenAdvanced(w.rec.children, w'.rec.children)
    ensures w'.rec.exposure.Reserved() == w.rec.exposure.Reserved()
    ensures w'.rec.exposure.pendingCancel == w.rec.exposure.pendingCancel + w.rec.children[i].Remaining()
  {
    hide Inv, ChildrenAdvanced, BucketsOk;
    var c := w.rec.children[i];
    var c' := c.(status := PendingCancel);
    InvBuckets(cfg, w);
    InvVenue(cfg, w);
    TiedChild(w.rec, w.venue, i);
    OneChildAdvances(w.rec.children, i, c');
    BucketsReplace(w.rec.children, w.rec.exposure, i, c');
    RebalancedBuckets(w.rec.children, w.rec.exposure, i, c', w'.rec.exposure);
    ReplacementKeepsInv(cfg, w, w'.rec, i, c');
  }

  lemma TiedChild(r: Record, v: VenueState, i: nat)
    requires Tied(r, v) && i < |r.children|
    ensures ChildOk(r.children[i], v)
  {
    CoupledChild(r.children, v, i);
  }

  /** Buckets that moved as one child's contribution moved. */
  lemma RebalancedBuckets(children: seq<ChildOrder>, e: Exposure, i: nat, c: ChildOrder, e': Exposure)
    requires BucketsOk(children, e) && i < |children|
    requires e'.liveOpen == e.liveOpen - LiveOf(children[i]) + LiveOf(c)
    requires e'.pendingSubmit == e.pendingSubmit - PendingSubmitOf(children[i]) + PendingSubmitOf(c)
    requires e'.pendingCancel == e.pendingCancel - PendingCancelOf(children[i]) + PendingCancelOf(c)
    requires e'.unknown == e.unknown - UnknownOf(children[i]) + UnknownOf(c)
    ensures BucketsOk(children[i := c], e')
  {
    hide Sum;
    BucketsReplace(children, e, i, c);
    BucketsIgnoreConfirmed(children[i := c], e.confirmed, e'.confirmed);
  }

  /** What is known of the child whose cancellation is being awaited. */
  lemma CancellingChild(cfg: Config, w: World)
    requires Inv(cfg, w) && w.rec.call.AwaitingCancel?
    ensures
      var i := w.rec.call.index;
      && i < |w.rec.children| && w.rec.children[i].status == PendingCancel
      && w.rec.children[i].Remaining() == w.rec.call.remaining > 0
      && w.rec.call.before.IsLive()
      && (w.rec.call.before == PartiallyFilled ==> w.rec.children[i].confirmed > 0)
      && ChildOk(w.rec.children[i], w.venue)
      && w.rec.call.remaining <= w.rec.exposure.pendingCancel
  {
    hide Ledger, LedgerView, Traced, CapOk, SingleOk, IdsOk, SubmissionsOk, StreakOk, OutcomeOk, Sum, GateOpen, BucketsOk;
    var i := w.rec.call.index;
    CoupledChild(w.rec.children, w.venue, i);
    BucketsReplace(w.rec.children, w.rec.exposure, i, w.rec.children[i]);
  }

  /** What an answered cancellation does to the record, in one piece. */
  lemma CancelAnsweredShape(r: Record, now: real, status: ChildStatus, filled: nat)
    requires r.call.AwaitingCancel? && r.call.index < |r.children|
    requires r.children[r.call.index].status == PendingCancel
    requires status in {Open, PartiallyFilled, Filled, ChildCancelled}
    ensures
      var i := r.call.index;
      var c := r.children[i];
      var c' := c.(status := status, confirmed := Max(c.confirmed, filled));
      var r' := EndCancel(r, now, CancelAnswered(status, filled));
      && SetChildStatus(c.status, status) == status
      && (r'.rejects == r.rejects || r'.rejects == [])
      && r' == r.(children := r.children[i := c'], call := Idle, rejects := r'.rejects,
                  exposure := r.exposure.(confirmed := r.exposure.confirmed + c'.confirmed - c.confirmed,
                                          liveOpen := r.exposure.liveOpen + LiveOf(c'),
                                          pendingCancel := FloorZero(r.exposure.pendingCancel, r.call.remaining)))
  {
    hide TakeReport, UpdateFill;
    Idempotence.ReportShape(r.(call := Idle), r.call.index, status, filled);
    SnapshotIsReport(r.(call := Idle), r.call.index, status, filled);
  }

  lemma CancelAnsweredKeepsInv(cfg: Config, w: World, status: ChildStatus, filled: nat)
    requires Inv(cfg, w) && w.rec.call.AwaitingCancel? && w.rec.call.index < |w.rec.children|
    requires CancelOutcomeOk(w.venue, w.rec.children[w.rec.call.index].id, CancelAnswered(status, filled))
    ensures Inv(cfg, w.(rec := EndCancel(w.rec, w.now, CancelAnswered(status, filled))))
    ensures ChildrenAdvanced(w.rec.children, EndCancel(w.rec, w.now, CancelAnswered(status, filled)).children)
    ensures ParentMoved(w.rec, EndCancel(w.rec, w.now, CancelAnswered(status, filled)))
    ensures Steady(w.rec, EndCancel(w.rec, w.now, CancelAnswered(status, filled)))
  {
    hide Inv, ChildOk, ChildrenAdvanced, BucketsOk, EndCancel;
    CancellingChild(cfg, w);
    var r, i := w.rec, w.rec.call.index;
    var c := r.children[i];
    InvVenue(cfg, w);
    InvBuckets(cfg, w);
    ReportedStatus(w.venue.orders[c.id], status, filled);
    CancelAnsweredShape(r, w.now, status, filled);
    var c' := c.(status := status, confirmed := Max(c.confirmed, filled));
    ReportKeepsChild(c, w.venue, status, filled);
    OneChildAdvances(r.children, i, c');
    var r' := EndCancel(r, w.now, CancelAnswered(status, filled));
    RebalancedBuckets(r.children, r.exposure, i, c', r'.exposure);
    ReplacementKeepsInv(cfg, w, r', i, c') by { IdleCallOk(cfg, r', w.now); }
  }

  lemma RevertKeepsInv(cfg: Config, w: World)
    requires Inv(cfg, w) && w.rec.call.AwaitingCancel? && w.rec.call.index < |w.rec.children|
    ensures Inv(cfg, w.(rec := RevertCancel(w.rec)))
    ensures ChildrenAdvanced(w.rec.children, RevertCancel(w.rec).children)
    ensures ParentMoved(w.rec, RevertCancel(w.rec)) && RevertCancel(w.rec).status == w.rec.status
    ensures Steady(w.rec, RevertCancel(w.rec))
  {
    hide Inv, ChildrenAdvanced, BucketsOk;
    CancellingChild(cfg, w);
    var r, i := w.rec, w.rec.call.index;
    var c := r.children[i];
    var c' := c.(status := r.call.before);
    var r' := RevertCancel(r);
    InvBuckets(cfg, w);
    OneChildAdvances(r.children, i, c');
    RebalancedBuckets(r.children, r.exposure, i, c', r'.exposure);
    ReplacementKeepsInv(cfg, w, r', i, c') by { IdleCallOk(cfg, r', w.now); }
  }

  lemma CallOverKeepsInv(cfg: Config, w: World)
    requires Inv(cfg, w) && w.rec.children != []
    ensures Inv(cfg, w.(rec := w.rec.(call := Idle)))
  {
    hide Inv, ChildrenAdvanced, BucketsOk, ChildOk;
    var r, c := w.rec, w.rec.children[0];
    assert r.children[0 := c] == r.children;
    InvBuckets(cfg, w);
    InvVenue(cfg, w);
    TiedChild(r, w.venue, 0);
    AdvancedReflexive(r.children);
    ReplacementKeepsInv(cfg, w, r.(call := Idle), 0, c) by { IdleCallOk(cfg, r.(call := Idle), w.now); }
  }

  lemma CancelEndKeepsInv(cfg: Config, w: World, w': World, outcome: CancelOutcome)
    requires Inv(cfg, w) && Step(cfg, w, CancelEnds(outcome), w')
    ensures Inv(cfg, w')
    ensures Moved(w.rec, w'.rec) && Steady(w.rec, w'.rec)
  {
    hide Inv, RevertCancel;
    match outcome {
      case CancelAnswered(status, filled) =>
        CancelAnsweredKeepsInv(cfg, w, status, filled);
      case CancelBanned =>
        RevertKeepsInv(cfg, w);
        FailKeepsInv(cfg, w.(rec := RevertCancel(w.rec)));
      case CancelTimeout =>
        CallOverKeepsInv(cfg, w);
      case CancelLimited =>
        RevertKeepsInv(cfg, w);
        BackOffKeepsInv(cfg, w.(rec := RevertCancel(w.rec)), Some(w.now + 1.0));
      case CancelRaised =>
        RevertKeepsInv(cfg, w);
    }
  }
}
