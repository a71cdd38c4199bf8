/** The execution as a state machine: every atomic thing the engine does between two adapter
    calls, and everything the venue and the clock may do in between. The class in Engine.dfy is
    verified to take only these steps; here every run of them is shown to be safe. */
module Protocol {
  import opened Models
  import opened StateMachine
  import opened Intervals
  import opened Records
  import opened FillLedger
  import opened Venues
  import opened Coupling
  import opened Evidence
  import opened Schedule
  import opened Invariant
  import Idempotence

  datatype Event =
    | VenueMoves
    | ClockTicks
    | SubmitBegins(quantity: nat, price: int, postOnly: bool, bid: int, ask: int)
    | SubmitEnds(submitted: SubmitOutcome)
    | CancelBegins(index: nat)
    | CancelEnds(cancelled: CancelOutcome)
    | Refreshes(answers: seq<Lookup>)
    | Delivers(result: ReconciliationResult)
    | DeliversExact(exactResult: ReconciliationResult, exactAnswers: seq<Lookup>)
    | BacksOff(until: Option<real>)
    | Decides
    | CancelIsRequested
    | Stops(target: ExecutionStatus)

  /** How much a new child may ask for. */
  ghost predicate DemandOk(cfg: Config, r: Record, now: real, quantity: nat)
    requires cfg.Valid()
  {
    && quantity > 0
    && CapOk(cfg, r.exposure.confirmed + quantity, now)
  }

  /** Submission is reached only with nothing outstanding, before any cancellation request, at
      the price style the deadline asks for, and past the reject gate. */
  ghost predicate MaySubmit(cfg: Config, r: Record, now: real, quantity: nat, price: int, postOnly: bool, bid: int, ask: int)
    requires cfg.Valid()
  {
    && r.call == Idle
    && r.status in {Running, Failed} && !r.cancelRequested
    && r.exposure.Reserved() == 0
    && DemandOk(cfg, r, now, quantity)
    && postOnly == !cfg.UseAggressivePrice(now)
    && (cfg.DeadlineReached(now) ==> cfg.policy == AggressiveWithinRange)
    && (cfg.algorithm == Twap && !postOnly ==> r.aggressive == {} || r.attemptOpen)
    && (postOnly && r.rejects != [] ==> GateOpen(cfg.side, r.rejects[|r.rejects| - 1], now, price, bid, ask))
  }

  /** What an answer to a create request says about the venue. */
  predicate SubmitOutcomeOk(v: VenueState, id: nat, outcome: SubmitOutcome) {
    match outcome
    case Accepted(status, filled) => id in v.orders && ReportOk(v.orders[id], status, filled)
    case CreateTimeout => true
    case _ => Absent(v, id)
  }

  predicate CancelOutcomeOk(v: VenueState, id: nat, outcome: CancelOutcome) {
    match outcome
    case CancelAnswered(status, filled) => id in v.orders && ReportOk(v.orders[id], status, filled)
    case _ => true
  }

  /** A fresh result lists every order the record or the fills know about. */
  ghost predicate ListsAll(children: seq<ChildOrder>, result: ReconciliationResult) {
    && (forall i: nat :: i < |children| ==> ListedAt(children, result, i))
    && (forall k :: 0 <= k < |result.fills| ==> HasId(result.orders, result.fills[k].client))
  }

  ghost predicate ListedAt(children: seq<ChildOrder>, result: ReconciliationResult, i: nat)
    requires i < |children|
  {
    children[i].confirmed > 0 ==> HasId(result.orders, children[i].id)
  }

  /** When the parent may move to `target`. */
  ghost predicate MayStop(cfg: Config, r: Record, target: ExecutionStatus) {
    && r.call == Idle
    && target.IsTerminal() && TransitionExecution(r.status, target) == Some(target)
    && match target
       case Completed => TargetFilled(cfg, r)
       case PartiallyCompleted => r.exposure.Reserved() == 0 && !TargetFilled(cfg, r) && r.exposure.confirmed > 0
       case Expired => r.exposure.Reserved() == 0 && r.exposure.confirmed == 0
       case Cancelled => r.exposure.Reserved() == 0 && r.exposure.confirmed == 0
       case _ => true
  }

  ghost predicate Step(cfg: Config, w: World, e: Event, w': World)
    requires cfg.Valid()
  {
    match e
    case VenueMoves => w' == w.(venue := w'.venue) && Evolves(w.venue, w'.venue)
    case ClockTicks => w' == w.(now := w'.now) && w.now <= w'.now
    case SubmitBegins(quantity, price, postOnly, bid, ask) =>
      && MaySubmit(cfg, w.rec, w.now, quantity, price, postOnly, bid, ask)
      && w' == w.(rec := BeginSubmit(w.rec, w.now, quantity, price, postOnly, bid, ask),
                  venue := w.venue.(inflight := w.venue.inflight[w.rec.lastSequence + 1 := quantity]))
    case SubmitEnds(outcome) =>
      && w.rec.call.AwaitingSubmit? && w.rec.children != []
      && SubmitOutcomeOk(w.venue, w.rec.children[|w.rec.children| - 1].id, outcome)
      && w' == w.(rec := EndSubmit(cfg, w.rec, w.now, outcome))
    case CancelBegins(i) =>
      && w.rec.call == Idle && i < |w.rec.children| && CanCancel(w.rec.children[i])
      && w' == w.(rec := BeginCancel(w.rec, i))
    case CancelEnds(outcome) =>
      && w.rec.call.AwaitingCancel? && w.rec.call.index < |w.rec.children|
      && CancelOutcomeOk(w.venue, w.rec.children[w.rec.call.index].id, outcome)
      && w' == w.(rec := EndCancel(w.rec, w.now, outcome))
    case Refreshes(answers) =>
      && w.rec.call == Idle && AnswersOk(w.venue, w.rec.children, answers)
      && w' == w.(rec := Refresh(w.rec, w.now, answers))
    case Delivers(result) =>
      && w.rec.call == Idle && ResultOk(w.venue, result) && WarningOk(w.venue, w.rec.children, result)
      && w' == w.(rec := ApplyResult(w.rec, result))
    case DeliversExact(result, answers) =>
      && w.rec.call == Idle && ResultOk(w.venue, result) && WarningOk(w.venue, w.rec.children, result)
      && ListsAll(w.rec.children, result)
      && AnswersOk(w.venue, ApplyEvidence(w.rec, result).children, answers)
      && w' == w.(rec := ApplyResultExact(w.rec, w.now, result, answers))
    case BacksOff(until) =>
      && (until == None || until == Some(w.now + 1.0))
      && w' == w.(rec := w.rec.(rateLimitedUntil := until))
    case Decides =>
      && w.rec.call == Idle
      && (cfg.policy == AggressiveWithinRange && w.now - cfg.started >= cfg.duration && w.rec.aggressive != {} ==>
            w.rec.exposure.Reserved() > 0)
      && w' == w.(rec := Decide(cfg, w.rec, w.now))
    case CancelIsRequested =>
      && w.rec.call == Idle && w.rec.status == Running
      && w' == w.(rec := w.rec.(status := ExecutionStatus.Cancelling, cancelRequested := true))
    case Stops(target) =>
      && MayStop(cfg, w.rec, target)
      && w' == w.(rec := Terminate(w.rec, target))
  }

  /** A step lets children advance, adds one, or takes back one that never reached the venue. */
  ghost predicate ChildrenMoved(a: seq<ChildOrder>, b: seq<ChildOrder>) {
    || ChildrenAdvanced(a, b)
    || (|b| == |a| + 1 && b[..|a|] == a && b[|a|].confirmed == 0)
    || (a != [] && b == a[..|a| - 1] && a[|a| - 1].status == PendingSubmit && a[|a| - 1].confirmed == 0)
  }

  /** How the parent may change in one step: its status along the table, its flags one way, and
      no new child once it was told to stop or has stopped without failing. */
  ghost predicate ParentMoved(r: Record, r': Record) {
    && (r'.status == r.status || TransitionExecution(r.status, r'.status) == Some(r'.status))
    && (r.cancelRequested ==> r'.cancelRequested)
    && r'.openings == r.openings
    && r.lastSequence <= r'.lastSequence
    && (r.cancelRequested || (r.status.IsTerminal() && r.status != Failed) ==> r'.lastSequence == r.lastSequence)
  }

  ghost predicate Moved(r: Record, r': Record) {
    ChildrenMoved(r.children, r'.children) && ParentMoved(r, r')
  }

  /** What every step keeps except the beginning and the end of a submission and the deadline
      decision. */
  ghost predicate Steady(r: Record, r': Record) {
    && ChildrenAdvanced(r.children, r'.children)
    && r'.aggressive == r.aggressive && r'.submittedAt == r.submittedAt && r'.attemptOpen == r.attemptOpen
    && (r'.call.AwaitingSubmit? ==> r.call.AwaitingSubmit?)
  }

  // ---- the venue and the clock ----

  lemma VenueKeepsInv(cfg: Config, w: World, w': World)
    requires Inv(cfg, w) && Step(cfg, w, VenueMoves, w')
    ensures Inv(cfg, w')
  {
    hide BooksOk, LedgerView, CapOk, SingleOk, LifeOk, ChildOk, Traced;
    forall i: nat | i < |w.rec.children| ensures ChildOkAt(w.rec.children, w'.venue, i) {
      CoupledChild(w.rec.children, w.venue, i);
      EvolutionKeepsChild(w.rec.children[i], w.venue, w'.venue);
    }
    EvolutionKeepsLedgerView(w.rec, w.venue, w'.venue);
    EvolutionKeepsTraced(w.rec.children, w.venue, w'.venue);
  }

  lemma ClockKeepsInv(cfg: Config, w: World, w': World)
    requires Inv(cfg, w) && Step(cfg, w, ClockTicks, w')
    ensures Inv(cfg, w')
  {
    hide BooksOk, Tied, SingleOk, Traced, CapOk, OutcomeOk;
    var committed := Sum(w.rec.children, CommittedOf);
    CapShrinks(cfg, committed, committed, w.now, w'.now);
    SubmissionsLater(cfg, w.rec, w.now, w'.now);
  }

  lemma SubmissionsLater(cfg: Config, r: Record, now: real, later: real)
    requires now <= later && SubmissionsOk(cfg, r.children, r.submittedAt, r.aggressive, now)
    ensures SubmissionsOk(cfg, r.children, r.submittedAt, r.aggressive, later)
  {
    forall i: nat | i < |r.children| ensures SubmissionAt(cfg, r.children, r.submittedAt, r.aggressive, later, i) {
      assert SubmissionAt(cfg, r.children, r.submittedAt, r.aggressive, now, i);
    }
  }

  // ---- submission ----

  lemma FreshId(cfg: Config, w: World)
    requires Inv(cfg, w)
    ensures
      var id := w.rec.lastSequence + 1;
      !HasId(w.rec.children, id) && Absent(w.venue, id) && id !in w.rec.aggressive
  {
    var id := w.rec.lastSequence + 1;
    forall i | 0 <= i < |w.rec.children| ensures w.rec.children[i].id != id {
      assert IdAt(w.rec.children, w.rec.lastSequence, i);
    }
    assert !HasId(w.rec.children, id);
  }

  /** A request in flight for a new child changes nothing for the others. */
  lemma RequestKeepsOthers(children: seq<ChildOrder>, v: VenueState, c: ChildOrder)
    requires VenueOk(v) && Coupled(children, v) && Traced(children, v)
    requires !HasId(children, c.id) && Absent(v, c.id)
    requires c.status == PendingSubmit && c.confirmed == 0 && c.submitted > 0
    ensures
      var v' := v.(inflight := v.inflight[c.id := c.submitted]);
      VenueOk(v') && Coupled(children + [c], v') && Traced(children + [c], v')
  {
    var v' := v.(inflight := v.inflight[c.id := c.submitted]);
    var all := children + [c];
    assert forall id :: id in v.orders ==> OrderOk(v, id) && OrderOk(v', id);
    forall k: nat | k < |v.trades| ensures TradeOk(v', k) { assert TradeOk(v, k); }
    forall i: nat | i < |all| ensures ChildOkAt(all, v', i) {
      if i < |children| {
        assert ChildOkAt(children, v, i);
        assert children[i].id != c.id;
      }
    }
    forall id: nat ensures id in v'.orders || id in v'.inflight ==> HasId(all, id) {
      if HasId(children, id) {
        var i :| 0 <= i < |children| && children[i].id == id;
        assert all[i].id == id;
      }
      if id == c.id { assert all[|children|].id == id; }
    }
  }

  lemma SubmissionKeepsBooks(r: Record, r': Record, c: ChildOrder)
    requires BooksOk(r) && !HasId(r.children, c.id)
    requires c.status == PendingSubmit && c.confirmed == 0
    requires r' == r.(children := r.children + [c], lastSequence := r'.lastSequence, submittedAt := r'.submittedAt,
                      aggressive := r'.aggressive, attemptOpen := r'.attemptOpen, call := r'.call,
                      exposure := r.exposure.(pendingSubmit := r.exposure.pendingSubmit + c.submitted))
    ensures BooksOk(r')
  {
    hide Ledger, Uncredited, Sum;
    SubmissionKeepsLedger(r, r', c);
    BucketsAppend(r.children, r.exposure, c);
  }

  /** A new child has nothing confirmed and nothing booked. */
  lemma SubmissionKeepsLedger(r: Record, r': Record, c: ChildOrder)
    requires Ledger(r) && !HasId(r.children, c.id) && c.confirmed == 0
    requires r' == r.(children := r.children + [c], lastSequence := r'.lastSequence, submittedAt := r'.submittedAt,
                      aggressive := r'.aggressive, attemptOpen := r'.attemptOpen, call := r'.call,
                      exposure := r.exposure.(pendingSubmit := r'.exposure.pendingSubmit))
    ensures Ledger(r') && Uncredited(r') == Uncredited(r)
    ensures IntervalsOf(r'.intervals, c.id) == []
  {
    hide Booked, TradesOnce, InputsMatch, DistinctIds, Quantity, LedgerLength, Sum;
    KnownById(r.children, c.id);
    ChildAppended(r.children, c, r.intervals);
    SumAppend(r.children, c, ConfirmedOf);
  }

  lemma SubmissionKeepsIds(cfg: Config, w: World, quantity: nat, price: int, postOnly: bool, bid: int, ask: int)
    requires Inv(cfg, w) && MaySubmit(cfg, w.rec, w.now, quantity, price, postOnly, bid, ask)
    ensures
      var r' := BeginSubmit(w.rec, w.now, quantity, price, postOnly, bid, ask);
      IdsOk(r'.children, r'.aggressive, r'.lastSequence)
  {
    hide BooksOk, Tied, Traced, CapOk, SingleOk, AggressiveOk, StreakOk, OutcomeOk, CallOk, DemandOk, GateOpen, HasId,
         FollowsAt, SubmissionAt;
    FreshId(cfg, w);
    var r := w.rec;
    var r' := BeginSubmit(r, w.now, quantity, price, postOnly, bid, ask);
    forall i: nat | i < |r'.children| ensures IdAt(r'.children, r'.lastSequence, i) {
      if i < |r.children| { assert IdAt(r.children, r.lastSequence, i); }
    }
    AppendedFollow(r.children, r.aggressive, r'.children[|r.children|], r'.aggressive) by {
      if postOnly { NoneAggressiveYet(cfg, r, w.now); }
    }
  }

  lemma SubmissionKeepsLife(cfg: Config, w: World, quantity: nat, price: int, postOnly: bool, bid: int, ask: int)
    requires Inv(cfg, w) && MaySubmit(cfg, w.rec, w.now, quantity, price, postOnly, bid, ask)
    ensures LifeOk(cfg, BeginSubmit(w.rec, w.now, quantity, price, postOnly, bid, ask), w.now)
  {
    hide BooksOk, Tied, Traced, CapOk, SingleOk, FollowsAt, HasId;
    FreshId(cfg, w);
    var r := w.rec;
    var r' := BeginSubmit(r, w.now, quantity, price, postOnly, bid, ask);
    var id := r.lastSequence + 1;
    SubmissionKeepsIds(cfg, w, quantity, price, postOnly, bid, ask);
    forall i: nat | i < |r'.children|
      ensures SubmissionAt(cfg, r'.children, r'.submittedAt, r'.aggressive, w.now, i)
    {
      if i < |r.children| {
        assert IdAt(r.children, r.lastSequence, i);
        assert SubmissionAt(cfg, r.children, r.submittedAt, r.aggressive, w.now, i);
      }
    }
    if r.aggressive == {} && !postOnly {
      assert r'.aggressive == {id};
    }
    SubmittingIsNotStopped(cfg, r, quantity);
  }

  /** Before the deadline nothing aggressive has been submitted. */
  lemma NoneAggressiveYet(cfg: Config, r: Record, now: real)
    requires IdsOk(r.children, r.aggressive, r.lastSequence)
    requires SubmissionsOk(cfg, r.children, r.submittedAt, r.aggressive, now)
    requires !cfg.DeadlineReached(now)
    ensures r.aggressive == {}
  {
    forall i | 0 <= i < |r.children| ensures r.children[i].id !in r.aggressive {
      assert SubmissionAt(cfg, r.children, r.submittedAt, r.aggressive, now, i);
    }
    NoneListed(r.children, r.aggressive);
  }

  lemma AppendedFollow(children: seq<ChildOrder>, aggressive: set<nat>, c: ChildOrder, aggressive': set<nat>)
    requires forall id :: id in aggressive ==> HasId(children, id)
    requires forall i: nat, j: nat :: i < j < |children| ==> FollowsAt(children, aggressive, i, j)
    requires !HasId(children, c.id)
    requires aggressive' == (if c.id in aggressive' then aggressive + {c.id} else aggressive)
    requires c.id !in aggressive' ==> aggressive == {}
    ensures forall id :: id in aggressive' ==> HasId(children + [c], id)
    ensures forall i: nat, j: nat :: i < j < |children + [c]| ==> FollowsAt(children + [c], aggressive', i, j)
  {
    var all := children + [c];
    forall id | id in aggressive' ensures HasId(all, id) {
      if id == c.id {
        assert all[|children|].id == id;
      } else {
        var i :| 0 <= i < |children| && children[i].id == id;
        assert all[i].id == id;
      }
    }
    forall i: nat, j: nat | i < j < |all| ensures FollowsAt(all, aggressive', i, j) {
      if j < |children| {
        assert FollowsAt(children, aggressive, i, j);
        assert children[j].id != c.id;
      }
      assert i < |children| ==> children[i].id != c.id;
    }
  }

  lemma SubmittingIsNotStopped(cfg: Config, r: Record, quantity: nat)
    requires r.status in {Running, Failed}
    requires OutcomeOk(cfg, r.status, r.summary, r.cancelRequested, r.exposure.confirmed, r.exposure.Reserved())
    ensures
      var e := r.exposure.(pendingSubmit := r.exposure.pendingSubmit + quantity);
      OutcomeOk(cfg, r.status, r.summary, r.cancelRequested, e.confirmed, e.Reserved())
  {}

  lemma SubmitBeginKeepsInv(cfg: Config, w: World, w': World, quantity: nat, price: int, postOnly: bool, bid: int, ask: int)
    requires Inv(cfg, w) && Step(cfg, w, SubmitBegins(quantity, price, postOnly, bid, ask), w')
    ensures Inv(cfg, w')
    ensures Moved(w.rec, w'.rec)
  {
    hide LedgerView, VenueOk, Coupled, Traced, LifeOk, CapOk, Ledger, BucketsOk, Sum, SingleOk;
    var r := w.rec;
    var c := ChildOrder(r.lastSequence + 1, quantity, price, PendingSubmit, 0);
    FreshId(cfg, w);
    SubmissionKeepsLife(cfg, w, quantity, price, postOnly, bid, ask);
    SubmissionKeepsBooks(r, w'.rec, c);
    RequestKeepsOthers(r.children, w.venue, c);
    ViewIgnoresChildren(r, w'.rec, w.venue);
    EvolutionKeepsLedgerView(w'.rec, w.venue, w'.venue);
    SumAppend(r.children, c, CommittedOf);
    BooksCommit(r);
    BucketsAddUp(r.children, r.exposure) by { BooksBuckets(r); }
    NothingReservedAtAll(r.children);
    SingleAppend(r.children, c);
  }

  lemma BooksBuckets(r: Record)
    requires BooksOk(r)
    ensures BucketsOk(r.children, r.exposure)
  {}

  lemma SingleAppend(children: seq<ChildOrder>, c: ChildOrder)
    requires forall i: nat :: i < |children| ==> NothingReserved(children, i)
    ensures SingleOk(children + [c])
  {
    var all := children + [c];
    forall i: nat | i + 1 < |all| ensures NothingReserved(all, i) {
      assert NothingReserved(children, i);
    }
  }

  // ---- one child changes ----

  /** Everything but the buckets after one child is replaced by one further along. */
  lemma ReplacementKeeps(cfg: Config, w: World, r': Record, i: nat, c: ChildOrder)
    requires Inv(cfg, w) && i < |w.rec.children|
    requires ChildrenAdvanced(w.rec.children, w.rec.children[i := c])
    requires ChildOk(c, w.venue)
    requires r'.children == w.rec.children[i := c]
    requires r'.trackerSeen == w.rec.trackerSeen && r'.seen == w.rec.seen && r'.trades == w.rec.trades
    requires r'.intervals == w.rec.intervals && r'.anonymous == w.rec.anonymous && r'.fillInputs == w.rec.fillInputs
    requires r'.maker == w.rec.maker && r'.taker == w.rec.taker
    requires r'.exposure.confirmed == w.rec.exposure.confirmed + c.confirmed - w.rec.children[i].confirmed
    ensures Ledger(r') && Uncredited(r') == 0
    ensures Tied(r', w.venue) && Traced(r'.children, w.venue)
    ensures CapOk(cfg, Sum(r'.children, CommittedOf), w.now) && SingleOk(r'.children)
  {
    hide Booked, OnlyChildren, TradesOnce, InputsMatch, DistinctIds, Quantity, LedgerLength, Sum, Traced, VenueOk, Coupled,
         LedgerView, LifeOk, CapOk, SingleOk, ChildrenAdvanced, ChildOk;
    var r := w.rec;
    assert AdvancedAt(r.children, r'.children, i) by { UnfoldAdvanced(r.children, r'.children, i); }
    SameIdsExcept(r.children, i, c);
    SameIdsKeepLedger(r.children, r'.children, r.intervals, []);
    SumUpdate(r.children, i, c, ConfirmedOf);
    OneChildCoupled(r.children, w.venue, i, c);
    ViewIgnoresChildren(r, r', w.venue);
    AdvancedKeepsTraced(r.children, r'.children, w.venue);
    AdvancedCommitsNoMore(r.children, r'.children);
    CapShrinks(cfg, Sum(r.children, CommittedOf), Sum(r'.children, CommittedOf), w.now, w.now);
    AdvancedReservesNoMore(r.children, r'.children);
  }

  lemma UnfoldAdvanced(a: seq<ChildOrder>, b: seq<ChildOrder>, i: nat)
    requires ChildrenAdvanced(a, b) && i < |a|
    ensures AdvancedAt(a, b, i)
  {}

  lemma SameIdsExcept(a: seq<ChildOrder>, i: nat, c: ChildOrder)
    requires i < |a| && c.id == a[i].id && c.confirmed >= a[i].confirmed
    ensures forall j :: 0 <= j < |a| ==> a[j].id == a[i := c][j].id && a[j].confirmed <= a[i := c][j].confirmed
  {}

  /** Lifecycle facts survive when children only advance and the rest stays. */
  lemma AdvanceKeepsLife(cfg: Config, r: Record, r': Record, now: real)
    requires LifeOk(cfg, r, now) && BooksOk(r) && BooksOk(r')
    requires ChildrenAdvanced(r.children, r'.children)
    requires r'.lastSequence == r.lastSequence && r'.submittedAt == r.submittedAt && r'.aggressive == r.aggressive
    requires r'.rejects == r.rejects || r'.rejects == []
    requires r'.status == r.status && r'.summary == r.summary && r'.cancelRequested == r.cancelRequested
    requires r'.attemptOpen == r.attemptOpen && r'.openings == r.openings
    requires CallOk(cfg, r'.call, r'.children, r'.rejects, now)
    requires cfg.retryLimit > 0
    ensures LifeOk(cfg, r', now)
  {
    hide BooksOk, Sum, ChildrenAdvanced, Exposure.Reserved, OutcomeOk;
    AdvancedKeepsSubmissions(cfg, r, r', now);
    BooksCommit(r);
    BooksCommit(r');
    BooksConfirmed(r);
    BooksConfirmed(r');
    AdvancedCommitsNoMore(r.children, r'.children);
    OutcomeKept(cfg, r.status, r.summary, r.cancelRequested, r.exposure, r'.exposure);
  }

  lemma BooksConfirmed(r: Record)
    requires BooksOk(r)
    ensures r.exposure.confirmed == Sum(r.children, ConfirmedOf)
  {}

  lemma AdvancedKeepsSubmissions(cfg: Config, r: Record, r': Record, now: real)
    requires ChildrenAdvanced(r.children, r'.children)
    requires r'.lastSequence == r.lastSequence && r'.submittedAt == r.submittedAt && r'.aggressive == r.aggressive
    requires IdsOk(r.children, r.aggressive, r.lastSequence)
    requires SubmissionsOk(cfg, r.children, r.submittedAt, r.aggressive, now)
    ensures IdsOk(r'.children, r'.aggressive, r'.lastSequence)
    ensures SubmissionsOk(cfg, r'.children, r'.submittedAt, r'.aggressive, now)
  {
    forall i: nat | i < |r'.children| ensures IdAt(r'.children, r'.lastSequence, i) {
      assert AdvancedAt(r.children, r'.children, i) && IdAt(r.children, r.lastSequence, i);
    }
    forall id | id in r'.aggressive ensures HasId(r'.children, id) {
      AdvancedHasId(r.children, r'.children, id);
    }
    AdvancedKeepsIds(r.children, r'.children);
    forall i: nat, j: nat | i < j < |r'.children| ensures FollowsAt(r'.children, r'.aggressive, i, j) {
      assert FollowsAt(r.children, r.aggressive, i, j);
    }
    forall i: nat | i < |r'.children|
      ensures SubmissionAt(cfg, r'.children, r'.submittedAt, r'.aggressive, now, i)
    {
      assert AdvancedAt(r.children, r'.children, i);
      assert SubmissionAt(cfg, r.children, r.submittedAt, r.aggressive, now, i);
    }
  }
}
