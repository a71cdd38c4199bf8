/** What holds of an execution and its venue at every moment, and how its parts follow from
    one another. */
module Invariant {
  import opened Models
  import opened StateMachine
  import opened Intervals
  import opened Records
  import opened FillLedger
  import opened Venues
  import opened Coupling
  import opened Schedule

  // ---- books: the tracker caches the child orders ----

  /** The four buckets equal the fold over the child orders. */
  ghost predicate BucketsOk(children: seq<ChildOrder>, e: Exposure) {
    e == Recomputed(children, e.confirmed)
  }

  ghost predicate BooksOk(r: Record) {
    Ledger(r) && Uncredited(r) == 0 && BucketsOk(r.children, r.exposure)
  }

  lemma BucketsAddUp(children: seq<ChildOrder>, e: Exposure)
    requires BucketsOk(children, e)
    ensures e.Reserved() == Sum(children, ReservedOf)
  {
    NonNegativeSums(children);
    var live, submit, cancel, unknown := LiveOf, PendingSubmitOf, PendingCancelOf, UnknownOf;
    var a := c => LiveOf(c) + PendingSubmitOf(c);
    var b := c => PendingCancelOf(c) + UnknownOf(c);
    SumOfSums(children, live, submit, a);
    SumOfSums(children, cancel, unknown, b);
    SumOfSums(children, a, b, ReservedOf);
  }

  /** Confirmed plus reserved is what the children have committed. */
  lemma BooksCommit(r: Record)
    requires BooksOk(r)
    ensures r.exposure.confirmed + r.exposure.Reserved() == Sum(r.children, CommittedOf)
  {
    BucketsAddUp(r.children, r.exposure);
    SumOfSums(r.children, ConfirmedOf, ReservedOf, CommittedOf);
  }

  /** Every bucket after one child is replaced. */
  lemma BucketsReplace(children: seq<ChildOrder>, e: Exposure, i: nat, c: ChildOrder)
    requires BucketsOk(children, e) && i < |children|
    ensures
      var e' := Recomputed(children[i := c], e.confirmed);
      && e'.liveOpen == e.liveOpen - LiveOf(children[i]) + LiveOf(c)
      && e'.pendingSubmit == e.pendingSubmit - PendingSubmitOf(children[i]) + PendingSubmitOf(c)
      && e'.pendingCancel == e.pendingCancel - PendingCancelOf(children[i]) + PendingCancelOf(c)
      && e'.unknown == e.unknown - UnknownOf(children[i]) + UnknownOf(c)
    ensures LiveOf(children[i]) <= e.liveOpen && PendingSubmitOf(children[i]) <= e.pendingSubmit
    ensures PendingCancelOf(children[i]) <= e.pendingCancel && UnknownOf(children[i]) <= e.unknown
  {
    hide Sum;
    SumUpdate(children, i, c, LiveOf);
    SumUpdate(children, i, c, PendingSubmitOf);
    SumUpdate(children, i, c, PendingCancelOf);
    SumUpdate(children, i, c, UnknownOf);
    SumNonNegative(children, LiveOf);
    SumNonNegative(children, PendingSubmitOf);
    SumNonNegative(children, PendingCancelOf);
    SumNonNegative(children, UnknownOf);
  }

  lemma BucketsAppend(children: seq<ChildOrder>, e: Exposure, c: ChildOrder)
    requires BucketsOk(children, e)
    ensures
      var e' := Recomputed(children + [c], e.confirmed);
      && e'.liveOpen == e.liveOpen + LiveOf(c)
      && e'.pendingSubmit == e.pendingSubmit + PendingSubmitOf(c)
      && e'.pendingCancel == e.pendingCancel + PendingCancelOf(c)
      && e'.unknown == e.unknown + UnknownOf(c)
  {
    hide Sum;
    SumAppend(children, c, LiveOf);
    SumAppend(children, c, PendingSubmitOf);
    SumAppend(children, c, PendingCancelOf);
    SumAppend(children, c, UnknownOf);
  }

  lemma BucketsDropLast(children: seq<ChildOrder>, e: Exposure)
    requires BucketsOk(children, e) && children != []
    ensures
      var e', c := Recomputed(children[..|children| - 1], e.confirmed), children[|children| - 1];
      && e'.liveOpen == e.liveOpen - LiveOf(c)
      && e'.pendingSubmit == e.pendingSubmit - PendingSubmitOf(c)
      && e'.pendingCancel == e.pendingCancel - PendingCancelOf(c)
      && e'.unknown == e.unknown - UnknownOf(c)
  {}

  /** Children with nothing reserved do not show in the buckets. */
  lemma {:induction false} SumOnlyLast(a: seq<ChildOrder>, b: seq<ChildOrder>, f: ChildOrder -> int)
    requires |a| == |b| > 0 && a[|a| - 1] == b[|b| - 1]
    requires forall i :: 0 <= i < |a| - 1 ==> f(a[i]) == 0 && f(b[i]) == 0
    ensures Sum(a, f) == Sum(b, f)
  {
    SumZero(a[..|a| - 1], f);
    SumZero(b[..|b| - 1], f);
  }

  ghost predicate NothingReserved(children: seq<ChildOrder>, i: nat)
    requires i < |children|
  {
    ReservedOf(children[i]) == 0
  }

  /** Only the last child may still add fills. */
  ghost predicate SingleOk(children: seq<ChildOrder>) {
    forall i: nat :: i + 1 < |children| ==> NothingReserved(children, i)
  }

  lemma BucketsOnlyLast(a: seq<ChildOrder>, b: seq<ChildOrder>, confirmed: nat)
    requires |a| == |b| > 0 && a[|a| - 1] == b[|b| - 1]
    requires SingleOk(a) && SingleOk(b)
    ensures Recomputed(a, confirmed) == Recomputed(b, confirmed)
  {
    forall i | 0 <= i < |a| - 1
      ensures LiveOf(a[i]) == 0 && PendingSubmitOf(a[i]) == 0 && PendingCancelOf(a[i]) == 0 && UnknownOf(a[i]) == 0
      ensures LiveOf(b[i]) == 0 && PendingSubmitOf(b[i]) == 0 && PendingCancelOf(b[i]) == 0 && UnknownOf(b[i]) == 0
    {
      assert NothingReserved(a, i);
      assert NothingReserved(b, i);
    }
    SumOnlyLast(a, b, LiveOf);
    SumOnlyLast(a, b, PendingSubmitOf);
    SumOnlyLast(a, b, PendingCancelOf);
    SumOnlyLast(a, b, UnknownOf);
  }

  lemma {:induction false} NothingReservedAtAll(children: seq<ChildOrder>)
    requires Sum(children, ReservedOf) == 0
    ensures forall i: nat :: i < |children| ==> NothingReserved(children, i)
  {
    SumNonNegative(children, ReservedOf);
    forall i: nat | i < |children| ensures NothingReserved(children, i) {
      assert ReservedOf(children[i]) <= Sum(children, ReservedOf);
    }
  }

  lemma AdvancedReservesNoMore(a: seq<ChildOrder>, b: seq<ChildOrder>)
    requires ChildrenAdvanced(a, b)
    ensures SingleOk(a) ==> SingleOk(b)
    ensures forall i: nat :: i < |a| && NothingReserved(a, i) ==> NothingReserved(b, i)
  {
    forall i: nat | i < |a| && NothingReserved(a, i) ensures NothingReserved(b, i) {
      assert AdvancedAt(a, b, i);
    }
  }

  /** The ledger does not depend on buckets or lifecycle. */
  lemma LedgerFrame(r: Record, r': Record)
    requires Ledger(r)
    requires r'.children == r.children && r'.trackerSeen == r.trackerSeen && r'.seen == r.seen
    requires r'.trades == r.trades && r'.intervals == r.intervals && r'.anonymous == r.anonymous
    requires r'.fillInputs == r.fillInputs && r'.maker == r.maker && r'.taker == r.taker
    ensures Ledger(r')
  {}

  // ---- caps ----

  ghost predicate CapOk(cfg: Config, committed: int, now: real)
    requires cfg.Valid()
  {
    && committed <= cfg.required
    && (cfg.algorithm == Twap ==>
          committed as real <= SnappedSchedule(cfg.required, now - cfg.started, cfg.duration, cfg.slices))
  }

  lemma CapShrinks(cfg: Config, committed: int, less: int, now: real, later: real)
    requires cfg.Valid() && CapOk(cfg, committed, now) && less <= committed && now <= later
    ensures CapOk(cfg, less, later)
  {
    ScheduleIsMonotone(cfg.required, now - cfg.started, later - cfg.started, cfg.duration, cfg.slices);
  }

  // ---- ids and times ----

  ghost predicate IdAt(children: seq<ChildOrder>, lastSequence: nat, i: nat)
    requires i < |children|
  {
    children[i].id <= lastSequence
  }

  ghost predicate IdsOk(children: seq<ChildOrder>, aggressive: set<nat>, lastSequence: nat) {
    && (forall i: nat :: i < |children| ==> IdAt(children, lastSequence, i))
    && (forall id :: id in aggressive ==> HasId(children, id))
    && (forall i: nat, j: nat :: i < j < |children| ==> FollowsAt(children, aggressive, i, j))
  }

  /** After an aggressive child only aggressive ones follow. */
  ghost predicate FollowsAt(children: seq<ChildOrder>, aggressive: set<nat>, i: nat, j: nat)
    requires i < |children| && j < |children|
  {
    children[i].id in aggressive ==> children[j].id in aggressive
  }

  /** While the last child is passive there are no aggressive ones. */
  lemma PassiveLast(children: seq<ChildOrder>, aggressive: set<nat>, lastSequence: nat)
    requires IdsOk(children, aggressive, lastSequence) && children != []
    requires children[|children| - 1].id !in aggressive
    ensures aggressive == {}
  {
    forall i | 0 <= i < |children| ensures children[i].id !in aggressive {
      assert i < |children| - 1 ==> FollowsAt(children, aggressive, i, |children| - 1);
    }
    NoneListed(children, aggressive);
  }

  lemma NoneListed(children: seq<ChildOrder>, ids: set<nat>)
    requires forall id :: id in ids ==> HasId(children, id)
    requires forall i :: 0 <= i < |children| ==> children[i].id !in ids
    ensures ids == {}
  {}

  /** A child is aggressive exactly when it was submitted at or after the deadline. */
  ghost predicate SubmissionAt(cfg: Config, children: seq<ChildOrder>, submittedAt: map<nat, real>,
                               aggressive: set<nat>, now: real, i: nat)
    requires i < |children|
  {
    var id := children[i].id;
    && id in submittedAt && cfg.started <= submittedAt[id] <= now
    && (cfg.DeadlineReached(submittedAt[id]) <==> id in aggressive)
    && (id in aggressive ==> cfg.policy == AggressiveWithinRange)
  }

  ghost predicate SubmissionsOk(cfg: Config, children: seq<ChildOrder>, submittedAt: map<nat, real>,
                                aggressive: set<nat>, now: real)
  {
    forall i: nat :: i < |children| ==> SubmissionAt(cfg, children, submittedAt, aggressive, now, i)
  }

  /** A TWAP execution has one aggressive attempt, and one more for each decision that opened one. */
  ghost predicate AggressiveOk(cfg: Config, aggressive: set<nat>, attemptOpen: bool, openings: nat) {
    cfg.algorithm == Twap ==> |aggressive| + (if attemptOpen then 1 else 0) <= 1 + openings
  }

  // ---- reject streak ----

  function Crossing(side: Side, bid: int, ask: int): int { if side == Buy then ask else bid }

  /** A post-only order may follow reject `last` at time `now`. */
  ghost predicate GateOpen(side: Side, last: Reject, now: real, price: int, bid: int, ask: int) {
    && now - last.time >= 1.0
    && (price != last.price || Crossing(side, bid, ask) != Crossing(side, last.bid, last.ask))
  }

  ghost predicate SpacedAt(side: Side, rejects: seq<Reject>, i: nat)
    requires i + 1 < |rejects|
  {
    GateOpen(side, rejects[i], rejects[i + 1].time, rejects[i + 1].price, rejects[i + 1].bid, rejects[i + 1].ask)
  }

  ghost predicate StreakOk(cfg: Config, status: ExecutionStatus, rejects: seq<Reject>, now: real) {
    && (status == Running ==> |rejects| < cfg.retryLimit)
    && (forall i: nat :: i + 1 < |rejects| ==> SpacedAt(cfg.side, rejects, i))
    && (rejects != [] ==> rejects[|rejects| - 1].time <= now)
  }

  // ---- outcomes ----

  ghost predicate OutcomeOk(cfg: Config, status: ExecutionStatus, summary: Option<ExecutionStatus>,
                            cancelRequested: bool, confirmed: nat, reserved: nat)
  {
    && status != Created && status != Validating
    && summary == (if status.IsTerminal() then Some(status) else None)
    && (status == Running ==> !cancelRequested)
    && (status == Cancelling ==> cancelRequested)
    && (status.IsTerminal() && status != Failed ==> reserved == 0)
    && (status == Completed ==> confirmed == cfg.required)
    && (status == PartiallyCompleted ==> 0 < confirmed < cfg.required)
    && (status == Expired || status == ExecutionStatus.Cancelled ==> confirmed == 0)
  }

  lemma OutcomeKept(cfg: Config, status: ExecutionStatus, summary: Option<ExecutionStatus>,
                    cancelRequested: bool, a: Exposure, b: Exposure)
    requires OutcomeOk(cfg, status, summary, cancelRequested, a.confirmed, a.Reserved())
    requires b.confirmed >= a.confirmed && b.confirmed + b.Reserved() <= a.confirmed + a.Reserved()
    ensures OutcomeOk(cfg, status, summary, cancelRequested, b.confirmed, b.Reserved())
  {}

  // ---- calls in progress ----

  ghost predicate CallOk(cfg: Config, call: Call, children: seq<ChildOrder>, rejects: seq<Reject>, now: real) {
    match call
    case Idle => true
    case AwaitingSubmit(price, postOnly, bid, ask) =>
      && children != []
      && children[|children| - 1].status == PendingSubmit
      && children[|children| - 1].confirmed == 0
      && (postOnly && rejects != [] ==> GateOpen(cfg.side, rejects[|rejects| - 1], now, price, bid, ask))
    case AwaitingCancel(index, before, remaining) =>
      && index < |children|
      && children[index].status == PendingCancel
      && children[index].Remaining() == remaining > 0
      && before.IsLive()
      && (before == PartiallyFilled ==> children[index].confirmed > 0)
  }

  // ---- all of it ----

  datatype World = World(rec: Record, venue: VenueState, now: real)

  ghost predicate LifeOk(cfg: Config, r: Record, now: real) {
    && IdsOk(r.children, r.aggressive, r.lastSequence)
    && SubmissionsOk(cfg, r.children, r.submittedAt, r.aggressive, now)
    && AggressiveOk(cfg, r.aggressive, r.attemptOpen, r.openings)
    && StreakOk(cfg, r.status, r.rejects, now)
    && OutcomeOk(cfg, r.status, r.summary, r.cancelRequested, r.exposure.confirmed, r.exposure.Reserved())
    && CallOk(cfg, r.call, r.children, r.rejects, now)
  }

  ghost predicate Inv(cfg: Config, w: World) {
    && cfg.Valid()
    && cfg.started <= w.now
    && BooksOk(w.rec)
    && Tied(w.rec, w.venue)
    && Traced(w.rec.children, w.venue)
    && CapOk(cfg, Sum(w.rec.children, CommittedOf), w.now)
    && SingleOk(w.rec.children)
    && LifeOk(cfg, w.rec, w.now)
  }

  lemma InitialInv(cfg: Config, now: real)
    requires cfg.Valid() && cfg.started <= now
    ensures Inv(cfg, World(InitialRecord(), EmptyVenue(), now))
  {
    hide BooksOk, Tied, Traced, CapOk, SingleOk, LifeOk;
    InitialBooks();
    InitialCap(cfg, now);
    InitialLife(cfg, now);
  }

  lemma InitialBooks()
    ensures BooksOk(InitialRecord()) && Tied(InitialRecord(), EmptyVenue())
    ensures Traced(InitialRecord().children, EmptyVenue()) && SingleOk(InitialRecord().children)
    ensures Sum(InitialRecord().children, CommittedOf) == 0
  {
    hide Ledger, Uncredited;
    InitialLedger();
    assert BucketsOk(InitialRecord().children, InitialRecord().exposure);
  }

  lemma InitialCap(cfg: Config, now: real)
    requires cfg.Valid()
    ensures CapOk(cfg, 0, now)
  {
    hide SnappedSchedule;
    ScheduleIsMonotone(cfg.required, now - cfg.started, now - cfg.started, cfg.duration, cfg.slices);
  }

  lemma InitialLife(cfg: Config, now: real)
    requires cfg.Valid()
    ensures LifeOk(cfg, InitialRecord(), now)
  {
    hide IdsOk, SubmissionsOk, AggressiveOk, StreakOk, OutcomeOk, CallOk;
    NoIds();
    NoSubmissions(cfg, now);
    NoAttempts(cfg);
    NoRejects(cfg, now);
    NoOutcome(cfg);
    assert InitialRecord().exposure.Reserved() == 0;
    NoCall(cfg, now);
  }

  lemma NoAttempts(cfg: Config)
    ensures AggressiveOk(cfg, {}, false, 0)
  {}

  lemma NoOutcome(cfg: Config)
    ensures OutcomeOk(cfg, Running, None, false, 0, 0)
  {}

  lemma NoCall(cfg: Config, now: real)
    ensures CallOk(cfg, Idle, [], [], now)
  {}

  lemma NoIds()
    ensures IdsOk([], {}, 0)
  {}

  lemma NoSubmissions(cfg: Config, now: real)
    ensures SubmissionsOk(cfg, [], map[], {}, now)
  {}

  lemma NoRejects(cfg: Config, now: real)
    requires cfg.Valid()
    ensures StreakOk(cfg, Running, [], now)
  {}

  // ---- what the invariant means at the exchange ----

  /** At every moment what the venue has traded plus what its live orders may still trade is at
      most the required quantity, and never more than the record reckons with. */
  lemma ExchangeStaysWithinTarget(cfg: Config, w: World)
    requires Inv(cfg, w)
    ensures TotalExposure(w.venue.orders) <= w.rec.exposure.confirmed + w.rec.exposure.Reserved() <= cfg.required
    ensures Traded(w.venue.trades) <= TotalCommitted(w) <= cfg.required
  {
    hide Ledger, LedgerView, LifeOk, CapOk, BucketsOk, Exposure.Reserved, SingleOk, SnappedSchedule;
    BooksCommit(w.rec);
    LedgerIds(w.rec);
    CapMeans(cfg, Sum(w.rec.children, CommittedOf), w.now);
    var children := w.rec.children;
    forall i | 0 <= i < |children|
      ensures children[i].id in w.venue.orders ==>
                w.venue.orders[children[i].id].Exposure() <= CommittedOf(children[i])
    {
      CoupledChild(children, w.venue, i);
      ChildDominatesOrder(children[i], w.venue);
    }
    ExposureIsCommitted(w.venue.orders, children);
    TradedIsCommitted(children, w.venue);
  }

  ghost function TotalCommitted(w: World): int { Sum(w.rec.children, CommittedOf) }

  lemma CapMeans(cfg: Config, committed: int, now: real)
    requires cfg.Valid() && CapOk(cfg, committed, now)
    ensures committed <= cfg.required
  {}

  lemma LedgerIds(r: Record)
    requires BooksOk(r)
    ensures DistinctIds(r.children)
  {}

  lemma TradedIsCommitted(children: seq<ChildOrder>, v: VenueState)
    requires VenueOk(v) && Coupled(children, v) && Traced(children, v) && DistinctIds(children)
    ensures Traded(v.trades) <= Sum(children, CommittedOf)
  {
    hide DistinctIds;
    forall k | 0 <= k < |v.trades| ensures HasId(children, v.trades[k].client) {
      assert TradeOk(v, k);
    }
    TradedForChildren(children, v.trades);
    FilledIsCommitted(children, v);
  }

  lemma {:induction false} FilledIsCommitted(children: seq<ChildOrder>, v: VenueState)
    requires VenueOk(v) && Coupled(children, v)
    ensures SumFilled(children, v.trades) <= Sum(children, CommittedOf)
  {
    if children != [] {
      var n := |children| - 1;
      forall i: nat | i < n ensures ChildOkAt(children[..n], v, i) {
        assert ChildOkAt(children, v, i);
      }
      FilledIsCommitted(children[..n], v);
      CoupledChild(children, v, n);
      var id := children[n].id;
      if id in v.orders {
        assert OrderOk(v, id);
      } else {
        NoTradesWithoutOrder(v, |v.trades|, id);
        assert v.trades[..|v.trades|] == v.trades;
      }
    }
  }
}
