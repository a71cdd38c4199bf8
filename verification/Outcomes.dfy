/** What a finished execution means at the exchange. */
module Outcomes {
  import opened Models
  import opened StateMachine
  import opened Records
  import opened FillLedger
  import opened Venues
  import opened Coupling
  import opened Invariant
  import opened Protocol
  import opened Steps
  import opened Exactness
  import opened Runs

  /** No live order and no request on its way. */
  ghost predicate Quiet(v: VenueState) {
    v.inflight == map[] && forall id :: id in v.orders ==> !v.orders[id].Live()
  }

  /** A quiet venue stays as it is. */
  lemma QuietVenueIsFinal(v: VenueState, v': VenueState)
    requires VenueOk(v) && Quiet(v) && Evolves(v, v')
    ensures Quiet(v') && v'.trades == v.trades
  {
    forall id: nat
      ensures id !in v'.inflight
      ensures id in v'.orders ==> id in v.orders && v'.orders[id].filled == v.orders[id].filled && !v'.orders[id].Live()
    {
      assert OrderEvolves(v, v', id);
      if id in v.orders { assert OrderOk(v, id) && OrderOk(v', id); }
    }
    if |v'.trades| > |v.trades| {
      var n := |v.trades|;
      assert TradeOk(v', n);
      var id := v'.trades[n].client;
      assert v'.trades[..n] == v.trades && v'.trades[..n + 1][..n] == v.trades;
      assert OrderOk(v, id) && OrderOk(v', id);
      FilledOfPrefix(v'.trades, n + 1, id);
    }
  }

  lemma UnreservedChild(c: ChildOrder, v: VenueState)
    requires VenueOk(v) && ChildOk(c, v) && ReservedOf(c) == 0
    ensures c.id !in v.inflight
    ensures c.id in v.orders ==> !v.orders[c.id].Live() && v.orders[c.id].filled == c.confirmed
  {
    if c.id in v.orders { assert OrderOk(v, c.id); }
  }

  /** With nothing reserved the venue is quiet, and what it has traded is what is confirmed. */
  lemma UnreservedMeansQuiet(cfg: Config, w: World)
    requires Inv(cfg, w) && w.rec.exposure.Reserved() == 0
    ensures Quiet(w.venue) && Traded(w.venue.trades) == w.rec.exposure.confirmed
  {
    hide Inv, BucketsOk, VenueOk, Traced, Coupled, ChildOk, DistinctIds, Sum, FullyConfirmed;
    var children, v := w.rec.children, w.venue;
    InvVenue(cfg, w);
    InvBuckets(cfg, w);
    TiedParts(w.rec, v);
    LedgerIds(w.rec);
    BooksConfirmed(w.rec);
    BucketsAddUp(children, w.rec.exposure);
    NothingReservedAtAll(children);
    assert Coupled(children, v);
    forall i: nat | i < |children|
      ensures children[i].id !in v.inflight
      ensures children[i].id in v.orders ==> !v.orders[children[i].id].Live() && v.orders[children[i].id].filled == children[i].confirmed
    {
      assert NothingReserved(children, i);
      CoupledChild(children, v, i);
      UnreservedChild(children[i], v);
    }
    QuietByChildren(children, v);
    ConfirmedByChildren(children, v);
    TradesTraced(children, v);
    TradedForChildren(children, v.trades);
    ConfirmedIsFilled(children, v);
  }

  lemma QuietByChildren(children: seq<ChildOrder>, v: VenueState)
    requires Traced(children, v)
    requires forall i: nat :: i < |children| ==> children[i].id !in v.inflight
    requires forall i: nat :: i < |children| && children[i].id in v.orders ==> !v.orders[children[i].id].Live()
    ensures Quiet(v)
  {
    forall id | id in v.orders || id in v.inflight ensures id !in v.inflight && !v.orders[id].Live() {
      assert HasId(children, id);
      var i: nat :| i < |children| && children[i].id == id;
    }
    assert v.inflight.Keys == {};
  }

  lemma ConfirmedByChildren(children: seq<ChildOrder>, v: VenueState)
    requires forall i: nat :: i < |children| && children[i].id in v.orders ==> v.orders[children[i].id].filled == children[i].confirmed
    ensures FullyConfirmed(children, v)
  {}

  lemma {:induction false} ConfirmedWithinFilled(children: seq<ChildOrder>, v: VenueState)
    requires VenueOk(v) && Coupled(children, v)
    ensures Sum(children, ConfirmedOf) <= SumFilled(children, v.trades)
  {
    if children != [] {
      var n := |children| - 1;
      forall i: nat | i < n ensures ChildOkAt(children[..n], v, i) {
        assert ChildOkAt(children, v, i);
      }
      ConfirmedWithinFilled(children[..n], v);
      CoupledChild(children, v, n);
      if children[n].id in v.orders { assert OrderOk(v, children[n].id); }
    }
  }

  /** The record never claims more than the exchange has traded. */
  lemma ConfirmedIsTraded(cfg: Config, w: World)
    requires Inv(cfg, w)
    ensures w.rec.exposure.confirmed <= Traded(w.venue.trades)
  {
    hide Inv, BucketsOk, VenueOk, Traced, Coupled, DistinctIds, Sum, LedgerView;
    InvVenue(cfg, w);
    InvBuckets(cfg, w);
    LedgerIds(w.rec);
    BooksConfirmed(w.rec);
    TradesTraced(w.rec.children, w.venue);
    TradedForChildren(w.rec.children, w.venue.trades);
    ConfirmedWithinFilled(w.rec.children, w.venue) by { TiedCoupled(w.rec, w.venue); }
  }

  lemma TiedCoupled(r: Record, v: VenueState)
    requires Tied(r, v)
    ensures Coupled(r.children, v)
  {}

  lemma QuietStep(cfg: Config, w: World, e: Event, w': World)
    requires cfg.Valid() && Step(cfg, w, e, w') && VenueOk(w.venue) && Quiet(w.venue)
    requires w'.rec.lastSequence == w.rec.lastSequence
    ensures Quiet(w'.venue) && w'.venue.trades == w.venue.trades
  {
    hide Quiet, VenueOk, Evolves, EndSubmit, EndCancel, Refresh, ApplyResult, ApplyResultExact, ResultOk, WarningOk, ListsAll, MayStop,
         SubmitOutcomeOk, CancelOutcomeOk, MaySubmit, OpensAttempt;
    if e.VenueMoves? {
      QuietVenueIsFinal(w.venue, w'.venue);
    }
  }

  /** With nothing reserved and no new child nothing is confirmed any more. */
  lemma {:induction false} QuietStays(cfg: Config, run: Run, i: nat, j: nat)
    requires IsRun(cfg, run) && i <= j < |run.worlds|
    requires run.worlds[i].rec.exposure.Reserved() == 0
    requires run.worlds[j].rec.lastSequence == run.worlds[i].rec.lastSequence
    ensures Quiet(run.worlds[j].venue) && run.worlds[j].venue.trades == run.worlds[i].venue.trades
    ensures run.worlds[j].rec.exposure.confirmed == run.worlds[i].rec.exposure.confirmed
    decreases j - i
  {
    hide Step, Inv, Quiet, StepAt, Traded, Exposure.Reserved;
    RunsAreSafe(cfg, run, i);
    UnreservedMeansQuiet(cfg, run.worlds[i]);
    if i < j {
      RunsOnlyProgress(cfg, run, i, j - 1);
      RunsOnlyProgress(cfg, run, j - 1, j);
      QuietStays(cfg, run, i, j - 1);
      RunsAreSafe(cfg, run, j - 1);
      InvVenue(cfg, run.worlds[j - 1]);
      assert StepAt(cfg, run, j - 1);
      QuietStep(cfg, run.worlds[j - 1], run.events[j - 1], run.worlds[j]) by { UnfoldStepAt(cfg, run, j - 1); }
      RunsAreSafe(cfg, run, j);
      ConfirmedIsTraded(cfg, run.worlds[j]);
    }
  }

  /** Non-failed terminal statuses with the exposure they promise. */
  ghost predicate TrueOutcome(cfg: Config, status: ExecutionStatus, traded: nat) {
    match status
    case Completed => traded == cfg.required
    case PartiallyCompleted => 0 < traded < cfg.required
    case Expired => traded == 0
    case Cancelled => traded == 0
    case _ => false
  }

  lemma StoppedIsQuiet(cfg: Config, w: World)
    requires Inv(cfg, w) && w.rec.status.IsTerminal() && w.rec.status != Failed
    ensures Quiet(w.venue) && Traded(w.venue.trades) == w.rec.exposure.confirmed && w.rec.exposure.Reserved() == 0
    ensures TrueOutcome(cfg, w.rec.status, Traded(w.venue.trades))
  {
    hide BooksOk, Tied, Traced, CapOk, SingleOk, IdsOk, SubmissionsOk, AggressiveOk, StreakOk, CallOk, Quiet;
    UnreservedMeansQuiet(cfg, w);
  }

  /** Once an execution is COMPLETED, PARTIALLY_COMPLETED, EXPIRED or CANCELLED it stays so, the
      exchange has no order of it that could still fill, now or at any later moment, and the
      exchange has traded exactly the confirmed quantity the status speaks of. */
  lemma {:induction false} OutcomesAreTrue(cfg: Config, run: Run, i: nat, j: nat)
    requires IsRun(cfg, run) && i <= j < |run.worlds|
    requires run.worlds[i].rec.status.IsTerminal() && run.worlds[i].rec.status != Failed
    ensures
      var (early, late) := (run.worlds[i], run.worlds[j]);
      && late.rec.status == early.rec.status && late.rec.summary == Some(early.rec.status)
      && Quiet(late.venue)
      && Traded(late.venue.trades) == early.rec.exposure.confirmed == late.rec.exposure.confirmed
      && TrueOutcome(cfg, early.rec.status, Traded(late.venue.trades))
    decreases j - i
  {
    hide Step, Inv, Quiet, TrueOutcome, Later, StepAt;
    RunsAreSafe(cfg, run, j);
    RunsOnlyProgress(cfg, run, i, j);
    StatusStays(run.worlds[i].rec, run.worlds[j].rec);
    StoppedIsQuiet(cfg, run.worlds[j]);
    if i == j {
    } else {
      OutcomesAreTrue(cfg, run, i, j - 1);
      RunsAreSafe(cfg, run, j - 1);
      InvVenue(cfg, run.worlds[j - 1]);
      assert StepAt(cfg, run, j - 1);
      StoppedStepKeepsTrades(cfg, run.worlds[j - 1], run.events[j - 1], run.worlds[j]) by { UnfoldStepAt(cfg, run, j - 1); }
    }
  }

  lemma UnfoldStepAt(cfg: Config, run: Run, i: nat)
    requires cfg.Valid() && i < |run.events| && |run.worlds| == |run.events| + 1 && StepAt(cfg, run, i)
    ensures Step(cfg, run.worlds[i], run.events[i], run.worlds[i + 1])
  {}

  lemma StatusStays(r: Record, r': Record)
    requires Later(r, r') && r.status.IsTerminal()
    ensures r'.status == r.status && r'.summary == Some(r.status)
  {}

  lemma StoppedStepKeepsTrades(cfg: Config, w: World, e: Event, w': World)
    requires cfg.Valid() && Step(cfg, w, e, w')
    requires VenueOk(w.venue) && Quiet(w.venue) && w.rec.status.IsTerminal() && w.rec.status != Failed
    ensures w'.venue.trades == w.venue.trades
  {
    hide Quiet, VenueOk, Evolves, EndSubmit, EndCancel, Refresh, ApplyResult, ApplyResultExact, ResultOk, WarningOk, ListsAll, MayStop,
         SubmitOutcomeOk, CancelOutcomeOk, DemandOk;
    if e.VenueMoves? {
      QuietVenueIsFinal(w.venue, w'.venue);
    }
  }

  /** The summary exists exactly when the status is terminal, and names that status. */
  lemma SummaryExactlyWhenTerminal(cfg: Config, run: Run, i: nat)
    requires IsRun(cfg, run) && i < |run.worlds|
    ensures
      var r := run.worlds[i].rec;
      r.summary == if r.status.IsTerminal() then Some(r.status) else None
  {
    hide IsRun, BooksOk, Tied, Traced, CapOk, SingleOk;
    RunsAreSafe(cfg, run, i);
  }

  /** Nothing is submitted once a cancellation was requested: every order the exchange will ever
      have was created before. */
  lemma NoOrderAfterCancelRequest(cfg: Config, run: Run, i: nat, j: nat, id: nat)
    requires IsRun(cfg, run) && i <= j < |run.worlds|
    requires run.worlds[i].rec.cancelRequested
    requires HasId(run.worlds[j].rec.children, id) || id in run.worlds[j].venue.orders || id in run.worlds[j].venue.inflight
    ensures id <= run.worlds[i].rec.lastSequence
  {
    hide IsRun, BooksOk, Tied, CapOk, SingleOk;
    RunsOnlyProgress(cfg, run, i, j);
    RunsAreSafe(cfg, run, j);
    var w := run.worlds[j];
    var k: nat :| k < |w.rec.children| && w.rec.children[k].id == id;
    assert IdAt(w.rec.children, w.rec.lastSequence, k);
  }

  /** However the fills of a run were batched, ordered, repeated or windowed up to now, one complete
      reconciliation leaves the exchange's own trades in sort-key order behind the reported average
      price, and every child's status and confirmed quantity as the exchange has them. */
  lemma ReconciliationMakesRunsExact(cfg: Config, run: Run, i: nat, result: ReconciliationResult)
    requires IsRun(cfg, run) && i < |run.worlds|
    requires
      var w := run.worlds[i];
      ResultOk(w.venue, result) && WarningOk(w.venue, w.rec.children, result) && Exactness.Complete(w.venue, result)
    ensures
      var w := run.worlds[i];
      var r' := ApplyResult(w.rec, result);
      && SummaryInputs(r') == TrueInputs(w.venue.trades)
      && r'.maker == TradedAs(w.venue.trades, true) && r'.taker == TradedAs(w.venue.trades, false)
      && (Traded(w.venue.trades) > 0 ==>
            Vwap(SummaryInputs(r')) * Traded(w.venue.trades) as real == TradedNotional(w.venue.trades) as real)
      && Sum(r'.children, ConfirmedOf) == Traded(w.venue.trades)
      && |r'.children| == |w.rec.children|
      && forall k :: 0 <= k < |w.rec.children| && w.rec.children[k].id in w.venue.orders ==>
           Current(w.venue.orders[w.rec.children[k].id], r'.children[k].status, r'.children[k].confirmed)
  {
    hide IsRun, Inv, Ledger, Tied, Traced, ResultOk, WarningOk, CurrentRows, SummaryInputs, TrueInputs, ApplyResult, DistinctIds, Sum,
         BucketsOk, Current, Vwap;
    var w := run.worlds[i];
    RunsAreSafe(cfg, run, i);
    InvVenue(cfg, w);
    InvBuckets(cfg, w);
    BooksLedger(w.rec);
    LedgerIds(w.rec);
    DeliveryIsConfluent(w.rec, w.venue, result);
    ReconciliationHeals(w.rec, w.venue, result);
  }
}
