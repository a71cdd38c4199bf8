/** Facts about single engine calls: what their parts add up to in the record, what they leave
    alone, and what they add to the run of an execution. */
module Calls {
  import opened Models
  import opened StateMachine
  import opened Sorting
  import opened Intervals
  import opened Records
  import opened FillLedger
  import opened Venues
  import opened Coupling
  import opened Evidence
  import opened Schedule
  import opened Invariant
  import opened Protocol
  import opened Steps
  import opened Deliveries
  import opened Runs
  import Outcomes
  import opened Adapters
  import opened Trackers
  import opened Lookups
  import opened Causes
  import Idempotence

  /** `later` continues `earlier`. */
  ghost predicate Continues(earlier: Run, later: Run) {
    earlier.worlds <= later.worlds && earlier.events <= later.events
  }

  lemma ContinuesReflexive(run: Run)
    ensures Continues(run, run)
  {}

  lemma ContinuesExtended(earlier: Run, run: Run, e: Event, w: World)
    requires Continues(earlier, run)
    ensures Continues(earlier, Extended(run, e, w))
  {
    PrefixTransitive(earlier.worlds, run.worlds, run.worlds + [w]);
    PrefixTransitive(earlier.events, run.events, run.events + [e]);
  }

  /** Confirmed plus reserved stays within the target. */
  ghost predicate Fits(cfg: Config, r: Record) {
    r.exposure.confirmed + r.exposure.Reserved() <= cfg.required
  }

  lemma CurrentInv(cfg: Config, run: Run)
    requires IsRun(cfg, run)
    ensures Inv(cfg, Last(run))
  {
    RunsAreSafe(cfg, run, |run.worlds| - 1);
  }

  /** A snapshot without fills changes no quantity. */
  lemma EmptySnapshot(r: Record, i: nat)
    requires i < |r.children|
    ensures UpdateFill(r, i, 0, None) == r
  {}

  lemma AcceptedInParts(cfg: Config, r: Record, now: real, status: ChildStatus, filled: nat)
    requires r.children != [] && r.call.AwaitingSubmit?
    ensures
      var i := |r.children| - 1;
      var taken := TakeSnapshot(ReleasePendingSubmit(r.(call := Idle), r.children[i].submitted), i, status, filled);
      var reserved := ReserveTaken(taken, i);
      && |taken.children| == |r.children| && reserved.children == taken.children
      && EndSubmit(cfg, r, now, Accepted(status, filled)) == ClearGate(reserved, taken.children[i].status)
      && EndSubmit(cfg, r, now, Accepted(status, filled)).exposure == reserved.exposure
  {
    hide UpdateFill;
    var i := |r.children| - 1;
    UpdateFrame(SetStatus(ReleasePendingSubmit(r.(call := Idle), r.children[i].submitted), i, status), i, filled, None);
  }

  lemma SubmissionFits(cfg: Config, w: World, quantity: nat, price: int, postOnly: bool, bid: int, ask: int)
    requires Inv(cfg, w) && MaySubmit(cfg, w.rec, w.now, quantity, price, postOnly, bid, ask)
    ensures w.rec.exposure.confirmed + w.rec.exposure.Reserved() + quantity <= cfg.required
  {
    hide BooksOk, Tied, Traced, SingleOk, LifeOk, SnappedSchedule, Exposure.Reserved, GateOpen;
  }

  lemma BeginIsStep(cfg: Config, w: World, w': World, quantity: nat, price: int, postOnly: bool, bid: int, ask: int)
    requires cfg.Valid() && MaySubmit(cfg, w.rec, w.now, quantity, price, postOnly, bid, ask)
    requires w' == World(BeginSubmit(w.rec, w.now, quantity, price, postOnly, bid, ask),
                         Sent(w.venue, w.rec.lastSequence + 1, quantity), w.now)
    ensures Step(cfg, w, SubmitBegins(quantity, price, postOnly, bid, ask), w')
    ensures w'.rec.lastSequence == w.rec.lastSequence + 1 && w'.rec.children != []
    ensures w'.rec.children[|w'.rec.children| - 1].id == w'.rec.lastSequence
    ensures w'.rec.call == AwaitingSubmit(price, postOnly, bid, ask)
  {
    hide MaySubmit;
  }

  lemma CreateOutcomeFits(cfg: Config, w: World, outcome: SubmitOutcome)
    requires Inv(cfg, w) && w.rec.call.AwaitingSubmit? && w.rec.children != []
    requires SubmitOutcomeOk(w.venue, w.rec.children[|w.rec.children| - 1].id, outcome)
    ensures
      var r' := EndSubmit(cfg, w.rec, w.now, outcome);
      Fits(cfg, r') && r'.call == Idle
  {
    hide Inv, SubmitOutcomeOk, EndSubmit, Exposure.Reserved;
    var w' := w.(rec := EndSubmit(cfg, w.rec, w.now, outcome));
    SubmitEndKeepsInv(cfg, w, w', outcome);
    CommittedBelowTarget(cfg, w');
    EndIsIdle(cfg, w.rec, w.now, outcome);
  }

  lemma EndIsIdle(cfg: Config, r: Record, now: real, outcome: SubmitOutcome)
    requires r.call.AwaitingSubmit? && r.children != []
    ensures EndSubmit(cfg, r, now, outcome).call == Idle
  {
    hide UpdateFill;
    if outcome.Accepted? {
      AcceptedInParts(cfg, r, now, outcome.status, outcome.filled);
      var i := |r.children| - 1;
      UpdateFrame(SetStatus(ReleasePendingSubmit(r.(call := Idle), r.children[i].submitted), i, outcome.status), i, outcome.filled, None);
    }
  }

  /** What a child order's safety check says. */
  datatype Validation = Sound | OutsideRange(shapeRefused: bool) | TemporarilyUntradeable | Unsound

  datatype Demand =
    | NoDemand | Stale | DemandRaised
    | Ask(quantity: nat, price: int, postOnly: bool, bid: int, ask: int)

  datatype Reprice = Kept | Repriced | RepriceStale | RepriceRaised

  ghost predicate IsMultiple(quantity: nat, k: nat, step: nat) { quantity == k * step }

  /** `quantity` is the largest multiple of `step` for which confirmed plus `quantity` stays within
      the target and, for TWAP, within the schedule. */
  ghost predicate LargestDemand(cfg: Config, r: Record, now: real, step: nat, quantity: nat)
    requires cfg.Valid()
  {
    && (exists k: nat :: IsMultiple(quantity, k, step))
    && (quantity > 0 ==> CapOk(cfg, r.exposure.confirmed + quantity, now))
    && !CapOk(cfg, r.exposure.confirmed + quantity + step, now)
  }

  lemma MultipleOfStep(value: real, step: nat)
    requires value >= 0.0 && step > 0
    ensures exists k: nat :: IsMultiple(FloorToStep(value, step), k, step)
  {
    QuotientFloor(value, step as real);
    assert IsMultiple(FloorToStep(value, step), (value / step as real).Floor, step);
  }

  /** Which children a cancellation loop goes for. */
  datatype Selection = Active | TimedOut | Passive

  /** What run_once heard on its way: whether the streams were healthy, what the market said when it was
      asked for a demand, the price that was checked and the outcome of the check, what the repricing
      rule said if it was consulted, and whether a live child was up for repricing against a stale
      quote or was repriced. */
  datatype Sight = Sight(healthy: bool, market: Option<MarketAnswer>, price: int, validation: Validation,
                         wanted: Option<bool>, repriced: bool)

  const UNSEEN := Sight(true, None, 0, Sound, None, false)

  /** Event `k` asks for the largest demand that fits, at the quote and the checked price. */
  ghost predicate AsksFor(cfg: Config, run: Run, k: nat, sight: Sight)
    requires cfg.Valid() && k < |run.events| && k < |run.worlds|
  {
    && run.events[k].SubmitBegins? && sight.market.Some? && sight.market.value.Quote?
    && var (e, w, quote) := (run.events[k], run.worlds[k], sight.market.value);
       && e.quantity > 0 && LargestDemand(cfg, w.rec, w.now, quote.step, e.quantity)
       && e.price == sight.price && e.bid == quote.bid && e.ask == quote.ask
       && (e.postOnly <==> !(cfg.policy == AggressiveWithinRange && w.now - cfg.started >= cfg.duration))
  }

  ghost predicate Submitted(cfg: Config, earlier: Run, later: Run, sight: Sight)
    requires cfg.Valid()
  {
    exists k: nat :: |earlier.events| <= k < |later.events| < |later.worlds| && AsksFor(cfg, later, k, sight)
  }

  /** The last reject was less than a second ago, or at this price and against this quote. */
  ghost predicate StillRejected(cfg: Config, r: Record, now: real, price: int, bid: int, ask: int) {
    && r.rejects != []
    && var last := r.rejects[|r.rejects| - 1];
       || now - last.time < 1.0
       || (price == last.price && if cfg.side == Buy then ask == last.ask else bid == last.bid)
  }

  lemma GateOpens(cfg: Config, r: Record, now: real, price: int, bid: int, ask: int)
    ensures
      StillRejected(cfg, r, now, price, bid, ask)
      <==> r.rejects != [] && !GateOpen(cfg.side, r.rejects[|r.rejects| - 1], now, price, bid, ask)
  {}

  /** The engine asks for the largest demand at the quote and the checked price, or has a reason
      not to: nothing fits, the order failed its validation, or a post-only order would follow the
      last reject too soon or unchanged. */
  ghost predicate Sized(cfg: Config, r: Record, now: real, demand: Demand, market: MarketAnswer, price: int, validation: Validation)
    requires cfg.Valid() && market.Quote?
  {
    var passive := !(cfg.policy == AggressiveWithinRange && now - cfg.started >= cfg.duration);
    var rejected := passive && StillRejected(cfg, r, now, price, market.bid, market.ask);
    match demand
    case Ask(quantity, asked, postOnly, bid, ask) =>
      LargestDemand(cfg, r, now, market.step, quantity) && quantity > 0 && validation == Sound && !rejected
      && asked == price && bid == market.bid && ask == market.ask && postOnly == passive
    case NoDemand => LargestDemand(cfg, r, now, market.step, 0) || validation != Sound || rejected
    case _ => false
  }

  /** What may end a running execution short of its target: its deadline, an order that can never
      be valid, or as many rejects in a row as are allowed. */
  ghost predicate MayEndShort(cfg: Config, r: Record, now: real, validation: Validation) {
    now - cfg.started >= cfg.duration || validation == Unsound || validation == OutsideRange(true) || |r.rejects| >= cfg.retryLimit
  }

  /** How a status may change in a call: a ban or a refusal fails the execution, a filled target
      completes it, and nothing else ends it without a reason to stop short. */
  ghost predicate EndsWell(cfg: Config, before: ExecutionStatus, r: Record, now: real, validation: Validation) {
    r.status == before || r.status == Failed || r.status == Completed || MayEndShort(cfg, r, now, validation)
  }

  /** What has ended stays as it ended. */
  lemma TerminalStays(cfg: Config, earlier: Run, later: Run)
    requires IsRun(cfg, earlier) && IsRun(cfg, later) && Continues(earlier, later)
    ensures Last(earlier).rec.status.IsTerminal() ==> Last(later).rec.status == Last(earlier).rec.status
  {
    hide StepAt;
    var i := |earlier.worlds| - 1;
    assert later.worlds[i] == Last(earlier);
    RunsOnlyProgress(cfg, later, i, |later.worlds| - 1);
  }

  lemma SubmissionEndsWell(cfg: Config, r: Record, now: real, outcome: SubmitOutcome, validation: Validation)
    requires r.children != [] && r.call.AwaitingSubmit?
    ensures EndsWell(cfg, r.status, EndSubmit(cfg, r, now, outcome), now, validation)
  {
    hide UpdateFill, StateMachine.SetChildStatus;
    if outcome.Accepted? {
      AcceptedInParts(cfg, r, now, outcome.status, outcome.filled);
      var i := |r.children| - 1;
      UpdateFrame(SetStatus(ReleasePendingSubmit(r.(call := Idle), r.children[i].submitted), i, outcome.status), i, outcome.filled, None);
    }
  }

  /** Why a call that has come as far as submitting may end without: it has ended the execution,
      something is outstanding, the market gave no quote, the check refused the order, nothing fits,
      or a post-only order would follow the last reject too soon or unchanged. */
  ghost predicate Refrains(cfg: Config, w: World, sight: Sight)
    requires cfg.Valid()
  {
    || w.rec.status.IsTerminal()
    || w.rec.exposure.Reserved() > 0
    || (sight.market.Some? && !sight.market.value.Quote?)
    || sight.validation != Sound
    || (sight.market.Some? && sight.market.value.Quote?
        && var quote := sight.market.value;
           || LargestDemand(cfg, w.rec, w.now, quote.step, 0)
           || (!(cfg.policy == AggressiveWithinRange && w.now - cfg.started >= cfg.duration)
               && StillRejected(cfg, w.rec, w.now, sight.price, quote.bid, quote.ask)))
  }

  /** Past the deadline a quote that is no longer fresh makes the call cancel what is live and stop. */
  ghost predicate StaleHandled(cfg: Config, earlier: Run, later: Run, sight: Sight)
    requires later.worlds != []
  {
    var w := Last(later);
    sight.market == Some(NoFreshData) && w.now - cfg.started >= cfg.duration ==>
      w.rec.status.IsTerminal() || (w.rec.exposure.Reserved() > 0 && Swept(cfg, Active, later, |earlier.events|))
  }

  lemma StaleHandledEarlier(cfg: Config, earlier: Run, middle: Run, later: Run, sight: Sight)
    requires Continues(earlier, middle) && later.worlds != []
    ensures StaleHandled(cfg, middle, later, sight) ==> StaleHandled(cfg, earlier, later, sight)
  {
    hide Swept, Exposure.Reserved;
    EventsGrow(earlier, middle);
    SweptSince(cfg, Active, later, |middle.events|, |earlier.events|);
  }

  /** A CHASE execution that keeps a live child has consulted its repricing rule, and one that is told
      to reprice has asked for the cancellation of every live child. */
  ghost predicate Consulted(cfg: Config, earlier: Run, later: Run, sight: Sight)
    requires later.worlds != []
  {
    var w := Last(later);
    && (cfg.algorithm == Chase && sight.market.None? && sight.wanted.None? ==>
          w.rec.status.IsTerminal() || w.rec.exposure.Reserved() == 0 || forall i: nat :: i < |w.rec.children| ==> !LiveAt(w.rec.children, i))
    && (sight.wanted == Some(true) ==> w.rec.status.IsTerminal() || Swept(cfg, Active, later, |earlier.events|))
  }

  ghost predicate LiveAt(children: seq<ChildOrder>, i: nat)
    requires i < |children|
  {
    children[i].status == Open || children[i].status == PartiallyFilled
  }

  lemma ConsultedEarlier(cfg: Config, earlier: Run, middle: Run, later: Run, sight: Sight)
    requires Continues(earlier, middle) && later.worlds != []
    ensures Consulted(cfg, middle, later, sight) ==> Consulted(cfg, earlier, later, sight)
  {
    hide Swept, Exposure.Reserved, LiveAt;
    EventsGrow(earlier, middle);
    SweptSince(cfg, Active, later, |middle.events|, |earlier.events|);
  }

  /** Once a market answer was heard only the sweep is left to say. */
  lemma ConsultedLater(cfg: Config, earlier: Run, middle: Run, later: Run, before: Sight, sight: Sight)
    requires IsRun(cfg, middle) && IsRun(cfg, later) && Continues(earlier, middle) && Continues(middle, later)
    requires Consulted(cfg, earlier, middle, before) && sight.wanted == before.wanted && sight.market.Some?
    ensures Consulted(cfg, earlier, later, sight)
  {
    hide SweepAt, StepAt, Swept, Exposure.Reserved, LiveAt;
    TerminalStays(cfg, middle, later);
    if Swept(cfg, Active, middle, |earlier.events|) {
      SweptContinues(cfg, Active, middle, later, |earlier.events|, |earlier.events|);
    }
  }

  /** What a call that runs to its end has done by then, having heard `sight` on its way: it has
      submitted the largest demand that fits or had a reason not to, and asked for the cancellation
      of every child past its timeout and, past a deadline that asks for an aggressive order, of
      every passive one; past a deadline that cancels the remainder, or with unhealthy streams, of
      every child. It has not filled its target, save where a CHASE order was up for repricing. */
  ghost predicate LooksAndActs(cfg: Config, earlier: Run, later: Run, sight: Sight)
    requires cfg.Valid() && later.worlds != []
  {
    var w, from := Last(later), |earlier.events|;
    var late := w.now - cfg.started >= cfg.duration;
    && (w.rec.status.IsTerminal() || w.rec.exposure.confirmed < cfg.required || (cfg.algorithm == Chase && sight.repriced))
    && (late && (cfg.policy == CancelRemainder || !sight.healthy) ==>
          w.rec.status.IsTerminal() || (w.rec.exposure.Reserved() > 0 && Swept(cfg, Active, later, from)))
    && StaleHandled(cfg, earlier, later, sight)
    && (sight.healthy && !(late && cfg.policy == CancelRemainder) ==>
          && (Submitted(cfg, earlier, later, sight) || Refrains(cfg, w, sight))
          && Consulted(cfg, earlier, later, sight)
          && (w.rec.status.IsTerminal() || Swept(cfg, TimedOut, later, from))
          && (late ==> w.rec.status.IsTerminal() || Swept(cfg, Passive, later, from)))
  }

  /** A call that has ended the execution has done all it should. */
  lemma EndedActs(cfg: Config, earlier: Run, later: Run, sight: Sight)
    requires IsRun(cfg, later) && Last(later).rec.status.IsTerminal()
    ensures LooksAndActs(cfg, earlier, later, sight)
  {
    hide StepAt, Swept, Submitted, Exposure.Reserved, LiveAt;
  }

  lemma ActsEarlier(cfg: Config, earlier: Run, middle: Run, later: Run, sight: Sight)
    requires cfg.Valid() && Continues(earlier, middle) && Continues(middle, later) && |later.events| < |later.worlds|
    requires LooksAndActs(cfg, middle, later, sight)
    ensures LooksAndActs(cfg, earlier, later, sight)
  {
    hide Swept, Refrains, Submitted, Exposure.Reserved, StaleHandled, Consulted;
    EventsGrow(earlier, middle);
    ConsultedEarlier(cfg, earlier, middle, later, sight);
    StaleHandledEarlier(cfg, earlier, middle, later, sight);
    SweptSince(cfg, Active, later, |middle.events|, |earlier.events|);
    SweptSince(cfg, TimedOut, later, |middle.events|, |earlier.events|);
    SweptSince(cfg, Passive, later, |middle.events|, |earlier.events|);
    ContinuesReflexive(later);
    if Submitted(cfg, middle, later, sight) { SubmittedContinues(cfg, earlier, middle, later, later, sight); }
  }

  lemma EventsGrow(earlier: Run, later: Run)
    requires Continues(earlier, later)
    ensures |earlier.events| <= |later.events|
  {}

  lemma SubmittedContinues(cfg: Config, a: Run, b: Run, c: Run, d: Run, sight: Sight)
    requires cfg.Valid() && Continues(a, b) && Continues(b, c) && Continues(c, d) && |d.events| < |d.worlds|
    requires Submitted(cfg, b, c, sight)
    ensures Submitted(cfg, a, d, sight)
  {
    hide LargestDemand;
    var k: nat :| |b.events| <= k < |c.events| < |c.worlds| && AsksFor(cfg, c, k, sight);
    assert d.events[k] == c.events[k] && d.worlds[k] == c.worlds[k];
    assert AsksFor(cfg, d, k, sight);
  }

  /** A submission recorded at the end of a run. */
  lemma JustSubmitted(cfg: Config, before: Run, after: Run, quantity: nat, price: int, postOnly: bool, bid: int, ask: int,
                      outcome: SubmitOutcome, sight: Sight)
    requires IsRun(cfg, before) && IsRun(cfg, after) && Continues(before, after)
    requires after.events == before.events + [SubmitBegins(quantity, price, postOnly, bid, ask), VenueMoves, SubmitEnds(outcome)]
    requires quantity > 0 && sight.market.Some? && sight.market.value.Quote? && sight.price == price
    requires LargestDemand(cfg, Last(before).rec, Last(before).now, sight.market.value.step, quantity)
    requires sight.market.value.bid == bid && sight.market.value.ask == ask && postOnly == !cfg.UseAggressivePrice(Last(before).now)
    ensures Submitted(cfg, before, after, sight)
  {
    hide LargestDemand, StepAt;
    var k := |before.events|;
    assert after.worlds[k] == Last(before);
    assert after.events[k] == SubmitBegins(quantity, price, postOnly, bid, ask);
    assert AsksFor(cfg, after, k, sight);
  }

  /** A submission for which there was no market data leaves no trace in the exposure. */
  lemma NoDataUndoes(cfg: Config, r: Record, now: real, quantity: nat, price: int, postOnly: bool, bid: int, ask: int)
    ensures
      var begun := BeginSubmit(r, now, quantity, price, postOnly, bid, ask);
      && EndSubmit(cfg, begun, now, SubmitNoData).exposure == r.exposure
      && EndSubmit(cfg, begun, now, SubmitNoData).children == r.children
      && EndSubmit(cfg, begun, now, SubmitNoData).status == r.status
  {
    assert (r.children + [ChildOrder(r.lastSequence + 1, quantity, price, PendingSubmit, 0)])[..|r.children|] == r.children;
  }

  /** While nothing is reserved and nothing new is submitted nothing is confirmed either. */
  lemma StaysUnfilled(cfg: Config, earlier: Run, later: Run)
    requires IsRun(cfg, earlier) && IsRun(cfg, later) && Continues(earlier, later)
    requires Last(earlier).rec.exposure.Reserved() == 0 && Last(later).rec.lastSequence == Last(earlier).rec.lastSequence
    ensures Last(later).rec.exposure.confirmed == Last(earlier).rec.exposure.confirmed
  {
    hide StepAt, Exposure.Reserved;
    var i := |earlier.worlds| - 1;
    assert later.worlds[i] == Last(earlier);
    Outcomes.QuietStays(cfg, later, i, |later.worlds| - 1);
  }

  /** What cancellations and lookups leave alone about the parent. */
  ghost predicate SameCourse(r: Record, r': Record) {
    && |r'.children| == |r.children| && r'.cancelRequested == r.cancelRequested && r'.aggressive == r.aggressive
    && r'.submittedAt == r.submittedAt && r'.lastSequence == r.lastSequence
    && r'.attemptOpen == r.attemptOpen && r'.openings == r.openings
    && (r'.status == r.status || r'.status == Failed)
  }

  lemma SameCourseReflexive(r: Record)
    ensures SameCourse(r, r)
  {}

  lemma SameCourseFields(r: Record, r': Record)
    requires SameCourse(r, r')
    ensures |r'.children| == |r.children| && r'.aggressive == r.aggressive && r'.submittedAt == r.submittedAt
  {}

  lemma SameCourseTransitive(a: Record, b: Record, c: Record)
    requires SameCourse(a, b) && SameCourse(b, c)
    ensures SameCourse(a, c)
  {}

  lemma CancelBeginsWell(cfg: Config, w: World, i: nat)
    requires Inv(cfg, w) && w.rec.call == Idle && i < |w.rec.children| && CanCancel(w.rec.children[i])
    ensures
      var r' := BeginCancel(w.rec, i);
      && Step(cfg, w, CancelBegins(i), w.(rec := r')) && SameCourse(w.rec, r') && |r'.children| == |w.rec.children|
      && r'.call == AwaitingCancel(i, w.rec.children[i].status, w.rec.children[i].Remaining())
      && r'.children[i].id == w.rec.children[i].id
      && (forall j :: 0 <= j < |r'.children| && j != i ==> r'.children[j] == w.rec.children[j])
      && r'.exposure.Reserved() == w.rec.exposure.Reserved() && r'.exposure.confirmed == w.rec.exposure.confirmed
  {
    hide Inv, Exposure.Reserved;
    CancelMarkedKeepsInv(cfg, w, w.(rec := BeginCancel(w.rec, i)), i);
  }

  lemma CancelOutcomeFits(cfg: Config, w: World, outcome: CancelOutcome)
    requires Inv(cfg, w) && w.rec.call.AwaitingCancel? && w.rec.call.index < |w.rec.children|
    requires CancelOutcomeOk(w.venue, w.rec.children[w.rec.call.index].id, outcome)
    ensures
      var r' := EndCancel(w.rec, w.now, outcome);
      && Fits(cfg, r') && r'.call == Idle && SameCourse(w.rec, r') && |r'.children| == |w.rec.children|
      && (forall j :: 0 <= j < |r'.children| && j != w.rec.call.index ==> r'.children[j] == w.rec.children[j])
      && (outcome.CancelRaised? ==>
            r'.exposure.Reserved() == w.rec.exposure.Reserved() && r'.exposure.confirmed == w.rec.exposure.confirmed)
  {
    hide Inv, CancelOutcomeOk, EndCancel;
    var w' := w.(rec := EndCancel(w.rec, w.now, outcome));
    CancelEndKeepsInv(cfg, w, w', outcome);
    CommittedBelowTarget(cfg, w');
    CancellingChild(cfg, w);
    EndCancelFrame(w.rec, w.now, outcome);
  }

  lemma EndCancelFrame(r: Record, now: real, outcome: CancelOutcome)
    requires r.call.AwaitingCancel? && r.call.index < |r.children|
    ensures
      var r' := EndCancel(r, now, outcome);
      && r'.call == Idle && SameCourse(r, r')
      && (forall j :: 0 <= j < |r'.children| && j != r.call.index ==> r'.children[j] == r.children[j])
      && (outcome.CancelRaised? && r.call.remaining <= r.exposure.pendingCancel ==>
            r'.exposure.Reserved() == r.exposure.Reserved() && r'.exposure.confirmed == r.exposure.confirmed)
  {
    hide UpdateFill, StateMachine.SetChildStatus;
    if outcome.CancelAnswered? {
      UpdateFrame(SetStatus(r.(call := Idle), r.call.index, outcome.status), r.call.index, outcome.filled, None);
      AnswerLeavesOthers(r.(call := Idle), r.call.index, outcome.status, outcome.filled);
    }
  }

  lemma NothingAnswered(v: VenueState, children: seq<ChildOrder>)
    ensures AnsweredOk(v, children, [])
  {}

  lemma EvolvedVenueOk(v: VenueState, v': VenueState)
    requires Evolves(v, v')
    ensures VenueOk(v')
  {}

  lemma HaltingChangesNothing(r: Record, i: nat, answer: Lookup)
    requires i < |r.children| && Halts(answer)
    ensures LookupOne(r, i, answer) == r && ResolveOne(r, i, answer) == r
  {}

  lemma FinishedNotAsked(r: Record, i: nat, answer: Lookup)
    requires i < |r.children| && r.children[i].status.IsTerminal()
    ensures LookupOne(r, i, answer) == r
  {}

  lemma UnknownAsked(r: Record, i: nat, answer: Lookup)
    requires i < |r.children| && r.children[i].status == Unknown
    ensures ResolveOne(r, i, answer) == LookupOne(r, i, answer)
  {}

  lemma KnownNotAsked(r: Record, children: seq<ChildOrder>, v: VenueState, i: nat, answer: Lookup)
    requires i < |r.children| == |children| && r.children[i].status != Unknown && answer == Raised
    ensures ResolveOne(r, i, answer) == r && AnswerOk(v, children[i], answer)
  {}

  lemma OneMoreLookup(r: Record, answers: seq<Lookup>, answer: Lookup)
    requires |answers| < |r.children|
    ensures LookedUp(r, answers + [answer]) == LookupOne(LookedUp(r, answers), |answers|, answer)
    ensures Resolved(r, answers + [answer]) == ResolveOne(Resolved(r, answers), |answers|, answer)
  {
    hide LookupOne, ResolveOne;
    assert (answers + [answer])[..|answers|] == answers;
  }

  ghost function Concluded(r: Record, now: real, fault: Lookup): Record {
    match fault
    case Banned => Fail(r)
    case Limited => RefreshReserved(BackOff(r, now))
    case Raised => r
    case _ => RefreshReserved(r)
  }

  function AllAnswers(answers: seq<Lookup>, fault: Lookup, n: nat): seq<Lookup> {
    if Halts(fault) && |answers| < n then StoppedBy(answers, fault, n) else answers
  }

  /** What the refresh loop may leave: its answers so far and whether one of them failed. */
  ghost predicate LookedUpSoFar(r: Record, v: VenueState, answers: seq<Lookup>, fault: Lookup) {
    && |answers| <= |r.children| && NoHalt(r, answers) && AnsweredOk(v, r.children, answers)
    && if Halts(fault) then |answers| < |r.children| && !r.children[|answers|].status.IsTerminal()
       else |answers| == |r.children|
  }

  /** The loop and its conclusion together are one refresh step. */
  lemma RefreshConcluded(cfg: Config, w: World, v: VenueState, answers: seq<Lookup>, fault: Lookup)
    requires Inv(cfg, w) && w.rec.call == Idle && Evolves(w.venue, v)
    requires LookedUpSoFar(w.rec, v, answers, fault)
    ensures
      var all := AllAnswers(answers, fault, |w.rec.children|);
      var r' := Concluded(LookedUp(w.rec, answers), w.now, fault);
      && AnswersOk(v, w.rec.children, all) && r' == Refresh(w.rec, w.now, all) && r'.call == Idle
      && SameCourse(w.rec, r') && (!Halts(fault) ==> Settled(r'.children))
  {
    hide Inv, Tied, NoHalt, AnsweredOk, AnswersOk, Evolves, LookedUp, Recomputed, SettledAt, ChildrenAdvanced, LookupFrom;
    VenueKeepsInv(cfg, w, w.(venue := v));
    InvVenue(cfg, w.(venue := v));
    var all := AllAnswers(answers, fault, |w.rec.children|);
    if Halts(fault) {
      StoppedAnswersOk(v, w.rec.children, answers, fault);
      RefreshStops(w.rec, answers, fault);
    } else {
      AllAnsweredOk(v, w.rec.children, answers);
      RefreshRuns(w.rec, answers);
      CompleteRefreshSettles(w.rec, v, answers);
    }
    AnswersLength(v, w.rec.children, all);
    LookupsInform(w.rec, v, all, 0) by { AllAnswersOk(v, w.rec.children, all); }
    AdvancedKeepsIds(w.rec.children, LookedUp(w.rec, answers).children);
  }

  /** Where a refresh is cut short, what was learned so far fits the target. */
  lemma CutFits(cfg: Config, w: World, v: VenueState, answers: seq<Lookup>, fault: Lookup)
    requires Inv(cfg, w) && w.rec.call == Idle && Evolves(w.venue, v)
    requires LookedUpSoFar(w.rec, v, answers, fault) && Halts(fault)
    ensures Fits(cfg, LookedUp(w.rec, answers))
  {
    hide Inv, NoHalt, AnsweredOk, AnswersOk, Evolves, LookedUp, LookupFrom, Exposure.Reserved;
    var w1, all := w.(venue := v), StoppedBy(answers, Raised, |w.rec.children|);
    VenueKeepsInv(cfg, w, w1);
    StoppedAnswersOk(v, w.rec.children, answers, Raised);
    RefreshStops(w.rec, answers, Raised);
    RefreshKeepsInv(cfg, w1, w1.(rec := LookedUp(w.rec, answers)), all);
    CommittedBelowTarget(cfg, w1.(rec := LookedUp(w.rec, answers)));
  }

  lemma FillAndStatusCommute(r: Record, i: nat, target: ChildStatus, filled: nat)
    requires i < |r.children|
    ensures |UpdateFill(r, i, filled, None).children| == |r.children|
    ensures TakeSnapshot(r, i, target, filled) == SetStatus(UpdateFill(r, i, filled, None), i, target)
  {
    hide StateMachine.SetChildStatus;
  }

  lemma DeliveryStaysIdle(cfg: Config, w: World, result: ReconciliationResult)
    requires Inv(cfg, w) && ResultOk(w.venue, result) && WarningOk(w.venue, w.rec.children, result)
    ensures ApplyResult(w.rec, result).call == w.rec.call
  {
    hide Inv, ResultOk, WarningOk, ApplyEvidence, ApplyWarning, Tied, Coupling.Traced, ChildrenAdvanced, Recomputed;
    InvVenue(cfg, w);
    DeliveryInforms(w.rec, w.venue, result);
  }

  ghost function ConcludedExact(r: Record, now: real, fault: Lookup, result: ReconciliationResult): Record {
    match fault
    case Raised => r
    case Banned => RefreshReserved(ApplyWarning(Fail(r), result))
    case Limited => RefreshReserved(ApplyWarning(BackOff(r, now), result))
    case _ => RefreshReserved(ApplyWarning(r, result))
  }

  lemma EvidenceTied(cfg: Config, w: World, result: ReconciliationResult)
    requires Inv(cfg, w) && FreshOk(w.venue, Reconciled(result))
    ensures
      var e := ApplyEvidence(w.rec, result);
      Tied(e, w.venue) && |e.children| == |w.rec.children| && e.call == w.rec.call
  {
    hide Inv, Tied, Coupling.Traced, ResultOk, ApplyEvidence, ChildrenAdvanced;
    InvVenue(cfg, w);
    EvidenceInforms(w.rec, w.venue, result);
    AdvancedKeepsIds(w.rec.children, ApplyEvidence(w.rec, result).children);
  }

  /** A result fetched from the venue may be delivered with exact lookups. */
  lemma FreshIsDeliverable(cfg: Config, w: World, v: VenueState, result: ReconciliationResult)
    requires Inv(cfg, w) && FreshOk(w.venue, Reconciled(result)) && Evolves(w.venue, v)
    ensures ResultOk(v, result) && WarningOk(v, w.rec.children, result) && ListsAll(w.rec.children, result)
  {
    hide Ledger, BucketsOk, Coupling.Traced, CapOk, SingleOk, LifeOk, LedgerView, ResultOk;
    ResultsAge(w.venue, v, result);
    forall i: nat | i < |w.rec.children| ensures ListedAt(w.rec.children, result, i) {
      CoupledChild(w.rec.children, w.venue, i);
    }
    FillsHaveOrders(w.venue, result);
    if result.notFound {
      forall id: nat | id !in ClientsOfOrders(result.orders) ensures Absent(v, id) {
        assert OrderEvolves(w.venue, v, id);
        assert !HasId(result.orders, id);
      }
    }
  }

  lemma FillsHaveOrders(v: VenueState, result: ReconciliationResult)
    requires VenueOk(v) && ResultOk(v, result)
    ensures forall k :: 0 <= k < |result.fills| ==> result.fills[k].client in v.orders
  {
    forall k | 0 <= k < |result.fills| ensures result.fills[k].client in v.orders {
      assert FillOk(v, result.fills[k]);
      assert TradeOk(v, result.fills[k].tradeId.value - 1);
    }
  }

  /** What the resolution loop may leave: its answers so far and whether one of them failed. */
  ghost predicate ResolvedSoFar(e: Record, v: VenueState, answers: seq<Lookup>, fault: Lookup) {
    && |answers| <= |e.children| && NoHaltUnknown(e, answers) && AnsweredOk(v, e.children, answers)
    && if Halts(fault) then |answers| < |e.children| && e.children[|answers|].status == Unknown
       else |answers| == |e.children|
  }

  lemma ResolutionOutcome(e: Record, v: VenueState, answers: seq<Lookup>, fault: Lookup)
    requires ResolvedSoFar(e, v, answers, fault)
    ensures
      var all := AllAnswers(answers, fault, |e.children|);
      && AnswersOk(v, e.children, all)
      && ResolveUnknownFrom(e, all, 0)
         == (Resolved(e, answers), match fault
                                   case Banned => HaltBanned
                                   case Limited => HaltLimited
                                   case Raised => HaltRaised
                                   case _ => Ran)
  {
    hide NoHaltUnknown, AnsweredOk, AnswersOk, Resolved, ResolveUnknownFrom;
    if Halts(fault) {
      StoppedAnswersOk(v, e.children, answers, fault);
      ResolutionStops(e, answers, fault);
    } else {
      AllAnsweredOk(v, e.children, answers);
      ResolutionRuns(e, answers);
    }
  }

  lemma ConclusionCourse(r: Record, a: Record, now: real, fault: Lookup, result: ReconciliationResult)
    requires SameCourse(r, a) && a.call == Idle && a.status == r.status
    ensures SameCourse(r, ConcludedExact(a, now, fault, result)) && ConcludedExact(a, now, fault, result).call == Idle
  {
    hide Recomputed, RejectMissingFrom;
    var listed := ClientsOfOrders(result.orders);
    Idempotence.RejectMissingShape(a, listed, 0);
    Idempotence.RejectMissingShape(Fail(a), listed, 0);
    Idempotence.RejectMissingShape(BackOff(a, now), listed, 0);
  }

  /** The resolution loop and its conclusion together are one delivery step. */
  lemma ExactConcluded(cfg: Config, w: World, v: VenueState, result: ReconciliationResult, answers: seq<Lookup>, fault: Lookup)
    requires Inv(cfg, w) && w.rec.call == Idle && Evolves(w.venue, v) && FreshOk(w.venue, Reconciled(result))
    requires ResolvedSoFar(ApplyEvidence(w.rec, result), v, answers, fault)
    ensures
      var e := ApplyEvidence(w.rec, result);
      var r' := ConcludedExact(Resolved(e, answers), w.now, fault, result);
      && Step(cfg, w.(venue := v), DeliversExact(result, AllAnswers(answers, fault, |e.children|)), World(r', v, w.now))
      && r'.call == Idle && SameCourse(w.rec, r')
  {
    hide Inv, Tied, AnswersOk, Resolved, ChildrenAdvanced, ResolveUnknownFrom, ApplyEvidence, ResolvedSoFar, AllAnswers,
         ResultOk, WarningOk, ListsAll, FreshOk, Coupling.Traced, VenueOk, RefreshReserved, ApplyWarning, BooksOk, SameCourse, Ledger, Uncredited;
    var e := ApplyEvidence(w.rec, result);
    var w1 := w.(venue := v);
    VenueKeepsInv(cfg, w, w1);
    InvVenue(cfg, w1);
    InvBuckets(cfg, w1);
    FreshIsDeliverable(cfg, w, v, result);
    var all := AllAnswers(answers, fault, |e.children|);
    ResolutionOutcome(e, v, answers, fault);
    SoFarLength(e, v, answers, fault);
    AnswersLength(v, e.children, all);
    ExactDeliveryInforms(w.rec, v, result, all);
    var a := Resolved(e, answers);
    InformedCourse(w.rec, a, v);
    ConclusionCourse(w.rec, a, w.now, fault, result);
  }

  /** Where the lookups after a result are cut short, what was learned so far fits the target. */
  lemma ResolvedFits(cfg: Config, w: World, v: VenueState, result: ReconciliationResult, answers: seq<Lookup>, fault: Lookup)
    requires Inv(cfg, w) && w.rec.call == Idle && Evolves(w.venue, v) && FreshOk(w.venue, Reconciled(result))
    requires ResolvedSoFar(ApplyEvidence(w.rec, result), v, answers, fault) && Halts(fault)
    ensures Fits(cfg, Resolved(ApplyEvidence(w.rec, result), answers))
  {
    hide Inv, NoHaltUnknown, AnsweredOk, Evolves, FreshOk, ApplyEvidence, Resolved, Exposure.Reserved, ResultOk, WarningOk, ListsAll,
         AnswersOk, ApplyResultExact, SameCourse;
    var e := ApplyEvidence(w.rec, result);
    var w1, w2 := w.(venue := v), World(Resolved(e, answers), v, w.now);
    VenueKeepsInv(cfg, w, w1);
    ExactConcluded(cfg, w, v, result, answers, Raised);
    ExactDeliveryKeepsInv(cfg, w1, w2, result, AllAnswers(answers, Raised, |e.children|));
    CommittedBelowTarget(cfg, w2);
  }

  lemma SoFarLength(e: Record, v: VenueState, answers: seq<Lookup>, fault: Lookup)
    requires ResolvedSoFar(e, v, answers, fault)
    ensures |answers| <= |e.children|
  {}

  lemma InformedCourse(r: Record, a: Record, v: VenueState)
    requires Informed(r, a, v)
    ensures SameCourse(r, a) && a.call == r.call && a.status == r.status
  {
    hide Tied;
  }

  lemma AnswerLeavesOthers(r: Record, i: nat, status: ChildStatus, filled: nat)
    requires i < |r.children|
    ensures
      var r' := TakeSnapshot(r, i, status, filled);
      |r'.children| == |r.children| && forall j :: 0 <= j < |r.children| && j != i ==> r'.children[j] == r.children[j]
  {
    hide StateMachine.SetChildStatus;
  }

  /** Between the two runs child `i` was asked to be cancelled. */
  ghost predicate Asked(earlier: Run, later: Run, i: nat) {
    exists k :: |earlier.events| <= k < |later.events| && later.events[k] == CancelBegins(i)
  }

  /** Between the two runs every unfinished child was looked up, or the lookups were cut short. */
  ghost predicate Refreshed(earlier: Run, later: Run) {
    exists k :: |earlier.events| <= k < |later.events| && later.events[k].Refreshes?
  }

  /** Between the two runs some lookups were cut short. */
  ghost predicate CutShort(earlier: Run, later: Run) {
    exists k :: |earlier.events| <= k < |later.events| && CutAt(later, k)
  }

  ghost predicate CutAt(run: Run, k: nat)
    requires k < |run.events|
  {
    run.events[k].Refreshes? && exists j :: 0 <= j < |run.events[k].answers| && Halts(run.events[k].answers[j])
  }

  lemma JustCutShort(earlier: Run, later: Run, answers: seq<Lookup>, fault: Lookup, n: nat)
    requires later.events == earlier.events + [VenueMoves] + [Refreshes(AllAnswers(answers, fault, n))]
    requires Halts(fault) && |answers| < n
    ensures CutShort(earlier, later)
  {
    var k, all := |earlier.events| + 1, AllAnswers(answers, fault, n);
    assert later.events[k] == Refreshes(all);
    assert all[|answers|] == fault;
    assert CutAt(later, k);
  }

  /** Since moment `from` the venue has answered with an error that is handed on. */
  ghost predicate Erred(run: Run, from: nat) {
    exists k: nat :: from <= k < |run.events| && k < |run.worlds| && ErredAt(run, k)
  }

  ghost predicate ErredAt(run: Run, k: nat)
    requires k < |run.events| && k < |run.worlds|
  {
    Hears(run.worlds[k], run.events[k], Raised)
  }

  lemma ErredSince(run: Run, from: nat, earlier: nat)
    requires earlier <= from
    ensures Erred(run, from) ==> Erred(run, earlier)
  {}

  lemma ErredEarlier(earlier: Run, middle: Run, later: Run)
    requires Continues(earlier, middle)
    ensures Erred(later, |middle.events|) ==> Erred(later, |earlier.events|)
  {}

  lemma SubmissionErred(cfg: Config, earlier: Run, later: Run, begin: Event)
    requires IsRun(cfg, later) && later.events == earlier.events + [begin, VenueMoves, SubmitEnds(SubmitRaised)]
    ensures Erred(later, |earlier.events|)
  {
    hide StepAt;
    var k := |earlier.events| + 2;
    assert later.events[k] == SubmitEnds(SubmitRaised);
    assert ErredAt(later, k);
  }

  /** A refresh that hands an error on. */
  lemma RefreshErred(cfg: Config, earlier: Run, later: Run, v: VenueState, answers: seq<Lookup>)
    requires IsRun(cfg, earlier) && IsRun(cfg, later) && Continues(earlier, later)
    requires LookedUpSoFar(Last(earlier).rec, v, answers, Raised)
    requires later.events == earlier.events + [VenueMoves] + [Refreshes(AllAnswers(answers, Raised, |Last(earlier).rec.children|))]
    ensures Erred(later, |earlier.events|)
  {
    hide StepAt, AnsweredOk;
    var (n, r) := (|earlier.events|, Last(earlier).rec);
    var all := AllAnswers(answers, Raised, |r.children|);
    MovedOnly(cfg, earlier, later, VenueMoves, Refreshes(all));
    assert later.events[n + 1] == Refreshes(all);
    forall j: nat | j < |answers| ensures !FaultAt(r.children, all, false, j) {
      assert all[j] == answers[j];
    }
    assert all[|answers|] == Raised;
    assert FirstFault(r.children, all, false, 0, |answers|);
    assert ErredAt(later, n + 1);
  }

  /** A delivery with exact lookups that hands an error on. */
  lemma DeliveryErred(cfg: Config, earlier: Run, later: Run, v: VenueState, result: ReconciliationResult, answers: seq<Lookup>)
    requires IsRun(cfg, earlier) && IsRun(cfg, later) && Continues(earlier, later)
    requires ResolvedSoFar(ApplyEvidence(Last(earlier).rec, result), v, answers, Raised)
    requires later.events
             == earlier.events + [VenueMoves]
                + [DeliversExact(result, AllAnswers(answers, Raised, |ApplyEvidence(Last(earlier).rec, result).children|))]
    ensures Erred(later, |earlier.events|)
  {
    hide StepAt, AnsweredOk, ApplyEvidence;
    var (n, e) := (|earlier.events|, ApplyEvidence(Last(earlier).rec, result));
    var all := AllAnswers(answers, Raised, |e.children|);
    MovedOnly(cfg, earlier, later, VenueMoves, DeliversExact(result, all));
    assert later.events[n + 1] == DeliversExact(result, all);
    forall j: nat | j < |answers| ensures !FaultAt(e.children, all, true, j) {
      assert all[j] == answers[j];
    }
    assert all[|answers|] == Raised;
    assert FirstFault(e.children, all, true, 0, |answers|);
    assert ErredAt(later, n + 1);
  }

  /** After a move of the venue the record is what it was. */
  lemma MovedOnly(cfg: Config, earlier: Run, later: Run, move: Event, e: Event)
    requires IsRun(cfg, earlier) && IsRun(cfg, later) && Continues(earlier, later)
    requires move == VenueMoves && later.events == earlier.events + [move] + [e]
    ensures |later.worlds| == |earlier.events| + 3 && later.worlds[|earlier.events| + 1].rec == Last(earlier).rec
  {
    hide Evolves;
    var n := |earlier.events|;
    assert later.worlds[n] == Last(earlier) && later.events[n] == VenueMoves;
    assert StepAt(cfg, later, n);
  }

  lemma ThisIsDeliveredEarlier(earlier: Run, middle: Run, later: Run, result: ReconciliationResult)
    requires Continues(earlier, middle) && DeliveredThis(middle, later, result)
    ensures DeliveredThis(earlier, later, result)
  {}

  /** What a fetched answer has led to: a result is taken over, a ban has ended the execution, a rate
      limit has started a back-off, and only an error is handed on. */
  ghost predicate TakenOver(earlier: Run, later: Run, heard: ReconcileAnswer, raised: bool, r: Record, now: real) {
    match heard
    case Reconciled(result) => DeliveredThis(earlier, later, result) && (raised ==> Erred(later, |earlier.events|))
    case ReconcileBanned => !raised && r.status.IsTerminal()
    case ReconcileLimited => !raised && r.rateLimitedUntil == Some(now + 1.0)
    case ReconcileRaised => raised
  }

  lemma TakenOverAround(a: Run, b: Run, c: Run, d: Run, heard: ReconcileAnswer, raised: bool, r: Record, r': Record, now: real)
    requires Continues(a, b) && Continues(b, c) && Continues(c, d) && TakenOver(b, c, heard, raised, r, now)
    requires r.status.IsTerminal() ==> r'.status == r.status
    requires r'.rateLimitedUntil == r.rateLimitedUntil
    requires raised ==> c == d
    ensures TakenOver(a, d, heard, raised, r', now)
  {
    if heard.Reconciled? {
      ThisIsDeliveredEarlier(a, b, c, heard.result);
      ThisStaysDelivered(a, c, d, heard.result);
      EventsGrow(a, b);
      ErredSince(d, |b.events|, |a.events|);
    }
  }

  lemma SettledFrame(cfg: Config, r: Record)
    ensures
      var r' := Idempotence.Settle(cfg, r);
      (r.status.IsTerminal() ==> r'.status == r.status) && r'.rateLimitedUntil == r.rateLimitedUntil
  {}

  lemma ThisStaysDelivered(earlier: Run, middle: Run, later: Run, result: ReconciliationResult)
    requires Continues(middle, later) && DeliveredThis(earlier, middle, result)
    ensures DeliveredThis(earlier, later, result)
  {
    var k :| |earlier.events| <= k < |middle.events| && middle.events[k].DeliversExact? && middle.events[k].exactResult == result;
    assert later.events[k] == middle.events[k];
  }

  lemma CutShortEarlier(earlier: Run, middle: Run, later: Run)
    requires Continues(earlier, middle) && Continues(middle, later)
    ensures CutShort(earlier, middle) || CutShort(middle, later) ==> CutShort(earlier, later)
  {
    if CutShort(earlier, middle) {
      var k :| |earlier.events| <= k < |middle.events| && CutAt(middle, k);
      assert later.events[k] == middle.events[k];
      assert CutAt(later, k);
    }
    if CutShort(middle, later) {
      var k :| |middle.events| <= k < |later.events| && CutAt(later, k);
      assert |earlier.events| <= k;
    }
  }

  /** Between the two runs a fetched result was taken over, with lookups of what it left unknown. */
  ghost predicate Delivered(earlier: Run, later: Run) {
    exists k :: |earlier.events| <= k < |later.events| && later.events[k].DeliversExact?
  }

  /** It was this result. */
  ghost predicate DeliveredThis(earlier: Run, later: Run, result: ReconciliationResult) {
    exists k :: |earlier.events| <= k < |later.events| && later.events[k].DeliversExact? && later.events[k].exactResult == result
  }

  lemma JustDelivered(earlier: Run, later: Run, result: ReconciliationResult, answers: seq<Lookup>)
    requires later.events == earlier.events + [VenueMoves] + [DeliversExact(result, answers)]
    ensures DeliveredThis(earlier, later, result)
  {
    assert later.events[|earlier.events| + 1] == DeliversExact(result, answers);
  }

  lemma ThisIsDelivered(earlier: Run, later: Run, result: ReconciliationResult)
    requires DeliveredThis(earlier, later, result)
    ensures Delivered(earlier, later)
  {}

  lemma DeliveredEarlier(earlier: Run, middle: Run, later: Run)
    requires Continues(earlier, middle) && Continues(middle, later)
    ensures Delivered(earlier, middle) || Delivered(middle, later) ==> Delivered(earlier, later)
  {
    if Delivered(earlier, middle) {
      var k :| |earlier.events| <= k < |middle.events| && middle.events[k].DeliversExact?;
      assert later.events[k] == middle.events[k];
    }
    if Delivered(middle, later) {
      var k :| |middle.events| <= k < |later.events| && later.events[k].DeliversExact?;
      assert |earlier.events| <= k;
    }
  }

  lemma JustRefreshed(earlier: Run, later: Run, answers: seq<Lookup>)
    requires later.events == earlier.events + [VenueMoves] + [Refreshes(answers)]
    ensures Refreshed(earlier, later)
  {
    assert later.events[|earlier.events| + 1] == Refreshes(answers);
  }

  lemma RefreshedEarlier(earlier: Run, middle: Run, later: Run)
    requires Continues(earlier, middle) && Continues(middle, later)
    ensures Refreshed(earlier, middle) || Refreshed(middle, later) ==> Refreshed(earlier, later)
  {
    if Refreshed(earlier, middle) {
      var k :| |earlier.events| <= k < |middle.events| && middle.events[k].Refreshes?;
      assert later.events[k] == middle.events[k];
    }
    if Refreshed(middle, later) {
      var k :| |middle.events| <= k < |later.events| && later.events[k].Refreshes?;
      assert |earlier.events| <= k;
    }
  }

  /** A call that asks for one cancellation asks for that one only. */
  lemma JustAsked(earlier: Run, later: Run, i: nat, outcome: CancelOutcome)
    requires later.events == earlier.events + [CancelBegins(i)] + [VenueMoves] + [CancelEnds(outcome)]
    ensures forall j: nat :: Asked(earlier, later, j) <==> j == i
  {
    assert later.events[|earlier.events|] == CancelBegins(i);
  }

  /** Between the two runs no child was asked to be cancelled. */
  ghost predicate NoneAsked(earlier: Run, later: Run) {
    forall k: nat :: |earlier.events| <= k < |later.events| ==> !later.events[k].CancelBegins?
  }

  lemma NoneAskedYet(run: Run)
    ensures NoneAsked(run, run)
  {}

  lemma RunLength(cfg: Config, run: Run)
    requires IsRun(cfg, run)
    ensures |run.events| < |run.worlds|
  {}

  lemma NoneAskedMore(earlier: Run, middle: Run, later: Run)
    requires Continues(earlier, middle) && Continues(middle, later)
    requires NoneAsked(earlier, middle) && NoneAsked(middle, later)
    ensures NoneAsked(earlier, later)
  {
    forall k: nat | |earlier.events| <= k < |later.events| ensures !later.events[k].CancelBegins? {
      if k < |middle.events| { assert later.events[k] == middle.events[k]; }
    }
  }

  lemma AskedEarlier(earlier: Run, middle: Run, later: Run, i: nat)
    requires Continues(earlier, middle) && Continues(middle, later)
    ensures Asked(earlier, later, i) <==> Asked(earlier, middle, i) || Asked(middle, later, i)
  {
    if Asked(earlier, middle, i) {
      var k :| |earlier.events| <= k < |middle.events| && middle.events[k] == CancelBegins(i);
      assert later.events[k] == CancelBegins(i);
    }
    if Asked(middle, later, i) {
      var k :| |middle.events| <= k < |later.events| && later.events[k] == CancelBegins(i);
      assert |earlier.events| <= k;
    }
    if Asked(earlier, later, i) {
      var k :| |earlier.events| <= k < |later.events| && later.events[k] == CancelBegins(i);
      if k < |middle.events| { assert middle.events[k] == CancelBegins(i); }
    }
  }

  lemma AskedSoFar(earlier: Run, middle: Run, later: Run)
    requires Continues(earlier, middle) && Continues(middle, later)
    ensures forall j: nat :: Asked(earlier, later, j) <==> Asked(earlier, middle, j) || Asked(middle, later, j)
  {
    hide Asked;
    forall j: nat ensures Asked(earlier, later, j) <==> Asked(earlier, middle, j) || Asked(middle, later, j) {
      AskedEarlier(earlier, middle, later, j);
    }
  }

  lemma NoneAskedAtAll(earlier: Run, later: Run)
    requires NoneAsked(earlier, later)
    ensures forall j: nat :: !Asked(earlier, later, j)
  {}

  lemma NobodyAsked(run: Run)
    ensures forall j: nat :: !Asked(run, run, j)
  {}

  /** Which children a loop is for: open or partly filled with something left to fill, and for the
      timeout loop submitted long enough ago, for the deadline loop not aggressive. */
  ghost predicate Due(cfg: Config, selection: Selection, w: World, i: nat) {
    && i < |w.rec.children|
    && (w.rec.children[i].status == Open || w.rec.children[i].status == PartiallyFilled)
    && w.rec.children[i].confirmed < w.rec.children[i].submitted
    && var id := w.rec.children[i].id;
       match selection
       case Active => true
       case TimedOut => w.now - (if id in w.rec.submittedAt then w.rec.submittedAt[id] else cfg.started) >= cfg.timeout
       case Passive => id !in w.rec.aggressive
  }

  /** The execution has ended or is backing off. */
  ghost predicate Interrupted(w: World) {
    w.rec.status.IsTerminal() || (w.rec.rateLimitedUntil.Some? && w.now < w.rec.rateLimitedUntil.value)
  }

  ghost predicate AskedBetween(run: Run, k: nat, m: nat, i: nat) {
    exists e :: k <= e < m && e < |run.events| && run.events[e] == CancelBegins(i)
  }

  ghost predicate InterruptedBetween(run: Run, k: nat, m: nat) {
    exists x :: k <= x <= m && x < |run.worlds| && Interrupted(run.worlds[x])
  }

  /** From moment `k` to moment `m` exactly the children due at moment `k` are asked to be cancelled;
      only when the execution ends or backs off on the way may some be left out. */
  ghost predicate SweepAt(cfg: Config, selection: Selection, run: Run, k: nat, m: nat)
    requires k < |run.worlds|
  {
    && (forall i: nat :: AskedBetween(run, k, m, i) ==> Due(cfg, selection, run.worlds[k], i))
    && ((forall i: nat :: Due(cfg, selection, run.worlds[k], i) ==> AskedBetween(run, k, m, i)) || InterruptedBetween(run, k, m))
  }

  /** Such a sweep was made since moment `from`. */
  ghost predicate Swept(cfg: Config, selection: Selection, run: Run, from: nat) {
    exists k: nat, m: nat :: from <= k <= m <= |run.events| < |run.worlds| && SweepAt(cfg, selection, run, k, m)
  }

  lemma SweepStays(cfg: Config, selection: Selection, middle: Run, later: Run, k: nat, m: nat)
    requires k <= m <= |middle.events| < |middle.worlds| && Continues(middle, later) && SweepAt(cfg, selection, middle, k, m)
    ensures k < |later.worlds| && SweepAt(cfg, selection, later, k, m)
  {
    assert later.worlds[k] == middle.worlds[k];
    forall i: nat ensures AskedBetween(later, k, m, i) <==> AskedBetween(middle, k, m, i) {
      if AskedBetween(later, k, m, i) {
        var e :| k <= e < m && e < |later.events| && later.events[e] == CancelBegins(i);
        assert middle.events[e] == CancelBegins(i);
      }
      if AskedBetween(middle, k, m, i) {
        var e :| k <= e < m && e < |middle.events| && middle.events[e] == CancelBegins(i);
        assert later.events[e] == CancelBegins(i);
      }
    }
    if InterruptedBetween(middle, k, m) {
      var x :| k <= x <= m && x < |middle.worlds| && Interrupted(middle.worlds[x]);
      assert later.worlds[x] == middle.worlds[x];
    }
  }

  lemma SweptContinues(cfg: Config, selection: Selection, middle: Run, later: Run, from: nat, earlier: nat)
    requires Swept(cfg, selection, middle, from) && Continues(middle, later) && earlier <= from && |later.events| < |later.worlds|
    ensures Swept(cfg, selection, later, earlier)
  {
    hide SweepAt;
    var k: nat, m: nat :| from <= k <= m <= |middle.events| < |middle.worlds| && SweepAt(cfg, selection, middle, k, m);
    SweepStays(cfg, selection, middle, later, k, m);
  }

  lemma SweptSince(cfg: Config, selection: Selection, run: Run, from: nat, earlier: nat)
    requires earlier <= from
    ensures Swept(cfg, selection, run, from) ==> Swept(cfg, selection, run, earlier)
  {
    hide SweepAt;
  }

  /** The events between two runs as one sweep. */
  lemma JustSwept(cfg: Config, selection: Selection, earlier: Run, later: Run)
    requires IsRun(cfg, earlier) && IsRun(cfg, later) && Continues(earlier, later)
    requires forall i: nat :: Asked(earlier, later, i) ==> Due(cfg, selection, Last(earlier), i)
    requires forall i: nat :: Due(cfg, selection, Last(earlier), i) ==> Asked(earlier, later, i) || Interrupted(Last(later))
    ensures |earlier.events| <= |later.events| && |earlier.events| < |later.worlds|
    ensures SweepAt(cfg, selection, later, |earlier.events|, |later.events|)
    ensures Swept(cfg, selection, later, |earlier.events|)
  {
    hide StepAt, Due;
    var k, m := |earlier.events|, |later.events|;
    assert later.worlds[k] == Last(earlier);
    forall i: nat ensures AskedBetween(later, k, m, i) <==> Asked(earlier, later, i) {}
    if Interrupted(Last(later)) {
      assert Interrupted(later.worlds[m]);
    }
    assert SweepAt(cfg, selection, later, k, m);
  }

  /** A sweep for which there is nothing to do. */
  lemma NothingDue(cfg: Config, selection: Selection, run: Run)
    requires IsRun(cfg, run) && forall i: nat :: !Due(cfg, selection, Last(run), i)
    ensures Swept(cfg, selection, run, |run.events|)
  {
    hide StepAt, Due;
    assert run.worlds[|run.events|] == Last(run);
    assert SweepAt(cfg, selection, run, |run.events|, |run.events|);
  }

  /** The only cancellations asked for between the two runs are those of one sweep of all children. */
  ghost predicate SweptOnce(cfg: Config, earlier: Run, later: Run) {
    exists k: nat, m: nat ::
      && |earlier.events| <= k <= m <= |later.events| < |later.worlds| && SweepAt(cfg, Active, later, k, m)
      && OnlyBetween(later, |earlier.events|, k, m)
  }

  lemma SweptOnceSince(cfg: Config, earlier: Run, middle: Run, later: Run)
    requires Continues(earlier, middle) && Continues(middle, later) && NoneAsked(earlier, middle) && SweptOnce(cfg, middle, later)
    ensures SweptOnce(cfg, earlier, later)
  {
    hide SweepAt;
    var k: nat, m: nat :|
      && |middle.events| <= k <= m <= |later.events| < |later.worlds| && SweepAt(cfg, Active, later, k, m)
      && OnlyBetween(later, |middle.events|, k, m);
    forall e: nat | |earlier.events| <= e < |middle.events| ensures !later.events[e].CancelBegins? {
      assert later.events[e] == middle.events[e];
    }
    assert OnlyBetween(later, |earlier.events|, k, m);
  }

  lemma SweptOnceStays(cfg: Config, earlier: Run, middle: Run, later: Run)
    requires Continues(middle, later) && |later.events| < |later.worlds|
    requires SweptOnce(cfg, earlier, middle) && NoneAsked(middle, later)
    ensures SweptOnce(cfg, earlier, later)
  {
    hide SweepAt;
    var k: nat, m: nat :|
      && |earlier.events| <= k <= m <= |middle.events| < |middle.worlds| && SweepAt(cfg, Active, middle, k, m)
      && OnlyBetween(middle, |earlier.events|, k, m);
    SweepStays(cfg, Active, middle, later, k, m);
    forall e: nat | |earlier.events| <= e < |later.events| && later.events[e].CancelBegins? ensures k <= e < m {
      if e < |middle.events| { assert middle.events[e] == later.events[e]; }
    }
    assert OnlyBetween(later, |earlier.events|, k, m);
  }

  ghost predicate OnlyBetween(run: Run, from: nat, k: nat, m: nat) {
    forall e: nat :: from <= e < |run.events| && run.events[e].CancelBegins? ==> k <= e < m
  }

  lemma OneSweep(cfg: Config, a: Run, b: Run, c: Run, d: Run)
    requires Continues(a, b) && Continues(b, c) && Continues(c, d) && |b.events| < |b.worlds| && |c.events| < |c.worlds| && |d.events| < |d.worlds|
    requires NoneAsked(a, b) && NoneAsked(c, d)
    requires |b.events| <= |c.events| && SweepAt(cfg, Active, c, |b.events|, |c.events|)
    ensures SweptOnce(cfg, a, d)
  {
    hide SweepAt;
    var k, m := |b.events|, |c.events|;
    SweepStays(cfg, Active, c, d, k, m);
    forall e: nat | |a.events| <= e < k ensures !d.events[e].CancelBegins? {
      assert b.events[e] == c.events[e] == d.events[e];
    }
    assert OnlyBetween(d, |a.events|, k, m);
  }

  /** Of the first `n` children those submitted after `deadline`. */
  ghost function LateOnes(children: seq<ChildOrder>, submittedAt: map<nat, real>, deadline: real, n: nat): set<nat>
    requires n <= |children|
  {
    set k: nat | k < n && children[k].id in submittedAt && submittedAt[children[k].id] > deadline
  }

  lemma NoneLate(children: seq<ChildOrder>, submittedAt: map<nat, real>, deadline: real)
    ensures LateOnes(children, submittedAt, deadline, 0) == {}
  {}

  lemma OneMoreLate(children: seq<ChildOrder>, submittedAt: map<nat, real>, deadline: real, n: nat)
    requires n < |children|
    ensures |LateOnes(children, submittedAt, deadline, n + 1)|
            == |LateOnes(children, submittedAt, deadline, n)|
               + if children[n].id in submittedAt && submittedAt[children[n].id] > deadline then 1 else 0
  {
    var late := children[n].id in submittedAt && submittedAt[children[n].id] > deadline;
    var before := LateOnes(children, submittedAt, deadline, n);
    assert LateOnes(children, submittedAt, deadline, n + 1) == if late then before + {n} else before;
  }

  lemma RevertExposure(r: Record)
    requires r.call.AwaitingCancel? && r.call.index < |r.children|
    ensures
      RevertCancel(r).exposure
      == ReleasePendingCancel(r, r.call.remaining).exposure.(liveOpen := r.exposure.liveOpen + r.call.remaining)
  {}

  lemma RejectedInParts(cfg: Config, r: Record, now: real)
    requires r.children != [] && r.call.AwaitingSubmit?
    ensures
      var refused := Refused(r);
      && EndSubmit(cfg, r, now, OrderRejected)
         == (if r.call.postOnly
             then TerminalizeRejectLimit(cfg, refused.(rejects := r.rejects + [Reject(now, r.call.price, r.call.bid, r.call.ask)]))
             else Fail(refused))
      && refused.rejects == r.rejects
  {}

  lemma TakenBackInParts(cfg: Config, r: Record, now: real, outcome: SubmitOutcome)
    requires r.children != [] && r.call.AwaitingSubmit?
    requires outcome == SubmitLimited || outcome == SubmitNoData || outcome == SubmitRaised
    ensures
      var released := ReleasePendingSubmit(r.(call := Idle), r.children[|r.children| - 1].submitted);
      && released.children != []
      && EndSubmit(cfg, r, now, outcome)
         == if outcome == SubmitLimited then BackOff(WithoutLastChild(released), now) else WithoutLastChild(released)
  {}

  lemma RefusedInParts(cfg: Config, r: Record, now: real, outcome: SubmitOutcome)
    requires r.children != [] && r.call.AwaitingSubmit? && (outcome == SubmitBanned || outcome == TerminalOrderRejected)
    ensures EndSubmit(cfg, r, now, outcome) == Fail(Refused(r))
  {}
}
