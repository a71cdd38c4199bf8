/** The state of one execution and what every engine operation of src/execution/engine.py
    does to it, as functions on values. The class in Engine.dfy is verified against them. */
module Records {
  import opened Models
  import opened StateMachine
  import opened Intervals
  import opened Sorting

  /** One accepted trade with its sort key and its side; an anonymous one has id 0. */
  datatype TradeEntry = TradeEntry(id: nat, price: int, quantity: int, event: int, transaction: int, isMaker: Option<bool>) {
    function Pair(): PriceQuantity { PriceQuantity(price, quantity) }
  }

  predicate EntryLe(a: TradeEntry, b: TradeEntry) {
    a.event < b.event
    || (a.event == b.event
        && (a.transaction < b.transaction || (a.transaction == b.transaction && a.id <= b.id)))
  }

  /** A post-only reject of the current streak. */
  datatype Reject = Reject(time: real, price: int, bid: int, ask: int)

  /** The adapter call the engine is waiting for. */
  datatype Call =
    | Idle
    | AwaitingSubmit(price: int, postOnly: bool, bid: int, ask: int)
    | AwaitingCancel(index: nat, before: ChildStatus, remaining: nat)

  datatype Config = Config(
    side: Side, algorithm: Algorithm, policy: DeadlinePolicy, required: nat,
    started: real, duration: real, slices: nat, retryLimit: nat, timeout: real)
  {
    ghost predicate Valid() {
      required > 0 && duration > 0.0 && slices > 0 && retryLimit > 0
    }

    function Deadline(): real { started + duration }

    predicate DeadlineReached(now: real) { now - started >= duration }

    predicate UseAggressivePrice(now: real) {
      policy == AggressiveWithinRange && DeadlineReached(now)
    }
  }

  datatype Record = Record(
    children: seq<ChildOrder>, exposure: Exposure, trackerSeen: set<nat>,
    // fill ledger
    seen: set<nat>, ignored: set<nat>, duplicates: nat, trades: seq<TradeEntry>,
    intervals: map<nat, seq<Interval>>, anonymous: seq<TradeEntry>, fillInputs: seq<PriceQuantity>,
    maker: int, taker: int,
    // lifecycle
    status: ExecutionStatus, summary: Option<ExecutionStatus>, lastSequence: nat,
    submittedAt: map<nat, real>, aggressive: set<nat>, rejects: seq<Reject>,
    rateLimitedUntil: Option<real>,
    // history kept for the properties only
    cancelRequested: bool, attemptOpen: bool, openings: nat, call: Call)

  function InitialRecord(): Record {
    Record([], Exposure(0, 0, 0, 0, 0), {}, {}, {}, 0, [], map[], [], [], 0, 0,
           Running, None, 0, map[], {}, [], None, false, false, 0, Idle)
  }

  // ---- exposure buckets ----

  function FloorZero(current: nat, quantity: nat): nat {
    if current > quantity then current - quantity else 0
  }

  /** The buckets rebuilt from the child orders. */
  ghost function Recomputed(children: seq<ChildOrder>, confirmed: nat): Exposure {
    NonNegativeSums(children);
    Exposure(confirmed, Sum(children, LiveOf), Sum(children, PendingSubmitOf),
             Sum(children, PendingCancelOf), Sum(children, UnknownOf))
  }

  lemma NonNegativeSums(children: seq<ChildOrder>)
    ensures Sum(children, LiveOf) >= 0 && Sum(children, PendingSubmitOf) >= 0
    ensures Sum(children, PendingCancelOf) >= 0 && Sum(children, UnknownOf) >= 0
    ensures Sum(children, ReservedOf) >= 0 && Sum(children, ConfirmedOf) >= 0
  {
    SumNonNegative(children, LiveOf);
    SumNonNegative(children, PendingSubmitOf);
    SumNonNegative(children, PendingCancelOf);
    SumNonNegative(children, UnknownOf);
    SumNonNegative(children, ReservedOf);
    SumNonNegative(children, ConfirmedOf);
  }

  ghost function RefreshReserved(r: Record): Record {
    r.(exposure := Recomputed(r.children, r.exposure.confirmed))
  }

  // ---- fills ----

  function IntervalsOf(intervals: map<nat, seq<Interval>>, id: nat): seq<Interval> {
    if id in intervals then intervals[id] else []
  }

  function Max(a: int, b: int): int { if a >= b then a else b }

  function OrZero(t: Option<int>): int { if t.Some? then t.value else 0 }

  /** What an authoritative fill adds to a cumulative quantity. */
  datatype TradeDetails = TradeDetails(tradeId: Option<nat>, price: int, isMaker: Option<bool>, delta: int,
                                       event: int, transaction: int, limit: int)

  function Ignore(r: Record, id: nat): Record {
    if id in r.ignored then r
    else r.(ignored := r.ignored + {id}, duplicates := r.duplicates + 1)
  }

  function Drop(r: Record, tradeId: Option<nat>): Record {
    if tradeId.None? then r
    else Ignore(r.(seen := r.seen + {tradeId.value}), tradeId.value)
  }

  /** The interval a trade is booked under, if it is accepted at all. */
  function AcceptedInterval(child: ChildOrder, intervals: seq<Interval>, incoming: int, t: TradeDetails): Option<Interval> {
    var start, end := incoming - t.delta, incoming;
    var limit := Max(Max(child.confirmed, incoming), t.limit);
    if FillIntervalIsValid(start, end, limit) && !FillIntervalOverlaps(start, end, intervals)
    then Some(Interval(start, end))
    else WindowLocalFillInterval(start, end, t.delta, limit, intervals, t.tradeId)
  }

  /** ExposureTracker.apply_fill. */
  function ApplyTrackerFill(r: Record, tradeId: Option<nat>, cumulative: nat): Record {
    if tradeId.Some? && tradeId.value in r.trackerSeen then r
    else
      var r' := if tradeId.Some? then r.(trackerSeen := r.trackerSeen + {tradeId.value}) else r;
      if cumulative <= r'.exposure.confirmed then r'
      else r'.(exposure := r'.exposure.(confirmed := cumulative))
  }

  /** Raises a child's confirmed quantity, and the tracker's by the same amount. */
  function RaiseConfirmed(r: Record, i: nat, incoming: int, tradeId: Option<nat>): Record
    requires i < |r.children|
  {
    var c := r.children[i];
    if incoming <= c.confirmed then r
    else ApplyTrackerFill(r.(children := r.children[i := c.(confirmed := incoming)]), tradeId,
                          r.exposure.confirmed + (incoming - c.confirmed))
  }

  function Pairs(entries: seq<TradeEntry>): seq<PriceQuantity> {
    if entries == [] then [] else Pairs(entries[..|entries| - 1]) + [entries[|entries| - 1].Pair()]
  }

  function RebuiltInputs(trades: seq<TradeEntry>, anonymous: seq<TradeEntry>): seq<PriceQuantity> {
    Pairs(Sort(trades, EntryLe)) + Pairs(anonymous)
  }

  function EntryOf(t: TradeDetails): TradeEntry {
    TradeEntry(if t.tradeId.Some? then t.tradeId.value else 0, t.price, t.delta, t.event, t.transaction, t.isMaker)
  }

  function BookInputs(r: Record, id: nat, iv: Interval, t: TradeDetails): Record {
    var intervals := r.intervals[id := IntervalsOf(r.intervals, id) + [iv]];
    if t.tradeId.Some? then
      var trades := r.trades + [EntryOf(t)];
      r.(intervals := intervals, seen := r.seen + {t.tradeId.value}, trackerSeen := r.trackerSeen + {t.tradeId.value},
         trades := trades, fillInputs := RebuiltInputs(trades, r.anonymous))
    else
      r.(intervals := intervals, anonymous := r.anonymous + [EntryOf(t)],
         fillInputs := r.fillInputs + [PriceQuantity(t.price, t.delta)])
  }

  function BookTrade(r: Record, id: nat, iv: Interval, t: TradeDetails): Record {
    var r' := BookInputs(r, id, iv, t);
    if t.isMaker == Some(true) then r'.(maker := r'.maker + t.delta)
    else if t.isMaker == Some(false) then r'.(taker := r'.taker + t.delta)
    else r'
  }

  /** _update_child_cumulative_fill_locked; `trade` is None for a mere order snapshot. */
  function UpdateFill(r: Record, i: nat, incoming: int, trade: Option<TradeDetails>): Record
    requires i < |r.children|
  {
    match trade
    case None => RaiseConfirmed(r, i, incoming, None)
    case Some(t) =>
      if t.tradeId.Some? && t.tradeId.value in r.seen then Ignore(r, t.tradeId.value)
      else if t.delta <= 0 then Drop(r, t.tradeId)
      else
        var c := r.children[i];
        match AcceptedInterval(c, IntervalsOf(r.intervals, c.id), incoming, t)
        case None => Drop(r, t.tradeId)
        case Some(iv) => BookTrade(RaiseConfirmed(r, i, incoming, t.tradeId), c.id, iv, t)
  }

  // ---- child statuses ----

  function SetStatus(r: Record, i: nat, target: ChildStatus): Record
    requires i < |r.children|
  {
    var c := r.children[i];
    r.(children := r.children[i := c.(status := SetChildStatus(c.status, target))])
  }

  /** An order snapshot: status and cumulative fill. */
  function TakeSnapshot(r: Record, i: nat, target: ChildStatus, filled: nat): Record
    requires i < |r.children|
  {
    UpdateFill(SetStatus(r, i, target), i, filled, None)
  }

  predicate ResetsRejectGate(c: ChildOrder) {
    c.status in {Open, PartiallyFilled, Filled} || (c.status == ChildCancelled && c.confirmed > 0)
  }

  /** A snapshot found by reconciliation; learning that an unknown order exists ends a reject streak. */
  function TakeReport(r: Record, i: nat, target: ChildStatus, filled: nat): Record
    requires i < |r.children|
  {
    var r' := TakeSnapshot(r, i, target, filled);
    if r.children[i].status == Unknown && ResetsRejectGate(r'.children[i]) then r'.(rejects := []) else r'
  }

  // ---- parent status ----

  function Terminate(r: Record, target: ExecutionStatus): Record {
    r.(status := target, summary := Some(target))
  }

  predicate IsActive(s: ExecutionStatus) { s in {Running, Cancelling} }

  /** The status an execution that stops short of its target ends in. */
  function StoppedStatus(r: Record, untouched: ExecutionStatus): ExecutionStatus {
    if r.exposure.confirmed > 0 then PartiallyCompleted else untouched
  }

  function Complete(r: Record): Record {
    if IsActive(r.status) then Terminate(r, Completed) else r
  }

  function Fail(r: Record): Record {
    if IsActive(r.status) then Terminate(r, Failed) else r
  }

  function TerminalizeDeadline(r: Record): Record {
    if r.status != Running || r.exposure.Reserved() > 0 then r
    else Terminate(r, StoppedStatus(r, Expired))
  }

  function ExpireForValidation(r: Record): Record {
    if r.status != Running then r else Terminate(r, StoppedStatus(r, Expired))
  }

  function TerminalizeRejectLimit(cfg: Config, r: Record): Record {
    if r.status != Running || |r.rejects| < cfg.retryLimit || r.exposure.Reserved() > 0 then r
    else Terminate(r, StoppedStatus(r, Expired))
  }

  predicate TargetFilled(cfg: Config, r: Record) { r.exposure.confirmed >= cfg.required }

  function TerminalizeManualCancel(cfg: Config, r: Record): Record {
    if r.status != Cancelling then r
    else if TargetFilled(cfg, r) then Complete(r)
    else if r.exposure.Reserved() > 0 then r
    else Terminate(r, StoppedStatus(r, ExecutionStatus.Cancelled))
  }

  function BackOff(r: Record, now: real): Record {
    r.(rateLimitedUntil := Some(now + 1.0))
  }

  // ---- the deadline decision ----

  /** A passive child still shows as open. */
  predicate PassiveShown(children: seq<ChildOrder>, aggressive: set<nat>) {
    exists i :: 0 <= i < |children| && children[i].status.IsLive() && children[i].id !in aggressive
  }

  /** run_once has decided not to stop at an aggressive attempt that is outstanding, and goes on to
      cancel a passive child: it looks at the exchange again and does not decide again. */
  predicate OpensAttempt(cfg: Config, r: Record, now: real) {
    && cfg.UseAggressivePrice(now) && r.aggressive != {} && r.exposure.Reserved() > 0
    && PassiveShown(r.children, r.aggressive)
  }

  function Decide(cfg: Config, r: Record, now: real): Record {
    r.(attemptOpen := OpensAttempt(cfg, r, now),
       openings := r.openings + if OpensAttempt(cfg, r, now) then 1 else 0)
  }

  // ---- submission ----

  datatype SubmitOutcome =
    | Accepted(status: ChildStatus, filled: nat)
    | SubmitBanned | CreateTimeout | OrderRejected | TerminalOrderRejected
    | SubmitLimited | SubmitNoData | SubmitRaised

  function BeginSubmit(r: Record, now: real, quantity: nat, price: int, postOnly: bool, bid: int, ask: int): Record {
    var id := r.lastSequence + 1;
    r.(lastSequence := id,
       children := r.children + [ChildOrder(id, quantity, price, PendingSubmit, 0)],
       submittedAt := r.submittedAt[id := now],
       aggressive := if postOnly then r.aggressive else r.aggressive + {id},
       exposure := r.exposure.(pendingSubmit := r.exposure.pendingSubmit + quantity),
       attemptOpen := false,
       call := AwaitingSubmit(price, postOnly, bid, ask))
  }

  function ReleasePendingSubmit(r: Record, quantity: nat): Record {
    r.(exposure := r.exposure.(pendingSubmit := FloorZero(r.exposure.pendingSubmit, quantity)))
  }

  function WithoutLastChild(r: Record): Record
    requires r.children != []
  {
    var id := r.children[|r.children| - 1].id;
    r.(children := r.children[..|r.children| - 1], submittedAt := r.submittedAt - {id},
       aggressive := r.aggressive - {id})
  }

  /** Buckets of an order whose status and fill were just taken over. */
  function ReserveLive(r: Record, i: nat): Record
    requires i < |r.children|
  {
    r.(exposure := r.exposure.(liveOpen := r.exposure.liveOpen + r.children[i].Remaining()))
  }

  function ReserveUnknown(r: Record, i: nat): Record
    requires i < |r.children|
  {
    r.(exposure := r.exposure.(unknown := r.exposure.unknown + r.children[i].Remaining()))
  }

  /** Buckets of an order after its create response. */
  function ReserveTaken(r: Record, i: nat): Record
    requires i < |r.children|
  {
    if r.children[i].status.IsLive() then ReserveLive(r, i)
    else if r.children[i].status == Unknown then ReserveUnknown(r, i)
    else r
  }

  /** A create response with a definite positive answer ends a reject streak. */
  function ClearGate(r: Record, s: ChildStatus): Record {
    if s in {Unknown, Rejected} then r else r.(rejects := [])
  }

  function EndSubmit(cfg: Config, r: Record, now: real, outcome: SubmitOutcome): Record
    requires r.children != [] && r.call.AwaitingSubmit?
  {
    var i := |r.children| - 1;
    var released := ReleasePendingSubmit(r.(call := Idle), r.children[i].submitted);
    match outcome
    case Accepted(status, filled) =>
      var r1 := TakeSnapshot(released, i, status, filled);
      ClearGate(ReserveTaken(r1, i), r1.children[i].status)
    case SubmitBanned => Fail(SetStatus(released, i, Rejected))
    case CreateTimeout => ReserveUnknown(SetStatus(released, i, Unknown), i)
    case TerminalOrderRejected => Fail(SetStatus(released, i, Rejected))
    case OrderRejected =>
      var rejected := SetStatus(released, i, Rejected);
      if r.call.postOnly
      then TerminalizeRejectLimit(cfg,
             rejected.(rejects := r.rejects + [Reject(now, r.call.price, r.call.bid, r.call.ask)]))
      else Fail(rejected)
    case SubmitLimited => BackOff(WithoutLastChild(released), now)
    case SubmitNoData => WithoutLastChild(released)
    case SubmitRaised => WithoutLastChild(released)
  }

  // ---- cancellation ----

  datatype CancelOutcome =
    | CancelAnswered(status: ChildStatus, filled: nat)
    | CancelBanned | CancelTimeout | CancelLimited | CancelRaised

  predicate CanCancel(c: ChildOrder) {
    c.status.IsLive() && c.Remaining() > 0
  }

  /** Moves the remaining quantity to the pending-cancel bucket, never more than is live. */
  function MarkPendingCancel(e: Exposure, quantity: nat): Exposure {
    var moved := if quantity < e.liveOpen then quantity else e.liveOpen;
    e.(liveOpen := e.liveOpen - moved, pendingCancel := e.pendingCancel + moved)
  }

  function BeginCancel(r: Record, i: nat): Record
    requires i < |r.children|
  {
    var c := r.children[i];
    SetStatus(r.(exposure := MarkPendingCancel(r.exposure, c.Remaining()),
                 call := AwaitingCancel(i, c.status, c.Remaining())), i, PendingCancel)
  }

  function ReleasePendingCancel(r: Record, quantity: nat): Record {
    r.(exposure := r.exposure.(pendingCancel := FloorZero(r.exposure.pendingCancel, quantity)))
  }

  /** Puts a child whose cancellation went wrong back to its live status. */
  function RevertCancel(r: Record): Record
    requires r.call.AwaitingCancel? && r.call.index < |r.children|
  {
    var released := ReleasePendingCancel(r, r.call.remaining);
    SetStatus(released.(exposure := released.exposure.(liveOpen := released.exposure.liveOpen + r.call.remaining),
                        call := Idle), r.call.index, r.call.before)
  }

  /** Buckets of an order after the answer to its cancellation. */
  function SettleCancel(r: Record, i: nat, remaining: nat): Record
    requires i < |r.children|
  {
    if r.children[i].status in {ChildCancelled, Filled} then ReleasePendingCancel(r, remaining)
    else if r.children[i].status.IsLive() then ReserveLive(ReleasePendingCancel(r, remaining), i)
    else r
  }

  function EndCancel(r: Record, now: real, outcome: CancelOutcome): Record
    requires r.call.AwaitingCancel? && r.call.index < |r.children|
  {
    var i := r.call.index;
    match outcome
    case CancelAnswered(status, filled) =>
      SettleCancel(TakeSnapshot(r.(call := Idle), i, status, filled), i, r.call.remaining)
    case CancelBanned => Fail(RevertCancel(r))
    case CancelTimeout => r.(call := Idle)
    case CancelLimited => BackOff(RevertCancel(r), now)
    case CancelRaised => RevertCancel(r)
  }

  // ---- exact lookups ----

  datatype Lookup = Found(status: ChildStatus, filled: nat) | NotFound | Banned | Limited | Raised

  datatype Halt = Ran | HaltBanned | HaltLimited | HaltRaised

  /** _refresh_order_states_exact_locked from child `i` on, without the final rebuild of the buckets. */
  function LookupFrom(r: Record, answers: seq<Lookup>, i: nat): (Record, Halt)
    requires |answers| == |r.children|
    decreases |r.children| - i
  {
    if i >= |r.children| then (r, Ran)
    else if r.children[i].status.IsTerminal() then LookupFrom(r, answers, i + 1)
    else
      match answers[i]
      case Banned => (r, HaltBanned)
      case Limited => (r, HaltLimited)
      case Raised => (r, HaltRaised)
      case NotFound =>
        LookupFrom(if r.children[i].status == Unknown then SetStatus(r, i, Rejected) else r, answers, i + 1)
      case Found(status, filled) => LookupFrom(TakeReport(r, i, status, filled), answers, i + 1)
  }

  ghost function Refresh(r: Record, now: real, answers: seq<Lookup>): Record
    requires |answers| == |r.children|
  {
    var (r', halt) := LookupFrom(r, answers, 0);
    match halt
    case Ran => RefreshReserved(r')
    case HaltLimited => RefreshReserved(BackOff(r', now))
    case HaltBanned => Fail(r')
    case HaltRaised => r'
  }

  // ---- reconciliation results ----

  function ClientsOfOrders(rows: seq<ChildOrder>): set<nat> { set k | 0 <= k < |rows| :: rows[k].id }

  function ClientsOfFills(fills: seq<Fill>): set<nat> { set k | 0 <= k < |fills| :: fills[k].client }

  /** The largest confirmed quantity the rows report for `id`, zero when there is no row. */
  function RowConfirmed(rows: seq<ChildOrder>, id: nat): nat {
    if rows == [] then 0
    else
      var rest := RowConfirmed(rows[..|rows| - 1], id);
      var row := rows[|rows| - 1];
      if row.id == id && row.confirmed > rest then row.confirmed else rest
  }

  /** Orders the record does not know are adopted; a fill in the same result will credit them. */
  function AdoptRow(r: Record, row: ChildOrder, fillClients: set<nat>): Record {
    if IndexOf(r.children, row.id).Some? then r
    else r.(children := r.children + [if row.id in fillClients then row.(confirmed := 0) else row])
  }

  function AdoptRows(r: Record, rows: seq<ChildOrder>, fillClients: set<nat>): Record {
    if rows == [] then r
    else AdoptRow(AdoptRows(r, rows[..|rows| - 1], fillClients), rows[|rows| - 1], fillClients)
  }

  /** Event time, transaction time, trade id; a missing part sorts first. */
  predicate FillLe(a: Fill, b: Fill) {
    var (ae, be, at, bt) := (OrZero(a.eventTime), OrZero(b.eventTime), OrZero(a.transactionTime), OrZero(b.transactionTime));
    ae < be || (ae == be && (at < bt || (at == bt && IdLe(a.tradeId, b.tradeId))))
  }

  predicate IdLe(a: Option<nat>, b: Option<nat>) {
    a.None? || (b.Some? && a.value <= b.value)
  }

  function DetailsOf(f: Fill, limit: int): TradeDetails {
    TradeDetails(f.tradeId, f.price, f.isMaker, f.last, OrZero(f.eventTime), OrZero(f.transactionTime), limit)
  }

  function ApplyFill(r: Record, rows: seq<ChildOrder>, f: Fill): Record {
    match IndexOf(r.children, f.client)
    case None => r
    case Some(i) =>
      var limit := Max(Max(r.children[i].confirmed, RowConfirmed(rows, f.client)), f.cumulative);
      UpdateFill(r, i, f.cumulative, Some(DetailsOf(f, limit)))
  }

  function ApplyFills(r: Record, rows: seq<ChildOrder>, fills: seq<Fill>): Record {
    if fills == [] then r
    else ApplyFill(ApplyFills(r, rows, fills[..|fills| - 1]), rows, fills[|fills| - 1])
  }

  function ApplyRow(r: Record, row: ChildOrder): Record {
    match IndexOf(r.children, row.id)
    case None => r
    case Some(i) => TakeReport(r, i, row.status, row.confirmed)
  }

  function ApplyRows(r: Record, rows: seq<ChildOrder>): Record {
    if rows == [] then r
    else ApplyRow(ApplyRows(r, rows[..|rows| - 1]), rows[|rows| - 1])
  }

  /** Exact lookups of the orders still unknown after the rows. */
  function ResolveUnknownFrom(r: Record, answers: seq<Lookup>, i: nat): (Record, Halt)
    requires |answers| == |r.children|
    decreases |r.children| - i
  {
    if i >= |r.children| then (r, Ran)
    else if r.children[i].status != Unknown then ResolveUnknownFrom(r, answers, i + 1)
    else
      match answers[i]
      case Banned => (r, HaltBanned)
      case Limited => (r, HaltLimited)
      case Raised => (r, HaltRaised)
      case NotFound => ResolveUnknownFrom(SetStatus(r, i, Rejected), answers, i + 1)
      case Found(status, filled) => ResolveUnknownFrom(TakeReport(r, i, status, filled), answers, i + 1)
  }

  /** The not-found warning: unknown orders without a row are taken never to have existed. */
  ghost function RejectMissingFrom(r: Record, listed: set<nat>, i: nat): Record
    decreases |r.children| - i
  {
    if i >= |r.children| then r
    else if r.children[i].status == Unknown && r.children[i].id !in listed
    then RejectMissingFrom(SetStatus(r, i, Rejected), listed, i + 1)
    else RejectMissingFrom(r, listed, i + 1)
  }

  /** Rows and fills of a result, before lookups, warnings and the rebuild of the buckets. */
  ghost function ApplyEvidence(r: Record, result: ReconciliationResult): Record {
    var adopted := AdoptRows(r, result.orders, ClientsOfFills(result.fills));
    ApplyRows(ApplyFills(adopted, result.orders, Sort(result.fills, FillLe)), result.orders)
  }

  ghost function ApplyWarning(r: Record, result: ReconciliationResult): Record {
    if result.notFound then RejectMissingFrom(r, ClientsOfOrders(result.orders), 0) else r
  }

  /** _apply_reconciliation_result_locked without the exact lookups. */
  ghost function ApplyResult(r: Record, result: ReconciliationResult): Record {
    RefreshReserved(ApplyWarning(ApplyEvidence(r, result), result))
  }

  /** _apply_reconciliation_result_locked with the exact lookups. */
  ghost function ApplyResultExact(r: Record, now: real, result: ReconciliationResult, answers: seq<Lookup>): Record
    requires |answers| == |ApplyEvidence(r, result).children|
  {
    var (r', halt) := ResolveUnknownFrom(ApplyEvidence(r, result), answers, 0);
    match halt
    case Ran => RefreshReserved(ApplyWarning(r', result))
    case HaltBanned => RefreshReserved(ApplyWarning(Fail(r'), result))
    case HaltLimited => RefreshReserved(ApplyWarning(BackOff(r', now), result))
    case HaltRaised => r'
  }

  // ---- the volume-weighted price inputs of a summary ----

  /** Prices and quantities of the children's confirmed fills. */
  ghost function ProvisionalInputs(children: seq<ChildOrder>): seq<PriceQuantity> {
    if children == [] then []
    else
      var c := children[|children| - 1];
      ProvisionalInputs(children[..|children| - 1])
      + if c.confirmed > 0 then [PriceQuantity(c.price, c.confirmed)] else []
  }

  ghost function Uncovered(c: ChildOrder, intervals: map<nat, seq<Interval>>): int {
    c.confirmed - |CoveredUnits(IntervalsOf(intervals, c.id), c.confirmed)|
  }

  ghost function UncoveredInputs(children: seq<ChildOrder>, intervals: map<nat, seq<Interval>>): seq<PriceQuantity> {
    if children == [] then []
    else
      var c := children[|children| - 1];
      UncoveredInputs(children[..|children| - 1], intervals)
      + if Uncovered(c, intervals) > 0 then [PriceQuantity(c.price, Uncovered(c, intervals))] else []
  }

  ghost function SummaryInputs(r: Record): seq<PriceQuantity> {
    if r.fillInputs == [] then ProvisionalInputs(r.children)
    else r.fillInputs + UncoveredInputs(r.children, r.intervals)
  }

  ghost function Quantity(inputs: seq<PriceQuantity>): int {
    if inputs == [] then 0 else Quantity(inputs[..|inputs| - 1]) + inputs[|inputs| - 1].quantity
  }

  /** What the accepted trades of one side add up to. */
  ghost function SideQuantity(entries: seq<TradeEntry>, maker: bool): int {
    if entries == [] then 0
    else
      var e := entries[|entries| - 1];
      SideQuantity(entries[..|entries| - 1], maker) + if e.isMaker == Some(maker) then e.quantity else 0
  }

  /** Price times quantity over the accepted trades. */
  ghost function EntryNotional(entries: seq<TradeEntry>): int {
    if entries == [] then 0
    else
      var e := entries[|entries| - 1];
      EntryNotional(entries[..|entries| - 1]) + e.price * e.quantity
  }

  /** Child by child its limit price times what no trade is booked for. */
  ghost function UncoveredNotional(children: seq<ChildOrder>, intervals: map<nat, seq<Interval>>): int {
    if children == [] then 0
    else
      var c := children[|children| - 1];
      UncoveredNotional(children[..|children| - 1], intervals) + c.price * (c.confirmed - TotalLength(IntervalsOf(intervals, c.id)))
  }

  ghost function Notional(inputs: seq<PriceQuantity>): int {
    if inputs == [] then 0
    else Notional(inputs[..|inputs| - 1]) + inputs[|inputs| - 1].price * inputs[|inputs| - 1].quantity
  }

  /** execution_vwap. */
  ghost function Vwap(inputs: seq<PriceQuantity>): real {
    if Quantity(inputs) == 0 then 0.0 else Notional(inputs) as real / Quantity(inputs) as real
  }
}
