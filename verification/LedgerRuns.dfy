/** The fill ledger over whole runs in which nothing an adapter says can be relied on: any answers
    to create requests, cancellations and lookups, and any rows and fills, as long as the rows name
    orders the execution has asked for at some time. */
module LedgerRuns {
  import opened Models
  import opened Intervals
  import opened Sorting
  import opened Records
  import opened FillLedger
  import opened Prices
  import opened Venues
  import opened Coupling
  import opened Invariant
  import opened Protocol
  import opened Steps
  import opened Deliveries
  import opened Runs
  import Idempotence

  /** The rows name orders with sequence numbers the execution has used. */
  ghost predicate OwnRows(r: Record, rows: seq<ChildOrder>) {
    forall k :: 0 <= k < |rows| ==> rows[k].id <= r.lastSequence
  }

  /** What the engine does, whatever it is told. */
  ghost predicate LedgerStep(cfg: Config, w: World, e: Event, w': World) {
    match e
    case VenueMoves => w'.rec == w.rec
    case ClockTicks => w'.rec == w.rec
    case SubmitBegins(quantity, price, postOnly, bid, ask) =>
      w.rec.call == Idle && w'.rec == BeginSubmit(w.rec, w.now, quantity, price, postOnly, bid, ask)
    case SubmitEnds(outcome) =>
      w.rec.call.AwaitingSubmit? && w.rec.children != [] && w'.rec == EndSubmit(cfg, w.rec, w.now, outcome)
    case CancelBegins(i) =>
      w.rec.call == Idle && i < |w.rec.children| && w'.rec == BeginCancel(w.rec, i)
    case CancelEnds(outcome) =>
      w.rec.call.AwaitingCancel? && w.rec.call.index < |w.rec.children| && w'.rec == EndCancel(w.rec, w.now, outcome)
    case Refreshes(answers) =>
      w.rec.call == Idle && |answers| == |w.rec.children| && w'.rec == Refresh(w.rec, w.now, answers)
    case Delivers(result) =>
      w.rec.call == Idle && OwnRows(w.rec, result.orders) && w'.rec == ApplyResult(w.rec, result)
    case DeliversExact(result, answers) =>
      && w.rec.call == Idle && OwnRows(w.rec, result.orders)
      && |answers| == |ApplyEvidence(w.rec, result).children|
      && w'.rec == ApplyResultExact(w.rec, w.now, result, answers)
    case BacksOff(until) => w'.rec == w.rec.(rateLimitedUntil := until)
    case Decides => w'.rec == Decide(cfg, w.rec, w.now)
    case CancelIsRequested => w'.rec == w.rec.(status := ExecutionStatus.Cancelling, cancelRequested := true)
    case Stops(target) => w'.rec == Terminate(w.rec, target)
  }

  ghost predicate LedgerStepAt(cfg: Config, run: Run, i: nat)
    requires i < |run.events| && |run.worlds| == |run.events| + 1
  {
    LedgerStep(cfg, run.worlds[i], run.events[i], run.worlds[i + 1])
  }

  ghost predicate IsLedgerRun(cfg: Config, run: Run) {
    && |run.worlds| == |run.events| + 1
    && run.worlds[0].rec == InitialRecord()
    && forall i: nat :: i < |run.events| ==> LedgerStepAt(cfg, run, i)
  }

  // ---- what every step keeps ----

  ghost predicate IdsBounded(children: seq<ChildOrder>, last: nat) {
    forall i: nat :: i < |children| ==> IdAt(children, last, i)
  }

  /** The ledger is in order, the next sequence number is new, and nothing is booked yet for a child
      whose request is on its way. */
  ghost predicate Accounted(r: Record) {
    && Ledger(r)
    && Counted(r)
    && IdsBounded(r.children, r.lastSequence)
    && (r.call.AwaitingSubmit? ==> r.children != [] && Blank(r, r.children[|r.children| - 1]))
  }

  ghost predicate Blank(r: Record, c: ChildOrder) {
    c.confirmed == 0 && IntervalsOf(r.intervals, c.id) == []
  }

  /** The same children by name, the same trades booked and events counted, under the same call. */
  ghost predicate SameBookings(r: Record, r': Record) {
    && Idempotence.SameIds(r.children, r'.children) && r'.lastSequence == r.lastSequence && r'.call == r.call
    && SameTrades(r, r') && r'.intervals == r.intervals
  }

  ghost predicate SameTrades(r: Record, r': Record) {
    && r'.trades == r.trades && r'.anonymous == r.anonymous
    && r'.seen == r.seen && r'.ignored == r.ignored && r'.duplicates == r.duplicates
  }

  /** Every fill that was ignored or dropped was counted once. */
  ghost predicate Counted(r: Record) {
    r.ignored <= r.seen && r.duplicates == |r.ignored|
  }

  // ---- where the booked trades come from ----

  /** `e` is what fill `f` says: its price, quantity, times and side. */
  ghost predicate SaidBy(e: TradeEntry, f: Fill) {
    && e.price == f.price && e.quantity == f.last && e.isMaker == f.isMaker
    && e.event == OrZero(f.eventTime) && e.transaction == OrZero(f.transactionTime)
  }

  ghost predicate NamedBy(e: TradeEntry, f: Fill) { SaidBy(e, f) && f.tradeId == Some(e.id) }

  ghost predicate UnnamedBy(e: TradeEntry, f: Fill) { SaidBy(e, f) && f.tradeId == None }

  ghost predicate NamedAmong(e: TradeEntry, fills: seq<Fill>) { exists k :: 0 <= k < |fills| && NamedBy(e, fills[k]) }

  ghost predicate UnnamedAmong(e: TradeEntry, fills: seq<Fill>) { exists k :: 0 <= k < |fills| && UnnamedBy(e, fills[k]) }

  /** Whatever is booked was booked before or is one of the fills. */
  ghost predicate BookedFrom(r: Record, r': Record, fills: seq<Fill>) {
    && (forall e :: e in r'.trades ==> e in r.trades || NamedAmong(e, fills))
    && (forall e :: e in r'.anonymous ==> e in r.anonymous || UnnamedAmong(e, fills))
  }

  lemma FillBooks(r: Record, rows: seq<ChildOrder>, f: Fill)
    ensures BookedFrom(r, ApplyFill(r, rows, f), [f])
    ensures Counted(r) ==> Counted(ApplyFill(r, rows, f))
    ensures r.trades <= ApplyFill(r, rows, f).trades
  {
    hide AcceptedInterval, RowConfirmed, RebuiltInputs, IntervalsOf, Counted;
    var index := IndexOf(r.children, f.client);
    if index.Some? {
      var i := index.value;
      var t := DetailsOf(f, Max(Max(r.children[i].confirmed, RowConfirmed(rows, f.client)), f.cumulative));
      UpdateBooks(r, i, f.cumulative, t, f);
    }
  }

  lemma UpdateBooks(r: Record, i: nat, incoming: int, t: TradeDetails, f: Fill)
    requires i < |r.children|
    requires t == DetailsOf(f, t.limit)
    ensures BookedFrom(r, UpdateFill(r, i, incoming, Some(t)), [f])
    ensures Counted(r) ==> Counted(UpdateFill(r, i, incoming, Some(t)))
    ensures r.trades <= UpdateFill(r, i, incoming, Some(t)).trades
  {
    hide AcceptedInterval, IntervalsOf, RaiseConfirmed, BookTrade, Counted;
    var raised := RaiseConfirmed(r, i, incoming, t.tradeId);
    RaiseKeepsTrades(r, i, incoming, t.tradeId);
    CountsKept(r, raised, t.tradeId);
    var accepted := AcceptedInterval(r.children[i], IntervalsOf(r.intervals, r.children[i].id), incoming, t);
    if accepted.Some? {
      assert [f][0] == f;
      BookAdds(raised, r.children[i].id, accepted.value, t, f);
    }
  }

  lemma CountsKept(r: Record, raised: Record, tradeId: Option<nat>)
    requires SameTrades(r, raised)
    ensures Counted(r) ==> Counted(raised) && Counted(Drop(r, tradeId))
    ensures Counted(r) && tradeId.Some? && tradeId.value in r.seen ==> Counted(Ignore(r, tradeId.value))
  {}

  lemma RaiseKeepsTrades(r: Record, i: nat, incoming: int, tradeId: Option<nat>)
    requires i < |r.children|
    ensures SameTrades(r, RaiseConfirmed(r, i, incoming, tradeId))
  {}

  lemma BookAdds(r: Record, id: nat, iv: Interval, t: TradeDetails, f: Fill)
    requires t == DetailsOf(f, t.limit)
    ensures BookedFrom(r, BookTrade(r, id, iv, t), [f])
    ensures Counted(r) ==> Counted(BookTrade(r, id, iv, t))
    ensures r.trades <= BookTrade(r, id, iv, t).trades
  {
    hide RebuiltInputs, IntervalsOf;
    assert [f][0] == f;
    if f.tradeId.Some? { assert NamedBy(EntryOf(t), [f][0]); } else { assert UnnamedBy(EntryOf(t), [f][0]); }
  }

  lemma AmongMore(e: TradeEntry, few: seq<Fill>, many: seq<Fill>)
    requires forall f :: f in few ==> f in many
    ensures NamedAmong(e, few) ==> NamedAmong(e, many)
    ensures UnnamedAmong(e, few) ==> UnnamedAmong(e, many)
  {
    if NamedAmong(e, few) {
      var k :| 0 <= k < |few| && NamedBy(e, few[k]);
      assert few[k] in many;
      var j :| 0 <= j < |many| && many[j] == few[k];
    }
    if UnnamedAmong(e, few) {
      var k :| 0 <= k < |few| && UnnamedBy(e, few[k]);
      assert few[k] in many;
      var j :| 0 <= j < |many| && many[j] == few[k];
    }
  }

  lemma BookedFromMore(a: Record, b: Record, c: Record, few: seq<Fill>, more: seq<Fill>, many: seq<Fill>)
    requires BookedFrom(a, b, few) && BookedFrom(b, c, more)
    requires forall f :: f in few || f in more ==> f in many
    ensures BookedFrom(a, c, many)
  {
    hide NamedAmong, UnnamedAmong;
    forall e | e in c.trades ensures e in a.trades || NamedAmong(e, many) {
      AmongMore(e, few, many);
      AmongMore(e, more, many);
    }
    forall e | e in c.anonymous ensures e in a.anonymous || UnnamedAmong(e, many) {
      AmongMore(e, few, many);
      AmongMore(e, more, many);
    }
  }

  lemma {:induction false} FillsBook(r: Record, rows: seq<ChildOrder>, fills: seq<Fill>)
    ensures BookedFrom(r, ApplyFills(r, rows, fills), fills)
    ensures Counted(r) ==> Counted(ApplyFills(r, rows, fills))
    ensures r.trades <= ApplyFills(r, rows, fills).trades
  {
    hide ApplyFill, BookedFrom, Counted;
    if fills == [] {
      NothingBooked(r, []);
    } else {
      var n := |fills| - 1;
      FillsBook(r, rows, fills[..n]);
      var r1 := ApplyFills(r, rows, fills[..n]);
      FillBooks(r1, rows, fills[n]);
      BookedFromMore(r, r1, ApplyFill(r1, rows, fills[n]), fills[..n], [fills[n]], fills);
      PrefixTransitive(r.trades, r1.trades, ApplyFill(r1, rows, fills[n]).trades);
    }
  }

  lemma NothingBooked(r: Record, fills: seq<Fill>)
    ensures BookedFrom(r, r, fills)
  {}

  lemma SameTradesBookNothing(r: Record, r': Record, fills: seq<Fill>)
    requires SameTrades(r, r')
    ensures BookedFrom(r, r', fills)
    ensures Counted(r) ==> Counted(r')
  {}

  /** The fills a step delivers. */
  function FillsOf(e: Event): seq<Fill> {
    match e
    case Delivers(result) => result.fills
    case DeliversExact(result, _) => result.fills
    case _ => []
  }

  lemma SameBookingsBounded(r: Record, r': Record)
    requires Idempotence.SameIds(r.children, r'.children) && r'.lastSequence == r.lastSequence
    requires IdsBounded(r.children, r.lastSequence)
    ensures IdsBounded(r'.children, r'.lastSequence)
  {
    forall i: nat | i < |r'.children| ensures IdAt(r'.children, r'.lastSequence, i) {
      assert IdAt(r.children, r.lastSequence, i);
    }
  }

  /** Confirmed quantities a delivery adopts without crediting them. */
  ghost function Missed(r: Record, e: Event): int {
    match e
    case Delivers(result) => AdoptedUncredited(r, result.orders, ClientsOfFills(result.fills))
    case DeliversExact(result, _) => AdoptedUncredited(r, result.orders, ClientsOfFills(result.fills))
    case _ => 0
  }

  /** Between calls the ledger and the names are all there is to account for. */
  lemma AccountedFrame(r: Record, r': Record)
    requires Ledger(r) && Counted(r) && IdsBounded(r.children, r.lastSequence) && SameTrades(r, r')
    requires r'.children == r.children && r'.lastSequence == r.lastSequence && !r'.call.AwaitingSubmit?
    requires r'.trackerSeen == r.trackerSeen && r'.seen == r.seen && r'.trades == r.trades
    requires r'.intervals == r.intervals && r'.anonymous == r.anonymous && r'.fillInputs == r.fillInputs
    requires r'.maker == r.maker && r'.taker == r.taker && r'.exposure.confirmed == r.exposure.confirmed
    ensures Accounted(r') && Uncredited(r') == Uncredited(r) && SameTrades(r, r')
  {
    hide Ledger, Sum;
    LedgerFrame(r, r');
  }

  // ---- create requests ----

  lemma BeginKeepsAccount(r: Record, now: real, quantity: nat, price: int, postOnly: bool, bid: int, ask: int)
    requires Accounted(r)
    ensures
      var r' := BeginSubmit(r, now, quantity, price, postOnly, bid, ask);
      Accounted(r') && Uncredited(r') == Uncredited(r) && SameTrades(r, r')
  {
    hide Ledger, Uncredited;
    var r' := BeginSubmit(r, now, quantity, price, postOnly, bid, ask);
    var c := ChildOrder(r.lastSequence + 1, quantity, price, PendingSubmit, 0);
    forall i | 0 <= i < |r.children| ensures r.children[i].id != c.id {
      assert IdAt(r.children, r.lastSequence, i);
    }
    SubmissionKeepsLedger(r, r', c);
    forall i: nat | i < |r'.children| ensures IdAt(r'.children, r'.lastSequence, i) {
      if i < |r.children| { assert IdAt(r.children, r.lastSequence, i); }
    }
  }

  /** A snapshot is a report that leaves the reject gate alone. */
  lemma SnapshotKeepsAccount(r: Record, i: nat, status: ChildStatus, filled: nat)
    requires Ledger(r) && i < |r.children|
    ensures
      var r' := TakeSnapshot(r, i, status, filled);
      Ledger(r') && Uncredited(r') == Uncredited(r) && SameBookings(r, r')
  {
    hide LedgerWith, Sum, TakeSnapshot;
    SnapshotKeepsLedger(r, [], i, status, filled);
    LedgerFrame(TakeReport(r, i, status, filled), TakeSnapshot(r, i, status, filled));
  }

  lemma StatusKeepsAccount(r: Record, i: nat, status: ChildStatus)
    requires Ledger(r) && i < |r.children|
    ensures
      var r' := SetStatus(r, i, status);
      Ledger(r') && Uncredited(r') == Uncredited(r) && SameBookings(r, r')
  {
    hide LedgerWith, Sum, StateMachine.SetChildStatus;
    StatusKeepsLedger(r, [], i, status);
  }

  lemma AcceptedKeepsAccount(cfg: Config, r: Record, now: real, status: ChildStatus, filled: nat)
    requires Accounted(r) && r.call.AwaitingSubmit? && r.children != []
    ensures
      var r' := EndSubmit(cfg, r, now, Accepted(status, filled));
      Accounted(r') && Uncredited(r') == Uncredited(r) && SameTrades(r, r')
  {
    hide Ledger, Uncredited, TakeSnapshot, IdsBounded, EndSubmit;
    var i := |r.children| - 1;
    var released := ReleasePendingSubmit(r.(call := Idle), r.children[i].submitted);
    AccountedFrame(r, released);
    SnapshotKeepsAccount(released, i, status, filled);
    var taken := TakeSnapshot(released, i, status, filled);
    SameBookingsBounded(released, taken);
    AcceptedFrame(cfg, r, now, status, filled, taken);
    AccountedFrame(taken, EndSubmit(cfg, r, now, Accepted(status, filled)));
  }

  /** Reserving what is still open and clearing the gate do not touch the ledger. */
  lemma AcceptedFrame(cfg: Config, r: Record, now: real, status: ChildStatus, filled: nat, taken: Record)
    requires r.call.AwaitingSubmit? && r.children != []
    requires taken == TakeSnapshot(ReleasePendingSubmit(r.(call := Idle), r.children[|r.children| - 1].submitted), |r.children| - 1, status, filled)
    requires |taken.children| == |r.children|
    ensures
      var r' := EndSubmit(cfg, r, now, Accepted(status, filled));
      r' == taken.(exposure := r'.exposure, rejects := r'.rejects) && r'.exposure.confirmed == taken.exposure.confirmed
  {
    hide TakeSnapshot;
  }

  lemma RefusedKeepsAccount(cfg: Config, r: Record, now: real, outcome: SubmitOutcome)
    requires Accounted(r) && r.call.AwaitingSubmit? && r.children != []
    requires outcome in {SubmitBanned, CreateTimeout, OrderRejected, TerminalOrderRejected}
    ensures
      var r' := EndSubmit(cfg, r, now, outcome);
      Accounted(r') && Uncredited(r') == Uncredited(r) && SameTrades(r, r')
  {
    hide Ledger, Uncredited, SetStatus, IdsBounded;
    var i := |r.children| - 1;
    var released := ReleasePendingSubmit(r.(call := Idle), r.children[i].submitted);
    AccountedFrame(r, released);
    var status := if outcome == CreateTimeout then Unknown else Rejected;
    StatusKeepsAccount(released, i, status);
    SameBookingsBounded(released, SetStatus(released, i, status));
    AccountedFrame(SetStatus(released, i, status), EndSubmit(cfg, r, now, outcome));
  }

  lemma TakenBackKeepsAccount(cfg: Config, r: Record, now: real, outcome: SubmitOutcome)
    requires Accounted(r) && r.call.AwaitingSubmit? && r.children != []
    requires outcome in {SubmitLimited, SubmitNoData, SubmitRaised}
    ensures
      var r' := EndSubmit(cfg, r, now, outcome);
      Accounted(r') && Uncredited(r') == Uncredited(r) && SameTrades(r, r')
  {
    hide Ledger, Sum;
    var r' := EndSubmit(cfg, r, now, outcome);
    LastChildLeavesLedger(r, r');
    SumWithoutLast(r.children, ConfirmedOf);
    forall i: nat | i < |r'.children| ensures IdAt(r'.children, r'.lastSequence, i) {
      assert IdAt(r.children, r.lastSequence, i);
    }
  }

  lemma SumWithoutLast(children: seq<ChildOrder>, f: ChildOrder -> int)
    requires children != []
    ensures Sum(children[..|children| - 1], f) == Sum(children, f) - f(children[|children| - 1])
  {}

  lemma EndKeepsAccount(cfg: Config, r: Record, now: real, outcome: SubmitOutcome)
    requires Accounted(r) && r.call.AwaitingSubmit? && r.children != []
    ensures
      var r' := EndSubmit(cfg, r, now, outcome);
      Accounted(r') && Uncredited(r') == Uncredited(r) && SameTrades(r, r')
  {
    hide Accounted, Uncredited, EndSubmit;
    match outcome {
      case Accepted(status, filled) => AcceptedKeepsAccount(cfg, r, now, status, filled);
      case SubmitLimited => TakenBackKeepsAccount(cfg, r, now, outcome);
      case SubmitNoData => TakenBackKeepsAccount(cfg, r, now, outcome);
      case SubmitRaised => TakenBackKeepsAccount(cfg, r, now, outcome);
      case _ => RefusedKeepsAccount(cfg, r, now, outcome);
    }
  }

  // ---- cancellations ----

  lemma CancelBeginKeepsAccount(r: Record, i: nat)
    requires Accounted(r) && i < |r.children|
    ensures Accounted(BeginCancel(r, i)) && Uncredited(BeginCancel(r, i)) == Uncredited(r)
    ensures SameTrades(r, BeginCancel(r, i))
  {
    hide Ledger, Uncredited, SetStatus, IdsBounded;
    var c := r.children[i];
    var marked := r.(exposure := Records.MarkPendingCancel(r.exposure, c.Remaining()), call := AwaitingCancel(i, c.status, c.Remaining()));
    AccountedFrame(r, marked);
    StatusKeepsAccount(marked, i, PendingCancel);
    SameBookingsBounded(marked, BeginCancel(r, i));
  }

  lemma RevertKeepsAccount(r: Record)
    requires Accounted(r) && r.call.AwaitingCancel? && r.call.index < |r.children|
    ensures Accounted(RevertCancel(r)) && Uncredited(RevertCancel(r)) == Uncredited(r)
    ensures SameTrades(r, RevertCancel(r))
  {
    hide Ledger, Uncredited, SetStatus, IdsBounded;
    var released := ReleasePendingCancel(r, r.call.remaining);
    var restored := released.(exposure := released.exposure.(liveOpen := released.exposure.liveOpen + r.call.remaining), call := Idle);
    AccountedFrame(r, restored);
    StatusKeepsAccount(restored, r.call.index, r.call.before);
    SameBookingsBounded(restored, RevertCancel(r));
  }

  lemma CancelAnswerKeepsAccount(r: Record, now: real, status: ChildStatus, filled: nat)
    requires Accounted(r) && r.call.AwaitingCancel? && r.call.index < |r.children|
    ensures
      var r' := EndCancel(r, now, CancelAnswered(status, filled));
      Accounted(r') && Uncredited(r') == Uncredited(r) && SameTrades(r, r')
  {
    hide Ledger, Uncredited, TakeSnapshot, IdsBounded;
    var i := r.call.index;
    AccountedFrame(r, r.(call := Idle));
    SnapshotKeepsAccount(r.(call := Idle), i, status, filled);
    var taken := TakeSnapshot(r.(call := Idle), i, status, filled);
    SameBookingsBounded(r.(call := Idle), taken);
    AccountedFrame(taken, EndCancel(r, now, CancelAnswered(status, filled)));
  }

  lemma CancelEndKeepsAccount(r: Record, now: real, outcome: CancelOutcome)
    requires Accounted(r) && r.call.AwaitingCancel? && r.call.index < |r.children|
    ensures Accounted(EndCancel(r, now, outcome)) && Uncredited(EndCancel(r, now, outcome)) == Uncredited(r)
    ensures SameTrades(r, EndCancel(r, now, outcome))
  {
    hide Ledger, Uncredited, RevertCancel, TakeSnapshot, IdsBounded;
    match outcome {
      case CancelAnswered(status, filled) => CancelAnswerKeepsAccount(r, now, status, filled);
      case CancelTimeout => AccountedFrame(r, EndCancel(r, now, outcome));
      case _ =>
        RevertKeepsAccount(r);
        RevertEndsCall(r);
        AccountedFrame(RevertCancel(r), EndCancel(r, now, outcome));
    }
  }

  lemma RevertEndsCall(r: Record)
    requires r.call.AwaitingCancel? && r.call.index < |r.children|
    ensures RevertCancel(r).call == Idle
  {}

  // ---- lookups ----

  lemma {:induction false} LookupsKeepBookings(r: Record, answers: seq<Lookup>, i: nat)
    requires |answers| == |r.children|
    ensures SameBookings(r, LookupFrom(r, answers, i).0)
    decreases |r.children| - i
  {
    hide TakeReport, StateMachine.SetChildStatus;
    if i < |r.children| {
      if r.children[i].status.IsTerminal() {
        LookupsKeepBookings(r, answers, i + 1);
      } else {
        match answers[i] {
          case NotFound =>
            LookupsKeepBookings(if r.children[i].status == Unknown then SetStatus(r, i, Rejected) else r, answers, i + 1);
          case Found(status, filled) =>
            Idempotence.ReportShape(r, i, status, filled);
            LookupsKeepBookings(TakeReport(r, i, status, filled), answers, i + 1);
          case _ =>
        }
      }
    }
  }

  lemma {:induction false} ResolutionKeepsNames(r: Record, answers: seq<Lookup>, i: nat)
    requires |answers| == |r.children|
    ensures SameBookings(r, ResolveUnknownFrom(r, answers, i).0)
    decreases |r.children| - i
  {
    hide TakeReport, StateMachine.SetChildStatus;
    if i < |r.children| {
      if r.children[i].status != Unknown {
        ResolutionKeepsNames(r, answers, i + 1);
      } else {
        match answers[i] {
          case NotFound => ResolutionKeepsNames(SetStatus(r, i, Rejected), answers, i + 1);
          case Found(status, filled) =>
            Idempotence.ReportShape(r, i, status, filled);
            ResolutionKeepsNames(TakeReport(r, i, status, filled), answers, i + 1);
          case _ =>
        }
      }
    }
  }

  lemma RefreshKeepsAccount(r: Record, now: real, answers: seq<Lookup>)
    requires Accounted(r) && r.call == Idle && |answers| == |r.children|
    ensures Accounted(Refresh(r, now, answers)) && Uncredited(Refresh(r, now, answers)) == Uncredited(r)
    ensures SameTrades(r, Refresh(r, now, answers))
  {
    hide Ledger, Uncredited, LookupFrom, IdsBounded, Refresh;
    LookupsKeepLedger(r, answers, 0);
    LookupsKeepBookings(r, answers, 0);
    var looked := LookupFrom(r, answers, 0).0;
    SameBookingsBounded(r, looked);
    RefreshFrame(r, now, answers);
    AccountedFrame(looked, Refresh(r, now, answers));
  }

  lemma RefreshFrame(r: Record, now: real, answers: seq<Lookup>)
    requires |answers| == |r.children|
    ensures
      var looked, r' := LookupFrom(r, answers, 0).0, Refresh(r, now, answers);
      && r' == looked.(exposure := r'.exposure, status := r'.status, summary := r'.summary, rateLimitedUntil := r'.rateLimitedUntil)
      && r'.exposure.confirmed == looked.exposure.confirmed
  {
    hide LookupFrom, RefreshReserved;
    var looked := LookupFrom(r, answers, 0).0;
    ReservedFrame(looked);
    ReservedFrame(BackOff(looked, now));
  }

  lemma ReservedFrame(r: Record)
    ensures RefreshReserved(r) == r.(exposure := RefreshReserved(r).exposure)
    ensures RefreshReserved(r).exposure.confirmed == r.exposure.confirmed
  {
    hide Recomputed;
    RecomputedKeepsConfirmed(r.children, r.exposure.confirmed);
  }

  lemma RecomputedKeepsConfirmed(children: seq<ChildOrder>, confirmed: nat)
    ensures Recomputed(children, confirmed).confirmed == confirmed
  {}

  // ---- deliveries ----

  lemma {:induction false} RowsKeepBookings(r: Record, rows: seq<ChildOrder>)
    ensures SameBookings(r, ApplyRows(r, rows))
  {
    hide TakeReport;
    if rows != [] {
      var n := |rows| - 1;
      RowsKeepBookings(r, rows[..n]);
      var r1 := ApplyRows(r, rows[..n]);
      var k := IndexOf(r1.children, rows[n].id);
      if k.Some? {
        Idempotence.ReportShape(r1, k.value, rows[n].status, rows[n].confirmed);
      }
    }
  }

  lemma AdoptionStaysBounded(r: Record, rows: seq<ChildOrder>, clients: set<nat>)
    requires IdsBounded(r.children, r.lastSequence) && OwnRows(r, rows)
    ensures IdsBounded(AdoptRows(r, rows, clients).children, r.lastSequence)
  {
    var adopted := AdoptRows(r, rows, clients);
    forall i: nat | i < |adopted.children| ensures IdAt(adopted.children, r.lastSequence, i) {
      var id := adopted.children[i].id;
      assert HasId(adopted.children, id);
      AdoptedIds(r, rows, clients, id);
      if HasId(r.children, id) {
        var j: nat :| j < |r.children| && r.children[j].id == id;
        assert IdAt(r.children, r.lastSequence, j);
      }
    }
  }

  lemma EvidenceBooks(r: Record, adopted: Record, filled: Record, result: ReconciliationResult)
    requires Counted(r) && adopted == r.(children := adopted.children)
    requires filled == ApplyFills(adopted, result.orders, Sort(result.fills, FillLe))
    requires SameTrades(filled, ApplyRows(filled, result.orders))
    ensures Counted(ApplyRows(filled, result.orders)) && BookedFrom(r, ApplyRows(filled, result.orders), result.fills)
  {
    hide ApplyFills, ApplyRows, BookedFrom, Counted, Sort, FillLe;
    var sorted := Sort(result.fills, FillLe);
    Idempotence.FillOrderIsTotal();
    SortMembers(result.fills, FillLe);
    SameTradesBookNothing(r, adopted, []);
    FillsBook(adopted, result.orders, sorted);
    SameTradesBookNothing(filled, ApplyRows(filled, result.orders), []);
    BookedFromMore(r, adopted, filled, [], sorted, result.fills);
    BookedFromMore(r, filled, ApplyRows(filled, result.orders), result.fills, [], result.fills);
  }

  lemma EvidenceKeepsAccount(r: Record, result: ReconciliationResult)
    requires Accounted(r) && r.call == Idle && OwnRows(r, result.orders)
    ensures Accounted(ApplyEvidence(r, result)) && ApplyEvidence(r, result).call == Idle
    ensures Uncredited(ApplyEvidence(r, result))
            == Uncredited(r) + AdoptedUncredited(r, result.orders, ClientsOfFills(result.fills))
    ensures BookedFrom(r, ApplyEvidence(r, result), result.fills)
  {
    hide LedgerWith, AdoptRows, ApplyFills, ApplyRows, Sum, IdsBounded, OwnRows, ClientsOfFills, ChildrenGrew, Sort, BookedFrom, Counted;
    EvidenceKeepsLedger(r, result);
    var clients, sorted := ClientsOfFills(result.fills), Sort(result.fills, FillLe);
    AdoptKeepsLedger(r, result.orders, clients);
    AdoptionStaysBounded(r, result.orders, clients);
    var adopted := AdoptRows(r, result.orders, clients);
    MoreRows(adopted, result.orders);
    FillsKeepLedger(adopted, result.orders, sorted);
    var filled := ApplyFills(adopted, result.orders, sorted);
    Idempotence.GrewSameIds(adopted.children, filled.children);
    RowsKeepBookings(filled, result.orders);
    EvidenceBooks(r, adopted, filled, result);
    SameBookingsBounded(adopted, filled);
    SameBookingsBounded(filled, ApplyRows(filled, result.orders));
  }

  lemma WarningKeepsAccount(r: Record, result: ReconciliationResult)
    requires Accounted(r) && r.call == Idle
    ensures
      var r' := RefreshReserved(ApplyWarning(r, result));
      Accounted(r') && Uncredited(r') == Uncredited(r) && SameTrades(r, r')
  {
    hide Ledger, Uncredited, RejectMissingFrom, IdsBounded, ClientsOfOrders, Recomputed;
    WarningKeepsLedger(r, result);
    Idempotence.RejectMissingShape(r, ClientsOfOrders(result.orders), 0);
    var warned := ApplyWarning(r, result);
    SameBookingsBounded(r, warned);
    RecomputedKeepsConfirmed(warned.children, warned.exposure.confirmed);
    AccountedFrame(warned, RefreshReserved(warned));
  }

  lemma DeliveryKeepsAccount(r: Record, result: ReconciliationResult)
    requires Accounted(r) && r.call == Idle && OwnRows(r, result.orders)
    ensures Accounted(ApplyResult(r, result))
    ensures Uncredited(ApplyResult(r, result)) == Uncredited(r) + AdoptedUncredited(r, result.orders, ClientsOfFills(result.fills))
    ensures BookedFrom(r, ApplyResult(r, result), result.fills)
  {
    hide Accounted, Uncredited, ApplyEvidence, ApplyWarning, RefreshReserved, AdoptedUncredited, OwnRows, BookedFrom;
    EvidenceKeepsAccount(r, result);
    WarningKeepsAccount(ApplyEvidence(r, result), result);
    LaterBooksNothing(r, ApplyEvidence(r, result), ApplyResult(r, result), result.fills);
  }

  lemma LaterBooksNothing(a: Record, b: Record, c: Record, fills: seq<Fill>)
    requires BookedFrom(a, b, fills) && SameTrades(b, c)
    ensures BookedFrom(a, c, fills)
  {}

  /** The public call that applies a result, with what follows for the parent. */
  lemma DeliverKeepsAccount(cfg: Config, r: Record, result: ReconciliationResult)
    requires Accounted(r) && r.call == Idle && OwnRows(r, result.orders)
    ensures Accounted(ApplyResult(r, result)) && Accounted(Idempotence.Deliver(cfg, r, result))
  {
    hide Accounted, Uncredited, ApplyResult, AdoptedUncredited, OwnRows;
    DeliveryKeepsAccount(r, result);
    QuietStepKeepsAccount(ApplyResult(r, result), Idempotence.Deliver(cfg, r, result));
  }

  lemma ResolutionKeepsAccount(r: Record, answers: seq<Lookup>)
    requires Accounted(r) && r.call == Idle && |answers| == |r.children|
    ensures
      var r' := ResolveUnknownFrom(r, answers, 0).0;
      Accounted(r') && r'.call == Idle && Uncredited(r') == Uncredited(r) && SameTrades(r, r')
  {
    hide Ledger, Uncredited, ResolveUnknownFrom, IdsBounded;
    ResolutionKeepsLedger(r, answers, 0);
    ResolutionKeepsNames(r, answers, 0);
    SameBookingsBounded(r, ResolveUnknownFrom(r, answers, 0).0);
  }

  lemma ExactDeliveryKeepsAccount(r: Record, now: real, result: ReconciliationResult, answers: seq<Lookup>)
    requires Accounted(r) && r.call == Idle && OwnRows(r, result.orders)
    requires |answers| == |ApplyEvidence(r, result).children|
    ensures
      var r' := ApplyResultExact(r, now, result, answers);
      && Accounted(r')
      && Uncredited(r') == Uncredited(r) + AdoptedUncredited(r, result.orders, ClientsOfFills(result.fills))
      && BookedFrom(r, r', result.fills)
  {
    hide BookedFrom, Counted, Ledger, IdsBounded, Uncredited, ApplyEvidence, ApplyWarning, RefreshReserved, AdoptedUncredited, OwnRows, ResolveUnknownFrom;
    EvidenceKeepsAccount(r, result);
    ResolutionKeepsAccount(ApplyEvidence(r, result), answers);
    var (resolved, halt) := ResolveUnknownFrom(ApplyEvidence(r, result), answers, 0);
    var stopped := if halt == HaltBanned then Fail(resolved) else if halt == HaltLimited then BackOff(resolved, now) else resolved;
    AccountedFrame(resolved, stopped);
    WarningKeepsAccount(stopped, result);
    LaterBooksNothing(r, ApplyEvidence(r, result), ApplyResultExact(r, now, result, answers), result.fills);
  }

  // ---- whole runs ----

  lemma LedgerStepKeepsAccount(cfg: Config, w: World, e: Event, w': World)
    requires Accounted(w.rec) && LedgerStep(cfg, w, e, w')
    ensures Accounted(w'.rec) && Uncredited(w'.rec) == Uncredited(w.rec) + Missed(w.rec, e)
    ensures BookedFrom(w.rec, w'.rec, FillsOf(e))
  {
    hide BookedFrom, Accounted, Uncredited, BeginSubmit, EndSubmit, BeginCancel, EndCancel, Refresh, ApplyResult, ApplyResultExact, ApplyEvidence,
         AdoptedUncredited, OwnRows, OpensAttempt;
    match e {
      case SubmitBegins(quantity, price, postOnly, bid, ask) => BeginKeepsAccount(w.rec, w.now, quantity, price, postOnly, bid, ask);
      case SubmitEnds(outcome) => EndKeepsAccount(cfg, w.rec, w.now, outcome);
      case CancelBegins(i) => CancelBeginKeepsAccount(w.rec, i);
      case CancelEnds(outcome) => CancelEndKeepsAccount(w.rec, w.now, outcome);
      case Refreshes(answers) => RefreshKeepsAccount(w.rec, w.now, answers);
      case Delivers(result) => DeliveryKeepsAccount(w.rec, result);
      case DeliversExact(result, answers) => ExactDeliveryKeepsAccount(w.rec, w.now, result, answers);
      case _ => QuietStepKeepsAccount(w.rec, w'.rec);
    }
    if !e.Delivers? && !e.DeliversExact? { SameTradesBookNothing(w.rec, w'.rec, FillsOf(e)); }
  }

  lemma QuietStepKeepsAccount(r: Record, r': Record)
    requires Accounted(r)
    requires r' == r.(status := r'.status, summary := r'.summary, cancelRequested := r'.cancelRequested, attemptOpen := r'.attemptOpen,
                      openings := r'.openings, rateLimitedUntil := r'.rateLimitedUntil)
    ensures Accounted(r') && Uncredited(r') == Uncredited(r) && SameTrades(r, r')
  {
    hide Ledger, IdsBounded;
    LedgerFrame(r, r');
  }

  lemma InitiallyAccounted()
    ensures Accounted(InitialRecord()) && Uncredited(InitialRecord()) == 0
  {
    hide Ledger, Uncredited;
    InitialLedger();
  }

  /** Every order that event `k` adopts with a confirmed quantity comes with a fill. */
  ghost predicate CreditedAt(run: Run, k: nat)
    requires k < |run.events| && k < |run.worlds|
  {
    match run.events[k]
    case Delivers(result) => EveryAdoptionIsCredited(run.worlds[k].rec, result)
    case DeliversExact(result, _) => EveryAdoptionIsCredited(run.worlds[k].rec, result)
    case _ => true
  }

  lemma MissedNothing(run: Run, k: nat)
    requires k < |run.events| && k < |run.worlds|
    ensures Missed(run.worlds[k].rec, run.events[k]) >= 0
    ensures Missed(run.worlds[k].rec, run.events[k]) == 0 <==> CreditedAt(run, k)
  {
    hide AdoptedUncredited, CreditedRow, ClientsOfFills;
    match run.events[k] {
      case Delivers(result) => AdoptionsMissNothing(run.worlds[k].rec, result);
      case DeliversExact(result, _) => AdoptionsMissNothing(run.worlds[k].rec, result);
      case _ =>
    }
  }

  lemma AdoptionsMissNothing(r: Record, result: ReconciliationResult)
    ensures AdoptedUncredited(r, result.orders, ClientsOfFills(result.fills)) >= 0
    ensures AdoptedUncredited(r, result.orders, ClientsOfFills(result.fills)) == 0 <==> EveryAdoptionIsCredited(r, result)
  {
    hide AdoptedUncredited, CreditedRow, ClientsOfFills;
    AdoptedUncreditedIff(r, result, |result.orders|);
    assert result.orders[..|result.orders|] == result.orders;
  }

  lemma {:induction false} LedgerRunsAccount(cfg: Config, run: Run, i: nat)
    requires IsLedgerRun(cfg, run) && i < |run.worlds|
    ensures Accounted(run.worlds[i].rec) && Uncredited(run.worlds[i].rec) >= 0
    ensures Uncredited(run.worlds[i].rec) == 0 <==> forall k: nat :: k < i ==> CreditedAt(run, k)
    ensures AllHeard(run, i)
  {
    hide Accounted, Uncredited, LedgerStep, CreditedAt, Missed, BookedFrom, AllHeard;
    if i == 0 {
      InitiallyAccounted();
      NothingHeard(run);
    } else {
      LedgerRunsAccount(cfg, run, i - 1);
      assert LedgerStepAt(cfg, run, i - 1);
      LedgerStepKeepsAccount(cfg, run.worlds[i - 1], run.events[i - 1], run.worlds[i]);
      MissedNothing(run, i - 1);
      HeardOneMore(run, i - 1);
    }
  }

  /** Some event before moment `i` delivered the fill that booked trade `e`. */
  ghost predicate HeardNamed(run: Run, i: nat, e: TradeEntry)
    requires i <= |run.events|
  {
    exists k: nat :: k < i && NamedAmong(e, FillsOf(run.events[k]))
  }

  ghost predicate HeardUnnamed(run: Run, i: nat, e: TradeEntry)
    requires i <= |run.events|
  {
    exists k: nat :: k < i && UnnamedAmong(e, FillsOf(run.events[k]))
  }

  ghost predicate AllHeard(run: Run, i: nat)
    requires i <= |run.events| && i < |run.worlds|
  {
    && (forall e :: e in run.worlds[i].rec.trades ==> HeardNamed(run, i, e))
    && (forall e :: e in run.worlds[i].rec.anonymous ==> HeardUnnamed(run, i, e))
  }

  lemma NothingHeard(run: Run)
    requires |run.worlds| > 0 && run.worlds[0].rec == InitialRecord()
    ensures AllHeard(run, 0)
  {}

  lemma HeardOneMore(run: Run, i: nat)
    requires i < |run.events| && i + 1 < |run.worlds| && AllHeard(run, i)
    requires BookedFrom(run.worlds[i].rec, run.worlds[i + 1].rec, FillsOf(run.events[i]))
    ensures AllHeard(run, i + 1)
  {
    hide NamedAmong, UnnamedAmong;
    var n, r := i + 1, run.worlds[i + 1].rec;
    forall e | e in r.trades ensures HeardNamed(run, n, e) {
      if e in run.worlds[i].rec.trades {
        assert HeardNamed(run, i, e);
        var k: nat :| k < i && NamedAmong(e, FillsOf(run.events[k]));
      }
    }
    forall e | e in r.anonymous ensures HeardUnnamed(run, n, e) {
      if e in run.worlds[i].rec.anonymous {
        assert HeardUnnamed(run, i, e);
        var k: nat :| k < i && UnnamedAmong(e, FillsOf(run.events[k]));
      }
    }
  }

  /** Whatever is delivered, in any order and any number of times - anonymous fills, fills that
      contradict each other, fills relocated by the fallback, stale rows - at every moment of every
      run each child's booked intervals are non-empty, disjoint and inside what it has confirmed;
      the quantities behind the reported average price add up to the children's confirmed
      quantities, and maker and taker fills are part of them. The tracker never has more, and it
      has the same exactly when every order adopted so far was credited. */
  lemma FillLedgerAddsUp(cfg: Config, run: Run, i: nat, k: nat)
    requires IsLedgerRun(cfg, run) && i < |run.worlds|
    ensures
      var r := run.worlds[i].rec;
      && Quantity(SummaryInputs(r)) == Sum(r.children, ConfirmedOf) >= r.exposure.confirmed
      && r.maker >= 0 && r.taker >= 0 && r.maker + r.taker <= Quantity(SummaryInputs(r))
      && r.fillInputs == RebuiltInputs(r.trades, r.anonymous)
      && r.trackerSeen <= r.seen && TradesOnce(r.trades, r.seen)
      && (Quantity(SummaryInputs(r)) == r.exposure.confirmed <==> forall j: nat :: j < i ==> CreditedAt(run, j))
      && (k < |r.children| ==> Ledgered(IntervalsOf(r.intervals, r.children[k].id), r.children[k].confirmed))
  {
    hide IsLedgerRun, SummaryInputs, Ledgered, Sum, TradesOnce, DistinctIds, OnlyChildren, CreditedAt, RebuiltInputs;
    LedgerRunsAccount(cfg, run, i) by { LedgerRunLength(cfg, run); }
    var r := run.worlds[i].rec;
    SummaryQuantityIsConserved(r);
    assert k < |r.children| ==> BookedAt(r.children, r.intervals, [], k);
  }

  /** At every moment the maker total is the sum of the accepted quantities whose fill said maker,
      the taker total the same for taker, and a fill that says neither counts in neither; every
      accepted trade is what a delivered fill says, under its own trade id; and the duplicates are
      counted once each. */
  lemma SidesAddUp(cfg: Config, run: Run, i: nat)
    requires IsLedgerRun(cfg, run) && i < |run.worlds|
    ensures
      var r := run.worlds[i].rec;
      && i <= |run.events|
      && r.maker == SideQuantity(r.trades, true) + SideQuantity(r.anonymous, true)
      && r.taker == SideQuantity(r.trades, false) + SideQuantity(r.anonymous, false)
      && (forall e :: e in r.trades ==> HeardNamed(run, i, e))
      && (forall e :: e in r.anonymous ==> HeardUnnamed(run, i, e))
      && r.duplicates == |r.ignored| && r.ignored <= r.seen
  {
    hide IsLedgerRun, SideQuantity, Sum, TradesOnce, DistinctIds, OnlyChildren, Booked, CreditedAt, RebuiltInputs, HeardNamed, HeardUnnamed;
    LedgerRunLength(cfg, run);
    LedgerRunsAccount(cfg, run, i);
  }

  /** At every moment the reported inputs are worth the accepted trades at their own prices and,
      child by child, what no trade is booked for at the child's limit price; the reported average
      is that worth over the confirmed quantity, and lies between the input prices. */
  lemma PricesAddUp(cfg: Config, run: Run, i: nat, lo: int, hi: int)
    requires IsLedgerRun(cfg, run) && i < |run.worlds|
    ensures
      var r := run.worlds[i].rec;
      var worth := EntryNotional(r.trades) + EntryNotional(r.anonymous) + UncoveredNotional(r.children, r.intervals);
      && Notional(SummaryInputs(r)) == worth
      && (Sum(r.children, ConfirmedOf) > 0 ==> Vwap(SummaryInputs(r)) * Sum(r.children, ConfirmedOf) as real == worth as real)
      && (PricesWithin(SummaryInputs(r), lo, hi) && SummaryInputs(r) != [] ==> lo as real <= Vwap(SummaryInputs(r)) <= hi as real)
  {
    hide IsLedgerRun, Ledger, Sum, CreditedAt, AllHeard, SummaryInputs, EntryNotional, UncoveredNotional, Notional, Vwap, PricesWithin;
    LedgerRunsAccount(cfg, run, i) by { LedgerRunLength(cfg, run); }
    var r := run.worlds[i].rec;
    SummaryNotional(r);
    if Sum(r.children, ConfirmedOf) > 0 { SummaryVwap(r); }
    if PricesWithin(SummaryInputs(r), lo, hi) && SummaryInputs(r) != [] {
      SummaryPositive(r);
      VwapIsMean(SummaryInputs(r), lo, hi);
    }
  }

  lemma LedgerRunLength(cfg: Config, run: Run)
    requires IsLedgerRun(cfg, run)
    ensures |run.worlds| == |run.events| + 1
  {}

  // ---- a fill whose cumulative quantity starts over ----

  /** The rows give a fill as its limit the largest quantity they confirm for its order. */
  lemma {:induction false} RowConfirmedIsLargest(rows: seq<ChildOrder>, id: nat)
    ensures forall k :: 0 <= k < |rows| && rows[k].id == id ==> rows[k].confirmed <= RowConfirmed(rows, id)
    ensures RowConfirmed(rows, id) == 0
            || exists k :: 0 <= k < |rows| && rows[k].id == id && rows[k].confirmed == RowConfirmed(rows, id)
  {
    if rows != [] {
      var n := |rows| - 1;
      var row := rows[n];
      RowConfirmedIsLargest(rows[..n], id);
      if row.id == id && row.confirmed > RowConfirmed(rows[..n], id) {
        assert rows[n].id == id && rows[n].confirmed == RowConfirmed(rows, id);
      } else if RowConfirmed(rows[..n], id) != 0 {
        var k :| 0 <= k < n && rows[..n][k].id == id && rows[..n][k].confirmed == RowConfirmed(rows[..n], id);
        assert rows[k].id == id && rows[k].confirmed == RowConfirmed(rows, id);
      }
    }
  }

  /** A fill that claims to start at zero, where something is booked already, goes to the first
      uncovered unit `p` when that place is free and inside the limit. */
  lemma RelocatedInterval(c: ChildOrder, ivs: seq<Interval>, t: TradeDetails, d: nat, p: nat)
    requires t.tradeId.Some? && t.delta == d > 0
    requires FillIntervalOverlaps(0, d, ivs) && !FillIntervalOverlaps(p, p + d, ivs)
    requires (forall x :: 0 <= x < p ==> Covers(ivs, x)) && !Covers(ivs, p)
    requires p + d <= t.limit
    ensures AcceptedInterval(c, ivs, d, t) == Some(Interval(p, p + d))
  {
    hide PrefixEnd, FillIntervalOverlaps, Covers;
    PrefixEndIsFirstUncovered(ivs, p);
    assert p > 0;
  }

  lemma RelocatedFillApplied(r: Record, rows: seq<ChildOrder>, f: Fill, j: nat, p: nat)
    requires f.tradeId.Some? && f.tradeId.value !in r.seen && f.cumulative == f.last > 0
    requires IndexOf(r.children, f.client).Some?
    requires j < |rows| && rows[j].id == f.client && rows[j].confirmed >= p + f.last
    requires
      var ivs := IntervalsOf(r.intervals, f.client);
      && FillIntervalOverlaps(0, f.last, ivs) && !FillIntervalOverlaps(p, p + f.last, ivs)
      && (forall x :: 0 <= x < p ==> Covers(ivs, x)) && !Covers(ivs, p)
    ensures
      var r' := ApplyFill(r, rows, f);
      && IntervalsOf(r'.intervals, f.client) == IntervalsOf(r.intervals, f.client) + [Interval(p, p + f.last)]
      && r'.trades == r.trades + [TradeEntry(f.tradeId.value, f.price, f.last, OrZero(f.eventTime), OrZero(f.transactionTime), f.isMaker)]
  {
    hide AcceptedInterval, RowConfirmed, FillIntervalOverlaps, Covers, RebuiltInputs;
    var i := IndexOf(r.children, f.client).value;
    var ivs := IntervalsOf(r.intervals, f.client);
    RowConfirmedIsLargest(rows, f.client);
    var t := DetailsOf(f, Max(Max(r.children[i].confirmed, RowConfirmed(rows, f.client)), f.cumulative));
    RelocatedInterval(r.children[i], ivs, t, f.last, p);
    RaiseKeepsTrades(r, i, f.cumulative, f.tradeId);
    Idempotence.IntervalsOfRaised(r, i, f.cumulative, f.tradeId);
    Idempotence.IntervalsOfBooked(RaiseConfirmed(r, i, f.cumulative, f.tradeId), f.client, Interval(p, p + f.last), t);
  }

  /** What was booked and priced stays so for the rest of a result. */
  lemma BookedStays(r: Record, rows: seq<ChildOrder>, fills: seq<Fill>, result: ReconciliationResult)
    ensures
      var r' := RefreshReserved(ApplyWarning(ApplyRows(ApplyFills(r, rows, fills), rows), result));
      && r.trades <= r'.trades && forall id :: IntervalsOf(r.intervals, id) <= IntervalsOf(r'.intervals, id)
  {
    hide ApplyFills, ApplyRows, RejectMissingFrom, IntervalsOf, Recomputed, ClientsOfOrders;
    var filled := ApplyFills(r, rows, fills);
    FillsBook(r, rows, fills);
    Idempotence.FillsBecomeAbsorbed(r, rows, fills);
    RowsKeepBookings(filled, rows);
    Idempotence.RejectMissingShape(ApplyRows(filled, rows), ClientsOfOrders(result.orders), 0);
  }

  lemma {:induction false} ApplyFillsSplit(r: Record, rows: seq<ChildOrder>, fills: seq<Fill>, k: nat)
    requires k <= |fills|
    ensures ApplyFills(r, rows, fills) == ApplyFills(ApplyFills(r, rows, fills[..k]), rows, fills[k..])
    decreases |fills|
  {
    hide ApplyFill;
    if k == |fills| {
      assert fills[..k] == fills && fills[k..] == [];
    } else {
      var n := |fills| - 1;
      ApplyFillsSplit(r, rows, fills[..n], k);
      assert fills[..n][..k] == fills[..k] && fills[..n][k..] == fills[k..][..n - k];
      assert fills[k..][|fills[k..]| - 1] == fills[n];
    }
  }

  /** An unseen named fill whose cumulative quantity is only its own (a window that started late),
      delivered with a row that confirms enough, is booked behind what is covered already, at its own
      price and side. Here it is fill `k` of the result in key order, and `row` vouches for it. */
  lemma RelocatedFillIsBooked(r: Record, result: ReconciliationResult, k: nat, row: nat, p: nat)
    requires Ledger(r) && k < |Sort(result.fills, FillLe)| && row < |result.orders|
    requires
      var (rows, sorted) := (result.orders, Sort(result.fills, FillLe));
      var (before, f) := (ApplyFills(AdoptRows(r, rows, ClientsOfFills(result.fills)), rows, sorted[..k]), sorted[k]);
      var ivs := IntervalsOf(before.intervals, f.client);
      && IndexOf(before.children, f.client).Some?
      && f.tradeId.Some? && f.tradeId.value !in before.seen && f.cumulative == f.last > 0
      && rows[row].id == f.client && rows[row].confirmed >= p + f.last
      && FillIntervalOverlaps(0, f.last, ivs) && !FillIntervalOverlaps(p, p + f.last, ivs)
      && (forall x :: 0 <= x < p ==> Covers(ivs, x)) && !Covers(ivs, p)
    ensures
      var (r', f) := (ApplyResult(r, result), Sort(result.fills, FillLe)[k]);
      && Interval(p, p + f.last) in IntervalsOf(r'.intervals, f.client)
      && TradeEntry(f.tradeId.value, f.price, f.last, OrZero(f.eventTime), OrZero(f.transactionTime), f.isMaker) in r'.trades
      && PriceQuantity(f.price, f.last) in r'.fillInputs
  {
    hide ApplyFills, ApplyRows, ApplyFill, AdoptRows, FillIntervalOverlaps, Covers, Sort, FillLe, RefreshReserved, ApplyWarning, ClientsOfFills,
         LedgerWith, AdoptedUncredited, Uncredited, IntervalsOf;
    var rows, sorted := result.orders, Sort(result.fills, FillLe);
    var adopted := AdoptRows(r, rows, ClientsOfFills(result.fills));
    var before, f := ApplyFills(adopted, rows, sorted[..k]), sorted[k];
    RelocatedFillApplied(before, rows, f, row, p);
    var after := ApplyFill(before, rows, f);
    assert sorted[..k + 1][..k] == sorted[..k] && sorted[..k + 1][k] == f;
    assert ApplyFills(adopted, rows, sorted[..k + 1]) == after by { OneMoreFill(adopted, rows, sorted[..k + 1]); }
    ApplyFillsSplit(adopted, rows, sorted, k + 1);
    BookedStays(after, rows, sorted[k + 1..], result);
    ReconciliationKeepsLedger(r, result);
    var r' := ApplyResult(r, result);
    var e := TradeEntry(f.tradeId.value, f.price, f.last, OrZero(f.eventTime), OrZero(f.transactionTime), f.isMaker);
    LastStays(before.trades, e, r'.trades);
    LastStays(IntervalsOf(before.intervals, f.client), Interval(p, p + f.last), IntervalsOf(r'.intervals, f.client));
    BookedIsPriced(r', e);
  }

  lemma OneMoreFill(r: Record, rows: seq<ChildOrder>, fills: seq<Fill>)
    requires fills != []
    ensures ApplyFills(r, rows, fills) == ApplyFill(ApplyFills(r, rows, fills[..|fills| - 1]), rows, fills[|fills| - 1])
  {
    hide ApplyFill;
  }

  lemma LastStays<T>(a: seq<T>, x: T, b: seq<T>)
    requires a + [x] <= b
    ensures x in b
  {
    assert (a + [x])[|a|] == x;
    assert b[|a|] == x;
  }

  /** Every accepted trade is among the price inputs. */
  lemma BookedIsPriced(r: Record, e: TradeEntry)
    requires Ledger(r) && e in r.trades
    ensures e.Pair() in r.fillInputs
  {
    hide Booked, OnlyChildren, TradesOnce, DistinctIds, LedgerLength, Quantity, Sort, EntryLe, SideQuantity;
    EntriesAreOrdered();
    SortMembers(r.trades, EntryLe);
    PairIn(Sort(r.trades, EntryLe), e);
  }

  lemma {:induction false} PairIn(entries: seq<TradeEntry>, e: TradeEntry)
    requires e in entries
    ensures e.Pair() in Pairs(entries)
  {
    var n := |entries| - 1;
    if entries[n] != e { PairIn(entries[..n], e); }
  }

  // ---- protocol runs are ledger runs ----

  ghost predicate KnownRowsAt(run: Run, k: nat)
    requires k < |run.events| && k < |run.worlds|
  {
    match run.events[k]
    case Delivers(result) => Idempotence.RowsKnown(run.worlds[k].rec.children, result.orders)
    case DeliversExact(result, _) => Idempotence.RowsKnown(run.worlds[k].rec.children, result.orders)
    case _ => true
  }

  lemma KnownRowsAreCredited(run: Run, k: nat)
    requires k < |run.events| && k < |run.worlds| && KnownRowsAt(run, k)
    ensures CreditedAt(run, k)
  {
    match run.events[k] {
      case Delivers(result) => KnownIsCredited(run.worlds[k].rec, result);
      case DeliversExact(result, _) => KnownIsCredited(run.worlds[k].rec, result);
      case _ =>
    }
  }

  lemma KnownIsCredited(r: Record, result: ReconciliationResult)
    requires Idempotence.RowsKnown(r.children, result.orders)
    ensures EveryAdoptionIsCredited(r, result)
  {
    forall k | 0 <= k < |result.orders| ensures CreditedRow(r, result, k) {
      KnownById(r.children, result.orders[k].id);
    }
  }

  /** When every row names a child already on record, the tracker has it all. */
  lemma KnownRowsAddUp(cfg: Config, run: Run, i: nat)
    requires IsLedgerRun(cfg, run) && i < |run.worlds|
    requires forall k: nat :: k < i && k < |run.events| ==> KnownRowsAt(run, k)
    ensures
      var r := run.worlds[i].rec;
      Quantity(SummaryInputs(r)) == r.exposure.confirmed && r.maker + r.taker <= r.exposure.confirmed
  {
    hide IsLedgerRun, SummaryInputs, Ledgered, Sum, CreditedAt, KnownRowsAt, TradesOnce, RebuiltInputs;
    LedgerRunLength(cfg, run);
    forall k: nat | k < i ensures CreditedAt(run, k) {
      KnownRowsAreCredited(run, k);
    }
    FillLedgerAddsUp(cfg, run, i, 0);
  }

  lemma EvidenceRowsKnown(cfg: Config, w: World, result: ReconciliationResult)
    requires Inv(cfg, w) && ResultOk(w.venue, result)
    ensures Idempotence.RowsKnown(w.rec.children, result.orders) && OwnRows(w.rec, result.orders)
  {
    hide BooksOk, CapOk, SingleOk, Coupled, LedgerView, VenueOk;
    forall k | 0 <= k < |result.orders|
      ensures HasId(w.rec.children, result.orders[k].id) && result.orders[k].id <= w.rec.lastSequence
    {
      assert RowOk(w.venue, result.orders[k]);
      var i: nat :| i < |w.rec.children| && w.rec.children[i].id == result.orders[k].id;
      assert IdAt(w.rec.children, w.rec.lastSequence, i);
    }
  }

  lemma StepIsLedgerStep(cfg: Config, w: World, e: Event, w': World)
    requires Inv(cfg, w) && Step(cfg, w, e, w')
    ensures LedgerStep(cfg, w, e, w')
  {
    hide Inv, BeginSubmit, EndSubmit, BeginCancel, EndCancel, Refresh, ApplyResult, ApplyResultExact, ApplyEvidence,
         OwnRows, OpensAttempt, Evolves, ResultOk, WarningOk, ListsAll, DemandOk, GateOpen, MayStop, SubmitOutcomeOk, CancelOutcomeOk;
    match e {
      case Refreshes(answers) => AnswersLength(w.venue, w.rec.children, answers);
      case Delivers(result) => EvidenceRowsKnown(cfg, w, result);
      case DeliversExact(result, answers) => EvidenceRowsKnown(cfg, w, result);
      case _ =>
    }
  }

  lemma StepKnowsRows(cfg: Config, run: Run, k: nat)
    requires cfg.Valid() && k < |run.events| && |run.worlds| == |run.events| + 1
    requires Inv(cfg, run.worlds[k]) && StepAt(cfg, run, k)
    ensures KnownRowsAt(run, k)
  {
    hide Inv, ApplyResult, ApplyResultExact, ApplyEvidence, ResultOk, WarningOk, ListsAll;
    match run.events[k] {
      case Delivers(result) => EvidenceRowsKnown(cfg, run.worlds[k], result);
      case DeliversExact(result, answers) => EvidenceRowsKnown(cfg, run.worlds[k], result);
      case _ =>
    }
  }

  /** With a venue behind it every run is such a run, and no order is ever adopted. */
  lemma RunsAddUp(cfg: Config, run: Run, i: nat)
    requires IsRun(cfg, run) && i < |run.worlds|
    ensures IsLedgerRun(cfg, run)
    ensures
      var r := run.worlds[i].rec;
      Quantity(SummaryInputs(r)) == r.exposure.confirmed && r.maker + r.taker <= r.exposure.confirmed
  {
    hide Inv, Step, LedgerStep, SummaryInputs, KnownRowsAt, StepAt;
    forall k: nat | k < |run.events| ensures LedgerStepAt(cfg, run, k) && KnownRowsAt(run, k) {
      RunsAreSafe(cfg, run, k);
      assert StepAt(cfg, run, k);
      StepAtIsLedgerStep(cfg, run, k);
      StepKnowsRows(cfg, run, k);
    }
    KnownRowsAddUp(cfg, run, i);
  }

  lemma StepAtIsLedgerStep(cfg: Config, run: Run, k: nat)
    requires cfg.Valid() && k < |run.events| && |run.worlds| == |run.events| + 1
    requires Inv(cfg, run.worlds[k]) && StepAt(cfg, run, k)
    ensures LedgerStepAt(cfg, run, k)
  {
    hide Inv, Step, LedgerStep;
    StepIsLedgerStep(cfg, run.worlds[k], run.events[k], run.worlds[k + 1]);
  }
  /** So its ledger is in order at every moment. */
  lemma RunsAreAccounted(cfg: Config, run: Run, i: nat)
    requires IsRun(cfg, run) && i < |run.worlds|
    ensures Accounted(run.worlds[i].rec)
  {
    hide IsRun, IsLedgerRun, Accounted, CreditedAt, AllHeard;
    RunsAddUp(cfg, run, i);
    LedgerRunsAccount(cfg, run, i) by { LedgerRunLength(cfg, run); }
  }
}
