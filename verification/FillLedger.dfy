/** What every sequence of fills and order rows, however duplicated, stale or out of order,
    keeps true of the fill ledger, and what a reconciliation result adds to it. */
module FillLedger {
  import opened Models
  import opened StateMachine
  import opened Intervals
  import opened Sorting
  import opened Records

  // ---- the invariant ----

  /** The lengths of all intervals booked for the children. */
  ghost function LedgerLength(children: seq<ChildOrder>, intervals: map<nat, seq<Interval>>): int {
    if children == [] then 0
    else LedgerLength(children[..|children| - 1], intervals)
         + TotalLength(IntervalsOf(intervals, children[|children| - 1].id))
  }

  /** The quantity a child has confirmed or will have confirmed once `rows` are applied. */
  ghost function Limit(c: ChildOrder, rows: seq<ChildOrder>): nat {
    if RowConfirmed(rows, c.id) > c.confirmed then RowConfirmed(rows, c.id) else c.confirmed
  }

  predicate HasId(children: seq<ChildOrder>, id: nat) {
    exists i :: 0 <= i < |children| && children[i].id == id
  }

  /** Every child's intervals are non-empty, disjoint and inside its limit. */
  ghost predicate Booked(children: seq<ChildOrder>, intervals: map<nat, seq<Interval>>, rows: seq<ChildOrder>) {
    forall i: nat :: i < |children| ==> BookedAt(children, intervals, rows, i)
  }

  ghost predicate BookedAt(children: seq<ChildOrder>, intervals: map<nat, seq<Interval>>, rows: seq<ChildOrder>, i: nat)
    requires i < |children|
  {
    Ledgered(IntervalsOf(intervals, children[i].id), Limit(children[i], rows))
  }

  ghost predicate OnlyChildren(children: seq<ChildOrder>, intervals: map<nat, seq<Interval>>) {
    forall id :: IntervalsOf(intervals, id) != [] ==> HasId(children, id)
  }

  ghost predicate TradesOnce(trades: seq<TradeEntry>, seen: set<nat>) {
    && (forall k: nat :: k < |trades| ==> TradeSeen(trades, seen, k))
    && (forall j: nat, k: nat :: j < k < |trades| ==> TradesDiffer(trades, j, k))
  }

  ghost predicate TradeSeen(trades: seq<TradeEntry>, seen: set<nat>, k: nat)
    requires k < |trades|
  {
    trades[k].id in seen
  }

  ghost predicate TradesDiffer(trades: seq<TradeEntry>, j: nat, k: nat)
    requires j < |trades| && k < |trades|
  {
    trades[j].id != trades[k].id
  }

  lemma NewTradeOnce(trades: seq<TradeEntry>, seen: set<nat>, e: TradeEntry)
    requires TradesOnce(trades, seen) && e.id !in seen
    ensures TradesOnce(trades + [e], seen + {e.id})
  {
    var all := trades + [e];
    forall k: nat | k < |all| ensures TradeSeen(all, seen + {e.id}, k) {
      if k < |trades| { assert TradeSeen(trades, seen, k); }
    }
    forall j: nat, k: nat | j < k < |all| ensures TradesDiffer(all, j, k) {
      assert TradeSeen(trades, seen, j);
      if k < |trades| { assert TradesDiffer(trades, j, k); }
    }
  }

  lemma TradesSeenGrow(trades: seq<TradeEntry>, seen: set<nat>, more: set<nat>)
    requires TradesOnce(trades, seen) && seen <= more
    ensures TradesOnce(trades, more)
  {
    forall k: nat | k < |trades| ensures TradeSeen(trades, more, k) {
      assert TradeSeen(trades, seen, k);
    }
  }

  /** The price inputs are the accepted trades in sort-key order, then the anonymous ones. */
  ghost predicate InputsMatch(inputs: seq<PriceQuantity>, trades: seq<TradeEntry>, anonymous: seq<TradeEntry>,
                              maker: int, taker: int)
  {
    && inputs == RebuiltInputs(trades, anonymous)
    && SidesMatch(trades, anonymous, maker, taker)
    && PositiveEntries(trades) && PositiveEntries(anonymous)
    && maker >= 0 && taker >= 0 && maker + taker <= Quantity(inputs)
  }

  /** Maker and taker totals are the accepted quantities of their side. */
  ghost predicate SidesMatch(trades: seq<TradeEntry>, anonymous: seq<TradeEntry>, maker: int, taker: int) {
    && maker == SideQuantity(trades, true) + SideQuantity(anonymous, true)
    && taker == SideQuantity(trades, false) + SideQuantity(anonymous, false)
  }

  ghost predicate PositiveEntries(entries: seq<TradeEntry>) {
    forall k :: 0 <= k < |entries| ==> entries[k].quantity > 0
  }

  ghost predicate Inputs(r: Record) {
    InputsMatch(r.fillInputs, r.trades, r.anonymous, r.maker, r.taker)
  }

  /** The ledger while `rows` are still to be applied; between engine calls `rows` is empty. */
  ghost predicate LedgerWith(r: Record, rows: seq<ChildOrder>) {
    && DistinctIds(r.children)
    && r.trackerSeen <= r.seen
    && Booked(r.children, r.intervals, rows)
    && OnlyChildren(r.children, r.intervals)
    && TradesOnce(r.trades, r.seen)
    && Inputs(r)
    && Quantity(r.fillInputs) == LedgerLength(r.children, r.intervals)
  }

  ghost predicate Ledger(r: Record) { LedgerWith(r, []) }

  /** Confirmed quantity of the children that never reached the tracker. */
  ghost function Uncredited(r: Record): int {
    Sum(r.children, ConfirmedOf) - r.exposure.confirmed
  }

  lemma InitialLedger()
    ensures Ledger(InitialRecord()) && Uncredited(InitialRecord()) == 0
  {
    hide InputsMatch, Sum;
    NoInputs();
    assert Sum([], ConfirmedOf) == 0 by { SumZero([], ConfirmedOf); }
  }

  lemma NoInputs()
    ensures InputsMatch([], [], [], 0, 0)
  {
    assert RebuiltInputs([], []) == [];
  }

  // ---- sums over inputs ----

  lemma {:induction false} QuantityAppend(a: seq<PriceQuantity>, b: seq<PriceQuantity>)
    ensures Quantity(a + b) == Quantity(a) + Quantity(b)
  {
    if b == [] {
      assert a + b == a;
    } else {
      var n := |b| - 1;
      QuantityAppend(a, b[..n]);
      assert (a + b)[..|a| + n] == a + b[..n];
    }
  }

  lemma {:induction false} QuantityInsert(e: TradeEntry, s: seq<TradeEntry>)
    ensures Quantity(Pairs(Insert(e, s, EntryLe))) == Quantity(Pairs(s)) + e.quantity
  {
    if s == [] || EntryLe(s[|s| - 1], e) {
      assert (s + [e])[..|s|] == s;
    } else {
      var n := |s| - 1;
      QuantityInsert(e, s[..n]);
      var inserted := Insert(e, s[..n], EntryLe);
      assert (inserted + [s[n]])[..|inserted|] == inserted;
      assert Pairs(inserted + [s[n]]) == Pairs(inserted) + [s[n].Pair()];
      QuantityAppend(Pairs(inserted), [s[n].Pair()]);
    }
  }

  lemma QuantityOfNewTrade(trades: seq<TradeEntry>, e: TradeEntry, anonymous: seq<TradeEntry>)
    ensures Quantity(RebuiltInputs(trades + [e], anonymous)) == Quantity(RebuiltInputs(trades, anonymous)) + e.quantity
  {
    assert (trades + [e])[..|trades|] == trades;
    QuantityInsert(e, Sort(trades, EntryLe));
    QuantityAppend(Pairs(Sort(trades, EntryLe)), Pairs(anonymous));
    QuantityAppend(Pairs(Sort(trades + [e], EntryLe)), Pairs(anonymous));
  }

  lemma QuantityOfNewAnonymous(trades: seq<TradeEntry>, anonymous: seq<TradeEntry>, e: TradeEntry)
    ensures RebuiltInputs(trades, anonymous) + [e.Pair()] == RebuiltInputs(trades, anonymous + [e])
    ensures Quantity(RebuiltInputs(trades, anonymous) + [e.Pair()]) == Quantity(RebuiltInputs(trades, anonymous)) + e.quantity
  {
    assert (anonymous + [e])[..|anonymous|] == anonymous;
    QuantityAppend(RebuiltInputs(trades, anonymous), [e.Pair()]);
    assert Quantity([e.Pair()]) == e.quantity;
  }

  lemma SideAppend(entries: seq<TradeEntry>, e: TradeEntry, maker: bool)
    ensures SideQuantity(entries + [e], maker) == SideQuantity(entries, maker) + if e.isMaker == Some(maker) then e.quantity else 0
  {
    assert (entries + [e])[..|entries|] == entries;
  }

  lemma {:induction false} LengthSame(a: seq<ChildOrder>, b: seq<ChildOrder>, m: map<nat, seq<Interval>>, m': map<nat, seq<Interval>>)
    requires |a| == |b|
    requires forall i :: 0 <= i < |a| ==> a[i].id == b[i].id && IntervalsOf(m, a[i].id) == IntervalsOf(m', a[i].id)
    ensures LedgerLength(a, m) == LedgerLength(b, m')
  {
    if a != [] {
      LengthSame(a[..|a| - 1], b[..|b| - 1], m, m');
    }
  }

  lemma {:induction false} LengthBook(children: seq<ChildOrder>, m: map<nat, seq<Interval>>, i: nat, iv: Interval)
    requires i < |children| && DistinctIds(children)
    ensures LedgerLength(children, m[children[i].id := IntervalsOf(m, children[i].id) + [iv]]) == LedgerLength(children, m) + iv.Length()
  {
    var n := |children| - 1;
    var id := children[i].id;
    var ivs := IntervalsOf(m, id);
    var m' := m[id := ivs + [iv]];
    if i == n {
      assert (ivs + [iv])[..|ivs|] == ivs;
      var rest := children[..n];
      forall j | 0 <= j < |rest|
        ensures rest[j].id == rest[j].id && IntervalsOf(m, rest[j].id) == IntervalsOf(m', rest[j].id)
      {
        assert IdsDiffer(children, j, i);
      }
      LengthSame(rest, rest, m, m');
    } else {
      assert IdsDiffer(children, i, n);
      DistinctPrefix(children, n);
      LengthBook(children[..n], m, i, iv);
    }
  }

  lemma LengthAppend(children: seq<ChildOrder>, c: ChildOrder, m: map<nat, seq<Interval>>)
    ensures LedgerLength(children + [c], m) == LedgerLength(children, m) + TotalLength(IntervalsOf(m, c.id))
  {
    assert (children + [c])[..|children|] == children;
  }

  // ---- one fill, one row ----

  ghost predicate GrewAt(a: seq<ChildOrder>, b: seq<ChildOrder>, i: nat)
    requires i < |a| && i < |b|
  {
    b[i] == a[i].(confirmed := b[i].confirmed) && b[i].confirmed >= a[i].confirmed
  }

  /** The same children, each with at least its old confirmed quantity. */
  ghost predicate ChildrenGrew(a: seq<ChildOrder>, b: seq<ChildOrder>) {
    |a| == |b| && forall i: nat :: i < |a| ==> GrewAt(a, b, i)
  }

  ghost predicate SameLife(r: Record, r': Record) {
    && r'.status == r.status && r'.summary == r.summary && r'.lastSequence == r.lastSequence
    && r'.submittedAt == r.submittedAt && r'.aggressive == r.aggressive && r'.rejects == r.rejects
    && r'.rateLimitedUntil == r.rateLimitedUntil && r'.cancelRequested == r.cancelRequested
    && r'.attemptOpen == r.attemptOpen && r'.openings == r.openings && r'.call == r.call
  }

  /** Only confirmed quantities and the ledger move; everything else of the record stays. */
  ghost predicate FillFrame(r: Record, r': Record) {
    && ChildrenGrew(r.children, r'.children)
    && r'.exposure == r.exposure.(confirmed := r'.exposure.confirmed)
    && r'.exposure.confirmed >= r.exposure.confirmed
    && SameLife(r, r')
    && r.seen <= r'.seen
  }

  lemma FillFrameTransitive(a: Record, b: Record, c: Record)
    requires FillFrame(a, b) && FillFrame(b, c)
    ensures FillFrame(a, c)
  {
    forall i: nat | i < |a.children| ensures GrewAt(a.children, c.children, i) {
      assert GrewAt(a.children, b.children, i) && GrewAt(b.children, c.children, i);
    }
  }

  lemma FillFrameReflexive(r: Record)
    ensures FillFrame(r, r)
  {
    forall i: nat | i < |r.children| ensures GrewAt(r.children, r.children, i) {}
  }

  /** What the ledger says about a list of children survives any change that keeps the ids
      and lowers no confirmed quantity. */
  lemma SameIdsKeepLedger(a: seq<ChildOrder>, b: seq<ChildOrder>, intervals: map<nat, seq<Interval>>, rows: seq<ChildOrder>)
    requires |a| == |b|
    requires forall i :: 0 <= i < |a| ==> a[i].id == b[i].id && a[i].confirmed <= b[i].confirmed
    ensures DistinctIds(a) ==> DistinctIds(b)
    ensures Booked(a, intervals, rows) ==> Booked(b, intervals, rows)
    ensures OnlyChildren(a, intervals) ==> OnlyChildren(b, intervals)
    ensures LedgerLength(a, intervals) == LedgerLength(b, intervals)
  {
    LengthSame(a, b, intervals, intervals);
    if DistinctIds(a) { DistinctByIds(a, b); }
    if Booked(a, intervals, rows) {
      forall i: nat | i < |b| ensures BookedAt(b, intervals, rows, i) {
        assert BookedAt(a, intervals, rows, i);
        assert Limit(a[i], rows) <= Limit(b[i], rows);
      }
    }
    if OnlyChildren(a, intervals) {
      forall id ensures IntervalsOf(intervals, id) != [] ==> HasId(b, id) {
        if HasId(a, id) {
          var i :| 0 <= i < |a| && a[i].id == id;
          assert b[i].id == id;
        }
      }
    }
  }

  lemma RaiseKeepsLedger(r: Record, rows: seq<ChildOrder>, i: nat, incoming: int, tradeId: Option<nat>)
    requires LedgerWith(r, rows) && i < |r.children|
    requires tradeId.Some? ==> tradeId.value !in r.seen
    ensures
      var r' := RaiseConfirmed(r, i, incoming, tradeId);
      && r'.children == r.children[i := r.children[i].(confirmed := Max(r.children[i].confirmed, incoming))]
      && r'.exposure == r.exposure.(confirmed := r'.exposure.confirmed)
      && r' == r.(children := r'.children, exposure := r'.exposure, trackerSeen := r'.trackerSeen)
      && Uncredited(r') == Uncredited(r)
      && r'.exposure.confirmed >= r.exposure.confirmed
      && LedgerWith(r'.(trackerSeen := r.trackerSeen), rows)
      && r'.trackerSeen <= r.trackerSeen + (if tradeId.Some? then {tradeId.value} else {})
  {
    hide Booked, OnlyChildren, TradesOnce, InputsMatch, DistinctIds, Quantity, LedgerLength;
    var c' := r.children[i].(confirmed := Max(r.children[i].confirmed, incoming));
    var children' := r.children[i := c'];
    SumUpdate(r.children, i, c', ConfirmedOf);
    SameIdsKeepLedger(r.children, children', r.intervals, rows);
    if incoming <= r.children[i].confirmed {
      assert r.children == children';
    }
  }

  /** Whatever a trade claims, it is either booked under a free interval inside the limit or
      leaves quantities alone. */
  lemma UpdateKeepsLedger(r: Record, rows: seq<ChildOrder>, i: nat, incoming: int, t: TradeDetails)
    requires LedgerWith(r, rows) && i < |r.children|
    requires t.limit <= Max(Limit(r.children[i], rows), incoming)
    ensures
      var r' := UpdateFill(r, i, incoming, Some(t));
      LedgerWith(r', rows) && Uncredited(r') == Uncredited(r)
  {
    hide Booked, OnlyChildren, TradesOnce, InputsMatch, DistinctIds, Quantity, LedgerLength;
    var c := r.children[i];
    DropKeepsLedger(r, rows, t.tradeId);
    if (t.tradeId.Some? && t.tradeId.value in r.seen) || t.delta <= 0 {
      return;
    }
    var accepted := AcceptedInterval(c, IntervalsOf(r.intervals, c.id), incoming, t);
    if accepted.Some? {
      RaiseKeepsLedger(r, rows, i, incoming, t.tradeId);
      var r1 := RaiseConfirmed(r, i, incoming, t.tradeId);
      BookKeepsLedger(r.trackerSeen, r1, rows, i, accepted.value, t);
    }
  }

  lemma UpdateFrame(r: Record, i: nat, incoming: int, trade: Option<TradeDetails>)
    requires i < |r.children|
    ensures FillFrame(r, UpdateFill(r, i, incoming, trade))
  {
    hide AcceptedInterval, IntervalsOf, RaiseConfirmed, ChildrenGrew, BookTrade;
    var tradeId := if trade.Some? then trade.value.tradeId else None;
    RaiseFrame(r, i, incoming, tradeId);
    FillFrameReflexive(r);
    if trade.Some? {
      var accepted := AcceptedInterval(r.children[i], IntervalsOf(r.intervals, r.children[i].id), incoming, trade.value);
      if accepted.Some? {
        BookFrame(RaiseConfirmed(r, i, incoming, tradeId), r.children[i].id, accepted.value, trade.value);
      }
    }
  }

  lemma BookFrame(r: Record, id: nat, iv: Interval, t: TradeDetails)
    ensures
      var r' := BookTrade(r, id, iv, t);
      SameLife(r, r') && r'.children == r.children && r'.exposure == r.exposure && r.seen <= r'.seen
  {
    hide BookInputs;
    BookInputsFrame(r, id, iv, t);
  }

  lemma BookInputsFrame(r: Record, id: nat, iv: Interval, t: TradeDetails)
    ensures
      var r' := BookInputs(r, id, iv, t);
      SameLife(r, r') && r'.children == r.children && r'.exposure == r.exposure && r.seen <= r'.seen
  {
    hide RebuiltInputs, IntervalsOf;
  }

  lemma RaiseFrame(r: Record, i: nat, incoming: int, tradeId: Option<nat>)
    requires i < |r.children|
    ensures FillFrame(r, RaiseConfirmed(r, i, incoming, tradeId))
  {
    var r' := RaiseConfirmed(r, i, incoming, tradeId);
    forall j: nat | j < |r.children| ensures GrewAt(r.children, r'.children, j) {
      if j == i && incoming > r.children[i].confirmed {
        assert r'.children[i] == r.children[i].(confirmed := incoming);
      } else {
        assert r'.children[j] == r.children[j];
      }
    }
  }

  lemma DropKeepsLedger(r: Record, rows: seq<ChildOrder>, tradeId: Option<nat>)
    requires LedgerWith(r, rows)
    ensures LedgerWith(Drop(r, tradeId), rows)
    ensures Uncredited(Drop(r, tradeId)) == Uncredited(r)
    ensures tradeId.Some? ==> LedgerWith(Ignore(r, tradeId.value), rows)
    ensures tradeId.Some? ==> Uncredited(Ignore(r, tradeId.value)) == Uncredited(r)
  {
    hide Booked, OnlyChildren, DistinctIds, Quantity, LedgerLength, RebuiltInputs, Sum;
    if tradeId.Some? {
      TradesSeenGrow(r.trades, r.seen, r.seen + {tradeId.value});
    }
  }

  lemma BookedAppend(children: seq<ChildOrder>, m: map<nat, seq<Interval>>, rows: seq<ChildOrder>, i: nat, iv: Interval)
    requires DistinctIds(children) && i < |children|
    requires Booked(children, m, rows) && OnlyChildren(children, m)
    requires FillIntervalIsValid(iv.start, iv.end, Limit(children[i], rows))
    requires !FillIntervalOverlaps(iv.start, iv.end, IntervalsOf(m, children[i].id))
    ensures
      var m' := m[children[i].id := IntervalsOf(m, children[i].id) + [iv]];
      && Booked(children, m', rows) && OnlyChildren(children, m')
      && LedgerLength(children, m') == LedgerLength(children, m) + iv.Length()
  {
    var id := children[i].id;
    assert BookedAt(children, m, rows, i);
    LedgeredAppend(IntervalsOf(m, id), iv, Limit(children[i], rows));
    LengthBook(children, m, i, iv);
    var m' := m[id := IntervalsOf(m, id) + [iv]];
    forall j: nat | j < |children| ensures BookedAt(children, m', rows, j) {
      if j != i {
        assert if j < i then IdsDiffer(children, j, i) else IdsDiffer(children, i, j);
        assert BookedAt(children, m, rows, j);
      }
    }
    assert children[i].id == id;
  }

  lemma BookKeepsLedger(trackerSeen: set<nat>, r: Record, rows: seq<ChildOrder>, i: nat, iv: Interval, t: TradeDetails)
    requires LedgerWith(r.(trackerSeen := trackerSeen), rows) && i < |r.children|
    requires r.trackerSeen <= trackerSeen + (if t.tradeId.Some? then {t.tradeId.value} else {})
    requires t.tradeId.Some? ==> t.tradeId.value !in r.seen
    requires iv.Length() == t.delta > 0
    requires FillIntervalIsValid(iv.start, iv.end, Limit(r.children[i], rows))
    requires !FillIntervalOverlaps(iv.start, iv.end, IntervalsOf(r.intervals, r.children[i].id))
    ensures LedgerWith(BookTrade(r, r.children[i].id, iv, t), rows)
    ensures Uncredited(BookTrade(r, r.children[i].id, iv, t)) == Uncredited(r)
  {
    hide RebuiltInputs, Limit, DistinctIds, Booked, OnlyChildren, LedgerLength, Quantity, Sum, InputsMatch, TradesOnce;
    BookedAppend(r.children, r.intervals, rows, i, iv);
    InputsAfterBooking(r, r.children[i].id, iv, t);
    if t.tradeId.Some? {
      NewTradeOnce(r.trades, r.seen, EntryOf(t));
    }
  }

  lemma InputsAfterBooking(r: Record, id: nat, iv: Interval, t: TradeDetails)
    requires Inputs(r) && t.delta > 0
    ensures Inputs(BookTrade(r, id, iv, t))
    ensures Quantity(BookTrade(r, id, iv, t).fillInputs) == Quantity(r.fillInputs) + t.delta
  {
    hide RebuiltInputs, SideQuantity, Quantity;
    var e := EntryOf(t);
    if t.tradeId.Some? {
      QuantityOfNewTrade(r.trades, e, r.anonymous);
      SideAppend(r.trades, e, true);
      SideAppend(r.trades, e, false);
    } else {
      QuantityOfNewAnonymous(r.trades, r.anonymous, e);
      SideAppend(r.anonymous, e, true);
      SideAppend(r.anonymous, e, false);
    }
  }

  lemma SnapshotKeepsLedger(r: Record, rows: seq<ChildOrder>, i: nat, target: ChildStatus, filled: nat)
    requires LedgerWith(r, rows) && i < |r.children|
    ensures
      var r' := TakeReport(r, i, target, filled);
      && LedgerWith(r', rows) && Uncredited(r') == Uncredited(r)
      && r'.children == r.children[i := r.children[i].(status := SetChildStatus(r.children[i].status, target),
                                                      confirmed := Max(r.children[i].confirmed, filled))]
      && r' == r.(children := r'.children, exposure := r.exposure.(confirmed := r'.exposure.confirmed), rejects := r'.rejects)
  {
    hide Booked, OnlyChildren, TradesOnce, InputsMatch, DistinctIds, Quantity, LedgerLength, SetChildStatus;
    StatusKeepsLedger(r, rows, i, target);
    var r1 := SetStatus(r, i, target);
    RaiseKeepsLedger(r1, rows, i, filled, None);
    var r2 := RaiseConfirmed(r1, i, filled, None);
    assert r2.(trackerSeen := r1.trackerSeen) == r2;
    assert r2.children == r.children[i := r2.children[i]];
  }

  lemma StatusKeepsLedger(r: Record, rows: seq<ChildOrder>, i: nat, target: ChildStatus)
    requires LedgerWith(r, rows) && i < |r.children|
    ensures LedgerWith(SetStatus(r, i, target), rows) && Uncredited(SetStatus(r, i, target)) == Uncredited(r)
  {
    hide Booked, OnlyChildren, TradesOnce, InputsMatch, DistinctIds, Quantity, LedgerLength, SetChildStatus;
    var r' := SetStatus(r, i, target);
    SumUpdate(r.children, i, r'.children[i], ConfirmedOf);
    SameIdsKeepLedger(r.children, r'.children, r.intervals, rows);
  }

  // ---- all fills, all rows ----

  lemma {:induction false} FillsKeepLedger(r: Record, rows: seq<ChildOrder>, fills: seq<Fill>)
    requires LedgerWith(r, rows)
    ensures
      var r' := ApplyFills(r, rows, fills);
      LedgerWith(r', rows) && FillFrame(r, r') && Uncredited(r') == Uncredited(r)
  {
    hide LedgerWith, UpdateFill, RowConfirmed, Uncredited, FillFrame;
    if fills == [] {
      FillFrameReflexive(r);
    } else {
      var n := |fills| - 1;
      FillsKeepLedger(r, rows, fills[..n]);
      var r1 := ApplyFills(r, rows, fills[..n]);
      var f := fills[n];
      match IndexOf(r1.children, f.client) {
        case None =>
        case Some(i) =>
          var limit := Max(Max(r1.children[i].confirmed, RowConfirmed(rows, f.client)), f.cumulative);
          assert limit <= Max(Limit(r1.children[i], rows), f.cumulative);
          UpdateKeepsLedger(r1, rows, i, f.cumulative, DetailsOf(f, limit));
          UpdateFrame(r1, i, f.cumulative, Some(DetailsOf(f, limit)));
          FillFrameTransitive(r, r1, UpdateFill(r1, i, f.cumulative, Some(DetailsOf(f, limit))));
      }
    }
  }

  /** Every child has confirmed what the rows say. */
  ghost predicate CoverRows(children: seq<ChildOrder>, rows: seq<ChildOrder>) {
    forall i: nat :: i < |children| ==> children[i].confirmed >= RowConfirmed(rows, children[i].id)
  }

  lemma NoRowsCovered(children: seq<ChildOrder>)
    ensures CoverRows(children, [])
  {}

  lemma RowTaken(a: seq<ChildOrder>, b: seq<ChildOrder>, i: nat, rows: seq<ChildOrder>)
    requires rows != [] && CoverRows(a, rows[..|rows| - 1]) && |a| == |b|
    requires DistinctIds(a) && i < |a| && a[i].id == rows[|rows| - 1].id
    requires b == a[i := b[i]] && b[i].id == a[i].id
    requires b[i].confirmed >= a[i].confirmed && b[i].confirmed >= rows[|rows| - 1].confirmed
    ensures CoverRows(b, rows)
  {
    forall j: nat | j < |b| ensures b[j].confirmed >= RowConfirmed(rows, b[j].id) {
      if j != i {
        assert if j < i then IdsDiffer(a, j, i) else IdsDiffer(a, i, j);
      }
      assert a[j].confirmed >= RowConfirmed(rows[..|rows| - 1], a[j].id);
    }
  }

  lemma RowMissed(children: seq<ChildOrder>, rows: seq<ChildOrder>)
    requires rows != [] && CoverRows(children, rows[..|rows| - 1])
    requires IndexOf(children, rows[|rows| - 1].id).None?
    ensures CoverRows(children, rows)
  {}

  /** After the rows have been taken over no interval depends on them any more. */
  lemma {:induction false} RowsKeepLedger(r: Record, all: seq<ChildOrder>, rows: seq<ChildOrder>)
    requires LedgerWith(r, all)
    ensures
      var r' := ApplyRows(r, rows);
      LedgerWith(r', all) && Uncredited(r') == Uncredited(r) && CoverRows(r'.children, rows)
  {
    hide TakeReport, Booked, OnlyChildren, TradesOnce, InputsMatch, DistinctIds, CoverRows, Quantity, LedgerLength, Sum;
    if rows == [] {
      NoRowsCovered(r.children);
    } else {
      var n := |rows| - 1;
      RowsKeepLedger(r, all, rows[..n]);
      var r1 := ApplyRows(r, rows[..n]);
      var row := rows[n];
      match IndexOf(r1.children, row.id) {
        case None =>
          RowMissed(r1.children, rows);
        case Some(i) =>
          SnapshotKeepsLedger(r1, all, i, row.status, row.confirmed);
          RowTaken(r1.children, ApplyRow(r1, row).children, i, rows);
      }
    }
  }

  lemma RowsDone(r: Record, rows: seq<ChildOrder>)
    requires LedgerWith(r, rows)
    requires CoverRows(r.children, rows)
    ensures Ledger(r)
  {
    hide InputsMatch, TradesOnce;
    forall i: nat | i < |r.children| ensures BookedAt(r.children, r.intervals, [], i) {
      assert BookedAt(r.children, r.intervals, rows, i);
    }
  }

  lemma MoreRows(r: Record, rows: seq<ChildOrder>)
    requires Ledger(r)
    ensures LedgerWith(r, rows)
  {
    hide InputsMatch, TradesOnce;
    forall i: nat | i < |r.children| ensures BookedAt(r.children, r.intervals, rows, i) {
      assert BookedAt(r.children, r.intervals, [], i);
    }
  }

  // ---- adoption ----

  /** Confirmed quantity of the adopted orders that no fill row will credit. */
  ghost function AdoptedUncredited(r: Record, rows: seq<ChildOrder>, fillClients: set<nat>): int {
    Sum(AdoptRows(r, rows, fillClients).children, ConfirmedOf) - Sum(r.children, ConfirmedOf)
  }

  lemma {:induction false} AdoptKeepsLedger(r: Record, rows: seq<ChildOrder>, fillClients: set<nat>)
    requires Ledger(r)
    ensures
      var r' := AdoptRows(r, rows, fillClients);
      Ledger(r') && r' == r.(children := r'.children)
  {
    hide Booked, OnlyChildren, TradesOnce, InputsMatch, DistinctIds, Quantity, LedgerLength, Sum;
    if rows != [] {
      var n := |rows| - 1;
      AdoptKeepsLedger(r, rows[..n], fillClients);
      var r1 := AdoptRows(r, rows[..n], fillClients);
      if IndexOf(r1.children, rows[n].id).None? {
        var c := if rows[n].id in fillClients then rows[n].(confirmed := 0) else rows[n];
        ChildAppended(r1.children, c, r1.intervals);
      }
    }
  }

  lemma ChildAppended(children: seq<ChildOrder>, c: ChildOrder, m: map<nat, seq<Interval>>)
    requires DistinctIds(children) && Booked(children, m, []) && OnlyChildren(children, m)
    requires IndexOf(children, c.id).None?
    ensures DistinctIds(children + [c]) && Booked(children + [c], m, []) && OnlyChildren(children + [c], m)
    ensures LedgerLength(children + [c], m) == LedgerLength(children, m)
  {
    assert !HasId(children, c.id);
    assert IntervalsOf(m, c.id) == [];
    DistinctAppend(children, c);
    LengthAppend(children, c, m);
    var all := children + [c];
    forall id ensures IntervalsOf(m, id) != [] ==> HasId(all, id) {
      if HasId(children, id) {
        var i :| 0 <= i < |children| && children[i].id == id;
        assert all[i].id == id;
      }
    }
    forall i: nat | i < |all| ensures BookedAt(all, m, [], i) {
      if i < |children| { assert BookedAt(children, m, [], i); }
    }
  }

  /** No row adopts an order with a confirmed quantity unless a fill row comes with it. */
  ghost predicate EveryAdoptionIsCredited(r: Record, result: ReconciliationResult) {
    forall k :: 0 <= k < |result.orders| ==> CreditedRow(r, result, k)
  }

  ghost predicate CreditedRow(r: Record, result: ReconciliationResult, k: nat)
    requires k < |result.orders|
  {
    || IndexOf(r.children, result.orders[k].id).Some?
    || HasId(result.orders[..k], result.orders[k].id)
    || result.orders[k].id in ClientsOfFills(result.fills)
    || result.orders[k].confirmed == 0
  }

  lemma {:induction false} AdoptedIds(r: Record, rows: seq<ChildOrder>, fillClients: set<nat>, id: nat)
    ensures HasId(AdoptRows(r, rows, fillClients).children, id) <==> HasId(r.children, id) || HasId(rows, id)
  {
    if rows != [] {
      var n := |rows| - 1;
      AdoptedIds(r, rows[..n], fillClients, id);
      HasIdSplit(rows, id);
      var r1 := AdoptRows(r, rows[..n], fillClients);
      var r2 := AdoptRow(r1, rows[n], fillClients);
      if IndexOf(r1.children, rows[n].id).None? {
        HasIdSplit(r2.children, id);
        assert r2.children[..|r1.children|] == r1.children;
      }
    }
  }

  lemma HasIdSplit(rows: seq<ChildOrder>, id: nat)
    requires rows != []
    ensures HasId(rows, id) <==> HasId(rows[..|rows| - 1], id) || rows[|rows| - 1].id == id
  {
    if HasId(rows, id) {
      var i :| 0 <= i < |rows| && rows[i].id == id;
      assert i < |rows| - 1 ==> rows[..|rows| - 1][i].id == id;
    }
    if HasId(rows[..|rows| - 1], id) {
      var i :| 0 <= i < |rows| - 1 && rows[..|rows| - 1][i].id == id;
      assert rows[i].id == id;
    }
  }

  lemma AdoptedOneMore(r: Record, result: ReconciliationResult, n: nat)
    requires n < |result.orders|
    ensures
      var clients := ClientsOfFills(result.fills);
      AdoptedUncredited(r, result.orders[..n + 1], clients)
      == AdoptedUncredited(r, result.orders[..n], clients) + if CreditedRow(r, result, n) then 0 else result.orders[n].confirmed
  {
    hide HasId, ClientsOfFills, Sum;
    var clients := ClientsOfFills(result.fills);
    var rows := result.orders[..n + 1];
    assert rows[..n] == result.orders[..n];
    var r1 := AdoptRows(r, rows[..n], clients);
    var row := rows[n];
    AdoptedIds(r, rows[..n], clients, row.id);
    KnownById(r.children, row.id);
    KnownById(r1.children, row.id);
    SumAppend(r1.children, if row.id in clients then row.(confirmed := 0) else row, ConfirmedOf);
  }

  lemma KnownById(children: seq<ChildOrder>, id: nat)
    ensures IndexOf(children, id).Some? <==> HasId(children, id)
  {}

  lemma {:induction false} AdoptedUncreditedIff(r: Record, result: ReconciliationResult, n: nat)
    requires n <= |result.orders|
    ensures AdoptedUncredited(r, result.orders[..n], ClientsOfFills(result.fills)) >= 0
    ensures AdoptedUncredited(r, result.orders[..n], ClientsOfFills(result.fills)) == 0 <==>
            forall k :: 0 <= k < n ==> CreditedRow(r, result, k)
  {
    hide CreditedRow, ClientsOfFills, Sum;
    if n > 0 {
      AdoptedUncreditedIff(r, result, n - 1);
      AdoptedOneMore(r, result, n - 1);
      assert CreditedRow(r, result, n - 1) || result.orders[n - 1].confirmed > 0 by { NotCreditedIsPositive(r, result, n - 1); }
    }
  }

  lemma NotCreditedIsPositive(r: Record, result: ReconciliationResult, k: nat)
    requires k < |result.orders|
    ensures CreditedRow(r, result, k) || result.orders[k].confirmed > 0
  {}

  // ---- main results ----

  lemma EvidenceKeepsLedger(r: Record, result: ReconciliationResult)
    requires Ledger(r)
    ensures Ledger(ApplyEvidence(r, result))
    ensures Uncredited(ApplyEvidence(r, result))
            == Uncredited(r) + AdoptedUncredited(r, result.orders, ClientsOfFills(result.fills))
  {
    hide LedgerWith, AdoptRows, ApplyFills, ApplyRows, Sum;
    var rows := result.orders;
    var r1 := AdoptRows(r, rows, ClientsOfFills(result.fills));
    AdoptKeepsLedger(r, rows, ClientsOfFills(result.fills));
    MoreRows(r1, rows);
    var sorted := Sort(result.fills, FillLe);
    FillsKeepLedger(r1, rows, sorted);
    var r2 := ApplyFills(r1, rows, sorted);
    RowsKeepLedger(r2, rows, rows);
    RowsDone(ApplyRows(r2, rows), rows);
  }

  lemma {:induction false} RejectMissingKeepsLedger(r: Record, listed: set<nat>, i: nat)
    requires Ledger(r)
    ensures
      var r' := RejectMissingFrom(r, listed, i);
      Ledger(r') && Uncredited(r') == Uncredited(r)
    decreases |r.children| - i
  {
    hide LedgerWith, Sum, SetChildStatus;
    if i < |r.children| {
      if r.children[i].status == Unknown && r.children[i].id !in listed {
        StatusKeepsLedger(r, [], i, Rejected);
        RejectMissingKeepsLedger(SetStatus(r, i, Rejected), listed, i + 1);
      } else {
        RejectMissingKeepsLedger(r, listed, i + 1);
      }
    }
  }

  /** After every reconciliation each child's booked intervals are non-empty, disjoint and
      inside what the child has confirmed, whatever rows and fills were delivered. */
  lemma ReconciliationKeepsLedger(r: Record, result: ReconciliationResult)
    requires Ledger(r)
    ensures Ledger(ApplyResult(r, result))
    ensures Uncredited(ApplyResult(r, result))
            == Uncredited(r) + AdoptedUncredited(r, result.orders, ClientsOfFills(result.fills))
  {
    EvidenceKeepsLedger(r, result);
    if result.notFound {
      RejectMissingKeepsLedger(ApplyEvidence(r, result), ClientsOfOrders(result.orders), 0);
    }
    var r' := ApplyWarning(ApplyEvidence(r, result), result);
    assert Ledger(r') ==> Ledger(RefreshReserved(r'));
  }

  /** The tracker stays equal to the sum over the children exactly when no row adopts an
      unknown order that carries a confirmed quantity without a fill. */
  lemma CreditedExactlyWhenAdoptionsAre(r: Record, result: ReconciliationResult)
    requires Ledger(r) && Uncredited(r) == 0
    ensures Uncredited(ApplyResult(r, result)) == 0 <==> EveryAdoptionIsCredited(r, result)
  {
    hide LedgerWith, ApplyResult, AdoptedUncredited, CreditedRow, ClientsOfFills, Uncredited;
    ReconciliationKeepsLedger(r, result);
    AdoptedUncreditedIff(r, result, |result.orders|);
    assert result.orders[..|result.orders|] == result.orders;
  }

  // ---- the summary's price inputs ----

  lemma {:induction false} ProvisionalQuantity(children: seq<ChildOrder>)
    ensures Quantity(ProvisionalInputs(children)) == Sum(children, ConfirmedOf)
  {
    if children != [] {
      var n := |children| - 1;
      ProvisionalQuantity(children[..n]);
      var last := if children[n].confirmed > 0 then [PriceQuantity(children[n].price, children[n].confirmed)] else [];
      QuantityAppend(ProvisionalInputs(children[..n]), last);
    }
  }

  lemma {:induction false} UncoveredQuantity(children: seq<ChildOrder>, intervals: map<nat, seq<Interval>>)
    requires Booked(children, intervals, [])
    ensures Quantity(UncoveredInputs(children, intervals)) == Sum(children, ConfirmedOf) - LedgerLength(children, intervals)
    ensures forall i :: 0 <= i < |children| ==> Uncovered(children[i], intervals) >= 0
  {
    if children != [] {
      var n := |children| - 1;
      var c := children[n];
      assert Booked(children[..n], intervals, []) by {
        forall i: nat | i < n ensures BookedAt(children[..n], intervals, [], i) {
          assert BookedAt(children, intervals, [], i);
        }
      }
      UncoveredQuantity(children[..n], intervals);
      assert BookedAt(children, intervals, [], n);
      DisjointMeasure(IntervalsOf(intervals, c.id), c.confirmed);
      CoveredWithin(IntervalsOf(intervals, c.id), c.confirmed);
      var last := if Uncovered(c, intervals) > 0 then [PriceQuantity(c.price, Uncovered(c, intervals))] else [];
      QuantityAppend(UncoveredInputs(children[..n], intervals), last);
    }
  }

  /** The quantities behind the reported average price always add up to the children's
      confirmed quantities, and maker plus taker fills never exceed them. */
  lemma SummaryQuantityIsConserved(r: Record)
    requires Ledger(r)
    ensures Quantity(SummaryInputs(r)) == Sum(r.children, ConfirmedOf)
    ensures Quantity(SummaryInputs(r)) == r.exposure.confirmed + Uncredited(r)
    ensures r.maker + r.taker <= Quantity(SummaryInputs(r))
  {
    ProvisionalQuantity(r.children);
    UncoveredQuantity(r.children, r.intervals);
    QuantityAppend(r.fillInputs, UncoveredInputs(r.children, r.intervals));
    if r.fillInputs != [] {
      QuantityNonNegative(UncoveredInputs(r.children, r.intervals));
      UncoveredPositive(r.children, r.intervals);
    } else {
      NonNegativeSums(r.children);
    }
  }

  lemma {:induction false} QuantityNonNegative(inputs: seq<PriceQuantity>)
    ensures (forall i :: 0 <= i < |inputs| ==> inputs[i].quantity > 0) ==> Quantity(inputs) >= |inputs|
  {
    if inputs != [] {
      QuantityNonNegative(inputs[..|inputs| - 1]);
    }
  }

  lemma {:induction false} UncoveredPositive(children: seq<ChildOrder>, intervals: map<nat, seq<Interval>>)
    ensures forall i :: 0 <= i < |UncoveredInputs(children, intervals)| ==> UncoveredInputs(children, intervals)[i].quantity > 0
  {
    if children != [] {
      UncoveredPositive(children[..|children| - 1], intervals);
    }
  }
}
