/** What a complete reconciliation makes of a record that was an earlier view: statuses,
    confirmed quantities and price inputs become the venue's own. */
module Exactness {
  import opened Models
  import opened StateMachine
  import opened Intervals
  import opened Sorting
  import opened Records
  import opened FillLedger
  import opened Prices
  import opened Venues
  import opened Coupling
  import opened Evidence
  import Idempotence

  // ---- healing ----

  /** A report of the present state of an order. */
  ghost predicate Current(o: Order, status: ChildStatus, filled: nat) {
    status == o.Status() && filled == o.filled
  }

  ghost predicate CurrentRow(v: VenueState, row: ChildOrder) {
    row.id in v.orders && Current(v.orders[row.id], row.status, row.confirmed)
  }

  /** One present row for every order. */
  ghost predicate CurrentRows(v: VenueState, rows: seq<ChildOrder>) {
    && Idempotence.OneRowPerOrder(rows)
    && (forall k :: 0 <= k < |rows| ==> CurrentRow(v, rows[k]))
    && (forall id :: id in v.orders ==> HasId(rows, id))
  }

  /** Every lag is accepted: a child that is an earlier view of its order and has nothing left
      to learn from the order's present state is in that state. */
  lemma NothingLeftToLearn(c: ChildOrder, v: VenueState)
    requires VenueOk(v) && ChildOk(c, v) && c.id in v.orders
    requires c.confirmed >= v.orders[c.id].filled
    requires SetChildStatus(c.status, v.orders[c.id].Status()) == c.status
    ensures Current(v.orders[c.id], c.status, c.confirmed)
  {
    assert OrderOk(v, c.id);
  }

  /** After a full reconciliation every child with an order has the order's status and
      confirmed quantity; finished children were left alone. */
  lemma ReconciliationHeals(r: Record, v: VenueState, result: ReconciliationResult)
    requires Tied(r, v) && Traced(r.children, v) && ResultOk(v, result) && WarningOk(v, r.children, result)
    requires CurrentRows(v, result.orders) && DistinctIds(r.children)
    ensures
      var r' := ApplyResult(r, result);
      && |r'.children| == |r.children|
      && (forall i :: 0 <= i < |r.children| ==> r'.children[i].id == r.children[i].id)
      && (forall i :: 0 <= i < |r.children| && r.children[i].status.IsTerminal() ==> r'.children[i] == r.children[i])
      && (forall i :: 0 <= i < |r.children| && r.children[i].id in v.orders ==>
            Current(v.orders[r.children[i].id], r'.children[i].status, r'.children[i].confirmed))
  {
    hide DistinctIds, LedgerView, VenueOk, ResultOk, WarningOk, Traced, ApplyEvidence, ApplyWarning, ChildrenAdvanced,
         Idempotence.RowAbsorbed, Idempotence.Absorbed, ChildOk;
    var r1 := ApplyWarning(ApplyEvidence(r, result), result);
    DeliveryInforms(r, v, result);
    Idempotence.HeardAfterApply(r, result);
    AdvancedKeepsIds(r.children, r1.children);
    forall i | 0 <= i < |r.children|
      ensures r.children[i].status.IsTerminal() ==> r1.children[i] == r.children[i]
      ensures r.children[i].id in v.orders ==>
                Current(v.orders[r.children[i].id], r1.children[i].status, r1.children[i].confirmed)
    {
      FinishedStays(r.children, r1.children, i);
      if r.children[i].id in v.orders {
        var k := RowOf(result.orders, r.children[i].id);
        DistinctByIds(r.children, r1.children);
        IndexOfDistinct(r1.children, i);
        HeardRowHeals(r1, v, result.orders[k], i);
      }
    }
  }

  lemma FinishedStays(a: seq<ChildOrder>, b: seq<ChildOrder>, i: nat)
    requires ChildrenAdvanced(a, b) && i < |a|
    ensures a[i].status.IsTerminal() ==> b[i] == a[i]
  {
    assert AdvancedAt(a, b, i);
  }

  lemma RowOf(rows: seq<ChildOrder>, id: nat) returns (k: nat)
    requires HasId(rows, id)
    ensures k < |rows| && rows[k].id == id
  {
    k :| 0 <= k < |rows| && rows[k].id == id;
  }

  lemma HeardRowHeals(r: Record, v: VenueState, row: ChildOrder, i: nat)
    requires Tied(r, v) && i < |r.children| && row.id == r.children[i].id
    requires CurrentRow(v, row) && Idempotence.RowAbsorbed(r.children, row)
    requires IndexOf(r.children, row.id) == Some(i)
    ensures Current(v.orders[row.id], r.children[i].status, r.children[i].confirmed)
  {
    hide LedgerView, ChildOk;
    CoupledChild(r.children, v, i);
    NothingLeftToLearn(r.children[i], v);
  }

  // ---- exact price inputs ----

  /** The venue's trades as ledger entries. */
  function VenueEntries(trades: seq<Trade>): seq<TradeEntry> {
    if trades == [] then []
    else VenueEntries(trades[..|trades| - 1]) + [EntryOfTrade(|trades|, trades[|trades| - 1])]
  }

  lemma {:induction false} VenueEntryAt(trades: seq<Trade>)
    ensures |VenueEntries(trades)| == |trades|
    ensures forall k :: 0 <= k < |trades| ==> VenueEntries(trades)[k] == EntryOfTrade(k + 1, trades[k])
  {
    if trades != [] {
      VenueEntryAt(trades[..|trades| - 1]);
    }
  }

  lemma EntryOrderIsTotal()
    ensures TotalOrder(EntryLe)
  {}

  ghost predicate DistinctEntries(entries: seq<TradeEntry>) {
    forall j: nat, k: nat :: j < k < |entries| ==> TradesDiffer(entries, j, k)
  }

  lemma {:induction false} OccursOnce(entries: seq<TradeEntry>, e: TradeEntry)
    requires DistinctEntries(entries)
    ensures multiset(entries)[e] == if e in entries then 1 else 0
  {
    if entries != [] {
      var n := |entries| - 1;
      forall j: nat, k: nat | j < k < n ensures TradesDiffer(entries[..n], j, k) {
        assert TradesDiffer(entries, j, k);
      }
      OccursOnce(entries[..n], e);
      assert entries == entries[..n] + [entries[n]];
      forall j: nat | j < n ensures entries[j] != entries[n] {
        assert TradesDiffer(entries, j, n);
      }
    }
  }

  lemma SameEntriesSameBag(a: seq<TradeEntry>, b: seq<TradeEntry>)
    requires DistinctEntries(a) && DistinctEntries(b)
    requires forall e :: e in a <==> e in b
    ensures multiset(a) == multiset(b)
  {
    forall e ensures multiset(a)[e] == multiset(b)[e] {
      OccursOnce(a, e);
      OccursOnce(b, e);
    }
  }

  /** No two different entries of a ledger tie in the sort order. */
  lemma DistinctEntriesDoNotTie(entries: seq<TradeEntry>)
    requires DistinctEntries(entries)
    ensures AntiSymmetricOn(entries, EntryLe)
  {
    forall x, y | x in entries && y in entries && EntryLe(x, y) && EntryLe(y, x) ensures x == y {
      var j: nat :| j < |entries| && entries[j] == x;
      var k: nat :| k < |entries| && entries[k] == y;
      SameIdSamePlace(entries, j, k);
    }
  }

  lemma SameIdSamePlace(entries: seq<TradeEntry>, j: nat, k: nat)
    requires DistinctEntries(entries) && j < |entries| && k < |entries| && entries[j].id == entries[k].id
    ensures j == k
  {
    var lo, hi := if j < k then j else k, if j < k then k else j;
    assert lo < hi ==> TradesDiffer(entries, lo, hi);
  }

  lemma SortedBagIsCanonical(a: seq<TradeEntry>, b: seq<TradeEntry>)
    requires DistinctEntries(a) && multiset(a) == multiset(b)
    ensures Sort(a, EntryLe) == Sort(b, EntryLe)
  {
    EntryOrderIsTotal();
    SortSorts(a, EntryLe);
    SortSorts(b, EntryLe);
    DistinctEntriesDoNotTie(a);
    SortMembers(a, EntryLe);
    assert AntiSymmetricOn(Sort(a, EntryLe), EntryLe);
    SortedIsUnique(Sort(a, EntryLe), Sort(b, EntryLe), EntryLe);
  }

  ghost predicate AllSeen(v: VenueState, seen: set<nat>) {
    forall n: nat :: KnownTrade(v, n) ==> n in seen
  }

  /** Once every trade of the venue was seen, in whatever batches and order, the ledger holds
      the venue's trades. */
  lemma AllSeenMeansAllHeld(r: Record, v: VenueState)
    requires Ledger(r) && LedgerView(r, v)
    requires AllSeen(v, r.seen)
    ensures multiset(r.trades) == multiset(VenueEntries(v.trades))
    ensures DistinctEntries(r.trades)
  {
    hide DistinctEntries, EntryAt, HasTrade, KnownTrade, AllSeen, LedgerView, InputsMatch;
    var entries := VenueEntries(v.trades);
    VenueEntriesDiffer(v.trades);
    HeldEntriesDiffer(r.trades, r.seen);
    forall e ensures e in r.trades <==> e in entries {
      if e in r.trades { HeldIsTraded(r, v, e); }
      if e in entries { TradedIsHeld(r, v, e); }
    }
    SameEntriesSameBag(r.trades, entries);
  }

  lemma VenueEntriesDiffer(trades: seq<Trade>)
    ensures DistinctEntries(VenueEntries(trades))
  {
    var entries := VenueEntries(trades);
    VenueEntryAt(trades);
    forall j: nat, k: nat | j < k < |entries| ensures TradesDiffer(entries, j, k) {
      assert entries[j].id == j + 1 && entries[k].id == k + 1;
    }
  }

  lemma HeldEntriesDiffer(trades: seq<TradeEntry>, seen: set<nat>)
    requires TradesOnce(trades, seen)
    ensures DistinctEntries(trades)
  {}

  /** Every held entry is a trade of the venue. */
  lemma HeldIsTraded(r: Record, v: VenueState, e: TradeEntry)
    requires LedgerView(r, v) && e in r.trades
    ensures e in VenueEntries(v.trades)
  {
    VenueEntryAt(v.trades);
    var k: nat :| k < |r.trades| && r.trades[k] == e;
    assert EntryAt(r.trades, v, k);
    assert e == VenueEntries(v.trades)[e.id - 1];
  }

  /** Every trade that was seen is held. */
  lemma TradedIsHeld(r: Record, v: VenueState, e: TradeEntry)
    requires LedgerView(r, v) && AllSeen(v, r.seen) && e in VenueEntries(v.trades)
    ensures e in r.trades
  {
    VenueEntryAt(v.trades);
    var n :| 0 <= n < |VenueEntries(v.trades)| && VenueEntries(v.trades)[n] == e;
    assert KnownTrade(v, n + 1);
    assert HasTrade(r.trades, n + 1);
    var k: nat :| k < |r.trades| && r.trades[k].id == n + 1;
    assert EntryAt(r.trades, v, k);
  }

  /** The venue's own (price, quantity) trades in sort-key order. */
  function TrueInputs(trades: seq<Trade>): seq<PriceQuantity> {
    Pairs(Sort(VenueEntries(trades), EntryLe))
  }

  lemma {:induction false} PairsLength(entries: seq<TradeEntry>)
    ensures |Pairs(entries)| == |entries|
  {
    if entries != [] { PairsLength(entries[..|entries| - 1]); }
  }

  lemma HeldMeansExact(r: Record, v: VenueState)
    requires Ledger(r) && LedgerView(r, v)
    requires AllSeen(v, r.seen)
    ensures r.fillInputs == TrueInputs(v.trades)
  {
    AllSeenMeansAllHeld(r, v);
    SortedBagIsCanonical(r.trades, VenueEntries(v.trades));
    assert r.fillInputs == Pairs(Sort(r.trades, EntryLe)) + [];
  }

  lemma {:induction false} VenueSums(trades: seq<Trade>, maker: bool)
    ensures SideQuantity(VenueEntries(trades), maker) == TradedAs(trades, maker)
    ensures EntryNotional(VenueEntries(trades)) == TradedNotional(trades)
  {
    hide SideQuantity, EntryNotional;
    if trades == [] {
      NoEntries(maker);
    } else {
      var n := |trades| - 1;
      VenueSums(trades[..n], maker);
      SideAppend(VenueEntries(trades[..n]), EntryOfTrade(|trades|, trades[n]), maker);
      NotionalEntryOne(VenueEntries(trades[..n]), EntryOfTrade(|trades|, trades[n]));
    }
  }

  lemma NoEntries(maker: bool)
    ensures SideQuantity([], maker) == 0 && EntryNotional([]) == 0
  {}

  /** With every trade seen the accepted trades of each side, and their worth, are the venue's own. */
  lemma HeldSums(r: Record, v: VenueState, maker: bool)
    requires Ledger(r) && LedgerView(r, v) && AllSeen(v, r.seen)
    ensures SideQuantity(r.trades, maker) == TradedAs(v.trades, maker)
    ensures EntryNotional(r.trades) == TradedNotional(v.trades)
  {
    hide LedgerWith, LedgerView, AllSeen, SideQuantity, EntryNotional, DistinctEntries;
    AllSeenMeansAllHeld(r, v);
    SortedBagIsCanonical(r.trades, VenueEntries(v.trades));
    SortedSums(r.trades, maker);
    SortedSums(VenueEntries(v.trades), maker);
    VenueSums(v.trades, maker);
  }

  lemma HeldSides(r: Record, v: VenueState)
    requires Ledger(r) && LedgerView(r, v) && AllSeen(v, r.seen)
    ensures r.maker == TradedAs(v.trades, true) && r.taker == TradedAs(v.trades, false)
    ensures EntryNotional(r.trades) + EntryNotional(r.anonymous) == TradedNotional(v.trades)
  {
    hide Booked, OnlyChildren, TradesOnce, DistinctIds, RebuiltInputs, Quantity, LedgerLength, EntryAt, HasTrade, IntervalAt;
    HeldSums(r, v, true);
    HeldSums(r, v, false);
    NoEntries(true);
    NoEntries(false);
  }

  lemma {:induction false} TrueQuantity(trades: seq<Trade>)
    ensures Quantity(Pairs(Sort(VenueEntries(trades), EntryLe))) == Traded(trades)
  {
    if trades != [] {
      var n := |trades| - 1;
      TrueQuantity(trades[..n]);
      var entries := VenueEntries(trades);
      VenueEntryAt(trades[..n]);
      assert entries[..|entries| - 1] == VenueEntries(trades[..n]);
      QuantityInsert(entries[|entries| - 1], Sort(VenueEntries(trades[..n]), EntryLe));
    }
  }

  /** Every child with an order has confirmed all the order has filled. */
  ghost predicate FullyConfirmed(children: seq<ChildOrder>, v: VenueState) {
    forall i :: 0 <= i < |children| && children[i].id in v.orders ==>
      children[i].confirmed == v.orders[children[i].id].filled
  }

  lemma {:induction false} ConfirmedIsFilled(children: seq<ChildOrder>, v: VenueState)
    requires VenueOk(v) && FullyConfirmed(children, v) && Coupled(children, v)
    ensures Sum(children, ConfirmedOf) == SumFilled(children, v.trades)
  {
    if children != [] {
      var n := |children| - 1;
      forall i: nat | i < n ensures ChildOkAt(children[..n], v, i) {
        assert ChildOkAt(children, v, i);
      }
      assert forall i :: 0 <= i < n ==> children[..n][i] == children[i];
      ConfirmedIsFilled(children[..n], v);
      CoupledChild(children, v, n);
      var id := children[n].id;
      if id in v.orders {
        assert OrderOk(v, id);
      } else {
        NoTradesWithoutOrder(v, |v.trades|, id);
        assert v.trades[..|v.trades|] == v.trades;
      }
    }
  }

  lemma TradesTraced(children: seq<ChildOrder>, v: VenueState)
    requires VenueOk(v) && Traced(children, v)
    ensures forall k :: 0 <= k < |v.trades| ==> HasId(children, v.trades[k].client)
  {
    forall k | 0 <= k < |v.trades| ensures HasId(children, v.trades[k].client) {
      assert TradeOk(v, k);
    }
  }

  lemma {:induction false} NothingUncovered(children: seq<ChildOrder>, intervals: map<nat, seq<Interval>>)
    requires Quantity(UncoveredInputs(children, intervals)) == 0
    ensures UncoveredInputs(children, intervals) == []
  {
    UncoveredPositive(children, intervals);
    QuantityNonNegative(UncoveredInputs(children, intervals));
  }

  /** With every trade seen and every fill confirmed the summary reports the venue's own
      trades, nothing is uncovered, and so the reported average price is the true one. */
  lemma SummaryIsExact(r: Record, v: VenueState)
    requires Ledger(r) && Tied(r, v) && Traced(r.children, v)
    requires AllSeen(v, r.seen)
    requires FullyConfirmed(r.children, v)
    ensures SummaryInputs(r) == TrueInputs(v.trades)
    ensures Vwap(SummaryInputs(r)) == Vwap(TrueInputs(v.trades))
    ensures Sum(r.children, ConfirmedOf) == Traded(v.trades)
    ensures r.maker == TradedAs(v.trades, true) && r.taker == TradedAs(v.trades, false)
    ensures Notional(SummaryInputs(r)) == TradedNotional(v.trades)
    ensures Traded(v.trades) > 0 ==> Vwap(SummaryInputs(r)) * Traded(v.trades) as real == TradedNotional(v.trades) as real
  {
    hide TrueInputs, LedgerView, Coupled, VenueOk, Booked, OnlyChildren, TradesOnce, Inputs, FullyConfirmed, Traced;
    HeldMeansExact(r, v);
    assert Quantity(r.fillInputs) == Traded(v.trades) by { TrueInputsQuantity(v.trades); }
    TradesTraced(r.children, v);
    TradedForChildren(r.children, v.trades);
    ConfirmedIsFilled(r.children, v);
    UncoveredQuantity(r.children, r.intervals);
    ProvisionalQuantity(r.children);
    if r.fillInputs == [] {
      NothingProvisional(r.children);
    } else {
      NothingUncovered(r.children, r.intervals);
      assert r.fillInputs + [] == r.fillInputs;
    }
    ExactVwap(r, v);
  }

  lemma ExactVwap(r: Record, v: VenueState)
    requires Ledger(r) && LedgerView(r, v) && AllSeen(v, r.seen)
    requires SummaryInputs(r) == TrueInputs(v.trades)
    ensures r.maker == TradedAs(v.trades, true) && r.taker == TradedAs(v.trades, false)
    ensures Notional(SummaryInputs(r)) == TradedNotional(v.trades)
    ensures Traded(v.trades) > 0 ==> Vwap(SummaryInputs(r)) * Traded(v.trades) as real == TradedNotional(v.trades) as real
  {
    hide LedgerWith, LedgerView, AllSeen, SummaryInputs, Notional, Quantity, SideQuantity, EntryNotional, Sort, EntryLe;
    HeldSides(r, v);
    SortedSums(VenueEntries(v.trades), true);
    PairsNotional(Sort(VenueEntries(v.trades), EntryLe));
    VenueSums(v.trades, true);
    TrueInputsQuantity(v.trades);
    if Traded(v.trades) > 0 { QuotientTimesBack(Notional(SummaryInputs(r)), Quantity(SummaryInputs(r))); }
  }

  lemma TrueInputsQuantity(trades: seq<Trade>)
    ensures Quantity(TrueInputs(trades)) == Traded(trades)
  {
    TrueQuantity(trades);
  }

  lemma {:induction false} NothingProvisional(children: seq<ChildOrder>)
    requires Sum(children, ConfirmedOf) == 0
    ensures ProvisionalInputs(children) == []
  {
    if children != [] {
      NonNegativeSums(children[..|children| - 1]);
      NothingProvisional(children[..|children| - 1]);
    }
  }

  /** A result that lists every trade of the venue and the present state of every order. */
  ghost predicate Complete(v: VenueState, result: ReconciliationResult) {
    && CurrentRows(v, result.orders)
    && (forall k :: 0 <= k < |v.trades| ==> FillOfTrade(k, v.trades[k]) in result.fills)
  }

  /** However earlier fills were batched, ordered, repeated or windowed, one complete
      reconciliation makes the reported price inputs equal to the venue's own trades in
      sort-key order. */
  lemma DeliveryIsConfluent(r: Record, v: VenueState, result: ReconciliationResult)
    requires Ledger(r) && Tied(r, v) && Traced(r.children, v)
    requires ResultOk(v, result) && WarningOk(v, r.children, result) && Complete(v, result)
    ensures ApplyResult(r, result).fillInputs == TrueInputs(v.trades)
    ensures SummaryInputs(ApplyResult(r, result)) == TrueInputs(v.trades)
    ensures Sum(ApplyResult(r, result).children, ConfirmedOf) == Traded(v.trades)
    ensures
      var r' := ApplyResult(r, result);
      && r'.maker == TradedAs(v.trades, true) && r'.taker == TradedAs(v.trades, false)
      && (Traded(v.trades) > 0 ==> Vwap(SummaryInputs(r')) * Traded(v.trades) as real == TradedNotional(v.trades) as real)
  {
    hide TrueInputs, Tied, Traced, ResultOk, WarningOk, CurrentRows, ApplyEvidence, ApplyWarning, ChildrenAdvanced, LedgerWith,
         Recomputed, DistinctIds, SummaryInputs, Vwap, Current, Sum, FillOfTrade;
    var r1 := ApplyWarning(ApplyEvidence(r, result), result);
    var r' := ApplyResult(r, result);
    EvidenceInforms(r, v, result);
    DeliveryInforms(r, v, result);
    ReconciliationKeepsLedger(r, result);
    LedgerDistinct(r);
    ReconciliationHeals(r, v, result);
    WarningKeepsSeen(ApplyEvidence(r, result), result);
    assert r'.seen == r1.seen && r'.children == r1.children;
    TiedIgnoresBuckets(r1, r', v);
    AdvancedKeepsTraced(r.children, r'.children, v);
    assert FullyConfirmed(r'.children, v) by {
      forall i | 0 <= i < |r'.children| && r'.children[i].id in v.orders
        ensures r'.children[i].confirmed == v.orders[r'.children[i].id].filled
      {
        assert r.children[i].id in v.orders;
        CurrentConfirmed(v.orders[r.children[i].id], r'.children[i].status, r'.children[i].confirmed);
      }
    }
    forall n: nat | KnownTrade(v, n) ensures n in r'.seen {
      assert FillOfTrade(n - 1, v.trades[n - 1]) in result.fills;
      FillOfTradeId(n - 1, v.trades[n - 1]);
    }
    HeldMeansExact(r', v) by { TiedParts(r', v); }
    SummaryIsExact(r', v);
  }

  lemma FillOfTradeId(k: nat, t: Trade)
    ensures FillOfTrade(k, t).tradeId == Some(k + 1)
  {}

  lemma CurrentConfirmed(o: Order, status: ChildStatus, filled: nat)
    requires Current(o, status, filled)
    ensures filled == o.filled
  {}

  lemma TiedParts(r: Record, v: VenueState)
    requires Tied(r, v)
    ensures LedgerView(r, v) && VenueOk(v)
  {}

  lemma LedgerDistinct(r: Record)
    requires Ledger(r)
    ensures DistinctIds(r.children)
  {}

  lemma TiedIgnoresBuckets(r: Record, r': Record, v: VenueState)
    requires Tied(r, v)
    requires r'.children == r.children && r'.anonymous == r.anonymous && r'.trades == r.trades
    requires r'.seen == r.seen && r'.intervals == r.intervals
    ensures Tied(r', v)
  {
    hide Coupled, LedgerView, VenueOk;
    ViewIgnoresChildren(r, r', v);
  }

  lemma WarningKeepsSeen(r: Record, result: ReconciliationResult)
    ensures ApplyWarning(r, result).seen == r.seen
  {
    Idempotence.RejectMissingShape(r, ClientsOfOrders(result.orders), 0);
  }
}
