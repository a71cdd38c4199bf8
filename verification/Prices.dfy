/** What the reported average price is made of: the price inputs as money, not only as quantity, and
    the maker and taker totals as sums over the accepted trades. */
module Prices {
  import opened Models
  import opened Intervals
  import opened Sorting
  import opened Records
  import opened FillLedger
  import Schedule

  // ---- sums that do not depend on order ----

  lemma {:induction false} NotionalAppend(a: seq<PriceQuantity>, b: seq<PriceQuantity>)
    ensures Notional(a + b) == Notional(a) + Notional(b)
  {
    if b == [] {
      assert a + b == a;
    } else {
      var n := |b| - 1;
      NotionalAppend(a, b[..n]);
      assert (a + b)[..|a| + n] == a + b[..n];
    }
  }

  lemma NotionalOne(a: seq<PriceQuantity>, p: PriceQuantity)
    ensures Notional(a + [p]) == Notional(a) + p.price * p.quantity
  {
    assert (a + [p])[..|a|] == a;
  }

  lemma {:induction false} PairsNotional(entries: seq<TradeEntry>)
    ensures Notional(Pairs(entries)) == EntryNotional(entries)
  {
    if entries != [] {
      var n := |entries| - 1;
      PairsNotional(entries[..n]);
      NotionalOne(Pairs(entries[..n]), entries[n].Pair());
    }
  }

  lemma NotionalEntryOne(entries: seq<TradeEntry>, e: TradeEntry)
    ensures EntryNotional(entries + [e]) == EntryNotional(entries) + e.price * e.quantity
  {
    assert (entries + [e])[..|entries|] == entries;
  }

  lemma {:induction false} InsertedSums(e: TradeEntry, s: seq<TradeEntry>, maker: bool)
    ensures EntryNotional(Insert(e, s, EntryLe)) == EntryNotional(s + [e])
    ensures SideQuantity(Insert(e, s, EntryLe), maker) == SideQuantity(s + [e], maker)
  {
    hide EntryNotional, SideQuantity, EntryLe;
    NotionalEntryOne(s, e);
    SideAppend(s, e, maker);
    if s == [] || EntryLe(s[|s| - 1], e) {
    } else {
      var n := |s| - 1;
      InsertedSums(e, s[..n], maker);
      var inserted := Insert(e, s[..n], EntryLe);
      assert s[..n] + [s[n]] == s;
      NotionalEntryOne(s[..n], e);
      SideAppend(s[..n], e, maker);
      NotionalEntryOne(s[..n], s[n]);
      SideAppend(s[..n], s[n], maker);
      NotionalEntryOne(inserted, s[n]);
      SideAppend(inserted, s[n], maker);
    }
  }

  lemma {:induction false} SortedSums(s: seq<TradeEntry>, maker: bool)
    ensures EntryNotional(Sort(s, EntryLe)) == EntryNotional(s)
    ensures SideQuantity(Sort(s, EntryLe), maker) == SideQuantity(s, maker)
  {
    if s != [] {
      var n := |s| - 1;
      SortedSums(s[..n], maker);
      InsertedSums(s[n], Sort(s[..n], EntryLe), maker);
      NotionalEntryOne(Sort(s[..n], EntryLe), s[n]);
      SideAppend(Sort(s[..n], EntryLe), s[n], maker);
    }
  }

  /** The rebuilt inputs are worth what the accepted trades were traded for. */
  lemma RebuiltNotional(trades: seq<TradeEntry>, anonymous: seq<TradeEntry>)
    ensures Notional(RebuiltInputs(trades, anonymous)) == EntryNotional(trades) + EntryNotional(anonymous)
  {
    SortedSums(trades, true);
    PairsNotional(Sort(trades, EntryLe));
    PairsNotional(anonymous);
    NotionalAppend(Pairs(Sort(trades, EntryLe)), Pairs(anonymous));
  }

  // ---- what no trade is booked for ----

  lemma BookedPrefix(children: seq<ChildOrder>, intervals: map<nat, seq<Interval>>)
    requires children != [] && Booked(children, intervals, [])
    ensures Booked(children[..|children| - 1], intervals, [])
    ensures
      var c := children[|children| - 1];
      Ledgered(IntervalsOf(intervals, c.id), c.confirmed)
  {
    var n := |children| - 1;
    forall i: nat | i < n ensures BookedAt(children[..n], intervals, [], i) {
      assert BookedAt(children, intervals, [], i);
    }
    assert BookedAt(children, intervals, [], n);
  }

  /** What a child's intervals leave uncovered is its confirmed quantity less their lengths. */
  lemma UncoveredIsRest(c: ChildOrder, intervals: map<nat, seq<Interval>>)
    requires Ledgered(IntervalsOf(intervals, c.id), c.confirmed)
    ensures Uncovered(c, intervals) == c.confirmed - TotalLength(IntervalsOf(intervals, c.id)) >= 0
  {
    DisjointMeasure(IntervalsOf(intervals, c.id), c.confirmed);
    CoveredWithin(IntervalsOf(intervals, c.id), c.confirmed);
  }

  lemma {:induction false} UncoveredInputsNotional(children: seq<ChildOrder>, intervals: map<nat, seq<Interval>>)
    requires Booked(children, intervals, [])
    ensures Notional(UncoveredInputs(children, intervals)) == UncoveredNotional(children, intervals)
  {
    hide Booked, Ledgered, TotalLength, Uncovered;
    if children != [] {
      var n := |children| - 1;
      var c := children[n];
      BookedPrefix(children, intervals);
      UncoveredInputsNotional(children[..n], intervals);
      UncoveredIsRest(c, intervals);
      if Uncovered(c, intervals) > 0 {
        NotionalOne(UncoveredInputs(children[..n], intervals), PriceQuantity(c.price, Uncovered(c, intervals)));
      } else {
        assert UncoveredInputs(children[..n], intervals) + [] == UncoveredInputs(children[..n], intervals);
      }
    }
  }

  lemma LengthNonNegative(children: seq<ChildOrder>, intervals: map<nat, seq<Interval>>)
    requires Booked(children, intervals, [])
    ensures LedgerLength(children, intervals) >= 0
  {
    hide Booked, Ledgered, TotalLength;
    if children != [] {
      BookedPrefix(children, intervals);
      LengthNonNegative(children[..|children| - 1], intervals);
      LengthOfLedgered(IntervalsOf(intervals, children[|children| - 1].id), children[|children| - 1].confirmed);
    }
  }

  lemma LengthOfLedgered(intervals: seq<Interval>, limit: nat)
    requires Ledgered(intervals, limit)
    ensures TotalLength(intervals) >= 0
  {
    DisjointMeasure(intervals, limit);
  }

  /** With nothing booked the children's confirmed quantities count at their own prices. */
  lemma {:induction false} ProvisionalNotional(children: seq<ChildOrder>, intervals: map<nat, seq<Interval>>)
    requires Booked(children, intervals, []) && LedgerLength(children, intervals) == 0
    ensures Notional(ProvisionalInputs(children)) == UncoveredNotional(children, intervals)
  {
    hide Booked, Ledgered, TotalLength;
    if children != [] {
      var n := |children| - 1;
      var c := children[n];
      BookedPrefix(children, intervals);
      LengthNonNegative(children[..n], intervals);
      LengthOfLedgered(IntervalsOf(intervals, c.id), c.confirmed);
      ProvisionalNotional(children[..n], intervals);
      if c.confirmed > 0 {
        NotionalOne(ProvisionalInputs(children[..n]), PriceQuantity(c.price, c.confirmed));
      } else {
        assert ProvisionalInputs(children[..n]) + [] == ProvisionalInputs(children[..n]);
      }
    }
  }

  /** In every state of the ledger the reported inputs are worth the accepted trades at their own
      prices, and child by child what no trade is booked for at the child's limit price. */
  lemma SummaryNotional(r: Record)
    requires Ledger(r)
    ensures Notional(SummaryInputs(r))
            == EntryNotional(r.trades) + EntryNotional(r.anonymous) + UncoveredNotional(r.children, r.intervals)
  {
    hide Booked, OnlyChildren, TradesOnce, DistinctIds, Notional, EntryNotional, UncoveredNotional, ProvisionalInputs, UncoveredInputs,
         LedgerLength, RebuiltInputs, SideQuantity;
    RebuiltNotional(r.trades, r.anonymous);
    if r.fillInputs == [] {
      assert Quantity(r.fillInputs) == 0;
      ProvisionalNotional(r.children, r.intervals);
      NoNotional();
    } else {
      UncoveredInputsNotional(r.children, r.intervals);
      NotionalAppend(r.fillInputs, UncoveredInputs(r.children, r.intervals));
    }
  }

  lemma NoNotional()
    ensures Notional([]) == 0
  {}

  // ---- every input is a positive quantity ----

  ghost predicate PositiveInputs(inputs: seq<PriceQuantity>) {
    forall k :: 0 <= k < |inputs| ==> inputs[k].quantity > 0
  }

  lemma {:induction false} PositivePairs(entries: seq<TradeEntry>)
    requires PositiveEntries(entries)
    ensures PositiveInputs(Pairs(entries))
  {
    if entries != [] {
      PositivePairs(entries[..|entries| - 1]);
    }
  }

  lemma PositiveSorted(entries: seq<TradeEntry>)
    requires PositiveEntries(entries)
    ensures PositiveEntries(Sort(entries, EntryLe))
  {
    hide Sort, EntryLe;
    EntriesAreOrdered();
    SortMembers(entries, EntryLe);
    var sorted := Sort(entries, EntryLe);
    forall k | 0 <= k < |sorted| ensures sorted[k].quantity > 0 {
      assert sorted[k] in entries;
    }
  }

  lemma EntriesAreOrdered()
    ensures TotalOrder(EntryLe)
  {}

  lemma {:induction false} ProvisionalPositive(children: seq<ChildOrder>)
    ensures PositiveInputs(ProvisionalInputs(children))
  {
    if children != [] {
      ProvisionalPositive(children[..|children| - 1]);
    }
  }

  lemma SummaryPositive(r: Record)
    requires Ledger(r)
    ensures PositiveInputs(SummaryInputs(r))
  {
    hide Booked, OnlyChildren, TradesOnce, DistinctIds, ProvisionalInputs, UncoveredInputs, LedgerLength, SideQuantity, Sort, Pairs,
         PositiveEntries;
    PositiveSorted(r.trades);
    PositivePairs(Sort(r.trades, EntryLe));
    PositivePairs(r.anonymous);
    ProvisionalPositive(r.children);
    UncoveredPositive(r.children, r.intervals);
  }

  // ---- the average ----

  ghost predicate PricesWithin(inputs: seq<PriceQuantity>, lo: int, hi: int) {
    forall k :: 0 <= k < |inputs| ==> lo <= inputs[k].price <= hi
  }

  lemma ScaledPrice(lo: int, price: int, hi: int, quantity: int)
    requires lo <= price <= hi && quantity > 0
    ensures lo * quantity <= price * quantity <= hi * quantity
  {
    assert (price - lo) * quantity >= 0 && (hi - price) * quantity >= 0;
  }

  lemma {:induction false} NotionalWithin(inputs: seq<PriceQuantity>, lo: int, hi: int)
    requires PositiveInputs(inputs) && PricesWithin(inputs, lo, hi)
    ensures lo * Quantity(inputs) <= Notional(inputs) <= hi * Quantity(inputs)
    ensures inputs != [] ==> Quantity(inputs) > 0
    ensures Quantity(inputs) >= 0
  {
    if inputs != [] {
      var n := |inputs| - 1;
      NotionalWithin(inputs[..n], lo, hi);
      ScaledPrice(lo, inputs[n].price, hi, inputs[n].quantity);
      Distribute(lo, Quantity(inputs[..n]), inputs[n].quantity);
      Distribute(hi, Quantity(inputs[..n]), inputs[n].quantity);
    }
  }

  lemma Distribute(a: int, x: int, y: int)
    ensures a * (x + y) == a * x + a * y
  {}

  lemma MeanBetween(notional: int, quantity: int, lo: int, hi: int)
    requires quantity > 0 && lo * quantity <= notional <= hi * quantity
    ensures lo as real <= notional as real / quantity as real <= hi as real
  {
    var mean := notional as real / quantity as real;
    assert mean * quantity as real == notional as real;
    assert (lo * quantity) as real == lo as real * quantity as real;
    assert (hi * quantity) as real == hi as real * quantity as real;
    if mean < lo as real { Schedule.MulStrict(mean, lo as real, quantity as real); }
    if mean > hi as real { Schedule.MulStrict(hi as real, mean, quantity as real); }
  }

  lemma QuotientTimesBack(notional: int, quantity: int)
    requires quantity != 0
    ensures notional as real / quantity as real * quantity as real == notional as real
  {}

  /** The reported average is the quantity-weighted mean of the inputs: times their quantity it is
      their notional, and it lies between any bounds of their prices. */
  lemma VwapIsMean(inputs: seq<PriceQuantity>, lo: int, hi: int)
    requires PositiveInputs(inputs) && PricesWithin(inputs, lo, hi) && inputs != []
    ensures Vwap(inputs) * Quantity(inputs) as real == Notional(inputs) as real
    ensures lo as real <= Vwap(inputs) <= hi as real
  {
    hide Quantity, Notional;
    NotionalWithin(inputs, lo, hi);
    QuotientTimesBack(Notional(inputs), Quantity(inputs));
    MeanBetween(Notional(inputs), Quantity(inputs), lo, hi);
  }

  /** The average price of a summary, as money over the confirmed quantity. */
  lemma SummaryVwap(r: Record)
    requires Ledger(r) && Sum(r.children, ConfirmedOf) > 0
    ensures Vwap(SummaryInputs(r)) * Sum(r.children, ConfirmedOf) as real
            == (EntryNotional(r.trades) + EntryNotional(r.anonymous) + UncoveredNotional(r.children, r.intervals)) as real
  {
    hide Ledger, SummaryInputs, EntryNotional, UncoveredNotional, Sum, Quantity, Notional;
    SummaryQuantityIsConserved(r);
    SummaryNotional(r);
    QuotientTimesBack(Notional(SummaryInputs(r)), Quantity(SummaryInputs(r)));
  }

  // ---- the order of the inputs ----

  lemma FillsAreOrdered()
    ensures TotalOrder(FillLe)
  {}

  /** The fills of a result are taken over by event time, then transaction time, then trade id; a
      missing part comes first. */
  lemma FillsInKeyOrder(fills: seq<Fill>, i: nat, j: nat)
    requires i < j < |Sort(fills, FillLe)|
    ensures
      var (a, b) := (Sort(fills, FillLe)[i], Sort(fills, FillLe)[j]);
      && OrZero(a.eventTime) <= OrZero(b.eventTime)
      && (OrZero(a.eventTime) == OrZero(b.eventTime) ==> OrZero(a.transactionTime) <= OrZero(b.transactionTime))
      && (OrZero(a.eventTime) == OrZero(b.eventTime) && OrZero(a.transactionTime) == OrZero(b.transactionTime) && a.tradeId.Some? ==>
            b.tradeId.Some? && a.tradeId.value <= b.tradeId.value)
  {
    hide Sort;
    FillsAreOrdered();
    SortSorts(fills, FillLe);
    assert FillLe(Sort(fills, FillLe)[i], Sort(fills, FillLe)[j]);
  }

  /** The rebuilt inputs come by event time, then transaction time, then trade id. */
  lemma InputsInKeyOrder(trades: seq<TradeEntry>, i: nat, j: nat)
    requires i < j < |Sort(trades, EntryLe)|
    ensures
      var (a, b) := (Sort(trades, EntryLe)[i], Sort(trades, EntryLe)[j]);
      && a.event <= b.event
      && (a.event == b.event ==> a.transaction <= b.transaction)
      && (a.event == b.event && a.transaction == b.transaction ==> a.id <= b.id)
  {
    hide Sort;
    EntriesAreOrdered();
    SortSorts(trades, EntryLe);
    assert EntryLe(Sort(trades, EntryLe)[i], Sort(trades, EntryLe)[j]);
  }
}
