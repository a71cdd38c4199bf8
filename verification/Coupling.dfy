/** The record is an earlier view of the venue, child by child and trade by trade, and every
    piece of evidence a venue can give keeps it one. */
module Coupling {
  import opened Models
  import opened StateMachine
  import opened Intervals
  import opened Sorting
  import opened Records
  import opened FillLedger
  import opened Venues
  import Idempotence

  // ---- one child against its order ----

  ghost predicate ChildOk(c: ChildOrder, v: VenueState) {
    && c.submitted > 0
    && (c.id in v.orders ==> v.orders[c.id].quantity == c.submitted && c.confirmed <= v.orders[c.id].filled)
    && (c.id in v.inflight ==> v.inflight[c.id] == c.submitted)
    && (c.id !in v.orders ==> c.confirmed == 0)
    && match c.status
       case Rejected => Absent(v, c.id)
       case ChildCancelled => c.id in v.orders && v.orders[c.id].cancelled && v.orders[c.id].filled == c.confirmed
       case Filled => c.id in v.orders && c.confirmed == c.submitted
       case PartiallyFilled => c.id in v.orders && c.confirmed > 0
       case Open => c.id in v.orders
       case PendingCancel => c.id in v.orders
       case PendingSubmit => true
       case Unknown => true
  }

  ghost predicate ChildOkAt(children: seq<ChildOrder>, v: VenueState, i: nat)
    requires i < |children|
  {
    ChildOk(children[i], v)
  }

  ghost predicate Coupled(children: seq<ChildOrder>, v: VenueState) {
    forall i: nat :: i < |children| ==> ChildOkAt(children, v, i)
  }

  /** Every order and every request in flight belongs to a child. */
  ghost predicate Traced(children: seq<ChildOrder>, v: VenueState) {
    forall id :: id in v.orders || id in v.inflight ==> HasId(children, id)
  }

  /** A child's confirmed plus reserved quantity dominates what its order may fill. */
  lemma ChildDominatesOrder(c: ChildOrder, v: VenueState)
    requires VenueOk(v) && ChildOk(c, v)
    ensures c.id in v.orders ==> v.orders[c.id].Exposure() <= CommittedOf(c)
    ensures c.confirmed <= c.submitted
  {
    if c.id in v.orders {
      assert OrderOk(v, c.id);
    }
  }

  lemma EvolutionKeepsChild(c: ChildOrder, v: VenueState, v': VenueState)
    requires ChildOk(c, v) && VenueOk(v) && Evolves(v, v')
    ensures ChildOk(c, v')
  {
    assert OrderEvolves(v, v', c.id);
    if c.id in v'.orders { assert OrderOk(v', c.id); }
    if c.id in v.orders { assert OrderOk(v, c.id); }
  }

  /** Taking over any report of its order keeps a child a view of that order, commits it to no
      more than before, and leaves a finished child alone. */
  lemma ReportKeepsChild(c: ChildOrder, v: VenueState, status: ChildStatus, filled: nat)
    requires ChildOk(c, v) && VenueOk(v) && c.id in v.orders && ReportOk(v.orders[c.id], status, filled)
    ensures
      var c' := c.(status := SetChildStatus(c.status, status), confirmed := Max(c.confirmed, filled));
      && ChildOk(c', v) && CommittedOf(c') <= CommittedOf(c)
      && (c.status.IsTerminal() ==> c' == c)
      && c'.status != PendingSubmit
  {
    assert OrderOk(v, c.id);
  }

  // ---- what moves and what stays ----

  ghost predicate AdvancedAt(a: seq<ChildOrder>, b: seq<ChildOrder>, i: nat)
    requires i < |a| && i < |b|
  {
    && b[i].id == a[i].id && b[i].submitted == a[i].submitted && b[i].price == a[i].price
    && b[i].confirmed >= a[i].confirmed
    && CommittedOf(b[i]) <= CommittedOf(a[i])
    && (a[i].status.IsTerminal() ==> b[i] == a[i])
    && (b[i].status == PendingSubmit ==> a[i].status == PendingSubmit)
  }

  /** The same children, each further along its life. */
  ghost predicate ChildrenAdvanced(a: seq<ChildOrder>, b: seq<ChildOrder>) {
    |a| == |b| && forall i: nat :: i < |a| ==> AdvancedAt(a, b, i)
  }

  /** What no evidence touches. */
  ghost predicate LifeKept(r: Record, r': Record) {
    && r'.lastSequence == r.lastSequence && r'.submittedAt == r.submittedAt && r'.aggressive == r.aggressive
    && r'.cancelRequested == r.cancelRequested && r'.call == r.call
    && (r'.rejects == r.rejects || r'.rejects == [])
    && r'.status == r.status && r'.summary == r.summary
    && r'.attemptOpen == r.attemptOpen && r'.openings == r.openings
  }

  lemma AdvancedReflexive(a: seq<ChildOrder>)
    ensures ChildrenAdvanced(a, a)
  {
    forall i: nat | i < |a| ensures AdvancedAt(a, a, i) {}
  }

  lemma AdvancedTransitive(a: seq<ChildOrder>, b: seq<ChildOrder>, c: seq<ChildOrder>)
    requires ChildrenAdvanced(a, b) && ChildrenAdvanced(b, c)
    ensures ChildrenAdvanced(a, c)
  {
    forall i: nat | i < |a| ensures AdvancedAt(a, c, i) {
      assert AdvancedAt(a, b, i);
      assert AdvancedAt(b, c, i);
    }
  }

  lemma OneChildAdvances(a: seq<ChildOrder>, i: nat, c: ChildOrder)
    requires i < |a|
    requires c.id == a[i].id && c.submitted == a[i].submitted && c.price == a[i].price
    requires c.confirmed >= a[i].confirmed && CommittedOf(c) <= CommittedOf(a[i])
    requires a[i].status.IsTerminal() ==> c == a[i]
    requires c.status == PendingSubmit ==> a[i].status == PendingSubmit
    ensures ChildrenAdvanced(a, a[i := c])
  {
    var b := a[i := c];
    forall j: nat | j < |a| ensures AdvancedAt(a, b, j) {}
  }

  lemma OneChildCoupled(a: seq<ChildOrder>, v: VenueState, i: nat, c: ChildOrder)
    requires i < |a| && Coupled(a, v) && ChildOk(c, v)
    ensures Coupled(a[i := c], v)
  {
    var b := a[i := c];
    forall j: nat | j < |a| ensures ChildOkAt(b, v, j) {
      if j != i { assert ChildOkAt(a, v, j); }
    }
  }

  lemma AdvancedKeepsIds(a: seq<ChildOrder>, b: seq<ChildOrder>)
    requires ChildrenAdvanced(a, b)
    ensures |a| == |b| && forall i :: 0 <= i < |a| ==> a[i].id == b[i].id
  {
    forall i | 0 <= i < |a| ensures a[i].id == b[i].id {
      assert AdvancedAt(a, b, i);
    }
  }

  lemma AdvancedKeepsTraced(a: seq<ChildOrder>, b: seq<ChildOrder>, v: VenueState)
    requires ChildrenAdvanced(a, b) && Traced(a, v)
    ensures Traced(b, v)
  {
    AdvancedKeepsIds(a, b);
    forall id ensures HasId(a, id) ==> HasId(b, id) {
      if HasId(a, id) {
        var i :| 0 <= i < |a| && a[i].id == id;
        assert b[i].id == id;
      }
    }
  }

  lemma EvolutionKeepsTraced(children: seq<ChildOrder>, v: VenueState, v': VenueState)
    requires Traced(children, v) && Evolves(v, v')
    ensures Traced(children, v')
  {
    forall id: nat ensures id in v'.orders || id in v'.inflight ==> HasId(children, id) {
      assert OrderEvolves(v, v', id);
    }
  }

  /** What the children have committed never grows. */
  lemma AdvancedCommitsNoMore(a: seq<ChildOrder>, b: seq<ChildOrder>)
    requires ChildrenAdvanced(a, b)
    ensures Sum(b, CommittedOf) <= Sum(a, CommittedOf)
    ensures Sum(a, ConfirmedOf) <= Sum(b, ConfirmedOf)
  {
    forall i | 0 <= i < |a|
      ensures CommittedOf(b[i]) <= CommittedOf(a[i]) && ConfirmedOf(a[i]) <= ConfirmedOf(b[i])
    {
      assert AdvancedAt(a, b, i);
    }
    SumMonotone(b, a, CommittedOf, CommittedOf);
    SumMonotone(a, b, ConfirmedOf, ConfirmedOf);
  }

  // ---- the ledger against the venue's trades ----

  /** Trade ids are positions in the venue's trade list, counted from one. */
  ghost predicate KnownTrade(v: VenueState, id: nat) { 1 <= id <= |v.trades| }

  function EntryOfTrade(id: nat, t: Trade): TradeEntry {
    TradeEntry(id, t.price, t.quantity, t.time, t.time, t.isMaker)
  }

  ghost predicate EntryAt(trades: seq<TradeEntry>, v: VenueState, k: nat)
    requires k < |trades|
  {
    KnownTrade(v, trades[k].id) && trades[k] == EntryOfTrade(trades[k].id, v.trades[trades[k].id - 1])
  }

  ghost predicate HasTrade(trades: seq<TradeEntry>, id: nat) {
    exists k :: 0 <= k < |trades| && trades[k].id == id
  }

  /** Interval `j` of a child is the one of a seen trade of that child. */
  ghost predicate FromTrade(v: VenueState, seen: set<nat>, id: nat, iv: Interval, n: nat) {
    n in seen && KnownTrade(v, n) && v.trades[n - 1].client == id && iv == TradeInterval(v.trades[n - 1])
  }

  ghost predicate IntervalAt(intervals: map<nat, seq<Interval>>, v: VenueState, seen: set<nat>, id: nat, j: nat)
    requires j < |IntervalsOf(intervals, id)|
  {
    exists n :: FromTrade(v, seen, id, IntervalsOf(intervals, id)[j], n)
  }

  /** The ledger holds exactly the seen trades, each as the venue recorded it. */
  ghost predicate LedgerView(r: Record, v: VenueState) {
    && r.anonymous == []
    && (forall k: nat :: k < |r.trades| ==> EntryAt(r.trades, v, k))
    && (forall id :: id in r.seen ==> HasTrade(r.trades, id))
    && (forall id: nat, j: nat :: j < |IntervalsOf(r.intervals, id)| ==> IntervalAt(r.intervals, v, r.seen, id, j))
  }

  lemma EvolutionKeepsLedgerView(r: Record, v: VenueState, v': VenueState)
    requires LedgerView(r, v) && v.trades <= v'.trades
    ensures LedgerView(r, v')
  {
    forall k: nat | k < |r.trades| ensures EntryAt(r.trades, v', k) {
      assert EntryAt(r.trades, v, k);
    }
    forall id: nat, j: nat | j < |IntervalsOf(r.intervals, id)|
      ensures IntervalAt(r.intervals, v', r.seen, id, j)
    {
      assert IntervalAt(r.intervals, v, r.seen, id, j);
      var n :| FromTrade(v, r.seen, id, IntervalsOf(r.intervals, id)[j], n);
      assert FromTrade(v', r.seen, id, IntervalsOf(r.intervals, id)[j], n);
    }
  }

  /** A venue's fill that was not seen before is booked exactly where the venue filled it. */
  lemma VenueFillIsAccepted(r: Record, v: VenueState, i: nat, f: Fill, limit: int)
    requires VenueOk(v) && LedgerView(r, v) && FillOk(v, f) && f.tradeId.value !in r.seen
    requires i < |r.children| && r.children[i].id == f.client && limit >= f.cumulative
    ensures AcceptedInterval(r.children[i], IntervalsOf(r.intervals, f.client), f.cumulative, DetailsOf(f, limit))
            == Some(TradeInterval(v.trades[f.tradeId.value - 1]))
    ensures f.last > 0
  {
    var n := f.tradeId.value;
    var t := v.trades[n - 1];
    TradeIntervalInside(v, n - 1);
    var ivs := IntervalsOf(r.intervals, f.client);
    forall j | 0 <= j < |ivs| ensures !(TradeInterval(t).start < ivs[j].end && TradeInterval(t).end > ivs[j].start) {
      assert IntervalAt(r.intervals, v, r.seen, f.client, j);
      var m :| FromTrade(v, r.seen, f.client, ivs[j], m);
      if m < n {
        TradeIntervalsDisjoint(v, m - 1, n - 1);
      } else {
        TradeIntervalsDisjoint(v, n - 1, m - 1);
      }
    }
  }

  lemma BookedTradeKeepsView(r: Record, v: VenueState, id: nat, n: nat, t: TradeDetails)
    requires LedgerView(r, v) && KnownTrade(v, n)
    requires v.trades[n - 1].client == id && t.tradeId == Some(n)
    requires EntryOfTrade(n, v.trades[n - 1]) == EntryOf(t)
    ensures
      var r' := BookTrade(r, id, TradeInterval(v.trades[n - 1]), t);
      LedgerView(r', v) && r'.seen == r.seen + {n}
  {
    hide RebuiltInputs, IntervalAt, EntryAt, HasTrade, IntervalsOf;
    var iv := TradeInterval(v.trades[n - 1]);
    var r' := BookTrade(r, id, iv, t);
    NewEntryKnown(r.trades, v, r.seen, n);
    NewIntervalKnown(r.intervals, v, r.seen, id, n);
    assert r'.trades == r.trades + [EntryOfTrade(n, v.trades[n - 1])];
    assert r'.intervals == r.intervals[id := IntervalsOf(r.intervals, id) + [iv]];
  }

  lemma NewEntryKnown(trades: seq<TradeEntry>, v: VenueState, seen: set<nat>, n: nat)
    requires KnownTrade(v, n)
    requires forall k: nat :: k < |trades| ==> EntryAt(trades, v, k)
    requires forall id :: id in seen ==> HasTrade(trades, id)
    ensures
      var trades' := trades + [EntryOfTrade(n, v.trades[n - 1])];
      && (forall k: nat :: k < |trades'| ==> EntryAt(trades', v, k))
      && (forall id :: id in seen + {n} ==> HasTrade(trades', id))
  {
    var trades' := trades + [EntryOfTrade(n, v.trades[n - 1])];
    forall k: nat | k < |trades'| ensures EntryAt(trades', v, k) {
      if k < |trades| { assert EntryAt(trades, v, k); }
    }
    forall m | m in seen + {n} ensures HasTrade(trades', m) {
      if m == n {
        assert trades'[|trades|].id == n;
      } else {
        assert HasTrade(trades, m);
        var k :| 0 <= k < |trades| && trades[k].id == m;
        assert trades'[k].id == m;
      }
    }
  }

  lemma NewIntervalKnown(intervals: map<nat, seq<Interval>>, v: VenueState, seen: set<nat>, id: nat, n: nat)
    requires KnownTrade(v, n) && v.trades[n - 1].client == id
    requires forall x: nat, j: nat :: j < |IntervalsOf(intervals, x)| ==> IntervalAt(intervals, v, seen, x, j)
    ensures
      var intervals' := intervals[id := IntervalsOf(intervals, id) + [TradeInterval(v.trades[n - 1])]];
      forall x: nat, j: nat :: j < |IntervalsOf(intervals', x)| ==> IntervalAt(intervals', v, seen + {n}, x, j)
  {
    var iv := TradeInterval(v.trades[n - 1]);
    var intervals' := intervals[id := IntervalsOf(intervals, id) + [iv]];
    forall x: nat, j: nat | j < |IntervalsOf(intervals', x)| ensures IntervalAt(intervals', v, seen + {n}, x, j) {
      var ivs, ivs' := IntervalsOf(intervals, x), IntervalsOf(intervals', x);
      assert ivs' == if x == id then ivs + [iv] else ivs;
      if j < |ivs| {
        assert IntervalAt(intervals, v, seen, x, j);
        var m :| FromTrade(v, seen, x, ivs[j], m);
        assert FromTrade(v, seen + {n}, x, ivs'[j], m);
      } else {
        assert FromTrade(v, seen + {n}, x, ivs'[j], n);
      }
    }
  }

  /** Child orders, statuses, buckets and lifecycle do not matter to the ledger's view. */
  lemma ViewIgnoresChildren(r: Record, r': Record, v: VenueState)
    requires LedgerView(r, v)
    requires r'.anonymous == r.anonymous && r'.trades == r.trades && r'.seen == r.seen && r'.intervals == r.intervals
    ensures LedgerView(r', v)
  {
    forall k: nat | k < |r'.trades| ensures EntryAt(r'.trades, v, k) {
      assert EntryAt(r.trades, v, k);
    }
    forall id: nat, j: nat | j < |IntervalsOf(r'.intervals, id)| ensures IntervalAt(r'.intervals, v, r'.seen, id, j) {
      assert IntervalAt(r.intervals, v, r.seen, id, j);
    }
  }

  // ---- evidence, piece by piece ----

  ghost predicate Tied(r: Record, v: VenueState) {
    VenueOk(v) && Coupled(r.children, v) && LedgerView(r, v)
  }

  /** What a piece of evidence may do to a tied record. */
  ghost predicate Informed(r: Record, r': Record, v: VenueState) {
    && Tied(r', v)
    && ChildrenAdvanced(r.children, r'.children)
    && LifeKept(r, r')
    && r'.rateLimitedUntil == r.rateLimitedUntil
    && r.seen <= r'.seen
  }

  lemma InformedTransitive(a: Record, b: Record, c: Record, v: VenueState)
    requires Informed(a, b, v) && Informed(b, c, v)
    ensures Informed(a, c, v)
  {
    hide Tied, ChildrenAdvanced;
    AdvancedTransitive(a.children, b.children, c.children);
  }

  lemma InformedReflexive(r: Record, v: VenueState)
    requires Tied(r, v)
    ensures Informed(r, r, v)
  {
    hide Tied, ChildrenAdvanced;
    AdvancedReflexive(r.children);
  }

  lemma ReportInforms(r: Record, v: VenueState, i: nat, status: ChildStatus, filled: nat)
    requires Tied(r, v) && i < |r.children|
    requires r.children[i].id in v.orders && ReportOk(v.orders[r.children[i].id], status, filled)
    ensures Informed(r, TakeReport(r, i, status, filled), v)
  {
    hide LedgerView, ReportOk, VenueOk, ChildrenAdvanced, TakeReport, SetChildStatus, Coupled, ChildOk;
    var c := r.children[i];
    assert ChildOk(c, v) by { CoupledChild(r.children, v, i); }
    Idempotence.ReportShape(r, i, status, filled);
    var r' := TakeReport(r, i, status, filled);
    ReportKeepsChild(c, v, status, filled);
    OneChildAdvances(r.children, i, r'.children[i]);
    OneChildCoupled(r.children, v, i, r'.children[i]);
    ViewIgnoresChildren(r, r', v);
  }

  lemma CoupledChild(children: seq<ChildOrder>, v: VenueState, i: nat)
    requires Coupled(children, v) && i < |children|
    ensures ChildOk(children[i], v)
  {
    assert ChildOkAt(children, v, i);
  }

  /** A child that never became an order may be rejected. */
  lemma RejectionInforms(r: Record, v: VenueState, i: nat)
    requires Tied(r, v) && i < |r.children|
    requires r.children[i].status in {Unknown, PendingSubmit} && Absent(v, r.children[i].id)
    ensures Informed(r, SetStatus(r, i, Rejected), v)
  {
    hide LedgerView, VenueOk, ChildrenAdvanced, Coupled;
    CoupledChild(r.children, v, i);
    var r' := SetStatus(r, i, Rejected);
    OneChildAdvances(r.children, i, r'.children[i]);
    OneChildCoupled(r.children, v, i, r'.children[i]);
    ViewIgnoresChildren(r, r', v);
  }

  lemma FillInforms(r: Record, v: VenueState, rows: seq<ChildOrder>, f: Fill)
    requires Tied(r, v) && FillOk(v, f) && HasId(r.children, f.client)
    ensures Informed(r, ApplyFill(r, rows, f), v)
    ensures f.tradeId.value in ApplyFill(r, rows, f).seen
    ensures ApplyFill(r, rows, f).seen == r.seen + {f.tradeId.value}
  {
    hide LedgerView, VenueOk, ChildrenAdvanced, Coupled, RowConfirmed, AcceptedInterval, BookTrade, RaiseConfirmed;
    KnownById(r.children, f.client);
    var i := IndexOf(r.children, f.client).value;
    var n := f.tradeId.value;
    var limit := Max(Max(r.children[i].confirmed, RowConfirmed(rows, f.client)), f.cumulative);
    if n in r.seen {
      ViewIgnoresChildren(r, Ignore(r, n), v);
      AdvancedReflexive(r.children);
    } else {
      VenueFillIsAccepted(r, v, i, f, limit);
      TradeIntervalInside(v, n - 1);
      RaiseInforms(r, v, i, f.cumulative, f.tradeId);
      var raised := RaiseConfirmed(r, i, f.cumulative, f.tradeId);
      var t := DetailsOf(f, limit);
      BookedTradeKeepsView(raised, v, f.client, n, t);
      BookFrame(raised, f.client, TradeInterval(v.trades[n - 1]), t);
    }
  }

  lemma RaiseInforms(r: Record, v: VenueState, i: nat, incoming: int, tradeId: Option<nat>)
    requires Tied(r, v) && i < |r.children|
    requires r.children[i].id in v.orders && incoming <= v.orders[r.children[i].id].filled
    ensures
      var r' := RaiseConfirmed(r, i, incoming, tradeId);
      Tied(r', v) && ChildrenAdvanced(r.children, r'.children) && LifeKept(r, r')
      && r'.rateLimitedUntil == r.rateLimitedUntil && r'.seen == r.seen
  {
    hide LedgerView, ChildrenAdvanced, Coupled, OrderOk, ChildOk;
    CoupledChild(r.children, v, i);
    var c := r.children[i];
    var r' := RaiseConfirmed(r, i, incoming, tradeId);
    ViewIgnoresChildren(r, r', v);
    if incoming > c.confirmed {
      var c' := c.(confirmed := incoming);
      RaisedChildOk(c, v, incoming);
      OneChildAdvances(r.children, i, c');
      OneChildCoupled(r.children, v, i, c');
    } else {
      AdvancedReflexive(r.children);
    }
  }

  lemma RaisedChildOk(c: ChildOrder, v: VenueState, incoming: nat)
    requires VenueOk(v) && ChildOk(c, v) && c.id in v.orders && c.confirmed < incoming <= v.orders[c.id].filled
    ensures ChildOk(c.(confirmed := incoming), v) && !c.status.IsTerminal()
    ensures CommittedOf(c.(confirmed := incoming)) <= CommittedOf(c)
  {
    assert OrderOk(v, c.id);
  }
}
