/** What the engine may rely on from an exchange: orders that only advance, fills that tile
    each order, and answers that are views of some past state. */
module Venues {
  import opened Models
  import opened Records
  import opened FillLedger
  import opened Intervals

  datatype Order = Order(quantity: nat, filled: nat, cancelled: bool) {
    function Status(): ChildStatus {
      if cancelled then ChildCancelled
      else if filled >= quantity then Filled
      else if filled > 0 then PartiallyFilled
      else Open
    }

    predicate Live() { !cancelled && filled < quantity }

    /** The most the order can ever have filled. */
    function Exposure(): nat { if Live() then quantity else filled }
  }

  datatype Trade = Trade(client: nat, cumulative: nat, quantity: nat, price: int, time: int, isMaker: Option<bool>)

  /** `inflight` holds requests that were sent and neither became an order nor were dropped. */
  datatype VenueState = VenueState(orders: map<nat, Order>, inflight: map<nat, nat>, trades: seq<Trade>)

  /** What the trades add up to for one order. */
  function FilledOf(trades: seq<Trade>, client: nat): nat {
    if trades == [] then 0
    else FilledOf(trades[..|trades| - 1], client)
         + if trades[|trades| - 1].client == client then trades[|trades| - 1].quantity else 0
  }

  function Traded(trades: seq<Trade>): nat {
    if trades == [] then 0 else Traded(trades[..|trades| - 1]) + trades[|trades| - 1].quantity
  }

  /** What was traded as maker, or as taker. */
  function TradedAs(trades: seq<Trade>, maker: bool): nat {
    if trades == [] then 0
    else TradedAs(trades[..|trades| - 1], maker)
         + if trades[|trades| - 1].isMaker == Some(maker) then trades[|trades| - 1].quantity else 0
  }

  /** What the trades were worth. */
  function TradedNotional(trades: seq<Trade>): int {
    if trades == [] then 0
    else TradedNotional(trades[..|trades| - 1]) + trades[|trades| - 1].price * trades[|trades| - 1].quantity
  }

  predicate OrderOk(v: VenueState, id: nat)
    requires id in v.orders
  {
    var o := v.orders[id];
    && o.filled <= o.quantity && o.quantity > 0
    && (o.cancelled ==> o.filled < o.quantity)
    && o.filled == FilledOf(v.trades, id)
  }

  /** Trade `k` continues its order where the earlier trades left it. */
  predicate TradeOk(v: VenueState, k: nat)
    requires k < |v.trades|
  {
    var t := v.trades[k];
    t.client in v.orders && t.quantity > 0 && t.cumulative == FilledOf(v.trades[..k], t.client) + t.quantity
  }

  predicate VenueOk(v: VenueState) {
    && (forall id :: id in v.orders ==> OrderOk(v, id))
    && (forall k: nat :: k < |v.trades| ==> TradeOk(v, k))
    && (forall id :: id in v.orders ==> id !in v.inflight)
  }

  function EmptyVenue(): VenueState { VenueState(map[], map[], []) }

  /** `view` is what order `o` looked like at some moment up to now. */
  predicate IsView(o: Order, view: Order) {
    view.quantity == o.quantity && view.filled <= o.filled && (view.cancelled ==> o == view)
  }

  /** A reported status and cumulative fill describe a view of the order. */
  predicate ReportOk(o: Order, status: ChildStatus, filled: nat) {
    var view := Order(o.quantity, filled, status == ChildCancelled);
    IsView(o, view) && status == view.Status()
  }

  // ---- evolution ----

  predicate OrderEvolves(v: VenueState, v': VenueState, id: nat) {
    && (id in v.orders ==> id in v'.orders && IsView(v'.orders[id], v.orders[id]))
    && (id in v'.orders && id !in v.orders ==> id in v.inflight && v'.orders[id].quantity == v.inflight[id])
    && (id in v'.inflight ==> id in v.inflight && v'.inflight[id] == v.inflight[id])
  }

  /** The venue on its own: requests become orders or vanish, orders fill or are cancelled. */
  ghost predicate Evolves(v: VenueState, v': VenueState) {
    && VenueOk(v')
    && v.trades <= v'.trades
    && forall id: nat :: OrderEvolves(v, v', id)
  }

  lemma EvolvesReflexive(v: VenueState)
    requires VenueOk(v)
    ensures Evolves(v, v)
  {
    forall id: nat ensures OrderEvolves(v, v, id) {}
  }

  lemma EvolvesTransitive(a: VenueState, b: VenueState, c: VenueState)
    requires Evolves(a, b) && Evolves(b, c)
    ensures Evolves(a, c)
  {
    hide VenueOk;
    forall id: nat ensures OrderEvolves(a, c, id) {
      assert OrderEvolves(a, b, id) && OrderEvolves(b, c, id);
    }
    PrefixTransitive(a.trades, b.trades, c.trades);
  }

  lemma PrefixTransitive<T>(a: seq<T>, b: seq<T>, c: seq<T>)
    requires a <= b && b <= c
    ensures a <= c
  {
    assert a == b[..|a|] == c[..|a|];
  }

  /** A report stays a report of the same order however the venue moves on. */
  lemma ReportsAge(v: VenueState, v': VenueState, id: nat, status: ChildStatus, filled: nat)
    requires Evolves(v, v') && id in v.orders && ReportOk(v.orders[id], status, filled)
    ensures id in v'.orders && ReportOk(v'.orders[id], status, filled)
  {
    assert OrderEvolves(v, v', id);
  }

  // ---- trades tile the orders ----

  lemma {:induction false} FilledOfPrefix(trades: seq<Trade>, n: nat, client: nat)
    requires n <= |trades|
    ensures FilledOf(trades[..n], client) <= FilledOf(trades, client)
    decreases |trades|
  {
    if n == |trades| {
      assert trades[..n] == trades;
    } else {
      var m := |trades| - 1;
      FilledOfPrefix(trades[..m], n, client);
      assert trades[..m][..n] == trades[..n];
    }
  }

  /** The quantity interval a trade fills. */
  function TradeInterval(t: Trade): Interval { Interval(t.cumulative - t.quantity, t.cumulative) }

  lemma TradeIntervalInside(v: VenueState, k: nat)
    requires VenueOk(v) && k < |v.trades|
    ensures
      var t := v.trades[k];
      t.client in v.orders && 0 <= TradeInterval(t).start < TradeInterval(t).end <= v.orders[t.client].filled
  {
    assert TradeOk(v, k);
    var client := v.trades[k].client;
    assert OrderOk(v, client);
    assert v.trades[..k + 1][..k] == v.trades[..k];
    FilledOfPrefix(v.trades, k + 1, client);
  }

  /** Two trades of one order never fill the same unit. */
  lemma TradeIntervalsDisjoint(v: VenueState, j: nat, k: nat)
    requires VenueOk(v) && j < k < |v.trades| && v.trades[j].client == v.trades[k].client
    ensures TradeInterval(v.trades[j]).end <= TradeInterval(v.trades[k]).start
  {
    assert TradeOk(v, j);
    assert TradeOk(v, k);
    var client := v.trades[k].client;
    assert v.trades[..j + 1][..j] == v.trades[..j];
    assert v.trades[..k][..j + 1] == v.trades[..j + 1];
    FilledOfPrefix(v.trades[..k], j + 1, client);
  }

  lemma {:induction false} NoTradesWithoutOrder(v: VenueState, n: nat, id: nat)
    requires VenueOk(v) && id !in v.orders && n <= |v.trades|
    ensures FilledOf(v.trades[..n], id) == 0
  {
    if n > 0 {
      NoTradesWithoutOrder(v, n - 1, id);
      assert v.trades[..n][..n - 1] == v.trades[..n - 1];
      assert TradeOk(v, n - 1);
    }
  }

  // ---- totals over the orders ----

  ghost function TotalExposure(orders: map<nat, Order>): nat
    decreases |orders|
  {
    if orders == map[] then 0
    else
      var id :| id in orders;
      orders[id].Exposure() + TotalExposure(orders - {id})
  }

  lemma {:induction false} TotalExposureWithout(orders: map<nat, Order>, id: nat)
    requires id in orders
    ensures TotalExposure(orders) == orders[id].Exposure() + TotalExposure(orders - {id})
    decreases |orders|
  {
    var chosen :| chosen in orders && TotalExposure(orders) == orders[chosen].Exposure() + TotalExposure(orders - {chosen});
    if chosen != id {
      TotalExposureWithout(orders - {chosen}, id);
      TotalExposureWithout(orders - {id}, chosen);
      assert orders - {chosen} - {id} == orders - {id} - {chosen};
    }
  }

  /** When every order belongs to one of the children, the venue's exposure is at most what the
      children have committed, provided that holds child by child. */
  lemma {:induction false} ExposureIsCommitted(orders: map<nat, Order>, children: seq<ChildOrder>)
    requires DistinctIds(children)
    requires forall id :: id in orders ==> HasId(children, id)
    requires forall i :: 0 <= i < |children| && children[i].id in orders ==>
               orders[children[i].id].Exposure() <= CommittedOf(children[i])
    ensures TotalExposure(orders) <= Sum(children, CommittedOf)
  {
    if children == [] {
      assert forall id :: id in orders ==> HasId(children, id);
      assert orders == map[];
    } else {
      var n := |children| - 1;
      var id := children[n].id;
      var rest := orders - {id};
      DistinctPrefix(children, n);
      forall k | k in rest ensures HasId(children[..n], k) {
        HasIdSplit(children, k);
      }
      forall i | 0 <= i < n && children[..n][i].id in rest
        ensures rest[children[..n][i].id].Exposure() <= CommittedOf(children[..n][i])
      {
        assert children[..n][i] == children[i];
      }
      ExposureIsCommitted(rest, children[..n]);
      if id in orders {
        TotalExposureWithout(orders, id);
      } else {
        assert rest == orders;
      }
    }
  }

  // ---- what was traded, child by child ----

  ghost function SumFilled(children: seq<ChildOrder>, trades: seq<Trade>): nat {
    if children == [] then 0
    else SumFilled(children[..|children| - 1], trades) + FilledOf(trades, children[|children| - 1].id)
  }

  lemma {:induction false} OneMoreTrade(children: seq<ChildOrder>, trades: seq<Trade>)
    requires trades != [] && DistinctIds(children)
    ensures
      var (rest, t) := (trades[..|trades| - 1], trades[|trades| - 1]);
      SumFilled(children, trades) == SumFilled(children, rest) + if HasId(children, t.client) then t.quantity else 0
  {
    if children != [] {
      var n := |children| - 1;
      var client := trades[|trades| - 1].client;
      DistinctPrefix(children, n);
      OneMoreTrade(children[..n], trades);
      HasIdSplit(children, client);
      if HasId(children[..n], client) {
        var i :| 0 <= i < n && children[..n][i].id == client;
        assert IdsDiffer(children, i, n);
      }
    }
  }

  /** Everything traded was traded for some child. */
  lemma {:induction false} TradedForChildren(children: seq<ChildOrder>, trades: seq<Trade>)
    requires DistinctIds(children)
    requires forall k :: 0 <= k < |trades| ==> HasId(children, trades[k].client)
    ensures Traded(trades) == SumFilled(children, trades)
  {
    if trades == [] {
      NothingFilled(children);
    } else {
      var n := |trades| - 1;
      assert forall k :: 0 <= k < n ==> trades[..n][k] == trades[k];
      TradedForChildren(children, trades[..n]);
      OneMoreTrade(children, trades);
    }
  }

  lemma {:induction false} NothingFilled(children: seq<ChildOrder>)
    ensures SumFilled(children, []) == 0
  {
    if children != [] {
      NothingFilled(children[..|children| - 1]);
    }
  }

  /** Everything traded shows in the exposure of some order. */
  lemma {:induction false} TradedIsExposed(v: VenueState)
    requires VenueOk(v)
    ensures Traded(v.trades) <= TotalExposure(v.orders)
  {
    forall k: int | 0 <= k < |v.trades| ensures v.trades[k].client in v.orders {
      assert TradeOk(v, k);
    }
    forall id | id in v.orders ensures FilledOf(v.trades, id) <= v.orders[id].Exposure() {
      assert OrderOk(v, id);
    }
    TradedByOrders(v.orders, v.trades);
  }

  lemma {:induction false} TradedByOrders(orders: map<nat, Order>, trades: seq<Trade>)
    requires forall id :: id in orders ==> FilledOf(trades, id) <= orders[id].Exposure()
    requires forall k :: 0 <= k < |trades| ==> trades[k].client in orders
    ensures Traded(trades) <= TotalExposure(orders)
    decreases |orders|
  {
    if trades != [] {
      var id := trades[0].client;
      TotalExposureWithout(orders, id);
      TradedWithout(trades, id);
      forall other | other in orders - {id}
        ensures FilledOf(Without(trades, id), other) <= (orders - {id})[other].Exposure()
      {
        FilledWithout(trades, id, other);
      }
      WithoutClients(trades, id);
      forall k | 0 <= k < |Without(trades, id)| ensures Without(trades, id)[k].client in orders - {id} {
        assert Without(trades, id)[k] in trades;
      }
      TradedByOrders(orders - {id}, Without(trades, id));
    }
  }

  ghost function Without(trades: seq<Trade>, id: nat): seq<Trade> {
    if trades == [] then []
    else
      var (rest, t) := (Without(trades[..|trades| - 1], id), trades[|trades| - 1]);
      if t.client == id then rest else rest + [t]
  }

  lemma {:induction false} WithoutClients(trades: seq<Trade>, id: nat)
    ensures forall k :: 0 <= k < |Without(trades, id)| ==>
              Without(trades, id)[k].client != id && Without(trades, id)[k] in trades
  {
    if trades != [] {
      WithoutClients(trades[..|trades| - 1], id);
    }
  }

  lemma {:induction false} TradedWithout(trades: seq<Trade>, id: nat)
    ensures Traded(trades) == Traded(Without(trades, id)) + FilledOf(trades, id)
  {
    if trades != [] {
      var rest := Without(trades[..|trades| - 1], id);
      TradedWithout(trades[..|trades| - 1], id);
      assert (rest + [trades[|trades| - 1]])[..|rest|] == rest;
    }
  }

  lemma {:induction false} FilledWithout(trades: seq<Trade>, id: nat, other: nat)
    requires other != id
    ensures FilledOf(Without(trades, id), other) == FilledOf(trades, other)
  {
    if trades != [] {
      var rest := Without(trades[..|trades| - 1], id);
      FilledWithout(trades[..|trades| - 1], id, other);
      assert (rest + [trades[|trades| - 1]])[..|rest|] == rest;
    }
  }

  // ---- answers ----

  /** A fill row that reports trade number `k`. */
  function FillOfTrade(k: nat, t: Trade): Fill {
    Fill(t.client, Some(k + 1), t.cumulative, t.quantity, t.price, Some(t.time), Some(t.time), t.isMaker)
  }

  predicate FillOk(v: VenueState, f: Fill) {
    && f.tradeId.Some? && 1 <= f.tradeId.value <= |v.trades|
    && f == FillOfTrade(f.tradeId.value - 1, v.trades[f.tradeId.value - 1])
  }

  predicate RowOk(v: VenueState, row: ChildOrder) {
    row.id in v.orders && row.submitted == v.orders[row.id].quantity
    && ReportOk(v.orders[row.id], row.status, row.confirmed)
  }

  /** Any subset of past order views and past trades, in any order, with repetitions. */
  predicate ResultOk(v: VenueState, result: ReconciliationResult) {
    && (forall k :: 0 <= k < |result.orders| ==> RowOk(v, result.orders[k]))
    && (forall k :: 0 <= k < |result.fills| ==> FillOk(v, result.fills[k]))
  }

  predicate Absent(v: VenueState, id: nat) { id !in v.orders && id !in v.inflight }

  /** An exact lookup is at least as new as what the record already knows. */
  ghost predicate AnswerOk(v: VenueState, c: ChildOrder, answer: Lookup) {
    match answer
    case Found(status, filled) => c.id in v.orders && ReportOk(v.orders[c.id], status, filled) && filled >= c.confirmed
    case NotFound => Absent(v, c.id)
    case _ => true
  }

  /** The not-found warning may be believed: an unlisted unknown order does not exist. */
  ghost predicate WarningOk(v: VenueState, children: seq<ChildOrder>, result: ReconciliationResult) {
    result.notFound ==>
      forall i ::
        (0 <= i < |children| && children[i].status == Unknown && children[i].id !in ClientsOfOrders(result.orders))
        ==> Absent(v, children[i].id)
  }

  lemma ResultsAge(v: VenueState, v': VenueState, result: ReconciliationResult)
    requires Evolves(v, v') && ResultOk(v, result)
    ensures ResultOk(v', result)
  {
    hide VenueOk, ReportOk;
    forall k | 0 <= k < |result.orders| ensures RowOk(v', result.orders[k]) {
      var row := result.orders[k];
      assert RowOk(v, row);
      ReportsAge(v, v', row.id, row.status, row.confirmed);
      assert OrderEvolves(v, v', row.id);
    }
    forall k | 0 <= k < |result.fills| ensures FillOk(v', result.fills[k]) {
      assert FillOk(v, result.fills[k]);
      assert v'.trades[result.fills[k].tradeId.value - 1] == v.trades[result.fills[k].tradeId.value - 1];
    }
  }
}
