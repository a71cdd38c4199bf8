/** The deterministic exchange of src/exchanges/simulator.py, for the orders of one execution. It
    is a venue the engine may rely on: its orders only advance, its fills tile them, and an
    unwindowed reconciliation reports everything it knows. */
module Simulators {
  import opened Models
  import opened StateMachine
  import opened Records
  import opened FillLedger
  import opened Venues
  import opened Coupling
  import opened Protocol
  import opened Adapters
  import opened Exactness
  import Idempotence

  datatype Snapshot = Snapshot(bid: int, ask: int, time: real)

  datatype CreateAnswer = Created(order: ChildOrder) | CreateTimedOut | CreateRefused | CreateNoData

  datatype CancelAnswer = Answered(order: ChildOrder) | UnknownOrder | CancelFailed

  datatype FillError = NotPositive | NoSuchOrder | TerminalOrder | ExceedsRemaining

  datatype FillAnswer = FillDone(fill: Fill) | FillRefused(error: FillError)

  /** The answers as the engine takes them. */
  function SubmitOutcomeOf(answer: CreateAnswer): SubmitOutcome {
    match answer
    case Created(order) => Accepted(order.status, order.confirmed)
    case CreateTimedOut => CreateTimeout
    case CreateRefused => OrderRejected
    case CreateNoData => SubmitNoData
  }

  function CancelOutcomeOf(answer: CancelAnswer): CancelOutcome {
    match answer
    case Answered(order) => CancelAnswered(order.status, order.confirmed)
    case _ => CancelRaised
  }

  function LookupOf(answer: Option<ChildOrder>): Lookup {
    match answer
    case None => NotFound
    case Some(order) => Found(order.status, order.confirmed)
  }

  function OpenStatusFor(c: ChildOrder): ChildStatus {
    if c.Remaining() == 0 then Filled else if c.confirmed > 0 then PartiallyFilled else Open
  }

  function OrderOf(c: ChildOrder): Order { Order(c.submitted, c.confirmed, c.status == ChildCancelled) }

  ghost function OrdersOf(orders: map<nat, ChildOrder>): map<nat, Order> { map id | id in orders :: OrderOf(orders[id]) }

  function TradeOf(f: Fill): Trade
    requires f.cumulative >= 0 && f.last >= 0 && f.eventTime.Some?
  {
    Trade(f.client, f.cumulative, f.last, f.price, f.eventTime.value, f.isMaker)
  }

  ghost predicate FillAt(fills: seq<Fill>, k: nat)
    requires k < |fills|
  {
    && fills[k].cumulative >= 0 && fills[k].last >= 0 && fills[k].eventTime.Some?
    && fills[k] == FillOfTrade(k, TradeOf(fills[k]))
  }

  ghost predicate FillsOk(fills: seq<Fill>) {
    forall k: nat :: k < |fills| ==> FillAt(fills, k)
  }

  ghost function TradesOf(fills: seq<Fill>): (trades: seq<Trade>)
    requires FillsOk(fills)
    ensures |trades| == |fills|
    ensures forall k: nat :: k < |fills| ==> FillAt(fills, k) && trades[k] == TradeOf(fills[k])
  {
    if fills == [] then []
    else
      var n := |fills| - 1;
      FillsPrefix(fills, n);
      assert FillAt(fills, n);
      TradesOf(fills[..n]) + [TradeOf(fills[n])]
  }

  lemma FillsPrefix(fills: seq<Fill>, n: nat)
    requires FillsOk(fills) && n <= |fills|
    ensures FillsOk(fills[..n])
  {
    forall k: nat | k < n ensures FillAt(fills[..n], k) {
      assert FillAt(fills, k);
    }
  }

  lemma FillAppended(fills: seq<Fill>, f: Fill)
    requires FillsOk(fills) && f.cumulative >= 0 && f.last >= 0 && f.eventTime.Some?
    requires f == FillOfTrade(|fills|, TradeOf(f))
    ensures FillsOk(fills + [f]) && TradesOf(fills + [f]) == TradesOf(fills) + [TradeOf(f)]
  {
    var all := fills + [f];
    forall k: nat | k < |all| ensures FillAt(all, k) {
      if k < |fills| { assert FillAt(fills, k); }
    }
    assert all[..|fills|] == fills;
  }

  // ---- one order fills ----

  lemma FilledAppend(trades: seq<Trade>, t: Trade, id: nat)
    ensures FilledOf(trades + [t], id) == FilledOf(trades, id) + if t.client == id then t.quantity else 0
    ensures Traded(trades + [t]) == Traded(trades) + t.quantity
  {
    assert (trades + [t])[..|trades|] == trades;
  }

  /** A fill of a live order is a move of the venue. */
  lemma FillIsEvolution(v: VenueState, id: nat, t: Trade)
    requires VenueOk(v) && id in v.orders && v.orders[id].Live()
    requires t.client == id && 0 < t.quantity <= v.orders[id].quantity - v.orders[id].filled
    requires t.cumulative == v.orders[id].filled + t.quantity
    ensures Evolves(v, v.(orders := v.orders[id := v.orders[id].(filled := t.cumulative)], trades := v.trades + [t]))
  {
    var v' := v.(orders := v.orders[id := v.orders[id].(filled := t.cumulative)], trades := v.trades + [t]);
    assert OrderOk(v, id);
    forall x | x in v'.orders ensures OrderOk(v', x) {
      assert OrderOk(v, x);
      FilledAppend(v.trades, t, x);
    }
    forall k: nat | k < |v'.trades| ensures TradeOk(v', k) {
      if k < |v.trades| {
        assert TradeOk(v, k);
        assert v'.trades[..k] == v.trades[..k];
      } else {
        assert v'.trades[..k] == v.trades;
      }
    }
    forall x: nat ensures OrderEvolves(v, v', x) {}
  }

  /** So is the cancellation of a live order. */
  lemma CancelIsEvolution(v: VenueState, id: nat)
    requires VenueOk(v) && id in v.orders && v.orders[id].Live()
    ensures Evolves(v, v.(orders := v.orders[id := v.orders[id].(cancelled := true)]))
  {
    var v' := v.(orders := v.orders[id := v.orders[id].(cancelled := true)]);
    forall x | x in v'.orders ensures OrderOk(v', x) { assert OrderOk(v, x); }
    forall k: nat | k < |v'.trades| ensures TradeOk(v', k) { assert TradeOk(v, k); }
    forall x: nat ensures OrderEvolves(v, v', x) {}
  }

  /** A request becomes an order, or is lost. */
  lemma ArrivalIsEvolution(v: VenueState, id: nat, quantity: nat)
    requires VenueOk(v) && Absent(v, id) && quantity > 0
    ensures Evolves(Sent(v, id, quantity), v.(orders := v.orders[id := Order(quantity, 0, false)]))
    ensures Evolves(Sent(v, id, quantity), v)
  {
    var v' := v.(orders := v.orders[id := Order(quantity, 0, false)]);
    NoTradesWithoutOrder(v, |v.trades|, id);
    assert v.trades[..|v.trades|] == v.trades;
    forall x | x in v'.orders ensures OrderOk(v', x) {
      if x != id { assert OrderOk(v, x); }
    }
    forall k: nat | k < |v'.trades| ensures TradeOk(v', k) { assert TradeOk(v, k); }
    forall x: nat ensures OrderEvolves(Sent(v, id, quantity), v', x) && OrderEvolves(Sent(v, id, quantity), v, x) {}
  }

  /** An order at rest shows the status its quantities imply; one whose cancellation went wrong
      stays pending. */
  ghost predicate AtRest(c: ChildOrder) {
    c.status == OrderOf(c).Status() || (c.status == PendingCancel && OrderOf(c).Live())
  }

  ghost predicate OrdersRest(orders: map<nat, ChildOrder>) {
    forall id :: id in orders ==> orders[id].id == id && AtRest(orders[id])
  }

  ghost predicate Listed(orders: map<nat, ChildOrder>, ids: seq<nat>) {
    && (forall id :: id in orders <==> id in ids)
    && (forall i, j :: 0 <= i < j < |ids| ==> ids[i] != ids[j])
  }

  ghost function ViewOf(orders: map<nat, ChildOrder>, fills: seq<Fill>): VenueState
    requires FillsOk(fills)
  {
    VenueState(OrdersOf(orders), map[], TradesOf(fills))
  }

  lemma OrdersOfUpdate(orders: map<nat, ChildOrder>, id: nat, c: ChildOrder)
    ensures OrdersOf(orders[id := c]) == OrdersOf(orders)[id := OrderOf(c)]
  {}

  /** A fill of a live order, in the simulator's own terms. */
  lemma FillBooked(orders: map<nat, ChildOrder>, fills: seq<Fill>, id: nat, c: ChildOrder, f: Fill)
    requires FillsOk(fills) && VenueOk(ViewOf(orders, fills)) && OrdersRest(orders)
    requires id in orders && !orders[id].status.IsTerminal() && 0 < f.last <= orders[id].Remaining()
    requires c == orders[id].(confirmed := orders[id].confirmed + f.last, status := c.status)
    requires c.status == OpenStatusFor(orders[id].(confirmed := orders[id].confirmed + f.last))
    requires f == Fill(id, Some(|fills| + 1), c.confirmed, f.last, f.price, f.eventTime, f.eventTime, None) && f.eventTime.Some?
    ensures FillsOk(fills + [f]) && OrdersRest(orders[id := c])
    ensures Evolves(ViewOf(orders, fills), ViewOf(orders[id := c], fills + [f]))
    ensures Traded(TradesOf(fills + [f])) == Traded(TradesOf(fills)) + f.last
  {
    hide VenueOk, Evolves, TradesOf, OrdersRest, AtRest, FillsOk, FilledOf, Traded;
    OrderFillable(orders, fills, id);
    FillIsEvolution(ViewOf(orders, fills), id, TradeOf(f));
    FillAppended(fills, f);
    FilledAppend(TradesOf(fills), TradeOf(f), id);
    OrdersOfUpdate(orders, id, c);
    FillRests(orders, id, c, f.last);
  }

  lemma FillRests(orders: map<nat, ChildOrder>, id: nat, c: ChildOrder, quantity: int)
    requires OrdersRest(orders) && id in orders && 0 < quantity <= orders[id].Remaining()
    requires c == orders[id].(confirmed := orders[id].confirmed + quantity, status := c.status)
    requires c.status == OpenStatusFor(orders[id].(confirmed := orders[id].confirmed + quantity))
    ensures OrdersRest(orders[id := c])
  {}

  lemma OrderFillable(orders: map<nat, ChildOrder>, fills: seq<Fill>, id: nat)
    requires FillsOk(fills) && VenueOk(ViewOf(orders, fills)) && OrdersRest(orders)
    requires id in orders && !orders[id].status.IsTerminal()
    ensures OrderOf(orders[id]).Live() && orders[id].Remaining() == orders[id].submitted - orders[id].confirmed > 0
    ensures orders[id].status in {Open, PartiallyFilled, PendingCancel}
  {
    assert OrderOk(ViewOf(orders, fills), id);
  }

  lemma ListedMore(orders: map<nat, ChildOrder>, ids: seq<nat>, id: nat, c: ChildOrder)
    requires Listed(orders, ids) && id !in orders
    ensures Listed(orders[id := c], ids + [id])
  {}

  lemma ListedSame(orders: map<nat, ChildOrder>, ids: seq<nat>, id: nat, c: ChildOrder)
    requires Listed(orders, ids) && id in orders
    ensures Listed(orders[id := c], ids)
  {}

  lemma PendingRests(orders: map<nat, ChildOrder>, fills: seq<Fill>, id: nat)
    requires FillsOk(fills) && VenueOk(ViewOf(orders, fills)) && OrdersRest(orders)
    requires id in orders && !orders[id].status.IsTerminal()
    ensures AtRest(orders[id].(status := PendingCancel))
    ensures OrderOf(orders[id].(status := PendingCancel)) == OrderOf(orders[id])
  {
    OrderFillable(orders, fills, id);
  }

  /** An order at rest reports itself. */
  lemma RestReportsItself(orders: map<nat, ChildOrder>, fills: seq<Fill>, id: nat)
    requires FillsOk(fills) && VenueOk(ViewOf(orders, fills)) && OrdersRest(orders)
    requires id in orders && orders[id].status != PendingCancel
    ensures ReportOk(OrderOf(orders[id]), orders[id].status, orders[id].confirmed)
  {
    assert OrderOk(ViewOf(orders, fills), id);
  }

  lemma EvolvedOk(v: VenueState, v': VenueState)
    requires Evolves(v, v')
    ensures VenueOk(v')
  {}

  function WindowHas(f: Fill, start: Option<int>, end: Option<int>): bool {
    || f.eventTime.None?
    || ((start.None? || f.eventTime.value >= start.value) && (end.None? || f.eventTime.value <= end.value))
  }

  class Simulator {
    const side: Side
    const start: int
    const supportsPostOnly: bool
    const supportsImmediate: bool
    const staleAfter: real
    var position: int
    var orders: map<nat, ChildOrder>
    var ids: seq<nat>
    var fills: seq<Fill>
    var market: Option<Snapshot>
    // scripts for this execution
    var createTimeouts: nat
    var createTimeoutsNotFound: nat
    var notFoundWarning: bool
    var cancelFills: seq<int>
    var cancelsLeftOpen: nat

    ghost function View(): VenueState
      requires FillsOk(fills)
      reads this
    {
      ViewOf(orders, fills)
    }

    ghost predicate Valid()
      reads this
    {
      && FillsOk(fills)
      && VenueOk(View())
      && OrdersRest(orders) && Listed(orders, ids)
      && position == PositionAfter(start, side, Traded(View().trades))
    }

    constructor (side: Side, start: int, supportsPostOnly: bool, supportsImmediate: bool, staleAfter: real)
      ensures Valid() && View() == EmptyVenue() && position == start
    {
      this.side, this.start, this.staleAfter := side, start, staleAfter;
      this.supportsPostOnly, this.supportsImmediate := supportsPostOnly, supportsImmediate;
      position, orders, ids, fills, market := start, map[], [], [], None;
      createTimeouts, createTimeoutsNotFound, notFoundWarning, cancelFills, cancelsLeftOpen := 0, 0, false, [], 0;
    }

    /** get_best_bid_ask: missing, crossed and stale quotes are refused. */
    method GetBestBidAsk(now: real) returns (quote: Option<Snapshot>)
      ensures quote.Some? <==> market.Some? && market.value.bid < market.value.ask && now - market.value.time <= staleAfter
      ensures quote.Some? ==> quote == market
    {
      if market.None? || market.value.bid >= market.value.ask || now - market.value.time > staleAfter {
        return None;
      }
      return market;
    }

    /** submit_limit_order, for any request. A request with a used client order id would replace that
        order; the engine never makes one, nor one for nothing, and then the simulator moves as a
        venue does. Without a fresh quote there is no answer; refused is a style the symbol does not
        support, and a post-only order that would trade against the quote at once. */
    method SubmitLimitOrder(id: nat, quantity: nat, price: int, postOnly: bool, now: real) returns (answer: CreateAnswer)
      requires Valid()
      modifies this
      ensures position == old(position) && fills == old(fills)
      ensures orders == if answer.Created? || (answer.CreateTimedOut? && old(createTimeoutsNotFound) == 0)
                        then old(orders)[id := ChildOrder(id, quantity, price, Open, 0)] else old(orders)
      ensures answer.Created? ==> answer.order == orders[id]
      ensures
        var m := old(market);
        var fair := m.Some? && m.value.bid < m.value.ask && now - m.value.time <= staleAfter;
        var crosses := fair && postOnly && ((side == Buy && price >= m.value.ask) || (side == Sell && price <= m.value.bid));
        var unsupported := if postOnly then !supportsPostOnly else !supportsImmediate;
        if !fair then answer.CreateNoData?
        else if unsupported || crosses then answer.CreateRefused?
        else if old(createTimeoutsNotFound) > 0 || old(createTimeouts) > 0 then answer.CreateTimedOut?
        else answer.Created?
      ensures answer.CreateTimedOut? && old(createTimeoutsNotFound) > 0 ==> notFoundWarning
      ensures id !in old(orders) && quantity > 0 ==>
                && Valid() && Evolves(Sent(old(View()), id, quantity), View())
                && SubmitOutcomeOk(View(), id, SubmitOutcomeOf(answer))
    {
      hide VenueOk, Evolves, Listed, TradesOf;
      ghost var unused := id !in orders && quantity > 0;
      if unused { ArrivalIsEvolution(View(), id, quantity); }
      var quote := GetBestBidAsk(now);
      if quote.None? {
        return CreateNoData;
      }
      if (postOnly && !supportsPostOnly) || (!postOnly && !supportsImmediate) {
        return CreateRefused;
      }
      if postOnly && ((side == Buy && price >= quote.value.ask) || (side == Sell && price <= quote.value.bid)) {
        return CreateRefused;
      }
      if createTimeoutsNotFound > 0 {
        createTimeoutsNotFound := createTimeoutsNotFound - 1;
        notFoundWarning := true;
        return CreateTimedOut;
      }
      var order := ChildOrder(id, quantity, price, TransitionChild(PendingSubmit, Open).value, 0);
      if unused {
        OrdersOfUpdate(orders, id, order);
        ListedMore(orders, ids, id, order);
        EvolvedOk(Sent(View(), id, quantity), ViewOf(orders[id := order], fills));
      }
      orders, ids := orders[id := order], if id in orders then ids else ids + [id];
      if createTimeouts > 0 {
        createTimeouts := createTimeouts - 1;
        return CreateTimedOut;
      }
      return CreateAnswer.Created(order);
    }

    /** push_fill. */
    method PushFill(id: nat, quantity: int, price: int, time: int) returns (answer: FillAnswer)
      requires Valid()
      modifies this`orders, this`position, this`fills
      ensures Valid() && Evolves(old(View()), View())
      ensures answer.FillDone? <==> quantity > 0 && id in old(orders) && !old(orders)[id].status.IsTerminal()
                                    && quantity <= old(orders)[id].Remaining()
      ensures answer.FillRefused? ==> View() == old(View()) && orders == old(orders) && position == old(position)
      ensures answer.FillDone? ==>
                && orders == old(orders)[id := orders[id]] && fills == old(fills) + [answer.fill]
                && orders[id].confirmed == old(orders)[id].confirmed + quantity
                && orders[id].submitted == old(orders)[id].submitted && orders[id].status in {PartiallyFilled, Filled}
                && (orders[id].status == Filled <==> orders[id].confirmed == orders[id].submitted)
                && answer.fill.client == id && answer.fill.last == quantity && answer.fill.cumulative == orders[id].confirmed
                && answer.fill.price == price && answer.fill.tradeId == Some(|fills|)
                && answer.fill.eventTime == Some(time) && answer.fill.transactionTime == Some(time)
                && position == PositionAfter(old(position), side, quantity)
    {
      hide VenueOk, Evolves, Listed, TradesOf, OrdersRest;
      EvolvesReflexive(View());
      if quantity <= 0 {
        return FillRefused(NotPositive);
      }
      if id !in orders {
        return FillRefused(NoSuchOrder);
      }
      var order := orders[id];
      if order.status.IsTerminal() {
        return FillRefused(TerminalOrder);
      }
      if quantity > order.Remaining() {
        return FillRefused(ExceedsRemaining);
      }
      OrderFillable(orders, fills, id);
      var target := OpenStatusFor(order.(confirmed := order.confirmed + quantity));
      assert order.status == target || TransitionChild(order.status, target).Some?;
      var filled := order.(confirmed := order.confirmed + quantity, status := target);
      var fill := Fill(id, Some(|fills| + 1), filled.confirmed, quantity, price, Some(time), Some(time), None);
      FillBooked(orders, fills, id, filled, fill);
      ListedSame(orders, ids, id, filled);
      EvolvedOk(View(), ViewOf(orders[id := filled], fills + [fill]));
      orders, fills, position := orders[id := filled], fills + [fill], PositionAfter(position, side, quantity);
      return FillDone(fill);
    }

    /** Takes the next scripted fill for a cancellation. */
    method ConsumeFillDuringCancel() returns (fill: Option<int>)
      requires Valid()
      modifies this`cancelFills
      ensures Valid() && View() == old(View())
      ensures fill == if old(cancelFills) == [] then None else Some(old(cancelFills)[0])
    {
      if cancelFills == [] {
        return None;
      }
      fill := Some(cancelFills[0]);
      cancelFills := cancelFills[1..];
    }

    method SetStatus(id: nat, status: ChildStatus)
      requires Valid() && id in orders && OrderOf(orders[id].(status := status)) == OrderOf(orders[id])
      requires AtRest(orders[id].(status := status))
      modifies this`orders
      ensures Valid() && View() == old(View()) && orders == old(orders)[id := old(orders)[id].(status := status)]
    {
      hide VenueOk, Listed, TradesOf;
      var order := orders[id].(status := status);
      OrdersOfUpdate(orders, id, order);
      ListedSame(orders, ids, id, order);
      orders := orders[id := order];
      assert OrdersOf(orders) == OrdersOf(old(orders));
    }

    method SetCancelled(id: nat)
      requires Valid() && id in orders && orders[id].status == PendingCancel && OrderOf(orders[id]).Live()
      modifies this`orders
      ensures Valid() && Evolves(old(View()), View()) && orders == old(orders)[id := old(orders)[id].(status := ChildCancelled)]
    {
      hide VenueOk, Evolves, Listed, TradesOf;
      CancelIsEvolution(View(), id);
      var order := orders[id].(status := TransitionChild(PendingCancel, ChildCancelled).value);
      OrdersOfUpdate(orders, id, order);
      ListedSame(orders, ids, id, order);
      EvolvedOk(View(), ViewOf(orders[id := order], fills));
      orders := orders[id := order];
    }

    method FinishCancel(id: nat) returns (answer: CancelAnswer)
      requires Valid() && id in orders && orders[id].status in {PendingCancel, PartiallyFilled}
      modifies this`orders, this`cancelsLeftOpen
      ensures Valid() && Evolves(old(View()), View()) && id in orders && answer == Answered(orders[id])
      ensures orders[id].status == if old(cancelsLeftOpen) > 0 then OpenStatusFor(old(orders)[id]) else ChildCancelled
    {
      EvolvesReflexive(View());
      if cancelsLeftOpen > 0 {
        cancelsLeftOpen := cancelsLeftOpen - 1;
        var target := OpenStatusFor(orders[id]);
        if orders[id].status != target {
          assert TransitionChild(orders[id].status, target).Some?;
          SetStatus(id, target);
        }
        return Answered(orders[id]);
      }
      if orders[id].status != PendingCancel {
        SetStatus(id, TransitionChild(orders[id].status, PendingCancel).value);
      }
      SetCancelled(id);
      return Answered(orders[id]);
    }

    /** The order goes pending, and a scripted fill may come in before the cancellation does. */
    method FillDuringCancel(id: nat, time: int) returns (ok: bool)
      requires Valid() && id in orders && TransitionChild(orders[id].status, PendingCancel).Some?
      modifies this
      ensures Valid() && Evolves(old(View()), View()) && id in orders && cancelsLeftOpen == old(cancelsLeftOpen)
      ensures orders[id].status in {PendingCancel, PartiallyFilled, Filled}
      ensures ok <==> old(cancelFills) == [] || 0 < old(cancelFills)[0] <= old(orders)[id].Remaining()
      ensures !ok ==> orders[id].status == PendingCancel
    {
      hide VenueOk, Evolves, Listed, TradesOf, OrdersRest;
      OrderFillable(orders, fills, id);
      EvolvesReflexive(View());
      PendingRests(orders, fills, id);
      SetStatus(id, PendingCancel);
      var quantity := ConsumeFillDuringCancel();
      if quantity.Some? {
        var fill := PushFill(id, quantity.value, orders[id].price, time);
        return fill.FillDone?;
      }
      return true;
    }

    /** cancel_order. A scripted fill that cannot be booked leaves the order pending; otherwise the
        order ends up filled, cancelled, or open again as scripted. */
    method CancelOrder(id: nat, time: int) returns (answer: CancelAnswer)
      requires Valid()
      modifies this
      ensures Valid() && Evolves(old(View()), View())
      ensures CancelOutcomeOk(View(), id, CancelOutcomeOf(answer))
      ensures answer.UnknownOrder? <==> id !in old(orders)
      ensures answer.Answered? ==> id in orders && answer.order == orders[id] && answer.order.status != PendingCancel
      ensures answer.Answered? && old(cancelsLeftOpen) == 0 ==> answer.order.status.IsTerminal()
      ensures answer.CancelFailed? ==>
                id in orders && orders[id].status == PendingCancel
                && (old(orders)[id].status == PendingCancel
                    || (old(cancelFills) != [] && !(0 < old(cancelFills)[0] <= old(orders)[id].Remaining())))
    {
      hide VenueOk, Evolves, Listed, TradesOf, OrdersRest, ReportOk;
      EvolvesReflexive(View());
      if id !in orders {
        return UnknownOrder;
      }
      if orders[id].status.IsTerminal() {
        RestReportsItself(orders, fills, id);
        return Answered(orders[id]);
      }
      OrderFillable(orders, fills, id);
      if TransitionChild(orders[id].status, PendingCancel).None? {
        return CancelFailed;
      }
      var ok := FillDuringCancel(id, time);
      if !ok {
        return CancelFailed;
      }
      ghost var filled := View();
      EvolvesReflexive(filled) by { EvolvedOk(old(View()), filled); }
      if orders[id].status.IsTerminal() {
        answer := Answered(orders[id]);
      } else {
        answer := FinishCancel(id);
      }
      RestReportsItself(orders, fills, id);
      EvolvesTransitive(old(View()), filled, View());
    }

    /** get_order_by_client_order_id. */
    function GetOrderByClientOrderId(id: nat): (answer: Option<ChildOrder>)
      requires Valid()
      reads this
      ensures answer.Some? ==> answer.value.id == id
      ensures (answer.Some? && answer.value.status == PendingCancel) || LookupOk(View(), id, LookupOf(answer))
    {
      assert id in orders ==> OrderOk(View(), id);
      if id in orders then Some(orders[id]) else None
    }

    /** reconcile_orders_and_fills: every order as it is now, and the fills of a time window. */
    method ReconcileOrdersAndFills(start: Option<int>, end: Option<int>) returns (result: ReconciliationResult)
      requires Valid()
      ensures result.notFound == notFoundWarning
      ensures |result.orders| == |ids| && forall k :: 0 <= k < |ids| ==> result.orders[k] == orders[ids[k]]
      ensures forall f :: f in result.fills <==>
                && f in fills
                && (f.eventTime.Some? && start.Some? ==> start.value <= f.eventTime.value)
                && (f.eventTime.Some? && end.Some? ==> f.eventTime.value <= end.value)
    {
      var rows := [];
      var k := 0;
      while k < |ids|
        invariant 0 <= k == |rows| <= |ids|
        invariant forall j :: 0 <= j < k ==> rows[j] == orders[ids[j]]
      {
        rows := rows + [orders[ids[k]]];
        k := k + 1;
      }
      var inside := [];
      k := 0;
      while k < |fills|
        invariant 0 <= k <= |fills|
        invariant forall f :: f in inside <==> f in fills[..k] && WindowHas(f, start, end)
      {
        assert fills[..k + 1] == fills[..k] + [fills[k]];
        if WindowHas(fills[k], start, end) {
          inside := inside + [fills[k]];
        }
        k := k + 1;
      }
      assert fills[..k] == fills;
      return ReconciliationResult(rows, inside, notFoundWarning);
    }

    /** What a reconciliation returns is evidence the engine may rely on, and complete when no
        window was given, as long as no cancellation went wrong. */
    lemma ResultIsEvidence(result: ReconciliationResult, start: Option<int>, end: Option<int>)
      requires Valid() && forall id :: id in orders ==> orders[id].status != PendingCancel
      requires |result.orders| == |ids| && forall k :: 0 <= k < |ids| ==> result.orders[k] == orders[ids[k]]
      requires forall f :: f in result.fills <==>
                 && f in fills
                 && (f.eventTime.Some? && start.Some? ==> start.value <= f.eventTime.value)
                 && (f.eventTime.Some? && end.Some? ==> f.eventTime.value <= end.value)
      ensures FreshOk(View(), Reconciled(result))
      ensures start.None? && end.None? ==> Exactness.Complete(View(), result)
    {
      hide VenueOk, TradesOf, FillOk, CurrentRow, RowOk, FillsOk;
      RowsAreCurrent(orders, ids, fills, result.orders);
      forall k | 0 <= k < |result.fills| ensures FillOk(View(), result.fills[k]) {
        assert result.fills[k] in fills;
        FillIsTrade(orders, fills, result.fills[k]);
      }
      forall n: nat | n < |View().trades| ensures FillOfTrade(n, View().trades[n]) in fills {
        TradeIsFill(fills, n);
      }
    }
  }

  lemma RowsAreCurrent(orders: map<nat, ChildOrder>, ids: seq<nat>, fills: seq<Fill>, rows: seq<ChildOrder>)
    requires FillsOk(fills) && VenueOk(ViewOf(orders, fills)) && OrdersRest(orders) && Listed(orders, ids)
    requires forall id :: id in orders ==> orders[id].status != PendingCancel
    requires |rows| == |ids| && forall k :: 0 <= k < |ids| ==> rows[k] == orders[ids[k]]
    ensures CurrentRows(ViewOf(orders, fills), rows)
    ensures forall k :: 0 <= k < |rows| ==> RowOk(ViewOf(orders, fills), rows[k])
  {
    hide TradesOf;
    var v := ViewOf(orders, fills);
    forall k | 0 <= k < |rows| ensures RowOk(v, rows[k]) && CurrentRow(v, rows[k]) {
      assert ids[k] in orders && OrderOk(v, ids[k]);
    }
    forall id | id in v.orders ensures HasId(rows, id) {
      var k :| 0 <= k < |ids| && ids[k] == id;
      assert rows[k].id == id;
    }
    forall i: nat, j: nat | i < j < |rows| ensures IdsDiffer(rows, i, j) {
      assert ids[i] in orders && ids[j] in orders;
    }
  }

  lemma FillIsTrade(orders: map<nat, ChildOrder>, fills: seq<Fill>, f: Fill)
    requires FillsOk(fills) && f in fills
    ensures FillOk(ViewOf(orders, fills), f)
  {
    var n: nat :| n < |fills| && fills[n] == f;
    assert FillAt(fills, n);
  }

  lemma TradeIsFill(fills: seq<Fill>, n: nat)
    requires FillsOk(fills) && n < |fills|
    ensures FillOfTrade(n, TradesOf(fills)[n]) in fills
  {
    assert FillAt(fills, n);
  }

  /** For fills of the simulator any batching, order, repetition or time window, followed by one
      unwindowed reconciliation, gives the simulator's own trades in sort-key order, with nothing
      uncovered, so the reported average price is the true one. */
  lemma SimulatorDeliveryIsConfluent(sim: Simulator, r: Record, result: ReconciliationResult)
    requires sim.Valid() && forall id :: id in sim.orders ==> sim.orders[id].status != PendingCancel
    requires |result.orders| == |sim.ids| && forall k :: 0 <= k < |sim.ids| ==> result.orders[k] == sim.orders[sim.ids[k]]
    requires forall f :: f in result.fills <==> f in sim.fills
    requires Ledger(r) && Tied(r, sim.View()) && Traced(r.children, sim.View())
    ensures SummaryInputs(ApplyResult(r, result)) == TrueInputs(sim.View().trades)
    ensures Vwap(SummaryInputs(ApplyResult(r, result))) == Vwap(TrueInputs(sim.View().trades))
    ensures Sum(ApplyResult(r, result).children, ConfirmedOf) == Traded(sim.View().trades)
    ensures ApplyResult(r, result).maker == TradedAs(sim.View().trades, true)
    ensures ApplyResult(r, result).taker == TradedAs(sim.View().trades, false)
    ensures Traded(sim.View().trades) > 0 ==>
              Vwap(SummaryInputs(ApplyResult(r, result))) * Traded(sim.View().trades) as real
              == TradedNotional(sim.View().trades) as real
  {
    hide Ledger, Tied, Traced, SummaryInputs, ApplyResult, TrueInputs, Vwap, ResultOk, Exactness.Complete, Sum, FreshOk, WarningOk, TradedAs;
    var v := sim.View();
    sim.ResultIsEvidence(result, None, None);
    FreshWarningHolds(v, r.children, result);
    DeliveryIsConfluent(r, v, result);
  }

  /** A fresh result may be believed. */
  lemma FreshWarningHolds(v: VenueState, children: seq<ChildOrder>, result: ReconciliationResult)
    requires FreshOk(v, Reconciled(result))
    ensures ResultOk(v, result) && WarningOk(v, children, result)
  {
    hide ResultOk, CurrentRow;
    if result.notFound {
      forall id: nat | id !in ClientsOfOrders(result.orders) ensures Absent(v, id) {
        assert !HasId(result.orders, id);
      }
    }
  }
}
