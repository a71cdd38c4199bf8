/** The exchange as the engine meets it: an adapter whose answers are arbitrary except that they
    are true, and behind which orders fill, appear and vanish on their own. */
module Adapters {
  import opened Models
  import opened Records
  import opened FillLedger
  import opened Venues
  import opened Protocol

  datatype ReconcileAnswer =
    | Reconciled(result: ReconciliationResult)
    | ReconcileBanned | ReconcileLimited | ReconcileRaised

  /** Best prices together with the quantity step of the symbol rules. */
  datatype MarketAnswer = Quote(bid: int, ask: int, step: nat) | NoFreshData | MarketRaised

  /** The executable form of `Evolves`. */
  predicate MayMoveTo(v: VenueState, v': VenueState) {
    && VenueOk(v')
    && v.trades <= v'.trades
    && forall id :: id in v.orders.Keys + v'.orders.Keys + v'.inflight.Keys ==> OrderEvolves(v, v', id)
  }

  lemma MoveIsEvolution(v: VenueState, v': VenueState)
    ensures MayMoveTo(v, v') <==> Evolves(v, v')
  {
    if MayMoveTo(v, v') {
      forall id: nat ensures OrderEvolves(v, v', id) {
        assert id in v.orders.Keys + v'.orders.Keys + v'.inflight.Keys ==> OrderEvolves(v, v', id);
      }
    }
  }

  /** The venue right after a create request was sent. */
  function Sent(v: VenueState, id: nat, quantity: nat): VenueState {
    v.(inflight := v.inflight[id := quantity])
  }

  lemma SentIsOk(v: VenueState, id: nat, quantity: nat)
    requires VenueOk(v) && id !in v.orders
    ensures VenueOk(Sent(v, id, quantity))
  {
    var v' := Sent(v, id, quantity);
    forall k: nat | k < |v'.trades| ensures TradeOk(v', k) { assert TradeOk(v, k); }
    forall id | id in v'.orders ensures OrderOk(v', id) { assert OrderOk(v, id); }
  }

  /** A lookup reports what the venue holds; an order it does not find never appears later. */
  predicate LookupOk(v: VenueState, id: nat, answer: Lookup) {
    match answer
    case Found(status, filled) => id in v.orders && status == v.orders[id].Status() && filled == v.orders[id].filled
    case NotFound => Absent(v, id)
    case _ => true
  }

  /** A fetched result lists every order; it warns only when no request is on its way. */
  predicate FreshOk(v: VenueState, answer: ReconcileAnswer) {
    answer.Reconciled? ==>
      && ResultOk(v, answer.result)
      && (forall id :: id in v.orders ==> HasId(answer.result.orders, id))
      && (answer.result.notFound ==> v.inflight == map[])
  }

  class Venue {
    var state: VenueState

    constructor ()
      ensures state == EmptyVenue()
    {
      state := EmptyVenue();
    }

    /** Time for the exchange: any number of fills, cancellations, arrivals and losses. */
    method Move()
      requires VenueOk(state)
      modifies this
      ensures Evolves(old(state), state)
    {
      EvolvesReflexive(state);
      var next: VenueState := *;
      if MayMoveTo(state, next) {
        MoveIsEvolution(state, next);
        state := next;
      }
    }

    method SubmitLimitOrder(id: nat, quantity: nat) returns (outcome: SubmitOutcome)
      requires VenueOk(state) && Absent(state, id)
      modifies this
      ensures Evolves(Sent(old(state), id, quantity), state)
      ensures SubmitOutcomeOk(state, id, outcome)
    {
      SentIsOk(state, id, quantity);
      state := Sent(state, id, quantity);
      Move();
      outcome := *;
      if !SubmitOutcomeOk(state, id, outcome) {
        outcome := CreateTimeout;
      }
    }

    method CancelOrder(id: nat) returns (outcome: CancelOutcome)
      requires VenueOk(state)
      modifies this
      ensures Evolves(old(state), state)
      ensures CancelOutcomeOk(state, id, outcome)
    {
      Move();
      outcome := *;
      if !CancelOutcomeOk(state, id, outcome) {
        outcome := CancelTimeout;
      }
    }

    method GetOrderByClientOrderId(id: nat) returns (answer: Lookup)
      requires VenueOk(state)
      modifies this
      ensures Evolves(old(state), state)
      ensures LookupOk(state, id, answer)
    {
      Move();
      answer := *;
      if !LookupOk(state, id, answer) {
        answer := Raised;
      }
    }

    method ReconcileOrdersAndFills() returns (answer: ReconcileAnswer)
      requires VenueOk(state)
      modifies this
      ensures Evolves(old(state), state)
      ensures FreshOk(state, answer)
    {
      Move();
      answer := *;
      if !FreshOk(state, answer) {
        answer := ReconcileRaised;
      }
    }

    method HealthCheckStreams() returns (healthy: bool)
      requires VenueOk(state)
      modifies this
      ensures Evolves(old(state), state)
    {
      Move();
      healthy := *;
    }

    method GetBestBidAsk() returns (answer: MarketAnswer)
      requires VenueOk(state)
      modifies this
      ensures Evolves(old(state), state)
      ensures answer.Quote? ==> answer.step > 0
    {
      Move();
      answer := *;
      if answer.Quote? && !(answer.step > 0) {
        answer := MarketRaised;
      }
    }
  }
}
