/** ExposureTracker: filled and reserved quantity of one execution, and the check that guards
    every reservation. */
module Trackers {
  import opened Models
  import opened Records

  class ExposureTracker {
    const target: nat
    var confirmed: nat
    var liveOpen: nat
    var pendingSubmit: nat
    var pendingCancel: nat
    var unknown: nat
    var seenTradeIds: set<nat>

    constructor (target: nat)
      ensures this.target == target
      ensures View() == Exposure(0, 0, 0, 0, 0) && seenTradeIds == {}
    {
      this.target := target;
      confirmed, liveOpen, pendingSubmit, pendingCancel, unknown := 0, 0, 0, 0, 0;
      seenTradeIds := {};
    }

    function View(): Exposure
      reads this
    {
      Exposure(confirmed, liveOpen, pendingSubmit, pendingCancel, unknown)
    }

    function AvailableToSubmit(): (available: nat)
      reads this
      ensures available > 0 ==> CanSubmit(available) && !CanSubmit(available + 1)
      ensures available == 0 <==> !CanSubmit(1)
    {
      FloorZero(target, confirmed + View().Reserved())
    }

    /** check_exposure_invariant with zero tolerance; false stands for the validation error. */
    predicate CanSubmit(quantity: nat)
      reads this
    {
      confirmed + View().Reserved() + quantity <= target
    }

    /** The check comes first: a refused reservation changes nothing. */
    method ReserveLiveOpen(quantity: nat) returns (ok: bool)
      modifies this
      ensures ok == old(CanSubmit(quantity)) && seenTradeIds == old(seenTradeIds)
      ensures View() == if ok then old(View()).(liveOpen := old(liveOpen) + quantity) else old(View())
    {
      ok := CanSubmit(quantity);
      if ok { liveOpen := liveOpen + quantity; }
    }

    method ReservePendingSubmit(quantity: nat) returns (ok: bool)
      modifies this
      ensures ok == old(CanSubmit(quantity)) && seenTradeIds == old(seenTradeIds)
      ensures View() == if ok then old(View()).(pendingSubmit := old(pendingSubmit) + quantity) else old(View())
    {
      ok := CanSubmit(quantity);
      if ok { pendingSubmit := pendingSubmit + quantity; }
    }

    method ReserveUnknownCreate(quantity: nat) returns (ok: bool)
      modifies this
      ensures ok == old(CanSubmit(quantity)) && seenTradeIds == old(seenTradeIds)
      ensures View() == if ok then old(View()).(unknown := old(unknown) + quantity) else old(View())
    {
      ok := CanSubmit(quantity);
      if ok { unknown := unknown + quantity; }
    }

    method ReleasePendingSubmit(quantity: nat)
      modifies this
      ensures View() == old(View()).(pendingSubmit := FloorZero(old(pendingSubmit), quantity))
      ensures seenTradeIds == old(seenTradeIds)
    {
      pendingSubmit := FloorZero(pendingSubmit, quantity);
    }

    method ReleasePendingCancel(quantity: nat)
      modifies this
      ensures View() == old(View()).(pendingCancel := FloorZero(old(pendingCancel), quantity))
      ensures seenTradeIds == old(seenTradeIds)
    {
      pendingCancel := FloorZero(pendingCancel, quantity);
    }

    method ClearUnknownCreate()
      modifies this
      ensures View() == old(View()).(unknown := 0) && seenTradeIds == old(seenTradeIds)
    {
      unknown := 0;
    }

    method MarkPendingCancel(quantity: nat)
      modifies this
      ensures View() == Records.MarkPendingCancel(old(View()), quantity)
      ensures View().Reserved() == old(View().Reserved()) && seenTradeIds == old(seenTradeIds)
    {
      var moved := if quantity < liveOpen then quantity else liveOpen;
      liveOpen := liveOpen - moved;
      pendingCancel := pendingCancel + moved;
    }

    /** A trade id counts once, and the confirmed quantity never falls. */
    method ApplyFill(tradeId: Option<nat>, cumulative: nat) returns (delta: nat)
      modifies this
      ensures seenTradeIds == old(seenTradeIds) + if tradeId.Some? then {tradeId.value} else {}
      ensures View() == old(View()).(confirmed := old(confirmed) + delta)
      ensures delta == if tradeId.Some? && tradeId.value in old(seenTradeIds) then 0 else FloorZero(cumulative, old(confirmed))
    {
      if tradeId.Some? {
        if tradeId.value in seenTradeIds {
          return 0;
        }
        seenTradeIds := seenTradeIds + {tradeId.value};
      }
      if cumulative <= confirmed {
        return 0;
      }
      delta := cumulative - confirmed;
      confirmed := cumulative;
    }

    /** The buckets start over from zero; the confirmed quantity stays. */
    method ResetReserved()
      modifies this
      ensures View() == Exposure(old(confirmed), 0, 0, 0, 0) && seenTradeIds == old(seenTradeIds)
    {
      liveOpen, pendingSubmit, pendingCancel, unknown := 0, 0, 0, 0;
    }
  }
}
