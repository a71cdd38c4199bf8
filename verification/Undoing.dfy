/** What a call to the venue leaves behind once it has been answered: a create or cancel request
    that went wrong undoes what announcing it did, and one whose answer was lost stays reserved. */
module Undoing {
  import opened Models
  import opened StateMachine
  import opened Records
  import opened FillLedger
  import opened Venues
  import opened Coupling
  import opened Invariant
  import opened Protocol
  import opened Steps

  /** A request that never reached the venue is taken back: only its client id is used up. */
  lemma SubmissionUndone(cfg: Config, w: World, quantity: nat, price: int, postOnly: bool, bid: int, ask: int, outcome: SubmitOutcome)
    requires Inv(cfg, w) && w.rec.call == Idle
    requires outcome == SubmitNoData || outcome == SubmitRaised || outcome == SubmitLimited
    ensures
      var begun, id := BeginSubmit(w.rec, w.now, quantity, price, postOnly, bid, ask), w.rec.lastSequence + 1;
      EndSubmit(cfg, begun, w.now, outcome)
      == w.rec.(lastSequence := id, attemptOpen := false, submittedAt := w.rec.submittedAt - {id},
                rateLimitedUntil := if outcome == SubmitLimited then Some(w.now + 1.0) else w.rec.rateLimitedUntil)
  {
    hide BooksOk, Tied, Traced, CapOk, SingleOk, LifeOk, HasId;
    var r, id := w.rec, w.rec.lastSequence + 1;
    FreshId(cfg, w);
    assert (r.children + [ChildOrder(id, quantity, price, PendingSubmit, 0)])[..|r.children|] == r.children;
    assert r.submittedAt[id := w.now] - {id} == r.submittedAt - {id};
    assert (if postOnly then r.aggressive else r.aggressive + {id}) - {id} == r.aggressive;
  }

  /** An order refused stays on record as rejected and reserves nothing; one whose answer was lost
      stays on record as unknown and reserves all of its quantity. */
  lemma SubmissionLost(cfg: Config, r: Record, now: real, quantity: nat, price: int, postOnly: bool, bid: int, ask: int, outcome: SubmitOutcome)
    requires r.call == Idle
    requires outcome == SubmitBanned || outcome == TerminalOrderRejected || outcome == OrderRejected || outcome == CreateTimeout
    ensures
      var begun, id := BeginSubmit(r, now, quantity, price, postOnly, bid, ask), r.lastSequence + 1;
      var r' := EndSubmit(cfg, begun, now, outcome);
      var lost := outcome == CreateTimeout;
      && r'.children == r.children + [ChildOrder(id, quantity, price, if lost then Unknown else Rejected, 0)]
      && r'.exposure == r.exposure.(unknown := r.exposure.unknown + if lost then quantity else 0)
      && (lost ==> r'.status == r.status && r'.rejects == r.rejects && r'.rateLimitedUntil == r.rateLimitedUntil)
  {
    var begun, id := BeginSubmit(r, now, quantity, price, postOnly, bid, ask), r.lastSequence + 1;
    var n := |r.children|;
    assert begun.children[n] == ChildOrder(id, quantity, price, PendingSubmit, 0);
    var status := if outcome == CreateTimeout then Unknown else Rejected;
    assert begun.children[n := begun.children[n].(status := status)] == r.children + [ChildOrder(id, quantity, price, status, 0)];
    assert FloorZero(begun.exposure.pendingSubmit, quantity) == r.exposure.pendingSubmit;
  }

  /** A cancellation that went wrong leaves the order as live, and as reserved, as it was. */
  lemma CancellationUndone(cfg: Config, w: World, i: nat, outcome: CancelOutcome)
    requires Inv(cfg, w) && w.rec.call == Idle && i < |w.rec.children|
    requires w.rec.children[i].status == Open || w.rec.children[i].status == PartiallyFilled
    requires outcome == CancelRaised || outcome == CancelLimited || outcome == CancelBanned
    ensures
      var r := w.rec;
      EndCancel(BeginCancel(r, i), w.now, outcome)
      == match outcome
         case CancelRaised => r
         case CancelLimited => r.(rateLimitedUntil := Some(w.now + 1.0))
         case _ => if r.status == Running || r.status == ExecutionStatus.Cancelling
                   then r.(status := Failed, summary := Some(Failed)) else r
  {
    hide Tied, Traced, CapOk, SingleOk, LifeOk, Ledger, Recomputed, BooksOk;
    LiveInBucket(cfg, w, i);
    CancellationReverts(w.rec, i);
  }

  lemma LiveInBucket(cfg: Config, w: World, i: nat)
    requires Inv(cfg, w) && i < |w.rec.children|
    ensures w.rec.children[i].status.IsLive() ==> w.rec.children[i].Remaining() <= w.rec.exposure.liveOpen
  {
    hide Inv, BucketsOk;
    InvBuckets(cfg, w);
    BucketsReplace(w.rec.children, w.rec.exposure, i, w.rec.children[i]);
  }

  lemma CancellationReverts(r: Record, i: nat)
    requires r.call == Idle && i < |r.children|
    requires r.children[i].status == Open || r.children[i].status == PartiallyFilled
    requires r.children[i].Remaining() <= r.exposure.liveOpen
    ensures BeginCancel(r, i).call.AwaitingCancel? && BeginCancel(r, i).call.index < |BeginCancel(r, i).children|
    ensures RevertCancel(BeginCancel(r, i)) == r
  {
    hide StateMachine.SetChildStatus;
    CancelHops(r.children[i].status);
    PutBack(r.children, i, r.children[i].(status := PendingCancel));
  }

  lemma CancelHops(s: ChildStatus)
    requires s == Open || s == PartiallyFilled
    ensures StateMachine.SetChildStatus(s, PendingCancel) == PendingCancel && StateMachine.SetChildStatus(PendingCancel, s) == s
  {}

  lemma PutBack(s: seq<ChildOrder>, i: nat, c: ChildOrder)
    requires i < |s|
    ensures s[i := c][i := s[i]] == s && s[i := c][i := c] == s[i := c]
  {}

  /** An order that is over releases what it had reserved; one whose answer was lost keeps it, as
      pending cancel. */
  lemma CancellationAnswered(cfg: Config, w: World, i: nat, outcome: CancelOutcome)
    requires Inv(cfg, w) && w.rec.call == Idle && i < |w.rec.children|
    requires w.rec.children[i].status == Open || w.rec.children[i].status == PartiallyFilled
    requires outcome == CancelTimeout || (outcome.CancelAnswered? && (outcome.status == ChildCancelled || outcome.status == Filled))
    ensures
      var (r, c) := (w.rec, w.rec.children[i]);
      var r' := EndCancel(BeginCancel(r, i), w.now, outcome);
      var confirmed := if outcome.CancelAnswered? && outcome.filled > c.confirmed then outcome.filled else c.confirmed;
      && r'.children == r.children[i := c.(status := if outcome.CancelAnswered? then outcome.status else PendingCancel, confirmed := confirmed)]
      && r'.exposure.confirmed == r.exposure.confirmed + confirmed - c.confirmed
      && r'.exposure.liveOpen == r.exposure.liveOpen - c.Remaining()
      && r'.exposure.pendingCancel == r.exposure.pendingCancel + (if outcome.CancelAnswered? then 0 else c.Remaining())
      && r'.exposure.pendingSubmit == r.exposure.pendingSubmit && r'.exposure.unknown == r.exposure.unknown
  {
    hide Inv, StateMachine.SetChildStatus, TakeSnapshot;
    LiveInBucket(cfg, w, i);
    var (r, c) := (w.rec, w.rec.children[i]);
    CancelHops(c.status);
    var begun := BeginCancel(r, i);
    assert begun.children == r.children[i := c.(status := PendingCancel)];
    if outcome.CancelAnswered? {
      AnswerTaken(begun.(call := Idle), i, outcome.status, outcome.filled);
    }
  }

  lemma AnswerTaken(r: Record, i: nat, status: ChildStatus, filled: nat)
    requires i < |r.children| && r.children[i].status == PendingCancel && (status == ChildCancelled || status == Filled)
    ensures
      var c := r.children[i];
      var confirmed := if filled > c.confirmed then filled else c.confirmed;
      var r' := TakeSnapshot(r, i, status, filled);
      && r'.children == r.children[i := c.(status := status, confirmed := confirmed)]
      && r'.exposure == r.exposure.(confirmed := r.exposure.confirmed + confirmed - c.confirmed)
      && r'.call == r.call
  {
    hide StateMachine.SetChildStatus;
    OverHops(status);
  }

  lemma OverHops(s: ChildStatus)
    requires s == ChildCancelled || s == Filled
    ensures StateMachine.SetChildStatus(PendingCancel, s) == s
  {}
}
