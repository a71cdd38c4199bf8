/** Why an execution fails and why it backs off: what the venue answered, and for how long. */
module Causes {
  import opened Models
  import opened StateMachine
  import opened Records
  import opened FillLedger
  import opened Venues
  import opened Coupling
  import opened Evidence
  import opened Invariant
  import opened Protocol
  import opened Deliveries
  import opened Runs
  import opened Adapters
  import opened Lookups
  import Idempotence

  /** A lookup loop asks about child `k`, and the answer is an error. */
  ghost predicate FaultAt(children: seq<ChildOrder>, answers: seq<Lookup>, unknownOnly: bool, k: nat)
    requires |answers| == |children|
  {
    && k < |children| && (if unknownOnly then children[k].status == Unknown else !children[k].status.IsTerminal())
    && (answers[k] == Banned || answers[k] == Limited || answers[k] == Raised)
  }

  /** The first such child, counting from `i`. */
  ghost predicate FirstFault(children: seq<ChildOrder>, answers: seq<Lookup>, unknownOnly: bool, i: nat, k: nat)
    requires |answers| == |children|
  {
    && i <= k && FaultAt(children, answers, unknownOnly, k)
    && forall j: nat :: i <= j < k ==> !FaultAt(children, answers, unknownOnly, j)
  }

  ghost predicate CutBy(children: seq<ChildOrder>, answers: seq<Lookup>, unknownOnly: bool, i: nat, fault: Lookup) {
    |answers| == |children| && exists k: nat :: FirstFault(children, answers, unknownOnly, i, k) && answers[k] == fault
  }

  function HaltOf(fault: Lookup): Halt {
    match fault
    case Banned => HaltBanned
    case Limited => HaltLimited
    case _ => HaltRaised
  }

  /** A loop that asks nothing or hears no error about child `i` is cut where the rest of it is. */
  lemma CutLater(children: seq<ChildOrder>, later: seq<ChildOrder>, answers: seq<Lookup>, unknownOnly: bool, i: nat, fault: Lookup)
    requires i < |children| == |later| == |answers| && !FaultAt(children, answers, unknownOnly, i)
    requires forall j :: i < j < |children| ==> later[j] == children[j]
    ensures CutBy(children, answers, unknownOnly, i, fault) <==> CutBy(later, answers, unknownOnly, i + 1, fault)
  {
    if CutBy(children, answers, unknownOnly, i, fault) {
      var k: nat :| FirstFault(children, answers, unknownOnly, i, k) && answers[k] == fault;
      forall j: nat | i + 1 <= j < k ensures !FaultAt(later, answers, unknownOnly, j) {
        assert !FaultAt(children, answers, unknownOnly, j);
      }
      assert FirstFault(later, answers, unknownOnly, i + 1, k);
    }
    if CutBy(later, answers, unknownOnly, i + 1, fault) {
      var k: nat :| FirstFault(later, answers, unknownOnly, i + 1, k) && answers[k] == fault;
      forall j: nat | i <= j < k ensures !FaultAt(children, answers, unknownOnly, j) {
        if j > i { assert !FaultAt(later, answers, unknownOnly, j); }
      }
      assert FirstFault(children, answers, unknownOnly, i, k);
    }
  }

  lemma CutHere(children: seq<ChildOrder>, answers: seq<Lookup>, unknownOnly: bool, i: nat, fault: Lookup)
    requires |answers| == |children| && FaultAt(children, answers, unknownOnly, i)
    ensures CutBy(children, answers, unknownOnly, i, fault) <==> answers[i] == fault
  {
    assert FirstFault(children, answers, unknownOnly, i, i);
  }

  /** Where and why a refresh is cut short. */
  lemma {:induction false} LookupsHalt(r: Record, answers: seq<Lookup>, i: nat, fault: Lookup)
    requires |answers| == |r.children| && i <= |r.children| && (fault == Banned || fault == Limited || fault == Raised)
    ensures
      var (r', halt) := LookupFrom(r, answers, i);
      && (halt == HaltOf(fault) <==> CutBy(r.children, answers, false, i, fault))
      && r'.status == r.status && r'.rateLimitedUntil == r.rateLimitedUntil
    decreases |r.children| - i
  {
    hide TakeReport, CutBy;
    if i == |r.children| {
      assert !CutBy(r.children, answers, false, i, fault) by { NothingLeft(r.children, answers, false, i, fault); }
    } else if FaultAt(r.children, answers, false, i) {
      CutHere(r.children, answers, false, i, fault);
    } else {
      LookupOneShape(r, i, answers[i]);
      var next := LookupOne(r, i, answers[i]);
      LookupOneKeeps(r, i, answers[i]);
      LookupsHalt(next, answers, i + 1, fault);
      CutLater(r.children, next.children, answers, false, i, fault);
    }
  }

  lemma NothingLeft(children: seq<ChildOrder>, answers: seq<Lookup>, unknownOnly: bool, i: nat, fault: Lookup)
    requires i >= |children|
    ensures !CutBy(children, answers, unknownOnly, i, fault)
  {}

  lemma LookupOneKeeps(r: Record, i: nat, answer: Lookup)
    requires i < |r.children|
    ensures LookupOne(r, i, answer).status == r.status && LookupOne(r, i, answer).rateLimitedUntil == r.rateLimitedUntil
  {
    hide TakeReport;
    if answer.Found? { Idempotence.ReportShape(r, i, answer.status, answer.filled); }
  }

  /** The same for the lookups of what a fetched result leaves unknown. */
  lemma {:induction false} ResolutionHalts(r: Record, answers: seq<Lookup>, i: nat, fault: Lookup)
    requires |answers| == |r.children| && i <= |r.children| && (fault == Banned || fault == Limited || fault == Raised)
    ensures
      var (r', halt) := ResolveUnknownFrom(r, answers, i);
      && (halt == HaltOf(fault) <==> CutBy(r.children, answers, true, i, fault))
      && r'.status == r.status && r'.rateLimitedUntil == r.rateLimitedUntil
    decreases |r.children| - i
  {
    hide TakeReport, CutBy;
    if i == |r.children| {
      NothingLeft(r.children, answers, true, i, fault);
    } else if FaultAt(r.children, answers, true, i) {
      CutHere(r.children, answers, true, i, fault);
    } else {
      LookupOneShape(r, i, answers[i]);
      var next := ResolveOne(r, i, answers[i]);
      LookupOneKeeps(r, i, answers[i]);
      ResolutionHalts(next, answers, i + 1, fault);
      CutLater(r.children, next.children, answers, true, i, fault);
    }
  }

  /** The venue answers event `e` with a ban, a rate limit, or an error that the call hands on. */
  ghost predicate Hears(w: World, e: Event, fault: Lookup) {
    match e
    case SubmitEnds(outcome) =>
      || (fault == Banned && outcome == SubmitBanned) || (fault == Limited && outcome == SubmitLimited)
      || (fault == Raised && outcome == SubmitRaised)
    case CancelEnds(outcome) => (fault == Banned && outcome == CancelBanned) || (fault == Limited && outcome == CancelLimited)
    case Refreshes(answers) => CutBy(w.rec.children, answers, false, 0, fault)
    case DeliversExact(result, answers) => CutBy(ApplyEvidence(w.rec, result).children, answers, true, 0, fault)
    case _ => false
  }

  lemma SubmissionFate(cfg: Config, w: World, outcome: SubmitOutcome)
    requires w.rec.call.AwaitingSubmit? && w.rec.children != []
    ensures
      var r' := EndSubmit(cfg, w.rec, w.now, outcome);
      && r'.rateLimitedUntil == (if outcome == SubmitLimited then Some(w.now + 1.0) else w.rec.rateLimitedUntil)
      && ((w.rec.status == Running || w.rec.status == ExecutionStatus.Cancelling) ==>
            (r'.status == Failed <==>
               || outcome == SubmitBanned || outcome == TerminalOrderRejected
               || (outcome == OrderRejected && !w.rec.call.postOnly)))
  {
    hide UpdateFill;
    if outcome.Accepted? {
      var i := |w.rec.children| - 1;
      var released := ReleasePendingSubmit(w.rec.(call := Idle), w.rec.children[i].submitted);
      UpdateFrame(SetStatus(released, i, outcome.status), i, outcome.filled, None);
    }
  }

  lemma CancellationFate(w: World, outcome: CancelOutcome)
    requires w.rec.call.AwaitingCancel? && w.rec.call.index < |w.rec.children|
    ensures
      var r' := EndCancel(w.rec, w.now, outcome);
      && r'.rateLimitedUntil == (if outcome == CancelLimited then Some(w.now + 1.0) else w.rec.rateLimitedUntil)
      && ((w.rec.status == Running || w.rec.status == ExecutionStatus.Cancelling) ==> (r'.status == Failed <==> outcome == CancelBanned))
  {
    hide UpdateFill;
    if outcome.CancelAnswered? {
      var i := w.rec.call.index;
      UpdateFrame(SetStatus(w.rec.(call := Idle), i, outcome.status), i, outcome.filled, None);
    }
  }

  lemma RefreshFate(w: World, answers: seq<Lookup>)
    requires |answers| == |w.rec.children|
    ensures
      var r' := Refresh(w.rec, w.now, answers);
      && r'.rateLimitedUntil
         == (if CutBy(w.rec.children, answers, false, 0, Limited) then Some(w.now + 1.0) else w.rec.rateLimitedUntil)
      && ((w.rec.status == Running || w.rec.status == ExecutionStatus.Cancelling) ==>
            (r'.status == Failed <==> CutBy(w.rec.children, answers, false, 0, Banned)))
  {
    hide LookupFrom, CutBy, Recomputed;
    LookupsHalt(w.rec, answers, 0, Banned);
    LookupsHalt(w.rec, answers, 0, Limited);
  }

  lemma DeliveryFate(w: World, result: ReconciliationResult, answers: seq<Lookup>)
    requires Tied(w.rec, w.venue) && Traced(w.rec.children, w.venue) && ResultOk(w.venue, result)
    requires |answers| == |ApplyEvidence(w.rec, result).children|
    ensures
      var e, r' := ApplyEvidence(w.rec, result), ApplyResultExact(w.rec, w.now, result, answers);
      && r'.rateLimitedUntil == (if CutBy(e.children, answers, true, 0, Limited) then Some(w.now + 1.0) else w.rec.rateLimitedUntil)
      && ((w.rec.status == Running || w.rec.status == ExecutionStatus.Cancelling) ==>
            (r'.status == Failed <==> CutBy(e.children, answers, true, 0, Banned)))
  {
    hide ResolveUnknownFrom, CutBy, Recomputed, ApplyEvidence, Tied, Traced, ResultOk, ChildrenAdvanced, RejectMissingFrom;
    var e := ApplyEvidence(w.rec, result);
    EvidenceInforms(w.rec, w.venue, result);
    ResolutionHalts(e, answers, 0, Banned);
    ResolutionHalts(e, answers, 0, Limited);
    var a, listed := ResolveUnknownFrom(e, answers, 0).0, ClientsOfOrders(result.orders);
    Idempotence.RejectMissingShape(a, listed, 0);
    Idempotence.RejectMissingShape(Fail(a), listed, 0);
    Idempotence.RejectMissingShape(BackOff(a, w.now), listed, 0);
  }

  lemma PlainDeliveryFate(w: World, result: ReconciliationResult)
    requires Tied(w.rec, w.venue) && Traced(w.rec.children, w.venue) && ResultOk(w.venue, result)
    ensures
      var r' := ApplyResult(w.rec, result);
      r'.rateLimitedUntil == w.rec.rateLimitedUntil && r'.status == w.rec.status
  {
    hide Recomputed, ApplyEvidence, Tied, Traced, ResultOk, ChildrenAdvanced, RejectMissingFrom;
    EvidenceInforms(w.rec, w.venue, result);
    Idempotence.RejectMissingShape(ApplyEvidence(w.rec, result), ClientsOfOrders(result.orders), 0);
  }

  /** What fails an active execution: a ban, or an order refused for good. */
  ghost predicate Refuses(w: World, e: Event) {
    || Hears(w, e, Banned)
    || e == Stops(Failed)
    || e == SubmitEnds(TerminalOrderRejected)
    || (e == SubmitEnds(OrderRejected) && w.rec.call.AwaitingSubmit? && !w.rec.call.postOnly)
  }

  /** A step fails an active execution exactly when the venue bans it or refuses an order for good,
      and a rate limit blocks it for exactly one second from the moment it is heard. */
  lemma StepFate(cfg: Config, w: World, e: Event, w': World)
    requires Inv(cfg, w) && Step(cfg, w, e, w')
    ensures w.rec.status == Running || w.rec.status == ExecutionStatus.Cancelling ==> (w'.rec.status == Failed <==> Refuses(w, e))
    ensures
      w'.rec.rateLimitedUntil
      == if Hears(w, e, Limited) then Some(w.now + 1.0) else if e.BacksOff? then e.until else w.rec.rateLimitedUntil
    ensures e.BacksOff? && e.until.Some? ==> e.until == Some(w.now + 1.0)
  {
    hide EndSubmit, EndCancel, Refresh, ApplyResult, ApplyResultExact, ApplyEvidence, CutBy, AnswersOk, ResultOk, WarningOk, ListsAll, Evolves,
         SubmitOutcomeOk, CancelOutcomeOk, MaySubmit, BooksOk, Tied, Traced, CapOk, SingleOk, LifeOk, OpensAttempt;
    match e {
      case SubmitEnds(outcome) => SubmissionFate(cfg, w, outcome);
      case CancelEnds(outcome) => CancellationFate(w, outcome);
      case Refreshes(answers) =>
        AnswersLength(w.venue, w.rec.children, answers);
        RefreshFate(w, answers);
      case Delivers(result) => PlainDeliveryFate(w, result);
      case DeliversExact(result, answers) =>
        AnswersLength(w.venue, ApplyEvidence(w.rec, result).children, answers);
        DeliveryFate(w, result, answers);
      case _ =>
    }
  }

  /** What a step does to the reject streak: a refused post-only order is one more, with the price
      and the quote it was sent with, at the time of the refusal; an order that was accepted ends
      the streak, and so may evidence; nothing else touches it. */
  lemma StepStreak(cfg: Config, w: World, e: Event, w': World)
    requires Inv(cfg, w) && Step(cfg, w, e, w')
    ensures
      var (before, after) := (w.rec.rejects, w'.rec.rejects);
      match e
      case SubmitEnds(outcome) =>
        if outcome == OrderRejected && w.rec.call.postOnly
        then after == before + [Reject(w.now, w.rec.call.price, w.rec.call.bid, w.rec.call.ask)]
        else if outcome.Accepted? then
          |w'.rec.children| == |w.rec.children|
          && var status := w'.rec.children[|w'.rec.children| - 1].status;
             after == if status == Unknown || status == Rejected then before else []
        else after == before
      case Refreshes(_) => after == before || after == []
      case Delivers(_) => after == before || after == []
      case DeliversExact(_, _) => after == before || after == []
      case _ => after == before
  {
    hide EndSubmit, EndCancel, Refresh, ApplyResult, ApplyResultExact, ApplyEvidence, AnswersOk, ResultOk, WarningOk, ListsAll, Evolves,
         SubmitOutcomeOk, CancelOutcomeOk, MaySubmit, BooksOk, Tied, Traced, CapOk, SingleOk, OpensAttempt, IdsOk, SubmissionsOk, StreakOk,
         OutcomeOk, AggressiveOk;
    match e {
      case SubmitEnds(outcome) => SubmissionStreak(cfg, w, outcome);
      case CancelEnds(outcome) => CancellationStreak(w, outcome);
      case Refreshes(answers) =>
        AnswersLength(w.venue, w.rec.children, answers);
        LookupsStreak(w.rec, answers, 0);
        RefreshKeepsStreak(w, answers);
      case Delivers(result) => EvidenceStreak(w, result);
      case DeliversExact(result, answers) =>
        AnswersLength(w.venue, ApplyEvidence(w.rec, result).children, answers);
        ExactStreak(w, result, answers);
      case _ =>
    }
  }

  lemma SubmissionStreak(cfg: Config, w: World, outcome: SubmitOutcome)
    requires w.rec.call.AwaitingSubmit? && w.rec.children != []
    ensures
      var r' := EndSubmit(cfg, w.rec, w.now, outcome);
      if outcome == OrderRejected && w.rec.call.postOnly
      then r'.rejects == w.rec.rejects + [Reject(w.now, w.rec.call.price, w.rec.call.bid, w.rec.call.ask)]
      else if outcome.Accepted? then
        |r'.children| == |w.rec.children|
        && var status := r'.children[|r'.children| - 1].status;
           r'.rejects == if status == Unknown || status == Rejected then w.rec.rejects else []
      else r'.rejects == w.rec.rejects
  {
    hide UpdateFill;
    if outcome.Accepted? {
      var i := |w.rec.children| - 1;
      var released := ReleasePendingSubmit(w.rec.(call := Idle), w.rec.children[i].submitted);
      UpdateFrame(SetStatus(released, i, outcome.status), i, outcome.filled, None);
    }
  }

  lemma CancellationStreak(w: World, outcome: CancelOutcome)
    requires w.rec.call.AwaitingCancel? && w.rec.call.index < |w.rec.children|
    ensures EndCancel(w.rec, w.now, outcome).rejects == w.rec.rejects
  {
    hide UpdateFill;
    if outcome.CancelAnswered? {
      var i := w.rec.call.index;
      UpdateFrame(SetStatus(w.rec.(call := Idle), i, outcome.status), i, outcome.filled, None);
    }
  }

  lemma {:induction false} LookupsStreak(r: Record, answers: seq<Lookup>, i: nat)
    requires |answers| == |r.children| && i <= |r.children|
    ensures LookupFrom(r, answers, i).0.rejects == r.rejects || LookupFrom(r, answers, i).0.rejects == []
    decreases |r.children| - i
  {
    hide TakeReport;
    if i < |r.children| && !FaultAt(r.children, answers, false, i) {
      LookupOneShape(r, i, answers[i]);
      LookupOneStreak(r, i, answers[i]);
      LookupsStreak(LookupOne(r, i, answers[i]), answers, i + 1);
    }
  }

  lemma LookupOneStreak(r: Record, i: nat, answer: Lookup)
    requires i < |r.children|
    ensures LookupOne(r, i, answer).rejects == r.rejects || LookupOne(r, i, answer).rejects == []
  {
    hide TakeReport;
    if answer.Found? { Idempotence.ReportShape(r, i, answer.status, answer.filled); }
  }

  lemma {:induction false} ResolutionStreak(r: Record, answers: seq<Lookup>, i: nat)
    requires |answers| == |r.children| && i <= |r.children|
    ensures ResolveUnknownFrom(r, answers, i).0.rejects == r.rejects || ResolveUnknownFrom(r, answers, i).0.rejects == []
    decreases |r.children| - i
  {
    hide TakeReport;
    if i < |r.children| && !FaultAt(r.children, answers, true, i) {
      LookupOneShape(r, i, answers[i]);
      LookupOneStreak(r, i, answers[i]);
      ResolutionStreak(ResolveOne(r, i, answers[i]), answers, i + 1);
    }
  }

  lemma RefreshKeepsStreak(w: World, answers: seq<Lookup>)
    requires |answers| == |w.rec.children|
    ensures Refresh(w.rec, w.now, answers).rejects == LookupFrom(w.rec, answers, 0).0.rejects
  {
    hide LookupFrom, Recomputed;
  }

  lemma EvidenceStreak(w: World, result: ReconciliationResult)
    requires Tied(w.rec, w.venue) && Traced(w.rec.children, w.venue) && ResultOk(w.venue, result)
    ensures ApplyResult(w.rec, result).rejects == w.rec.rejects || ApplyResult(w.rec, result).rejects == []
  {
    hide Recomputed, ApplyEvidence, Tied, Traced, ResultOk, ChildrenAdvanced, RejectMissingFrom;
    EvidenceInforms(w.rec, w.venue, result);
    Idempotence.RejectMissingShape(ApplyEvidence(w.rec, result), ClientsOfOrders(result.orders), 0);
  }

  lemma ExactStreak(w: World, result: ReconciliationResult, answers: seq<Lookup>)
    requires Tied(w.rec, w.venue) && Traced(w.rec.children, w.venue) && ResultOk(w.venue, result)
    requires |answers| == |ApplyEvidence(w.rec, result).children|
    ensures
      var r' := ApplyResultExact(w.rec, w.now, result, answers);
      r'.rejects == w.rec.rejects || r'.rejects == []
  {
    hide Recomputed, ApplyEvidence, Tied, Traced, ResultOk, ChildrenAdvanced, RejectMissingFrom, ResolveUnknownFrom;
    EvidenceInforms(w.rec, w.venue, result);
    ResolutionStreak(ApplyEvidence(w.rec, result), answers, 0);
    var a, listed := ResolveUnknownFrom(ApplyEvidence(w.rec, result), answers, 0).0, ClientsOfOrders(result.orders);
    Idempotence.RejectMissingShape(a, listed, 0);
    Idempotence.RejectMissingShape(Fail(a), listed, 0);
    Idempotence.RejectMissingShape(BackOff(a, w.now), listed, 0);
  }

  ghost predicate RefusedAt(run: Run, k: nat)
    requires k < |run.events| && k < |run.worlds|
  {
    Refuses(run.worlds[k], run.events[k])
  }

  /** An execution that has failed was refused by the venue on the way. */
  lemma {:induction false} FailureIsCaused(cfg: Config, run: Run, i: nat)
    requires IsRun(cfg, run) && i < |run.worlds| && run.worlds[i].rec.status == Failed
    ensures exists k: nat :: k < i && k < |run.events| && RefusedAt(run, k)
  {
    hide Inv, Step, Refuses;
    if i > 0 {
      assert StepAt(cfg, run, i - 1);
      RunsAreSafe(cfg, run, i - 1);
      if run.worlds[i - 1].rec.status == Failed {
        FailureIsCaused(cfg, run, i - 1);
      } else {
        StepFate(cfg, run.worlds[i - 1], run.events[i - 1], run.worlds[i]);
        StatusBefore(cfg, run, i - 1);
        assert RefusedAt(run, i - 1);
      }
    }
  }

  /** Before it fails an execution is running or cancelling. */
  lemma StatusBefore(cfg: Config, run: Run, i: nat)
    requires IsRun(cfg, run) && i < |run.events|
    requires run.worlds[i + 1].rec.status == Failed != run.worlds[i].rec.status
    ensures run.worlds[i].rec.status == Running || run.worlds[i].rec.status == ExecutionStatus.Cancelling
  {
    hide BooksOk, Tied, Traced, CapOk, SingleOk, StepAt;
    RunsAreSafe(cfg, run, i);
    StatusesFollowTheTable(cfg, run, i);
  }

  ghost predicate LimitedAt(run: Run, k: nat)
    requires k < |run.events| && k < |run.worlds|
  {
    Hears(run.worlds[k], run.events[k], Limited) || run.events[k].BacksOff?
  }

  /** A back-off that is in force was started by a rate limit one second before it ends. */
  lemma {:induction false} BackOffLastsASecond(cfg: Config, run: Run, i: nat)
    requires IsRun(cfg, run) && i < |run.worlds| && run.worlds[i].rec.rateLimitedUntil.Some?
    ensures exists k: nat ::
              && k < i && k < |run.events| && LimitedAt(run, k)
              && run.worlds[i].rec.rateLimitedUntil.value == run.worlds[k].now + 1.0
  {
    hide Inv, Step, Hears;
    if i > 0 {
      assert StepAt(cfg, run, i - 1);
      RunsAreSafe(cfg, run, i - 1);
      StepFate(cfg, run.worlds[i - 1], run.events[i - 1], run.worlds[i]);
      if Hears(run.worlds[i - 1], run.events[i - 1], Limited) || run.events[i - 1].BacksOff? {
        assert LimitedAt(run, i - 1);
      } else {
        BackOffLastsASecond(cfg, run, i - 1);
      }
    }
  }
}
