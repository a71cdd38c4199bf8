/** What the children on record are: the submissions of the run. */
module Submissions {
  import opened Models
  import opened StateMachine
  import opened Records
  import opened FillLedger
  import opened Venues
  import opened Coupling
  import opened Invariant
  import opened Protocol
  import opened Steps
  import opened Runs

  /** Child `i` of record `r` is what event `k` has submitted: its quantity, its price, its style and
      its time. */
  ghost predicate SubmittedBy(r: Record, i: nat, run: Run, k: nat)
    requires i < |r.children|
  {
    && k < |run.events| && k < |run.worlds| && run.events[k].SubmitBegins?
    && var (c, e, w) := (r.children[i], run.events[k], run.worlds[k]);
       && c.id == w.rec.lastSequence + 1 && c.submitted == e.quantity && c.price == e.price
       && c.id in r.submittedAt && r.submittedAt[c.id] == w.now
       && (c.id in r.aggressive <==> !e.postOnly)
  }

  ghost predicate SubmittedBefore(r: Record, i: nat, run: Run, n: nat)
    requires i < |r.children|
  {
    exists k: nat :: k < n && SubmittedBy(r, i, run, k)
  }

  /** Child `i` is the same submission in both records. */
  ghost predicate SameSubmission(r: Record, r': Record, i: nat) {
    && i < |r.children| && i < |r'.children|
    && var (c, c') := (r.children[i], r'.children[i]);
       && c'.id == c.id && c'.submitted == c.submitted && c'.price == c.price
       && (c.id in r.submittedAt ==> c.id in r'.submittedAt && r'.submittedAt[c.id] == r.submittedAt[c.id])
       && (c.id in r.aggressive <==> c.id in r'.aggressive)
  }

  lemma SubmittedStays(r: Record, r': Record, i: nat, run: Run, n: nat)
    requires SameSubmission(r, r', i) && SubmittedBefore(r, i, run, n)
    ensures SubmittedBefore(r', i, run, n + 1)
  {
    var k: nat :| k < n && SubmittedBy(r, i, run, k);
    assert SubmittedBy(r', i, run, k);
  }

  lemma SteadySubmission(r: Record, r': Record, i: nat)
    requires Steady(r, r') && i < |r'.children|
    ensures SameSubmission(r, r', i)
  {
    assert AdvancedAt(r.children, r'.children, i);
  }

  lemma BeginSubmission(cfg: Config, w: World, quantity: nat, price: int, postOnly: bool, bid: int, ask: int, i: nat)
    requires Inv(cfg, w)
    ensures
      var r' := BeginSubmit(w.rec, w.now, quantity, price, postOnly, bid, ask);
      && |r'.children| == |w.rec.children| + 1
      && (i < |w.rec.children| ==> SameSubmission(w.rec, r', i))
      && (i == |w.rec.children| ==>
            r'.children[i] == ChildOrder(w.rec.lastSequence + 1, quantity, price, PendingSubmit, 0)
            && w.rec.lastSequence + 1 in r'.submittedAt && r'.submittedAt[w.rec.lastSequence + 1] == w.now
            && (w.rec.lastSequence + 1 in r'.aggressive <==> !postOnly))
  {
    hide BooksOk, Tied, Traced, CapOk, SingleOk, SubmissionsOk, AggressiveOk, StreakOk, OutcomeOk, CallOk;
    FreshId(cfg, w);
    if i < |w.rec.children| { assert IdAt(w.rec.children, w.rec.lastSequence, i); }
  }

  /** The end of a submission leaves what the children are, or takes the last one back. */
  lemma EndSubmission(cfg: Config, w: World, outcome: SubmitOutcome, i: nat)
    requires Inv(cfg, w) && w.rec.call.AwaitingSubmit? && w.rec.children != []
    ensures
      var r' := EndSubmit(cfg, w.rec, w.now, outcome);
      i < |r'.children| ==> SameSubmission(w.rec, r', i)
  {
    hide Inv, EndSubmit, SameSubmission, BooksOk, DistinctIds;
    if outcome.Accepted? {
      AcceptedSubmission(cfg, w.rec, w.now, outcome, i);
    } else {
      InvBooksOk(cfg, w);
      LedgerIds(w.rec);
      RefusedSubmission(cfg, w.rec, w.now, outcome, i);
    }
  }

  lemma AcceptedSubmission(cfg: Config, r: Record, now: real, outcome: SubmitOutcome, i: nat)
    requires r.call.AwaitingSubmit? && r.children != [] && outcome.Accepted?
    ensures
      var r' := EndSubmit(cfg, r, now, outcome);
      i < |r'.children| ==> SameSubmission(r, r', i)
  {
    hide UpdateFill, StateMachine.SetChildStatus;
    var n := |r.children| - 1;
    var released := ReleasePendingSubmit(r.(call := Idle), r.children[n].submitted);
    var marked := SetStatus(released, n, outcome.status);
    UpdateFrame(marked, n, outcome.filled, None);
    if i <= n { assert GrewAt(marked.children, UpdateFill(marked, n, outcome.filled, None).children, i); }
  }

  lemma RefusedSubmission(cfg: Config, r: Record, now: real, outcome: SubmitOutcome, i: nat)
    requires r.call.AwaitingSubmit? && r.children != [] && !outcome.Accepted? && DistinctIds(r.children)
    ensures
      var r' := EndSubmit(cfg, r, now, outcome);
      i < |r'.children| ==> SameSubmission(r, r', i)
  {
    hide StateMachine.SetChildStatus, DistinctIds;
    var n := |r.children| - 1;
    if i < n { assert r.children[i].id != r.children[n].id by { IdsApart(r.children, i, n); } }
  }

  lemma IdsApart(children: seq<ChildOrder>, i: nat, j: nat)
    requires DistinctIds(children) && i < j < |children|
    ensures children[i].id != children[j].id
  {
    assert IdsDiffer(children, i, j);
  }

  lemma InvBooksOk(cfg: Config, w: World)
    requires Inv(cfg, w)
    ensures BooksOk(w.rec)
  {}

  /** Every child of a run carries the quantity, the price, the style and the time it was submitted
      with. */
  lemma {:induction false} ChildrenAreSubmissions(cfg: Config, run: Run, n: nat, i: nat)
    requires IsRun(cfg, run) && n < |run.worlds| && i < |run.worlds[n].rec.children|
    ensures SubmittedBefore(run.worlds[n].rec, i, run, n)
  {
    hide Inv, Step, SubmittedBefore, SameSubmission, SubmittedBy, Steady;
    if n > 0 {
      assert StepAt(cfg, run, n - 1);
      StepSubmission(cfg, run, n - 1, i);
      RunsAreSafe(cfg, run, n - 1);
      var (w, w') := (run.worlds[n - 1], run.worlds[n]);
      if SameSubmission(w.rec, w'.rec, i) {
        ThereBefore(w.rec, w'.rec, i);
        ChildrenAreSubmissions(cfg, run, n - 1, i);
        SubmittedStays(w.rec, w'.rec, i, run, n - 1);
      } else {
        assert SubmittedBefore(w'.rec, i, run, n) by { Witnessed(w'.rec, i, run, n - 1); }
      }
    }
  }

  lemma ThereBefore(r: Record, r': Record, i: nat)
    requires SameSubmission(r, r', i)
    ensures i < |r.children|
  {}

  lemma Witnessed(r: Record, i: nat, run: Run, k: nat)
    requires i < |r.children| && SubmittedBy(r, i, run, k)
    ensures SubmittedBefore(r, i, run, k + 1)
  {}

  lemma StepSubmission(cfg: Config, run: Run, n: nat, i: nat)
    requires IsRun(cfg, run) && n < |run.events| && i < |run.worlds[n + 1].rec.children|
    ensures SameSubmission(run.worlds[n].rec, run.worlds[n + 1].rec, i) || SubmittedBy(run.worlds[n + 1].rec, i, run, n)
  {
    hide Inv, BeginSubmit, EndSubmit, SameSubmission, Steady, MaySubmit, SubmitOutcomeOk, CancelOutcomeOk, BeginCancel, EndCancel, Refresh,
         ApplyResult, ApplyResultExact, ApplyEvidence, ResultOk, WarningOk, ListsAll, Evolves, MayStop, OpensAttempt, ChildrenMoved;
    var (w, e, w') := (run.worlds[n], run.events[n], run.worlds[n + 1]);
    assert StepAt(cfg, run, n);
    RunsAreSafe(cfg, run, n);
    StepKeepsInv(cfg, w, e, w');
    match e {
      case SubmitBegins(quantity, price, postOnly, bid, ask) =>
        BeginSubmission(cfg, w, quantity, price, postOnly, bid, ask, i);
      case SubmitEnds(outcome) => EndSubmission(cfg, w, outcome, i);
      case Decides => Unmoved(w.rec, w'.rec, i);
      case _ => SteadySubmission(w.rec, w'.rec, i);
    }
  }

  lemma Unmoved(r: Record, r': Record, i: nat)
    requires i < |r'.children| && r'.children == r.children && r'.submittedAt == r.submittedAt && r'.aggressive == r.aggressive
    ensures SameSubmission(r, r', i)
  {}
}
