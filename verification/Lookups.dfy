/** The lookup loops, answer by answer, and what a completed one leaves behind. */
module Lookups {
  import opened Models
  import opened StateMachine
  import opened Records
  import opened FillLedger
  import opened Venues
  import opened Coupling
  import opened Evidence
  import opened Invariant
  import opened Deliveries
  import opened Adapters
  import Idempotence

  predicate Halts(answer: Lookup) { answer.Banned? || answer.Limited? || answer.Raised? }

  /** One turn of the refresh loop. */
  function LookupOne(r: Record, i: nat, answer: Lookup): Record
    requires i < |r.children|
  {
    if r.children[i].status.IsTerminal() then r
    else
      match answer
      case NotFound => if r.children[i].status == Unknown then SetStatus(r, i, Rejected) else r
      case Found(status, filled) => TakeReport(r, i, status, filled)
      case _ => r
  }

  /** One turn of the loop over unknown children. */
  function ResolveOne(r: Record, i: nat, answer: Lookup): Record
    requires i < |r.children|
  {
    if r.children[i].status != Unknown then r else LookupOne(r, i, answer)
  }

  lemma LookupOneShape(r: Record, i: nat, answer: Lookup)
    requires i < |r.children|
    ensures |LookupOne(r, i, answer).children| == |r.children|
    ensures forall j :: 0 <= j < |r.children| && j != i ==> LookupOne(r, i, answer).children[j] == r.children[j]
  {
    hide TakeReport;
    if answer.Found? {
      Idempotence.ReportShape(r, i, answer.status, answer.filled);
    }
  }

  /** The record after the answers so far. */
  ghost function LookedUp(r: Record, answers: seq<Lookup>): (r': Record)
    requires |answers| <= |r.children|
    ensures |r'.children| == |r.children|
    ensures forall j :: |answers| <= j < |r.children| ==> r'.children[j] == r.children[j]
  {
    if answers == [] then r
    else
      var n := |answers| - 1;
      var r1 := LookedUp(r, answers[..n]);
      LookupOneShape(r1, n, answers[n]);
      LookupOne(r1, n, answers[n])
  }

  ghost function Resolved(r: Record, answers: seq<Lookup>): (r': Record)
    requires |answers| <= |r.children|
    ensures |r'.children| == |r.children|
    ensures forall j :: |answers| <= j < |r.children| ==> r'.children[j] == r.children[j]
  {
    if answers == [] then r
    else
      var n := |answers| - 1;
      var r1 := Resolved(r, answers[..n]);
      LookupOneShape(r1, n, answers[n]);
      ResolveOne(r1, n, answers[n])
  }

  /** No answer so far cut the loop short. */
  ghost predicate NoHalt(r: Record, answers: seq<Lookup>)
    requires |answers| <= |r.children|
  {
    forall j :: 0 <= j < |answers| ==> r.children[j].status.IsTerminal() || !Halts(answers[j])
  }

  ghost predicate NoHaltUnknown(r: Record, answers: seq<Lookup>)
    requires |answers| <= |r.children|
  {
    forall j :: 0 <= j < |answers| ==> r.children[j].status != Unknown || !Halts(answers[j])
  }

  lemma {:induction false} LookupPrefix(r: Record, answers: seq<Lookup>, k: nat)
    requires |answers| == |r.children| && k <= |answers| && NoHalt(r, answers[..k])
    ensures LookupFrom(r, answers, 0) == LookupFrom(LookedUp(r, answers[..k]), answers, k)
  {
    hide TakeReport, SetStatus;
    if k > 0 {
      var n := k - 1;
      assert answers[..k][..n] == answers[..n];
      assert forall j :: 0 <= j < n ==> answers[..n][j] == answers[..k][j];
      LookupPrefix(r, answers, n);
      var r1 := LookedUp(r, answers[..n]);
      assert r1.children[n] == r.children[n];
      assert answers[..k][n] == answers[n];
      assert LookedUp(r, answers[..k]) == LookupOne(r1, n, answers[n]);
    }
  }

  lemma {:induction false} ResolvePrefix(r: Record, answers: seq<Lookup>, k: nat)
    requires |answers| == |r.children| && k <= |answers| && NoHaltUnknown(r, answers[..k])
    ensures ResolveUnknownFrom(r, answers, 0) == ResolveUnknownFrom(Resolved(r, answers[..k]), answers, k)
  {
    hide TakeReport, SetStatus;
    if k > 0 {
      var n := k - 1;
      assert answers[..k][..n] == answers[..n];
      assert forall j :: 0 <= j < n ==> answers[..n][j] == answers[..k][j];
      ResolvePrefix(r, answers, n);
      var r1 := Resolved(r, answers[..n]);
      assert r1.children[n] == r.children[n];
      assert answers[..k][n] == answers[n];
      assert Resolved(r, answers[..k]) == ResolveOne(r1, n, answers[n]);
    }
  }

  function Unasked(n: nat): seq<Lookup> { seq(n, _ => Raised) }

  /** The answers of a loop that stopped at child `k`. */
  function StoppedBy(answers: seq<Lookup>, fault: Lookup, children: nat): seq<Lookup>
    requires |answers| < children
  {
    answers + [fault] + Unasked(children - |answers| - 1)
  }

  lemma RefreshStops(r: Record, answers: seq<Lookup>, fault: Lookup)
    requires |answers| < |r.children| && NoHalt(r, answers)
    requires Halts(fault) && !r.children[|answers|].status.IsTerminal()
    ensures LookupFrom(r, StoppedBy(answers, fault, |r.children|), 0)
            == (LookedUp(r, answers), match fault case Banned => HaltBanned case Limited => HaltLimited case _ => HaltRaised)
  {
    hide LookedUp;
    var all, k := StoppedBy(answers, fault, |r.children|), |answers|;
    assert all[..k] == answers;
    assert NoHalt(r, all[..k]);
    LookupPrefix(r, all, k);
    assert LookedUp(r, answers).children[k] == r.children[k];
  }

  lemma RefreshRuns(r: Record, answers: seq<Lookup>)
    requires |answers| == |r.children| && NoHalt(r, answers)
    ensures LookupFrom(r, answers, 0) == (LookedUp(r, answers), Ran)
  {
    hide LookedUp;
    assert answers[..|answers|] == answers;
    LookupPrefix(r, answers, |answers|);
  }

  lemma ResolutionStops(r: Record, answers: seq<Lookup>, fault: Lookup)
    requires |answers| < |r.children| && NoHaltUnknown(r, answers)
    requires Halts(fault) && r.children[|answers|].status == Unknown
    ensures ResolveUnknownFrom(r, StoppedBy(answers, fault, |r.children|), 0)
            == (Resolved(r, answers), match fault case Banned => HaltBanned case Limited => HaltLimited case _ => HaltRaised)
  {
    hide Resolved;
    var all, k := StoppedBy(answers, fault, |r.children|), |answers|;
    assert all[..k] == answers;
    assert NoHaltUnknown(r, all[..k]);
    ResolvePrefix(r, all, k);
    assert Resolved(r, answers).children[k] == r.children[k];
  }

  lemma ResolutionRuns(r: Record, answers: seq<Lookup>)
    requires |answers| == |r.children| && NoHaltUnknown(r, answers)
    ensures ResolveUnknownFrom(r, answers, 0) == (Resolved(r, answers), Ran)
  {
    hide Resolved;
    assert answers[..|answers|] == answers;
    ResolvePrefix(r, answers, |answers|);
  }

  // ---- answers and time ----

  /** Answers so far, to the first children. */
  ghost predicate AnsweredOk(v: VenueState, children: seq<ChildOrder>, answers: seq<Lookup>) {
    |answers| <= |children| && forall j: nat :: j < |answers| ==> AnswerOkAt(v, children, answers, j)
  }

  lemma AnswersAge(v: VenueState, v': VenueState, children: seq<ChildOrder>, answers: seq<Lookup>)
    requires AnsweredOk(v, children, answers) && Evolves(v, v')
    ensures AnsweredOk(v', children, answers)
  {
    hide VenueOk, ReportOk;
    forall j: nat | j < |answers| ensures AnswerOkAt(v', children, answers, j) {
      assert AnswerOkAt(v, children, answers, j);
      assert OrderEvolves(v, v', children[j].id);
      if !children[j].status.IsTerminal() && answers[j].Found? {
        ReportsAge(v, v', children[j].id, answers[j].status, answers[j].filled);
      }
    }
  }

  lemma OneMoreAnswer(v: VenueState, children: seq<ChildOrder>, answers: seq<Lookup>, answer: Lookup)
    requires AnsweredOk(v, children, answers) && |answers| < |children|
    requires children[|answers|].status.IsTerminal() || AnswerOk(v, children[|answers|], answer)
    ensures AnsweredOk(v, children, answers + [answer])
  {
    var all := answers + [answer];
    forall j: nat | j < |all| ensures AnswerOkAt(v, children, all, j) {
      if j < |answers| { assert AnswerOkAt(v, children, answers, j); }
    }
  }

  lemma StoppedAnswersOk(v: VenueState, children: seq<ChildOrder>, answers: seq<Lookup>, fault: Lookup)
    requires AnsweredOk(v, children, answers) && |answers| < |children| && Halts(fault)
    ensures AnswersOk(v, children, StoppedBy(answers, fault, |children|))
  {
    var all := StoppedBy(answers, fault, |children|);
    forall j: nat | j < |children| ensures AnswerOkAt(v, children, all, j) {
      if j < |answers| { assert AnswerOkAt(v, children, answers, j); }
    }
  }

  lemma AllAnsweredOk(v: VenueState, children: seq<ChildOrder>, answers: seq<Lookup>)
    requires AnsweredOk(v, children, answers) && |answers| == |children|
    ensures AnswersOk(v, children, answers)
  {
    forall j: nat | j < |children| ensures AnswerOkAt(v, children, answers, j) {}
  }

  /** What the venue holds is at least as new as what any record knows. */
  lemma LookupIsFresh(r: Record, v: VenueState, v': VenueState, i: nat, answer: Lookup)
    requires Tied(r, v) && Evolves(v, v') && i < |r.children|
    requires LookupOk(v', r.children[i].id, answer)
    ensures AnswerOk(v', r.children[i], answer)
  {
    hide LedgerView, VenueOk, Coupled;
    CoupledChild(r.children, v, i);
    EvolutionKeepsChild(r.children[i], v, v');
    if answer.Found? { VenueReportsItself(v', r.children[i].id); }
  }

  lemma VenueReportsItself(v: VenueState, id: nat)
    requires VenueOk(v) && id in v.orders
    ensures ReportOk(v.orders[id], v.orders[id].Status(), v.orders[id].filled)
  {
    assert OrderOk(v, id);
  }

  // ---- what a completed refresh leaves behind ----

  /** No child is left open with nothing to fill. */
  ghost predicate SettledAt(children: seq<ChildOrder>, i: nat)
    requires i < |children|
  {
    children[i].status.IsTerminal() || children[i].Remaining() > 0
  }

  ghost predicate Settled(children: seq<ChildOrder>) {
    forall i: nat :: i < |children| ==> SettledAt(children, i)
  }

  lemma ReportSettles(c: ChildOrder, v: VenueState, status: ChildStatus, filled: nat)
    requires VenueOk(v) && ChildOk(c, v) && c.id in v.orders && ReportOk(v.orders[c.id], status, filled) && filled >= c.confirmed
    ensures
      var s := SetChildStatus(c.status, status);
      s.IsTerminal() || filled < c.submitted
  {
    assert OrderOk(v, c.id);
  }

  lemma AnswerSettles(r: Record, v: VenueState, i: nat, answer: Lookup)
    requires Tied(r, v) && i < |r.children| && !Halts(answer)
    requires r.children[i].status.IsTerminal() || AnswerOk(v, r.children[i], answer)
    ensures |LookupOne(r, i, answer).children| == |r.children|
    ensures SettledAt(LookupOne(r, i, answer).children, i)
  {
    hide LedgerView, VenueOk, Coupled, TakeReport, ReportOk;
    CoupledChild(r.children, v, i);
    LookupOneShape(r, i, answer);
    if answer.Found? && !r.children[i].status.IsTerminal() {
      Idempotence.ReportShape(r, i, answer.status, answer.filled);
      ReportSettles(r.children[i], v, answer.status, answer.filled);
    }
  }

  /** After a refresh that was not cut short every child is finished or has something left to
      fill. */
  lemma {:induction false} CompleteRefreshSettles(r: Record, v: VenueState, answers: seq<Lookup>)
    requires Tied(r, v) && AnsweredOk(v, r.children, answers) && NoHalt(r, answers)
    ensures forall i: nat :: i < |answers| ==> SettledAt(LookedUp(r, answers).children, i)
    ensures Tied(LookedUp(r, answers), v)
  {
    hide Tied, TakeReport, ReportOk, Absent, Halts, ChildrenAdvanced;
    if answers != [] {
      var n := |answers| - 1;
      assert AnsweredOk(v, r.children, answers[..n]) by {
        forall j: nat | j < n ensures AnswerOkAt(v, r.children, answers[..n], j) {
          assert AnswerOkAt(v, r.children, answers, j);
        }
      }
      assert NoHalt(r, answers[..n]);
      CompleteRefreshSettles(r, v, answers[..n]);
      var r1 := LookedUp(r, answers[..n]);
      assert r1.children[n] == r.children[n];
      assert AnswerOkAt(v, r.children, answers, n);
      LookupOneShape(r1, n, answers[n]);
      if r1.children[n].status.IsTerminal() {
        assert LookedUp(r, answers) == r1;
      } else {
        AnswerSettles(r1, v, n, answers[n]);
        AnswerInforms(r1, v, n, answers[n]);
      }
      forall i: nat | i < |answers| ensures SettledAt(LookedUp(r, answers).children, i) {
        if i < n { assert SettledAt(r1.children, i); }
      }
    }
  }

  lemma AnswerInforms(r: Record, v: VenueState, i: nat, answer: Lookup)
    requires Tied(r, v) && i < |r.children|
    requires r.children[i].status.IsTerminal() || AnswerOk(v, r.children[i], answer)
    ensures Tied(LookupOne(r, i, answer), v)
  {
    hide Tied, TakeReport, ReportOk, Absent, ChildrenAdvanced;
    if !r.children[i].status.IsTerminal() {
      match answer {
        case Found(status, filled) => ReportInforms(r, v, i, status, filled);
        case NotFound => if r.children[i].status == Unknown { RejectionInforms(r, v, i); }
        case _ =>
      }
    }
  }

  /** A settled child with a live status is outstanding. */
  lemma SettledLiveIsLast(children: seq<ChildOrder>, i: nat)
    requires Settled(children) && SingleOk(children) && i < |children| && !children[i].status.IsTerminal()
    ensures i == |children| - 1
  {
    assert SettledAt(children, i);
    assert i + 1 < |children| ==> NothingReserved(children, i);
  }
}
