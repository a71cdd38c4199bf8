/** The transition tables of src/execution/state_machine.py and the composite hops the
    engine adds for child orders. */
module StateMachine {
  import opened Models

  function ExecutionTargets(s: ExecutionStatus): set<ExecutionStatus> {
    match s
    case Created => {Validating, Failed}
    case Validating => {Running, Completed, Failed}
    case Running => {Cancelling, Completed, PartiallyCompleted, Expired, Failed}
    case Cancelling => {Completed, Cancelled, PartiallyCompleted, Failed}
    case Completed => {}
    case PartiallyCompleted => {}
    case Expired => {}
    case Cancelled => {}
    case Failed => {}
  }

  function ChildTargets(s: ChildStatus): set<ChildStatus> {
    match s
    case PendingSubmit => {Open, Rejected, Unknown}
    case Open => {PartiallyFilled, Filled, PendingCancel}
    case PartiallyFilled => {Filled, PendingCancel}
    case PendingCancel => {Open, PartiallyFilled, ChildCancelled, Filled}
    case ChildCancelled => {}
    case Filled => {}
    case Rejected => {}
    case Unknown => {Open, PartiallyFilled, Filled, ChildCancelled, Rejected}
  }

  /** None stands for InvalidStateTransition. */
  function TransitionExecution(current: ExecutionStatus, target: ExecutionStatus): Option<ExecutionStatus> {
    if target in ExecutionTargets(current) then Some(target) else None
  }

  function TransitionChild(current: ChildStatus, target: ChildStatus): Option<ChildStatus> {
    if target in ChildTargets(current) then Some(target) else None
  }

  /** The status after the engine is told that an order is now in `target`: one table step,
      one of the composite hops, or no change. */
  function SetChildStatus(current: ChildStatus, target: ChildStatus): ChildStatus {
    if current == target then current
    else if target in ChildTargets(current) then target
    else if target == ChildCancelled && current in {Open, PartiallyFilled} then target
    else if target == ChildCancelled && current == PendingSubmit then target
    else if current == PendingSubmit && target in {PartiallyFilled, Filled} then target
    else current
  }

  /** `path` is a walk in the child table. */
  ghost predicate ChildPath(path: seq<ChildStatus>) {
    && |path| > 0
    && forall i :: 0 < i < |path| ==> path[i] in ChildTargets(path[i - 1])
  }

  /** `target` can be reached from `current` by table steps. */
  ghost predicate ChildReachable(current: ChildStatus, target: ChildStatus) {
    exists path :: ChildPath(path) && path[0] == current && path[|path| - 1] == target
  }

  /** The set of statuses some walk reaches, computed once and for all. */
  function ChildClosure(s: ChildStatus): set<ChildStatus> {
    match s
    case PendingSubmit => {PendingSubmit, Open, PartiallyFilled, PendingCancel, ChildCancelled, Filled, Rejected, Unknown}
    case Open => {Open, PartiallyFilled, PendingCancel, ChildCancelled, Filled}
    case PartiallyFilled => {Open, PartiallyFilled, PendingCancel, ChildCancelled, Filled}
    case PendingCancel => {Open, PartiallyFilled, PendingCancel, ChildCancelled, Filled}
    case ChildCancelled => {ChildCancelled}
    case Filled => {Filled}
    case Rejected => {Rejected}
    case Unknown => {Open, PartiallyFilled, PendingCancel, ChildCancelled, Filled, Rejected, Unknown}
  }

  lemma {:induction false} PathStaysInClosure(path: seq<ChildStatus>)
    requires ChildPath(path)
    ensures path[|path| - 1] in ChildClosure(path[0])
  {
    if |path| > 1 {
      var prefix := path[..|path| - 1];
      PathStaysInClosure(prefix);
      assert path[|path| - 1] in ChildTargets(prefix[|prefix| - 1]);
    }
  }

  lemma Walk2(a: ChildStatus, b: ChildStatus)
    requires b in ChildTargets(a)
    ensures ChildReachable(a, b)
  {
    assert ChildPath([a, b]);
  }

  lemma Walk3(a: ChildStatus, b: ChildStatus, c: ChildStatus)
    requires b in ChildTargets(a) && c in ChildTargets(b)
    ensures ChildReachable(a, c)
  {
    assert ChildPath([a, b, c]);
  }

  lemma Walk4(a: ChildStatus, b: ChildStatus, c: ChildStatus, d: ChildStatus)
    requires b in ChildTargets(a) && c in ChildTargets(b) && d in ChildTargets(c)
    ensures ChildReachable(a, d)
  {
    assert ChildPath([a, b, c, d]);
  }

  lemma ClosureIsReachable(s: ChildStatus, t: ChildStatus)
    ensures ChildReachable(s, t) <==> t in ChildClosure(s)
  {
    if ChildReachable(s, t) {
      var path :| ChildPath(path) && path[0] == s && path[|path| - 1] == t;
      PathStaysInClosure(path);
    }
    if t in ChildClosure(s) {
      if s == t {
        assert ChildPath([s]);
      } else if t in ChildTargets(s) {
        Walk2(s, t);
      } else if s == PendingSubmit && t == ChildCancelled {
        Walk4(s, Open, PendingCancel, t);
      } else if s in {PendingSubmit, Unknown} {
        Walk3(s, Open, t);
      } else {
        Walk3(s, PendingCancel, t);
      }
    }
  }

  /** The engine takes over a reported status exactly when the table can walk there, except
      for three reports it drops: a pending cancel of an order it has not seen open, and an
      OPEN report for an order already seen partly filled. */
  lemma SetChildStatusIsReachability(s: ChildStatus, t: ChildStatus)
    ensures SetChildStatus(s, t) == t <==>
            ChildReachable(s, t)
            && !(t == PendingCancel && s in {PendingSubmit, Unknown})
            && !(s == PartiallyFilled && t == Open)
    ensures SetChildStatus(s, t) != t ==> SetChildStatus(s, t) == s
  {
    ClosureIsReachable(s, t);
  }

  /** Reporting the same status again changes nothing. */
  lemma SetChildStatusIdempotent(s: ChildStatus, t: ChildStatus)
    ensures SetChildStatus(SetChildStatus(s, t), t) == SetChildStatus(s, t)
  {}

  /** Exactly the three final child states refuse every report. */
  lemma ChildTerminalIsAbsorbing(s: ChildStatus)
    ensures s.IsTerminal() <==> forall t :: SetChildStatus(s, t) == s
  {
    if !s.IsTerminal() {
      var t := if s == Open then Filled else Open;
      var u := if s == PartiallyFilled then Filled else t;
      assert SetChildStatus(s, u) != s;
    }
  }

  lemma ExecutionTerminalIsAbsorbing(s: ExecutionStatus)
    ensures s.IsTerminal() <==> forall t :: TransitionExecution(s, t).None?
  {
    if !s.IsTerminal() {
      assert TransitionExecution(s, Failed) == Some(Failed);
    }
  }
}
