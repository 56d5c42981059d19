/** The state machine of an apply run, with replay of events already seen. */
module ApplyMachine {
  import opened Wrappers

  datatype State =
    | Applying | Snapshotted | Written | ActionRunning | HealthChecking | Completed
    | RollingBack | RolledBack | RollbackFailed

  datatype MachineError = InvalidState | Terminal | InvalidTransition | ReplayConflict

  function Successors(s: State): set<State> {
    match s
    case Applying => {Snapshotted, RollingBack}
    case Snapshotted => {Written, RollingBack}
    case Written => {ActionRunning, RollingBack}
    case ActionRunning => {HealthChecking, RollingBack}
    case HealthChecking => {Completed, RollingBack}
    case RollingBack => {RolledBack, RollbackFailed}
    case _ => {}
  }

  predicate IsTerminal(s: State) { s in {Completed, RolledBack, RollbackFailed} }

  predicate StepAt(path: seq<State>, i: int)
    requires 0 < i < |path|
  {
    path[i] in Successors(path[i - 1])
  }

  /** A walk through the transition table from its first state. */
  predicate IsPath(path: seq<State>) {
    path != [] && path[0] == Applying && forall i :: 0 < i < |path| ==> StepAt(path, i)
  }

  lemma {:induction false} PathMore(path: seq<State>, next: State)
    requires IsPath(path) && next in Successors(path[|path| - 1])
    ensures IsPath(path + [next])
  {
    forall i | 0 < i < |path| + 1
      ensures StepAt(path + [next], i)
    {
      if i < |path| { assert StepAt(path, i); }
    }
  }

  function Forward(): seq<State> { [Applying, Snapshotted, Written, ActionRunning, HealthChecking, Completed] }

  /** Every walk goes forward, and turns to rolling back at most once, for good. */
  lemma {:induction false} PathShape(path: seq<State>)
    requires IsPath(path)
    ensures |path| <= 7
    ensures path <= Forward() ||
            exists k :: 0 < k <= 5 && k < |path| && path[..k] == Forward()[..k] && path[k] == RollingBack &&
              (|path| == k + 1 || (|path| == k + 2 && path[k + 1] in {RolledBack, RollbackFailed}))
  {
    if |path| > 1 {
      var before := path[..|path| - 1];
      assert forall i :: 0 < i < |before| ==> StepAt(path, i) ==> StepAt(before, i);
      PathShape(before);
      assert path == before + [path[|path| - 1]] && StepAt(path, |path| - 1);
      if before <= Forward() {
        var n := |before|;
        assert before == Forward()[..n] && before[n - 1] == Forward()[n - 1];
        if path[n] != RollingBack { assert path[n] == Forward()[n] && path == Forward()[..n + 1]; }
        else { assert path[..n] == Forward()[..n]; }
      } else {
        var k :| 0 < k <= 5 && k < |before| && before[..k] == Forward()[..k] && before[k] == RollingBack &&
                 (|before| == k + 1 || (|before| == k + 2 && before[k + 1] in {RolledBack, RollbackFailed}));
        assert path[..k] == before[..k] && path[k] == before[k];
        assert path[|path| - 2] == before[|before| - 1];
      }
    }
  }

  /** Nothing follows a terminal state. */
  lemma {:induction false} NothingAfterTerminal(path: seq<State>, i: nat)
    requires IsPath(path) && i + 1 < |path|
    ensures !IsTerminal(path[i])
  {
    assert StepAt(path, i + 1);
  }

  /** The machine; E is the type of event ids, None standing for an empty one. */
  class StateMachine<E(==)> {
    var current: State
    var sequence: nat
    var eventStates: map<E, State>
    ghost var path: seq<State>

    ghost predicate Valid()
      reads this
    {
      IsPath(path) && current == path[|path| - 1] && sequence == |path| - 1 && |eventStates| == sequence &&
      forall e {:trigger eventStates[e]} :: e in eventStates ==> eventStates[e] in path
    }

    constructor ()
      ensures Valid() && path == [Applying] && eventStates == map[]
    {
      current, sequence, eventStates, path := Applying, 0, map[], [Applying];
    }

    method Transition(next: State, id: Option<E>) returns (r: Result<State, MachineError>)
      requires Valid()
      modifies this
      ensures Valid()
      // An accepted event makes one step of the table; everything else changes nothing.
      ensures var accepted := id.Some? && id.value !in old(eventStates) && next in Successors(old(current));
              if accepted then
                r == Ok(next) && path == old(path) + [next] && eventStates == old(eventStates)[id.value := next]
              else
                path == old(path) && eventStates == old(eventStates)
      ensures id.None? ==> r == Err(InvalidState)
      ensures id.Some? && id.value in old(eventStates) ==>
                r == if old(eventStates)[id.value] == next then Ok(old(current)) else Err(ReplayConflict)
      ensures id.Some? && id.value !in old(eventStates) && next !in Successors(old(current)) ==>
                r == Err(if IsTerminal(old(current)) then Terminal else InvalidTransition)
    {
      if id.None? { return Err(InvalidState); }
      if id.value in eventStates {
        if eventStates[id.value] != next { return Err(ReplayConflict); }
        return Ok(current);
      }
      if IsTerminal(current) { return Err(Terminal); }
      if next !in Successors(current) { return Err(InvalidTransition); }
      current := next;
      sequence := sequence + 1;
      eventStates := eventStates[id.value := next];
      PathMore(path, next);
      path := path + [next];
      return Ok(current);
    }
  }
}
