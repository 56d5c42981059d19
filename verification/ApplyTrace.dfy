/** The calls that an apply run makes to the world around it, in order, each with whether it succeeded. */
module ApplyTrace {
  import opened Wrappers
  import opened ApplyMachine
  import opened ApplyPlan
  import opened Snapshots
  import L = Locks

  type Lock = L.Lock

  datatype ApplyEvent = ApplyEvent(changeId: string, runId: string, state: State, sequence: nat)

  datatype Step =
    | Fetch(changeId: string)
    | Take(lock: Lock)
    | Record(event: ApplyEvent)
    | Read(sourceId: string)
    | Store(runId: string)
    | Write(group: Group)
    | Act(runId: string, actionId: string)
    | Check(runId: string, checkIds: seq<string>, rollback: bool)
    | PutBack(sourceId: string, bytes: string)
    | Undo(runId: string, actionId: string)
    | Report(runId: string)

  datatype Call = Call(step: Step, ok: bool)

  /** Steps tried one after the other: all of them succeeded, or all up to the last one made, which failed. */
  predicate Tried(calls: seq<Call>, steps: seq<Step>, ok: bool) {
    if steps == [] then calls == [] && ok
    else
      calls != [] && calls[0].step == steps[0] &&
      if calls[0].ok then Tried(calls[1..], steps[1..], ok) else !ok && |calls| == 1
  }

  /** That is: the calls are the first steps, and the one that failed, if any, is the last. */
  lemma {:induction false} TriedIs(calls: seq<Call>, steps: seq<Step>, ok: bool)
    ensures Tried(calls, steps, ok) <==>
            |calls| <= |steps| && (forall i :: 0 <= i < |calls| ==> calls[i].step == steps[i]) &&
            (forall i :: 0 <= i < |calls| - 1 ==> calls[i].ok) &&
            if ok then |calls| == |steps| && (calls != [] ==> calls[|calls| - 1].ok) else calls != [] && !calls[|calls| - 1].ok
  {
    if steps != [] && calls != [] {
      TriedIs(calls[1..], steps[1..], ok);
      assert calls == [calls[0]] + calls[1..] && steps == [steps[0]] + steps[1..];
    }
  }

  lemma {:induction false} Associate(a: seq<Call>, b: seq<Call>, c: seq<Call>)
    ensures a + b + c == a + (b + c)
  {
  }

  lemma {:induction false} TriedMore(first: seq<Call>, a: seq<Step>, second: seq<Call>, b: seq<Step>, ok: bool)
    requires Tried(first, a, true) && Tried(second, b, ok)
    ensures Tried(first + second, a + b, ok)
    decreases a
  {
    if a == [] {
      assert first + second == second && a + b == b;
    } else {
      assert (first + second)[1..] == first[1..] + second && (a + b)[1..] == a[1..] + b;
      TriedMore(first[1..], a[1..], second, b, ok);
    }
  }

  lemma {:induction false} TriedLess(calls: seq<Call>, a: seq<Step>, b: seq<Step>)
    requires Tried(calls, a, false)
    ensures Tried(calls, a + b, false)
    decreases a
  {
    assert (a + b)[1..] == a[1..] + b;
    if calls[0].ok { TriedLess(calls[1..], a[1..], b); }
  }

  lemma {:induction false} TriedOne(step: Step, ok: bool)
    ensures Tried([Call(step, ok)], [step], ok)
  {
    assert [step][1..] == [] && [Call(step, ok)][1..] == [];
  }

  /** First one list of steps, and then another one if all went well. */
  lemma {:induction false} Then(first: seq<Call>, a: seq<Step>, ready: bool, second: seq<Call>, b: seq<Step>, ok: bool)
    requires Tried(first, a, ready) && if ready then Tried(second, b, ok) else second == [] && !ok
    ensures Tried(first + second, a + b, ok)
  {
    if ready {
      TriedMore(first, a, second, b, ok);
    } else {
      TriedLess(first, a, b);
      assert first + second == first;
    }
  }

  /** One step more of a list. */
  lemma {:induction false} TriedNext(calls: seq<Call>, steps: seq<Step>, i: nat, step: Step, ok: bool)
    requires i < |steps| && steps[i] == step && Tried(calls, steps[..i], true)
    ensures Tried(calls + [Call(step, ok)], if ok then steps[..i + 1] else steps, ok)
  {
    TriedOne(step, ok);
    TriedMore(calls, steps[..i], [Call(step, ok)], [step], ok);
    assert steps[..i] + [step] == steps[..i + 1];
    if !ok {
      TriedLess(calls + [Call(step, ok)], steps[..i + 1], steps[i + 1..]);
      assert steps[..i + 1] + steps[i + 1..] == steps;
    }
  }

  lemma {:induction false} TriedCount(calls: seq<Call>, steps: seq<Step>, ok: bool)
    requires Tried(calls, steps, ok)
    ensures |calls| <= |steps| && (ok ==> |calls| == |steps|)
  {
    TriedIs(calls, steps, ok);
  }

  // ----- what a run does ---------------------------------------------------------

  function PlanFor(c: Change): seq<Lock> { L.PlanOf(c.appId, c.sourceIds, c.actionIds) }

  function Event(c: Change, runId: string, state: State, sequence: nat): Step {
    Record(ApplyEvent(c.changeId, runId, state, sequence))
  }

  function Takes(locks: seq<Lock>): seq<Step> { seq(|locks|, i requires 0 <= i < |locks| => Take(locks[i])) }

  function Reads(ids: seq<string>): seq<Step> { seq(|ids|, i requires 0 <= i < |ids| => Read(ids[i])) }

  function Writes(groups: seq<Group>): seq<Step> { seq(|groups|, i requires 0 <= i < |groups| => Write(groups[i])) }

  function Acts(runId: string, ids: seq<string>): seq<Step> { seq(|ids|, i requires 0 <= i < |ids| => Act(runId, ids[i])) }

  function Undos(runId: string, ids: seq<string>): seq<Step> { seq(|ids|, i requires 0 <= i < |ids| => Undo(runId, ids[i])) }

  function PutBacks(snapshot: Snapshot): seq<Step> {
    seq(|snapshot|, i requires 0 <= i < |snapshot| => PutBack(snapshot[i].0, snapshot[i].1))
  }

  /** The first record, and all locks but the application's, which is held. */
  function Locking(c: Change, runId: string): seq<Step> { [Event(c, runId, Applying, 0)] + Takes(PlanFor(c)[1..]) }

  /** Every source read, the snapshot stored and recorded. */
  function Capturing(c: Change, runId: string): seq<Step> {
    Reads(c.sourceIds) + [Store(runId), Event(c, runId, Snapshotted, 1)]
  }

  /** Before the first write. */
  function Opening(c: Change, runId: string): seq<Step> { Locking(c, runId) + Capturing(c, runId) }

  /** Every action once, in order, between its two records. */
  function Acting(c: Change, runId: string): seq<Step> {
    ([Event(c, runId, ActionRunning, 3)] + Acts(runId, c.actionIds)) + [Event(c, runId, HealthChecking, 4)]
  }

  /** After the last write: its record, the actions, one health check over all checks, and the commit. */
  function Closing(c: Change, runId: string): seq<Step> {
    ([Event(c, runId, Written, 2)] + Acting(c, runId)) + [Check(runId, c.checkIds, false), Event(c, runId, Completed, 5)]
  }

  /** A whole run that is not rejected, when everything goes well. */
  function RunSteps(c: Change, runId: string, groups: seq<Group>): seq<Step> {
    Opening(c, runId) + (Writes(groups) + Closing(c, runId))
  }

  /** Undoing: restore everything, undo every action, check. */
  function Undoing(c: Change, runId: string, snapshot: Snapshot): seq<Step> {
    PutBacks(snapshot) + (Undos(runId, c.actionIds) + [Check(runId, c.checkIds, true)])
  }

  /** Rolling back a run that may have written. */
  function UndoSteps(c: Change, runId: string, snapshot: Snapshot, at: nat): seq<Step> {
    [Event(c, runId, RollingBack, at)] + (Undoing(c, runId, snapshot) + [Event(c, runId, RolledBack, at + 1)])
  }

  /** Ending a run that wrote nothing. */
  function NothingSteps(c: Change, runId: string, at: nat): seq<Step> {
    [Event(c, runId, RollingBack, at)] + [Event(c, runId, RolledBack, at + 1)]
  }

  /** From the first write to the commit; nothing is tried when the items disagree on a source's bytes. */
  predicate WroteAndClosed(c: Change, runId: string, calls: seq<Call>, ok: bool, started: bool) {
    match GroupsOf(c.items)
    case None => !ok && calls == [] && !started
    case Some(groups) => Tried(calls, Writes(groups) + Closing(c, runId), ok) && (started <==> groups != [])
  }

  lemma {:induction false} OpenedThen(c: Change, runId: string, locked: seq<Call>, ready: bool, captured: seq<Call>, ok: bool)
    requires Tried(locked, Locking(c, runId), ready) && if ready then Tried(captured, Capturing(c, runId), ok) else captured == [] && !ok
    ensures Tried(locked + captured, Opening(c, runId), ok)
  {
    Then(locked, Locking(c, runId), ready, captured, Capturing(c, runId), ok);
  }

  lemma {:induction false} ActedThenClosed(c: Change, runId: string, acted: seq<Call>, ready: bool, checked: seq<Call>, ok: bool)
    requires Tried(acted, [Event(c, runId, Written, 2)] + Acting(c, runId), ready)
    requires if ready then Tried(checked, [Check(runId, c.checkIds, false), Event(c, runId, Completed, 5)], ok) else checked == [] && !ok
    ensures Tried(acted + checked, Closing(c, runId), ok)
  {
    Then(acted, [Event(c, runId, Written, 2)] + Acting(c, runId), ready,
         checked, [Check(runId, c.checkIds, false), Event(c, runId, Completed, 5)], ok);
  }

  lemma {:induction false} TurnedThenUndone(c: Change, runId: string, snapshot: Snapshot, at: nat, started: seq<Call>, ready: bool,
                                            done: seq<Call>, ok: bool)
    requires Tried(started, [Event(c, runId, RollingBack, at)], ready)
    requires if ready then Tried(done, Undoing(c, runId, snapshot) + [Event(c, runId, RolledBack, at + 1)], ok) else done == [] && !ok
    ensures Tried(started + done, UndoSteps(c, runId, snapshot, at), ok)
    ensures |started| == 1 && |UndoSteps(c, runId, snapshot, at)| == |Undoing(c, runId, snapshot)| + 2
  {
    TriedCount(started, [Event(c, runId, RollingBack, at)], ready);
    Then(started, [Event(c, runId, RollingBack, at)], ready, done,
         Undoing(c, runId, snapshot) + [Event(c, runId, RolledBack, at + 1)], ok);
  }

  lemma {:induction false} TurnedThenEnded(c: Change, runId: string, at: nat, started: seq<Call>, ready: bool, last: seq<Call>, ok: bool)
    requires Tried(started, [Event(c, runId, RollingBack, at)], ready)
    requires if ready then Tried(last, [Event(c, runId, RolledBack, at + 1)], ok) else last == [] && !ok
    ensures Tried(started + last, NothingSteps(c, runId, at), ok) && |started| == 1 && |NothingSteps(c, runId, at)| == 2
  {
    TriedCount(started, [Event(c, runId, RollingBack, at)], ready);
    Then(started, [Event(c, runId, RollingBack, at)], ready, last, [Event(c, runId, RolledBack, at + 1)], ok);
  }

  lemma {:induction false} WroteThenClosed(c: Change, runId: string, groups: seq<Group>, wrote: seq<Call>, ready: bool,
                                           closed: seq<Call>, ok: bool, started: bool)
    requires GroupsOf(c.items) == Some(groups) && Tried(wrote, Writes(groups), ready) && (started <==> groups != [])
    requires if ready then Tried(closed, Closing(c, runId), ok) else closed == [] && !ok
    ensures WroteAndClosed(c, runId, wrote + closed, ok, started)
  {
    Then(wrote, Writes(groups), ready, closed, Closing(c, runId), ok);
  }

  lemma {:induction false} AttemptedMore(c: Change, runId: string, front: seq<Call>, calls: seq<Call>, ok: bool, started: bool)
    requires Tried(front, Opening(c, runId), true) && WroteAndClosed(c, runId, calls, ok, started)
    ensures Attempted(c, runId, front + calls, ok) && (started <==> Started(c, runId, front + calls))
  {
    TriedCount(front, Opening(c, runId), true);
    if GroupsOf(c.items).Some? {
      var steps := Writes(GroupsOf(c.items).value) + Closing(c, runId);
      assert Closing(c, runId) != [] && steps != [];
      TriedIs(calls, steps, ok);
      TriedMore(front, Opening(c, runId), calls, steps, ok);
    } else {
      assert front + calls == front;
    }
  }

  lemma {:induction false} AttemptedLess(c: Change, runId: string, calls: seq<Call>)
    requires Tried(calls, Opening(c, runId), false)
    ensures Attempted(c, runId, calls, false) && !Started(c, runId, calls)
  {
    TriedCount(calls, Opening(c, runId), false);
    if GroupsOf(c.items).Some? { TriedLess(calls, Opening(c, runId), Writes(GroupsOf(c.items).value) + Closing(c, runId)); }
  }

  /** The tried part of a run: nothing can be written when its items disagree on a source's bytes. */
  predicate Attempted(c: Change, runId: string, calls: seq<Call>, ok: bool) {
    match GroupsOf(c.items)
    case None => !ok && (Tried(calls, Opening(c, runId), false) || Tried(calls, Opening(c, runId), true))
    case Some(groups) => Tried(calls, RunSteps(c, runId, groups), ok)
  }

  /** The run came to its first write. */
  predicate Started(c: Change, runId: string, calls: seq<Call>) {
    |calls| > |Opening(c, runId)| && GroupsOf(c.items).Some? && GroupsOf(c.items).value != []
  }

  /** The calls of a run: what it tried, what it undid when `at` states were reached, and what it said about a failure. */
  datatype Trace = Trace(tried: seq<Call>, at: nat, undone: seq<Call>, told: seq<Call>)

  function Calls(t: Trace): seq<Call> { t.tried + t.undone + t.told }

  /** What has to be undone. */
  function ToUndo(c: Change, runId: string, snapshot: Option<Snapshot>, t: Trace): seq<Step> {
    if Started(c, runId, t.tried) && snapshot.Some? then UndoSteps(c, runId, snapshot.value, t.at) else NothingSteps(c, runId, t.at)
  }

  /** A failure is recorded as the event `at` if the machine is rolling back, and then reported. */
  predicate Told(c: Change, runId: string, told: seq<Call>, ok: bool, rolling: bool, at: nat) {
    if rolling then
      |told| == 2 && told[0].step == Event(c, runId, RollbackFailed, at) && told[1] == Call(Report(runId), ok)
    else told == [Call(Report(runId), ok)]
  }

  /** The run turned to rolling back and did not come to record its end. */
  predicate StillRolling(undone: seq<Call>, steps: seq<Step>) { 0 < |undone| < |steps| }

  // ----- what a commit and a rollback rest on ------------------------------------

  lemma {:induction false} AllTried(calls: seq<Call>, steps: seq<Step>)
    requires Tried(calls, steps, true)
    ensures |calls| == |steps| && forall i :: 0 <= i < |calls| ==> calls[i] == Call(steps[i], true)
  {
    TriedIs(calls, steps, true);
  }

  lemma {:induction false} ClosingIs(c: Change, runId: string)
    ensures var s, k := Closing(c, runId), |c.actionIds|;
            |s| == k + 5 && s[0] == Event(c, runId, Written, 2) && s[1] == Event(c, runId, ActionRunning, 3) &&
            (forall i :: 0 <= i < k ==> s[2 + i] == Act(runId, c.actionIds[i])) && s[2 + k] == Event(c, runId, HealthChecking, 4) &&
            s[3 + k] == Check(runId, c.checkIds, false) && s[4 + k] == Event(c, runId, Completed, 5)
  {
  }

  lemma {:induction false} TailTried(calls: seq<Call>, front: seq<Step>, tail: seq<Step>)
    requires Tried(calls, front + tail, true)
    ensures |calls| == |front| + |tail| && forall i :: 0 <= i < |tail| ==> calls[|front| + i] == Call(tail[i], true)
  {
    AllTried(calls, front + tail);
  }

  /**
   At the end of a completed run: WRITTEN was recorded, every action succeeded, in order, then one health check over all
   checks passed, and then COMPLETED was recorded.
   */
  lemma {:induction false} CommitRests(c: Change, runId: string, calls: seq<Call>)
    requires Attempted(c, runId, calls, true)
    ensures var k := |c.actionIds|; var n := |calls| - k - 5;
            n >= 0 && calls[n] == Call(Event(c, runId, Written, 2), true) && calls[n + 1] == Call(Event(c, runId, ActionRunning, 3), true) &&
            (forall i :: 0 <= i < k ==> calls[n + (2 + i)] == Call(Act(runId, c.actionIds[i]), true)) &&
            calls[n + (2 + k)] == Call(Event(c, runId, HealthChecking, 4), true) &&
            calls[n + (3 + k)] == Call(Check(runId, c.checkIds, false), true) &&
            calls[n + (4 + k)] == Call(Event(c, runId, Completed, 5), true)
  {
    var front := Opening(c, runId) + Writes(GroupsOf(c.items).value);
    assert RunSteps(c, runId, GroupsOf(c.items).value) == front + Closing(c, runId);
    TailTried(calls, front, Closing(c, runId));
    ClosingIs(c, runId);
  }

  /** Before a rollback's record every source was put back, every action undone, in order, and a health check passed. */
  lemma {:induction false} RollbackRests(c: Change, runId: string, snapshot: Snapshot, at: nat, calls: seq<Call>)
    requires Tried(calls, UndoSteps(c, runId, snapshot, at), true)
    ensures var s, k := |snapshot|, |c.actionIds|;
            |calls| == s + k + 3 && calls[0] == Call(Event(c, runId, RollingBack, at), true) &&
            (forall i :: 0 <= i < s ==> calls[1 + i] == Call(PutBack(snapshot[i].0, snapshot[i].1), true)) &&
            (forall i :: 0 <= i < k ==> calls[1 + s + i] == Call(Undo(runId, c.actionIds[i]), true)) &&
            calls[1 + s + k] == Call(Check(runId, c.checkIds, true), true) &&
            calls[2 + s + k] == Call(Event(c, runId, RolledBack, at + 1), true)
  {
    TriedIs(calls, UndoSteps(c, runId, snapshot, at), true);
  }
}
