/**
 The apply transaction: locks, snapshot, compare-and-swap writes, actions, health check, commit; or restore and roll back.
 Every dependency may succeed, fail before it takes effect, or fail after it took effect, and other runs go on meanwhile.
 */
module ApplyRun {
  import opened Wrappers
  import opened ApplyMachine
  import opened ApplyPlan
  import opened Snapshots
  import opened SourceWriter
  import opened ApplyTrace
  import L = Locks

  datatype EventId = EventId(runId: string, state: State, number: nat)

  type Machine = StateMachine<EventId>

  datatype Outcome = CompletedRun | RolledBackRun | RollbackFailedRun

  datatype ErrorCode =
    | StagedChangeNotFound | DigestMismatch | Expired | AlreadyRunning | PreconditionFailed | CallbackFailed

  // ----- what a run promises -----------------------------------------------------

  /** A source's file holds the snapshotted bytes rewritten by all its operations, which expected these bytes. */
  predicate RewrittenOne(files: map<string, string>, sources: map<string, SourceConfig>, entry: (string, string), g: Group) {
    entry.0 in files && entry.0 in sources && g.expected == Fingerprint(entry.0, entry.1) &&
    Rewrite(entry.1, sources[entry.0].maximum, g.operations) == Some(files[entry.0])
  }

  /** Touched sources are rewritten, the others hold their snapshotted bytes. */
  predicate Rewritten(files: map<string, string>, sources: map<string, SourceConfig>, snapshot: Snapshot, groups: seq<Group>) {
    forall i :: 0 <= i < |snapshot| ==>
      var g := GroupFor(groups, snapshot[i].0);
      if g.None? then HoldsOne(files, snapshot[i]) else RewrittenOne(files, sources, snapshot[i], g.value)
  }

  /** From the n-th on, events follow the path, with strictly increasing sequence numbers. */
  predicate LoggedFrom(journal: seq<ApplyEvent>, n: nat, path: seq<State>) {
    n == |journal| ||
    (n < |journal| &&
     var before, last := journal[..|journal| - 1], journal[|journal| - 1];
     last.sequence < |path| && last.state == path[last.sequence] &&
     (n < |before| ==> before[|before| - 1].sequence < last.sequence) && LoggedFrom(before, n, path))
  }

  lemma {:induction false} LoggedIs(journal: seq<ApplyEvent>, n: nat, path: seq<State>)
    requires LoggedFrom(journal, n, path)
    ensures n <= |journal|
    ensures forall i :: n <= i < |journal| ==> journal[i].sequence < |path| && journal[i].state == path[journal[i].sequence]
    ensures forall i, j :: n <= i < j < |journal| ==> journal[i].sequence < journal[j].sequence
  {
    if n < |journal| {
      var before := journal[..|journal| - 1];
      LoggedIs(before, n, path);
      assert forall i :: n <= i < |before| ==> before[i] == journal[i];
    }
  }

  predicate Locked(held: seq<Lock>, snapshot: Snapshot) {
    forall i :: 0 <= i < |snapshot| ==> L.SourceLock(snapshot[i].0) in held
  }

  function Reversed<T>(s: seq<T>): seq<T> {
    if s == [] then [] else [s[|s| - 1]] + Reversed(s[..|s| - 1])
  }

  /** Sources whose lock is held are the same in both. */
  predicate HeldSame(held: seq<Lock>, before: map<string, string>, after: map<string, string>) {
    forall l :: l in held && l.SourceLock? ==>
      (l.id in before <==> l.id in after) && (l.id in before ==> before[l.id] == after[l.id])
  }

  /** Two moments agree on the sources of a snapshot. */
  ghost predicate SameFor(snapshot: Snapshot, before: map<string, string>, after: map<string, string>) {
    forall i :: 0 <= i < |snapshot| ==> SameAt(before, after, snapshot[i].0)
  }

  predicate SameAt(before: map<string, string>, after: map<string, string>, id: string) {
    (id in before <==> id in after) && (id in before ==> before[id] == after[id])
  }

  /** What other runs do during an await touches no snapshotted source. */
  lemma {:induction false} HeldTwice(held: seq<Lock>, a: map<string, string>, b: map<string, string>, c: map<string, string>)
    requires HeldSame(held, a, b) && HeldSame(held, b, c)
    ensures HeldSame(held, a, c)
  {
  }

  /** Locks taken one behind the other. */
  lemma {:induction false} HeldThen(acquired: seq<Lock>, held: seq<Lock>, l: Lock, acquired': seq<Lock>, held': seq<Lock>)
    requires acquired + [l] <= acquired' && held' == (held + [l]) + acquired'[|acquired| + 1..]
    ensures acquired <= acquired' && held' == held + acquired'[|acquired|..]
  {
    assert acquired'[|acquired|..] == [l] + acquired'[|acquired| + 1..];
  }

  lemma {:induction false} HeldAgree(held: seq<Lock>, before: map<string, string>, after: map<string, string>, snapshot: Snapshot)
    requires HeldSame(held, before, after) && Locked(held, snapshot)
    ensures SameFor(snapshot, before, after)
  {
    forall i | 0 <= i < |snapshot|
      ensures SameAt(before, after, snapshot[i].0)
    {
      assert L.SourceLock(snapshot[i].0) in held;
    }
  }

  /** So the snapshot holds on, */
  lemma {:induction false} HoldsKept(held: seq<Lock>, before: map<string, string>, after: map<string, string>, snapshot: Snapshot)
    requires HeldSame(held, before, after) && Locked(held, snapshot)
    ensures Holds(before, snapshot) ==> Holds(after, snapshot)
  {
    HeldAgree(held, before, after, snapshot);
  }

  /** and so do the writes made from it. */
  lemma {:induction false} RewrittenKept(held: seq<Lock>, before: map<string, string>, after: map<string, string>,
                                         sources: map<string, SourceConfig>, snapshot: Snapshot, groups: seq<Group>)
    requires HeldSame(held, before, after) && Locked(held, snapshot)
    ensures Rewritten(before, sources, snapshot, groups) ==> Rewritten(after, sources, snapshot, groups)
  {
    HeldAgree(held, before, after, snapshot);
  }

  lemma {:induction false} LoggedLonger(journal: seq<ApplyEvent>, n: nat, path: seq<State>, s: State)
    requires LoggedFrom(journal, n, path)
    ensures LoggedFrom(journal, n, path + [s])
  {
    if n < |journal| { LoggedLonger(journal[..|journal| - 1], n, path, s); }
  }

  lemma {:induction false} LoggedMore(journal: seq<ApplyEvent>, n: nat, path: seq<State>, s: State, e: ApplyEvent)
    requires LoggedFrom(journal, n, path)
    ensures LoggedFrom(journal, n, path + [s])
    ensures e.sequence == |path| && e.state == s ==> LoggedFrom(journal + [e], n, path + [s])
  {
    LoggedLonger(journal, n, path, s);
    LoggedIs(journal, n, path);
    assert (journal + [e])[..|journal|] == journal;
  }

  lemma {:induction false} GroupForPrefix(groups: seq<Group>, k: nat, id: string)
    requires k < |groups| && OnePerSource(groups)
    ensures GroupFor(groups[..k + 1], id) == if id == groups[k].sourceId then Some(groups[k]) else GroupFor(groups[..k], id)
    ensures GroupFor(groups[..k], groups[k].sourceId).None?
  {
    if k > 0 {
      GroupForPrefix(groups[1..], k - 1, id);
      assert groups[..k + 1][1..] == groups[1..][..k] && groups[..k][1..] == groups[1..][..k - 1];
      GroupForAt(groups[1..], k - 1);
    }
  }

  lemma {:induction false} GroupForAt(groups: seq<Group>, k: nat)
    requires k < |groups|
    ensures GroupFor(groups, groups[k].sourceId).Some?
  {
    if k > 0 { GroupForAt(groups[1..], k - 1); }
  }

  /** One successful write rewrites its source and no other one. */
  lemma {:induction false} WriteStep(before: map<string, string>, sources: map<string, SourceConfig>, snapshot: Snapshot,
                                     groups: seq<Group>, k: nat)
    requires k < |groups| && OnePerSource(groups) && Rewritten(before, sources, snapshot, groups[..k])
    requires var g := groups[k];
             g.sourceId in before && g.sourceId in sources && g.expected == Fingerprint(g.sourceId, before[g.sourceId]) &&
             Rewrite(before[g.sourceId], sources[g.sourceId].maximum, g.operations).Some?
    ensures var g := groups[k];
            Rewritten(before[g.sourceId := Rewrite(before[g.sourceId], sources[g.sourceId].maximum, g.operations).value],
                      sources, snapshot, groups[..k + 1])
  {
    forall i | 0 <= i < |snapshot|
      ensures GroupFor(groups[..k + 1], snapshot[i].0) ==
              if snapshot[i].0 == groups[k].sourceId then Some(groups[k]) else GroupFor(groups[..k], snapshot[i].0)
      ensures GroupFor(groups[..k], groups[k].sourceId).None?
    {
      GroupForPrefix(groups, k, snapshot[i].0);
    }
  }

  // ----- what a snapshot must be -------------------------------------------------

  /** The fingerprint that the first item on a source expects. */
  function FirstFor(items: seq<Item>, id: string): Option<Fingerprint> {
    if items == [] then None else if items[0].sourceId == id then Some(items[0].fingerprint) else FirstFor(items[1..], id)
  }

  /** The snapshotted bytes are the ones that the change was made for. */
  predicate AsExpected(items: seq<Item>, snapshot: Snapshot) {
    forall i :: 0 <= i < |snapshot| ==>
      var expected := FirstFor(items, snapshot[i].0);
      expected.Some? ==> expected.value == Fingerprint(snapshot[i].0, snapshot[i].1)
  }

  // ----- the world around a run --------------------------------------------------

  class Environment {
    const disk: Disk
    const staged: map<string, Change>
    /** Events persisted so far. */
    var journal: seq<ApplyEvent>
    /** Locks acquired so far, releases called so far, and locks held now. */
    var acquired: seq<Lock>
    var released: seq<Lock>
    var held: seq<Lock>
    /** Runs whose rollback failure was reported, which blocks their application. */
    var reported: set<string>
    /** All calls so far, in order. */
    ghost var calls: seq<Call>

    constructor (disk: Disk, staged: map<string, Change>)
      ensures this.disk == disk && this.staged == staged && journal == [] && acquired == [] && released == [] && held == []
      ensures calls == []
    {
      this.disk, this.staged, journal, acquired, released, held, reported, calls := disk, staged, [], [], [], [], {}, [];
    }

    /** Other runs go on during an await; they leave sources alone whose lock this run holds now. */
    method Others()
      modifies disk`files
      ensures HeldSame(held, old(disk.files), disk.files)
    {
      var next: map<string, string> := *;
      if HeldSame(held, disk.files, next) { disk.files := next; }
    }

    method ReadStaged(changeId: string) returns (r: Result<Option<Change>, ()>)
      modifies this`calls, disk`files
      ensures r == Err(()) || r == Ok(if changeId in staged then Some(staged[changeId]) else None)
      ensures calls == old(calls) + [Call(Fetch(changeId), r.Ok?)]
    {
      Others();
      var readable: bool := *;
      calls := calls + [Call(Fetch(changeId), readable)];
      if !readable { return Err(()); }
      return Ok(if changeId in staged then Some(staged[changeId]) else None);
    }

    method Persist(e: ApplyEvent) returns (ok: bool)
      modifies this`journal, this`calls, disk`files
      ensures HeldSame(held, old(disk.files), disk.files)
      ensures journal == old(journal) + [e] || (!ok && journal == old(journal))
      ensures calls == old(calls) + [Call(Record(e), ok)]
    {
      Others();
      var effect: bool := *;
      ok := *;
      calls := calls + [Call(Record(e), ok)];
      if ok || effect { journal := journal + [e]; }
    }

    method Acquire(l: Lock) returns (ok: bool)
      modifies this`acquired, this`held, this`calls, disk`files
      ensures acquired == (if ok then old(acquired) + [l] else old(acquired)) && held == if ok then old(held) + [l] else old(held)
      ensures calls == old(calls) + [Call(Take(l), ok)]
    {
      Others();
      ok := *;
      calls := calls + [Call(Take(l), ok)];
      if ok { acquired, held := acquired + [l], held + [l]; }
    }

    /** Calling the release of the lock taken last; that it may throw changes nothing for the run. */
    method Release(l: Lock)
      requires held != [] && held[|held| - 1] == l
      modifies this`released, this`held, disk`files
      ensures released == old(released) + [l] && held == old(held)[..|old(held)| - 1]
    {
      released, held := released + [l], held[..|held| - 1];
      Others();
    }

    /** Read a source for a snapshot; its bytes must be the expected ones. */
    method ReadSource(id: string, expected: Option<Fingerprint>) returns (r: Option<string>)
      modifies this`calls, disk`files, disk`faults
      ensures HeldSame(held, old(disk.files), disk.files) && calls == old(calls) + [Call(Read(id), r.Some?)]
      ensures r.Some? ==> HoldsOne(disk.files, (id, r.value)) && (expected.Some? ==> expected.value == Fingerprint(id, r.value))
      ensures r.None? && disk.faults == old(disk.faults) ==>
                id !in disk.sources || id !in disk.files || (expected.Some? && expected.value != Fingerprint(id, disk.files[id]))
    {
      Others();
      var current := disk.ReadCurrent(id);
      r := if current.Err? || (expected.Some? && Fingerprint(id, current.value) != expected.value) then None else Some(current.value);
      calls := calls + [Call(Read(id), r.Some?)];
    }

    /** Write a source as a group says; `seen` are the files when it was written. */
    method WriteSource(g: Group) returns (ok: bool, ghost seen: map<string, string>)
      modifies this`calls, disk`files, disk`replaced, disk`faults
      ensures HeldSame(held, old(disk.files), seen) && calls == old(calls) + [Call(Write(g), ok)]
      ensures (disk.files == seen && disk.replaced == old(disk.replaced)) ||
              (g.sourceId in disk.sources && g.sourceId in seen && Fingerprint(g.sourceId, seen[g.sourceId]) == g.expected &&
               Rewrite(seen[g.sourceId], disk.sources[g.sourceId].maximum, g.operations).Some? &&
               disk.replaced == old(disk.replaced) + [g.sourceId] &&
               disk.files == seen[g.sourceId := Rewrite(seen[g.sourceId], disk.sources[g.sourceId].maximum, g.operations).value])
      ensures ok ==> disk.replaced == old(disk.replaced) + [g.sourceId]
      ensures disk.faults == old(disk.faults) ==>
                (ok <==> WriteFailure(disk.sources, seen, g.sourceId, g.expected, g.operations).None?)
    {
      Others();
      seen := disk.files;
      var written := disk.Write(g.sourceId, g.expected, g.operations);
      ok := written.Ok?;
      calls := calls + [Call(Write(g), ok)];
    }

    /** Put a source's bytes back; `seen` are the files at that time. */
    method PutSourceBack(id: string, bytes: string) returns (ok: bool, ghost seen: map<string, string>)
      modifies this`calls, disk`files, disk`replaced, disk`faults
      ensures HeldSame(held, old(disk.files), seen) && calls == old(calls) + [Call(PutBack(id, bytes), ok)]
      ensures disk.files == seen || disk.files == seen[id := bytes]
      ensures ok ==> HoldsOne(disk.files, (id, bytes))
      ensures disk.faults == old(disk.faults) ==> (ok <==> RestoreFailure(disk.sources, seen, id, bytes).None?)
    {
      Others();
      seen := disk.files;
      var restored := disk.Restore(id, bytes);
      ok := restored.Ok?;
      calls := calls + [Call(PutBack(id, bytes), ok)];
    }

    /** A call that changes no source whose lock is held: storing a snapshot, an action, a health check. */
    method Await(step: Step) returns (ok: bool)
      modifies this`calls, disk`files
      ensures HeldSame(held, old(disk.files), disk.files) && calls == old(calls) + [Call(step, ok)]
    {
      Others();
      ok := *;
      calls := calls + [Call(step, ok)];
    }

    method ReportFailure(runId: string) returns (ok: bool)
      modifies this`reported, this`calls, disk`files
      ensures HeldSame(held, old(disk.files), disk.files) && calls == old(calls) + [Call(Report(runId), ok)]
      ensures reported == old(reported) + {runId} || (!ok && reported == old(reported))
    {
      Others();
      var effect: bool := *;
      ok := *;
      calls := calls + [Call(Report(runId), ok)];
      if ok || effect { reported := reported + {runId}; }
    }
  }

  // ----- one run -----------------------------------------------------------------

  class Coordinator {
    const env: Environment
    var active: set<string>

    constructor (env: Environment)
      ensures this.env == env && active == {}
    {
      this.env, active := env, {};
    }

    /** The machine's event ids carry its sequence numbers, so that no event of a run is a replay. */
    static ghost predicate Numbered(m: Machine)
      reads m
    {
      forall e {:trigger e.number} :: e in m.eventStates ==> e.number <= m.sequence
    }

    /** One step of the machine and its record; a step that is not allowed records nothing. */
    method Emit(m: Machine, c: Change, runId: string, state: State, ghost n: nat) returns (ok: bool)
      requires m.Valid() && Numbered(m) && LoggedFrom(env.journal, n, m.path)
      modifies m, env`journal, env`calls, env.disk`files
      ensures m.Valid() && Numbered(m) && LoggedFrom(env.journal, n, m.path)
      ensures HeldSame(env.held, old(env.disk.files), env.disk.files)
      ensures if state in Successors(old(m.current)) then
                m.path == old(m.path) + [state] && env.calls == old(env.calls) + [Call(Event(c, runId, state, |old(m.path)|), ok)]
              else !ok && m.path == old(m.path) && env.calls == old(env.calls)
      ensures if ok then env.journal == old(env.journal) + [ApplyEvent(c.changeId, runId, state, |m.path| - 1)]
              else old(env.journal) <= env.journal
    {
      var id := EventId(runId, state, m.sequence + 1);
      var moved := m.Transition(state, Some(id));
      if moved.Err? { return false; }
      ghost var before := env.journal;
      ok := env.Persist(ApplyEvent(c.changeId, runId, state, m.sequence));
      LoggedMore(before, n, old(m.path), state, ApplyEvent(c.changeId, runId, state, m.sequence));
    }

    /** The fingerprint that the change's first item for a source expects. */
    static method ExpectedFingerprint(items: seq<Item>, id: string) returns (r: Option<Fingerprint>)
      ensures r == FirstFor(items, id)
    {
      for i := 0 to |items|
        invariant FirstFor(items, id) == FirstFor(items[i..], id)
      {
        if items[i].sourceId == id { return Some(items[i].fingerprint); }
      }
      return None;
    }

    /** Read one more source; those that were read stay as they were. */
    method CaptureNext(c: Change, id: string, snapshot: Snapshot) returns (next: Option<Snapshot>)
      requires L.SourceLock(id) in env.held && Locked(env.held, snapshot)
      requires Holds(env.disk.files, snapshot) && AsExpected(c.items, snapshot)
      modifies env`calls, env.disk`files, env.disk`faults
      ensures next.Some? ==> IdsOf(next.value) == IdsOf(snapshot) + [id] && Locked(env.held, next.value) &&
                             Holds(env.disk.files, next.value) && AsExpected(c.items, next.value)
      ensures env.calls == old(env.calls) + [Call(Read(id), next.Some?)]
    {
      ghost var before := env.disk.files;
      var expected := ExpectedFingerprint(c.items, id);
      var current := env.ReadSource(id, expected);
      HoldsKept(env.held, before, env.disk.files, snapshot);
      if current.None? { return None; }
      assert (snapshot + [(id, current.value)])[..|snapshot|] == snapshot;
      next := Some(snapshot + [(id, current.value)]);
    }

    /** Read every source of the change. All of their locks are held, so they stay as they were read. */
    method CaptureSnapshot(c: Change) returns (r: Option<Snapshot>, ghost done: seq<Call>)
      requires forall i :: 0 <= i < |c.sourceIds| ==> L.SourceLock(c.sourceIds[i]) in env.held
      modifies env`calls, env.disk`files, env.disk`faults
      ensures r.Some? ==> IdsOf(r.value) == c.sourceIds && Locked(env.held, r.value) && Holds(env.disk.files, r.value) &&
                          AsExpected(c.items, r.value)
      ensures env.calls == old(env.calls) + done && Tried(done, Reads(c.sourceIds), r.Some?)
    {
      r, done := Some([]), [];
      ghost var steps := Reads(c.sourceIds);
      for i := 0 to |c.sourceIds|
        invariant r.Some? && IdsOf(r.value) == c.sourceIds[..i] && Locked(env.held, r.value) && Holds(env.disk.files, r.value)
        invariant AsExpected(c.items, r.value)
        invariant env.calls == old(env.calls) + done && Tried(done, steps[..i], true)
      {
        var id := c.sourceIds[i];
        r := CaptureNext(c, id, r.value);
        TriedNext(done, steps, i, Read(id), r.Some?);
        Associate(old(env.calls), done, [Call(Read(id), r.Some?)]);
        done := done + [Call(Read(id), r.Some?)];
        if r.None? { return; }
      }
      assert c.sourceIds[..|c.sourceIds|] == c.sourceIds && steps[..|c.sourceIds|] == steps;
    }

    /** The locks taken from the n-th on are the first ones of the change's plan. */
    ghost predicate TakenInOrder(c: Change, n: nat)
      reads env`acquired
    {
      n <= |env.acquired| && env.acquired[n..] <= PlanFor(c)
    }

    /** Since these were the locks acquired and held, no lock was released. */
    ghost predicate Together(acquired: seq<Lock>, held: seq<Lock>)
      reads env`acquired, env`held
    {
      |acquired| <= |env.acquired| && env.held == held + env.acquired[|acquired|..]
    }

    lemma {:induction false} TakenNext(c: Change, n: nat, before: seq<Lock>, l: Lock)
      requires n <= |before| && before[n..] <= PlanFor(c) && |before| - n < |PlanFor(c)| && PlanFor(c)[|before| - n] == l
      ensures (before + [l])[n..] <= PlanFor(c)
    {
    }

    /** One more lock taken and held. */
    static lemma {:induction false} OneMoreHeld(acquired: seq<Lock>, held: seq<Lock>, taken: seq<Lock>, before: seq<Lock>, l: Lock)
      requires acquired <= taken && before == held + taken[|acquired|..]
      ensures acquired <= taken + [l] && before + [l] == held + (taken + [l])[|acquired|..]
    {
      assert (taken + [l])[|acquired|..] == taken[|acquired|..] + [l];
    }

    /** Take the next lock of a change's plan. */
    method AcquireNext(c: Change, ghost n: nat, l: Lock, ghost i: nat, ghost acquired: seq<Lock>, ghost held: seq<Lock>,
                       ghost done: seq<Call>)
      returns (ok: bool)
      requires TakenInOrder(c, n) && |env.acquired| == n + 1 + i && i + 1 < |PlanFor(c)| && PlanFor(c)[i + 1] == l
      requires acquired <= env.acquired && Together(acquired, held) && Tried(done, Takes(PlanFor(c)[1..])[..i], true)
      modifies env`acquired, env`held, env`calls, env.disk`files
      ensures TakenInOrder(c, n) && acquired <= env.acquired && Together(acquired, held)
      ensures env.acquired == (if ok then old(env.acquired) + [l] else old(env.acquired)) &&
              env.held == if ok then old(env.held) + [l] else old(env.held)
      ensures env.calls == old(env.calls) + [Call(Take(l), ok)]
      ensures Tried(done + [Call(Take(l), ok)], if ok then Takes(PlanFor(c)[1..])[..i + 1] else Takes(PlanFor(c)[1..]), ok)
    {
      TakenNext(c, n, env.acquired, l);
      OneMoreHeld(acquired, held, env.acquired, env.held, l);
      ok := env.Acquire(l);
      TriedNext(done, Takes(PlanFor(c)[1..]), i, Take(l), ok);
    }

    static lemma {:induction false} PlanSource(c: Change, i: nat)
      requires i < |c.sourceIds|
      ensures i + 1 < |PlanFor(c)| && PlanFor(c)[i + 1] == L.SourceLock(c.sourceIds[i])
    {
    }

    static lemma {:induction false} PlanAction(c: Change, i: nat)
      requires i < |c.actionIds|
      ensures |c.sourceIds| + i + 1 < |PlanFor(c)| && PlanFor(c)[|c.sourceIds| + i + 1] == L.ActionLock(c.actionIds[i])
    {
    }

    /** The locks of the first i sources are held, since these were the locks acquired and held. */
    ghost predicate SourcesHeld(c: Change, n: nat, i: nat, acquired: seq<Lock>, held: seq<Lock>)
      requires i <= |c.sourceIds|
      reads env`acquired, env`held
    {
      acquired <= env.acquired && TakenInOrder(c, n) && |env.acquired| == n + 1 + i && Together(acquired, held) &&
      forall j :: 0 <= j < i ==> L.SourceLock(c.sourceIds[j]) in env.held
    }

    static lemma {:induction false} SourcesMore(c: Change, i: nat, before: seq<Lock>)
      requires i < |c.sourceIds| && forall j :: 0 <= j < i ==> L.SourceLock(c.sourceIds[j]) in before
      ensures forall j :: 0 <= j < i + 1 ==> L.SourceLock(c.sourceIds[j]) in before + [L.SourceLock(c.sourceIds[i])]
    {
      assert (before + [L.SourceLock(c.sourceIds[i])])[|before|] == L.SourceLock(c.sourceIds[i]);
    }

    /** Take the lock of one more source. */
    method AcquireSource(c: Change, ghost n: nat, i: nat, ghost acquired: seq<Lock>, ghost held: seq<Lock>, ghost done: seq<Call>)
      returns (ok: bool, ghost call: Call)
      requires i < |c.sourceIds| && SourcesHeld(c, n, i, acquired, held) && Tried(done, Takes(PlanFor(c)[1..])[..i], true)
      modifies env`acquired, env`held, env`calls, env.disk`files
      ensures SourcesHeld(c, n, if ok then i + 1 else i, acquired, held)
      ensures env.calls == old(env.calls) + [call]
      ensures Tried(done + [call], if ok then Takes(PlanFor(c)[1..])[..i + 1] else Takes(PlanFor(c)[1..]), ok)
    {
      PlanSource(c, i);
      SourcesMore(c, i, env.held);
      ok := AcquireNext(c, n, L.SourceLock(c.sourceIds[i]), i, acquired, held, done);
      call := Call(Take(L.SourceLock(c.sourceIds[i])), ok);
    }

    /** Take the locks of the sources. */
    method AcquireSources(c: Change, ghost n: nat) returns (ok: bool, ghost done: seq<Call>)
      requires TakenInOrder(c, n) && |env.acquired| == n + 1
      modifies env`acquired, env`held, env`calls, env.disk`files
      ensures old(env.acquired) <= env.acquired && TakenInOrder(c, n) && Together(old(env.acquired), old(env.held))
      ensures ok ==> |env.acquired| == n + 1 + |c.sourceIds| &&
                     forall i :: 0 <= i < |c.sourceIds| ==> L.SourceLock(c.sourceIds[i]) in env.held
      ensures env.calls == old(env.calls) + done
      ensures var steps := Takes(PlanFor(c)[1..]); Tried(done, if ok then steps[..|c.sourceIds|] else steps, ok)
    {
      done := [];
      for i := 0 to |c.sourceIds|
        invariant SourcesHeld(c, n, i, old(env.acquired), old(env.held))
        invariant env.calls == old(env.calls) + done && Tried(done, Takes(PlanFor(c)[1..])[..i], true)
      {
        ghost var call;
        ok, call := AcquireSource(c, n, i, old(env.acquired), old(env.held), done);
        Associate(old(env.calls), done, [call]);
        done := done + [call];
        if !ok { return; }
      }
      ok := true;
    }

    /** Take the locks of the actions, behind those of the sources. */
    method AcquireActions(c: Change, ghost n: nat, ghost done: seq<Call>) returns (ok: bool, ghost more: seq<Call>)
      requires TakenInOrder(c, n) && |env.acquired| == n + 1 + |c.sourceIds|
      requires Tried(done, Takes(PlanFor(c)[1..])[..|c.sourceIds|], true)
      modifies env`acquired, env`held, env`calls, env.disk`files
      ensures old(env.acquired) <= env.acquired && TakenInOrder(c, n) && Together(old(env.acquired), old(env.held))
      ensures env.calls == old(env.calls) + more && Tried(done + more, Takes(PlanFor(c)[1..]), ok)
    {
      more := [];
      assert done + more == done;
      for i := 0 to |c.actionIds|
        invariant old(env.acquired) <= env.acquired && TakenInOrder(c, n) && |env.acquired| == n + 1 + |c.sourceIds| + i
        invariant Together(old(env.acquired), old(env.held))
        invariant env.calls == old(env.calls) + more && Tried(done + more, Takes(PlanFor(c)[1..])[..|c.sourceIds| + i], true)
      {
        PlanAction(c, i);
        var l := L.ActionLock(c.actionIds[i]);
        ok := AcquireNext(c, n, l, |c.sourceIds| + i, old(env.acquired), old(env.held), done + more);
        Associate(old(env.calls), more, [Call(Take(l), ok)]);
        Associate(done, more, [Call(Take(l), ok)]);
        more := more + [Call(Take(l), ok)];
        if !ok { return; }
      }
      AllTaken(c);
      ok := true;
    }

    static lemma {:induction false} AllTaken(c: Change)
      ensures var steps := Takes(PlanFor(c)[1..]); |steps| == |c.sourceIds| + |c.actionIds| && steps[..|c.sourceIds| + |c.actionIds|] == steps
    {
    }

    /** Take all locks of a change in order. */
    method AcquireAll(c: Change, ghost n: nat) returns (ok: bool, ghost done: seq<Call>)
      requires TakenInOrder(c, n) && |env.acquired| == n + 1
      modifies env`acquired, env`held, env`calls, env.disk`files
      ensures old(env.acquired) <= env.acquired && TakenInOrder(c, n) && Together(old(env.acquired), old(env.held))
      ensures ok ==> forall i :: 0 <= i < |c.sourceIds| ==> L.SourceLock(c.sourceIds[i]) in env.held
      ensures env.calls == old(env.calls) + done && Tried(done, Takes(PlanFor(c)[1..]), ok)
    {
      ok, done := AcquireSources(c, n);
      if ok {
        ghost var more;
        ok, more := AcquireActions(c, n, done);
        Associate(old(env.calls), done, more);
        done := done + more;
      }
    }

    /** The first record, and every lock behind the application's. */
    method StartAndLock(c: Change, runId: string, ghost base: nat) returns (ok: bool, ghost done: seq<Call>)
      requires TakenInOrder(c, base) && |env.acquired| == base + 1
      modifies env`journal, env`acquired, env`held, env`calls, env.disk`files
      ensures env.journal == old(env.journal) || env.journal == old(env.journal) + [ApplyEvent(c.changeId, runId, Applying, 0)]
      ensures old(env.acquired) <= env.acquired && TakenInOrder(c, base) && Together(old(env.acquired), old(env.held))
      ensures ok ==> forall i :: 0 <= i < |c.sourceIds| ==> L.SourceLock(c.sourceIds[i]) in env.held
      ensures env.calls == old(env.calls) + done && Tried(done, Locking(c, runId), ok)
    {
      var ready := env.Persist(ApplyEvent(c.changeId, runId, Applying, 0));
      ghost var first, taken := [Call(Event(c, runId, Applying, 0), ready)], [];
      TriedOne(Event(c, runId, Applying, 0), ready);
      ok := ready;
      if ready { ok, taken := AcquireAll(c, base); }
      Then(first, [Event(c, runId, Applying, 0)], ready, taken, Takes(PlanFor(c)[1..]), ok);
      Associate(old(env.calls), first, taken);
      done := first + taken;
    }

    /** Store the snapshot and record it. */
    method StoreAndRecord(c: Change, runId: string, m: Machine, ghost n: nat) returns (ok: bool, ghost done: seq<Call>)
      requires m.Valid() && Numbered(m) && m.path == [Applying] && LoggedFrom(env.journal, n, m.path)
      modifies m, env`journal, env`calls, env.disk`files
      ensures m.Valid() && Numbered(m) && LoggedFrom(env.journal, n, m.path) && old(env.journal) <= env.journal
      ensures HeldSame(env.held, old(env.disk.files), env.disk.files)
      ensures m.path == [Applying] || m.path == [Applying, Snapshotted]
      ensures ok ==> m.path == [Applying, Snapshotted]
      ensures env.calls == old(env.calls) + done && Tried(done, [Store(runId), Event(c, runId, Snapshotted, 1)], ok)
    {
      ok := env.Await(Store(runId));
      done := [Call(Store(runId), ok)];
      if ok {
        ok := Emit(m, c, runId, Snapshotted, n);
        Associate(old(env.calls), done, [Call(Event(c, runId, Snapshotted, 1), ok)]);
        done := done + [Call(Event(c, runId, Snapshotted, 1), ok)];
      }
      TriedIs(done, [Store(runId), Event(c, runId, Snapshotted, 1)], ok);
    }

    /** Read the sources and store what was read. */
    method TakeSnapshot(c: Change, runId: string, m: Machine, ghost n: nat) returns (ok: bool, snapshot: Option<Snapshot>, ghost done: seq<Call>)
      requires m.Valid() && Numbered(m) && m.path == [Applying] && LoggedFrom(env.journal, n, m.path)
      requires forall i :: 0 <= i < |c.sourceIds| ==> L.SourceLock(c.sourceIds[i]) in env.held
      modifies m, env`journal, env`calls, env.disk`files, env.disk`faults
      ensures m.Valid() && Numbered(m) && LoggedFrom(env.journal, n, m.path) && old(env.journal) <= env.journal
      ensures m.path == [Applying] || m.path == [Applying, Snapshotted]
      ensures snapshot.Some? ==> IdsOf(snapshot.value) == c.sourceIds && Locked(env.held, snapshot.value) &&
                                 Holds(env.disk.files, snapshot.value) && AsExpected(c.items, snapshot.value)
      ensures ok ==> snapshot.Some? && m.path == [Applying, Snapshotted]
      ensures env.calls == old(env.calls) + done && Tried(done, Capturing(c, runId), ok)
    {
      ghost var read, stored;
      snapshot, read := CaptureSnapshot(c);
      ghost var captured := env.disk.files;
      ok, stored := snapshot.Some?, [];
      if ok {
        ok, stored := StoreAndRecord(c, runId, m, n);
        HoldsKept(env.held, captured, env.disk.files, snapshot.value);
      }
      Then(read, Reads(c.sourceIds), snapshot.Some?, stored, [Store(runId), Event(c, runId, Snapshotted, 1)], ok);
      Associate(old(env.calls), read, stored);
      done := read + stored;
    }

    /** Everything up to the SNAPSHOTTED record. No source is written yet. */
    method Prepare(c: Change, runId: string, m: Machine, ghost n: nat, ghost base: nat)
      returns (ok: bool, snapshot: Option<Snapshot>, ghost done: seq<Call>)
      requires m.Valid() && Numbered(m) && m.path == [Applying] && |env.journal| == n
      requires TakenInOrder(c, base) && |env.acquired| == base + 1
      modifies m, env`journal, env`acquired, env`held, env`calls, env.disk`files, env.disk`faults
      ensures m.Valid() && Numbered(m) && LoggedFrom(env.journal, n, m.path) && old(env.journal) <= env.journal
      ensures old(env.acquired) <= env.acquired && TakenInOrder(c, base) && Together(old(env.acquired), old(env.held))
      ensures m.path == [Applying] || m.path == [Applying, Snapshotted]
      ensures snapshot.Some? ==> IdsOf(snapshot.value) == c.sourceIds && Locked(env.held, snapshot.value) &&
                                 Holds(env.disk.files, snapshot.value) && AsExpected(c.items, snapshot.value)
      ensures ok ==> snapshot.Some? && m.path == Forward()[..2]
      ensures env.calls == old(env.calls) + done && Tried(done, Opening(c, runId), ok)
    {
      ghost var locked, captured := [], [];
      snapshot := None;
      var ready;
      ready, locked := StartAndLock(c, runId, base);
      ok := ready;
      if ready { ok, snapshot, captured := TakeSnapshot(c, runId, m, n); }
      OpenedThen(c, runId, locked, ready, captured, ok);
      Associate(old(env.calls), locked, captured);
      done := locked + captured;
    }

    static lemma {:induction false} SourceIdsNext(groups: seq<Group>, k: nat)
      requires k < |groups|
      ensures SourceIdsOf(groups[..k + 1]) == SourceIdsOf(groups[..k]) + [groups[k].sourceId]
    {
      assert groups[..k + 1][..k] == groups[..k];
    }

    /** Write one more source. A failed write may have taken effect. */
    method WriteGroup(snapshot: Snapshot, groups: seq<Group>, k: nat) returns (ok: bool)
      requires Locked(env.held, snapshot) && k < |groups| && OnePerSource(groups)
      requires Rewritten(env.disk.files, env.disk.sources, snapshot, groups[..k])
      modifies env`calls, env.disk`files, env.disk`replaced, env.disk`faults
      ensures ok ==> Rewritten(env.disk.files, env.disk.sources, snapshot, groups[..k + 1]) &&
                     env.disk.replaced == old(env.disk.replaced) + [groups[k].sourceId]
      ensures env.calls == old(env.calls) + [Call(Write(groups[k]), ok)]
    {
      ghost var seen;
      ok, seen := env.WriteSource(groups[k]);
      RewrittenKept(env.held, old(env.disk.files), seen, env.disk.sources, snapshot, groups[..k]);
      if ok { WriteStep(seen, env.disk.sources, snapshot, groups, k); }
    }

    /** Write the sources of these groups, one after the other, until a write fails. */
    method WriteGroups(snapshot: Snapshot, todo: seq<Group>) returns (ok: bool, started: bool, ghost done: seq<Call>)
      requires Locked(env.held, snapshot) && Holds(env.disk.files, snapshot) && OnePerSource(todo)
      modifies env`calls, env.disk`files, env.disk`replaced, env.disk`faults
      ensures started <==> todo != []
      ensures !started ==> env.disk.replaced == old(env.disk.replaced) && env.disk.files == old(env.disk.files)
      ensures ok ==> Rewritten(env.disk.files, env.disk.sources, snapshot, todo) &&
                     env.disk.replaced == old(env.disk.replaced) + SourceIdsOf(todo)
      ensures env.calls == old(env.calls) + done && Tried(done, Writes(todo), ok)
    {
      started, done := false, [];
      ghost var steps := Writes(todo);
      for k := 0 to |todo|
        invariant !started ==> env.disk.files == old(env.disk.files)
        invariant Rewritten(env.disk.files, env.disk.sources, snapshot, todo[..k])
        invariant env.disk.replaced == old(env.disk.replaced) + SourceIdsOf(todo[..k])
        invariant started <==> k > 0
        invariant env.calls == old(env.calls) + done && Tried(done, steps[..k], true)
      {
        started := true;
        ok := WriteGroup(snapshot, todo, k);
        TriedNext(done, steps, k, Write(todo[k]), ok);
        Associate(old(env.calls), done, [Call(Write(todo[k]), ok)]);
        done := done + [Call(Write(todo[k]), ok)];
        if !ok { return; }
        SourceIdsNext(todo, k);
      }
      assert todo[..|todo|] == todo && steps[..|todo|] == steps;
      ok := true;
    }

    /** Write every touched source once. */
    method WriteAll(c: Change, snapshot: Snapshot) returns (ok: bool, started: bool, ghost groups: seq<Group>, ghost done: seq<Call>)
      requires Locked(env.held, snapshot) && Holds(env.disk.files, snapshot)
      modifies env`calls, env.disk`files, env.disk`replaced, env.disk`faults
      ensures !started ==> env.disk.replaced == old(env.disk.replaced) && Holds(env.disk.files, snapshot)
      ensures ok ==> GroupsOf(c.items) == Some(groups) && Rewritten(env.disk.files, env.disk.sources, snapshot, groups) &&
                     env.disk.replaced == old(env.disk.replaced) + SourceIdsOf(groups)
      ensures env.calls == old(env.calls) + done && (started <==> done != [])
      ensures match GroupsOf(c.items)
              case None => !ok && done == []
              case Some(all) => groups == all && Tried(done, Writes(all), ok) && (started <==> all != [])
    {
      ok, started, groups, done := false, false, [], [];
      var plan := SourceOperations(c.items);
      if plan.None? { return; }
      groups := plan.value;
      GroupsOnePer(c.items);
      ok, started, done := WriteGroups(snapshot, plan.value);
    }

    /** Run every action of the change, in order, until one fails. */
    method RunActions(c: Change, runId: string) returns (ok: bool, ghost done: seq<Call>)
      modifies env`calls, env.disk`files
      ensures HeldSame(env.held, old(env.disk.files), env.disk.files)
      ensures env.calls == old(env.calls) + done && Tried(done, Acts(runId, c.actionIds), ok)
    {
      ghost var steps := Acts(runId, c.actionIds);
      done := [];
      for i := 0 to |c.actionIds|
        invariant HeldSame(env.held, old(env.disk.files), env.disk.files)
        invariant env.calls == old(env.calls) + done && Tried(done, steps[..i], true)
      {
        ok := env.Await(Act(runId, c.actionIds[i]));
        TriedNext(done, steps, i, Act(runId, c.actionIds[i]), ok);
        Associate(old(env.calls), done, [Call(Act(runId, c.actionIds[i]), ok)]);
        done := done + [Call(Act(runId, c.actionIds[i]), ok)];
        if !ok { return; }
      }
      assert steps[..|c.actionIds|] == steps;
      ok := true;
    }

    /** One more step forward. */
    method Advance(m: Machine, c: Change, runId: string, k: nat, ghost n: nat) returns (ok: bool)
      requires m.Valid() && Numbered(m) && LoggedFrom(env.journal, n, m.path) && 2 <= k < 6 && m.path == Forward()[..k]
      modifies m, env`journal, env`calls, env.disk`files
      ensures m.Valid() && Numbered(m) && LoggedFrom(env.journal, n, m.path) && old(env.journal) <= env.journal
      ensures HeldSame(env.held, old(env.disk.files), env.disk.files)
      ensures m.path == Forward()[..k + 1]
      ensures ok ==> env.journal == old(env.journal) + [ApplyEvent(c.changeId, runId, Forward()[k], k)]
      ensures env.calls == old(env.calls) + [Call(Event(c, runId, Forward()[k], k), ok)]
    {
      assert Forward()[..k + 1] == Forward()[..k] + [Forward()[k]];
      ok := Emit(m, c, runId, Forward()[k], n);
    }

    /** Record that the actions run, and run them. */
    method StartActions(c: Change, runId: string, m: Machine, ghost n: nat) returns (ok: bool, ghost done: seq<Call>)
      requires m.Valid() && Numbered(m) && LoggedFrom(env.journal, n, m.path) && m.path == Forward()[..3]
      modifies m, env`journal, env`calls, env.disk`files
      ensures m.Valid() && Numbered(m) && LoggedFrom(env.journal, n, m.path) && old(env.journal) <= env.journal
      ensures HeldSame(env.held, old(env.disk.files), env.disk.files) && m.path == Forward()[..4]
      ensures env.calls == old(env.calls) + done
      ensures Tried(done, [Event(c, runId, ActionRunning, 3)] + Acts(runId, c.actionIds), ok)
    {
      var ready := Advance(m, c, runId, 3, n);
      ghost var first, acted := [Call(Event(c, runId, ActionRunning, 3), ready)], [];
      TriedOne(Event(c, runId, ActionRunning, 3), ready);
      ok := ready;
      if ready { ok, acted := RunActions(c, runId); }
      Then(first, [Event(c, runId, ActionRunning, 3)], ready, acted, Acts(runId, c.actionIds), ok);
      Associate(old(env.calls), first, acted);
      done := first + acted;
    }

    /** Run the actions, and go on to the health check. */
    method ActAll(c: Change, runId: string, m: Machine, ghost n: nat) returns (ok: bool, ghost done: seq<Call>)
      requires m.Valid() && Numbered(m) && LoggedFrom(env.journal, n, m.path) && m.path == Forward()[..3]
      modifies m, env`journal, env`calls, env.disk`files
      ensures m.Valid() && Numbered(m) && LoggedFrom(env.journal, n, m.path) && old(env.journal) <= env.journal
      ensures HeldSame(env.held, old(env.disk.files), env.disk.files)
      ensures 4 <= |m.path| <= 5 && m.path == Forward()[..|m.path|] && (ok ==> |m.path| == 5)
      ensures env.calls == old(env.calls) + done && Tried(done, Acting(c, runId), ok)
    {
      ghost var acted, last := [], [];
      var ready;
      ready, acted := StartActions(c, runId, m, n);
      ok := ready;
      if ready {
        ok := Advance(m, c, runId, 4, n);
        last := [Call(Event(c, runId, HealthChecking, 4), ok)];
        TriedOne(Event(c, runId, HealthChecking, 4), ok);
      }
      Then(acted, [Event(c, runId, ActionRunning, 3)] + Acts(runId, c.actionIds), ready, last, [Event(c, runId, HealthChecking, 4)], ok);
      Associate(old(env.calls), acted, last);
      done := acted + last;
    }

    /** Record that the sources are written, and run the actions. */
    method RecordAndAct(c: Change, runId: string, m: Machine, ghost n: nat) returns (ok: bool, ghost done: seq<Call>)
      requires m.Valid() && Numbered(m) && LoggedFrom(env.journal, n, m.path) && m.path == Forward()[..2]
      modifies m, env`journal, env`calls, env.disk`files
      ensures m.Valid() && Numbered(m) && LoggedFrom(env.journal, n, m.path) && old(env.journal) <= env.journal
      ensures HeldSame(env.held, old(env.disk.files), env.disk.files)
      ensures 3 <= |m.path| <= 5 && m.path == Forward()[..|m.path|] && (ok ==> |m.path| == 5)
      ensures env.calls == old(env.calls) + done && Tried(done, [Event(c, runId, Written, 2)] + Acting(c, runId), ok)
    {
      var ready := Advance(m, c, runId, 2, n);
      ghost var first, acted := [Call(Event(c, runId, Written, 2), ready)], [];
      TriedOne(Event(c, runId, Written, 2), ready);
      ok := ready;
      if ready { ok, acted := ActAll(c, runId, m, n); }
      Then(first, [Event(c, runId, Written, 2)], ready, acted, Acting(c, runId), ok);
      Associate(old(env.calls), first, acted);
      done := first + acted;
    }

    /** The health check over all checks, and the commit. */
    method CheckAndCommit(c: Change, runId: string, m: Machine, ghost n: nat) returns (ok: bool, ghost done: seq<Call>)
      requires m.Valid() && Numbered(m) && LoggedFrom(env.journal, n, m.path) && m.path == Forward()[..5]
      modifies m, env`journal, env`calls, env.disk`files
      ensures m.Valid() && Numbered(m) && LoggedFrom(env.journal, n, m.path) && old(env.journal) <= env.journal
      ensures HeldSame(env.held, old(env.disk.files), env.disk.files)
      ensures 5 <= |m.path| <= 6 && m.path == Forward()[..|m.path|]
      ensures ok ==> |m.path| == 6 && env.journal != [] &&
                     env.journal[|env.journal| - 1] == ApplyEvent(c.changeId, runId, Completed, 5)
      ensures env.calls == old(env.calls) + done
      ensures Tried(done, [Check(runId, c.checkIds, false), Event(c, runId, Completed, 5)], ok)
    {
      ok := env.Await(Check(runId, c.checkIds, false));
      done := [Call(Check(runId, c.checkIds, false), ok)];
      TriedIs(done, [Check(runId, c.checkIds, false), Event(c, runId, Completed, 5)], ok);
      if !ok { return; }
      ok := Advance(m, c, runId, 5, n);
      Associate(old(env.calls), done, [Call(Event(c, runId, Completed, 5), ok)]);
      done := done + [Call(Event(c, runId, Completed, 5), ok)];
      TriedIs(done, [Check(runId, c.checkIds, false), Event(c, runId, Completed, 5)], ok);
    }

    /** Run the actions and the health check, and commit. */
    method Finish(c: Change, runId: string, m: Machine, ghost n: nat) returns (ok: bool, ghost done: seq<Call>)
      requires m.Valid() && Numbered(m) && LoggedFrom(env.journal, n, m.path) && m.path == Forward()[..2]
      modifies m, env`journal, env`calls, env.disk`files
      ensures m.Valid() && Numbered(m) && LoggedFrom(env.journal, n, m.path) && old(env.journal) <= env.journal
      ensures HeldSame(env.held, old(env.disk.files), env.disk.files)
      ensures 3 <= |m.path| && Ahead(m)
      ensures ok ==> RecordedLast(m, c, runId, Completed)
      ensures env.calls == old(env.calls) + done && Tried(done, Closing(c, runId), ok)
    {
      ghost var acted, checked := [], [];
      var ready;
      ready, acted := RecordAndAct(c, runId, m, n);
      ok := ready;
      ghost var calls, files := env.calls, env.disk.files;
      if ready { ok, checked := CheckAndCommit(c, runId, m, n); }
      HeldTwice(env.held, old(env.disk.files), files, env.disk.files);
      ActedThenClosed(c, runId, acted, ready, checked, ok);
      assert env.calls == calls + checked;
      Associate(old(env.calls), acted, checked);
      done := acted + checked;
    }

    // ----- rolling back ------------------------------------------------------------

    /** Put the next source back; those that were put back stay. */
    method RestoreNext(snapshot: Snapshot, k: nat) returns (ok: bool)
      requires Locked(env.held, snapshot) && Consistent(snapshot) && k < |snapshot| && Holds(env.disk.files, snapshot[..k])
      modifies env`calls, env.disk`files, env.disk`replaced, env.disk`faults
      ensures ok ==> Holds(env.disk.files, snapshot[..k + 1])
      ensures env.calls == old(env.calls) + [Call(PutBack(snapshot[k].0, snapshot[k].1), ok)]
    {
      ghost var seen;
      ok, seen := env.PutSourceBack(snapshot[k].0, snapshot[k].1);
      HoldsKept(env.held, old(env.disk.files), seen, snapshot[..k]);
      assert forall i :: 0 <= i < k + 1 ==> snapshot[..k + 1][i] == snapshot[i];
      assert forall i :: 0 <= i < k ==> snapshot[..k][i] == snapshot[i];
    }

    /** Put every snapshotted source back, whatever it holds now. */
    method RestoreSnapshot(snapshot: Snapshot) returns (ok: bool, ghost done: seq<Call>)
      requires Locked(env.held, snapshot) && Consistent(snapshot)
      modifies env`calls, env.disk`files, env.disk`replaced, env.disk`faults
      ensures ok ==> Holds(env.disk.files, snapshot)
      ensures env.calls == old(env.calls) + done && Tried(done, PutBacks(snapshot), ok)
    {
      ghost var steps := PutBacks(snapshot);
      done := [];
      for k := 0 to |snapshot|
        invariant Holds(env.disk.files, snapshot[..k])
        invariant env.calls == old(env.calls) + done && Tried(done, steps[..k], true)
      {
        ok := RestoreNext(snapshot, k);
        TriedNext(done, steps, k, PutBack(snapshot[k].0, snapshot[k].1), ok);
        Associate(old(env.calls), done, [Call(PutBack(snapshot[k].0, snapshot[k].1), ok)]);
        done := done + [Call(PutBack(snapshot[k].0, snapshot[k].1), ok)];
        if !ok { return; }
      }
      assert snapshot[..|snapshot|] == snapshot && steps[..|snapshot|] == steps;
      ok := true;
    }

    /** Record a failed rollback, if the machine is rolling back. */
    method RecordFailure(m: Machine, c: Change, runId: string, ghost n: nat) returns (ghost told: seq<Call>)
      requires m.Valid() && Numbered(m) && LoggedFrom(env.journal, n, m.path)
      modifies m, env`journal, env`calls, env.disk`files
      ensures m.Valid() && LoggedFrom(env.journal, n, m.path) && old(env.journal) <= env.journal
      ensures HeldSame(env.held, old(env.disk.files), env.disk.files)
      ensures old(m.path) <= m.path && (IsTerminal(old(m.current)) ==> m.path == old(m.path))
      ensures m.current == Completed ==> old(m.current) == Completed
      ensures env.calls == old(env.calls) + told
      ensures if old(m.current) == RollingBack then |told| == 1 && told[0].step == Event(c, runId, RollbackFailed, |old(m.path)|)
              else told == []
    {
      ghost var rolling, at := m.current == RollingBack, |m.path|;
      var recorded := Emit(m, c, runId, RollbackFailed, n);
      told := if rolling then [Call(Event(c, runId, RollbackFailed, at), recorded)] else [];
    }

    /** Report a failed rollback: a run ends so only when the report got through. */
    method Fail(m: Machine, c: Change, runId: string, ghost n: nat) returns (r: Result<Outcome, ErrorCode>, ghost told: seq<Call>)
      requires m.Valid() && Numbered(m) && LoggedFrom(env.journal, n, m.path)
      modifies m, env`journal, env`reported, env`calls, env.disk`files
      ensures m.Valid() && LoggedFrom(env.journal, n, m.path) && old(env.journal) <= env.journal
      ensures HeldSame(env.held, old(env.disk.files), env.disk.files)
      ensures (r == Ok(RollbackFailedRun) && runId in env.reported) || r == Err(CallbackFailed)
      ensures old(m.path) <= m.path && (IsTerminal(old(m.current)) ==> m.path == old(m.path))
      ensures m.current == Completed ==> old(m.current) == Completed
      ensures env.calls == old(env.calls) + told && Told(c, runId, told, r.Ok?, old(m.current) == RollingBack, |old(m.path)|)
    {
      ghost var recorded := RecordFailure(m, c, runId, n);
      var ok := env.ReportFailure(runId);
      Associate(old(env.calls), recorded, [Call(Report(runId), ok)]);
      told := recorded + [Call(Report(runId), ok)];
      r := if ok then Ok(RollbackFailedRun) else Err(CallbackFailed);
    }

    /** The machine is on its way forward, or completed. */
    static ghost predicate Ahead(m: Machine)
      reads m
    {
      m.path <= Forward()
    }

    /** Nothing is undone once the machine is completed; otherwise the steps were tried until one failed. */
    static predicate UndoneBut(undone: seq<Call>, steps: seq<Step>, completed: bool) {
      if completed then undone == [] else Tried(undone, steps, false)
    }

    lemma {:induction false} RollsBack(m: Machine)
      requires m.Valid() && Ahead(m)
      ensures RollingBack in Successors(m.current) <==> m.current != Completed
    {
      assert m.path == Forward()[..|m.path|];
    }

    /** Record that the run is rolled back. */
    method RecordEnd(m: Machine, c: Change, runId: string, ghost n: nat) returns (ok: bool)
      requires m.Valid() && Numbered(m) && LoggedFrom(env.journal, n, m.path) && m.current == RollingBack
      modifies m, env`journal, env`calls, env.disk`files
      ensures m.Valid() && Numbered(m) && LoggedFrom(env.journal, n, m.path) && old(env.journal) <= env.journal
      ensures HeldSame(env.held, old(env.disk.files), env.disk.files) && (ok ==> RecordedLast(m, c, runId, RolledBack))
      ensures m.path == old(m.path) + [RolledBack] && m.current == RolledBack
      ensures env.calls == old(env.calls) + [Call(Event(c, runId, RolledBack, |old(m.path)|), ok)]
    {
      ok := Emit(m, c, runId, RolledBack, n);
    }

    method RecordNothing(m: Machine, c: Change, runId: string, ghost n: nat) returns (ok: bool, ghost undone: seq<Call>)
      requires m.Valid() && Numbered(m) && LoggedFrom(env.journal, n, m.path) && Ahead(m)
      modifies m, env`journal, env`calls, env.disk`files
      ensures m.Valid() && Numbered(m) && LoggedFrom(env.journal, n, m.path) && old(env.journal) <= env.journal
      ensures HeldSame(env.held, old(env.disk.files), env.disk.files) && old(m.path) <= m.path
      ensures ok ==> RecordedLast(m, c, runId, RolledBack)
      ensures IsTerminal(old(m.current)) ==> m.path == old(m.path) && !ok
      ensures m.current == Completed ==> old(m.current) == Completed
      ensures env.calls == old(env.calls) + undone
      ensures var steps := NothingSteps(c, runId, |old(m.path)|);
              if ok then Tried(undone, steps, true)
              else UndoneBut(undone, steps, old(m.current) == Completed) && (m.current == RollingBack <==> StillRolling(undone, steps))
      ensures m.current == RollingBack ==> |m.path| == |old(m.path)| + 1
    {
      ghost var started, last, at, completed := [], [], |m.path|, m.current == Completed;
      var ready;
      ready, started := StartRollBack(m, c, runId, n);
      ok := ready;
      if ready {
        assert |m.path| == at + 1;
        ok := RecordEnd(m, c, runId, n);
        last := [Call(Event(c, runId, RolledBack, at + 1), ok)];
        TriedOne(Event(c, runId, RolledBack, at + 1), ok);
      }
      if !completed { TurnedThenEnded(c, runId, at, started, ready, last, ok); }
      Associate(old(env.calls), started, last);
      undone := started + last;
    }

    /** Nothing was written: record that there is nothing to roll back. */
    method RollBackNothing(m: Machine, c: Change, runId: string, ghost n: nat)
      returns (r: Result<Outcome, ErrorCode>, ghost undone: seq<Call>, ghost told: seq<Call>)
      requires m.Valid() && Numbered(m) && LoggedFrom(env.journal, n, m.path) && Ahead(m)
      modifies m, env`journal, env`reported, env`calls, env.disk`files
      ensures m.Valid() && LoggedFrom(env.journal, n, m.path) && old(env.journal) <= env.journal && old(m.path) <= m.path
      ensures HeldSame(env.held, old(env.disk.files), env.disk.files)
      ensures r == Ok(RolledBackRun) ==> RecordedLast(m, c, runId, RolledBack)
      ensures IsTerminal(old(m.current)) ==> m.path == old(m.path) && r != Ok(RolledBackRun)
      ensures m.current == Completed ==> old(m.current) == Completed
      ensures env.calls == old(env.calls) + undone + told
      ensures Ending(c, runId, r, undone, told, NothingSteps(c, runId, |old(m.path)|), |old(m.path)|, old(m.current) == Completed)
    {
      told := [];
      var ok;
      ok, undone := RecordNothing(m, c, runId, n);
      if ok { return Ok(RolledBackRun), undone, told; }
      r, told := Fail(m, c, runId, n);
    }

    /** How a run that was not completed ended: everything was undone, or the failure was told. */
    ghost predicate Ending(c: Change, runId: string, r: Result<Outcome, ErrorCode>, undone: seq<Call>, told: seq<Call>,
                           steps: seq<Step>, at: nat, completed: bool)
      reads env`reported
    {
      match r
      case Ok(CompletedRun) => false
      case Ok(RolledBackRun) => Tried(undone, steps, true) && told == []
      case Ok(RollbackFailedRun) =>
        UndoneBut(undone, steps, completed) && runId in env.reported && Told(c, runId, told, true, StillRolling(undone, steps), at + 1)
      case Err(e) =>
        e == CallbackFailed && UndoneBut(undone, steps, completed) && Told(c, runId, told, false, StillRolling(undone, steps), at + 1)
    }

    /** The machine ended in this state, and its record is the last one. */
    ghost predicate RecordedLast(m: Machine, c: Change, runId: string, state: State)
      reads m, env
    {
      m.path != [] && m.current == state && m.path[|m.path| - 1] == state && env.journal != [] &&
      env.journal[|env.journal| - 1] == ApplyEvent(c.changeId, runId, state, |m.path| - 1)
    }

    /** Undo every action, in order; no source changes. */
    method UndoActions(c: Change, runId: string) returns (ok: bool, ghost done: seq<Call>)
      modifies env`calls, env.disk`files
      ensures HeldSame(env.held, old(env.disk.files), env.disk.files)
      ensures env.calls == old(env.calls) + done && Tried(done, Undos(runId, c.actionIds), ok)
    {
      ghost var steps := Undos(runId, c.actionIds);
      done := [];
      for i := 0 to |c.actionIds|
        invariant HeldSame(env.held, old(env.disk.files), env.disk.files)
        invariant env.calls == old(env.calls) + done && Tried(done, steps[..i], true)
      {
        ok := env.Await(Undo(runId, c.actionIds[i]));
        TriedNext(done, steps, i, Undo(runId, c.actionIds[i]), ok);
        Associate(old(env.calls), done, [Call(Undo(runId, c.actionIds[i]), ok)]);
        done := done + [Call(Undo(runId, c.actionIds[i]), ok)];
        if !ok { return; }
      }
      assert steps[..|c.actionIds|] == steps;
      ok := true;
    }

    /** Undo the actions and check health; no source changes. */
    method UndoAll(c: Change, runId: string, ghost snapshot: Snapshot) returns (ok: bool, ghost done: seq<Call>)
      requires Locked(env.held, snapshot) && Holds(env.disk.files, snapshot)
      modifies env`calls, env.disk`files
      ensures Holds(env.disk.files, snapshot)
      ensures env.calls == old(env.calls) + done && Tried(done, Undos(runId, c.actionIds) + [Check(runId, c.checkIds, true)], ok)
    {
      ghost var undone, checked := [], [];
      var ready;
      ready, undone := UndoActions(c, runId);
      HoldsKept(env.held, old(env.disk.files), env.disk.files, snapshot);
      ok := ready;
      if ready {
        ghost var before := env.disk.files;
        ok := env.Await(Check(runId, c.checkIds, true));
        HoldsKept(env.held, before, env.disk.files, snapshot);
        checked := [Call(Check(runId, c.checkIds, true), ok)];
        TriedOne(Check(runId, c.checkIds, true), ok);
      }
      Then(undone, Undos(runId, c.actionIds), ready, checked, [Check(runId, c.checkIds, true)], ok);
      Associate(old(env.calls), undone, checked);
      done := undone + checked;
    }

    method RestoreAndUndo(c: Change, runId: string, snapshot: Snapshot) returns (ok: bool, ghost done: seq<Call>)
      requires Locked(env.held, snapshot) && Consistent(snapshot)
      modifies env`calls, env.disk`files, env.disk`replaced, env.disk`faults
      ensures ok ==> Holds(env.disk.files, snapshot)
      ensures env.calls == old(env.calls) + done
      ensures Tried(done, Undoing(c, runId, snapshot), ok)
    {
      ghost var restored, undone := [], [];
      var ready;
      ready, restored := RestoreSnapshot(snapshot);
      ok := ready;
      if ready { ok, undone := UndoAll(c, runId, snapshot); }
      Then(restored, PutBacks(snapshot), ready, undone, Undos(runId, c.actionIds) + [Check(runId, c.checkIds, true)], ok);
      Associate(old(env.calls), restored, undone);
      done := restored + undone;
    }

    method RecordRolledBack(m: Machine, c: Change, runId: string, ghost snapshot: Snapshot, ghost n: nat) returns (ok: bool)
      requires m.Valid() && Numbered(m) && LoggedFrom(env.journal, n, m.path) && m.current == RollingBack
      requires Locked(env.held, snapshot) && Holds(env.disk.files, snapshot)
      modifies m, env`journal, env`calls, env.disk`files
      ensures m.Valid() && Numbered(m) && LoggedFrom(env.journal, n, m.path) && old(env.journal) <= env.journal
      ensures Holds(env.disk.files, snapshot) && (ok ==> RecordedLast(m, c, runId, RolledBack))
      ensures m.path == old(m.path) + [RolledBack] && m.current == RolledBack
      ensures env.calls == old(env.calls) + [Call(Event(c, runId, RolledBack, |old(m.path)|), ok)]
    {
      ok := RecordEnd(m, c, runId, n);
      HoldsKept(env.held, old(env.disk.files), env.disk.files, snapshot);
    }

    /** Restore, undo, check, and record the end. */
    method UndoRecorded(m: Machine, c: Change, runId: string, snapshot: Snapshot, ghost n: nat) returns (ok: bool, ghost done: seq<Call>)
      requires m.Valid() && Numbered(m) && LoggedFrom(env.journal, n, m.path) && m.current == RollingBack
      requires Locked(env.held, snapshot) && Consistent(snapshot)
      modifies m, env`journal, env`calls, env.disk`files, env.disk`replaced, env.disk`faults
      ensures m.Valid() && Numbered(m) && LoggedFrom(env.journal, n, m.path) && old(env.journal) <= env.journal
      ensures ok ==> RecordedLast(m, c, runId, RolledBack) && Holds(env.disk.files, snapshot)
      ensures m.current != Completed && old(m.path) <= m.path && env.calls == old(env.calls) + done
      ensures Tried(done, Undoing(c, runId, snapshot) + [Event(c, runId, RolledBack, |old(m.path)|)], ok)
      ensures m.current == RollingBack <==> |done| <= |Undoing(c, runId, snapshot)|
      ensures m.current == RollingBack ==> m.path == old(m.path)
    {
      ghost var undone, recorded, last := [], [], Event(c, runId, RolledBack, |m.path|);
      var ready;
      ready, undone := RestoreAndUndo(c, runId, snapshot);
      ok := ready;
      if ready {
        ok := RecordRolledBack(m, c, runId, snapshot, n);
        recorded := [Call(last, ok)];
        TriedOne(last, ok);
      }
      TriedCount(undone, Undoing(c, runId, snapshot), ready);
      Then(undone, Undoing(c, runId, snapshot), ready, recorded, [last], ok);
      Associate(old(env.calls), undone, recorded);
      done := undone + recorded;
    }

    /** Turn to rolling back, unless the machine is completed. */
    method StartRollBack(m: Machine, c: Change, runId: string, ghost n: nat) returns (ok: bool, ghost done: seq<Call>)
      requires m.Valid() && Numbered(m) && LoggedFrom(env.journal, n, m.path) && Ahead(m)
      modifies m, env`journal, env`calls, env.disk`files
      ensures m.Valid() && Numbered(m) && LoggedFrom(env.journal, n, m.path) && old(env.journal) <= env.journal
      ensures HeldSame(env.held, old(env.disk.files), env.disk.files) && env.calls == old(env.calls) + done
      ensures if old(m.current) == Completed then !ok && done == [] && m.path == old(m.path)
              else Tried(done, [Event(c, runId, RollingBack, |old(m.path)|)], ok) && m.path == old(m.path) + [RollingBack] &&
                   m.current == RollingBack
    {
      ghost var first, completed := Event(c, runId, RollingBack, |m.path|), m.current == Completed;
      RollsBack(m);
      ok := Emit(m, c, runId, RollingBack, n);
      done := if completed then [] else [Call(first, ok)];
      TriedOne(first, ok);
    }

    method TryRollBack(m: Machine, c: Change, runId: string, snapshot: Snapshot, ghost n: nat) returns (ok: bool, ghost undone: seq<Call>)
      requires m.Valid() && Numbered(m) && LoggedFrom(env.journal, n, m.path) && Ahead(m)
      requires Locked(env.held, snapshot) && Consistent(snapshot)
      modifies m, env`journal, env`calls, env.disk`files, env.disk`replaced, env.disk`faults
      ensures m.Valid() && Numbered(m) && LoggedFrom(env.journal, n, m.path) && old(env.journal) <= env.journal
      ensures ok ==> RecordedLast(m, c, runId, RolledBack) && Holds(env.disk.files, snapshot)
      ensures IsTerminal(old(m.current)) ==> !ok && m.path == old(m.path) && env.disk.replaced == old(env.disk.replaced)
      ensures IsTerminal(old(m.current)) ==> HeldSame(env.held, old(env.disk.files), env.disk.files)
      ensures m.current == Completed ==> old(m.current) == Completed
      ensures old(m.path) <= m.path && env.calls == old(env.calls) + undone
      ensures var steps := UndoSteps(c, runId, snapshot, |old(m.path)|);
              if ok then Tried(undone, steps, true)
              else UndoneBut(undone, steps, old(m.current) == Completed) && (m.current == RollingBack <==> StillRolling(undone, steps))
      ensures m.current == RollingBack ==> |m.path| == |old(m.path)| + 1
    {
      ghost var started, done, at, completed := [], [], |m.path|, m.current == Completed;
      var ready;
      ready, started := StartRollBack(m, c, runId, n);
      ok := ready;
      if ready {
        assert |m.path| == at + 1;
        ok, done := UndoRecorded(m, c, runId, snapshot, n);
      }
      Associate(old(env.calls), started, done);
      undone := started + done;
      if !completed { TurnedThenUndone(c, runId, snapshot, at, started, ready, done, ok); }
    }

    /** Something may have been written: restore every snapshotted source, undo the actions, check, record. */
    method RollBack(m: Machine, c: Change, runId: string, snapshot: Snapshot, ghost n: nat)
      returns (r: Result<Outcome, ErrorCode>, ghost undone: seq<Call>, ghost told: seq<Call>)
      requires m.Valid() && Numbered(m) && LoggedFrom(env.journal, n, m.path) && Ahead(m)
      requires Locked(env.held, snapshot) && Consistent(snapshot)
      modifies m, env`journal, env`reported, env`calls, env.disk`files, env.disk`replaced, env.disk`faults
      ensures m.Valid() && LoggedFrom(env.journal, n, m.path) && old(env.journal) <= env.journal && old(m.path) <= m.path
      ensures r == Ok(RolledBackRun) ==> RecordedLast(m, c, runId, RolledBack) && Holds(env.disk.files, snapshot)
      // A run whose commit record failed is over for the machine: it is not restored.
      ensures IsTerminal(old(m.current)) ==> m.path == old(m.path) && r != Ok(RolledBackRun)
      ensures IsTerminal(old(m.current)) ==> HeldSame(env.held, old(env.disk.files), env.disk.files)
      ensures IsTerminal(old(m.current)) ==> env.disk.replaced == old(env.disk.replaced)
      ensures m.current == Completed ==> old(m.current) == Completed
      ensures env.calls == old(env.calls) + undone + told
      ensures Ending(c, runId, r, undone, told, UndoSteps(c, runId, snapshot, |old(m.path)|), |old(m.path)|,
                     old(m.current) == Completed)
    {
      told := [];
      var ok;
      ok, undone := TryRollBack(m, c, runId, snapshot, n);
      if ok { return Ok(RolledBackRun), undone, told; }
      r, told := Fail(m, c, runId, n);
    }

    // ----- the whole run -----------------------------------------------------------

    /** From the first write to the commit. */
    method WriteAndFinish(c: Change, runId: string, m: Machine, snapshot: Snapshot, ghost n: nat)
      returns (ok: bool, started: bool, ghost groups: seq<Group>, ghost done: seq<Call>)
      requires m.Valid() && Numbered(m) && LoggedFrom(env.journal, n, m.path) && m.path == Forward()[..2]
      requires Locked(env.held, snapshot) && Holds(env.disk.files, snapshot)
      modifies m, env`journal, env`calls, env.disk`files, env.disk`replaced, env.disk`faults
      ensures m.Valid() && Numbered(m) && LoggedFrom(env.journal, n, m.path) && old(env.journal) <= env.journal && Ahead(m)
      ensures ok ==> RecordedLast(m, c, runId, Completed) && env.disk.replaced == old(env.disk.replaced) + SourceIdsOf(groups)
      ensures m.current == Completed ==> GroupsOf(c.items) == Some(groups) &&
                                         Rewritten(env.disk.files, env.disk.sources, snapshot, groups)
      ensures !started ==> env.disk.replaced == old(env.disk.replaced) && Holds(env.disk.files, snapshot)
      ensures env.calls == old(env.calls) + done
      ensures WroteAndClosed(c, runId, done, ok, started)
    {
      ghost var wrote, closed := [], [];
      var ready;
      ready, started, groups, wrote := WriteAll(c, snapshot);
      ok := ready;
      if ready { ok, closed := FinishWritten(c, runId, m, snapshot, groups, n); }
      if GroupsOf(c.items).Some? { WroteThenClosed(c, runId, groups, wrote, ready, closed, ok, started); }
      Associate(old(env.calls), wrote, closed);
      done := wrote + closed;
    }

    /** From WRITTEN to the commit, the written sources stay as they are. */
    method FinishWritten(c: Change, runId: string, m: Machine, ghost snapshot: Snapshot, ghost groups: seq<Group>, ghost n: nat)
      returns (ok: bool, ghost done: seq<Call>)
      requires m.Valid() && Numbered(m) && LoggedFrom(env.journal, n, m.path) && m.path == Forward()[..2]
      requires Locked(env.held, snapshot) && Rewritten(env.disk.files, env.disk.sources, snapshot, groups)
      modifies m, env`journal, env`calls, env.disk`files
      ensures m.Valid() && Numbered(m) && LoggedFrom(env.journal, n, m.path) && old(env.journal) <= env.journal && Ahead(m)
      ensures Rewritten(env.disk.files, env.disk.sources, snapshot, groups)
      ensures ok ==> RecordedLast(m, c, runId, Completed)
      ensures env.calls == old(env.calls) + done && Tried(done, Closing(c, runId), ok)
    {
      ok, done := Finish(c, runId, m, n);
      RewrittenKept(env.held, old(env.disk.files), env.disk.files, env.disk.sources, snapshot, groups);
    }

    /** The part of a run that is tried; whatever fails in it ends it. */
    method Attempt(c: Change, runId: string, m: Machine, ghost n: nat, ghost base: nat)
      returns (ok: bool, snapshot: Option<Snapshot>, started: bool, ghost groups: seq<Group>, ghost done: seq<Call>)
      requires m.Valid() && Numbered(m) && m.path == [Applying] && |env.journal| == n
      requires TakenInOrder(c, base) && |env.acquired| == base + 1
      modifies m, env`journal, env`acquired, env`held, env`calls, env.disk`files, env.disk`replaced, env.disk`faults
      ensures m.Valid() && Numbered(m) && LoggedFrom(env.journal, n, m.path) && Ahead(m)
      ensures old(env.journal) <= env.journal && old(env.acquired) <= env.acquired && TakenInOrder(c, base)
      ensures Together(old(env.acquired), old(env.held))
      ensures snapshot.Some? ==> IdsOf(snapshot.value) == c.sourceIds && Locked(env.held, snapshot.value) &&
                                 Consistent(snapshot.value) && AsExpected(c.items, snapshot.value)
      ensures ok ==> RecordedLast(m, c, runId, Completed) && env.disk.replaced == old(env.disk.replaced) + SourceIdsOf(groups)
      ensures m.current == Completed ==> snapshot.Some? && GroupsOf(c.items) == Some(groups) &&
                                         Rewritten(env.disk.files, env.disk.sources, snapshot.value, groups)
      ensures snapshot.None? ==> !started
      ensures !started ==> env.disk.replaced == old(env.disk.replaced) &&
                           (snapshot.Some? ==> Holds(env.disk.files, snapshot.value))
      ensures env.calls == old(env.calls) + done && Attempted(c, runId, done, ok)
      ensures started <==> Started(c, runId, done)
    {
      started, groups := false, [];
      ok, snapshot, done := Prepare(c, runId, m, n, base);
      if !ok {
        AttemptedLess(c, runId, done);
        return;
      }
      SnapshotConsistent(snapshot.value, env.disk.files);
      ghost var front, more := done, [];
      ok, started, groups, more := WriteAndFinish(c, runId, m, snapshot.value, n);
      AttemptedMore(c, runId, front, more, ok, started);
      Associate(old(env.calls), front, more);
      done := front + more;
    }

    lemma {:induction false} SnapshotConsistent(snapshot: Snapshot, files: map<string, string>)
      requires Holds(files, snapshot)
      ensures Consistent(snapshot)
    {
      forall i, j | 0 <= i < |snapshot| && 0 <= j < |snapshot| && snapshot[i].0 == snapshot[j].0
        ensures snapshot[i].1 == snapshot[j].1
      {
        assert HoldsOne(files, snapshot[i]) && HoldsOne(files, snapshot[j]);
      }
    }

    /** What happens after a failure. */
    method Recover(c: Change, runId: string, m: Machine, snapshot: Option<Snapshot>, started: bool, ghost groups: seq<Group>,
                   ghost n: nat) returns (r: Result<Outcome, ErrorCode>, ghost undone: seq<Call>, ghost told: seq<Call>)
      requires m.Valid() && Numbered(m) && LoggedFrom(env.journal, n, m.path) && Ahead(m)
      requires snapshot.Some? ==> Locked(env.held, snapshot.value) && Consistent(snapshot.value)
      requires !started && snapshot.Some? ==> Holds(env.disk.files, snapshot.value)
      requires m.current == Completed ==> snapshot.Some? && Rewritten(env.disk.files, env.disk.sources, snapshot.value, groups)
      modifies m, env`journal, env`reported, env`calls, env.disk`files, env.disk`replaced, env.disk`faults
      ensures m.Valid() && LoggedFrom(env.journal, n, m.path) && old(env.journal) <= env.journal && old(m.path) <= m.path
      ensures r == Ok(RolledBackRun) ==> RecordedLast(m, c, runId, RolledBack) &&
                                         (snapshot.Some? ==> Holds(env.disk.files, snapshot.value))
      ensures snapshot.None? ==> env.disk.replaced == old(env.disk.replaced)
      ensures old(m.current) == Completed ==> r != Ok(RolledBackRun) && m.current == Completed &&
                                              Rewritten(env.disk.files, env.disk.sources, snapshot.value, groups)
      ensures m.current == Completed ==> old(m.current) == Completed
      ensures env.calls == old(env.calls) + undone + told
      ensures var at := |old(m.path)|;
              Ending(c, runId, r, undone, told, if started && snapshot.Some? then UndoSteps(c, runId, snapshot.value, at)
                                                else NothingSteps(c, runId, at), at, old(m.current) == Completed)
    {
      ghost var before := env.disk.files;
      if snapshot.None? || !started {
        r, undone, told := RollBackNothing(m, c, runId, n);
      } else {
        r, undone, told := RollBack(m, c, runId, snapshot.value, n);
      }
      if snapshot.Some? && HeldSame(env.held, before, env.disk.files) {
        if !started { HoldsKept(env.held, before, env.disk.files, snapshot.value); }
        if m.current == Completed { RewrittenKept(env.held, before, env.disk.files, env.disk.sources, snapshot.value, groups); }
      }
    }

    /** Call every release in reverse order; a release that throws does not stop the others. */
    method ReleaseAll(releases: seq<Lock>, ghost others: seq<Lock>)
      requires env.held == others + releases
      modifies env`released, env`held, env.disk`files
      ensures env.released == old(env.released) + Reversed(releases) && env.held == others
    {
      var left := releases;
      while left != []
        invariant env.released + Reversed(left) == old(env.released) + Reversed(releases)
        invariant env.held == others + left
      {
        var l := left[|left| - 1];
        env.Release(l);
        left := left[..|left| - 1];
      }
    }

    /** Committed: the whole path was walked, its last record is written, and every touched source was written once. */
    ghost predicate Committed(c: Change, runId: string, path: seq<State>, groups: seq<Group>, replaced: seq<string>,
                              before: nat)
      reads env`journal
    {
      path == Forward() && env.journal != [] &&
      env.journal[|env.journal| - 1] == ApplyEvent(c.changeId, runId, Completed, 5) &&
      before <= |replaced| && replaced[before..] == SourceIdsOf(groups)
    }

    /** Rolled back: no source was written, or every snapshotted source holds its snapshotted bytes again. */
    ghost predicate WasRolledBack(c: Change, runId: string, path: seq<State>, snapshot: Option<Snapshot>,
                                  files: map<string, string>, replaced: seq<string>, before: nat)
      reads env`journal
    {
      path != [] && path[|path| - 1] == RolledBack && env.journal != [] &&
      env.journal[|env.journal| - 1] == ApplyEvent(c.changeId, runId, RolledBack, |path| - 1) &&
      if snapshot.None? then |replaced| == before else Holds(files, snapshot.value)
    }

    /** Once the machine is completed, every touched source holds its snapshotted bytes with all its operations. */
    ghost predicate Done(c: Change, path: seq<State>, snapshot: Option<Snapshot>, groups: seq<Group>, files: map<string, string>)
    {
      path != [] && path[|path| - 1] == Completed ==>
        snapshot.Some? && GroupsOf(c.items) == Some(groups) && Rewritten(files, env.disk.sources, snapshot.value, groups)
    }

    /** The calls of a run: the tried part, and for a run that was not completed how it ended. */
    ghost predicate Traced(c: Change, runId: string, r: Result<Outcome, ErrorCode>, path: seq<State>, snapshot: Option<Snapshot>,
                           t: Trace)
      reads env`reported
    {
      Attempted(c, runId, t.tried, r == Ok(CompletedRun)) && t.at <= |path| && path[..t.at] <= Forward() &&
      if r == Ok(CompletedRun) then t.undone == [] && t.told == []
      else Ending(c, runId, r, t.undone, t.told, ToUndo(c, runId, snapshot, t), t.at, t.at == |Forward()|)
    }

    /** How a run went: its states, its snapshot, writes and calls, and the files just before its locks were released. */
    ghost predicate RunPromise(c: Change, runId: string, r: Result<Outcome, ErrorCode>, path: seq<State>,
                               snapshot: Option<Snapshot>, groups: seq<Group>, files: map<string, string>,
                               replaced: seq<string>, before: nat, events: nat, t: Trace)
      reads env`journal, env`reported
    {
      IsPath(path) && LoggedFrom(env.journal, events, path) && Traced(c, runId, r, path, snapshot, t) &&
      (snapshot.Some? ==> IdsOf(snapshot.value) == c.sourceIds && AsExpected(c.items, snapshot.value)) &&
      Done(c, path, snapshot, groups, files) &&
      match r
      case Ok(CompletedRun) => Committed(c, runId, path, groups, replaced, before)
      case Ok(RolledBackRun) => WasRolledBack(c, runId, path, snapshot, files, replaced, before)
      case Ok(RollbackFailedRun) => runId in env.reported
      case Err(e) => e == CallbackFailed
    }

    /** The end of a run: it is completed, or it recovers from its failure. */
    method Conclude(c: Change, runId: string, m: Machine, done: bool, snapshot: Option<Snapshot>, started: bool,
                    ghost groups: seq<Group>, ghost n: nat, ghost before: nat, ghost tried: seq<Call>)
      returns (r: Result<Outcome, ErrorCode>, ghost t: Trace)
      requires m.Valid() && Numbered(m) && LoggedFrom(env.journal, n, m.path) && Ahead(m)
      requires snapshot.Some? ==> IdsOf(snapshot.value) == c.sourceIds && Locked(env.held, snapshot.value) &&
                                  Consistent(snapshot.value) && AsExpected(c.items, snapshot.value)
      requires done ==> RecordedLast(m, c, runId, Completed) && before <= |env.disk.replaced| &&
                        env.disk.replaced[before..] == SourceIdsOf(groups)
      requires m.current == Completed ==> snapshot.Some? && GroupsOf(c.items) == Some(groups) &&
                                          Rewritten(env.disk.files, env.disk.sources, snapshot.value, groups)
      requires snapshot.None? ==> !started
      requires !started ==> |env.disk.replaced| == before && (snapshot.Some? ==> Holds(env.disk.files, snapshot.value))
      requires Attempted(c, runId, tried, done) && (started <==> Started(c, runId, tried))
      modifies m, env`journal, env`reported, env`calls, env.disk`files, env.disk`replaced, env.disk`faults
      ensures old(env.journal) <= env.journal && t.tried == tried && env.calls == old(env.calls) + t.undone + t.told
      ensures RunPromise(c, runId, r, m.path, snapshot, groups, env.disk.files, env.disk.replaced, before, n, t)
    {
      ghost var at := |m.path|;
      AtEnd(m);
      if done {
        r, t := Ok(CompletedRun), Trace(tried, at, [], []);
        CommittedPath(m.path);
      } else {
        ghost var undone, told;
        r, undone, told := Recover(c, runId, m, snapshot, started, groups, n);
        t := Trace(tried, at, undone, told);
      }
    }

    lemma {:induction false} AtEnd(m: Machine)
      requires m.Valid() && Ahead(m)
      ensures m.current == Completed <==> |m.path| == |Forward()|
    {
      assert m.path == Forward()[..|m.path|];
    }

    /** A run with its machine. */
    method RunMachine(c: Change, runId: string, m: Machine, ghost base: nat)
      returns (r: Result<Outcome, ErrorCode>, ghost snapshot: Option<Snapshot>, ghost groups: seq<Group>, ghost t: Trace)
      requires m.Valid() && Numbered(m) && m.path == [Applying]
      requires TakenInOrder(c, base) && |env.acquired| == base + 1
      modifies m, env`journal, env`acquired, env`held, env`reported, env`calls, env.disk`files, env.disk`replaced, env.disk`faults
      ensures old(env.journal) <= env.journal && old(env.acquired) <= env.acquired && TakenInOrder(c, base)
      ensures Together(old(env.acquired), old(env.held))
      ensures RunPromise(c, runId, r, m.path, snapshot, groups, env.disk.files, env.disk.replaced, |old(env.disk.replaced)|,
                         |old(env.journal)|, t)
      ensures env.calls == old(env.calls) + Calls(t)
    {
      ghost var n, tried := |env.journal|, [];
      var ok, captured, started;
      ok, captured, started, groups, tried := Attempt(c, runId, m, n, base);
      snapshot := captured;
      r, t := Conclude(c, runId, m, ok, captured, started, groups, n, |old(env.disk.replaced)|, tried);
      Associate(old(env.calls), tried, t.undone);
      Associate(old(env.calls), tried + t.undone, t.told);
    }

    /** A run once its application lock is held. */
    method RunLocked(c: Change, runId: string, ghost base: nat)
      returns (r: Result<Outcome, ErrorCode>, ghost path: seq<State>, ghost snapshot: Option<Snapshot>, ghost groups: seq<Group>,
               ghost t: Trace)
      requires TakenInOrder(c, base) && |env.acquired| == base + 1
      modifies env`journal, env`acquired, env`held, env`reported, env`calls, env.disk`files, env.disk`replaced, env.disk`faults
      ensures old(env.journal) <= env.journal && old(env.acquired) <= env.acquired && TakenInOrder(c, base)
      ensures Together(old(env.acquired), old(env.held))
      ensures RunPromise(c, runId, r, path, snapshot, groups, env.disk.files, env.disk.replaced, |old(env.disk.replaced)|,
                         |old(env.journal)|, t)
      ensures env.calls == old(env.calls) + Calls(t)
    {
      var m := new StateMachine<EventId>();
      r, snapshot, groups, t := RunMachine(c, runId, m, base);
      path := m.path;
    }

    /** Take the application lock and run. */
    method TakeAndRun(c: Change, runId: string)
      returns (r: Result<Outcome, ErrorCode>, ghost path: seq<State>, ghost snapshot: Option<Snapshot>, ghost groups: seq<Group>,
               ghost t: Trace)
      modifies env`journal, env`acquired, env`held, env`reported, env`calls, env.disk`files, env.disk`replaced, env.disk`faults
      ensures path == [] ==> r == Err(PreconditionFailed) && env.disk.replaced == old(env.disk.replaced) &&
                             env.journal == old(env.journal) && env.reported == old(env.reported) &&
                             env.calls == old(env.calls) + [Call(Take(L.AppLock(c.appId)), false)]
      ensures path != [] ==> RunPromise(c, runId, r, path, snapshot, groups, env.disk.files, env.disk.replaced,
                                        |old(env.disk.replaced)|, |old(env.journal)|, t) &&
                             env.calls == old(env.calls) + [Call(Take(L.AppLock(c.appId)), true)] + Calls(t)
      ensures old(env.acquired) <= env.acquired && TakenInOrder(c, |old(env.acquired)|)
      ensures Together(old(env.acquired), old(env.held))
    {
      path, snapshot, groups, t := [], None, [], Trace([], 0, [], []);
      var held := |env.acquired|;
      var locked := env.Acquire(L.AppLock(c.appId));
      if !locked { return Err(PreconditionFailed), path, snapshot, groups, t; }
      assert env.journal == old(env.journal) && env.disk.replaced == old(env.disk.replaced);
      r, path, snapshot, groups, t := RunLocked(c, runId, held);
      HeldThen(old(env.acquired), old(env.held), L.AppLock(c.appId), env.acquired, env.held);
    }

    /** A run that is not rejected: take the application lock, run, and release every lock that was taken. */
    method RunActive(c: Change, runId: string)
      returns (r: Result<Outcome, ErrorCode>, ghost path: seq<State>, ghost snapshot: Option<Snapshot>,
               ghost groups: seq<Group>, ghost files: map<string, string>, ghost t: Trace)
      modifies env`journal, env`acquired, env`released, env`held, env`reported, env`calls, env.disk`files, env.disk`replaced,
               env.disk`faults
      ensures path == [] ==> r == Err(PreconditionFailed) && env.disk.replaced == old(env.disk.replaced) &&
                             env.journal == old(env.journal) && env.reported == old(env.reported) &&
                             env.calls == old(env.calls) + [Call(Take(L.AppLock(c.appId)), false)]
      ensures path != [] ==> RunPromise(c, runId, r, path, snapshot, groups, files, env.disk.replaced,
                                        |old(env.disk.replaced)|, |old(env.journal)|, t) &&
                             env.calls == old(env.calls) + [Call(Take(L.AppLock(c.appId)), true)] + Calls(t)
      ensures old(env.acquired) <= env.acquired && TakenInOrder(c, |old(env.acquired)|)
      ensures env.released == old(env.released) + Reversed(env.acquired[|old(env.acquired)|..]) && env.held == old(env.held)
    {
      ghost var others := env.held;
      var held := |env.acquired|;
      r, path, snapshot, groups, t := TakeAndRun(c, runId);
      files := env.disk.files;
      ReleaseAll(env.acquired[held..], others);
    }

    /**
     One apply run. A rejected run leaves no trace; every other one keeps RunPromise. Locks are taken in the order of the
     change's plan, and every lock that was acquired is released, once and in reverse order, on every path.
     */
    method PerformApply(changeId: string, runId: string, digest: string, now: int)
      returns (r: Result<Outcome, ErrorCode>, ghost path: seq<State>, ghost snapshot: Option<Snapshot>,
               ghost groups: seq<Group>, ghost files: map<string, string>, ghost unread: bool, ghost t: Trace)
      modifies this`active, env`journal, env`acquired, env`released, env`held, env`reported, env`calls, env.disk`files,
               env.disk`replaced, env.disk`faults
      ensures path == [] ==> r.Err? && env.disk.replaced == old(env.disk.replaced) && env.journal == old(env.journal) &&
                             env.reported == old(env.reported)
      ensures path != [] ==>
                changeId in env.staged &&
                RunPromise(env.staged[changeId], runId, r, path, snapshot, groups, files, env.disk.replaced,
                           |old(env.disk.replaced)|, |old(env.journal)|, t)
      ensures old(env.acquired) <= env.acquired
      ensures env.acquired == old(env.acquired) ||
              (changeId in env.staged && TakenInOrder(env.staged[changeId], |old(env.acquired)|))
      ensures env.released == old(env.released) + Reversed(env.acquired[|old(env.acquired)|..]) && env.held == old(env.held)
      // Unless the change was not read, its application's mark is gone in the end, also that of a run that is still active.
      // This is what the call itself does to the marks; those that other runs set or remove at its awaits come on top.
      ensures unread || changeId in env.staged
      ensures active == if unread then old(active) else old(active) - {env.staged[changeId].appId}
      // A change is unread when reading it failed, or when there is none.
      ensures unread ==> path == [] && if r == Err(StagedChangeNotFound) then changeId !in env.staged else r == Err(PreconditionFailed)
      ensures unread ==> env.calls == old(env.calls) + [Call(Fetch(changeId), r == Err(StagedChangeNotFound))]
      ensures !unread ==>
                var c := env.staged[changeId];
                var refusal := Refusal(c, digest, now, c.appId in old(active));
                var fetched, app := [Call(Fetch(changeId), true)], Take(L.AppLock(c.appId));
                if refusal.Some? then path == [] && r == Err(refusal.value) && env.calls == old(env.calls) + fetched
                else if path == [] then r == Err(PreconditionFailed) && env.calls == old(env.calls) + fetched + [Call(app, false)]
                else env.calls == old(env.calls) + fetched + [Call(app, true)] + Calls(t)
    {
      path, snapshot, groups, files, unread, t := [], None, [], map[], true, Trace([], 0, [], []);
      assert env.acquired[|env.acquired|..] == [];
      var staged := env.ReadStaged(changeId);
      if staged.Err? { return Err(PreconditionFailed), path, snapshot, groups, files, unread, t; }
      if staged.value.None? { return Err(StagedChangeNotFound), path, snapshot, groups, files, unread, t; }
      unread := false;
      var c := staged.value.value;
      if c.digest != digest {
        r := Err(DigestMismatch);
      } else if c.expiresAt <= now {
        r := Err(Expired);
      } else if c.appId in active {
        r := Err(AlreadyRunning);
      } else {
        active := active + {c.appId};
        r, path, snapshot, groups, files, t := RunActive(c, runId);
      }
      active := active - {c.appId};
    }
  }

  /** Why a change that was read is not run. */
  function Refusal(c: Change, digest: string, now: int, running: bool): Option<ErrorCode> {
    if c.digest != digest then Some(DigestMismatch)
    else if c.expiresAt <= now then Some(Expired)
    else if running then Some(AlreadyRunning)
    else None
  }

  lemma {:induction false} CommittedPath(path: seq<State>)
    requires IsPath(path) && path[|path| - 1] == Completed
    ensures path == Forward()
  {
    PathShape(path);
    if path <= Forward() { assert path == Forward()[..|path|]; }
  }
}
