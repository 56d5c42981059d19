/**
 Recovery after a crash: every run that the journal shows unfinished is resumed, and a crash may come again at any step.
 The journal keeps one record per run.
 */
module Recovery {
  import opened Wrappers
  import opened ApplyMachine
  import opened Snapshots

  datatype Record = Record(runId: string, changeId: string, appId: string, state: State, hasWrites: bool)

  // ----- the journal -------------------------------------------------------------

  function RecordOf(journal: seq<Record>, runId: string): Option<Record> {
    if journal == [] then None else if journal[0].runId == runId then Some(journal[0]) else RecordOf(journal[1..], runId)
  }

  function Without(journal: seq<Record>, runId: string): seq<Record> {
    if journal == [] then []
    else if journal[0].runId == runId then Without(journal[1..], runId) else [journal[0]] + Without(journal[1..], runId)
  }

  predicate OnePerRun(journal: seq<Record>) {
    journal == [] || (RecordOf(journal[1..], journal[0].runId).None? && OnePerRun(journal[1..]))
  }

  /** States from which on a run may have changed a source. */
  predicate MayHaveWritten(s: State) { s !in {Applying, Snapshotted} }

  /** The journal after an event: the run's record is replaced, and that it has writes is never forgotten. */
  function Recorded(journal: seq<Record>, runId: string, changeId: string, appId: string, state: State): seq<Record> {
    var existing := RecordOf(journal, runId);
    var written := (existing.Some? && existing.value.hasWrites) || MayHaveWritten(state);
    Without(journal, runId) + [Record(runId, changeId, appId, state, written)]
  }

  lemma {:induction false} FindAfterWithout(journal: seq<Record>, last: Record, runId: string)
    ensures RecordOf(Without(journal, last.runId) + [last], runId) ==
            if runId == last.runId then Some(last) else RecordOf(journal, runId)
  {
    if journal != [] {
      FindAfterWithout(journal[1..], last, runId);
      var rest := Without(journal[1..], last.runId) + [last];
      if journal[0].runId != last.runId {
        assert Without(journal, last.runId) + [last] == [journal[0]] + rest;
        assert ([journal[0]] + rest)[1..] == rest;
      }
    }
  }

  lemma {:induction false} WithoutKeepsOne(journal: seq<Record>, last: Record)
    requires OnePerRun(journal)
    ensures OnePerRun(Without(journal, last.runId) + [last])
  {
    if journal != [] {
      WithoutKeepsOne(journal[1..], last);
      var rest := Without(journal[1..], last.runId) + [last];
      if journal[0].runId != last.runId {
        FindAfterWithout(journal[1..], last, journal[0].runId);
        assert Without(journal, last.runId) + [last] == [journal[0]] + rest;
        assert ([journal[0]] + rest)[1..] == rest;
      }
    }
  }

  /** An event changes its own run's record only, keeps one record per run, and never loses that a run has writes. */
  lemma {:induction false} RecordedIs(journal: seq<Record>, runId: string, changeId: string, appId: string, state: State,
                                      other: string)
    requires OnePerRun(journal)
    ensures var after := Recorded(journal, runId, changeId, appId, state);
            OnePerRun(after) && (other != runId ==> RecordOf(after, other) == RecordOf(journal, other)) &&
            RecordOf(after, runId).Some? && RecordOf(after, runId).value.state == state &&
            RecordOf(after, runId).value.appId == appId &&
            (MayHaveWritten(state) ==> RecordOf(after, runId).value.hasWrites) &&
            (RecordOf(journal, runId).Some? && RecordOf(journal, runId).value.hasWrites ==>
               RecordOf(after, runId).value.hasWrites)
  {
    var existing := RecordOf(journal, runId);
    var last := Record(runId, changeId, appId, state,
                       (existing.Some? && existing.value.hasWrites) || MayHaveWritten(state));
    FindAfterWithout(journal, last, runId);
    FindAfterWithout(journal, last, other);
    WithoutKeepsOne(journal, last);
  }

  /** Applications that the journal says are blocked. */
  function FailedApps(journal: seq<Record>): set<string> {
    if journal == [] then {}
    else (if journal[0].state == RollbackFailed then {journal[0].appId} else {}) + FailedApps(journal[1..])
  }

  lemma {:induction false} FailedAppsOf(journal: seq<Record>, runId: string)
    requires RecordOf(journal, runId).Some? && RecordOf(journal, runId).value.state == RollbackFailed
    ensures RecordOf(journal, runId).value.appId in FailedApps(journal)
  {
    if journal[0].runId != runId { FailedAppsOf(journal[1..], runId); }
  }

  // ----- what crashes keep -------------------------------------------------------

  /** A run that had writes when it crashed: it is unfinished still, or rolled back with its sources restored, or failed. */
  predicate RunRight(journal: seq<Record>, files: map<string, string>, runId: string, snapshot: Snapshot, appId: string) {
    var rec := RecordOf(journal, runId);
    rec.Some? && rec.value.hasWrites && rec.value.state != Completed && rec.value.appId == appId &&
    (rec.value.state == RolledBack ==> Holds(files, snapshot))
  }

  /** What survives a crash, what this process has blocked, and the runs whose rollback it saw fail. */
  datatype View = View(files: map<string, string>, journal: seq<Record>, blocked: set<string>, failed: set<string>)

  /** What a resumed run may change: its snapshot, or for a run without writes the sources of its change. Some runs build. */
  datatype Setting = Setting(scope: map<string, Snapshot>, appOf: map<string, string>, builds: set<string>)

  /** Runs in progress at the same time belong to different applications, which share no source. */
  ghost predicate Sound(c: Setting) {
    c.scope.Keys == c.appOf.Keys && (forall r :: r in c.scope ==> Consistent(c.scope[r])) &&
    (forall r, q :: r in c.scope && q in c.scope && q != r ==> Apart(c.scope[r], c.scope[q]))
  }

  /** The journal is in order, and the tracked runs, which had writes when they crashed, are right. */
  ghost predicate Right(c: Setting, v: View, tracked: set<string>) {
    Sound(c) && OnePerRun(v.journal) &&
    (forall q :: RecordOf(v.journal, q).Some? ==> q in c.scope && RecordOf(v.journal, q).value.appId == c.appOf[q]) &&
    (forall r :: r in tracked ==> r in c.scope && RunRight(v.journal, v.files, r, c.scope[r], c.appOf[r]))
  }

  predicate InState(journal: seq<Record>, r: string, state: State) {
    RecordOf(journal, r).Some? && RecordOf(journal, r).value.state == state
  }

  /**
   A run has come to its end: rolled back with every snapshotted source restored, or its own rollback failed and its
   application is blocked.
   */
  predicate Converged(c: Setting, v: View, r: string) {
    r in c.scope && r in c.appOf &&
    ((InState(v.journal, r, RolledBack) && Holds(v.files, c.scope[r])) ||
     ((InState(v.journal, r, RollbackFailed) || r in v.failed) && c.appOf[r] in v.blocked))
  }

  /** A run is over: its end is on record, or it ended as failed in this process; a failed one's application is blocked. */
  predicate Over(c: Setting, v: View, r: string) {
    r in c.appOf &&
    (InState(v.journal, r, RolledBack) || InState(v.journal, r, Completed) ||
     ((InState(v.journal, r, RollbackFailed) || r in v.failed) && c.appOf[r] in v.blocked))
  }

  predicate IsUnfinished(journal: seq<Record>, q: string) {
    RecordOf(journal, q).Some? && !IsTerminal(RecordOf(journal, q).value.state)
  }

  /** Runs that a pass over the journal resumes: unfinished ones, each once, and all of them when it finishes. */
  ghost predicate ResumedOnce(journal: seq<Record>, runs: seq<string>, finished: bool) {
    (forall i, j :: 0 <= i < j < |runs| ==> runs[i] != runs[j]) &&
    (forall q :: q in runs ==> IsUnfinished(journal, q)) &&
    (finished ==> forall q :: IsUnfinished(journal, q) ==> q in runs)
  }

  /** What one resume may touch: its own run's record and sources. */
  ghost predicate OnlyRun(c: Setting, v: View, w: View, r: string) {
    (forall q :: q != r ==> RecordOf(w.journal, q) == RecordOf(v.journal, q)) &&
    r in c.scope && r in c.appOf && SameOutside(v.files, w.files, c.scope[r]) && v.blocked <= w.blocked && v.failed <= w.failed &&
    OnePerRun(w.journal) && (RecordOf(w.journal, r).Some? ==> RecordOf(w.journal, r).value.appId == c.appOf[r])
  }

  /** Another tracked run stays right, and stays converged, when one run is resumed. */
  lemma {:induction false} OtherKept(c: Setting, v: View, w: View, tracked: set<string>, r: string, q: string)
    requires Right(c, v, tracked) && OnlyRun(c, v, w, r) && q in tracked && q != r
    ensures RunRight(w.journal, w.files, q, c.scope[q], c.appOf[q])
    ensures Converged(c, v, q) ==> Converged(c, w, q)
  {
    assert RunRight(v.journal, v.files, q, c.scope[q], c.appOf[q]);
    ApartKeeps(v.files, w.files, c.scope[q], c.scope[r]);
  }

  lemma {:induction false} AllKept(c: Setting, v: View, w: View, tracked: set<string>, r: string)
    requires Right(c, v, tracked) && OnlyRun(c, v, w, r)
    requires r in tracked ==> RunRight(w.journal, w.files, r, c.scope[r], c.appOf[r])
    ensures Right(c, w, tracked)
  {
    forall q | q in tracked
      ensures RunRight(w.journal, w.files, q, c.scope[q], c.appOf[q])
    {
      if q != r { OtherKept(c, v, w, tracked, r, q); }
    }
  }

  datatype Effect = Fine | Failed | Crashed

  datatype Resumed = Ended(state: State) | Rejected | Died

  /** How a resumed run ends when nothing goes wrong. */
  function Due(record: Record): State { if record.hasWrites then RolledBack else Completed }

  /** The agent's durable files and journal, and the applications blocked in this process. */
  class Agent {
    const setting: Setting
    var files: map<string, string>
    var journal: seq<Record>
    var blocked: set<string>
    /** Runs whose rollback failed in this process, and the runs that were resumed, in order. */
    ghost var failed: set<string>
    ghost var resumed: seq<string>
    /** How often a record, a restore or a check failed, a snapshot could not be read, a run did not commit, or the process died. */
    ghost var faults: nat
    /** Runs whose build was rolled back in this process. */
    ghost var undone: set<string>

    constructor (setting: Setting, files: map<string, string>, journal: seq<Record>)
      ensures this.setting == setting && Now() == View(files, journal, {}, {}) && resumed == [] && faults == 0
    {
      this.setting, this.files, this.journal, blocked, failed, resumed := setting, files, journal, {}, {}, [];
      faults, undone := 0, {};
    }

    ghost function Now(): View
      reads this
    {
      View(files, journal, blocked, failed)
    }

    /** A new process reads the journal: what it says is blocked is blocked. */
    method Restart()
      modifies this`blocked, this`failed
      ensures blocked == FailedApps(journal) && failed == {}
    {
      blocked, failed := FailedApps(journal), {};
    }

    /** Something was tried. */
    ghost method Attempted(e: Effect)
      modifies this`faults
      ensures faults == if e.Fine? then old(faults) else old(faults) + 1
    {
      if !e.Fine? { faults := faults + 1; }
    }

    /** Record an event; it may fail or the process may die, before or after the record is written. */
    method Persist(runId: string, changeId: string, appId: string, state: State) returns (e: Effect)
      modifies this`journal, this`blocked, this`faults
      ensures blocked == old(blocked) + FailedApps(old(journal))
      ensures faults == if e.Fine? then old(faults) else old(faults) + 1
      ensures journal == Recorded(old(journal), runId, changeId, appId, state) || (e != Fine && journal == old(journal))
    {
      // Reading the journal blocks every application with a failed rollback, again if it was cleared.
      blocked := blocked + FailedApps(journal);
      var effect: bool := *;
      e := *;
      Attempted(e);
      if e.Fine? || effect { journal := Recorded(journal, runId, changeId, appId, state); }
    }

    method Restore(entry: (string, string)) returns (e: Effect)
      modifies this`files, this`faults
      ensures files == old(files)[entry.0 := entry.1] || (e != Fine && files == old(files))
      ensures faults == if e.Fine? then old(faults) else old(faults) + 1
    {
      var effect: bool := *;
      e := *;
      Attempted(e);
      if e.Fine? || effect { files := files[entry.0 := entry.1]; }
    }

    /** Roll the build of a run back. */
    method UndoBuild(r: string) returns (e: Effect)
      modifies this`faults, this`undone
      ensures faults == if e.Fine? then old(faults) else old(faults) + 1
      ensures undone == if e.Fine? then old(undone) + {r} else old(undone)
    {
      e := *;
      Attempted(e);
      if e.Fine? { undone := undone + {r}; }
    }

    method RestoreAll(snapshot: Snapshot) returns (e: Effect)
      requires Consistent(snapshot)
      modifies this`files, this`faults
      ensures if e.Fine? then Holds(files, snapshot) && faults == old(faults) else faults > old(faults)
      ensures SameOutside(old(files), files, snapshot)
    {
      for k := 0 to |snapshot|
        invariant forall i :: 0 <= i < k ==> HoldsOne(files, snapshot[i])
        invariant SameOutside(old(files), files, snapshot) && faults == old(faults)
      {
        assert Covers(snapshot, snapshot[k].0);
        e := Restore(snapshot[k]);
        if !e.Fine? { return; }
      }
      e := Fine;
    }

    /** Record an event of a run. */
    method PersistFor(r: string, changeId: string, state: State) returns (e: Effect)
      requires OnePerRun(journal) && r in setting.scope && r in setting.appOf
      requires RecordOf(journal, r).Some? ==> RecordOf(journal, r).value.appId == setting.appOf[r]
      modifies this`journal, this`blocked, this`faults
      ensures OnlyRun(setting, old(Now()), Now(), r) && files == old(files)
      ensures faults == if e.Fine? then old(faults) else old(faults) + 1
      ensures (RecordOf(journal, r) == old(RecordOf(journal, r)) && !e.Fine?) ||
              (RecordOf(journal, r).Some? && RecordOf(journal, r).value.state == state &&
               RecordOf(journal, r).value.appId == setting.appOf[r])
      ensures old(RecordOf(journal, r)).Some? && old(RecordOf(journal, r)).value.hasWrites ==>
                RecordOf(journal, r).Some? && RecordOf(journal, r).value.hasWrites
    {
      ghost var before := journal;
      e := Persist(r, changeId, setting.appOf[r], state);
      forall q
        ensures q != r ==> RecordOf(journal, q) == RecordOf(before, q)
      {
        RecordedIs(before, r, changeId, setting.appOf[r], state, q);
      }
      RecordedIs(before, r, changeId, setting.appOf[r], state, r);
    }

    /** Unless something went wrong, the resume ends and the run's end is on record. */
    ghost predicate Faultless(before: nat, end: Resumed, state: State, r: string)
      reads this
    {
      before <= faults && (faults == before ==> end == Ended(state) && InState(journal, r, state))
    }

    /** What the resume of a run with writes reports: rolled back and recorded so, or this very rollback failed. */
    ghost predicate EndedIn(end: Resumed, r: string)
      reads this
    {
      end.Ended? && if end.state == RolledBack then InState(journal, r, RolledBack) else end.state == RollbackFailed && r in failed
    }

    /** Resume a run that may have written: roll it back. */
    method ResumeWritten(r: string, changeId: string, ghost tracked: set<string>) returns (end: Resumed)
      requires Right(setting, Now(), tracked) && r in tracked && !IsTerminal(RecordOf(journal, r).value.state)
      modifies this`files, this`journal, this`blocked, this`failed, this`resumed, this`faults, this`undone
      ensures OnlyRun(setting, old(Now()), Now(), r) && Right(setting, Now(), tracked) && resumed == old(resumed) + [r]
      ensures end.Ended? ==> Converged(setting, Now(), r) && EndedIn(end, r)
      ensures Faultless(old(faults), end, RolledBack, r) && old(undone) <= undone
      ensures end == Ended(RolledBack) && r in setting.builds ==> r in undone
    {
      ghost var before := Now();
      resumed := resumed + [r];
      end := RollBack(r, changeId, tracked);
      AllKept(setting, before, Now(), tracked, r);
    }

    method RollBack(r: string, changeId: string, ghost tracked: set<string>) returns (end: Resumed)
      requires Right(setting, Now(), tracked) && r in tracked && !IsTerminal(RecordOf(journal, r).value.state)
      modifies this`files, this`journal, this`blocked, this`failed, this`faults, this`undone
      ensures OnlyRun(setting, old(Now()), Now(), r)
      ensures RunRight(journal, files, r, setting.scope[r], setting.appOf[r])
      ensures end.Ended? ==> Converged(setting, Now(), r) && EndedIn(end, r)
      ensures Faultless(old(faults), end, RolledBack, r) && old(undone) <= undone
      ensures end == Ended(RolledBack) && r in setting.builds ==> r in undone
    {
      var found: Effect := *;
      Attempted(found);
      if !found.Fine? { return Rejected; }
      var e := PutBack(r, changeId, tracked);
      if e.Fine? { return Ended(RolledBack); }
      if e.Crashed? { return Died; }
      e := PersistFor(r, changeId, RollbackFailed);
      if e.Crashed? { return Died; }
      blocked, failed := blocked + {setting.appOf[r]}, failed + {r};
      return Ended(RollbackFailed);
    }

    /** Put a run's sources back and roll its build back, between the two records that say so. */
    method PutBack(r: string, changeId: string, ghost tracked: set<string>) returns (e: Effect)
      requires Right(setting, Now(), tracked) && r in tracked && !IsTerminal(RecordOf(journal, r).value.state)
      modifies this`files, this`journal, this`blocked, this`faults, this`undone
      ensures OnlyRun(setting, old(Now()), Now(), r) && RunRight(journal, files, r, setting.scope[r], setting.appOf[r])
      ensures if e.Fine? then faults == old(faults) && InState(journal, r, RolledBack) && (r in setting.builds ==> r in undone)
              else faults > old(faults)
      ensures old(undone) <= undone
    {
      e := PersistFor(r, changeId, RollingBack);
      if e.Fine? { e := RestoreAll(setting.scope[r]); }
      if e.Fine? && r in setting.builds { e := UndoBuild(r); }
      if e.Fine? { e := PersistFor(r, changeId, RolledBack); }
    }

    /**
     Resume a run without writes: apply it again. Whatever happens, it touches its own sources and record only; when it is
     rolled back, it leaves every source as it was, and when it failed, its application is blocked. A failed end may be off
     the record: its record is tried only, and a commit that could not be recorded counts as failed.
     */
    method ResumeUnwritten(r: string, changeId: string, ghost tracked: set<string>) returns (end: Resumed)
      requires Right(setting, Now(), tracked) && r !in tracked && r in setting.scope && r in setting.appOf
      modifies this`files, this`journal, this`blocked, this`failed, this`resumed, this`faults, this`undone
      ensures OnlyRun(setting, old(Now()), Now(), r) && Right(setting, Now(), tracked) && resumed == old(resumed) + [r]
      ensures end.Ended? ==> IsTerminal(end.state) && (end.state == RollbackFailed || InState(journal, r, end.state))
      ensures end.Ended? ==> Over(setting, Now(), r)
      ensures end == Ended(RolledBack) ==> files == old(files)
      ensures end == Ended(RollbackFailed) ==> setting.appOf[r] in blocked && r in failed
      ensures Faultless(old(faults), end, Completed, r)
    {
      ghost var before := Now();
      resumed := resumed + [r];
      var reached: bool := *;
      var e := PersistFor(r, changeId, if reached then Written else Snapshotted);
      if e.Crashed? { end := Died; } else { end := RunAgain(r, changeId); }
      AllKept(setting, before, Now(), tracked, r);
    }

    /** The run itself, and the record of its end; it is rejected when it cannot start, or when the report of its failure fails. */
    method RunAgain(r: string, changeId: string) returns (end: Resumed)
      requires OnePerRun(journal) && r in setting.scope && r in setting.appOf
      requires RecordOf(journal, r).Some? ==> RecordOf(journal, r).value.appId == setting.appOf[r]
      modifies this`files, this`journal, this`blocked, this`failed, this`faults
      ensures OnlyRun(setting, old(Now()), Now(), r)
      ensures end.Ended? ==> IsTerminal(end.state) && (end.state == RollbackFailed || InState(journal, r, end.state))
      ensures end == Ended(RolledBack) ==> files == old(files)
      ensures end == Ended(RollbackFailed) ==> setting.appOf[r] in blocked && r in failed
      ensures Faultless(old(faults), end, Completed, r)
    {
      var state := Reapply(setting.scope[r]);
      if !IsTerminal(state) { return Rejected; }
      var e := PersistFor(r, changeId, state);
      if e.Fine? && state != RollbackFailed { return Ended(state); }
      if !e.Fine? && !e.Crashed? && state == RolledBack { e := PersistFor(r, changeId, RollbackFailed); }
      if e.Crashed? { return Died; }
      blocked, failed := blocked + {setting.appOf[r]}, failed + {r};
      return Ended(RollbackFailed);
    }

    /** Applying again may write the run's sources in any way; rolled back, it has put them back. */
    method Reapply(sources: Snapshot) returns (state: State)
      modifies this`files, this`faults
      ensures SameOutside(old(files), files, sources)
      ensures faults == if state == Completed then old(faults) else old(faults) + 1
      ensures state == RolledBack ==> files == old(files)
    {
      var captured := files;
      for k := 0 to |sources|
        invariant SameOutside(captured, files, sources) && files.Keys == captured.Keys && faults == old(faults)
      {
        var written: bool, bytes: string := *, *;
        assert Covers(sources, sources[k].0);
        if written && sources[k].0 in files { files := files[sources[k].0 := bytes]; }
      }
      state := *;
      Attempted(if state == Completed then Fine else Failed);
      if state == RolledBack {
        for k := 0 to |sources|
          invariant SameOutside(captured, files, sources) && files.Keys == captured.Keys && faults == old(faults) + 1
          invariant forall i :: 0 <= i < k && sources[i].0 in captured ==> files[sources[i].0] == captured[sources[i].0]
        {
          var id := sources[k].0;
          assert Covers(sources, id);
          if id in captured { files := files[id := captured[id]]; }
        }
        forall id | id in captured
          ensures files[id] == captured[id]
        {
          if Covers(sources, id) { var i :| 0 <= i < |sources| && sources[i].0 == id; }
        }
      }
    }

    /** The first unfinished record of every run. */
    method Unfinished() returns (unique: seq<Record>)
      requires OnePerRun(journal)
      ensures forall i :: 0 <= i < |unique| ==> RecordOf(journal, unique[i].runId) == Some(unique[i]) && !IsTerminal(unique[i].state)
      ensures forall i, j :: 0 <= i < j < |unique| ==> unique[i].runId != unique[j].runId
      ensures forall q :: IsUnfinished(journal, q) ==> Listed(unique, q)
    {
      unique := [];
      var seen: set<string> := {};
      for k := 0 to |journal|
        invariant forall i :: 0 <= i < |unique| ==> unique[i].runId in seen && RecordOf(journal, unique[i].runId) == Some(unique[i]) &&
                                                    !IsTerminal(unique[i].state)
        invariant forall i, j :: 0 <= i < j < |unique| ==> unique[i].runId != unique[j].runId
        invariant forall q :: q in seen ==> Listed(unique, q)
        invariant forall j :: 0 <= j < k && !IsTerminal(journal[j].state) ==> journal[j].runId in seen
      {
        RecordAt(journal, k);
        if !IsTerminal(journal[k].state) && journal[k].runId !in seen {
          ListedMore(unique, journal[k]);
          unique := unique + [journal[k]];
          seen := seen + {journal[k].runId};
        }
      }
      forall q | IsUnfinished(journal, q)
        ensures Listed(unique, q)
      {
        RecordIn(journal, q);
      }
    }

    /**
     Resume every unfinished run once. When the pass ends, every run in the journal is over and every tracked one has
     converged; when the process dies in it, everything is still right, so that the next process can start over.
     */
    method Reconcile(ghost tracked: set<string>) returns (finished: bool)
      requires Right(setting, Now(), tracked) && FailedApps(journal) <= blocked
      requires forall q :: IsUnfinished(journal, q) ==> (q in tracked <==> RecordOf(journal, q).value.hasWrites)
      modifies this`files, this`journal, this`blocked, this`failed, this`resumed, this`faults, this`undone
      ensures Right(setting, Now(), tracked)
      ensures finished ==> forall r :: r in tracked ==> Converged(setting, Now(), r)
      ensures finished ==> forall r :: RecordOf(journal, r).Some? ==> Over(setting, Now(), r)
      ensures |old(resumed)| <= |resumed| && resumed[..|old(resumed)|] == old(resumed)
      ensures ResumedOnce(old(journal), resumed[|old(resumed)|..], finished)
      ensures old(faults) <= faults && (!finished ==> old(faults) < faults)
      ensures faults == old(faults) ==>
                forall q :: IsUnfinished(old(journal), q) ==> InState(journal, q, Due(RecordOf(old(journal), q).value))
    {
      var todo := Unfinished();
      ghost var first, before := journal, resumed;
      StartsWorking(setting, Now(), tracked, todo);
      ghost var k;
      finished, k := ResumeAll(todo, tracked);
      OnceEach(first, todo, k);
      if finished { EndsConverged(setting, Now(), tracked, todo); }
      assert resumed[|before|..] == RunIds(todo[..k]);
    }

    /** Resume the listed runs in order, until one of them does not end. */
    method ResumeAll(todo: seq<Record>, ghost tracked: set<string>) returns (finished: bool, ghost k: nat)
      requires Working(setting, Now(), tracked, todo, 0)
      modifies this`files, this`journal, this`blocked, this`failed, this`resumed, this`faults, this`undone
      ensures Right(setting, Now(), tracked)
      ensures k <= |todo| && resumed == old(resumed) + RunIds(todo[..k])
      ensures finished ==> k == |todo| && Working(setting, Now(), tracked, todo, k)
      ensures old(faults) <= faults && (!finished ==> old(faults) < faults)
      ensures faults == old(faults) ==> forall i :: 0 <= i < |todo| ==> InState(journal, todo[i].runId, Due(todo[i]))
    {
      k := 0;
      for i := 0 to |todo|
        invariant k == i && Working(setting, Now(), tracked, todo, i)
        invariant resumed == old(resumed) + RunIds(todo[..i]) && old(faults) <= faults
        invariant faults == old(faults) ==> forall j :: 0 <= j < i ==> InState(journal, todo[j].runId, Due(todo[j]))
      {
        ghost var start := Now();
        var end := Resume(todo[i], tracked);
        RunIdsMore(todo, i);
        k := i + 1;
        if !end.Ended? { return false, k; }
        StillWorking(setting, start, Now(), tracked, todo, i);
      }
      finished := true;
    }

    /** Resume one record's run. */
    method Resume(record: Record, ghost tracked: set<string>) returns (end: Resumed)
      requires Right(setting, Now(), tracked) && RecordOf(journal, record.runId) == Some(record) && !IsTerminal(record.state)
      requires record.runId in tracked <==> record.hasWrites
      modifies this`files, this`journal, this`blocked, this`failed, this`resumed, this`faults, this`undone
      ensures OnlyRun(setting, old(Now()), Now(), record.runId) && Right(setting, Now(), tracked)
      ensures resumed == old(resumed) + [record.runId]
      ensures end.Ended? && record.hasWrites ==> Converged(setting, Now(), record.runId) && EndedIn(end, record.runId)
      ensures end.Ended? ==> Over(setting, Now(), record.runId)
      ensures Faultless(old(faults), end, Due(record), record.runId)
      ensures record.hasWrites && end == Ended(RolledBack) && record.runId in setting.builds ==> record.runId in undone
    {
      if record.hasWrites {
        end := ResumeWritten(record.runId, record.changeId, tracked);
      } else {
        end := ResumeUnwritten(record.runId, record.changeId, tracked);
      }
    }

    /** The unfinished runs that had writes. */
    ghost function WithWrites(): set<string>
      reads this
    {
      set r | r in setting.scope && RecordOf(journal, r).Some? && !IsTerminal(RecordOf(journal, r).value.state) &&
              RecordOf(journal, r).value.hasWrites
    }

    /** Start over after every crash. Whenever one pass ends, every run is over, and those that had writes have converged. */
    method Recover(attempts: nat) returns (finished: bool)
      requires Right(setting, Now(), {})
      modifies this`files, this`journal, this`blocked, this`failed, this`resumed, this`faults, this`undone
      ensures Right(setting, Now(), old(WithWrites()))
      ensures finished ==> forall r :: r in old(WithWrites()) ==> Converged(setting, Now(), r)
      ensures finished ==> forall r :: RecordOf(journal, r).Some? ==> Over(setting, Now(), r)
      ensures !finished ==> faults >= old(faults) + attempts
    {
      ghost var first := WithWrites();
      for i := 0 to attempts
        invariant Right(setting, Now(), first) && faults >= old(faults) + i
      {
        Restart();
        ghost var tracked := first + WithWrites();
        finished := Reconcile(tracked);
        if finished { return; }
      }
      finished := false;
    }
  }

  function RunIds(records: seq<Record>): seq<string> {
    seq(|records|, i requires 0 <= i < |records| => records[i].runId)
  }

  /** The records that a pass has gone through. */
  lemma {:induction false} OnceEach(journal: seq<Record>, todo: seq<Record>, k: nat)
    requires k <= |todo| && forall i :: 0 <= i < |todo| ==> IsUnfinished(journal, todo[i].runId)
    requires forall i, j :: 0 <= i < j < |todo| ==> todo[i].runId != todo[j].runId
    requires forall q :: IsUnfinished(journal, q) ==> Listed(todo, q)
    ensures ResumedOnce(journal, RunIds(todo[..k]), k == |todo|)
  {
    var runs := RunIds(todo[..k]);
    forall q | k == |todo| && IsUnfinished(journal, q)
      ensures q in runs
    {
      var i :| 0 <= i < |todo| && todo[i].runId == q;
      assert runs[i] == q;
    }
  }

  lemma {:induction false} RunIdsMore(todo: seq<Record>, k: nat)
    requires k < |todo|
    ensures RunIds(todo[..k + 1]) == RunIds(todo[..k]) + [todo[k].runId]
  {
  }

  /**
   Before the k-th resume: the rest is as it was listed, and every run that is not over, or tracked and not converged, is
   in it.
   */
  ghost predicate Working(c: Setting, v: View, tracked: set<string>, todo: seq<Record>, k: nat)
    requires k <= |todo|
  {
    Right(c, v, tracked) &&
    (forall i :: k <= i < |todo| ==> RecordOf(v.journal, todo[i].runId) == Some(todo[i]) && !IsTerminal(todo[i].state)) &&
    (forall i :: 0 <= i < |todo| ==> (todo[i].runId in tracked <==> todo[i].hasWrites)) &&
    (forall i, j :: 0 <= i < j < |todo| ==> todo[i].runId != todo[j].runId) &&
    (forall r :: r in tracked && !Converged(c, v, r) ==> Listed(todo[k..], r)) &&
    (forall r :: RecordOf(v.journal, r).Some? && !Over(c, v, r) ==> Listed(todo[k..], r))
  }

  lemma {:induction false} StartsWorking(c: Setting, v: View, tracked: set<string>, todo: seq<Record>)
    requires Right(c, v, tracked) && FailedApps(v.journal) <= v.blocked
    requires forall q :: IsUnfinished(v.journal, q) ==> (q in tracked <==> RecordOf(v.journal, q).value.hasWrites)
    requires forall i :: 0 <= i < |todo| ==> RecordOf(v.journal, todo[i].runId) == Some(todo[i]) && !IsTerminal(todo[i].state)
    requires forall i, j :: 0 <= i < j < |todo| ==> todo[i].runId != todo[j].runId
    requires forall q :: IsUnfinished(v.journal, q) ==> Listed(todo, q)
    ensures Working(c, v, tracked, todo, 0)
  {
    TerminalConverged(c, v, tracked);
    assert todo[0..] == todo;
    forall r | r in tracked && !Converged(c, v, r)
      ensures Listed(todo, r)
    {
      assert RunRight(v.journal, v.files, r, c.scope[r], c.appOf[r]);
      assert IsUnfinished(v.journal, r);
    }
    forall r | RecordOf(v.journal, r).Some? && !Over(c, v, r)
      ensures Listed(todo, r)
    {
      if IsTerminal(RecordOf(v.journal, r).value.state) { TerminalOver(c, v, tracked, r); }
      assert IsUnfinished(v.journal, r);
    }
    forall i | 0 <= i < |todo|
      ensures todo[i].runId in tracked <==> todo[i].hasWrites
    {
      assert IsUnfinished(v.journal, todo[i].runId);
    }
  }

  lemma {:induction false} EndsConverged(c: Setting, v: View, tracked: set<string>, todo: seq<Record>)
    requires Working(c, v, tracked, todo, |todo|)
    ensures forall r :: r in tracked ==> Converged(c, v, r)
    ensures forall r :: RecordOf(v.journal, r).Some? ==> Over(c, v, r)
  {
    assert todo[|todo|..] == [];
    assert forall r :: !Listed([], r);
  }

  lemma {:induction false} StillWorking(c: Setting, v: View, w: View, tracked: set<string>, todo: seq<Record>, k: nat)
    requires k < |todo| && Working(c, v, tracked, todo, k) && OnlyRun(c, v, w, todo[k].runId) && Right(c, w, tracked)
    requires (todo[k].hasWrites ==> Converged(c, w, todo[k].runId)) && Over(c, w, todo[k].runId)
    ensures Working(c, w, tracked, todo, k + 1)
  {
    forall r | r in tracked && !Converged(c, w, r)
      ensures Listed(todo[k + 1..], r)
    {
      OtherKept(c, v, w, tracked, todo[k].runId, r);
      ListedRest(todo, k, r);
    }
    forall r | RecordOf(w.journal, r).Some? && !Over(c, w, r)
      ensures Listed(todo[k + 1..], r)
    {
      assert RecordOf(w.journal, r) == RecordOf(v.journal, r);
      ListedRest(todo, k, r);
    }
  }

  predicate Listed(records: seq<Record>, q: string) { exists i :: 0 <= i < |records| && records[i].runId == q }

  lemma {:induction false} ListedMore(records: seq<Record>, r: Record)
    ensures Listed(records + [r], r.runId) && forall q :: Listed(records, q) ==> Listed(records + [r], q)
  {
    assert (records + [r])[|records|] == r;
    forall q | Listed(records, q)
      ensures Listed(records + [r], q)
    {
      var i :| 0 <= i < |records| && records[i].runId == q;
      assert (records + [r])[i].runId == q;
    }
  }

  lemma {:induction false} ListedRest(records: seq<Record>, k: nat, q: string)
    requires k < |records|
    ensures Listed(records[k..], q) && records[k].runId != q ==> Listed(records[k + 1..], q)
  {
    if Listed(records[k..], q) && records[k].runId != q {
      var i :| 0 <= i < |records[k..]| && records[k..][i].runId == q;
      assert records[k + 1..][i - 1].runId == q;
    }
  }

  lemma {:induction false} RecordIn(journal: seq<Record>, q: string)
    requires RecordOf(journal, q).Some?
    ensures exists i :: 0 <= i < |journal| && journal[i] == RecordOf(journal, q).value && journal[i].runId == q
  {
    if journal[0].runId != q {
      RecordIn(journal[1..], q);
      var i :| 0 <= i < |journal[1..]| && journal[1..][i] == RecordOf(journal, q).value && journal[1..][i].runId == q;
      assert journal[i + 1] == journal[1..][i];
    }
  }

  lemma {:induction false} RecordAt(journal: seq<Record>, k: nat)
    requires OnePerRun(journal) && k < |journal|
    ensures RecordOf(journal, journal[k].runId) == Some(journal[k])
  {
    if k > 0 { RecordAt(journal[1..], k - 1); }
  }

  lemma {:induction false} TerminalOver(c: Setting, v: View, tracked: set<string>, r: string)
    requires Right(c, v, tracked) && FailedApps(v.journal) <= v.blocked
    requires RecordOf(v.journal, r).Some? && IsTerminal(RecordOf(v.journal, r).value.state)
    ensures Over(c, v, r)
  {
    if RecordOf(v.journal, r).value.state == RollbackFailed { FailedAppsOf(v.journal, r); }
  }

  /** A tracked run whose record is final has converged already. */
  lemma {:induction false} TerminalConverged(c: Setting, v: View, tracked: set<string>)
    requires Right(c, v, tracked) && FailedApps(v.journal) <= v.blocked
    ensures forall r :: r in tracked && IsTerminal(RecordOf(v.journal, r).value.state) ==> Converged(c, v, r)
  {
    forall r | r in tracked && IsTerminal(RecordOf(v.journal, r).value.state)
      ensures Converged(c, v, r)
    {
      assert RunRight(v.journal, v.files, r, c.scope[r], c.appOf[r]);
      if RecordOf(v.journal, r).value.state == RollbackFailed { FailedAppsOf(v.journal, r); }
    }
  }

  // ----- a record that no longer belongs to the last run of its sources ------------

  predicate Agree(a: Snapshot, b: Snapshot) {
    forall i, j :: 0 <= i < |a| && 0 <= j < |b| && a[i].0 == b[j].0 ==> a[i].1 == b[j].1
  }

  /** The files after a rollback that went through: the snapshot's bytes, and no other source changed. */
  function Restored(files: map<string, string>, snapshot: Snapshot): map<string, string>
    decreases snapshot
  {
    if snapshot == [] then files else Restored(files[snapshot[0].0 := snapshot[0].1], snapshot[1..])
  }

  lemma {:induction false} CoversRest(snapshot: Snapshot, id: string)
    requires snapshot != []
    ensures Covers(snapshot[1..], id) ==> Covers(snapshot, id)
  {
    if Covers(snapshot[1..], id) {
      var i :| 0 <= i < |snapshot[1..]| && snapshot[1..][i].0 == id;
      assert snapshot[i + 1].0 == id;
    }
  }

  lemma {:induction false} RestoredIs(files: map<string, string>, snapshot: Snapshot)
    requires Consistent(snapshot)
    ensures Holds(Restored(files, snapshot), snapshot) && SameOutside(files, Restored(files, snapshot), snapshot)
    decreases snapshot
  {
    if snapshot != [] {
      var rest, next := snapshot[1..], files[snapshot[0].0 := snapshot[0].1];
      forall i, j | 0 <= i < |rest| && 0 <= j < |rest| && rest[i].0 == rest[j].0
        ensures rest[i].1 == rest[j].1
      {
        assert rest[i] == snapshot[i + 1] && rest[j] == snapshot[j + 1];
      }
      RestoredIs(next, rest);
      var after := Restored(next, rest);
      forall id | !Covers(snapshot, id)
        ensures (id in files <==> id in after) && (id in files ==> files[id] == after[id])
      {
        assert snapshot[0].0 != id;
        CoversRest(snapshot, id);
      }
      forall i | 0 <= i < |snapshot|
        ensures HoldsOne(after, snapshot[i])
      {
        if i > 0 {
          assert snapshot[i] == rest[i - 1];
        } else if Covers(rest, snapshot[0].0) {
          var j :| 0 <= j < |rest| && rest[j].0 == snapshot[0].0;
          assert rest[j] == snapshot[j + 1];
        } else {
          assert HoldsOne(next, snapshot[0]);
        }
      }
    }
  }

  /**
   Rolling back a stale run keeps what a later run left exactly when the two agree on every source they share.
   */
  lemma {:induction false} StaleRollback(files: map<string, string>, snapshot: Snapshot, later: Snapshot)
    requires Consistent(snapshot) && Holds(files, later)
    ensures Holds(Restored(files, snapshot), later) <==> Agree(later, snapshot)
  {
    RestoredIs(files, snapshot);
    var after := Restored(files, snapshot);
    if Holds(after, later) {
      forall i, j | 0 <= i < |later| && 0 <= j < |snapshot| && later[i].0 == snapshot[j].0
        ensures later[i].1 == snapshot[j].1
      {
        assert HoldsOne(after, later[i]) && HoldsOne(after, snapshot[j]);
      }
    }
    if Agree(later, snapshot) {
      forall i | 0 <= i < |later|
        ensures HoldsOne(after, later[i])
      {
        assert HoldsOne(files, later[i]);
        if Covers(snapshot, later[i].0) {
          var j :| 0 <= j < |snapshot| && snapshot[j].0 == later[i].0;
          assert HoldsOne(after, snapshot[j]);
        }
      }
    }
  }

  /**
   The journal when run a's failed rollback could not be recorded, an owner lifted the block of its application, and run b
   completed later.
   */
  function StaleJournal(): seq<Record> {
    var written := Recorded([], "a", "A", "app", Written);
    var rolling := Recorded(written, "a", "A", "app", RollingBack);
    var other := Recorded(rolling, "b", "B", "app", Written);
    Recorded(other, "b", "B", "app", Completed)
  }

  /** Run a is still resumed from that journal, and its rollback undoes run b, which the journal calls completed. */
  lemma {:induction false} StaleRecordUndoes(files: map<string, string>)
    requires Holds(files, [("source", "new")])
    ensures IsUnfinished(StaleJournal(), "a") && RecordOf(StaleJournal(), "a").value.hasWrites
    ensures InState(StaleJournal(), "b", Completed)
    ensures !Holds(Restored(files, [("source", "old")]), [("source", "new")])
  {
    var written := Recorded([], "a", "A", "app", Written);
    var rolling := Recorded(written, "a", "A", "app", RollingBack);
    var other := Recorded(rolling, "b", "B", "app", Written);
    RecordedIs([], "a", "A", "app", Written, "a");
    RecordedIs(written, "a", "A", "app", RollingBack, "a");
    RecordedIs(rolling, "b", "B", "app", Written, "a");
    RecordedIs(other, "b", "B", "app", Completed, "a");
    StaleRollback(files, [("source", "old")], [("source", "new")]);
    assert [("source", "new")][0].0 == [("source", "old")][0].0;
  }

  // ----- writes that are not on record yet ---------------------------------------

  /** The journal after some events of one run, in order. */
  function RecordedAll(journal: seq<Record>, runId: string, changeId: string, appId: string, states: seq<State>): seq<Record> {
    if states == [] then journal
    else Recorded(RecordedAll(journal, runId, changeId, appId, states[..|states| - 1]), runId, changeId, appId, states[|states| - 1])
  }

  /** Recovery takes a run for one with writes exactly when an event from WRITTEN on is on record. */
  lemma {:induction false} KnownWrites(journal: seq<Record>, runId: string, changeId: string, appId: string, states: seq<State>)
    requires OnePerRun(journal) && RecordOf(journal, runId).None? && states != []
    ensures var after := RecordedAll(journal, runId, changeId, appId, states);
            OnePerRun(after) && InState(after, runId, states[|states| - 1]) &&
            (RecordOf(after, runId).value.hasWrites <==> exists s :: s in states && MayHaveWritten(s))
  {
    var before, last := states[..|states| - 1], states[|states| - 1];
    var earlier := RecordedAll(journal, runId, changeId, appId, before);
    assert states == before + [last];
    if before != [] { KnownWrites(journal, runId, changeId, appId, before); }
    RecordedIs(earlier, runId, changeId, appId, last, runId);
    var existing := RecordOf(earlier, runId);
    var r := Record(runId, changeId, appId, last, (existing.Some? && existing.value.hasWrites) || MayHaveWritten(last));
    FindAfterWithout(earlier, r, runId);
  }

  /**
   A crash after a write and before WRITTEN: recovery takes the run for one without writes, applies it again from what it
   finds, and may record it as rolled back while the source never gets its old bytes again.
   */
  lemma {:induction false} UnrecordedWriteStays(files: map<string, string>)
    requires !Holds(files, [("source", "old")])
    ensures var crashed := RecordedAll([], "a", "A", "app", [Applying, Snapshotted]);
            IsUnfinished(crashed, "a") && !RecordOf(crashed, "a").value.hasWrites &&
            var ended := Recorded(crashed, "a", "A", "app", RolledBack);
            InState(ended, "a", RolledBack) &&
            !Converged(Setting(map["a" := [("source", "old")]], map["a" := "app"], {}), View(files, ended, {}, {}), "a")
  {
    var states := [Applying, Snapshotted];
    KnownWrites([], "a", "A", "app", states);
    RecordedIs(RecordedAll([], "a", "A", "app", states), "a", "A", "app", RolledBack, "a");
  }
}
