/**
 Concurrent runs over the in-process lock chains: every lock is a first-come queue whose head holds it, every run takes
 its locks in one global order and gives them back in reverse. Runs interleave step by step.
 */
module Locks {
  import opened Wrappers
  import opened TextOrder

  datatype Lock = AppLock(id: string) | SourceLock(id: string) | ActionLock(id: string)

  function Rank(l: Lock): nat {
    match l
    case AppLock(_) => 0
    case SourceLock(_) => 1
    case ActionLock(_) => 2
  }

  /** The order in which locks are taken: application, then sources, then actions, each by id. */
  predicate Before(a: Lock, b: Lock) { Rank(a) < Rank(b) || (Rank(a) == Rank(b) && Below(a.id, b.id)) }

  lemma {:induction false} BeforeTransitive(a: Lock, b: Lock, c: Lock)
    requires Before(a, b) && Before(b, c)
    ensures Before(a, c)
  {
    if Rank(a) == Rank(b) == Rank(c) { Transitive(a.id, b.id, c.id); }
  }

  lemma {:induction false} BeforeIrreflexive(a: Lock)
    ensures !Before(a, a)
  {
    Irreflexive(a.id);
  }

  predicate Increasing(plan: seq<Lock>) { forall x, y :: 0 <= x < y < |plan| ==> Before(plan[x], plan[y]) }

  /** The locks of a change in the order its run takes them. */
  function PlanOf(appId: string, sourceIds: seq<string>, actionIds: seq<string>): seq<Lock> {
    [AppLock(appId)] + seq(|sourceIds|, i requires 0 <= i < |sourceIds| => SourceLock(sourceIds[i])) +
    seq(|actionIds|, i requires 0 <= i < |actionIds| => ActionLock(actionIds[i]))
  }

  /** Validated changes list their ids sorted and without duplicates, so their locks are taken in the global order. */
  lemma {:induction false} PlanIncreases(appId: string, sources: seq<string>, actions: seq<string>)
    ensures Increasing(PlanOf(appId, SortedUnique(sources), SortedUnique(actions)))
    ensures forall l :: l in PlanOf(appId, SortedUnique(sources), SortedUnique(actions)) <==>
                        match l
                        case AppLock(id) => id == appId
                        case SourceLock(id) => id in sources
                        case ActionLock(id) => id in actions
  {
    SortedUniqueIs(sources, "");
    SortedUniqueIs(actions, "");
    forall l: Lock
      ensures l in PlanOf(appId, SortedUnique(sources), SortedUnique(actions)) <==>
              match l
              case AppLock(id) => id == appId
              case SourceLock(id) => id in sources
              case ActionLock(id) => id in actions
    {
      SortedUniqueIs(sources, l.id);
      SortedUniqueIs(actions, l.id);
      PlanHolds(appId, SortedUnique(sources), SortedUnique(actions), l);
    }
  }

  /** Besides the application's lock a plan holds the locks of its sources and actions, and no others. */
  lemma {:induction false} PlanHolds(appId: string, sourceIds: seq<string>, actionIds: seq<string>, l: Lock)
    ensures l in PlanOf(appId, sourceIds, actionIds) <==>
            match l
            case AppLock(id) => id == appId
            case SourceLock(id) => id in sourceIds
            case ActionLock(id) => id in actionIds
  {
    var plan := PlanOf(appId, sourceIds, actionIds);
    assert forall i :: 0 <= i < |sourceIds| ==> plan[1 + i] == SourceLock(sourceIds[i]);
    assert forall i :: 0 <= i < |actionIds| ==> plan[1 + |sourceIds| + i] == ActionLock(actionIds[i]);
    assert plan[0] == AppLock(appId);
  }

  // ----- the system --------------------------------------------------------------

  datatype Access = Read(source: string, bytes: string) | Write(source: string, bytes: string)

  datatype Phase = Acquiring | Waiting | Working | Releasing

  /** A run: its locks in order, how many of them it holds, and what it read and wrote. */
  datatype Run = Run(plan: seq<Lock>, got: nat, phase: Phase, log: seq<Access>)

  /** What one run did, in the order in which runs stopped. */
  datatype Turn = Turn(run: nat, log: seq<Access>)

  /** `serial` is the shadow of a serial execution: the files after the runs that are done writing, one after the other. */
  datatype System = System(runs: seq<Run>, queues: map<Lock, seq<nat>>, files: map<string, string>,
                           serial: map<string, string>, order: seq<Turn>)

  function Queue(s: System, l: Lock): seq<nat> { if l in s.queues then s.queues[l] else [] }

  predicate HoldsLock(r: Run, l: Lock) { r.got <= |r.plan| && l in r.plan[..r.got] }

  predicate WaitsFor(r: Run, l: Lock) { r.phase.Waiting? && r.got < |r.plan| && r.plan[r.got] == l }

  function WithRun(s: System, i: nat, r: Run): System
    requires i < |s.runs|
  {
    s.(runs := s.runs[i := r])
  }

  function WithQueue(s: System, l: Lock, q: seq<nat>): System { s.(queues := s.queues[l := q]) }

  datatype Step =
    | Enqueue(run: nat)                         // append to the chain of the next lock
    | Grant(run: nat)                           // the predecessor released: the lock is held
    | Abandon(run: nat)                         // the predecessor released, but taking the lock failed
    | Begin(run: nat)                           // all locks are held
    | Touch(run: nat, access: Access)           // read or write a source
    | Stop(run: nat)                            // the run is over, however it ended
    | Release(run: nat)                         // give back the last lock taken

  /** The bytes of a source, none when it has no file. */
  predicate Reads(files: map<string, string>, a: Access) { a.source in files && files[a.source] == a.bytes }

  predicate Enabled(s: System, step: Step) {
    step.run < |s.runs| &&
    var r := s.runs[step.run];
    r.got <= |r.plan| &&
    match step
    case Enqueue(_) => r.phase.Acquiring? && r.got < |r.plan|
    case Grant(i) => r.phase.Waiting? && r.got < |r.plan| && Queue(s, r.plan[r.got]) != [] && Queue(s, r.plan[r.got])[0] == i
    case Abandon(i) => r.phase.Waiting? && r.got < |r.plan| && Queue(s, r.plan[r.got]) != [] && Queue(s, r.plan[r.got])[0] == i
    case Begin(_) => r.phase.Acquiring? && r.got == |r.plan|
    case Touch(_, a) => r.phase.Working? && HoldsLock(r, SourceLock(a.source)) && (a.Read? ==> Reads(s.files, a))
    case Stop(_) => r.phase.Acquiring? || r.phase.Working?
    case Release(_) => r.phase.Releasing? && r.got > 0
  }

  function Perform(files: map<string, string>, a: Access): map<string, string> {
    if a.Write? then files[a.source := a.bytes] else files
  }

  function Replay(files: map<string, string>, log: seq<Access>): map<string, string> {
    if log == [] then files else Perform(Replay(files, log[..|log| - 1]), log[|log| - 1])
  }

  /** Run on these files, the log's reads see what it says they saw. */
  predicate Legal(files: map<string, string>, log: seq<Access>) {
    log == [] ||
    (Legal(files, log[..|log| - 1]) &&
     (log[|log| - 1].Read? ==> Reads(Replay(files, log[..|log| - 1]), log[|log| - 1])))
  }

  function Next(s: System, step: Step): System
    requires Enabled(s, step)
  {
    var i := step.run;
    var r := s.runs[i];
    match step
    case Enqueue(_) =>
      WithQueue(WithRun(s, i, r.(phase := Waiting)), r.plan[r.got], Queue(s, r.plan[r.got]) + [i])
    case Grant(_) => WithRun(s, i, r.(got := r.got + 1, phase := Acquiring))
    case Abandon(_) =>
      WithQueue(WithRun(s, i, r.(phase := Releasing)), r.plan[r.got], Queue(s, r.plan[r.got])[1..])
    case Begin(_) => WithRun(s, i, r.(phase := Working))
    case Touch(_, a) => WithRun(s, i, r.(log := r.log + [a])).(files := Perform(s.files, a))
    case Stop(_) =>
      WithRun(s, i, r.(phase := Releasing)).(serial := Replay(s.serial, r.log), order := s.order + [Turn(i, r.log)])
    case Release(_) =>
      var l := r.plan[r.got - 1];
      var q := Queue(s, l);
      WithQueue(WithRun(s, i, r.(got := r.got - 1)), l, if q == [] then [] else q[1..])
  }

  // ----- what every step keeps ---------------------------------------------------

  /** A lock's queue: its head may hold the lock, and everyone behind it, and no one else, waits for it. */
  predicate LockRight(s: System, l: Lock) {
    var q := Queue(s, l);
    (forall i :: 0 <= i < |s.runs| && HoldsLock(s.runs[i], l) ==> q != [] && q[0] == i) &&
    (forall i :: 0 <= i < |s.runs| && WaitsFor(s.runs[i], l) ==> i in q) &&
    (forall i :: i in q ==> i < |s.runs| && (HoldsLock(s.runs[i], l) || WaitsFor(s.runs[i], l))) &&
    (forall x, y :: 0 <= x < y < |q| ==> q[x] != q[y])
  }

  predicate RunsRight(s: System) {
    forall i :: 0 <= i < |s.runs| ==>
      s.runs[i].got <= |s.runs[i].plan| && (s.runs[i].phase.Waiting? ==> s.runs[i].got < |s.runs[i].plan|) &&
      Increasing(s.runs[i].plan)
  }

  ghost predicate QueuesRight(s: System) { RunsRight(s) && forall l :: LockRight(s, l) }

  lemma {:induction false} NotHeldTwice(r: Run, l: Lock)
    requires r.got <= |r.plan| && Increasing(r.plan)
    ensures WaitsFor(r, l) ==> !HoldsLock(r, l)
    ensures r.got < |r.plan| ==> (HoldsLock(r.(got := r.got + 1), l) <==> HoldsLock(r, l) || l == r.plan[r.got])
    ensures r.got < |r.plan| ==> !HoldsLock(r, r.plan[r.got])
    ensures r.got > 0 ==> (HoldsLock(r.(got := r.got - 1), l) <==> HoldsLock(r, l) && l != r.plan[r.got - 1])
  {
    BeforeIrreflexive(l);
    if r.got < |r.plan| {
      BeforeIrreflexive(r.plan[r.got]);
      assert r.plan[..r.got + 1] == r.plan[..r.got] + [r.plan[r.got]];
    }
    if r.got > 0 { assert r.plan[..r.got] == r.plan[..r.got - 1] + [r.plan[r.got - 1]]; }
  }

  predicate SameView(r: Run, r': Run, l: Lock) {
    HoldsLock(r, l) == HoldsLock(r', l) && WaitsFor(r, l) == WaitsFor(r', l)
  }

  predicate SameViews(s: System, t: System, l: Lock, except: nat) {
    |s.runs| == |t.runs| && forall i :: 0 <= i < |s.runs| && i != except ==> SameView(s.runs[i], t.runs[i], l)
  }

  lemma {:induction false} ViewsKeep(s: System, t: System, l: Lock)
    requires LockRight(s, l) && SameViews(s, t, l, |s.runs|) && Queue(t, l) == Queue(s, l)
    ensures LockRight(t, l)
  {
    forall i | 0 <= i < |s.runs|
      ensures SameView(s.runs[i], t.runs[i], l)
    {
    }
  }

  lemma {:induction false} DropHead(q: seq<nat>)
    requires q != [] && forall x, y :: 0 <= x < y < |q| ==> q[x] != q[y]
    ensures forall i :: i in q[1..] <==> i in q && i != q[0]
    ensures forall x, y :: 0 <= x < y < |q[1..]| ==> q[1..][x] != q[1..][y]
  {
    assert q == [q[0]] + q[1..];
  }

  /** The head leaves the queue and neither holds the lock nor waits for it any more. */
  lemma {:induction false} HeadLeaves(s: System, t: System, l: Lock, i: nat)
    requires LockRight(s, l) && SameViews(s, t, l, i) && i < |s.runs|
    requires Queue(s, l) != [] && Queue(s, l)[0] == i && Queue(t, l) == Queue(s, l)[1..]
    requires !HoldsLock(t.runs[i], l) && !WaitsFor(t.runs[i], l)
    ensures LockRight(t, l)
  {
    DropHead(Queue(s, l));
    forall j | 0 <= j < |s.runs| && j != i
      ensures SameView(s.runs[j], t.runs[j], l)
    {
    }
  }

  lemma {:induction false} EnqueueKeeps(s: System, i: nat, l: Lock)
    requires RunsRight(s) && LockRight(s, l) && Enabled(s, Enqueue(i))
    ensures LockRight(Next(s, Enqueue(i)), l)
  {
    NotHeldTwice(s.runs[i], l);
    if l != s.runs[i].plan[s.runs[i].got] { ViewsKeep(s, Next(s, Enqueue(i)), l); }
  }

  lemma {:induction false} GrantKeeps(s: System, i: nat, l: Lock)
    requires RunsRight(s) && LockRight(s, l) && Enabled(s, Grant(i))
    ensures LockRight(Next(s, Grant(i)), l)
  {
    NotHeldTwice(s.runs[i], l);
    if l != s.runs[i].plan[s.runs[i].got] { ViewsKeep(s, Next(s, Grant(i)), l); }
  }

  lemma {:induction false} AbandonKeeps(s: System, i: nat, l: Lock)
    requires RunsRight(s) && LockRight(s, l) && Enabled(s, Abandon(i))
    ensures LockRight(Next(s, Abandon(i)), l)
  {
    var t := Next(s, Abandon(i));
    NotHeldTwice(s.runs[i], l);
    if WaitsFor(s.runs[i], l) { HeadLeaves(s, t, l, i); } else { ViewsKeep(s, t, l); }
  }

  lemma {:induction false} ReleaseKeeps(s: System, i: nat, l: Lock)
    requires RunsRight(s) && LockRight(s, l) && Enabled(s, Release(i))
    ensures LockRight(Next(s, Release(i)), l)
  {
    var r, t := s.runs[i], Next(s, Release(i));
    NotHeldTwice(r, l);
    if l == r.plan[r.got - 1] {
      assert r.plan[..r.got][r.got - 1] == l;
      HeadLeaves(s, t, l, i);
    } else {
      ViewsKeep(s, t, l);
    }
  }

  lemma {:induction false} RestKeeps(s: System, step: Step, l: Lock)
    requires LockRight(s, l) && Enabled(s, step) && (step.Begin? || step.Touch? || step.Stop?)
    ensures LockRight(Next(s, step), l)
  {
    ViewsKeep(s, Next(s, step), l);
  }

  // ----- mutual exclusion --------------------------------------------------------

  /** No two runs ever hold one lock. */
  lemma {:induction false} OneHolder(s: System, i: nat, j: nat, l: Lock)
    requires LockRight(s, l) && i < |s.runs| && j < |s.runs| && HoldsLock(s.runs[i], l) && HoldsLock(s.runs[j], l)
    ensures i == j
  {
  }

  lemma {:induction false} StepKeepsQueues(s: System, step: Step)
    requires QueuesRight(s) && Enabled(s, step)
    ensures QueuesRight(Next(s, step))
  {
    forall l
      ensures LockRight(Next(s, step), l)
    {
      match step
      case Enqueue(i) => EnqueueKeeps(s, i, l);
      case Grant(i) => GrantKeeps(s, i, l);
      case Abandon(i) => AbandonKeeps(s, i, l);
      case Release(i) => ReleaseKeeps(s, i, l);
      case _ => RestKeeps(s, step, l);
    }
  }

  // ----- interleaved runs equal a serial order -----------------------------------

  predicate Same(f: map<string, string>, g: map<string, string>, id: string) {
    (id in f <==> id in g) && (id in f ==> f[id] == g[id])
  }

  /** A log touches only sources whose lock its run holds. */
  predicate Within(r: Run, log: seq<Access>) {
    log == [] || (HoldsLock(r, SourceLock(log[|log| - 1].source)) && Within(r, log[..|log| - 1]))
  }

  /** A run's log changes no source that it does not hold. */
  lemma {:induction false} ReplayElsewhere(r: Run, files: map<string, string>, log: seq<Access>, id: string)
    requires Within(r, log) && !HoldsLock(r, SourceLock(id))
    ensures Same(Replay(files, log), files, id)
  {
    if log != [] { ReplayElsewhere(r, files, log[..|log| - 1], id); }
  }

  /** Files that agree on the sources a run holds give its log the same reads and the same results. */
  lemma {:induction false} ReplaySame(r: Run, f: map<string, string>, g: map<string, string>, log: seq<Access>)
    requires Within(r, log) && forall id :: HoldsLock(r, SourceLock(id)) ==> Same(f, g, id)
    ensures forall id :: HoldsLock(r, SourceLock(id)) ==> Same(Replay(f, log), Replay(g, log), id)
    ensures Legal(f, log) == Legal(g, log)
  {
    if log != [] { ReplaySame(r, f, g, log[..|log| - 1]); }
  }

  predicate Owns(r: Run, id: string) { r.phase.Working? && HoldsLock(r, SourceLock(id)) }

  /** A working run's own log explains the sources it owns; a source no one owns is as the serial execution left it. */
  predicate SourceRight(s: System, id: string) {
    (forall i :: 0 <= i < |s.runs| && Owns(s.runs[i], id) ==> Same(s.files, Replay(s.serial, s.runs[i].log), id)) &&
    ((forall i :: 0 <= i < |s.runs| ==> !Owns(s.runs[i], id)) ==> Same(s.files, s.serial, id))
  }

  /** Logs are within the locks, and a serial execution would let every working run read what it read. */
  predicate LogRight(s: System, r: Run) {
    if r.phase.Working? then Within(r, r.log) && Legal(s.serial, r.log) else r.phase.Releasing? || r.log == []
  }

  ghost predicate SerialRight(s: System) {
    (forall id :: SourceRight(s, id)) && (forall i :: 0 <= i < |s.runs| ==> LogRight(s, s.runs[i]))
  }

  lemma {:induction false} TouchSource(s: System, i: nat, a: Access, id: string)
    requires QueuesRight(s) && SerialRight(s) && Enabled(s, Touch(i, a))
    ensures SourceRight(Next(s, Touch(i, a)), id)
  {
    var r, t := s.runs[i], Next(s, Touch(i, a));
    assert (r.log + [a])[..|r.log|] == r.log;
    assert SourceRight(s, id) && SourceRight(s, a.source) && Owns(r, a.source);
    forall j | 0 <= j < |s.runs| && Owns(t.runs[j], id)
      ensures Same(t.files, Replay(t.serial, t.runs[j].log), id)
    {
      if j != i && id == a.source { OneHolder(s, i, j, SourceLock(id)); }
    }
    assert Owns(t.runs[i], a.source);
    assert forall j :: 0 <= j < |s.runs| ==> Owns(t.runs[j], id) == Owns(s.runs[j], id);
  }

  lemma {:induction false} TouchLog(s: System, i: nat, a: Access)
    requires QueuesRight(s) && SerialRight(s) && Enabled(s, Touch(i, a))
    ensures LogRight(Next(s, Touch(i, a)), s.runs[i].(log := s.runs[i].log + [a]))
  {
    var r := s.runs[i];
    assert (r.log + [a])[..|r.log|] == r.log;
    assert SourceRight(s, a.source) && Owns(r, a.source) && LogRight(s, r);
    WithinMore(r, r.(log := r.log + [a]), r.log);
  }

  lemma {:induction false} WithinMore(r: Run, r': Run, log: seq<Access>)
    requires Within(r, log) && r'.plan == r.plan && r'.got == r.got
    ensures Within(r', log)
  {
    if log != [] { WithinMore(r, r', log[..|log| - 1]); }
  }

  /** A run that stops: the serial execution takes its whole log in one go. */
  lemma {:induction false} StopSource(s: System, i: nat, id: string)
    requires QueuesRight(s) && SerialRight(s) && Enabled(s, Stop(i))
    ensures SourceRight(Next(s, Stop(i)), id)
  {
    var r, t := s.runs[i], Next(s, Stop(i));
    assert SourceRight(s, id) && LogRight(s, r);
    if r.phase.Working? && !HoldsLock(r, SourceLock(id)) { ReplayElsewhere(r, s.serial, r.log, id); }
    forall j | 0 <= j < |s.runs| && Owns(t.runs[j], id)
      ensures Same(t.files, Replay(t.serial, t.runs[j].log), id)
    {
      StopOther(s, i, j);
    }
    if forall j :: 0 <= j < |t.runs| ==> !Owns(t.runs[j], id) {
      assert forall j :: 0 <= j < |s.runs| && j != i ==> t.runs[j] == s.runs[j];
    }
  }

  /** What the serial execution gains when a run stops is invisible to the other working runs. */
  lemma {:induction false} StopOther(s: System, i: nat, j: nat)
    requires QueuesRight(s) && SerialRight(s) && Enabled(s, Stop(i)) && j < |s.runs| && j != i && s.runs[j].phase.Working?
    ensures var serial := Replay(s.serial, s.runs[i].log); var rj := s.runs[j];
            Legal(serial, rj.log) &&
            forall id :: HoldsLock(rj, SourceLock(id)) ==> Same(Replay(s.serial, rj.log), Replay(serial, rj.log), id)
  {
    var ri, rj := s.runs[i], s.runs[j];
    var serial := Replay(s.serial, ri.log);
    assert LogRight(s, ri) && LogRight(s, rj);
    forall id | HoldsLock(rj, SourceLock(id))
      ensures Same(s.serial, serial, id)
    {
      if ri.phase.Working? {
        if HoldsLock(ri, SourceLock(id)) { OneHolder(s, i, j, SourceLock(id)); }
        ReplayElsewhere(ri, s.serial, ri.log, id);
      }
    }
    ReplaySame(rj, s.serial, serial, rj.log);
  }

  lemma {:induction false} BeginSource(s: System, i: nat, id: string)
    requires QueuesRight(s) && SerialRight(s) && Enabled(s, Begin(i))
    ensures SourceRight(Next(s, Begin(i)), id)
  {
    var t := Next(s, Begin(i));
    assert SourceRight(s, id) && LogRight(s, s.runs[i]);
    forall j | 0 <= j < |s.runs| && Owns(t.runs[j], id)
      ensures Same(t.files, Replay(t.serial, t.runs[j].log), id)
    {
      if j == i {
        forall k | 0 <= k < |s.runs|
          ensures !Owns(s.runs[k], id)
        {
          if Owns(s.runs[k], id) { OneHolder(s, i, k, SourceLock(id)); }
        }
      }
    }
    assert forall j :: 0 <= j < |s.runs| && j != i ==> Owns(t.runs[j], id) == Owns(s.runs[j], id);
  }

  lemma {:induction false} QuietSource(s: System, step: Step, id: string)
    requires QueuesRight(s) && SerialRight(s) && Enabled(s, step)
    requires step.Enqueue? || step.Grant? || step.Abandon? || step.Release?
    ensures SourceRight(Next(s, step), id)
  {
    var t := Next(s, step);
    assert SourceRight(s, id);
    assert forall j :: 0 <= j < |s.runs| ==> Owns(t.runs[j], id) == Owns(s.runs[j], id);
  }

  lemma {:induction false} StepLogs(s: System, step: Step, j: nat)
    requires QueuesRight(s) && SerialRight(s) && Enabled(s, step) && j < |s.runs|
    ensures LogRight(Next(s, step), Next(s, step).runs[j])
  {
    assert LogRight(s, s.runs[j]);
    match step
    case Touch(i, a) => if j == i { TouchLog(s, i, a); }
    case Stop(i) => if j != i && s.runs[j].phase.Working? { StopOther(s, i, j); }
    case _ =>
  }

  lemma {:induction false} StepKeepsSerial(s: System, step: Step)
    requires QueuesRight(s) && SerialRight(s) && Enabled(s, step)
    ensures SerialRight(Next(s, step))
  {
    forall id
      ensures SourceRight(Next(s, step), id)
    {
      match step
      case Touch(i, a) => TouchSource(s, i, a, id);
      case Stop(i) => StopSource(s, i, id);
      case Begin(i) => BeginSource(s, i, id);
      case _ => QuietSource(s, step, id);
    }
    forall j | 0 <= j < |s.runs|
      ensures LogRight(Next(s, step), Next(s, step).runs[j])
    {
      StepLogs(s, step, j);
    }
  }

  // ----- the serial order --------------------------------------------------------

  /** The files after the runs of an order, executed one after the other. */
  function SerialFiles(init: map<string, string>, order: seq<Turn>): map<string, string> {
    if order == [] then init else Replay(SerialFiles(init, order[..|order| - 1]), order[|order| - 1].log)
  }

  /** Executed one after the other, every run reads what it read. */
  predicate LegalOrder(init: map<string, string>, order: seq<Turn>) {
    order == [] ||
    (LegalOrder(init, order[..|order| - 1]) && Legal(SerialFiles(init, order[..|order| - 1]), order[|order| - 1].log))
  }

  predicate TurnRight(s: System, turn: Turn) {
    turn.run < |s.runs| && s.runs[turn.run].phase.Releasing? && s.runs[turn.run].log == turn.log
  }

  predicate InOrder(order: seq<Turn>, i: nat) { exists x :: 0 <= x < |order| && order[x].run == i }

  /** The order names every run that stopped after touching sources, once. */
  predicate TurnsRight(s: System) {
    (forall x :: 0 <= x < |s.order| ==> TurnRight(s, s.order[x])) &&
    (forall x, y :: 0 <= x < y < |s.order| ==> s.order[x].run != s.order[y].run) &&
    (forall i :: 0 <= i < |s.runs| && s.runs[i].phase.Releasing? && s.runs[i].log != [] ==> InOrder(s.order, i))
  }

  /** The shadow files are those of the serial execution. */
  predicate OrderRight(init: map<string, string>, s: System) {
    s.serial == SerialFiles(init, s.order) && LegalOrder(init, s.order) && TurnsRight(s)
  }

  lemma {:induction false} InOrderMore(order: seq<Turn>, turn: Turn, i: nat)
    ensures InOrder(order, i) ==> InOrder(order + [turn], i)
    ensures InOrder(order + [turn], turn.run)
  {
    assert (order + [turn])[|order|] == turn;
    if InOrder(order, i) {
      var x :| 0 <= x < |order| && order[x].run == i;
      assert (order + [turn])[x].run == i;
    }
  }

  lemma {:induction false} StopTurns(s: System, i: nat)
    requires TurnsRight(s) && Enabled(s, Stop(i))
    ensures TurnsRight(Next(s, Stop(i)))
  {
    var t := Next(s, Stop(i));
    forall x | 0 <= x < |t.order|
      ensures TurnRight(t, t.order[x]) && (x < |s.order| ==> t.order[x].run != i)
    {
      if x < |s.order| { assert TurnRight(s, s.order[x]); }
    }
    forall j | 0 <= j < |t.runs| && t.runs[j].phase.Releasing? && t.runs[j].log != []
      ensures InOrder(t.order, j)
    {
      InOrderMore(s.order, Turn(i, s.runs[i].log), j);
    }
  }

  lemma {:induction false} OtherTurns(s: System, step: Step)
    requires TurnsRight(s) && Enabled(s, step) && !step.Stop? && LogRight(s, s.runs[step.run])
    ensures TurnsRight(Next(s, step))
  {
    var t := Next(s, step);
    forall x | 0 <= x < |t.order|
      ensures TurnRight(t, t.order[x])
    {
      assert TurnRight(s, s.order[x]);
    }
  }

  lemma {:induction false} StepKeepsOrder(init: map<string, string>, s: System, step: Step)
    requires SerialRight(s) && OrderRight(init, s) && Enabled(s, step)
    ensures OrderRight(init, Next(s, step))
  {
    assert LogRight(s, s.runs[step.run]);
    if step.Stop? {
      StopTurns(s, step.run);
      StopSerial(init, s, step.run);
    } else {
      OtherTurns(s, step);
    }
  }

  lemma {:induction false} SerialMore(init: map<string, string>, order: seq<Turn>, turn: Turn)
    ensures SerialFiles(init, order + [turn]) == Replay(SerialFiles(init, order), turn.log)
    ensures LegalOrder(init, order + [turn]) == (LegalOrder(init, order) && Legal(SerialFiles(init, order), turn.log))
  {
    assert (order + [turn])[..|order|] == order;
  }

  lemma {:induction false} StopSerial(init: map<string, string>, s: System, i: nat)
    requires s.serial == SerialFiles(init, s.order) && LegalOrder(init, s.order)
    requires Enabled(s, Stop(i)) && LogRight(s, s.runs[i])
    ensures var t := Next(s, Stop(i)); t.serial == SerialFiles(init, t.order) && LegalOrder(init, t.order)
  {
    SerialMore(init, s.order, Turn(i, s.runs[i].log));
  }

  // ----- whole executions --------------------------------------------------------

  /** All runs are still to come. */
  predicate Initial(s: System) {
    s.queues == map[] && s.serial == s.files && s.order == [] &&
    forall i :: 0 <= i < |s.runs| ==>
      s.runs[i].phase == Acquiring && s.runs[i].got == 0 && s.runs[i].log == [] && Increasing(s.runs[i].plan)
  }

  /** The state after an execution; None when one of its steps was not possible. */
  function After(s: System, steps: seq<Step>): Option<System> {
    if steps == [] then Some(s)
    else
      var before := After(s, steps[..|steps| - 1]);
      if before.None? || !Enabled(before.value, steps[|steps| - 1]) then None
      else Some(Next(before.value, steps[|steps| - 1]))
  }

  lemma {:induction false} InitialRight(s: System)
    requires Initial(s)
    ensures QueuesRight(s) && SerialRight(s) && OrderRight(s.files, s)
  {
  }

  /** Every reachable state: one holder per lock, and reads and writes as in the serial order. */
  lemma {:induction false} Reachable(s: System, steps: seq<Step>)
    requires Initial(s) && After(s, steps).Some?
    ensures var t := After(s, steps).value;
            QueuesRight(t) && SerialRight(t) && OrderRight(s.files, t) && |t.runs| == |s.runs|
  {
    if steps == [] {
      InitialRight(s);
    } else {
      Reachable(s, steps[..|steps| - 1]);
      var before, step := After(s, steps[..|steps| - 1]).value, steps[|steps| - 1];
      StepKeepsQueues(before, step);
      StepKeepsSerial(before, step);
      StepKeepsOrder(s.files, before, step);
    }
  }

  predicate Finished(r: Run) { r.phase.Releasing? && r.got == 0 }

  /**
   When all runs of an interleaved execution are over, the files are those of executing the runs one after the other,
   each reading what it read in the interleaving, and every run that touched a source has exactly one turn.
   */
  lemma {:induction false} Serializable(s: System, steps: seq<Step>, id: string)
    requires Initial(s) && After(s, steps).Some?
    requires forall i :: 0 <= i < |After(s, steps).value.runs| ==> Finished(After(s, steps).value.runs[i])
    ensures var t := After(s, steps).value;
            Same(t.files, SerialFiles(s.files, t.order), id) && LegalOrder(s.files, t.order) && TurnsRight(t)
  {
    Reachable(s, steps);
    assert SourceRight(After(s, steps).value, id);
  }

  /** In every reachable state a lock has one holder. */
  lemma {:induction false} MutualExclusion(s: System, steps: seq<Step>, i: nat, j: nat, l: Lock)
    requires Initial(s) && After(s, steps).Some? && i < |s.runs| && j < |s.runs|
    requires var t := After(s, steps).value; |t.runs| == |s.runs| && HoldsLock(t.runs[i], l) && HoldsLock(t.runs[j], l)
    ensures i == j
  {
    Reachable(s, steps);
    OneHolder(After(s, steps).value, i, j, l);
  }

  // ----- no deadlock -------------------------------------------------------------

  /** The run below n whose awaited lock no other waiting run's awaited lock comes after; n when none waits. */
  lemma {:induction false} LastWaiting(s: System, n: nat) returns (i: nat)
    requires n <= |s.runs|
    ensures i <= n
    ensures i < n ==> s.runs[i].phase.Waiting? && s.runs[i].got < |s.runs[i].plan|
    ensures forall j :: 0 <= j < n && s.runs[j].phase.Waiting? && s.runs[j].got < |s.runs[j].plan| ==>
              i < n && !Before(s.runs[i].plan[s.runs[i].got], s.runs[j].plan[s.runs[j].got])
  {
    if n == 0 { return 0; }
    var k := LastWaiting(s, n - 1);
    var r := s.runs[n - 1];
    if !r.phase.Waiting? || r.got >= |r.plan| {
      i := if k == n - 1 then n else k;
    } else if k == n - 1 {
      BeforeIrreflexive(r.plan[r.got]);
      i := n - 1;
    } else if Before(s.runs[k].plan[s.runs[k].got], r.plan[r.got]) {
      BeforeIrreflexive(r.plan[r.got]);
      forall j | 0 <= j < n - 1 && s.runs[j].phase.Waiting? && s.runs[j].got < |s.runs[j].plan|
        ensures !Before(r.plan[r.got], s.runs[j].plan[s.runs[j].got])
      {
        if Before(r.plan[r.got], s.runs[j].plan[s.runs[j].got]) {
          BeforeTransitive(s.runs[k].plan[s.runs[k].got], r.plan[r.got], s.runs[j].plan[s.runs[j].got]);
        }
      }
      i := n - 1;
    } else {
      i := k;
    }
  }

  /** While a run is unfinished, some run can take a step of its own. */
  lemma {:induction false} NoDeadlock(s: System, k: nat) returns (step: Step)
    requires QueuesRight(s) && k < |s.runs| && !Finished(s.runs[k])
    ensures Enabled(s, step) && !step.Touch?
  {
    var r := s.runs[k];
    if r.phase.Acquiring? {
      step := if r.got < |r.plan| then Enqueue(k) else Begin(k);
    } else if r.phase.Working? {
      step := Stop(k);
    } else if r.phase.Releasing? {
      step := Release(k);
    } else {
      var i := LastWaiting(s, |s.runs|);
      step := Unblocked(s, i);
    }
  }

  lemma {:induction false} HeldBefore(r: Run, l: Lock)
    requires r.got < |r.plan| && Increasing(r.plan)
    ensures HoldsLock(r, l) ==> Before(l, r.plan[r.got])
  {
  }

  /** The head of the queue of the last awaited lock can go on. */
  lemma {:induction false} Unblocked(s: System, i: nat) returns (step: Step)
    requires QueuesRight(s) && i < |s.runs| && s.runs[i].phase.Waiting?
    requires forall j :: 0 <= j < |s.runs| && s.runs[j].phase.Waiting? && s.runs[j].got < |s.runs[j].plan| ==>
               !Before(s.runs[i].plan[s.runs[i].got], s.runs[j].plan[s.runs[j].got])
    ensures Enabled(s, step) && !step.Touch?
  {
    var l := s.runs[i].plan[s.runs[i].got];
    assert LockRight(s, l) && WaitsFor(s.runs[i], l);
    var h := Queue(s, l)[0];
    assert h in Queue(s, l);
    var r := s.runs[h];
    match r.phase
    case Acquiring => step := if r.got < |r.plan| then Enqueue(h) else Begin(h);
    case Working => step := Stop(h);
    case Releasing => step := Release(h);
    case Waiting =>
      HeldBefore(r, l);
      step := Grant(h);
  }

  /** How many more steps of its own a run can take, apart from reads and writes. */
  function Potential(r: Run): nat
    requires r.got <= |r.plan|
  {
    match r.phase
    case Releasing => r.got
    case Working => r.got + 1
    case Acquiring => 3 * (|r.plan| - r.got) + r.got + 2
    case Waiting => 3 * (|r.plan| - r.got) + r.got + 1
  }

  function TotalPotential(runs: seq<Run>): nat
    requires forall i :: 0 <= i < |runs| ==> runs[i].got <= |runs[i].plan|
  {
    if runs == [] then 0 else Potential(runs[0]) + TotalPotential(runs[1..])
  }

  lemma {:induction false} TotalChanges(runs: seq<Run>, i: nat, r: Run)
    requires i < |runs| && r.got <= |r.plan| && forall j :: 0 <= j < |runs| ==> runs[j].got <= |runs[j].plan|
    ensures TotalPotential(runs[i := r]) + Potential(runs[i]) == TotalPotential(runs) + Potential(r)
  {
    if i == 0 {
      assert runs[i := r][1..] == runs[1..];
    } else {
      TotalChanges(runs[1..], i - 1, r);
      assert runs[i := r][1..] == runs[1..][i - 1 := r];
    }
  }

  function OwnSteps(steps: seq<Step>): nat {
    if steps == [] then 0
    else OwnSteps(steps[..|steps| - 1]) + if steps[|steps| - 1].Touch? then 0 else 1
  }

  /** No execution goes on forever: apart from reads and writes, its steps are bounded by the locks of its runs. */
  lemma {:induction false} Bounded(s: System, steps: seq<Step>)
    requires Initial(s) && After(s, steps).Some?
    ensures RunsRight(After(s, steps).value)
    ensures OwnSteps(steps) + TotalPotential(After(s, steps).value.runs) <= TotalPotential(s.runs)
  {
    Reachable(s, steps);
    if steps != [] {
      var before, step := After(s, steps[..|steps| - 1]).value, steps[|steps| - 1];
      Bounded(s, steps[..|steps| - 1]);
      TotalChanges(before.runs, step.run, Next(before, step).runs[step.run]);
    }
  }

  /** A reachable state in which no run can take a step of its own is one in which all runs are over. */
  lemma {:induction false} StuckIsFinished(s: System, steps: seq<Step>, k: nat)
    requires Initial(s) && After(s, steps).Some? && k < |s.runs| && |After(s, steps).value.runs| == |s.runs|
    requires forall step :: Enabled(After(s, steps).value, step) ==> step.Touch?
    ensures Finished(After(s, steps).value.runs[k])
  {
    Reachable(s, steps);
    if !Finished(After(s, steps).value.runs[k]) {
      var step := NoDeadlock(After(s, steps).value, k);
      assert false;
    }
  }
}
