/**
 The verdict of the coverage scan against the runs of a boundary: the soundness theorem,
 and two accepted programs, each showing why one of its conditions is needed.
 */
module FlowTheorems {
  import opened Wrappers
  import opened FlowSyntax
  import opened FlowAnalysis
  import opened FlowSemantics
  import opened FlowSoundness

  /** The boundary is regular for a set of names holding its binding and every constant copied from a name. */
  predicate RegularBoundary(b: Boundary, names: set<Name>) {
    ParamNames(b.binding) <= names &&
    (b.CatchBlock? ==> RegularList(b.body, names) && (b.finalizer.Finally? ==> RegularList(b.finalizer.block, names)))
  }

  // ----- the boundary's own block ------------------------------------------------

  /** Only a return is read differently for standing directly in the boundary. */
  lemma {:induction false} DirectSame(s: Stmt, states: seq<FlowState>, ctx: seq<Frame>)
    requires !s.Return?
    ensures AnalyzeEach(s, states, ctx, true) == AnalyzeEach(s, states, ctx, false)
    decreases |states|
  {
    if states != [] {
      DirectSame(s, states[1..], ctx);
      assert AnalyzeStmt(s, states[0], ctx, true) == AnalyzeStmt(s, states[0], ctx, false);
    }
  }

  /** A direct return that hands nothing off: the error is not deferred, so the scan owns nothing either. */
  lemma {:induction false} SoundDirectReturn(s: Stmt, a: FlowState, m: Machine, o: Oracle, ctx: seq<Frame>, names: set<Name>)
    requires s.Return? && Tracks(a, m, names) && !HandsOff(s, m, o)
    ensures Covers(Honour(s, AnalyzeStmt(s, a, ctx, true)), Exec(s, m, o, []), ctx, names)
  {
    var v := EvalOptional(s.value, m, o);
    var r := Exec(s, m, o, []);
    var out := AnalyzeStmt(s, a, ctx, true);
    var valued := AnalyzeOptional(s.value, [a]);
    SoundOptional(s.value, [a], a, m, o, ctx, names);
    if r.Done? && !Settled(r.m.ledger) {
      if v.Raised? {
        var q :| q in valued.abrupt && Describes(q, Complete(v), ctx, names);
        Witness(s, out, q, r, ctx, names);
      } else {
        var a' :| a' in valued.states && Tracks(a', v.m, names);
        var q := Abrupt(Returning, OwnReturn(a', true), None, false, false, true);
        assert q in Returns(valued.states, true);
        Witness(s, out, q, r, ctx, names);
      }
    }
  }

  lemma {:induction false} SoundDirectReturns(s: Stmt, states: seq<FlowState>, a: FlowState, m: Machine, o: Oracle,
                                              ctx: seq<Frame>, names: set<Name>)
    requires a in states && s.Return? && Tracks(a, m, names) && !HandsOff(s, m, o)
    ensures Covers(AnalyzeEach(s, states, ctx, true), Exec(s, m, o, []), ctx, names)
    decreases |states|
  {
    if states[0] == a {
      SoundDirectReturn(s, a, m, o, ctx, names);
    } else {
      SoundDirectReturns(s, states[1..], a, m, o, ctx, names);
    }
  }

  /** Runs of the boundary's own statements are covered unless they hand the error off. */
  lemma {:induction false} SoundDirectList(ss: seq<Stmt>, states: seq<FlowState>, a: FlowState, m: Machine, o: Oracle,
                                           ctx: seq<Frame>, names: set<Name>)
    requires a in states && Tracks(a, m, names) && RegularList(ss, names) && Aligned(ctx, [], 0) && !ListHandsOff(ss, m, o)
    ensures Covers(AnalyzeList(ss, states, ctx, true), ExecList(ss, m, o), ctx, names)
    decreases ss
  {
    if ss != [] {
      var first := AnalyzeEach(ss[0], states, ctx, true);
      var r := Exec(ss[0], m, o, []);
      if ss[0].Return? {
        SoundDirectReturns(ss[0], states, a, m, o, ctx, names);
      } else {
        DirectSame(ss[0], states, ctx);
        SoundEach(ss[0], states, a, m, o, ctx, names);
      }
      if r.Done? && r.jump.Normal? && !Settled(r.m.ledger) {
        var a' :| a' in first.states && Tracks(a', r.m, names);
        SoundDirectList(ss[1..], first.states, a', r.m, r.rest, ctx, names);
      }
    }
  }

  lemma {:induction false} SoundBody(ss: seq<Stmt>, a: FlowState, m: Machine, o: Oracle, ctx: seq<Frame>, names: set<Name>)
    requires Tracks(a, m, names) && RegularList(ss, names) && Aligned(ctx, [], 0)
    requires !ListHandsOff(ss, m.(holders := m.holders - LexicalNames(ss)), o)
    ensures Covers(AnalyzeBlock(ss, a, ctx, true), ExecBlock(ss, m, o), ctx, names)
  {
    var scope := LexicalNames(ss);
    var a0, m0 := a.(aliases := a.aliases - scope), m.(holders := m.holders - scope);
    SoundDirectList(ss, [a0], a0, m0, o, ctx, names);
    if Disposes(ss, m0, o) { DisposesUsing(ss, m0, o); }
    SoundLeave(AnalyzeList(ss, [a0], ctx, true), ExecList(ss, m0, o), a, m, scope, HasUsing(ss), Disposes(ss, m0, o), ctx, names);
  }

  /** Outside the catch clause the binding names something else. */
  lemma {:induction false} SoundExit(out: Outcome, r: Step, outer: set<Name>, binding: Option<Name>, ctx: seq<Frame>, names: set<Name>)
    requires Covers(out, r, ctx, names)
    ensures Covers(WithoutName(out, binding), Leave(r, outer, ParamNames(binding), false), ctx, names)
  {
    var after := Leave(r, outer, ParamNames(binding), false);
    if after.Done? && !Settled(after.m.ledger) && binding.Some? {
      if r.jump.Normal? {
        var a :| a in out.states && Tracks(a, r.m, names);
        assert Tracks(a.(aliases := a.aliases - {binding.value}), after.m, names);
      } else {
        var q :| q in out.abrupt && Describes(q, r, ctx, names);
        var q' := q.(state := q.state.(aliases := q.state.aliases - {binding.value}));
        assert q' in WithoutName(out, binding).abrupt && Describes(q', after, ctx, names);
      }
    }
  }

  // ----- soundness ---------------------------------------------------------------

  /** An accepted outcome leaves no completion without evidence. */
  lemma {:induction false} EvidenceCarries(out: Outcome, r: Step, ctx: seq<Frame>, names: set<Name>)
    requires Accepts(out) && r.Done? && Covers(out, r, ctx, names)
    ensures Excused(r)
  {
    if !Settled(r.m.ledger) && !r.jump.Normal? {
      var q :| q in out.abrupt && Describes(q, r, ctx, names);
    }
  }

  /** Without a hand-off, an accepted boundary excuses every run. */
  lemma {:induction false} AcceptedWithoutHandOff(b: Boundary, names: set<Name>, ctx: seq<Frame>, outer: set<Name>, o: Oracle)
    requires b.CatchBlock? && !(b.ownedElsewhere && b.body == [])
    requires BoundaryHasEvidence(b, ctx) && RegularBoundary(b, names) && Aligned(ctx, [], 0)
    requires var m := Caught(b, outer); !ListHandsOff(b.body, m.(holders := m.holders - LexicalNames(b.body)), o)
    ensures RunBoundary(b, outer, o).step.Done? ==> Excused(RunBoundary(b, outer, o).step)
  {
    var a := FlowState(ParamNames(b.binding), Unprotected, false);
    var m, run := Caught(b, outer), RunBoundary(b, outer, o).step;
    SoundBody(b.body, a, m, o, ctx, names);
    var out, r := AnalyzeBlock(b.body, a, ctx, true), ExecBlock(b.body, m, o);
    if run.Done? {
      if b.finalizer.NoFinalizer? {
        EvidenceCarries(out, r, ctx, names);
      } else {
        SoundExit(out, r, outer, b.binding, ctx, names);
        var left := Leave(r, outer, ParamNames(b.binding), false);
        SoundFinish(b.finalizer, WithoutName(out, b.binding), left, ctx, names);
        EvidenceCarries(ApplyFinalizer(b.finalizer, WithoutName(out, b.binding), ctx), run, ctx, names);
      }
    }
  }

  /**
   What acceptance means for every regular boundary.  A terminating run of it - through any number of loop
   rounds, nested try statements, switch fallthrough and labelled jumps - lacks evidence exactly when the body
   handed the error off, a disposal or the finalizer threw that return away, and nothing else excuses the run.
   */
  lemma {:induction false} EvidenceUnlessDiscarded(b: Boundary, names: set<Name>, ctx: seq<Frame>, outer: set<Name>, o: Oracle)
    requires BoundaryHasEvidence(b, ctx)
    requires RegularBoundary(b, names) && Aligned(ctx, [], 0)
    ensures var run := RunBoundary(b, outer, o);
            run.step.Done? ==> (!Evidenced(run) <==> Discards(b, outer, o) && !Excused(run.step))
  {
    var run := RunBoundary(b, outer, o);
    if run.step.Done? && !(b.CatchBlock? && b.ownedElsewhere && b.body == []) {
      match b
      case ExpressionBody(_, e) =>
        var a := FlowState(ParamNames(b.binding), Unprotected, false);
        SoundExpr(e, a, Caught(b, outer), o, ctx, names);
        EvidenceCarries(AnalyzeExpr(e, a), run.step, ctx, names);
      case CatchBlock(_, body, _, _) =>
        var m := Caught(b, outer);
        if !ListHandsOff(body, m.(holders := m.holders - LexicalNames(body)), o) {
          AcceptedWithoutHandOff(b, names, ctx, outer, o);
        }
    }
  }

  // ----- when nothing throws a return away ---------------------------------------

  predicate ReturnsDirectly(ss: seq<Stmt>) { exists s :: s in ss && s.Return? }

  const Blank := FlowState({}, Unprotected, false)

  /** By the scan's own reading, the finalizer has no way to end other than normally. */
  predicate EndsNormally(f: Finalizer, ctx: seq<Frame>) {
    f.Finally? ==> AnalyzeBlock(f.block, Blank, ctx, false).abrupt == []
  }

  /** How the boundary's block may end before its finalizer, when no return is taken for a hand-off. */
  function PlainExits(b: Boundary, ctx: seq<Frame>): seq<Abrupt>
    requires b.CatchBlock?
  {
    WithoutName(AnalyzeBlock(b.body, FlowState(ParamNames(b.binding), Unprotected, false), ctx, false), b.binding).abrupt
  }

  /** A finalizer run from some exits: wherever it ends abruptly it has evidence, a capture, a rethrow, or a waiver. */
  predicate ExcusesFrom(block: seq<Stmt>, exits: seq<Abrupt>, ctx: seq<Frame>) {
    forall q, p :: q in exits && p in AnalyzeBlock(block, q.state, ctx, false).abrupt ==> CompletionHasEvidence(p)
  }

  predicate ExcusesItself(b: Boundary, ctx: seq<Frame>)
    requires b.CatchBlock?
  {
    b.finalizer.Finally? ==> ExcusesFrom(b.finalizer.block, PlainExits(b, ctx), ctx)
  }

  /**
   A boundary with a finalizer: no direct return, or no disposal beside it, and a finalizer that ends normally or has
   evidence wherever it does not.
   */
  predicate KeepsReturns(b: Boundary, ctx: seq<Frame>) {
    b.CatchBlock? && b.finalizer.Finally? && ReturnsDirectly(b.body) ==>
      !HasUsing(b.body) && (EndsNormally(b.finalizer, ctx) || ExcusesItself(b, ctx))
  }

  lemma {:induction false} HandOffReturns(ss: seq<Stmt>, m: Machine, o: Oracle)
    requires ListHandsOff(ss, m, o)
    ensures ReturnsDirectly(ss)
  {
    var r := Exec(ss[0], m, o, []);
    if r.Done? && r.jump.Normal? {
      HandOffReturns(ss[1..], r.m, r.rest);
      var s :| s in ss[1..] && s.Return?;
      assert s in ss;
    } else {
      assert ss[0] in ss;
    }
  }

  /** A finalizer that by the scan's reading ends normally does so, unless it settles the error itself. */
  lemma {:induction false} NormalFinalizer(f: Finalizer, m: Machine, o: Oracle, ctx: seq<Frame>, names: set<Name>)
    requires f.Finally? && EndsNormally(f, ctx) && RegularList(f.block, names) && Aligned(ctx, [], 0)
    ensures var r := ExecBlock(f.block, m, o); r.Done? ==> r.jump.Normal? || Settled(r.m.ledger)
  {
    SoundBlock(f.block, Blank, m, o, ctx, names);
  }

  lemma {:induction false} HandOffAbrupt(ss: seq<Stmt>, m: Machine, o: Oracle)
    requires ListHandsOff(ss, m, o) && ExecList(ss, m, o).Done?
    ensures !ExecList(ss, m, o).jump.Normal?
  {
    var r := Exec(ss[0], m, o, []);
    if r.Done? && r.jump.Normal? { HandOffAbrupt(ss[1..], r.m, r.rest); }
  }

  lemma {:induction false} DescribedExcused(q: Abrupt, r: Step, ctx: seq<Frame>, names: set<Name>)
    requires r.Done? && Describes(q, r, ctx, names) && CompletionHasEvidence(q)
    ensures Excused(r)
  {
  }

  lemma {:induction false} ExcusedAfter(block: seq<Stmt>, out: Outcome, left: Step, ctx: seq<Frame>, names: set<Name>)
    requires ExcusesFrom(block, out.abrupt, ctx) && RegularList(block, names) && Aligned(ctx, [], 0)
    requires left.Done? && !left.jump.Normal? && Covers(out, left, ctx, names)
    ensures var r := ExecBlock(block, left.m, left.rest); r.Done? ==> r.jump.Normal? || Excused(r)
  {
    var r := ExecBlock(block, left.m, left.rest);
    if r.Done? && !r.jump.Normal? && !Settled(r.m.ledger) {
      var q :| q in out.abrupt && Describes(q, left, ctx, names);
      SoundBlock(block, q.state, left.m, left.rest, ctx, names);
      var p :| p in AnalyzeBlock(block, q.state, ctx, false).abrupt && Describes(p, r, ctx, names);
      DescribedExcused(p, r, ctx, names);
    }
  }

  /** A finalizer that excuses itself does so after every abrupt exit of the block. */
  lemma {:induction false} ExcusingFinalizer(b: Boundary, names: set<Name>, ctx: seq<Frame>, outer: set<Name>, o: Oracle)
    requires b.CatchBlock? && b.finalizer.Finally? && ExcusesItself(b, ctx)
    requires RegularBoundary(b, names) && Aligned(ctx, [], 0)
    requires var r := ExecBlock(b.body, Caught(b, outer), o); r.Done? && !r.jump.Normal?
    ensures var left := Leave(ExecBlock(b.body, Caught(b, outer), o), outer, ParamNames(b.binding), false);
            var r := ExecBlock(b.finalizer.block, left.m, left.rest);
            r.Done? ==> r.jump.Normal? || Excused(r)
  {
    var a, m := FlowState(ParamNames(b.binding), Unprotected, false), Caught(b, outer);
    var out, r := AnalyzeBlock(b.body, a, ctx, false), ExecBlock(b.body, m, o);
    SoundBlock(b.body, a, m, o, ctx, names);
    SoundExit(out, r, outer, b.binding, ctx, names);
    ExcusedAfter(b.finalizer.block, WithoutName(out, b.binding), Leave(r, outer, ParamNames(b.binding), false), ctx, names);
  }

  lemma {:induction false} NoDisposal(ss: seq<Stmt>, m: Machine, o: Oracle)
    requires !HasUsing(ss)
    ensures !Disposes(ss, m, o)
  {
    if Disposes(ss, m, o) { DisposesUsing(ss, m, o); }
  }

  /** A throw while the error is at most deferred, which no boundary without a finalizer may let out. */
  predicate Bare(q: Abrupt) { q.kind.Throwing? && !q.exactOriginal && !q.waived && !IsTerminal(q.state.protection) }

  lemma {:induction false} EachIncluded(s: Stmt, states: seq<FlowState>, a: FlowState, ctx: seq<Frame>, q: Abrupt)
    requires a in states && s.Declare? && q in AnalyzeStmt(s, a, ctx, true).abrupt
    ensures q in AnalyzeEach(s, states, ctx, true).abrupt
    decreases |states|
  {
    if states[0] != a { EachIncluded(s, states[1..], a, ctx, q); }
  }

  /** A `using` declaration that completes while the error is unsettled may also have thrown. */
  lemma {:induction false} UsingMayThrow(s: Stmt, states: seq<FlowState>, a: FlowState, m: Machine, o: Oracle, ctx: seq<Frame>,
                                         names: set<Name>)
    requires a in states && Tracks(a, m, names) && Regular(s, names)
    requires s.Declare? && IsUsing(s.kind) && s.declarators != []
    requires var r := Exec(s, m, o, []); r.Done? && r.jump.Normal? && !Settled(r.m.ledger)
    ensures exists q :: q in AnalyzeEach(s, states, ctx, true).abrupt && Bare(q)
  {
    var d := s.declarators[0];
    assert d in s.declarators;
    SoundDeclarator(s.kind, d, a, m, o, ctx, names);
    var v := EvalOptional(d.init, m, o);
    var a' :| ThrowFrom(a') in AnalyzeDeclarator(s.kind, d, a).abrupt && Tracks(a', v.m, names);
    DeclaratorIncluded(s.kind, d, [a], a);
    assert ThrowFrom(a') in AnalyzeStmt(s, a, ctx, true).abrupt;
    EachIncluded(s, states, a, ctx, ThrowFrom(a'));
    assert Bare(ThrowFrom(a'));
  }

  /** So the scan sees such a throw wherever a disposal could discard a hand-off. */
  lemma {:induction false} DisposalShows(ss: seq<Stmt>, states: seq<FlowState>, a: FlowState, m: Machine, o: Oracle,
                                         ctx: seq<Frame>, names: set<Name>)
    requires a in states && Tracks(a, m, names) && RegularList(ss, names) && Aligned(ctx, [], 0)
    requires Disposes(ss, m, o) && ListHandsOff(ss, m, o)
    requires ExecList(ss, m, o).Done? && !Settled(ExecList(ss, m, o).m.ledger)
    ensures exists q :: q in AnalyzeList(ss, states, ctx, true).abrupt && Bare(q)
    decreases ss
  {
    var r := Exec(ss[0], m, o, []);
    var first := AnalyzeEach(ss[0], states, ctx, true);
    if ss[0].Declare? && IsUsing(ss[0].kind) && ss[0].declarators != [] {
      UsingMayThrow(ss[0], states, a, m, o, ctx, names);
      var q :| q in first.abrupt && Bare(q);
      assert q in AnalyzeList(ss, states, ctx, true).abrupt;
    } else {
      DirectSame(ss[0], states, ctx);
      SoundEach(ss[0], states, a, m, o, ctx, names);
      var a' :| a' in first.states && Tracks(a', r.m, names);
      DisposalShows(ss[1..], first.states, a', r.m, r.rest, ctx, names);
      var q :| q in AnalyzeList(ss[1..], first.states, ctx, true).abrupt && Bare(q);
      assert q in AnalyzeList(ss, states, ctx, true).abrupt;
    }
  }

  lemma {:induction false} BareLeaves(out: Outcome, outer: FlowState, scope: set<Name>, disposes: bool)
    requires exists q :: q in out.abrupt && Bare(q)
    ensures exists q :: q in LeaveScope(out, outer, scope, disposes).abrupt && Bare(q)
  {
    var q :| q in out.abrupt && Bare(q);
    var thrown := if disposes then ThrowsFrom(out.states + StatesOf(out.abrupt)) else [];
    assert q in out.abrupt + thrown;
    var q' := q.(state := Restore(q.state, outer, scope));
    assert q' in RestoreAbrupt(out.abrupt + thrown, outer, scope) && Bare(q');
  }

  /** In an accepted block, no disposal stands beside a return that hands an unsettled error off. */
  lemma {:induction false} NoDisposalBeside(ss: seq<Stmt>, a: FlowState, m: Machine, o: Oracle, ctx: seq<Frame>, names: set<Name>)
    requires Tracks(a, m, names) && RegularList(ss, names) && Aligned(ctx, [], 0)
    requires Accepts(AnalyzeBlock(ss, a, ctx, true))
    requires var m0 := m.(holders := m.holders - LexicalNames(ss));
             Disposes(ss, m0, o) && ListHandsOff(ss, m0, o) && ExecList(ss, m0, o).Done?
    ensures Settled(ExecList(ss, m.(holders := m.holders - LexicalNames(ss)), o).m.ledger)
  {
    var scope := LexicalNames(ss);
    var a0, m0 := a.(aliases := a.aliases - scope), m.(holders := m.holders - scope);
    if !Settled(ExecList(ss, m0, o).m.ledger) {
      DisposalShows(ss, [a0], a0, m0, o, ctx, names);
      BareLeaves(AnalyzeList(ss, [a0], ctx, true), a, scope, HasUsing(ss));
    }
  }

  /** Without a finalizer, an accepted boundary discards no hand-off of an unsettled error. */
  lemma {:induction false} KeptWithoutFinalizer(b: Boundary, names: set<Name>, ctx: seq<Frame>, outer: set<Name>, o: Oracle)
    requires b.CatchBlock? && b.finalizer.NoFinalizer? && BoundaryHasEvidence(b, ctx)
    requires RegularBoundary(b, names) && Aligned(ctx, [], 0)
    requires RunBoundary(b, outer, o).step.Done? && Discards(b, outer, o)
    ensures Settled(RunBoundary(b, outer, o).step.m.ledger)
  {
    var a, m := FlowState(ParamNames(b.binding), Unprotected, false), Caught(b, outer);
    var m0 := m.(holders := m.holders - LexicalNames(b.body));
    NoDisposalBeside(b.body, a, m, o, ctx, names);
  }

  lemma {:induction false} KeptByFinalizer(b: Boundary, names: set<Name>, ctx: seq<Frame>, outer: set<Name>, o: Oracle)
    requires b.CatchBlock? && b.finalizer.Finally? && KeepsReturns(b, ctx)
    requires RegularBoundary(b, names) && Aligned(ctx, [], 0)
    requires RunBoundary(b, outer, o).step.Done? && Discards(b, outer, o)
    ensures Excused(RunBoundary(b, outer, o).step)
  {
    var m := Caught(b, outer);
    var m0 := m.(holders := m.holders - LexicalNames(b.body));
    HandOffReturns(b.body, m0, o);
    HandOffAbrupt(b.body, m0, o);
    NoDisposal(b.body, m0, o);
    var left := Leave(ExecBody(b.body, m, o).step, outer, ParamNames(b.binding), false);
    if EndsNormally(b.finalizer, ctx) {
      NormalFinalizer(b.finalizer, left.m, left.rest, ctx, names);
    } else {
      ExcusingFinalizer(b, names, ctx, outer, o);
    }
  }

  /**
   Soundness.  If the scan accepts a regular boundary, and its finalizer, if it has one, cannot throw a direct return
   away, then every terminating run of it ends with the caught error captured, forwarded, handed off while deferred,
   rethrown by identity, or waived.
   */
  lemma {:induction false} AcceptedBoundaryIsSound(b: Boundary, names: set<Name>, ctx: seq<Frame>, outer: set<Name>, o: Oracle)
    requires BoundaryHasEvidence(b, ctx) && KeepsReturns(b, ctx)
    requires RegularBoundary(b, names) && Aligned(ctx, [], 0)
    ensures RunBoundary(b, outer, o).step.Done? ==> Evidenced(RunBoundary(b, outer, o))
  {
    EvidenceUnlessDiscarded(b, names, ctx, outer, o);
    if RunBoundary(b, outer, o).step.Done? && Discards(b, outer, o) {
      if b.finalizer.NoFinalizer? {
        KeptWithoutFinalizer(b, names, ctx, outer, o);
      } else {
        KeptByFinalizer(b, names, ctx, outer, o);
      }
    }
  }

  /** A run that never defers the error hands nothing off. */
  lemma {:induction false} NeverDeferred(ss: seq<Stmt>, m: Machine, o: Oracle)
    requires var r := ExecList(ss, m, o); r.Done? && !r.m.ledger.deferred
    ensures !ListHandsOff(ss, m, o)
  {
    if ss != [] {
      var r := Exec(ss[0], m, o, []);
      if r.Done? && r.jump.Normal? { NeverDeferred(ss[1..], r.m, r.rest); }
    }
  }

  // ----- why the conditions are needed -------------------------------------------

  /** A constant copy made in a for-initializer, which the scan still takes for an alias after the loop. */
  function CopyLoop(err: Name, x: Name, c: Name): Stmt {
    For(InitDeclare(Const, [Declarator(x, Some(Read(err)))]), Some(Read(c)), None, Inert)
  }

  function CaptureOf(x: Name): Stmt {
    Expression(FacadeCall(Some(x), true, TerminalMode, false, {}), false)
  }

  /** catch (err) { for (const x = err; c; ) {} capture(x); }  where x outside the loop is another binding */
  function ForInitializerCopy(err: Name, x: Name, c: Name): Boundary {
    CatchBlock(Some(err), [CopyLoop(err, x, c), CaptureOf(x)], false, NoFinalizer)
  }

  lemma {:induction false} OneState(s: Stmt, a: FlowState, ctx: seq<Frame>, direct: bool)
    ensures AnalyzeEach(s, [a], ctx, direct) == Honour(s, AnalyzeStmt(s, a, ctx, direct))
  {
    var o := Honour(s, AnalyzeStmt(s, a, ctx, direct));
    assert AnalyzeEach(s, [a], ctx, direct) == Join(o, Nothing);
    assert o.states + [] == o.states && o.abrupt + [] == o.abrupt;
  }

  lemma {:induction false} NoScope(states: seq<FlowState>, qs: seq<Abrupt>, outer: FlowState)
    ensures RestoreStates(states, outer, {}) == states && RestoreAbrupt(qs, outer, {}) == qs
  {
    if states != [] {
      NoScope(states[1..], qs, outer);
      assert Restore(states[0], outer, {}) == states[0];
    } else if qs != [] {
      NoScope(states, qs[1..], outer);
      assert Restore(qs[0].state, outer, {}) == qs[0].state;
    }
  }

  lemma {:induction false} ReadKeeps(name: Name, a: FlowState)
    ensures AnalyzeExprs(Read(name), [a]) == Outcome([a], [], false)
  {
    assert a.aliases - {} == a.aliases;
    assert AnalyzeExpr(Read(name), a) == Outcome([a], [], false);
    assert [a][1..] == [];
  }

  lemma {:induction false} CopyDeclared(err: Name, x: Name)
    requires err != x
    ensures AnalyzeDeclarators(Const, [Declarator(x, Some(Read(err)))], [FlowState({err}, Unprotected, false)]) ==
            Outcome([FlowState({err, x}, Unprotected, false)], [], false)
  {
    var a, a' := FlowState({err}, Unprotected, false), FlowState({err, x}, Unprotected, false);
    var d := Declarator(x, Some(Read(err)));
    ReadKeeps(err, a);
    assert Bind(Const, d, a, a) == a';
    assert [a][1..] == [];
    assert BindAll(Const, d, a, [a]) == [a'];
    assert AnalyzeDeclarator(Const, d, a) == Outcome([a'], [], false);
    assert AnalyzeDeclaratorEach(Const, d, [a]) == Outcome([a'], [], false);
    assert [d][1..] == [];
  }

  lemma {:induction false} CopyLoopOutcome(err: Name, x: Name, c: Name)
    requires err != x
    ensures AnalyzeStmt(CopyLoop(err, x, c), FlowState({err}, Unprotected, false), [], true) ==
            Outcome([FlowState({err, x}, Unprotected, false), FlowState({err, x}, Unprotected, false)], [], false)
  {
    var a, a' := FlowState({err}, Unprotected, false), FlowState({err, x}, Unprotected, false);
    CopyDeclared(err, x);
    ReadKeeps(c, a');
    OneState(Inert, a', [] + [LoopFrame], false);
    assert AnalyzeStmt(Inert, a', [] + [LoopFrame], false) == Outcome([a'], [], false);
    assert [a'] + [] == [a'];
  }

  lemma {:induction false} CaptureOutcome(x: Name, a: FlowState)
    requires x in a.aliases && a.protection.Unprotected?
    ensures var out := AnalyzeStmt(CaptureOf(x), a, [], true);
            out.abrupt == [] && !out.unsafe && out.states == [a.(protection := Generic, terminalized := true)]
  {
    assert a.aliases - {} == a.aliases;
  }

  lemma {:induction false} CopyBodyOutcome(err: Name, x: Name, c: Name)
    requires err != x
    ensures Accepts(AnalyzeList([CopyLoop(err, x, c), CaptureOf(x)], [FlowState({err}, Unprotected, false)], [], true))
  {
    var a, a' := FlowState({err}, Unprotected, false), FlowState({err, x}, Unprotected, false);
    var ss := [CopyLoop(err, x, c), CaptureOf(x)];
    CopyLoopOutcome(err, x, c);
    OneState(ss[0], a, [], true);
    CaptureOutcome(x, a');
    var done := AnalyzeStmt(ss[1], a', [], true);
    assert [a', a'][1..] == [a'] && [a'][1..] == [];
    OneState(ss[1], a', [], true);
    assert AnalyzeEach(ss[1], [a', a'], [], true) == Join(done, AnalyzeEach(ss[1], [a'], [], true));
    assert ss[1..] == [ss[1]] && [ss[1]][1..] == [];
    var second := AnalyzeEach(ss[1], [a', a'], [], true);
    assert !second.unsafe && second.abrupt == [];
    assert AnalyzeList([ss[1]], [a', a'], [], true) == Then(second, Outcome(second.states, [], false));
  }

  lemma {:induction false} PlainPair(s: Stmt, t: Stmt)
    requires !s.Declare? && !t.Declare?
    ensures LexicalNames([s, t]) == {} && !HasUsing([s, t])
  {
    assert [s, t][1..] == [t] && [t][1..] == [];
    assert LexicalNames([t]) == {};
  }

  lemma {:induction false} CopyAccepted(err: Name, x: Name, c: Name)
    requires err != x
    ensures BoundaryHasEvidence(ForInitializerCopy(err, x, c), [])
  {
    var ss := [CopyLoop(err, x, c), CaptureOf(x)];
    var a := FlowState({err}, Unprotected, false);
    CopyBodyOutcome(err, x, c);
    assert ss[1..] == [ss[1]] && [ss[1]][1..] == [];
    PlainPair(ss[0], ss[1]);
    assert a.aliases - {} == a.aliases;
    var all := AnalyzeList(ss, [a], [], true);
    NoScope(all.states, all.abrupt, a);
    assert all.abrupt + [] == all.abrupt;
  }

  lemma {:induction false} CopyLoopRun(err: Name, x: Name, c: Name, m: Machine, o: Oracle)
    requires err != x && |o| == 4 && (forall i :: 0 <= i < 4 ==> o[i] == Pick(false)) && m.holders == {err}
    ensures Exec(CopyLoop(err, x, c), m, o, []) == Done(m, Normal, false, o[3..])
  {
    var s := CopyLoop(err, x, c);
    var m' := m.(holders := {err, x});
    var d := Declarator(x, Some(Read(err)));
    assert [d][1..] == [];
    assert Assign({err}, x, true) == {err, x};
    assert ExecDeclarators(Const, [d], m, o) == Done(m', Normal, false, o[1..]);
    assert o[1..][1..] == o[2..] && o[2..][1..] == o[3..];
    assert EvalOptional(s.test, m', o[2..]) == Value(m', c in m'.holders, o[3..]);
    assert IterateFor(s, m', o[1..], []) == Done(m', Normal, false, o[3..]);
    assert ScopedByInit(s.init) == {x};
    assert Reinstate({err, x}, {err}, {x}) == {err};
  }

  lemma {:induction false} CopyBodyRun(err: Name, x: Name, c: Name, m: Machine, o: Oracle)
    requires err != x && |o| == 4 && (forall i :: 0 <= i < 4 ==> o[i] == Pick(false)) && m.holders == {err}
    ensures ExecList([CopyLoop(err, x, c), CaptureOf(x)], m, o) == Done(m, Normal, false, [])
  {
    var ss := [CopyLoop(err, x, c), CaptureOf(x)];
    CopyLoopRun(err, x, c, m, o);
    assert Rebind(m.holders, {}, Pick(false)) == m.holders;
    assert o[3..][1..] == [];
    assert Exec(ss[1], m, o[3..], []) == Done(m, Normal, false, []);
    assert ss[1..] == [ss[1]] && [ss[1]][1..] == [];
    assert ExecList([ss[1]], m, o[3..]) == Done(m, Normal, false, []);
  }

  /** A constant copied in a for-initializer stays an alias after the loop, so the scan is deceived. */
  lemma {:induction false} ForInitializerCopyDeceives(err: Name, x: Name, c: Name)
    requires err != x
    ensures BoundaryHasEvidence(ForInitializerCopy(err, x, c), [])
    ensures exists o: Oracle :: RunBoundary(ForInitializerCopy(err, x, c), {}, o).step.Done? &&
                                !Evidenced(RunBoundary(ForInitializerCopy(err, x, c), {}, o))
  {
    CopyAccepted(err, x, c);
    var ss := [CopyLoop(err, x, c), CaptureOf(x)];
    var o := [Pick(false), Pick(false), Pick(false), Pick(false)];
    var m := Machine({err}, Ledger(false, false, false, false));
    CopyBodyRun(err, x, c, m, o);
    assert ss[1..] == [ss[1]] && [ss[1]][1..] == [];
    PlainPair(ss[0], ss[1]);
    assert m.holders - {} == m.holders && {} + {err} == {err};
    assert m == Caught(ForInitializerCopy(err, x, c), {}) && m.(holders := m.holders - {}) == m;
    NeverDeferred(ss, m, o);
    NoDisposal(ss, m, o);
    assert ExecBlock(ss, m, o).Done?;
    assert RunBoundary(ForInitializerCopy(err, x, c), {}, o).step.Done?;
  }

  // ----- an alias reassigned while a loop goes round -------------------------------

  function CaptureAndReturn(err: Name): Stmt { Block([CaptureOf(err), Return(None, false)], false) }

  /** try { err = other(); } catch {} */
  function GuardedReassignment(err: Name): Stmt {
    Try([Expression(Other(true, true, false, {err}), false)], Some(Handler(None, [])), NoFinalizer)
  }

  function RoundBody(err: Name, d: Name): Stmt {
    If(Read(d), CaptureAndReturn(err), Some(GuardedReassignment(err)))
  }

  /**
   catch (err) { while (c) if (d) { capture(err); return; } else try { err = other(); } catch {}
                 return; }   with an ignore comment in front of the last return
   */
  function LoopReassignment(err: Name, c: Name, d: Name): Boundary {
    CatchBlock(Some(err), [While(Read(c), RoundBody(err, d)), Return(None, true)], false, NoFinalizer)
  }

  lemma {:induction false} BareReturn(a: FlowState, ctx: seq<Frame>, direct: bool, ignored: bool)
    ensures AnalyzeStmt(Return(None, ignored), a, ctx, direct) ==
            Outcome([], [Abrupt(Returning, OwnReturn(a, direct), None, false, false, true)], false)
  {
    assert [a][1..] == [];
    assert Returns([a], direct) == [Abrupt(Returning, OwnReturn(a, direct), None, false, false, true)];
  }

  lemma {:induction false} CaptureAndReturnOutcome(err: Name, a: FlowState, ctx: seq<Frame>)
    requires a == FlowState({err}, Unprotected, false)
    ensures var out := AnalyzeStmt(CaptureAndReturn(err), a, ctx, false);
            out.states == [] && !out.unsafe && forall q :: q in out.abrupt ==> CompletionHasEvidence(q)
  {
    var ss := [CaptureOf(err), Return(None, false)];
    var a' := a.(protection := Generic, terminalized := true);
    var q := Abrupt(Returning, a', None, false, false, true);
    PlainPair(ss[0], ss[1]);
    assert a.aliases - {} == a.aliases;
    assert AnalyzeStmt(ss[0], a, ctx, false) == Outcome([a'], [], false);
    OneState(ss[0], a, ctx, false);
    BareReturn(a', ctx, false, false);
    OneState(ss[1], a', ctx, false);
    assert ss[1..] == [ss[1]] && [ss[1]][1..] == [];
    assert AnalyzeList([ss[1]], [a'], ctx, false) == Outcome([], [q], false);
    assert AnalyzeList(ss, [a], ctx, false) == Outcome([], [q], false);
    NoScope([], [q], a);
    assert [q] + [] == [q];
  }

  lemma {:induction false} PlainSingle(s: Stmt)
    requires !s.Declare?
    ensures LexicalNames([s]) == {} && !HasUsing([s]) && LexicalNames([]) == {} && !HasUsing([])
  {
    assert [s][1..] == [];
  }

  lemma {:induction false} GuardedReassignmentOutcome(err: Name, a: FlowState, ctx: seq<Frame>)
    requires a == FlowState({err}, Unprotected, false)
    ensures var out := AnalyzeStmt(GuardedReassignment(err), a, ctx, false); out.abrupt == [] && !out.unsafe
  {
    var s := GuardedReassignment(err);
    PlainSingle(s.tried[0]);
    assert a.aliases - {} == a.aliases;
    OneState(s.tried[0], a, ctx, false);
    assert AnalyzeStmt(s.tried[0], a, ctx, false).abrupt == [ThrowFrom(a)];
    assert s.tried[1..] == [];
    assert AnalyzeList([], AnalyzeEach(s.tried[0], [a], ctx, false).states, ctx, false).abrupt == [];
    assert [ThrowFrom(a)] + [] == [ThrowFrom(a)];
    var list := AnalyzeList(s.tried, [a], ctx, false);
    assert list.abrupt == [ThrowFrom(a)];
    NoScope(list.states, list.abrupt, a);
    assert list.abrupt + [] == list.abrupt;
    var tried := AnalyzeBlock(s.tried, a, ctx, false);
    assert tried.abrupt == [ThrowFrom(a)];
    assert AnalyzeList([], [a], ctx, false) == Outcome([a], [], false);
    NoScope([a], [], a);
    assert AnalyzeBlock([], a, ctx, false) == Outcome([a], [], false);
    assert tried.abrupt[1..] == [];
    assert AnalyzeHandler(s.handler.value, tried.abrupt, ctx) == Join(Outcome([a], [], false), Nothing);
    assert AnalyzeTry(s, a, ctx).abrupt == [];
  }

  /** Both branches of an if whose condition only reads. */
  lemma {:induction false} BranchesOutcome(d: Name, t: Stmt, f: Stmt, a: FlowState, ctx: seq<Frame>)
    requires AnalyzeExpr(Read(d), a) == Outcome([a], [], false)
    ensures var x, y := Honour(t, AnalyzeStmt(t, a, ctx, false)), Honour(f, AnalyzeStmt(f, a, ctx, false));
            AnalyzeStmt(If(Read(d), t, Some(f)), a, ctx, false) == Then(Outcome([a], [], false), Join(x, y))
  {
    OneState(t, a, ctx, false);
    OneState(f, a, ctx, false);
  }

  lemma {:induction false} RoundBodyOutcome(err: Name, d: Name, a: FlowState, ctx: seq<Frame>)
    requires a == FlowState({err}, Unprotected, false)
    ensures var body := AnalyzeEach(RoundBody(err, d), [a], ctx, false);
            !body.unsafe && forall q :: q in body.abrupt ==> CompletionHasEvidence(q)
  {
    assert a.aliases - {} == a.aliases && AnalyzeExpr(Read(d), a) == Outcome([a], [], false);
    CaptureAndReturnOutcome(err, a, ctx);
    GuardedReassignmentOutcome(err, a, ctx);
    BranchesOutcome(d, CaptureAndReturn(err), GuardedReassignment(err), a, ctx);
    OneState(RoundBody(err, d), a, ctx, false);
  }

  lemma {:induction false} LoopAccepted(err: Name, c: Name, d: Name)
    ensures var out := AnalyzeStmt(While(Read(c), RoundBody(err, d)), FlowState({err}, Unprotected, false), [], true);
            !out.unsafe && forall q :: q in out.abrupt ==> CompletionHasEvidence(q)
  {
    var a := FlowState({err}, Unprotected, false);
    var ctx := [] + [LoopFrame];
    assert a.aliases - {} == a.aliases && AnalyzeExpr(Read(c), a) == Outcome([a], [], false);
    RoundBodyOutcome(err, d, a, ctx);
    var body := AnalyzeEach(RoundBody(err, d), [a], ctx, false);
    ReadsQuietly(c, body.states + Landing(body.abrupt, Continuing, 0));
    PassingWithin(body.abrupt, 0, true);
  }

  lemma {:induction false} ReadsQuietly(c: Name, states: seq<FlowState>)
    ensures AnalyzeExprs(Read(c), states).abrupt == [] && !AnalyzeExprs(Read(c), states).unsafe
  {
    if states != [] { ReadsQuietly(c, states[1..]); }
  }

  lemma {:induction false} PassingWithin(qs: seq<Abrupt>, target: nat, continues: bool)
    ensures forall q :: q in Passing(qs, target, continues) ==> q in qs
  {
    if qs != [] { PassingWithin(qs[1..], target, continues); }
  }

  lemma {:induction false} WaivedReturns(states: seq<FlowState>, ctx: seq<Frame>)
    ensures var out := AnalyzeEach(Return(None, true), states, ctx, true);
            out.states == [] && !out.unsafe && forall q :: q in out.abrupt ==> CompletionHasEvidence(q)
  {
    if states != [] {
      WaivedReturns(states[1..], ctx);
      var o := AnalyzeStmt(Return(None, true), states[0], ctx, true);
      BareReturn(states[0], ctx, true, true);
      assert o.abrupt[1..] == [];
      assert WaiveAll(o.abrupt) == [Waive(o.abrupt[0])];
    }
  }

  lemma {:induction false} LoopReassignmentAccepted(err: Name, c: Name, d: Name)
    ensures BoundaryHasEvidence(LoopReassignment(err, c, d), [])
  {
    var ss := LoopReassignment(err, c, d).body;
    var a := FlowState({err}, Unprotected, false);
    LoopAccepted(err, c, d);
    OneState(ss[0], a, [], true);
    var first := AnalyzeEach(ss[0], [a], [], true);
    WaivedReturns(first.states, []);
    var second := AnalyzeEach(ss[1], first.states, [], true);
    assert ss[1..] == [ss[1]] && [ss[1]][1..] == [];
    assert AnalyzeList([ss[1]], first.states, [], true) == Then(second, Outcome(second.states, [], false));
    var all := AnalyzeList(ss, [a], [], true);
    assert Accepts(all);
    PlainPair(ss[0], ss[1]);
    assert a.aliases - {} == a.aliases;
    NoScope(all.states, all.abrupt, a);
    assert all.abrupt + [] == all.abrupt;
  }

  /** First round: the name is given another value.  Second round: that value is captured, and the boundary left. */
  lemma {:induction false} SecondRound(err: Name, c: Name, d: Name, m: Machine, o: Oracle)
    requires |o| == 5 && o[1].taken && o[3].taken && !o[4].throws && m.holders == {}
    ensures IterateWhile(While(Read(c), RoundBody(err, d)), m, o, []) == Done(m, Returned, false, [])
  {
    var s := While(Read(c), RoundBody(err, d));
    var ss := [CaptureOf(err), Return(None, false)];
    assert o[1..][1..] == o[2..] && o[2..][1..] == o[3..] && o[3..][1..] == o[4..] && o[4..][1..] == [];
    PlainPair(ss[0], ss[1]);
    assert m.holders - {} == m.holders && Rebind(m.holders, {}, o[4]) == m.holders;
    assert Exec(ss[0], m, o[4..], []) == Done(m, Normal, false, []);
    assert ss[1..] == [ss[1]];
    assert Exec(ss[1], m, [], []) == Done(m, Returned, false, []);
    assert ExecList([ss[1]], m, []) == Done(m, Returned, false, []);
    NoDisposal(ss, m, o[4..]);
    assert m.(holders := m.holders - {}) == m;
    assert ExecBlock(ss, m, o[4..]) == Done(m, Returned, false, []);
    assert Exec(CaptureAndReturn(err), m, o[4..], []) == Done(m, Returned, false, []);
    assert Exec(s.loopBody, m, o[2..], []) == Done(m, Returned, false, []);
  }

  lemma {:induction false} FirstRound(err: Name, d: Name, m: Machine, o: Oracle)
    requires |o| >= 3 && !o[1].taken && o[2] == Pick(false) && m.holders == {err}
    ensures Exec(RoundBody(err, d), m, o, []) == Done(m.(holders := {}), Normal, false, o[3..])
  {
    var s := GuardedReassignment(err);
    assert o[1..][1..] == o[2..] && o[2..][1..] == o[3..];
    PlainSingle(s.tried[0]);
    assert m.holders - {} == m.holders && Rebind(m.holders, {err}, o[2]) == {};
    assert Exec(s.tried[0], m, o[2..], []) == Done(m.(holders := {}), Normal, false, o[3..]);
    assert s.tried[1..] == [];
    assert ExecList(s.tried, m, o[2..]) == Done(m.(holders := {}), Normal, false, o[3..]);
    NoDisposal(s.tried, m, o[2..]);
    assert m.(holders := m.holders - {}) == m;
    assert ExecBlock(s.tried, m, o[2..]) == Done(m.(holders := {}), Normal, false, o[3..]);
    assert ExecTry(s, m, o[2..]) == Done(m.(holders := {}), Normal, false, o[3..]);
    assert Exec(s, m, o[2..], []) == Done(m.(holders := {}), Normal, false, o[3..]);
  }

  lemma {:induction false} TwoRounds(err: Name, c: Name, d: Name, m: Machine, o: Oracle)
    requires |o| == 10 && o[1].taken && !o[3].taken && o[4] == Pick(false) && m.holders == {err}
    requires o[6].taken && o[8].taken && !o[9].throws
    ensures IterateWhile(While(Read(c), RoundBody(err, d)), m, o, []) ==
            Done(m.(holders := {}), Returned, false, [])
  {
    assert o[1..][1..] == o[2..] && o[2..][3..] == o[5..];
    FirstRound(err, d, m, o[2..]);
    SecondRound(err, c, d, m.(holders := {}), o[5..]);
  }

  /** Choices that lead through two rounds. */
  const TwoRoundChoices: Oracle :=
    [Pick(false), Pick(true), Pick(false), Pick(false), Pick(false), Pick(false), Pick(true), Pick(false), Pick(true), Pick(false)]

  lemma {:induction false} LosingBody(err: Name, c: Name, d: Name, m: Machine)
    requires m == Machine({err}, Ledger(false, false, false, false))
    ensures var ss := LoopReassignment(err, c, d).body;
            ExecList(ss, m, TwoRoundChoices) == Done(m.(holders := {}), Returned, false, [])
  {
    var ss := LoopReassignment(err, c, d).body;
    TwoRounds(err, c, d, m, TwoRoundChoices);
    assert Exec(ss[0], m, TwoRoundChoices, []) == Done(m.(holders := {}), Returned, false, []);
  }

  lemma {:induction false} LosingRun(err: Name, c: Name, d: Name)
    ensures var run := RunBoundary(LoopReassignment(err, c, d), {}, TwoRoundChoices); run.step.Done? && !Evidenced(run)
  {
    var m := Machine({err}, Ledger(false, false, false, false));
    var ss := LoopReassignment(err, c, d).body;
    LosingBody(err, c, d, m);
    PlainPair(ss[0], ss[1]);
    assert m.holders - {} == m.holders && {} + {err} == {err};
    assert m == Caught(LoopReassignment(err, c, d), {}) && m.(holders := m.holders - {}) == m;
    NeverDeferred(ss, m, TwoRoundChoices);
    NoDisposal(ss, m, TwoRoundChoices);
    assert ExecBlock(ss, m, TwoRoundChoices) == Leave(Done(m.(holders := {}), Returned, false, []), m.holders, {}, false);
  }

  /** One unrolling is not enough when a loop body reassigns the caught error's name. */
  lemma {:induction false} LoopReassignmentDeceives(err: Name, c: Name, d: Name)
    ensures BoundaryHasEvidence(LoopReassignment(err, c, d), [])
    ensures exists o: Oracle :: RunBoundary(LoopReassignment(err, c, d), {}, o).step.Done? &&
                                !Evidenced(RunBoundary(LoopReassignment(err, c, d), {}, o))
  {
    LoopReassignmentAccepted(err, c, d);
    LosingRun(err, c, d);
  }
}
