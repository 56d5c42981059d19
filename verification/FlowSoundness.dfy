/**
 Soundness of the coverage scan: when it accepts a boundary, every terminating run of
 that boundary ends with evidence for the caught error.
 */
module FlowSoundness {
  import opened Wrappers
  import opened FlowSyntax
  import opened FlowAnalysis
  import opened FlowSemantics

  // ----- what an abstract state says about a concrete one ------------------------

  /** Unless the error is already settled, aliases really hold it and protection is not overstated. */
  ghost predicate Tracks(a: FlowState, m: Machine, names: set<Name>) {
    Settled(m.ledger) ||
    (a.aliases <= m.holders && a.aliases <= names && !IsTerminal(a.protection) &&
     (!a.protection.Unprotected? ==> m.ledger.deferred))
  }

  ghost predicate Describes(q: Abrupt, r: Step, ctx: seq<Frame>, names: set<Name>)
    requires r.Done?
  {
    Tracks(q.state, r.m, names) && (q.waived ==> r.waived) &&
    match r.jump
    case Normal => false
    case Returned => q.kind.Returning?
    case Thrown(original) => q.kind.Throwing? && (q.exactOriginal ==> original)
    case Broke(jump) => q.kind.Breaking? && q.target == BreakTarget(jump, ctx)
    case Continued(jump) => q.kind.Continuing? && q.target == ContinueTarget(jump, ctx)
  }

  /** Some abstract completion accounts for how the concrete run ended. */
  ghost predicate Covers(o: Outcome, r: Step, ctx: seq<Frame>, names: set<Name>) {
    r.Done? && !Settled(r.m.ledger) ==>
      if r.jump.Normal? then exists a :: a in o.states && Tracks(a, r.m, names)
      else exists q :: q in o.abrupt && Describes(q, r, ctx, names)
  }

  // ----- programs on which one unrolling of a loop is enough ----------------------

  predicate CopiesError(kind: DeclKind, d: Declarator) {
    IsImmutable(kind) && d.init.Some? && d.init.value.Read?
  }

  predicate CopiesWithin(kind: DeclKind, ds: seq<Declarator>, names: set<Name>) {
    forall d :: d in ds && CopiesError(kind, d) ==> d.name in names
  }

  /**
   No name of `names` is rebound while a loop goes round, and no for-initializer copies a name.
   Inside a loop with its own variable, that variable is not one of the names.
   */
  predicate Regular(s: Stmt, names: set<Name>)
    decreases s
  {
    match s
    case Block(body, _) => RegularList(body, names)
    case Declare(kind, ds) => CopiesWithin(kind, ds, names)
    case If(_, t, f) => Regular(t, names) && (f.Some? ==> Regular(f.value, names))
    case Switch(_, cs) => RegularClauses(cs, names)
    case Try(b, h, f) =>
      RegularList(b, names) && (h.Some? ==> RegularList(h.value.block, names)) &&
      (f.Finally? ==> RegularList(f.block, names))
    case For(init, test, update, b) =>
      (init.InitDeclare? ==> forall d :: d in init.declarators ==> !CopiesError(init.kind, d)) &&
      (AssignedOpt(test) + AssignedOpt(update) + Writes(b)) !! (names - ScopedByInit(init)) &&
      Regular(b, names - ScopedByInit(init))
    case ForEach(binding, _, b) => Writes(s) !! names && Regular(b, names - {binding.name})
    case While(_, b) => Writes(s) !! names && Regular(b, names)
    case DoWhile(b, _) => Writes(s) !! names && Regular(b, names)
    case Labeled(_, b) => Regular(b, names)
    case _ => true
  }

  predicate RegularList(ss: seq<Stmt>, names: set<Name>)
    decreases ss
  {
    ss == [] || (Regular(ss[0], names) && RegularList(ss[1..], names))
  }

  predicate RegularClauses(cs: seq<Clause>, names: set<Name>)
    decreases cs
  {
    cs == [] || (RegularList(cs[0].statements, names) && RegularClauses(cs[1..], names))
  }

  // ----- expressions and declarations --------------------------------------------

  lemma {:induction false} SoundExpr(e: Expr, a: FlowState, m: Machine, o: Oracle, ctx: seq<Frame>, names: set<Name>)
    requires Tracks(a, m, names)
    ensures Covers(AnalyzeExpr(e, a), Complete(Eval(e, m, o)), ctx, names)
  {
    var r := Complete(Eval(e, m, o));
    if r.Done? && !Settled(r.m.ledger) {
      var out := AnalyzeExpr(e, a);
      if r.jump.Normal? {
        assert Tracks(out.states[0], r.m, names);
        assert out.states[0] in out.states;
      } else {
        assert ThrowFrom(a) in out.abrupt;
        assert Describes(ThrowFrom(a), r, ctx, names);
      }
    }
  }

  lemma {:induction false} SoundExprs(e: Expr, states: seq<FlowState>, a: FlowState, m: Machine, o: Oracle,
                                      ctx: seq<Frame>, names: set<Name>)
    requires a in states && Tracks(a, m, names)
    ensures Covers(AnalyzeExprs(e, states), Complete(Eval(e, m, o)), ctx, names)
  {
    if states[0] == a {
      SoundExpr(e, a, m, o, ctx, names);
    } else {
      SoundExprs(e, states[1..], a, m, o, ctx, names);
    }
  }

  lemma {:induction false} SoundOptional(e: Option<Expr>, states: seq<FlowState>, a: FlowState, m: Machine, o: Oracle,
                      ctx: seq<Frame>, names: set<Name>)
    requires a in states && Tracks(a, m, names)
    ensures Covers(AnalyzeOptional(e, states), Complete(EvalOptional(e, m, o)), ctx, names)
  {
    if e.Some? { SoundExprs(e.value, states, a, m, o, ctx, names); }
  }

  ghost predicate Included(x: Outcome, y: Outcome) {
    (forall a :: a in x.states ==> a in y.states) && (forall q :: q in x.abrupt ==> q in y.abrupt)
  }

  lemma {:induction false} DeclaratorIncluded(kind: DeclKind, d: Declarator, states: seq<FlowState>, a: FlowState)
    requires a in states
    ensures Included(AnalyzeDeclarator(kind, d, a), AnalyzeDeclaratorEach(kind, d, states))
  {
    if states[0] != a { DeclaratorIncluded(kind, d, states[1..], a); }
  }

  /** The first declarator, from one state: where it may throw and what it binds. */
  lemma {:induction false} SoundDeclarator(kind: DeclKind, d: Declarator, a: FlowState, m: Machine, o: Oracle, ctx: seq<Frame>,
                        names: set<Name>)
    requires Tracks(a, m, names) && CopiesWithin(kind, [d], names)
    ensures var v := EvalOptional(d.init, m, o); var out := AnalyzeDeclarator(kind, d, a);
            Covers(Outcome([], out.abrupt, false), if v.Raised? then Complete(v) else Starved, ctx, names) &&
            (v.Value? && !Settled(v.m.ledger) ==>
               (exists a' :: a' in out.states &&
                  Tracks(a', v.m.(holders := Assign(v.m.holders, d.name, v.original)), names)) &&
               (IsUsing(kind) ==> exists a' :: ThrowFrom(a') in out.abrupt && Tracks(a', v.m, names)))
  {
    var v := EvalOptional(d.init, m, o);
    SoundOptional(d.init, [a], a, m, o, ctx, names);
    var initialized := AnalyzeOptional(d.init, [a]);
    if v.Value? && !Settled(v.m.ledger) {
      var a1 :| a1 in initialized.states && Tracks(a1, v.m, names);
      var a2 := Bind(kind, d, a, a1);
      assert a2 in AnalyzeDeclarator(kind, d, a).states;
      assert d in [d];
      assert Tracks(a2, v.m.(holders := Assign(v.m.holders, d.name, v.original)), names);
      if IsUsing(kind) {
        assert ThrowFrom(a1) in ThrowsFrom(initialized.states);
      }
    }
  }

  lemma {:induction false} SoundDeclarators(kind: DeclKind, ds: seq<Declarator>, states: seq<FlowState>, a: FlowState,
                                            m: Machine, o: Oracle, ctx: seq<Frame>, names: set<Name>)
    requires a in states && Tracks(a, m, names) && CopiesWithin(kind, ds, names)
    ensures Covers(AnalyzeDeclarators(kind, ds, states), ExecDeclarators(kind, ds, m, o), ctx, names)
  {
    if ds != [] {
      var v := EvalOptional(ds[0].init, m, o);
      var first := AnalyzeDeclaratorEach(kind, ds[0], states);
      SoundDeclarator(kind, ds[0], a, m, o, ctx, names);
      DeclaratorIncluded(kind, ds[0], states, a);
      var r := ExecDeclarators(kind, ds, m, o);
      if v.Raised? && !Settled(v.m.ledger) {
        var q :| q in AnalyzeDeclarator(kind, ds[0], a).abrupt && Describes(q, r, ctx, names);
        assert q in first.abrupt;
      } else if v.Value? && !Settled(v.m.ledger) && IsUsing(kind) && v.rest != [] && v.rest[0].throws {
        var a' :| ThrowFrom(a') in AnalyzeDeclarator(kind, ds[0], a).abrupt && Tracks(a', v.m, names);
        assert ThrowFrom(a') in first.abrupt && Describes(ThrowFrom(a'), r, ctx, names);
      } else if v.Value? && !Settled(v.m.ledger) && !(IsUsing(kind) && v.rest == []) {
        var m' := v.m.(holders := Assign(v.m.holders, ds[0].name, v.original));
        var a' :| a' in first.states && Tracks(a', m', names);
        SoundDeclarators(kind, ds[1..], first.states, a', m', if IsUsing(kind) then v.rest[1..] else v.rest, ctx, names);
      }
    }
  }

  // ----- scopes ------------------------------------------------------------------

  /** Leaving a scope keeps every concrete exit accounted for, disposal failures included. */
  lemma {:induction false} SoundLeave(out: Outcome, r: Step, a: FlowState, m: Machine, scope: set<Name>, disposes: bool, did: bool,
                   ctx: seq<Frame>, names: set<Name>)
    requires Covers(out, r, ctx, names) && Tracks(a, m, names) && (did ==> disposes)
    requires r.Done? ==> Rises(m.ledger, r.m.ledger)
    ensures Covers(LeaveScope(out, a, scope, disposes), Leave(r, m.holders, scope, did), ctx, names)
  {
    var after := Leave(r, m.holders, scope, did);
    if after.Done? && !Settled(after.m.ledger) {
      var left := LeaveScope(out, a, scope, disposes);
      var thrown := if disposes then ThrowsFrom(out.states + StatesOf(out.abrupt)) else [];
      var exit: FlowState;
      if r.jump.Normal? {
        exit :| exit in out.states && Tracks(exit, r.m, names);
      } else {
        var q :| q in out.abrupt && Describes(q, r, ctx, names);
        exit := q.state;
        var q' := q.(state := Restore(q.state, a, scope));
        assert q in out.abrupt + thrown && q' in left.abrupt;
        assert Tracks(q'.state, after.m, names);
      }
      assert Tracks(Restore(exit, a, scope), after.m, names);
      if did && r.rest[0].throws {
        var q' := LeftByThrow(out, a, scope, exit);
        assert Describes(q', after, ctx, names);
      }
    }
  }

  /** A disposal may throw from every state in which a block ends. */
  lemma {:induction false} LeftByThrow(out: Outcome, a: FlowState, scope: set<Name>, exit: FlowState) returns (q: Abrupt)
    requires exit in out.states + StatesOf(out.abrupt)
    ensures q == ThrowFrom(exit).(state := Restore(exit, a, scope)) && q in LeaveScope(out, a, scope, true).abrupt
  {
    assert ThrowFrom(exit) in out.abrupt + ThrowsFrom(out.states + StatesOf(out.abrupt));
    q := ThrowFrom(exit).(state := Restore(exit, a, scope));
  }

  // ----- jump targets ------------------------------------------------------------

  /**
   The innermost frames of ctx are the labels of the statement at hand, each pointing at
   the loop they label (depth frames further in, 0 for none); all other labels point inside ctx.
   */
  ghost predicate Aligned(ctx: seq<Frame>, labels: seq<Name>, depth: nat) {
    |labels| <= |ctx| &&
    (forall j :: 0 <= j < |labels| ==>
       ctx[|ctx| - |labels| + j] == LabelFrame(labels[j], if depth == 0 then 0 else |labels| - 1 - j + depth)) &&
    Closed(ctx[..|ctx| - |labels|], |ctx|)
  }

  ghost predicate Closed(ctx: seq<Frame>, bound: nat) {
    forall i :: 0 <= i < |ctx| && ctx[i].LabelFrame? ==> i + ctx[i].hops < bound
  }

  lemma {:induction false} AlignedInside(ctx: seq<Frame>, labels: seq<Name>)
    requires Aligned(ctx, labels, 0)
    ensures Aligned(ctx, [], 0) && Aligned(ctx, [], 1)
  {
    var k := |ctx| - |labels|;
    forall i | 0 <= i < |ctx| && ctx[i].LabelFrame?
      ensures i + ctx[i].hops < |ctx|
    {
      if i < k {
        assert ctx[..k][i] == ctx[i];
      } else {
        var j := i - k;
        assert ctx[k + j].name == labels[j];
      }
    }
    assert ctx[..|ctx|] == ctx;
  }

  lemma {:induction false} AlignedUnder(ctx: seq<Frame>, labels: seq<Name>, depth: nat, frame: Frame, inner: nat)
    requires Aligned(ctx, labels, depth) && depth <= 1 && !frame.LabelFrame?
    ensures Aligned(ctx + [frame], [], inner)
  {
    var k := |ctx| - |labels|;
    var all := ctx + [frame];
    forall i | 0 <= i < |all| && all[i].LabelFrame?
      ensures i + all[i].hops < |all|
    {
      if i < k {
        assert ctx[..k][i] == all[i];
      } else if i < |ctx| {
        var j := i - k;
        assert ctx[k + j].name == labels[j];
      }
    }
    assert all[..|all|] == all;
  }

  lemma {:induction false} AlignedLabel(ctx: seq<Frame>, labels: seq<Name>, name: Name, b: Stmt)
    requires Aligned(ctx, labels, LoopDepth(Labeled(name, b)))
    ensures Aligned(ctx + [LabelFrame(name, LoopDepth(b))], labels + [name], LoopDepth(b))
  {
    var k := |ctx| - |labels|;
    var all, more := ctx + [LabelFrame(name, LoopDepth(b))], labels + [name];
    assert all[..|all| - |more|] == ctx[..k];
    forall j | 0 <= j < |more|
      ensures all[|all| - |more| + j] ==
              LabelFrame(more[j], if LoopDepth(b) == 0 then 0 else |more| - 1 - j + LoopDepth(b))
    {
      if j < |labels| {
        var depth := LoopDepth(Labeled(name, b));
        assert ctx[|ctx| - |labels| + j] == LabelFrame(labels[j], if depth == 0 then 0 else |labels| - 1 - j + depth);
      }
    }
  }

  lemma {:induction false} TargetsUnder(jump: Option<Name>, ctx: seq<Frame>, frame: Frame)
    ensures BreakTarget(jump, ctx + [frame]) ==
            if (if jump.None? then !frame.LabelFrame? else frame.LabelFrame? && frame.name == jump.value)
            then Some(|ctx|) else BreakTarget(jump, ctx)
    ensures ContinueTarget(jump, ctx + [frame]) ==
            if jump.None? && frame.LoopFrame? then Some(|ctx|)
            else if jump.Some? && frame.LabelFrame? && frame.name == jump.value then Some(|ctx| + frame.hops)
            else ContinueTarget(jump, ctx)
  {
    assert (ctx + [frame])[..|ctx|] == ctx;
  }

  lemma {:induction false} ClosedTarget(jump: Option<Name>, ctx: seq<Frame>, bound: nat)
    requires Closed(ctx, bound) && |ctx| <= bound
    ensures ContinueTarget(jump, ctx).Some? ==> ContinueTarget(jump, ctx).value < bound
  {
    if ctx != [] {
      var n := |ctx| - 1;
      assert forall i :: 0 <= i < n ==> ctx[..n][i] == ctx[i];
      ClosedTarget(jump, ctx[..n], bound);
    }
  }

  /** A continue reaches the loop directly under ctx exactly when it names one of its labels. */
  lemma {:induction false} LabelTarget(jump: Option<Name>, ctx: seq<Frame>, labels: seq<Name>, loop: nat)
    requires |labels| <= |ctx| <= loop && Closed(ctx[..|ctx| - |labels|], loop)
    requires forall j :: 0 <= j < |labels| ==>
               ctx[|ctx| - |labels| + j] == LabelFrame(labels[j], loop - (|ctx| - |labels| + j))
    ensures ContinueTarget(jump, ctx) == Some(loop) <==> jump.Some? && jump.value in labels
    decreases |labels|
  {
    if labels == [] {
      assert ctx[..|ctx|] == ctx;
      ClosedTarget(jump, ctx, loop);
    } else {
      var n := |ctx| - 1;
      var k := |labels| - 1;
      assert ctx[n] == ctx[|ctx| - |labels| + k];
      assert ctx[..n][..n - k] == ctx[..|ctx| - |labels|];
      LabelTarget(jump, ctx[..n], labels[..k], loop);
      assert labels == labels[..k] + [labels[k]];
    }
  }

  /** What a loop's split of completions means for the jump that produced them. */
  lemma {:induction false} LoopTargets(jump: Option<Name>, ctx: seq<Frame>, labels: seq<Name>)
    requires Aligned(ctx, labels, 1)
    ensures BreakTarget(jump, ctx + [LoopFrame]) == if jump.None? then Some(|ctx|) else BreakTarget(jump, ctx)
    ensures ContinueTarget(jump, ctx + [LoopFrame]) == if jump.None? then Some(|ctx|) else ContinueTarget(jump, ctx)
    ensures ContinueTarget(jump, ctx + [LoopFrame]) == Some(|ctx|) <==> Resumes(Continued(jump), labels)
  {
    TargetsUnder(jump, ctx, LoopFrame);
    LabelTarget(jump, ctx, labels, |ctx|);
  }

  // ----- statements --------------------------------------------------------------

  lemma {:induction false} SoundStmt(s: Stmt, a: FlowState, m: Machine, o: Oracle, labels: seq<Name>,
                                     ctx: seq<Frame>, names: set<Name>)
    requires Tracks(a, m, names) && Regular(s, names) && Aligned(ctx, labels, LoopDepth(s))
    ensures Covers(AnalyzeStmt(s, a, ctx, false), Exec(s, m, o, labels), ctx, names)
    decreases |o|, s, 1, 0
  {
    match s
    case Block(body, ownedElsewhere) =>
      AlignedInside(ctx, labels);
      if !(ownedElsewhere && body == []) { SoundBlock(body, a, m, o, ctx, names); }
    case Expression(e, _) => SoundExpression(s, a, m, o, labels, ctx, names);
    case Declare(kind, ds) => SoundDeclarators(kind, ds, [a], a, m, o, ctx, names);
    case Return(_, _) => SoundReturn(s, a, m, o, labels, ctx, names);
    case Throw(_, _) => SoundThrow(s, a, m, o, labels, ctx, names);
    case If(_, _, _) =>
      AlignedInside(ctx, labels);
      SoundIf(s, a, m, o, ctx, names);
    case Switch(_, _) =>
      AlignedInside(ctx, labels);
      SoundSwitch(s, a, m, o, ctx, names);
    case Try(_, _, _) =>
      AlignedInside(ctx, labels);
      SoundTry(s, a, m, o, ctx, names);
    case For(_, _, _, _) => SoundFor(s, a, m, o, labels, ctx, names);
    case ForEach(_, _, _) => SoundForEach(s, a, m, o, labels, ctx, names);
    case While(_, _) => SoundWhile(s, a, m, o, labels, ctx, names);
    case DoWhile(_, _) => SoundDoWhile(s, a, m, o, labels, ctx, names);
    case Break(_, _) => SoundJump(s, a, m, o, labels, ctx, names);
    case Continue(_, _) => SoundJump(s, a, m, o, labels, ctx, names);
    case Labeled(_, _) => SoundLabeled(s, a, m, o, labels, ctx, names);
    case Inert => assert a in [a];
  }

  lemma {:induction false} SoundExpression(s: Stmt, a: FlowState, m: Machine, o: Oracle, labels: seq<Name>, ctx: seq<Frame>,
                        names: set<Name>)
    requires s.Expression? && Tracks(a, m, names)
    ensures Covers(AnalyzeStmt(s, a, ctx, false), Exec(s, m, o, labels), ctx, names)
  {
    SoundExpr(s.e, a, m, o, ctx, names);
    assert a in [a];
  }

  lemma {:induction false} SoundJump(s: Stmt, a: FlowState, m: Machine, o: Oracle, labels: seq<Name>, ctx: seq<Frame>,
                  names: set<Name>)
    requires (s.Break? || s.Continue?) && Tracks(a, m, names)
    ensures Covers(AnalyzeStmt(s, a, ctx, false), Exec(s, m, o, labels), ctx, names)
    ensures Covers(Honour(s, AnalyzeStmt(s, a, ctx, false)), Exec(s, m, o, labels), ctx, names)
  {
    var q := AnalyzeStmt(s, a, ctx, false).abrupt[0];
    Witness(s, AnalyzeStmt(s, a, ctx, false), q, Exec(s, m, o, labels), ctx, names);
  }

  /** A completion that accounts for a run accounts for it with the ignore comment honoured. */
  lemma {:induction false} Witness(s: Stmt, out: Outcome, q: Abrupt, r: Step, ctx: seq<Frame>, names: set<Name>)
    requires r.Done? && q in out.abrupt && Describes(q, r, ctx, names)
    requires q.ignoreTarget && HasIgnore(s) ==> r.waived
    ensures Covers(out, r, ctx, names) && Covers(Honour(s, out), r, ctx, names)
  {
    if HasIgnore(s) {
      assert Waive(q) in WaiveAll(out.abrupt) && Describes(Waive(q), r, ctx, names);
    }
  }

  lemma {:induction false} SoundReturn(s: Stmt, a: FlowState, m: Machine, o: Oracle, labels: seq<Name>, ctx: seq<Frame>,
                    names: set<Name>)
    requires s.Return? && Tracks(a, m, names)
    ensures Covers(AnalyzeStmt(s, a, ctx, false), Exec(s, m, o, labels), ctx, names)
    ensures Covers(Honour(s, AnalyzeStmt(s, a, ctx, false)), Exec(s, m, o, labels), ctx, names)
  {
    var v := EvalOptional(s.value, m, o);
    var r := Exec(s, m, o, labels);
    var out := AnalyzeStmt(s, a, ctx, false);
    var valued := AnalyzeOptional(s.value, [a]);
    SoundOptional(s.value, [a], a, m, o, ctx, names);
    if r.Done? && !Settled(r.m.ledger) {
      if v.Raised? {
        var q :| q in valued.abrupt && Describes(q, Complete(v), ctx, names);
        Witness(s, out, q, r, ctx, names);
      } else {
        var a' :| a' in valued.states && Tracks(a', v.m, names);
        var q := Abrupt(Returning, a', None, false, false, true);
        assert q in Returns(valued.states, false);
        Witness(s, out, q, r, ctx, names);
      }
    }
  }

  lemma {:induction false} SoundThrow(s: Stmt, a: FlowState, m: Machine, o: Oracle, labels: seq<Name>, ctx: seq<Frame>,
                   names: set<Name>)
    requires s.Throw? && Tracks(a, m, names)
    ensures Covers(AnalyzeStmt(s, a, ctx, false), Exec(s, m, o, labels), ctx, names)
    ensures Covers(Honour(s, AnalyzeStmt(s, a, ctx, false)), Exec(s, m, o, labels), ctx, names)
  {
    var v := Eval(s.thrown, m, o);
    var r := Exec(s, m, o, labels);
    var out := AnalyzeStmt(s, a, ctx, false);
    var valued := AnalyzeExpr(s.thrown, a);
    SoundExpr(s.thrown, a, m, o, ctx, names);
    if r.Done? && !Settled(r.m.ledger) {
      if v.Raised? {
        var q :| q in valued.abrupt && Describes(q, Complete(v), ctx, names);
        Witness(s, out, q, r, ctx, names);
      } else {
        var a' :| a' in valued.states && Tracks(a', v.m, names);
        var q := Abrupt(Throwing, a', None, IsAlias(s.thrown, a), false, true);
        assert q in Throws(valued.states, IsAlias(s.thrown, a));
        Witness(s, out, q, r, ctx, names);
      }
    }
  }

  lemma {:induction false} SoundIf(s: Stmt, a: FlowState, m: Machine, o: Oracle, ctx: seq<Frame>, names: set<Name>)
    requires s.If? && Tracks(a, m, names) && Regular(s, names) && Aligned(ctx, [], 0)
    ensures Covers(AnalyzeStmt(s, a, ctx, false), ExecIf(s, m, o), ctx, names)
    decreases |o|, s, 0, 0
  {
    var v := Eval(s.cond, m, o);
    var tested := AnalyzeExpr(s.cond, a);
    SoundExpr(s.cond, a, m, o, ctx, names);
    if v.Value? && !Settled(v.m.ledger) && v.rest != [] {
      var a' :| a' in tested.states && Tracks(a', v.m, names);
      if v.rest[0].taken {
        SoundEach(s.whenTrue, tested.states, a', v.m, v.rest[1..], ctx, names);
      } else if s.whenFalse.Some? {
        SoundEach(s.whenFalse.value, tested.states, a', v.m, v.rest[1..], ctx, names);
      }
    }
  }

  lemma {:induction false} SoundLabeled(s: Stmt, a: FlowState, m: Machine, o: Oracle, labels: seq<Name>,
                                        ctx: seq<Frame>, names: set<Name>)
    requires s.Labeled? && Tracks(a, m, names) && Regular(s, names) && Aligned(ctx, labels, LoopDepth(s))
    ensures Covers(AnalyzeStmt(s, a, ctx, false), ExecLabeled(s, m, o, labels), ctx, names)
    decreases |o|, s, 0, 0
  {
    var frame := LabelFrame(s.name, LoopDepth(s.labeled));
    AlignedLabel(ctx, labels, s.name, s.labeled);
    SoundStmt(s.labeled, a, m, o, labels + [s.name], ctx + [frame], names);
    var inner := Exec(s.labeled, m, o, labels + [s.name]);
    var out := AnalyzeStmt(s.labeled, a, ctx + [frame], false);
    var r := ExecLabeled(s, m, o, labels);
    if r.Done? && !Settled(r.m.ledger) && !inner.jump.Normal? {
      var q :| q in out.abrupt && Describes(q, inner, ctx + [frame], names);
      if inner.jump.Broke? || inner.jump.Continued? { TargetsUnder(inner.jump.jump, ctx, frame); }
      if r.jump.Normal? {
        assert q.state in Landing(out.abrupt, Breaking, |ctx|);
      } else {
        assert q in Passing(out.abrupt, |ctx|, false) && Describes(q, r, ctx, names);
      }
    }
  }

  lemma {:induction false} SoundEach(s: Stmt, states: seq<FlowState>, a: FlowState, m: Machine, o: Oracle,
                                     ctx: seq<Frame>, names: set<Name>)
    requires a in states && Tracks(a, m, names) && Regular(s, names) && Aligned(ctx, [], 0)
    ensures Covers(AnalyzeEach(s, states, ctx, false), Exec(s, m, o, []), ctx, names)
    decreases |o|, s, 2, |states|
  {
    if states[0] == a {
      if HasIgnore(s) {
        match s
        case Return(_, _) => SoundReturn(s, a, m, o, [], ctx, names);
        case Throw(_, _) => SoundThrow(s, a, m, o, [], ctx, names);
        case _ => SoundJump(s, a, m, o, [], ctx, names);
      } else {
        SoundStmt(s, a, m, o, [], ctx, names);
      }
    } else {
      SoundEach(s, states[1..], a, m, o, ctx, names);
    }
  }

  lemma {:induction false} SoundList(ss: seq<Stmt>, states: seq<FlowState>, a: FlowState, m: Machine, o: Oracle,
                                     ctx: seq<Frame>, names: set<Name>)
    requires a in states && Tracks(a, m, names) && RegularList(ss, names) && Aligned(ctx, [], 0)
    ensures Covers(AnalyzeList(ss, states, ctx, false), ExecList(ss, m, o), ctx, names)
    decreases |o|, ss, 3, 0
  {
    if ss != [] {
      SoundEach(ss[0], states, a, m, o, ctx, names);
      var first := AnalyzeEach(ss[0], states, ctx, false);
      var r := Exec(ss[0], m, o, []);
      if r.Done? && r.jump.Normal? && !Settled(r.m.ledger) {
        var a' :| a' in first.states && Tracks(a', r.m, names);
        SoundList(ss[1..], first.states, a', r.m, r.rest, ctx, names);
      }
    }
  }

  lemma {:induction false} DisposesUsing(ss: seq<Stmt>, m: Machine, o: Oracle)
    requires Disposes(ss, m, o)
    ensures HasUsing(ss)
  {
    assert ss[0] in ss;
    if !(ss[0].Declare? && IsUsing(ss[0].kind) && ss[0].declarators != []) {
      var r := Exec(ss[0], m, o, []);
      DisposesUsing(ss[1..], r.m, r.rest);
      var s :| s in ss[1..] && s.Declare? && IsUsing(s.kind);
      assert s in ss;
    }
  }

  lemma {:induction false} SoundBlock(ss: seq<Stmt>, a: FlowState, m: Machine, o: Oracle, ctx: seq<Frame>,
                                      names: set<Name>)
    requires Tracks(a, m, names) && RegularList(ss, names) && Aligned(ctx, [], 0)
    ensures Covers(AnalyzeBlock(ss, a, ctx, false), ExecBlock(ss, m, o), ctx, names)
    decreases |o|, ss, 4, 0
  {
    var scope := LexicalNames(ss);
    var a0, m0 := a.(aliases := a.aliases - scope), m.(holders := m.holders - scope);
    SoundList(ss, [a0], a0, m0, o, ctx, names);
    if Disposes(ss, m0, o) { DisposesUsing(ss, m0, o); }
    SoundLeave(AnalyzeList(ss, [a0], ctx, false), ExecList(ss, m0, o), a, m, scope, HasUsing(ss), Disposes(ss, m0, o), ctx, names);
  }

  // ----- switch ------------------------------------------------------------------

  lemma {:induction false} SoundSelect(cs: seq<Clause>, states: seq<FlowState>, a: FlowState, m: Machine, o: Oracle,
                                       ctx: seq<Frame>, names: set<Name>)
    requires a in states && Tracks(a, m, names)
    ensures var (entries, out) := AnalyzeSelectors(cs, states);
            match Select(cs, m, o)
            case SelectorRaised(step) => Covers(Outcome([], out.abrupt, false), step, ctx, names)
            case Enter(at, em, _) =>
              Settled(em.ledger) || exists a' :: a' in entries[at] && Tracks(a', em, names)
            case Unmatched(um, _) => Settled(um.ledger) || exists a' :: a' in out.states && Tracks(a', um, names)
  {
    if cs != [] {
      if cs[0].selector.None? {
        SoundSelect(cs[1..], states, a, m, o, ctx, names);
      } else {
        var first := AnalyzeExprs(cs[0].selector.value, states);
        var v := Eval(cs[0].selector.value, m, o);
        SoundExprs(cs[0].selector.value, states, a, m, o, ctx, names);
        if v.Value? && v.rest != [] && !Settled(v.m.ledger) {
          var a' :| a' in first.states && Tracks(a', v.m, names);
          if !v.rest[0].taken { SoundSelect(cs[1..], first.states, a', v.m, v.rest[1..], ctx, names); }
        } else if v.Raised? && !Settled(v.m.ledger) {
          var q :| q in first.abrupt && Describes(q, Complete(v), ctx, names);
          assert q in AnalyzeSelectors(cs, states).1.abrupt;
        }
      }
    }
  }

  lemma {:induction false} StartIncluded(cs: seq<Clause>, entries: seq<seq<FlowState>>, k: nat, ctx: seq<Frame>)
    requires |entries| == |cs| && k < |cs|
    ensures Included(AnalyzeFallthrough(cs[k..], entries[k], ctx), AnalyzeStarts(cs, entries, ctx))
  {
    if k == 0 {
      assert cs[0..] == cs;
    } else {
      StartIncluded(cs[1..], entries[1..], k - 1, ctx);
      assert cs[1..][k - 1..] == cs[k..];
    }
  }

  lemma {:induction false} RegularSuffix(cs: seq<Clause>, k: nat, names: set<Name>)
    requires k <= |cs| && RegularClauses(cs, names)
    ensures RegularClauses(cs[k..], names)
  {
    if k > 0 {
      RegularSuffix(cs[1..], k - 1, names);
      assert cs[1..][k - 1..] == cs[k..];
    }
  }

  lemma {:induction false} DefaultFound(cs: seq<Clause>)
    ensures HasDefault(cs) <==> DefaultAt(cs) < |cs|
  {
    if cs != [] && cs[0].selector.Some? {
      DefaultFound(cs[1..]);
      if HasDefault(cs) {
        var c :| c in cs && c.selector.None?;
        assert c in cs[1..];
      }
    } else if cs != [] {
      assert cs[0] in cs;
    }
  }

  lemma {:induction false} SoundFallthrough(cs: seq<Clause>, active: seq<FlowState>, a: FlowState, m: Machine, o: Oracle,
                                            ctx: seq<Frame>, names: set<Name>)
    requires a in active && Tracks(a, m, names) && RegularClauses(cs, names) && Aligned(ctx, [], 0)
    ensures Covers(AnalyzeFallthrough(cs, active, ctx), ExecClauses(cs, m, o), ctx, names)
    decreases |o|, cs, 0, 0
  {
    if cs != [] {
      AlignedUnder(ctx, [], 0, SwitchFrame, 0);
      SoundList(cs[0].statements, active, a, m, o, ctx + [SwitchFrame], names);
      var out := AnalyzeList(cs[0].statements, active, ctx + [SwitchFrame], false);
      var r := ExecList(cs[0].statements, m, o);
      if r.Done? && !Settled(r.m.ledger) {
        if r.jump.Normal? {
          var a' :| a' in out.states && Tracks(a', r.m, names);
          SoundFallthrough(cs[1..], out.states, a', r.m, r.rest, ctx, names);
        } else {
          var q :| q in out.abrupt && Describes(q, r, ctx + [SwitchFrame], names);
          if r.jump.Broke? || r.jump.Continued? { TargetsUnder(r.jump.jump, ctx, SwitchFrame); }
          if r.jump == Broke(None) {
            assert q.state in Landing(out.abrupt, Breaking, |ctx|);
          } else {
            assert q in Passing(out.abrupt, |ctx|, false) && Describes(q, r, ctx, names);
          }
        }
      }
    }
  }

  /** Entering at one clause is covered by the analysis of every start. */
  lemma {:induction false} SoundEntry(cs: seq<Clause>, entries: seq<seq<FlowState>>, at: nat, a: FlowState, m: Machine,
                                      o: Oracle, ctx: seq<Frame>, names: set<Name>)
    requires |entries| == |cs| && at < |cs| && a in entries[at] && Tracks(a, m, names)
    requires RegularClauses(cs, names) && Aligned(ctx, [], 0)
    ensures Covers(AnalyzeStarts(cs, entries, ctx), ExecClauses(cs[at..], m, o), ctx, names)
    decreases |o|, cs, 1, 0
  {
    RegularSuffix(cs, at, names);
    SoundFallthrough(cs[at..], entries[at], a, m, o, ctx, names);
    StartIncluded(cs, entries, at, ctx);
  }

  /** When no selector matches, the default clause is entered, or the switch is left. */
  lemma {:induction false} SoundUnmatched(cs: seq<Clause>, a: FlowState, b: FlowState, m: Machine, o: Oracle,
                                          ctx: seq<Frame>, names: set<Name>)
    requires b in AnalyzeSelectors(cs, [a]).1.states && Tracks(b, m, names)
    requires RegularClauses(cs, names) && Aligned(ctx, [], 0)
    ensures Covers(AnalyzeClauses(cs, a, ctx), ExecClauses(cs[DefaultAt(cs)..], m, o), ctx, names)
    decreases |o|, cs, 2, 0
  {
    var at := DefaultAt(cs);
    DefaultFound(cs);
    if at < |cs| {
      SoundEntry(cs, AnalyzeSelectors(cs, [a]).0, at, b, m, o, ctx, names);
    } else {
      assert cs[at..] == [];
      assert b in AnalyzeClauses(cs, a, ctx).states;
    }
  }

  /** The clauses from a single state, before the case block's scope is left. */
  lemma {:induction false} SoundClauses(cs: seq<Clause>, a: FlowState, m: Machine, o: Oracle, ctx: seq<Frame>,
                                        names: set<Name>)
    requires Tracks(a, m, names) && RegularClauses(cs, names) && Aligned(ctx, [], 0)
    ensures Covers(AnalyzeClauses(cs, a, ctx), ExecSelected(cs, m, o), ctx, names)
    decreases |o|, cs, 3, 0
  {
    SoundSelect(cs, [a], a, m, o, ctx, names);
    match Select(cs, m, o)
    case SelectorRaised(step) =>
    case Enter(at, em, erest) =>
      if !Settled(em.ledger) {
        var entries := AnalyzeSelectors(cs, [a]).0;
        var b :| b in entries[at] && Tracks(b, em, names);
        SoundEntry(cs, entries, at, b, em, erest, ctx, names);
      }
    case Unmatched(um, urest) =>
      if !Settled(um.ledger) {
        var b :| b in AnalyzeSelectors(cs, [a]).1.states && Tracks(b, um, names);
        SoundUnmatched(cs, a, b, um, urest, ctx, names);
      }
  }

  lemma {:induction false} SoundCaseBlock(cs: seq<Clause>, states: seq<FlowState>, a: FlowState, m: Machine, o: Oracle,
                                          ctx: seq<Frame>, names: set<Name>)
    requires a in states && Tracks(a, m, names) && RegularClauses(cs, names) && Aligned(ctx, [], 0)
    ensures Covers(AnalyzeSwitch(cs, states, ctx), ExecCaseBlock(cs, m, o), ctx, names)
    decreases |o|, cs, 4, |states|
  {
    if states[0] == a {
      var scope := LexicalNames(SwitchStatements(cs));
      var a0, m0 := a.(aliases := a.aliases - scope), m.(holders := m.holders - scope);
      SoundClauses(cs, a0, m0, o, ctx, names);
      SoundLeave(AnalyzeClauses(cs, a0, ctx), ExecSelected(cs, m0, o), a, m, scope, HasUsing(SwitchStatements(cs)),
                 HasUsing(SwitchStatements(cs)), ctx, names);
    } else {
      SoundCaseBlock(cs, states[1..], a, m, o, ctx, names);
    }
  }

  lemma {:induction false} SoundSwitch(s: Stmt, a: FlowState, m: Machine, o: Oracle, ctx: seq<Frame>, names: set<Name>)
    requires s.Switch? && Tracks(a, m, names) && Regular(s, names) && Aligned(ctx, [], 0)
    ensures Covers(AnalyzeStmt(s, a, ctx, false), ExecSwitch(s, m, o), ctx, names)
    decreases |o|, s, 0, 0
  {
    var v := Eval(s.discriminant, m, o);
    var tested := AnalyzeExpr(s.discriminant, a);
    SoundExpr(s.discriminant, a, m, o, ctx, names);
    if v.Value? && !Settled(v.m.ledger) {
      var a' :| a' in tested.states && Tracks(a', v.m, names);
      SoundCaseBlock(s.clauses, tested.states, a', v.m, v.rest, ctx, names);
    }
  }

  // ----- try ---------------------------------------------------------------------

  lemma {:induction false} HandlerPasses(h: Handler, qs: seq<Abrupt>, q: Abrupt, ctx: seq<Frame>)
    requires q in qs && !q.kind.Throwing?
    ensures q in AnalyzeHandler(h, qs, ctx).abrupt
    decreases |qs|
  {
    if qs[0] != q { HandlerPasses(h, qs[1..], q, ctx); }
  }

  lemma {:induction false} SoundHandler(h: Handler, qs: seq<Abrupt>, q: Abrupt, m: Machine, original: bool, o: Oracle,
                                        ctx: seq<Frame>, names: set<Name>)
    requires q in qs && q.kind.Throwing? && Tracks(q.state, m, names)
    requires RegularList(h.block, names) && Aligned(ctx, [], 0)
    ensures Covers(AnalyzeHandler(h, qs, ctx), ExecHandler(h, m, original, o), ctx, names)
    decreases |o|, h, 0, |qs|
  {
    if qs[0] == q {
      var scope := ParamNames(h.param);
      var a0 := q.state.(aliases := q.state.aliases - scope);
      var m0 := m.(holders := (m.holders - scope) + (if original then scope else {}));
      SoundBlock(h.block, a0, m0, o, ctx, names);
      SoundLeave(AnalyzeBlock(h.block, a0, ctx, false), ExecBlock(h.block, m0, o), q.state, m, scope, false, false, ctx, names);
    } else {
      SoundHandler(h, qs[1..], q, m, original, o, ctx, names);
    }
  }

  lemma {:induction false} FinishStatesIncluded(block: seq<Stmt>, states: seq<FlowState>, a: FlowState, ctx: seq<Frame>)
    requires a in states
    ensures Included(AnalyzeBlock(block, a, ctx, false), FinishStates(block, states, ctx))
    decreases |states|
  {
    if states[0] != a { FinishStatesIncluded(block, states[1..], a, ctx); }
  }

  lemma {:induction false} FinishAbruptIncluded(block: seq<Stmt>, qs: seq<Abrupt>, q: Abrupt, ctx: seq<Frame>)
    requires q in qs
    ensures var o := AnalyzeBlock(block, q.state, ctx, false);
            Included(Outcome([], o.abrupt + Resumed(q, o.states), false), FinishAbrupt(block, qs, ctx))
    decreases |qs|
  {
    if qs[0] != q { FinishAbruptIncluded(block, qs[1..], q, ctx); }
  }

  lemma {:induction false} SoundFinish(f: Finalizer, out: Outcome, h: Step, ctx: seq<Frame>, names: set<Name>)
    requires h.Done? && Covers(out, h, ctx, names) && Aligned(ctx, [], 0)
    requires f.Finally? ==> RegularList(f.block, names)
    ensures Covers(ApplyFinalizer(f, out, ctx), Finish(f, h), ctx, names)
    decreases |h.rest|, f, 0, 0
  {
    if f.Finally? && !Settled(h.m.ledger) {
      var r := ExecBlock(f.block, h.m, h.rest);
      if h.jump.Normal? {
        var a :| a in out.states && Tracks(a, h.m, names);
        SoundBlock(f.block, a, h.m, h.rest, ctx, names);
        FinishStatesIncluded(f.block, out.states, a, ctx);
      } else {
        var q :| q in out.abrupt && Describes(q, h, ctx, names);
        SoundBlock(f.block, q.state, h.m, h.rest, ctx, names);
        FinishAbruptIncluded(f.block, out.abrupt, q, ctx);
        var o := AnalyzeBlock(f.block, q.state, ctx, false);
        if r.Done? && r.jump.Normal? && !Settled(r.m.ledger) {
          var a :| a in o.states && Tracks(a, r.m, names);
          assert q.(state := a) in o.abrupt + Resumed(q, o.states);
          assert Describes(q.(state := a), Finish(f, h), ctx, names);
        }
      }
    }
  }

  /** The try block's completion, handled when it is a throw. */
  lemma {:induction false} SoundCatch(handler: Handler, tried: Outcome, b: Step, ctx: seq<Frame>, names: set<Name>)
    requires b.Done? && Covers(tried, b, ctx, names) && RegularList(handler.block, names) && Aligned(ctx, [], 0)
    ensures var caught := AnalyzeHandler(handler, tried.abrupt, ctx);
            Covers(Outcome(tried.states + caught.states, caught.abrupt, caught.unsafe),
                   if b.jump.Thrown? then ExecHandler(handler, b.m, b.jump.original, b.rest) else b, ctx, names)
    decreases |b.rest|, handler, 1, 0
  {
    if !Settled(b.m.ledger) && !b.jump.Normal? {
      var q :| q in tried.abrupt && Describes(q, b, ctx, names);
      if b.jump.Thrown? {
        SoundHandler(handler, tried.abrupt, q, b.m, b.jump.original, b.rest, ctx, names);
      } else {
        HandlerPasses(handler, tried.abrupt, q, ctx);
      }
    }
  }

  lemma {:induction false} SoundTry(s: Stmt, a: FlowState, m: Machine, o: Oracle, ctx: seq<Frame>, names: set<Name>)
    requires s.Try? && Tracks(a, m, names) && Regular(s, names) && Aligned(ctx, [], 0)
    ensures Covers(AnalyzeTry(s, a, ctx), ExecTry(s, m, o), ctx, names)
    decreases |o|, s, 0, 0
  {
    SoundBlock(s.tried, a, m, o, ctx, names);
    var tried := AnalyzeBlock(s.tried, a, ctx, false);
    var b := ExecBlock(s.tried, m, o);
    if b.Done? {
      var handled, h := tried, b;
      if s.handler.Some? {
        var caught := AnalyzeHandler(s.handler.value, tried.abrupt, ctx);
        SoundCatch(s.handler.value, tried, b, ctx, names);
        handled := Outcome(tried.states + caught.states, caught.abrupt, caught.unsafe);
        if b.jump.Thrown? { h := ExecHandler(s.handler.value, b.m, b.jump.original, b.rest); }
      }
      if h.Done? { SoundFinish(s.finalizer, handled, h, ctx, names); }
    }
  }

  // ----- loops -------------------------------------------------------------------

  /** Protection only rises and the names are not rebound: the entry state still holds. */
  lemma {:induction false} Persists(a: FlowState, m: Machine, m': Machine, written: set<Name>, names: set<Name>)
    requires Tracks(a, m, names) && Evolves(m, m', written) && written !! names
    ensures Tracks(a, m', names)
  {
  }

  /** How a loop sorts what its body did: leave, go round, or pass the completion on. */
  lemma {:induction false} SoundSplit(body: Outcome, b: Step, labels: seq<Name>, ctx: seq<Frame>, names: set<Name>)
    requires b.Done? && !Settled(b.m.ledger) && Covers(body, b, ctx + [LoopFrame], names) && Aligned(ctx, labels, 1)
    ensures b.jump == Broke(None) ==>
              exists a :: a in Landing(body.abrupt, Breaking, |ctx|) && Tracks(a, b.m, names)
    ensures Resumes(b.jump, labels) ==>
              exists a :: a in body.states + Landing(body.abrupt, Continuing, |ctx|) && Tracks(a, b.m, names)
    ensures b.jump != Broke(None) && !Resumes(b.jump, labels) ==>
              exists q :: q in Passing(body.abrupt, |ctx|, true) && Describes(q, b, ctx, names)
  {
    if !b.jump.Normal? {
      var q :| q in body.abrupt && Describes(q, b, ctx + [LoopFrame], names);
      if b.jump.Broke? || b.jump.Continued? { LoopTargets(b.jump.jump, ctx, labels); }
      if b.jump == Broke(None) {
        assert q.state in Landing(body.abrupt, Breaking, |ctx|);
      } else if Resumes(b.jump, labels) {
        assert q.state in Landing(body.abrupt, Continuing, |ctx|);
      } else {
        assert q in Passing(body.abrupt, |ctx|, true) && Describes(q, b, ctx, names);
      }
    }
  }

  lemma {:induction false} SoundWhile(s: Stmt, a: FlowState, m: Machine, o: Oracle, labels: seq<Name>,
                                      ctx: seq<Frame>, names: set<Name>)
    requires s.While? && Tracks(a, m, names) && Regular(s, names) && Aligned(ctx, labels, 1)
    ensures Covers(AnalyzeWhile(s, a, ctx), IterateWhile(s, m, o, labels), ctx, names)
    decreases |o|, s, 0, 0
  {
    var t := Eval(s.cond, m, o);
    var tested := AnalyzeExpr(s.cond, a);
    SoundExpr(s.cond, a, m, o, ctx, names);
    if t.Value? && t.rest != [] && !Settled(t.m.ledger) && t.rest[0].taken {
      var a' :| a' in tested.states && Tracks(a', t.m, names);
      AlignedUnder(ctx, labels, 1, LoopFrame, 0);
      SoundEach(s.loopBody, tested.states, a', t.m, t.rest[1..], ctx + [LoopFrame], names);
      var body := AnalyzeEach(s.loopBody, tested.states, ctx + [LoopFrame], false);
      var b := Exec(s.loopBody, t.m, t.rest[1..], []);
      if b.Done? && !Settled(b.m.ledger) {
        SoundSplit(body, b, labels, ctx, names);
        if Resumes(b.jump, labels) {
          Persists(a, m, b.m, Writes(s), names);
          SoundWhile(s, a, b.m, b.rest, labels, ctx, names);
        }
      }
    }
  }

  lemma {:induction false} SoundDoWhile(s: Stmt, a: FlowState, m: Machine, o: Oracle, labels: seq<Name>,
                                        ctx: seq<Frame>, names: set<Name>)
    requires s.DoWhile? && Tracks(a, m, names) && Regular(s, names) && Aligned(ctx, labels, 1)
    ensures Covers(AnalyzeDoWhile(s, a, ctx), IterateDo(s, m, o, labels), ctx, names)
    decreases |o|, s, 0, 0
  {
    AlignedUnder(ctx, labels, 1, LoopFrame, LoopDepth(s.loopBody));
    SoundStmt(s.loopBody, a, m, o, [], ctx + [LoopFrame], names);
    var body := AnalyzeStmt(s.loopBody, a, ctx + [LoopFrame], false);
    var b := Exec(s.loopBody, m, o, []);
    if b.Done? && !Settled(b.m.ledger) {
      SoundSplit(body, b, labels, ctx, names);
      if Resumes(b.jump, labels) {
        var again := body.states + Landing(body.abrupt, Continuing, |ctx|);
        var a' :| a' in again && Tracks(a', b.m, names);
        SoundExprs(s.cond, again, a', b.m, b.rest, ctx, names);
        var t := Eval(s.cond, b.m, b.rest);
        if t.Value? && t.rest != [] && t.rest[0].taken && !Settled(t.m.ledger) {
          Persists(a, m, t.m, Writes(s), names);
          SoundDoWhile(s, a, t.m, t.rest[1..], labels, ctx, names);
        }
      }
    }
  }

  /** Declarators that copy nothing leave no alias under the names they declare. */
  lemma {:induction false} SoundFreshNames(kind: DeclKind, ds: seq<Declarator>, states: seq<FlowState>, a: FlowState,
                                           m: Machine, o: Oracle, ctx: seq<Frame>, names: set<Name>)
    requires a in states && Tracks(a, m, names) && forall d :: d in ds ==> !CopiesError(kind, d)
    ensures var r := ExecDeclarators(kind, ds, m, o);
            r.Done? && r.jump.Normal? && !Settled(r.m.ledger) ==>
              exists a' :: a' in AnalyzeDeclarators(kind, ds, states).states && Tracks(a', r.m, names - DeclaredNames(ds))
  {
    var r := ExecDeclarators(kind, ds, m, o);
    if r.Done? && r.jump.Normal? && !Settled(r.m.ledger) {
      if ds == [] {
        assert Tracks(a, r.m, names - DeclaredNames(ds));
      } else {
        var v := EvalOptional(ds[0].init, m, o);
        var m' := v.m.(holders := Assign(v.m.holders, ds[0].name, v.original));
        var a' := SoundFreshName(kind, ds[0], states, a, m, o, ctx, names);
        SoundFreshNames(kind, ds[1..], AnalyzeDeclaratorEach(kind, ds[0], states).states, a', m',
                        if IsUsing(kind) then v.rest[1..] else v.rest, ctx, names - {ds[0].name});
        assert DeclaredNames(ds) == {ds[0].name} + DeclaredNames(ds[1..]);
        assert names - {ds[0].name} - DeclaredNames(ds[1..]) == names - DeclaredNames(ds);
      }
    }
  }

  /** A declared name that does not copy the error is no alias. */
  lemma {:induction false} SoundFreshName(kind: DeclKind, d: Declarator, states: seq<FlowState>, a: FlowState, m: Machine, o: Oracle,
                                          ctx: seq<Frame>, names: set<Name>) returns (a': FlowState)
    requires a in states && Tracks(a, m, names) && !CopiesError(kind, d)
    requires EvalOptional(d.init, m, o).Value? && !Settled(EvalOptional(d.init, m, o).m.ledger)
    ensures a' in AnalyzeDeclaratorEach(kind, d, states).states
    ensures var v := EvalOptional(d.init, m, o);
            Tracks(a', v.m.(holders := Assign(v.m.holders, d.name, v.original)), names - {d.name})
  {
    var v := EvalOptional(d.init, m, o);
    SoundDeclarator(kind, d, a, m, o, ctx, names);
    a' :| a' in AnalyzeDeclarator(kind, d, a).states && Tracks(a', v.m.(holders := Assign(v.m.holders, d.name, v.original)), names);
    DeclaratorIncluded(kind, d, states, a);
    UnboundAfter(kind, d, a, AnalyzeOptional(d.init, [a]).states, a');
  }

  lemma {:induction false} UnboundAfter(kind: DeclKind, d: Declarator, before: FlowState, afters: seq<FlowState>,
                                        a: FlowState)
    requires a in BindAll(kind, d, before, afters) && !CopiesError(kind, d)
    ensures d.name !in a.aliases
  {
    if a != Bind(kind, d, before, afters[0]) { UnboundAfter(kind, d, before, afters[1..], a); }
  }

  lemma {:induction false} SoundInit(init: ForInit, a: FlowState, m: Machine, o: Oracle, ctx: seq<Frame>, names: set<Name>)
    requires Tracks(a, m, names)
    requires init.InitDeclare? ==> forall d :: d in init.declarators ==> !CopiesError(init.kind, d)
    ensures var r := ExecInit(init, m, o);
            Covers(AnalyzeInit(init, a), r, ctx, names) &&
            (r.Done? && r.jump.Normal? && !Settled(r.m.ledger) ==>
               exists a' :: a' in AnalyzeInit(init, a).states && Tracks(a', r.m, names - ScopedByInit(init)))
  {
    match init
    case NoInit => assert a in [a];
    case InitDeclare(kind, ds) =>
      SoundDeclarators(kind, ds, [a], a, m, o, ctx, names);
      SoundFreshNames(kind, ds, [a], a, m, o, ctx, names);
    case InitExpr(e) =>
      SoundExpr(e, a, m, o, ctx, names);
      assert names - ScopedByInit(init) == names;
  }

  /** Names that are no alias may come and go with a scope. */
  lemma {:induction false} SoundUnscope(out: Outcome, r: Step, outer: set<Name>, scope: set<Name>, ctx: seq<Frame>, names: set<Name>)
    requires Covers(out, r, ctx, names - scope)
    ensures Covers(out, Leave(r, outer, scope, false), ctx, names)
  {
    var after := Leave(r, outer, scope, false);
    if after.Done? && !Settled(after.m.ledger) {
      if r.jump.Normal? {
        var a :| a in out.states && Tracks(a, r.m, names - scope);
        assert Tracks(a, after.m, names);
      } else {
        var q :| q in out.abrupt && Describes(q, r, ctx, names - scope);
        assert Describes(q, after, ctx, names);
      }
    }
  }

  /** The body of a for loop, from any state its test tracks: where each way out of it leads. */
  lemma {:induction false} SoundForBody(s: Stmt, start: FlowState, a: FlowState, m: Machine, o: Oracle,
                                        labels: seq<Name>, ctx: seq<Frame>, names: set<Name>)
    requires s.For? && Tracks(a, m, names) && Regular(s.loopBody, names) && Aligned(ctx, labels, 1)
    requires a in AnalyzeOptional(s.test, AnalyzeInit(s.init, start).states).states
    ensures var b := Exec(s.loopBody, m, o, []); var out := AnalyzeFor(s, start, ctx);
            b.Done? && !Settled(b.m.ledger) ==>
              (b.jump == Broke(None) ==> exists a' :: a' in out.states && Tracks(a', b.m, names)) &&
              (b.jump != Broke(None) && !Resumes(b.jump, labels) ==>
                 exists q :: q in out.abrupt && Describes(q, b, ctx, names)) &&
              (Resumes(b.jump, labels) ==> exists a' :: a' in ForAgain(s, start, ctx) && Tracks(a', b.m, names))
    decreases |o|, s, 0, 0
  {
    var tested := AnalyzeOptional(s.test, AnalyzeInit(s.init, start).states);
    AlignedUnder(ctx, labels, 1, LoopFrame, 0);
    SoundEach(s.loopBody, tested.states, a, m, o, ctx + [LoopFrame], names);
    var body := AnalyzeEach(s.loopBody, tested.states, ctx + [LoopFrame], false);
    var b := Exec(s.loopBody, m, o, []);
    if b.Done? && !Settled(b.m.ledger) {
      SoundSplit(body, b, labels, ctx, names);
    }
  }

  /** The states in which the analysis of a for loop reaches the update. */
  ghost function ForAgain(s: Stmt, start: FlowState, ctx: seq<Frame>): seq<FlowState>
    requires s.For?
  {
    var tested := AnalyzeOptional(s.test, AnalyzeInit(s.init, start).states);
    var body := AnalyzeEach(s.loopBody, tested.states, ctx + [LoopFrame], false);
    body.states + Landing(body.abrupt, Continuing, |ctx|)
  }

  lemma {:induction false} SoundForTest(s: Stmt, start: FlowState, a: FlowState, m: Machine, o: Oracle, ctx: seq<Frame>, names: set<Name>)
    requires s.For? && a in AnalyzeInit(s.init, start).states && Tracks(a, m, names)
    ensures var t := EvalOptional(s.test, m, o);
            (!t.Value? || s.test.Some? ==> Covers(AnalyzeFor(s, start, ctx), Complete(t), ctx, names)) &&
            Covers(AnalyzeOptional(s.test, AnalyzeInit(s.init, start).states), Complete(t), ctx, names)
  {
    SoundOptional(s.test, AnalyzeInit(s.init, start).states, a, m, o, ctx, names);
  }

  lemma {:induction false} SoundForUpdate(s: Stmt, start: FlowState, a: FlowState, m: Machine, o: Oracle, ctx: seq<Frame>, names: set<Name>)
    requires s.For? && a in ForAgain(s, start, ctx) && Tracks(a, m, names)
    ensures var u := EvalOptional(s.update, m, o);
            !u.Value? ==> Covers(AnalyzeFor(s, start, ctx), Complete(u), ctx, names)
  {
    SoundOptional(s.update, ForAgain(s, start, ctx), a, m, o, ctx, names);
  }

  /** Going round from any state that one of the prepared states tracks. */
  lemma {:induction false} SoundForRounds(s: Stmt, start: FlowState, a: FlowState, m: Machine, o: Oracle,
                                          labels: seq<Name>, ctx: seq<Frame>, names: set<Name>)
    requires s.For? && a in AnalyzeInit(s.init, start).states && Tracks(a, m, names)
    requires (AssignedOpt(s.test) + AssignedOpt(s.update) + Writes(s.loopBody)) !! names
    requires Regular(s.loopBody, names) && Aligned(ctx, labels, 1)
    ensures Covers(AnalyzeFor(s, start, ctx), IterateFor(s, m, o, labels), ctx, names)
    decreases |o|, s, 0, 1
  {
    var r := IterateFor(s, m, o, labels);
    if r.Done? && !Settled(r.m.ledger) {
      var t := EvalOptional(s.test, m, o[1..]);
      SoundForTest(s, start, a, m, o[1..], ctx, names);
      if t.Value? && !(s.test.Some? && !o[0].taken) {
        SoundForRound(s, start, a, m, o, labels, ctx, names);
      }
    }
  }

  /** A round whose test let the loop go on: its body, its update, and the rounds behind it. */
  lemma {:induction false} SoundForRound(s: Stmt, start: FlowState, a: FlowState, m: Machine, o: Oracle,
                                         labels: seq<Name>, ctx: seq<Frame>, names: set<Name>)
    requires s.For? && a in AnalyzeInit(s.init, start).states && Tracks(a, m, names)
    requires (AssignedOpt(s.test) + AssignedOpt(s.update) + Writes(s.loopBody)) !! names
    requires Regular(s.loopBody, names) && Aligned(ctx, labels, 1)
    requires o != [] && EvalOptional(s.test, m, o[1..]).Value? && !(s.test.Some? && !o[0].taken)
    ensures Covers(AnalyzeFor(s, start, ctx), IterateFor(s, m, o, labels), ctx, names)
    decreases |o|, s, 0, 0
  {
    var r := IterateFor(s, m, o, labels);
    if r.Done? && !Settled(r.m.ledger) {
      var t := EvalOptional(s.test, m, o[1..]);
      SoundForTest(s, start, a, m, o[1..], ctx, names);
      var a1 :| a1 in AnalyzeOptional(s.test, AnalyzeInit(s.init, start).states).states && Tracks(a1, t.m, names);
      SoundForBody(s, start, a1, t.m, t.rest, labels, ctx, names);
      var b := Exec(s.loopBody, t.m, t.rest, []);
      if Resumes(b.jump, labels) {
        var a2 :| a2 in ForAgain(s, start, ctx) && Tracks(a2, b.m, names);
        SoundForUpdate(s, start, a2, b.m, b.rest, ctx, names);
        var u := EvalOptional(s.update, b.m, b.rest);
        if u.Value? {
          RoundPersists(s, a, m, o[1..], names);
          SoundForRounds(s, start, a, u.m, u.rest, labels, ctx, names);
        }
      }
    }
  }

  /** A whole round of a for loop writes no followed name. */
  lemma {:induction false} RoundPersists(s: Stmt, a: FlowState, m: Machine, o: Oracle, names: set<Name>)
    requires s.For? && Tracks(a, m, names)
    requires (AssignedOpt(s.test) + AssignedOpt(s.update) + Writes(s.loopBody)) !! names
    ensures var t := EvalOptional(s.test, m, o);
            t.Value? ==>
              var b := Exec(s.loopBody, t.m, t.rest, []);
              b.Done? ==>
                var u := EvalOptional(s.update, b.m, b.rest);
                u.Value? ==> Tracks(a, u.m, names)
  {
    var t := EvalOptional(s.test, m, o);
    if t.Value? {
      var b := Exec(s.loopBody, t.m, t.rest, []);
      if b.Done? {
        var u := EvalOptional(s.update, b.m, b.rest);
        if u.Value? { Persists(a, m, u.m, AssignedOpt(s.test) + AssignedOpt(s.update) + Writes(s.loopBody), names); }
      }
    }
  }

  lemma {:induction false} SoundFor(s: Stmt, a: FlowState, m: Machine, o: Oracle, labels: seq<Name>, ctx: seq<Frame>,
                                    names: set<Name>)
    requires s.For? && Tracks(a, m, names) && Regular(s, names) && Aligned(ctx, labels, 1)
    ensures Covers(AnalyzeFor(s, a, ctx), ExecFor(s, m, o, labels), ctx, names)
    decreases |o|, s, 0, 2
  {
    var scope := ScopedByInit(s.init);
    var p := ExecInit(s.init, m, o);
    SoundInit(s.init, a, m, o, ctx, names);
    if p.Done? && !Settled(p.m.ledger) {
      if p.jump.Normal? {
        var a' :| a' in AnalyzeInit(s.init, a).states && Tracks(a', p.m, names - scope);
        SoundForRounds(s, a, a', p.m, p.rest, labels, ctx, names - scope);
        SoundUnscope(AnalyzeFor(s, a, ctx), IterateFor(s, p.m, p.rest, labels), m.holders, scope, ctx, names);
      } else {
        // an alias under a scoped name can only be one that already held the error outside
        var kept := names - (scope - m.holders);
        SoundInit(s.init, a, m, o, ctx, kept);
        var q :| q in AnalyzeInit(s.init, a).abrupt && Describes(q, p, ctx, kept);
        var r := ExecFor(s, m, o, labels);
        assert Describes(q, r, ctx, names);
        assert q in AnalyzeFor(s, a, ctx).abrupt;
      }
    }
  }

  lemma {:induction false} SoundEachRound(s: Stmt, start: FlowState, a: FlowState, m: Machine, original: bool,
                                          o: Oracle, labels: seq<Name>, ctx: seq<Frame>, names: set<Name>)
    requires s.ForEach? && a in AnalyzeExpr(s.iterable, start).states && Tracks(a, m, names)
    requires Regular(s, names) && Aligned(ctx, labels, 1)
    ensures var b := EachRound(s, m, original, o); var out := AnalyzeForEach(s, start, ctx);
            b.Done? && !Settled(b.m.ledger) ==>
              (b.jump == Broke(None) ==> exists a' :: a' in out.states && Tracks(a', b.m, names)) &&
              (b.jump != Broke(None) && !Resumes(b.jump, labels) ==>
                 exists q :: q in out.abrupt && Describes(q, b, ctx, names))
    decreases |o|, s, 0, 0
  {
    var name := s.binding.name;
    var bound := DropName(AnalyzeExpr(s.iterable, start).states, name);
    var a' := a.(aliases := a.aliases - {name});
    var m' := m.(holders := Assign(m.holders, name, original));
    AlignedUnder(ctx, labels, 1, LoopFrame, 0);
    SoundEach(s.loopBody, bound, a', m', o, ctx + [LoopFrame], names - {name});
    var body := AnalyzeEach(s.loopBody, bound, ctx + [LoopFrame], false);
    var inner := Exec(s.loopBody, m', o, []);
    var b := EachRound(s, m, original, o);
    SoundUnscope(body, inner, m.holders, {name}, ctx + [LoopFrame], names);
    if !(s.binding.DeclareEach? && s.binding.scoped) { assert names - {name} == names; }
    if b.Done? && !Settled(b.m.ledger) { SoundSplit(body, b, labels, ctx, names); }
  }

  lemma {:induction false} SoundForEachRounds(s: Stmt, start: FlowState, a: FlowState, m: Machine, o: Oracle,
                                              labels: seq<Name>, ctx: seq<Frame>, names: set<Name>)
    requires s.ForEach? && a in AnalyzeExpr(s.iterable, start).states && Tracks(a, m, names)
    requires Regular(s, names) && Aligned(ctx, labels, 1)
    ensures Covers(AnalyzeForEach(s, start, ctx), IterateEach(s, m, o, labels), ctx, names)
    decreases |o|, s, 0, 1
  {
    var r := IterateEach(s, m, o, labels);
    if r.Done? && !Settled(r.m.ledger) {
      var out := AnalyzeForEach(s, start, ctx);
      assert ThrowFrom(a) in out.abrupt && a in out.states;
      if o[0].throws {
        assert Describes(ThrowFrom(a), r, ctx, names);
      } else if o[0].taken {
        SoundEachRound(s, start, a, m, o[0].original, o[1..], labels, ctx, names);
        var b := EachRound(s, m, o[0].original, o[1..]);
        Persists(a, m, b.m, Writes(s), names);
        if Resumes(b.jump, labels) {
          SoundForEachRounds(s, start, a, b.m, b.rest, labels, ctx, names);
        } else if !b.jump.Thrown? && b.rest[0].throws {
          assert Describes(ThrowFrom(a), r, ctx, names);
        } else if b.jump != Broke(None) {
          var q :| q in out.abrupt && Describes(q, b, ctx, names);
          assert Describes(q, r, ctx, names);
        }
      }
    }
  }

  lemma {:induction false} SoundForEach(s: Stmt, a: FlowState, m: Machine, o: Oracle, labels: seq<Name>,
                                        ctx: seq<Frame>, names: set<Name>)
    requires s.ForEach? && Tracks(a, m, names) && Regular(s, names) && Aligned(ctx, labels, 1)
    ensures Covers(AnalyzeForEach(s, a, ctx), ExecForEach(s, m, o, labels), ctx, names)
    decreases |o|, s, 0, 2
  {
    var v := Eval(s.iterable, m, o);
    SoundExpr(s.iterable, a, m, o, ctx, names);
    if v.Value? && !Settled(v.m.ledger) {
      var a' :| a' in AnalyzeExpr(s.iterable, a).states && Tracks(a', v.m, names);
      SoundForEachRounds(s, a, a', v.m, v.rest, labels, ctx, names);
    }
  }
}
