/**
 The verdict of the coverage scan from the other side: a boundary that is rejected has a run that shows why, so that on
 programs whose text shows where the error is held the scan accepts exactly the boundaries that never lose it.
 */
module FlowVerdict {
  import opened Wrappers
  import opened FlowSyntax
  import opened FlowAnalysis
  import opened FlowSemantics
  import opened FlowSoundness
  import opened FlowTheorems
  import opened FlowReach
  import opened FlowCompleteness
  import opened FlowHandOffs

  // ----- the boundary's own statements ---------------------------------------------

  function MarkIf(marks: bool, r: Step): Step {
    if r.Done? && marks then r.(m := r.m.(ledger := HandedOver(r.m.ledger))) else r
  }

  /** One of the boundary's own statements. */
  function Own(s: Stmt, marks: bool): Code {
    Code((m: Machine, o: Oracle) => MarkIf(marks && HandsOff(s, m, o), Exec(s, m, o, [])),
         (m: Machine, o: Oracle) => Strays(s, m, o, []))
  }

  lemma {:induction false} DirectFollows(ss: seq<Stmt>, marks: bool)
    requires ss != []
    ensures Follows(Both(Own(ss[0], marks), Direct(ss[1..], marks)), Direct(ss, marks))
  {
    var all := Both(Own(ss[0], marks), Direct(ss[1..], marks));
    forall m: Machine, o: Oracle
      ensures Alike(all, Direct(ss, marks), m, o)
    {
      var r := Exec(ss[0], m, o, []);
      if HandsOff(ss[0], m, o) && r.Done? { assert !r.jump.Normal?; }
    }
  }

  lemma {:induction false} RaisedAt(e: Expr, a: FlowState, q: Abrupt, names: set<Name>, place: Place)
    requires q in AnalyzeExpr(e, a).abrupt && SharpExpr(e, names, place) && a.aliases <= names
    ensures q.state == a && (q.exactOriginal ==> place.Open?)
  {
  }

  /** How a return may leave: with its hand-off owned, or by a throw of its value. */
  lemma {:induction false} ReturnExits(here: Here, s: Stmt, a: FlowState, q: Abrupt)
    requires s.Return? && SharpOption(s.value, here.names, here.place) && a.aliases <= here.names
    requires Occurs(here.mode, By(q), Honour(s, AnalyzeStmt(s, a, here.ctx, true)))
    ensures q.kind.Returning? ==> !q.state.protection.Provisional?
    ensures q.kind.Throwing? ==>
              q.state == a && (q.exactOriginal ==> here.place.Open?) && (a.protection.Provisional? ==> q.exactOriginal)
    ensures q.kind.Returning? || q.kind.Throwing?
  {
    var valued := AnalyzeOptional(s.value, [a]);
    var y := Unhonoured(s, AnalyzeStmt(s, a, here.ctx, true), here.mode, By(q));
    if y.q in Returns(valued.states, true) {
      var _ := ReturnFrom(valued.states, true, y.q);
    } else {
      if a.protection.Provisional? { ExactOnly(valued.abrupt, y.q); }
      OneExpr(s.value.value, a);
      RaisedAt(s.value.value, a, y.q, here.names, here.place);
    }
  }

  lemma {:induction false} ExactOnly(qs: seq<Abrupt>, q: Abrupt)
    requires q in Exacts(qs)
    ensures q in qs && q.exactOriginal
  {
    if !(qs[0].exactOriginal && q == qs[0]) { ExactOnly(qs[1..], q); }
  }

  /** The ledger of a run of a return tells whether it hands the error off. */
  lemma {:induction false} HandsOffIs(s: Stmt, m: Machine, o: Oracle)
    requires s.Return?
    ensures var r := Exec(s, m, o, []);
            r.Done? ==> (HandsOff(s, m, o) <==> if r.jump.Returned? then r.m.ledger.deferred else m.ledger.deferred)
  {
  }

  lemma {:induction false} MatchesMarked(here: Here, s: Stmt, a: FlowState, m: Machine, q: Abrupt, e: End)
    requires s.Return? && SharpOption(s.value, here.names, here.place) && Backs(here, a, m) && here.mode.Losing?
    requires Occurs(here.mode, By(q), Honour(s, AnalyzeStmt(s, a, here.ctx, true))) && !here.place.Guarded?
    requires Matches(here, By(q), e)
    requires if e.jump.Returned? then e.m.ledger.deferred else m.ledger.deferred
    ensures Matches(here, By(q), e.(m := e.m.(ledger := HandedOver(e.m.ledger))))
  {
    ReturnExits(here, s, a, q);
  }

  lemma {:induction false} ReachOwnReturn(here: Here, s: Stmt, a: FlowState, x: Exit)
    requires s.Return? && SharpOption(s.value, here.names, here.place) && !here.place.Guarded?
    requires Occurs(here.mode, x, Honour(s, AnalyzeStmt(s, a, here.ctx, true)))
    ensures Reaches(here, Own(s, here.mode.Losing?), a, x)
  {
    var c, marks := Own(s, here.mode.Losing?), here.mode.Losing?;
    ReachReturn(here, s, [], a, true, x);
    forall m: Machine | Backs(here, a, m)
      ensures Reached(here, c, m, x)
    {
      assert Reached(here, One(s, []), m, x);
      var p: Oracle, e: End :| Runs(One(s, []), m, p, e) && Matches(here, x, e);
      var handsOff := marks && e.Ending? && if e.jump.Returned? then e.m.ledger.deferred else m.ledger.deferred;
      if handsOff { MatchesMarked(here, s, a, m, x.q, e); }
      var e' := if handsOff then e.(m := e.m.(ledger := HandedOver(e.m.ledger))) else e;
      forall t: Oracle
        ensures Ends(c, m, p + t, e', t)
      {
        assert Ends(One(s, []), m, p + t, e, t);
        HandsOffIs(s, m, p + t);
      }
      assert Runs(c, m, p, e');
    }
  }

  lemma {:induction false} ReachOwn(here: Here, s: Stmt, states: seq<FlowState>, x: Exit) returns (a: FlowState)
    requires Sharp(s, here.names, here.closed, here.place) && Aligned(here.ctx, [], 0) && !here.place.Guarded?
    requires Occurs(here.mode, x, AnalyzeEach(s, states, here.ctx, true))
    ensures a in states && Reaches(here, Own(s, here.mode.Losing?), a, x)
    decreases |states|
  {
    if !s.Return? {
      DirectSame(s, states, here.ctx);
      a := ReachEach(here, s, states, x);
      ReachFollows(here, One(s, []), Own(s, here.mode.Losing?), a, x);
    } else if Occurs(here.mode, x, Honour(s, AnalyzeStmt(s, states[0], here.ctx, true))) {
      a := states[0];
      ReachOwnReturn(here, s, a, x);
    } else {
      a := ReachOwn(here, s, states[1..], x);
    }
  }

  lemma {:induction false} ReachDirect(here: Here, ss: seq<Stmt>, states: seq<FlowState>, x: Exit) returns (a: FlowState)
    requires FitsList(here, ss) && !here.place.Guarded? && Occurs(here.mode, x, AnalyzeList(ss, states, here.ctx, true))
    ensures a in states && Reaches(here, Direct(ss, here.mode.Losing?), a, x)
    decreases ss
  {
    var marks := here.mode.Losing?;
    if ss == [] {
      a := x.a;
      ReachSkip(here, a);
      ReachFollows(here, Skip(), Direct(ss, marks), a, x);
    } else {
      var first := AnalyzeEach(ss[0], states, here.ctx, true);
      var head, rest := Own(ss[0], marks), Direct(ss[1..], marks);
      if !x.At? && Occurs(here.mode, x, first) {
        a := ReachOwn(here, ss[0], states, x);
        ReachFirst(here, head, rest, a, x);
      } else {
        var between := ReachDirect(here, ss[1..], first.states, x);
        a := ReachOwn(here, ss[0], states, At(between));
        ReachThen(here, head, rest, a, between, x);
      }
      DirectFollows(ss, marks);
      ReachFollows(here, Both(head, rest), Direct(ss, marks), a, x);
    }
  }

  // ----- the boundary --------------------------------------------------------------

  /** The boundary's block in the scope of its own declarations. */
  function BodyCode(ss: seq<Stmt>, marks: bool): Code { Hidden(LexicalNames(ss), Direct(ss, marks)) }

  lemma {:induction false} ReachBody(here: Here, ss: seq<Stmt>, a: FlowState, x: Exit)
    requires FitsList(here, ss) && !here.place.Guarded? && Occurs(here.mode, x, AnalyzeBlock(ss, a, here.ctx, true))
    ensures Reaches(here, BodyCode(ss, here.mode.Losing?), a, x)
  {
    var names := LexicalNames(ss);
    var a0 := a.(aliases := a.aliases - names);
    SharpNoUsing(ss, here.names, here.closed, here.place);
    var y := Inside(AnalyzeList(ss, [a0], here.ctx, true), a, names, here.mode, x);
    var b := ReachDirect(here, ss, [a0], y);
    assert b == a0;
    ReachHidden(here, names, Direct(ss, here.mode.Losing?), a, y);
  }

  /** Outside the catch clause its binding holds nothing. */
  function Unbinding(names: set<Name>, c: Code): Code {
    Code((m: Machine, o: Oracle) => Leave(c.go(m, o), {}, names, false), (m: Machine, o: Oracle) => c.strays(m, o))
  }

  function UnboundExit(x: Exit, names: set<Name>): Exit {
    match x
    case Unsafe => Unsafe
    case At(a) => At(a.(aliases := a.aliases - names))
    case By(q) => By(q.(state := q.state.(aliases := q.state.aliases - names)))
  }

  lemma {:induction false} MatchesUnbound(here: Here, x: Exit, e: End, names: set<Name>)
    requires Matches(here, x, e)
    ensures Matches(here, UnboundExit(x, names), LeftEnd(e, {}, names))
  {
    if e.Ending? { assert Reinstate(e.m.holders, {}, names) == e.m.holders - names; }
  }

  lemma {:induction false} ReachUnbinding(here: Here, names: set<Name>, c: Code, a: FlowState, x: Exit)
    requires Reaches(here, c, a, x)
    ensures Reaches(here, Unbinding(names, c), a, UnboundExit(x, names))
  {
    forall m: Machine | Backs(here, a, m)
      ensures Reached(here, Unbinding(names, c), m, UnboundExit(x, names))
    {
      var p: Oracle, e: End :| Runs(c, m, p, e) && Matches(here, x, e);
      MatchesUnbound(here, x, e, names);
      forall t: Oracle
        ensures Ends(Unbinding(names, c), m, p + t, LeftEnd(e, {}, names), t)
      {
        assert Ends(c, m, p + t, e, t);
      }
      assert Runs(Unbinding(names, c), m, p, LeftEnd(e, {}, names));
    }
  }

  lemma {:induction false} UnnamedAbrupt(qs: seq<Abrupt>, name: Name, q: Abrupt) returns (p: Abrupt)
    requires q in DropNameAbrupt(qs, name)
    ensures p in qs && q == p.(state := p.state.(aliases := p.state.aliases - {name}))
  {
    if q == qs[0].(state := qs[0].state.(aliases := qs[0].state.aliases - {name})) {
      p := qs[0];
    } else {
      p := UnnamedAbrupt(qs[1..], name, q);
    }
  }

  lemma {:induction false} UnnamedFrom(o: Outcome, binding: Option<Name>, mode: Mode, x: Exit) returns (y: Exit)
    requires !x.Unsafe? && Occurs(mode, x, WithoutName(o, binding))
    ensures Occurs(mode, y, o) && !y.Unsafe? && x == UnboundExit(y, ParamNames(binding))
  {
    y := x;
    if binding.None? {
      assert forall a: FlowState :: a.aliases - {} == a.aliases;
    } else if x.At? {
      var b := DroppedFrom(o.states, binding.value, x.a);
      y := At(b);
    } else {
      var p := UnnamedAbrupt(o.abrupt, binding.value, x.q);
      y := By(p);
    }
  }

  /** The whole boundary, from the catch to the end of its finalizer. */
  function BoundaryCode(b: Boundary, marks: bool): Code {
    match b
    case ExpressionBody(_, e) => Evaluate(Some(e))
    case CatchBlock(binding, body, _, f) =>
      var left := Unbinding(ParamNames(binding), BodyCode(body, marks));
      if f.Finally? then Lastly(left, f.block) else left
  }

  predicate SharpBoundary(b: Boundary, names: set<Name>) {
    ParamNames(b.binding) <= names &&
    match b
    case ExpressionBody(_, e) => SharpExpr(e, names, Open)
    case CatchBlock(_, body, _, f) =>
      SharpList(body, names, {}, WithFinalizer(f, Open)) && (f.Finally? ==> SharpList(f.block, names, {}, Open))
  }

  function Start(b: Boundary): FlowState { FlowState(ParamNames(b.binding), Unprotected, false) }

  /** An exit of the scan's outcome, or that exit with the binding taken out, is reached by a run of the boundary. */
  lemma {:induction false} ReachBoundary(b: Boundary, here: Here, x: Exit) returns (y: Exit)
    requires SharpBoundary(b, here.names) && Aligned(here.ctx, [], 0) && here.closed == {} && here.place.Open?
    requires Occurs(here.mode, x, AnalyzeBoundary(b, here.ctx))
    ensures Reaches(here, BoundaryCode(b, here.mode.Losing?), Start(b), y)
    ensures y == x || y == UnboundExit(x, ParamNames(b.binding))
  {
    var marks, a := here.mode.Losing?, Start(b);
    match b
    case ExpressionBody(_, e) =>
      ReachExpr(here, e, a, x);
      y := x;
    case CatchBlock(binding, body, _, f) =>
      var o, names := AnalyzeBlock(body, a, here.ctx, true), ParamNames(binding);
      if f.NoFinalizer? {
        ReachBody(here, body, a, x);
        ReachUnbinding(here, names, BodyCode(body, marks), a, x);
        y := UnboundExit(x, names);
      } else {
        ReachFinalized(b, here, x);
        y := x;
      }
  }

  lemma {:induction false} ReachFinalized(b: Boundary, here: Here, x: Exit)
    requires b.CatchBlock? && b.finalizer.Finally?
    requires SharpBoundary(b, here.names) && Aligned(here.ctx, [], 0) && here.closed == {} && here.place.Open?
    requires Occurs(here.mode, x, AnalyzeBoundary(b, here.ctx))
    ensures Reaches(here, BoundaryCode(b, here.mode.Losing?), Start(b), x)
  {
    var a, names, before := Start(b), ParamNames(b.binding), BeforeFinalizer(here);
    var o := AnalyzeBlock(b.body, a, here.ctx, true);
    var inner, block := BodyCode(b.body, here.mode.Losing?), b.finalizer.block;
    if x.Unsafe? && o.unsafe {
      ReachBody(before, b.body, a, x);
      ReachUnbinding(before, names, inner, a, x);
      ReachBeforeLast(here, Unbinding(names, inner), block, a);
    } else {
      var y, z := FinishedFrom(here, b.finalizer, WithoutName(o, b.binding), x);
      var w := UnnamedFrom(o, b.binding, here.mode, y);
      ReachBody(before, b.body, a, w);
      ReachUnbinding(before, names, inner, a, w);
      ReachLastly(here, Unbinding(names, inner), block, a, y, z, x);
    }
  }

  // ----- runs of the boundary ------------------------------------------------------

  /** The run acts before anything has happened to the error; an error handed to the caller counts as owned by it. */
  predicate StrayingRun(b: Boundary, o: Oracle) { BoundaryCode(b, true).strays(Caught(b, {}), o) }

  /** The run rethrows the error itself although it was captured. */
  predicate RepeatingRun(b: Boundary, o: Oracle) {
    var r := RunBoundary(b, {}, o).step;
    r.Done? && r.jump == Thrown(true) && r.m.ledger.captured
  }

  /** Without a mark the pieces put together are the boundary's run. */
  lemma {:induction false} PlainRun(b: Boundary, o: Oracle)
    requires !(b.CatchBlock? && b.ownedElsewhere && b.body == []) && (b.CatchBlock? ==> !HasUsing(b.body))
    ensures BoundaryCode(b, false).go(Caught(b, {}), o) == RunBoundary(b, {}, o).step
  {
    if b.CatchBlock? {
      var m := Caught(b, {});
      NoDisposal(b.body, m.(holders := m.holders - LexicalNames(b.body)), o);
    }
  }

  /** A hand-off settles the error for good. */
  lemma {:induction false} MarkedSettles(f: Finalizer, left: Step)
    requires left.Done? && Settled(left.m.ledger)
    ensures var r := Finish(f, left); r.Done? ==> Settled(r.m.ledger)
  {
  }

  lemma {:induction false} UnmarkedBody(ss: seq<Stmt>, m: Machine, o: Oracle)
    requires !HasUsing(ss)
    requires var r := BodyCode(ss, true).go(m, o); r.Done? && !Settled(r.m.ledger)
    ensures ExecBody(ss, m, o) == Ended(BodyCode(ss, true).go(m, o), false)
  {
    var names := LexicalNames(ss);
    var inner := m.(holders := m.holders - names);
    NoDisposal(ss, inner, o);
    var direct := ExecDirect(ss, true, inner, o);
    assert BodyCode(ss, true).go(m, o) == Leave(direct, m.holders, names, false);
    assert direct.Done? && !Settled(direct.m.ledger) && !ListHandsOff(ss, inner, o);
    assert ExecBlock(ss, m, o) == Leave(ExecList(ss, inner, o), m.holders, names, false);
  }

  /** A run that is not settled in the end was never marked, so that it hands nothing off. */
  lemma {:induction false} UnmarkedRun(b: Boundary, o: Oracle)
    requires !(b.CatchBlock? && b.ownedElsewhere && b.body == []) && (b.CatchBlock? ==> !HasUsing(b.body))
    requires var r := BoundaryCode(b, true).go(Caught(b, {}), o); r.Done? && !Settled(r.m.ledger)
    ensures RunBoundary(b, {}, o) == Ended(BoundaryCode(b, true).go(Caught(b, {}), o), false)
  {
    if b.CatchBlock? {
      var m := Caught(b, {});
      var r := BodyCode(b.body, true).go(m, o);
      var left := Leave(r, {}, ParamNames(b.binding), false);
      if b.finalizer.Finally? && left.Done? && Settled(left.m.ledger) { MarkedSettles(b.finalizer, left); }
      UnmarkedBody(b.body, m, o);
    }
  }

  // ----- why a boundary is rejected ------------------------------------------------

  /** A run that shows what is wrong: it strays, it loses the error, or it records it twice. */
  predicate FaultyRun(b: Boundary, o: Oracle) { StrayingRun(b, o) || RepeatingRun(b, o) || !EvidencedRun(b, {}, o) }

  lemma {:induction false} RejectedExit(o: Outcome) returns (mode: Mode, x: Exit)
    requires !Accepts(o)
    ensures Occurs(mode, x, o)
    ensures match x
            case Unsafe => mode.Losing?
            case At(a) => mode.Losing? && MayNeedTerminal(a.protection)
            case By(q) =>
              if mode.Losing? then !q.waived && MayNeedTerminal(q.state.protection) && !(q.kind.Throwing? && q.exactOriginal)
              else q.kind.Throwing? && q.exactOriginal && (q.state.protection.Uncertain? || q.state.terminalized)
  {
    if o.unsafe {
      mode, x := Losing, Unsafe;
    } else if exists a :: a in o.states && !IsTerminal(a.protection) {
      var a :| a in o.states && !IsTerminal(a.protection);
      mode, x := Losing, At(a);
    } else {
      var q :| q in o.abrupt && !CompletionHasEvidence(q);
      var repeats := q.kind.Throwing? && q.exactOriginal && (q.state.protection.Uncertain? || q.state.terminalized);
      mode, x := if repeats then Repeating else Losing, By(q);
    }
  }

  lemma {:induction false} FaultAt(b: Boundary, here: Here, x: Exit, y: Exit)
    requires !(b.CatchBlock? && b.ownedElsewhere && b.body == []) && (b.CatchBlock? ==> !HasUsing(b.body))
    requires ParamNames(b.binding) <= here.names && Reaches(here, BoundaryCode(b, here.mode.Losing?), Start(b), y)
    requires y == x || y == UnboundExit(x, ParamNames(b.binding))
    requires match x
             case Unsafe => here.mode.Losing?
             case At(a) => here.mode.Losing? && MayNeedTerminal(a.protection)
             case By(q) =>
               if here.mode.Losing? then !q.waived && MayNeedTerminal(q.state.protection) && !(q.kind.Throwing? && q.exactOriginal)
               else q.kind.Throwing? && q.exactOriginal && (q.state.protection.Uncertain? || q.state.terminalized)
    ensures exists o: Oracle :: FaultyRun(b, o)
  {
    var m, code := Caught(b, {}), BoundaryCode(b, here.mode.Losing?);
    assert Backs(here, Start(b), m) by { assert {} + ParamNames(b.binding) == ParamNames(b.binding); }
    assert Reached(here, code, m, y);
    var p: Oracle, e: End :| Runs(code, m, p, e) && Matches(here, y, e);
    assert Ends(code, m, p + [], e, []);
    if here.mode.Repeating? {
      PlainRun(b, p + []);
      assert RepeatingRun(b, p + []);
    } else if x.Unsafe? {
      assert StrayingRun(b, p + []);
    } else {
      UnmarkedRun(b, p + []);
      assert !EvidencedRun(b, {}, p + []);
    }
    assert FaultyRun(b, p + []);
  }

  /** A boundary that the scan rejects has a run that shows what is wrong with it. */
  lemma {:induction false} RejectedHasFault(b: Boundary, names: set<Name>, ctx: seq<Frame>)
    requires SharpBoundary(b, names) && Aligned(ctx, [], 0) && !BoundaryHasEvidence(b, ctx)
    ensures exists o: Oracle :: FaultyRun(b, o)
  {
    var mode, x := RejectedExit(AnalyzeBoundary(b, ctx));
    var here := Here(mode, names, ctx, {}, Open);
    if b.CatchBlock? { SharpNoUsing(b.body, names, {}, WithFinalizer(b.finalizer, Open)); }
    var y := ReachBoundary(b, here, x);
    FaultAt(b, here, x, y);
  }

  /**
   The verdict is exact.  A boundary whose text shows where the error is held, and none of whose runs acts too early or
   records the error twice, is accepted exactly when all its runs have evidence.
   */
  lemma {:induction false} AcceptedExactly(b: Boundary, names: set<Name>, ctx: seq<Frame>)
    requires SharpBoundary(b, names) && RegularBoundary(b, names) && KeepsReturns(b, ctx) && Aligned(ctx, [], 0)
    requires forall o: Oracle :: !StrayingRun(b, o) && !RepeatingRun(b, o)
    ensures BoundaryHasEvidence(b, ctx) <==> forall outer: set<Name>, o: Oracle :: EvidencedRun(b, outer, o)
  {
    if BoundaryHasEvidence(b, ctx) {
      forall outer: set<Name>, o: Oracle
        ensures EvidencedRun(b, outer, o)
      {
        AcceptedBoundaryIsSound(b, names, ctx, outer, o);
      }
    } else {
      RejectedHasFault(b, names, ctx);
      var o: Oracle :| FaultyRun(b, o);
      assert !EvidencedRun(b, {}, o);
    }
  }

  // ----- where the scan is not exact ------------------------------------------------

  /** try { throw err; } catch (e) { capture(e); } */
  function CaughtAgain(err: Name, e: Name): Stmt {
    Try([Throw(Read(err), false)], Some(Handler(Some(e), [CaptureOf(e)])), NoFinalizer)
  }

  function RethrowBoundary(err: Name, e: Name): Boundary { CatchBlock(Some(err), [CaughtAgain(err, e)], false, NoFinalizer) }

  /** A block of one statement that declares nothing. */
  lemma {:induction false} BlockOfOne(s: Stmt, a: FlowState, ctx: seq<Frame>, direct: bool)
    requires !s.Declare? && !HasIgnore(s)
    ensures AnalyzeBlock([s], a, ctx, direct) == AnalyzeStmt(s, a, ctx, direct)
  {
    var o := AnalyzeStmt(s, a, ctx, direct);
    PlainSingle(s);
    assert a.aliases - {} == a.aliases;
    OneState(s, a, ctx, direct);
    assert [s][1..] == [];
    assert AnalyzeList([], o.states, ctx, direct) == Outcome(o.states, [], false);
    assert o.abrupt + [] == o.abrupt;
    NoScope(o.states, o.abrupt, a);
  }

  lemma {:induction false} RethrowOutcome(err: Name, a: FlowState)
    requires a == FlowState({err}, Unprotected, false)
    ensures AnalyzeStmt(Throw(Read(err), false), a, [], false) ==
            Outcome([], [Abrupt(Throwing, a, None, true, false, true)], false)
  {
    assert a.aliases - {} == a.aliases && AnalyzeExpr(Read(err), a) == Outcome([a], [], false);
    assert [a][1..] == [] && Throws([a], true) == [Abrupt(Throwing, a, None, true, false, true)];
  }

  lemma {:induction false} HandlerOutcome(err: Name, e: Name, a: FlowState, h: Handler, q: Abrupt)
    requires err != e && a == FlowState({err}, Unprotected, false) && h == Handler(Some(e), [CaptureOf(e)])
    requires q == Abrupt(Throwing, a, None, true, false, true)
    ensures AnalyzeHandler(h, [q], []).states == [a]
  {
    assert a.aliases - {e} == a.aliases && a.aliases - {} == a.aliases && [q][1..] == [];
    assert AnalyzeStmt(CaptureOf(e), a, [], false) == Outcome([a], [], false);
    BlockOfOne(CaptureOf(e), a, [], false);
    assert Restore(a, a, {e}) == a;
    assert RestoreStates([a], a, {e}) == [a] + RestoreStates([a][1..], a, {e});
    assert AnalyzeHandler(h, [], []) == Nothing;
  }

  /** The scan does not see that the handler's parameter is the error, and takes the capture for one of something else. */
  lemma {:induction false} CaughtAgainOutcome(err: Name, e: Name, a: FlowState)
    requires err != e && a == FlowState({err}, Unprotected, false)
    ensures a in AnalyzeStmt(CaughtAgain(err, e), a, [], true).states
  {
    var s, q := CaughtAgain(err, e), Abrupt(Throwing, a, None, true, false, true);
    RethrowOutcome(err, a);
    BlockOfOne(s.tried[0], a, [], false);
    HandlerOutcome(err, e, a, s.handler.value, q);
    assert AnalyzeBlock(s.tried, a, [], false) == Outcome([], [q], false);
    assert a in HandledOutcome(s, a, []).states;
    assert AnalyzeStmt(s, a, [], true).states == AnalyzeTry(s, a, []).states == HandledOutcome(s, a, []).states;
  }

  /**
   Why no handler may catch the error itself: every run of this boundary captures the error under the handler's name, and
   the scan rejects it.
   */
  lemma {:induction false} RethrownIsMissed(err: Name, e: Name)
    requires err != e
    ensures !BoundaryHasEvidence(RethrowBoundary(err, e), [])
    ensures forall o: Oracle :: EvidencedRun(RethrowBoundary(err, e), {}, o)
  {
    var a, s := FlowState({err}, Unprotected, false), CaughtAgain(err, e);
    CaughtAgainOutcome(err, e, a);
    BlockOfOne(s, a, [], true);
    forall o: Oracle
      ensures EvidencedRun(RethrowBoundary(err, e), {}, o)
    {
      RethrownRun(err, e, o);
    }
  }

  lemma {:induction false} ExecOne(s: Stmt, m: Machine, o: Oracle)
    requires !s.Declare?
    ensures var r := Exec(s, m, o, []); ExecBlock([s], m, o) == if r.Done? && r.jump.Normal? then r.(waived := false) else r
  {
    PlainSingle(s);
    assert m.holders - {} == m.holders && m.(holders := m.holders - {}) == m && [s][1..] == [];
    NoDisposal([s], m, o);
    var r := Exec(s, m, o, []);
    assert ExecList([s], m, o) == if r.Done? && r.jump.Normal? then r.(waived := false) else r;
    if r.Done? { assert Reinstate(r.m.holders, m.holders, {}) == r.m.holders; }
  }

  lemma {:induction false} RethrownRun(err: Name, e: Name, o: Oracle)
    requires err != e
    ensures EvidencedRun(RethrowBoundary(err, e), {}, o)
  {
    var b, s := RethrowBoundary(err, e), CaughtAgain(err, e);
    var m := Caught(b, {});
    ExecOne(s, m, o);
    ExecOne(s.tried[0], m, o);
    assert Exec(s, m, o, []) == ExecTry(s, m, o);
    if o == [] {
      assert Exec(s.tried[0], m, o, []).Starved?;
    } else {
      assert Exec(s.tried[0], m, o, []) == Done(m, Thrown(true), false, o[1..]);
      HandledRun(e, m, o[1..]);
    }
  }

  lemma {:induction false} HandledRun(e: Name, m: Machine, o: Oracle)
    ensures var r := ExecHandler(Handler(Some(e), [CaptureOf(e)]), m, true, o); r.Done? ==> r.m.ledger.captured && r.jump.Normal?
  {
    var bound := m.(holders := (m.holders - {e}) + {e});
    ExecOne(CaptureOf(e), bound, o);
    assert Exec(CaptureOf(e), bound, o, []) == Complete(Eval(CaptureOf(e).e, bound, o));
  }
}
