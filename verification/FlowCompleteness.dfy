/**
 Completeness of the coverage scan: on programs whose text shows where the error is held, every state, completion and
 early effect that the scan reports is that of some run.
 */
module FlowCompleteness {
  import opened Wrappers
  import opened FlowSyntax
  import opened FlowAnalysis
  import opened FlowSemantics
  import opened FlowSoundness
  import opened FlowReach
  import opened FlowTheorems

  // ----- programs whose text shows where the error is held ------------------------

  /** A capture's deferral can be read, and the error is not forwarded inside a try statement. */
  predicate SharpExpr(e: Expr, names: set<Name>, place: Place) {
    (e.FacadeCall? ==> !e.mode.UncertainMode?) && (e.NextCall? && e.target in names ==> place.Open?)
  }

  predicate SharpOption(e: Option<Expr>, names: set<Name>, place: Place) { e.Some? ==> SharpExpr(e.value, names, place) }

  /** Only constants copy a name that may hold the error. */
  predicate SharpDeclarator(kind: DeclKind, d: Declarator, names: set<Name>, place: Place) {
    SharpOption(d.init, names, place) &&
    (d.init.Some? && d.init.value.Read? && d.init.value.name in names ==> IsImmutable(kind) && d.name in names)
  }

  predicate SharpDeclarators(kind: DeclKind, ds: seq<Declarator>, names: set<Name>, place: Place) {
    !IsUsing(kind) && forall d :: d in ds ==> SharpDeclarator(kind, d, names, place)
  }

  predicate SharpInit(init: ForInit, names: set<Name>, place: Place) {
    match init
    case NoInit => true
    case InitDeclare(kind, ds) => SharpDeclarators(kind, ds, names, place)
    case InitExpr(e) => SharpExpr(e, names, place)
  }

  function WithFinalizer(f: Finalizer, place: Place): Place {
    if f.Finally? && place.Open? then Finished else place
  }

  /**
   Names of `names` are held or not as the text says.  Nothing is disposed of, no handler catches the error itself, no
   loop variable shadows one of the names, and no continue names a label of `closed`, which label no loops.
   */
  predicate Sharp(s: Stmt, names: set<Name>, closed: set<Name>, place: Place)
    decreases s
  {
    match s
    case Block(body, _) => SharpList(body, names, closed, place)
    case Expression(e, _) => SharpExpr(e, names, place)
    case Declare(kind, ds) => SharpDeclarators(kind, ds, names, place)
    case Return(value, _) => SharpOption(value, names, place)
    case Throw(e, _) => SharpExpr(e, names, place) && !(place.Guarded? && e.Read? && e.name in names)
    case If(e, t, f) =>
      SharpExpr(e, names, place) && Sharp(t, names, closed, place) && (f.Some? ==> Sharp(f.value, names, closed, place))
    case Switch(e, cs) => SharpExpr(e, names, place) && OneDefault(cs) && SharpClauses(cs, names, closed, place)
    case Try(b, h, f) =>
      SharpList(b, names, closed, if h.Some? then Guarded else WithFinalizer(f, place)) &&
      (h.Some? ==> SharpList(h.value.block, names, closed, WithFinalizer(f, place))) &&
      (f.Finally? ==> SharpList(f.block, names, closed, place))
    case For(init, test, update, b) =>
      SharpInit(init, names, place) && ScopedByInit(init) !! names && SharpOption(test, names, place) &&
      SharpOption(update, names, place) && Sharp(b, names, closed, place)
    case ForEach(binding, e, b) =>
      SharpExpr(e, names, place) && (binding.DeclareEach? && binding.scoped ==> binding.name !in names) &&
      Sharp(b, names, closed, place)
    case While(e, b) => SharpExpr(e, names, place) && Sharp(b, names, closed, place)
    case DoWhile(b, e) => Sharp(b, names, closed, place) && !HasIgnore(b) && SharpExpr(e, names, place)
    case Labeled(name, b) =>
      !HasIgnore(b) && Sharp(b, names, if LoopDepth(b) == 0 then closed + {name} else closed - {name}, place)
    case Continue(jump, _) => jump.Some? ==> jump.value !in closed
    case Break(_, _) => true
    case Inert => true
  }

  predicate SharpList(ss: seq<Stmt>, names: set<Name>, closed: set<Name>, place: Place)
    decreases ss
  {
    ss == [] || (Sharp(ss[0], names, closed, place) && SharpList(ss[1..], names, closed, place))
  }

  predicate SharpClauses(cs: seq<Clause>, names: set<Name>, closed: set<Name>, place: Place)
    decreases cs
  {
    cs == [] ||
    (SharpOption(cs[0].selector, names, place) && SharpList(cs[0].statements, names, closed, place) &&
     SharpClauses(cs[1..], names, closed, place))
  }

  /** A switch has at most one default clause. */
  predicate OneDefault(cs: seq<Clause>) {
    cs == [] || ((cs[0].selector.None? ==> !HasDefault(cs[1..])) && OneDefault(cs[1..]))
  }

  // ----- expressions ---------------------------------------------------------------

  /** The choice that leads an expression to one of its exits. */
  function Towards(mode: Mode, x: Exit): Choice {
    Choice(x.By?, x.By? && x.q.exactOriginal, mode.Repeating?, false, {})
  }

  lemma {:induction false} EvalLater(e: Expr, m: Machine, d: Choice, t: Oracle)
    ensures var v := Eval(e, m, [d]); v != NoChoice && v.rest == [] && Eval(e, m, [d] + t) == v.(rest := t)
  {
    assert ([d] + t)[1..] == t && ([d] + t)[0] == d;
    assert [d][1..] == [];
  }

  lemma {:induction false} EvalTowards(here: Here, e: Expr, a: FlowState, m: Machine, x: Exit)
    requires SharpExpr(e, here.names, here.place) && Backs(here, a, m) && Occurs(here.mode, x, AnalyzeExpr(e, a)) && !x.Unsafe?
    ensures var v := Eval(e, m, [Towards(here.mode, x)]);
            match x
            case At(a') => v.Value? && Backs(here, a', v.m) && v.original == IsAlias(e, a)
            case By(q) => v.Raised? && Matches(here, x, Ending(v.m, Thrown(v.original), false)) && !q.ignoreTarget
  {
    var d := Towards(here.mode, x);
    assert forall s: set<Name> :: Rebind(m.holders, s, d) == m.holders - s;
  }

  lemma {:induction false} ReachExpr(here: Here, e: Expr, a: FlowState, x: Exit)
    requires SharpExpr(e, here.names, here.place) && Occurs(here.mode, x, AnalyzeExpr(e, a))
    ensures Reaches(here, Evaluate(Some(e)), a, x)
  {
    var c := Evaluate(Some(e));
    forall m: Machine | Backs(here, a, m)
      ensures Reached(here, c, m, x)
    {
      if x.Unsafe? {
        assert Acts(e, m);
        assert Runs(c, m, [], Straying);
      } else {
        var d := Towards(here.mode, x);
        var v := Eval(e, m, [d]);
        EvalTowards(here, e, a, m, x);
        var end := if x.At? then Ending(v.m, Normal, false) else Ending(v.m, Thrown(v.original), false);
        forall t: Oracle
          ensures Ends(c, m, [d] + t, end, t)
        {
          EvalLater(e, m, d, t);
        }
        assert Runs(c, m, [d], end);
      }
    }
  }

  lemma {:induction false} ReachExprs(here: Here, e: Expr, states: seq<FlowState>, x: Exit) returns (a: FlowState)
    requires SharpExpr(e, here.names, here.place) && Occurs(here.mode, x, AnalyzeExprs(e, states))
    ensures a in states && Reaches(here, Evaluate(Some(e)), a, x)
  {
    if Occurs(here.mode, x, AnalyzeExpr(e, states[0])) {
      a := states[0];
      ReachExpr(here, e, a, x);
    } else {
      a := ReachExprs(here, e, states[1..], x);
    }
  }

  lemma {:induction false} ReachOption(here: Here, e: Option<Expr>, states: seq<FlowState>, x: Exit) returns (a: FlowState)
    requires SharpOption(e, here.names, here.place) && Occurs(here.mode, x, AnalyzeOptional(e, states))
    ensures a in states && Reaches(here, Evaluate(e), a, x)
  {
    if e.Some? {
      a := ReachExprs(here, e.value, states, x);
    } else {
      a := x.a;
      ReachSkip(here, a);
      ReachFollows(here, Skip(), Evaluate(None), a, x);
    }
  }

  // ----- declarations --------------------------------------------------------------

  lemma {:induction false} BoundFrom(kind: DeclKind, d: Declarator, before: FlowState, afters: seq<FlowState>, a: FlowState)
    returns (after: FlowState)
    requires a in BindAll(kind, d, before, afters)
    ensures after in afters && a == Bind(kind, d, before, after)
  {
    if a == Bind(kind, d, before, afters[0]) {
      after := afters[0];
    } else {
      after := BoundFrom(kind, d, before, afters[1..], a);
    }
  }

  /** Binding a name to a value that is the error exactly if the text says so. */
  lemma {:induction false} BindBacks(here: Here, kind: DeclKind, d: Declarator, before: FlowState, m: Machine, a: FlowState, v: Evaluated)
    requires SharpDeclarator(kind, d, here.names, here.place) && Backs(here, before, m)
    requires v.Value? && Backs(here, a, v.m) && v.original == (d.init.Some? && IsAlias(d.init.value, before))
    ensures Backs(here, Bind(kind, d, before, a), v.m.(holders := Assign(v.m.holders, d.name, v.original)))
  {
  }

  /** An exit by which evaluating the initializer does not come to a value. */
  lemma {:induction false} ReachUnbound(here: Here, d: Declarator, a: FlowState, x: Exit)
    requires !x.At? && Reaches(here, Evaluate(d.init), a, x)
    ensures Reaches(here, Binding(d), a, x)
  {
    forall m: Machine | Backs(here, a, m)
      ensures Reached(here, Binding(d), m, x)
    {
      assert Reached(here, Evaluate(d.init), m, x);
      var p: Oracle, e: End :| Runs(Evaluate(d.init), m, p, e) && Matches(here, x, e);
      forall t: Oracle
        ensures Ends(Binding(d), m, p + t, e, t)
      {
        assert Ends(Evaluate(d.init), m, p + t, e, t);
      }
      assert Runs(Binding(d), m, p, e);
    }
  }

  lemma {:induction false} ReachBinding(here: Here, kind: DeclKind, d: Declarator, a: FlowState, x: Exit)
    requires SharpDeclarator(kind, d, here.names, here.place) && !IsUsing(kind) && Occurs(here.mode, x, AnalyzeDeclarator(kind, d, a))
    ensures Reaches(here, Binding(d), a, x)
  {
    var initialized := AnalyzeOptional(d.init, [a]);
    if x.At? {
      var a' := BoundFrom(kind, d, a, initialized.states, x.a);
      forall m: Machine | Backs(here, a, m)
        ensures Reached(here, Binding(d), m, x)
      {
        ReachBound(here, kind, d, a, m, a');
      }
    } else {
      assert Occurs(here.mode, x, initialized) by { assert initialized.abrupt + [] == initialized.abrupt; }
      var a' := ReachOption(here, d.init, [a], x);
      ReachUnbound(here, d, a, x);
    }
  }

  lemma {:induction false} ReachBound(here: Here, kind: DeclKind, d: Declarator, a: FlowState, m: Machine, a': FlowState)
    requires SharpDeclarator(kind, d, here.names, here.place) && Backs(here, a, m)
    requires a' in AnalyzeOptional(d.init, [a]).states
    ensures Reached(here, Binding(d), m, At(Bind(kind, d, a, a')))
  {
    var c := Binding(d);
    if d.init.Some? {
      OneExpr(d.init.value, a);
      var choice := Towards(here.mode, At(a'));
      EvalTowards(here, d.init.value, a, m, At(a'));
      var v := Eval(d.init.value, m, [choice]);
      BindBacks(here, kind, d, a, m, a', v);
      var e := Ending(v.m.(holders := Assign(v.m.holders, d.name, v.original)), Normal, false);
      forall t: Oracle
        ensures Ends(c, m, [choice] + t, e, t)
      {
        EvalLater(d.init.value, m, choice, t);
      }
      assert Runs(c, m, [choice], e);
    } else {
      BindBacks(here, kind, d, a, m, a', Value(m, false, []));
      var e := Ending(m.(holders := Assign(m.holders, d.name, false)), Normal, false);
      forall t: Oracle
        ensures Ends(c, m, [] + t, e, t)
      {
        assert [] + t == t;
      }
      assert Runs(c, m, [], e);
    }
  }

  lemma {:induction false} OneExpr(e: Expr, a: FlowState)
    ensures AnalyzeExprs(e, [a]) == AnalyzeExpr(e, a)
  {
    var o := AnalyzeExpr(e, a);
    assert o.states + [] == o.states && o.abrupt + [] == o.abrupt;
    assert [a][1..] == [];
  }

  lemma {:induction false} ReachBindings(here: Here, kind: DeclKind, d: Declarator, states: seq<FlowState>, x: Exit)
    returns (a: FlowState)
    requires SharpDeclarator(kind, d, here.names, here.place) && !IsUsing(kind)
    requires Occurs(here.mode, x, AnalyzeDeclaratorEach(kind, d, states))
    ensures a in states && Reaches(here, Binding(d), a, x)
  {
    if Occurs(here.mode, x, AnalyzeDeclarator(kind, d, states[0])) {
      a := states[0];
      ReachBinding(here, kind, d, a, x);
    } else {
      a := ReachBindings(here, kind, d, states[1..], x);
    }
  }

  lemma {:induction false} DeclaringFollows(kind: DeclKind, ds: seq<Declarator>)
    requires ds != [] && !IsUsing(kind)
    ensures Follows(Both(Binding(ds[0]), Declaring(kind, ds[1..])), Declaring(kind, ds))
  {
  }

  lemma {:induction false} ReachDeclarators(here: Here, kind: DeclKind, ds: seq<Declarator>, states: seq<FlowState>, x: Exit)
    returns (a: FlowState)
    requires SharpDeclarators(kind, ds, here.names, here.place) && Occurs(here.mode, x, AnalyzeDeclarators(kind, ds, states))
    ensures a in states && Reaches(here, Declaring(kind, ds), a, x)
  {
    if ds == [] {
      a := x.a;
      ReachSkip(here, a);
      ReachFollows(here, Skip(), Declaring(kind, ds), a, x);
    } else {
      var first := AnalyzeDeclaratorEach(kind, ds[0], states);
      var head, rest := Binding(ds[0]), Declaring(kind, ds[1..]);
      assert ds[0] in ds;
      if !x.At? && Occurs(here.mode, x, first) {
        a := ReachBindings(here, kind, ds[0], states, x);
        ReachFirst(here, head, rest, a, x);
      } else {
        var between := ReachDeclarators(here, kind, ds[1..], first.states, x);
        a := ReachBindings(here, kind, ds[0], states, At(between));
        ReachThen(here, head, rest, a, between, x);
      }
      DeclaringFollows(kind, ds);
      ReachFollows(here, Both(head, rest), Declaring(kind, ds), a, x);
    }
  }

  // ----- statements that evaluate or jump ------------------------------------------

  lemma {:induction false} ExitFrom(qs: seq<Abrupt>, q: Abrupt) returns (p: Abrupt)
    requires q in WaiveAll(qs)
    ensures p in qs && q == Waive(p)
  {
    if q == Waive(qs[0]) {
      p := qs[0];
    } else {
      p := ExitFrom(qs[1..], q);
    }
  }

  lemma {:induction false} ReturnFrom(states: seq<FlowState>, direct: bool, q: Abrupt) returns (a: FlowState)
    requires q in Returns(states, direct)
    ensures a in states && q == Abrupt(Returning, OwnReturn(a, direct), None, false, false, true)
  {
    if q == Abrupt(Returning, OwnReturn(states[0], direct), None, false, false, true) {
      a := states[0];
    } else {
      a := ReturnFrom(states[1..], direct, q);
    }
  }

  lemma {:induction false} ThrowFromState(states: seq<FlowState>, exact: bool, q: Abrupt) returns (a: FlowState)
    requires q in Throws(states, exact)
    ensures a in states && q == Abrupt(Throwing, a, None, exact, false, true)
  {
    if q == Abrupt(Throwing, states[0], None, exact, false, true) {
      a := states[0];
    } else {
      a := ThrowFromState(states[1..], exact, q);
    }
  }

  lemma {:induction false} ExactFrom(qs: seq<Abrupt>, q: Abrupt)
    requires q in Exacts(qs)
    ensures q in qs
  {
    if !qs[0].exactOriginal || q != qs[0] { ExactFrom(qs[1..], q); }
  }

  /** An exit of a statement with its ignore comment honoured, as it is without the comment. */
  lemma {:induction false} Unhonoured(s: Stmt, o: Outcome, mode: Mode, x: Exit) returns (y: Exit)
    requires Occurs(mode, x, Honour(s, o))
    ensures Occurs(mode, y, o) && (if x.By? && HasIgnore(s) then y.By? && x.q == Waive(y.q) else y == x)
  {
    y := x;
    if x.By? && HasIgnore(s) {
      var q := ExitFrom(o.abrupt, x.q);
      y := By(q);
    }
  }

  /** The run that evaluates an optional expression to a state in which it has a value. */
  lemma {:induction false} ValueRun(here: Here, e: Option<Expr>, a: FlowState, a': FlowState, m: Machine)
    returns (p: Oracle, m': Machine, original: bool)
    requires SharpOption(e, here.names, here.place) && Backs(here, a, m) && a' in AnalyzeOptional(e, [a]).states
    ensures Backs(here, a', m') && original == (e.Some? && IsAlias(e.value, a))
    ensures forall t: Oracle :: EvalOptional(e, m, p + t) == Value(m', original, t)
  {
    if e.Some? {
      OneExpr(e.value, a);
      var d := Towards(here.mode, At(a'));
      EvalTowards(here, e.value, a, m, At(a'));
      var v := Eval(e.value, m, [d]);
      p, m', original := [d], v.m, v.original;
      forall t: Oracle
        ensures EvalOptional(e, m, p + t) == Value(m', original, t)
      {
        EvalLater(e.value, m, d, t);
      }
    } else {
      p, m', original := [], m, false;
      assert forall t: Oracle :: [] + t == t;
    }
  }

  /** The run that evaluates an optional expression to an exit at which it throws. */
  lemma {:induction false} RaiseRun(here: Here, e: Option<Expr>, a: FlowState, q: Abrupt, m: Machine) returns (p: Oracle, m': Machine)
    requires SharpOption(e, here.names, here.place) && Backs(here, a, m) && q in AnalyzeOptional(e, [a]).abrupt
    ensures Matches(here, By(q), Ending(m', Thrown(q.exactOriginal), false)) && !q.ignoreTarget
    ensures forall t: Oracle :: EvalOptional(e, m, p + t) == Raised(m', q.exactOriginal, t)
  {
    OneExpr(e.value, a);
    var d := Towards(here.mode, By(q));
    EvalTowards(here, e.value, a, m, By(q));
    var v := Eval(e.value, m, [d]);
    p, m' := [d], v.m;
    forall t: Oracle
      ensures EvalOptional(e, m, p + t) == Raised(m', q.exactOriginal, t)
    {
      EvalLater(e.value, m, d, t);
    }
  }

  lemma {:induction false} ReachReturn(here: Here, s: Stmt, labels: seq<Name>, a: FlowState, direct: bool, x: Exit)
    requires s.Return? && SharpOption(s.value, here.names, here.place)
    requires Occurs(here.mode, x, Honour(s, AnalyzeStmt(s, a, here.ctx, direct)))
    ensures Reaches(here, One(s, labels), a, x)
  {
    var valued := AnalyzeOptional(s.value, [a]);
    var y := Unhonoured(s, AnalyzeStmt(s, a, here.ctx, direct), here.mode, x);
    forall m: Machine | Backs(here, a, m)
      ensures Reached(here, One(s, labels), m, x)
    {
      if x.Unsafe? {
        if s.value.Some? { OneExpr(s.value.value, a); }
        assert Runs(One(s, labels), m, [], Straying);
      } else if y.q in Returns(valued.states, direct) {
        ReachReturned(here, s, labels, a, direct, y.q, x, m);
      } else {
        if direct && a.protection.Provisional? { ExactFrom(valued.abrupt, y.q); }
        ReachRaised(here, s, labels, a, y.q, x, m);
      }
    }
  }

  lemma {:induction false} ReachReturned(here: Here, s: Stmt, labels: seq<Name>, a: FlowState, direct: bool, q: Abrupt, x: Exit, m: Machine)
    requires s.Return? && SharpOption(s.value, here.names, here.place) && Backs(here, a, m)
    requires q in Returns(AnalyzeOptional(s.value, [a]).states, direct) && x == By(if s.ignored then Waive(q) else q)
    ensures Reached(here, One(s, labels), m, x)
  {
    var a' := ReturnFrom(AnalyzeOptional(s.value, [a]).states, direct, q);
    var p, m', _ := ValueRun(here, s.value, a, a', m);
    ReturnRun(s, labels, m, p, m');
    assert Matches(here, x, Ending(m', Returned, s.ignored));
  }

  lemma {:induction false} ReachRaised(here: Here, s: Stmt, labels: seq<Name>, a: FlowState, q: Abrupt, x: Exit, m: Machine)
    requires s.Return? && SharpOption(s.value, here.names, here.place) && Backs(here, a, m)
    requires q in AnalyzeOptional(s.value, [a]).abrupt && x == By(if s.ignored then Waive(q) else q)
    ensures Reached(here, One(s, labels), m, x)
  {
    var p, m' := RaiseRun(here, s.value, a, q, m);
    RaisedRun(s, labels, m, p, m', q.exactOriginal);
    assert Matches(here, x, Ending(m', Thrown(q.exactOriginal), false));
  }

  predicate ValuedAs(v: Evaluated, m: Machine, rest: Oracle) { v.Value? && v.m == m && v.rest == rest }

  lemma {:induction false} ReturnRun(s: Stmt, labels: seq<Name>, m: Machine, p: Oracle, m': Machine)
    requires s.Return? && forall t: Oracle :: ValuedAs(EvalOptional(s.value, m, p + t), m', t)
    ensures Runs(One(s, labels), m, p, Ending(m', Returned, s.ignored))
  {
    forall t: Oracle
      ensures Ends(One(s, labels), m, p + t, Ending(m', Returned, s.ignored), t)
    {
      assert ValuedAs(EvalOptional(s.value, m, p + t), m', t);
    }
  }

  lemma {:induction false} RaisedRun(s: Stmt, labels: seq<Name>, m: Machine, p: Oracle, m': Machine, original: bool)
    requires (s.Return? && forall t: Oracle :: EvalOptional(s.value, m, p + t) == Raised(m', original, t)) ||
             (s.Throw? && forall t: Oracle :: EvalOptional(Some(s.thrown), m, p + t) == Raised(m', original, t))
    ensures Runs(One(s, labels), m, p, Ending(m', Thrown(original), false))
  {
    forall t: Oracle
      ensures Ends(One(s, labels), m, p + t, Ending(m', Thrown(original), false), t)
    {
      if s.Return? {
        assert EvalOptional(s.value, m, p + t) == Raised(m', original, t);
      } else {
        assert EvalOptional(Some(s.thrown), m, p + t) == Raised(m', original, t);
      }
    }
  }

  lemma {:induction false} ThrowRun(s: Stmt, labels: seq<Name>, m: Machine, p: Oracle, m': Machine, original: bool)
    requires s.Throw? && forall t: Oracle :: EvalOptional(Some(s.thrown), m, p + t) == Value(m', original, t)
    ensures Runs(One(s, labels), m, p, Ending(m', Thrown(original), s.ignored))
  {
    forall t: Oracle
      ensures Ends(One(s, labels), m, p + t, Ending(m', Thrown(original), s.ignored), t)
    {
      assert EvalOptional(Some(s.thrown), m, p + t) == Value(m', original, t);
    }
  }

  lemma {:induction false} ReachThrow(here: Here, s: Stmt, labels: seq<Name>, a: FlowState, x: Exit)
    requires s.Throw? && Sharp(s, here.names, here.closed, here.place)
    requires Occurs(here.mode, x, Honour(s, AnalyzeStmt(s, a, here.ctx, false)))
    ensures Reaches(here, One(s, labels), a, x)
  {
    var c, valued := One(s, labels), AnalyzeExpr(s.thrown, a);
    var y := Unhonoured(s, AnalyzeStmt(s, a, here.ctx, false), here.mode, x);
    OneExpr(s.thrown, a);
    forall m: Machine | Backs(here, a, m)
      ensures Reached(here, c, m, x)
    {
      if x.Unsafe? {
        assert Runs(c, m, [], Straying);
      } else if y.q in Throws(valued.states, IsAlias(s.thrown, a)) {
        var a' := ThrowFromState(valued.states, IsAlias(s.thrown, a), y.q);
        var p, m', original := ValueRun(here, Some(s.thrown), a, a', m);
        ThrowRun(s, labels, m, p, m', original);
        assert Matches(here, x, Ending(m', Thrown(original), s.ignored));
      } else {
        var p, m' := RaiseRun(here, Some(s.thrown), a, y.q, m);
        RaisedRun(s, labels, m, p, m', y.q.exactOriginal);
        assert Matches(here, x, Ending(m', Thrown(y.q.exactOriginal), false));
      }
    }
  }

  lemma {:induction false} ReachJump(here: Here, s: Stmt, labels: seq<Name>, a: FlowState, x: Exit)
    requires (s.Break? || s.Continue?) && Sharp(s, here.names, here.closed, here.place)
    requires Occurs(here.mode, x, Honour(s, AnalyzeStmt(s, a, here.ctx, false)))
    ensures Reaches(here, One(s, labels), a, x)
  {
    var y := Unhonoured(s, AnalyzeStmt(s, a, here.ctx, false), here.mode, x);
    forall m: Machine | Backs(here, a, m)
      ensures Reached(here, One(s, labels), m, x)
    {
      var e := Ending(m, if s.Break? then Broke(s.jump) else Continued(s.jump), s.ignored);
      forall t: Oracle
        ensures Ends(One(s, labels), m, [] + t, e, t)
      {
        assert [] + t == t;
      }
      assert Runs(One(s, labels), m, [], e) && Matches(here, x, e);
    }
  }

  lemma {:induction false} ReachExpression(here: Here, s: Stmt, labels: seq<Name>, a: FlowState, x: Exit)
    requires s.Expression? && SharpExpr(s.e, here.names, here.place)
    requires Occurs(here.mode, x, AnalyzeStmt(s, a, here.ctx, false))
    ensures Reaches(here, One(s, labels), a, x)
  {
    if s.directive {
      ReachSkip(here, a);
      ReachFollows(here, Skip(), One(s, labels), a, x);
    } else if Occurs(here.mode, x, AnalyzeExpr(s.e, a)) {
      ReachExpr(here, s.e, a, x);
      ReachFollows(here, Evaluate(Some(s.e)), One(s, labels), a, x);
    } else {
      forall m: Machine | Backs(here, a, m)
        ensures Reached(here, One(s, labels), m, x)
      {
        assert ActsAlone(s.e, m);
        assert Runs(One(s, labels), m, [], Straying);
      }
    }
  }

  // ----- how outcomes are put together ---------------------------------------------

  lemma {:induction false} LandedFrom(qs: seq<Abrupt>, kind: Kind, target: nat, a: FlowState) returns (q: Abrupt)
    requires a in Landing(qs, kind, target)
    ensures q in qs && Leaves(q, kind, target) && q.state == a
  {
    if Leaves(qs[0], kind, target) && qs[0].state == a {
      q := qs[0];
    } else {
      q := LandedFrom(qs[1..], kind, target, a);
    }
  }

  lemma {:induction false} PassedFrom(qs: seq<Abrupt>, target: nat, continues: bool, q: Abrupt)
    requires q in Passing(qs, target, continues)
    ensures q in qs && !Leaves(q, Breaking, target) && !(continues && Leaves(q, Continuing, target))
  {
    if !(q == qs[0] && !Leaves(q, Breaking, target) && !(continues && Leaves(q, Continuing, target))) {
      PassedFrom(qs[1..], target, continues, q);
    }
  }

  lemma {:induction false} RestoredFrom(states: seq<FlowState>, outer: FlowState, names: set<Name>, a: FlowState)
    returns (b: FlowState)
    requires a in RestoreStates(states, outer, names)
    ensures b in states && a == Restore(b, outer, names)
  {
    if a == Restore(states[0], outer, names) {
      b := states[0];
    } else {
      b := RestoredFrom(states[1..], outer, names, a);
    }
  }

  lemma {:induction false} RestoredBy(qs: seq<Abrupt>, outer: FlowState, names: set<Name>, q: Abrupt) returns (p: Abrupt)
    requires q in RestoreAbrupt(qs, outer, names)
    ensures p in qs && q == p.(state := Restore(p.state, outer, names))
  {
    if q == qs[0].(state := Restore(qs[0].state, outer, names)) {
      p := qs[0];
    } else {
      p := RestoredBy(qs[1..], outer, names, q);
    }
  }

  /** An exit of a scope in which nothing is disposed of, as it is inside. */
  lemma {:induction false} Inside(o: Outcome, outer: FlowState, names: set<Name>, mode: Mode, x: Exit) returns (y: Exit)
    requires Occurs(mode, x, LeaveScope(o, outer, names, false))
    ensures Occurs(mode, y, o) && x == RestoredExit(y, outer, names)
  {
    match x
    case Unsafe => y := Unsafe;
    case At(a) =>
      var b := RestoredFrom(o.states, outer, names, a);
      y := At(b);
    case By(q) =>
      assert o.abrupt + [] == o.abrupt;
      var p := RestoredBy(o.abrupt, outer, names, q);
      y := By(p);
  }

  lemma {:induction false} SharpNoUsing(ss: seq<Stmt>, names: set<Name>, closed: set<Name>, place: Place)
    requires SharpList(ss, names, closed, place)
    ensures !HasUsing(ss)
  {
    if ss != [] { SharpNoUsing(ss[1..], names, closed, place); }
  }

  lemma {:induction false} SharpCasesNoUsing(cs: seq<Clause>, names: set<Name>, closed: set<Name>, place: Place)
    requires SharpClauses(cs, names, closed, place)
    ensures !HasUsing(SwitchStatements(cs))
  {
    if cs != [] {
      SharpNoUsing(cs[0].statements, names, closed, place);
      SharpCasesNoUsing(cs[1..], names, closed, place);
    }
  }

  /** An exit of a frame's body, as the frame passes it on. */
  lemma {:induction false} OuterFrom(here: Here, frame: Frame, o: Outcome, x: Exit) returns (y: Exit)
    requires !frame.LabelFrame?
    requires match x
             case Unsafe => here.mode.Losing? && o.unsafe
             case At(a) => a in Landing(o.abrupt, Breaking, |here.ctx|)
             case By(q) => q in Passing(o.abrupt, |here.ctx|, frame.LoopFrame?)
    ensures Occurs(here.mode, y, o) && OuterExit(here, frame, y, x)
  {
    match x
    case Unsafe => y := Unsafe;
    case At(a) =>
      var q := LandedFrom(o.abrupt, Breaking, |here.ctx|, a);
      y := By(q);
    case By(q) =>
      PassedFrom(o.abrupt, |here.ctx|, frame.LoopFrame?, q);
      y := x;
  }

  /** The exit of a loop body behind a state in which the loop goes on. */
  lemma {:induction false} AgainFrom(here: Here, o: Outcome, a: FlowState) returns (y: Exit)
    requires a in o.states + Landing(o.abrupt, Continuing, |here.ctx|)
    ensures Occurs(here.mode, y, o) && GoesOn(here, LoopFrame, y, a)
  {
    if a in o.states {
      y := At(a);
    } else {
      var q := LandedFrom(o.abrupt, Continuing, |here.ctx|, a);
      y := By(q);
    }
  }

  // ----- lists and blocks ----------------------------------------------------------

  /** What the scan knows of the program around a part of it. */
  ghost predicate Fits(here: Here, s: Stmt, labels: seq<Name>) {
    Sharp(s, here.names, here.closed, here.place) && Aligned(here.ctx, labels, LoopDepth(s))
  }

  ghost predicate FitsList(here: Here, ss: seq<Stmt>) {
    SharpList(ss, here.names, here.closed, here.place) && Aligned(here.ctx, [], 0)
  }

  ghost predicate FitsClauses(here: Here, cs: seq<Clause>) {
    SharpClauses(cs, here.names, here.closed, here.place) && Aligned(here.ctx, [], 0)
  }

  /** Statements without statements in them. */
  lemma {:induction false} ReachSimple(here: Here, s: Stmt, labels: seq<Name>, a: FlowState, x: Exit)
    requires Fits(here, s, labels) && !HasIgnore(s) && Occurs(here.mode, x, AnalyzeStmt(s, a, here.ctx, false))
    requires s.Expression? || s.Declare? || s.Return? || s.Throw? || s.Break? || s.Continue? || s.Inert?
    ensures Reaches(here, One(s, labels), a, x)
  {
    match s
    case Expression(_, _) => ReachExpression(here, s, labels, a, x);
    case Declare(kind, ds) =>
      var _ := ReachDeclarators(here, kind, ds, [a], x);
      ReachFollows(here, Declaring(kind, ds), One(s, labels), a, x);
    case Return(_, _) => ReachReturn(here, s, labels, a, false, x);
    case Throw(_, _) => ReachThrow(here, s, labels, a, x);
    case Inert =>
      ReachSkip(here, a);
      ReachFollows(here, Skip(), One(s, labels), a, x);
    case _ => ReachJump(here, s, labels, a, x);
  }

  lemma {:induction false} ReachLoop(here: Here, s: Stmt, labels: seq<Name>, a: FlowState, x: Exit)
    requires IsLoop(s) && Fits(here, s, labels) && Occurs(here.mode, x, AnalyzeStmt(s, a, here.ctx, false))
    ensures Reaches(here, One(s, labels), a, x)
    decreases s, 0, 3
  {
    match s
    case While(_, _) => ReachWhile(here, s, labels, a, x);
    case DoWhile(_, _) => ReachDoWhile(here, s, labels, a, x);
    case For(_, _, _, _) => ReachFor(here, s, labels, a, x);
    case ForEach(_, _, _) => ReachForEach(here, s, labels, a, x);
  }

  /** Every exit that the scan finds for a statement is that of some run. */
  lemma {:induction false} ReachStmt(here: Here, s: Stmt, labels: seq<Name>, a: FlowState, x: Exit)
    requires Fits(here, s, labels) && !HasIgnore(s) && Occurs(here.mode, x, AnalyzeStmt(s, a, here.ctx, false))
    ensures Reaches(here, One(s, labels), a, x)
    decreases s, 1, 0
  {
    if IsLoop(s) {
      ReachLoop(here, s, labels, a, x);
    } else if s.Labeled? {
      ReachLabeled(here, s, labels, a, x);
    } else {
      AlignedInside(here.ctx, labels);
      match s
      case Block(_, _) => ReachBlockStmt(here, s, labels, a, x);
      case If(_, _, _) => ReachIf(here, s, labels, a, x);
      case Switch(_, _) => ReachSwitch(here, s, labels, a, x);
      case Try(_, _, _) => ReachTry(here, s, labels, a, x);
      case _ => ReachSimple(here, s, labels, a, x);
    }
  }

  /** An empty block whose comment says that the error is reported elsewhere. */
  lemma {:induction false} ReachOwned(here: Here, s: Stmt, labels: seq<Name>, a: FlowState, m: Machine)
    requires s.Block? && s.ownedElsewhere && s.body == [] && Backs(here, a, m)
    ensures Reached(here, One(s, labels), m, At(a.(protection := Owned)))
  {
    var e := Ending(m.(ledger := HandedOver(m.ledger)), Normal, false);
    forall t: Oracle
      ensures Ends(One(s, labels), m, [] + t, e, t)
    {
      assert [] + t == t;
    }
    assert Runs(One(s, labels), m, [], e);
  }

  lemma {:induction false} OwnedOccurs(here: Here, s: Stmt, a: FlowState, x: Exit)
    requires s.Block? && Occurs(here.mode, x, AnalyzeStmt(s, a, here.ctx, false))
    ensures if s.ownedElsewhere && s.body == [] then x == At(a.(protection := Owned))
            else Occurs(here.mode, x, AnalyzeBlock(s.body, a, here.ctx, false))
  {
  }

  lemma {:induction false} ScopedIsBlock(s: Stmt, labels: seq<Name>)
    requires s.Block? && !(s.ownedElsewhere && s.body == [])
    ensures Follows(Scoped(s.body), One(s, labels))
  {
  }

  lemma {:induction false} ReachBlockStmt(here: Here, s: Stmt, labels: seq<Name>, a: FlowState, x: Exit)
    requires s.Block? && FitsList(here, s.body) && Occurs(here.mode, x, AnalyzeStmt(s, a, here.ctx, false))
    ensures Reaches(here, One(s, labels), a, x)
    decreases s, 0, 0
  {
    OwnedOccurs(here, s, a, x);
    if s.ownedElsewhere && s.body == [] {
      forall m: Machine | Backs(here, a, m)
        ensures Reached(here, One(s, labels), m, x)
      {
        ReachOwned(here, s, labels, a, m);
      }
    } else {
      ReachBlock(here, s.body, a, x);
      ScopedIsBlock(s, labels);
      ReachFollows(here, Scoped(s.body), One(s, labels), a, x);
    }
  }

  lemma {:induction false} ReachIgnored(here: Here, s: Stmt, a: FlowState, x: Exit)
    requires Sharp(s, here.names, here.closed, here.place) && HasIgnore(s)
    requires Occurs(here.mode, x, Honour(s, AnalyzeStmt(s, a, here.ctx, false)))
    ensures Reaches(here, One(s, []), a, x)
  {
    match s
    case Return(_, _) => ReachReturn(here, s, [], a, false, x);
    case Throw(_, _) => ReachThrow(here, s, [], a, x);
    case _ => ReachJump(here, s, [], a, x);
  }

  /** One statement from some state of a list of them. */
  lemma {:induction false} ReachEach(here: Here, s: Stmt, states: seq<FlowState>, x: Exit) returns (a: FlowState)
    requires Sharp(s, here.names, here.closed, here.place) && Aligned(here.ctx, [], 0)
    requires Occurs(here.mode, x, AnalyzeEach(s, states, here.ctx, false))
    ensures a in states && Reaches(here, One(s, []), a, x)
    decreases s, 2, |states|
  {
    if Occurs(here.mode, x, Honour(s, AnalyzeStmt(s, states[0], here.ctx, false))) {
      a := states[0];
      if HasIgnore(s) {
        ReachIgnored(here, s, a, x);
      } else {
        ReachStmt(here, s, [], a, x);
      }
    } else {
      a := ReachEach(here, s, states[1..], x);
    }
  }

  lemma {:induction false} ManyFollows(ss: seq<Stmt>)
    requires ss != []
    ensures Follows(Both(One(ss[0], []), Many(ss[1..])), Many(ss))
  {
  }

  lemma {:induction false} ReachList(here: Here, ss: seq<Stmt>, states: seq<FlowState>, x: Exit) returns (a: FlowState)
    requires FitsList(here, ss) && Occurs(here.mode, x, AnalyzeList(ss, states, here.ctx, false))
    ensures a in states && Reaches(here, Many(ss), a, x)
    decreases ss, 3, 0
  {
    if ss == [] {
      a := x.a;
      ReachSkip(here, a);
      ReachFollows(here, Skip(), Many(ss), a, x);
    } else {
      var first := AnalyzeEach(ss[0], states, here.ctx, false);
      var head, rest := One(ss[0], []), Many(ss[1..]);
      if !x.At? && Occurs(here.mode, x, first) {
        a := ReachEach(here, ss[0], states, x);
        ReachFirst(here, head, rest, a, x);
      } else {
        var between := ReachList(here, ss[1..], first.states, x);
        a := ReachEach(here, ss[0], states, At(between));
        ReachThen(here, head, rest, a, between, x);
      }
      ManyFollows(ss);
      ReachFollows(here, Both(head, rest), Many(ss), a, x);
    }
  }

  lemma {:induction false} ScopedFollows(ss: seq<Stmt>)
    requires !HasUsing(ss)
    ensures Follows(Hidden(LexicalNames(ss), Many(ss)), Scoped(ss))
  {
    forall m: Machine, o: Oracle
      ensures Alike(Hidden(LexicalNames(ss), Many(ss)), Scoped(ss), m, o)
    {
      NoDisposal(ss, m.(holders := m.holders - LexicalNames(ss)), o);
    }
  }

  lemma {:induction false} ReachBlock(here: Here, ss: seq<Stmt>, a: FlowState, x: Exit)
    requires FitsList(here, ss) && Occurs(here.mode, x, AnalyzeBlock(ss, a, here.ctx, false))
    ensures Reaches(here, Scoped(ss), a, x)
    decreases ss, 4, 0
  {
    var names := LexicalNames(ss);
    var a0 := a.(aliases := a.aliases - names);
    SharpNoUsing(ss, here.names, here.closed, here.place);
    var y := Inside(AnalyzeList(ss, [a0], here.ctx, false), a, names, here.mode, x);
    var b := ReachList(here, ss, [a0], y);
    assert b == a0;
    ReachHidden(here, names, Many(ss), a, y);
    ScopedFollows(ss);
    ReachFollows(here, Hidden(names, Many(ss)), Scoped(ss), a, x);
  }

  // ----- if ------------------------------------------------------------------------

  lemma {:induction false} WhenTrueFollows(s: Stmt, labels: seq<Name>)
    requires s.If?
    ensures Follows(Both(Evaluate(Some(s.cond)), Chosen(true, One(s.whenTrue, []))), One(s, labels))
  {
    forall m: Machine, o: Oracle
      ensures Alike(Both(Evaluate(Some(s.cond)), Chosen(true, One(s.whenTrue, []))), One(s, labels), m, o)
    {
      assert Exec(s, m, o, labels) == ExecIf(s, m, o) && Strays(s, m, o, labels) == IfStrays(s, m, o);
    }
  }

  lemma {:induction false} WhenFalseFollows(s: Stmt, labels: seq<Name>)
    requires s.If?
    ensures var branch := if s.whenFalse.Some? then One(s.whenFalse.value, []) else Skip();
            Follows(Both(Evaluate(Some(s.cond)), Chosen(false, branch)), One(s, labels))
  {
    var branch := if s.whenFalse.Some? then One(s.whenFalse.value, []) else Skip();
    forall m: Machine, o: Oracle
      ensures Alike(Both(Evaluate(Some(s.cond)), Chosen(false, branch)), One(s, labels), m, o)
    {
      assert Exec(s, m, o, labels) == ExecIf(s, m, o) && Strays(s, m, o, labels) == IfStrays(s, m, o);
    }
  }

  lemma {:induction false} ReachIf(here: Here, s: Stmt, labels: seq<Name>, a: FlowState, x: Exit)
    requires s.If? && Sharp(s, here.names, here.closed, here.place) && Aligned(here.ctx, [], 0)
    requires Occurs(here.mode, x, AnalyzeStmt(s, a, here.ctx, false))
    ensures Reaches(here, One(s, labels), a, x)
    decreases s, 0, 0
  {
    var tested := AnalyzeExpr(s.cond, a);
    var test, whenTrue := Evaluate(Some(s.cond)), One(s.whenTrue, []);
    WhenTrueFollows(s, labels);
    WhenFalseFollows(s, labels);
    if !x.At? && Occurs(here.mode, x, tested) {
      ReachExpr(here, s.cond, a, x);
      ReachFirst(here, test, Chosen(true, whenTrue), a, x);
      ReachFollows(here, Both(test, Chosen(true, whenTrue)), One(s, labels), a, x);
    } else if Occurs(here.mode, x, AnalyzeEach(s.whenTrue, tested.states, here.ctx, false)) {
      var b := ReachEach(here, s.whenTrue, tested.states, x);
      ReachBranch(here, s, labels, true, whenTrue, a, b, x);
    } else if s.whenFalse.Some? {
      var b := ReachEach(here, s.whenFalse.value, tested.states, x);
      ReachBranch(here, s, labels, false, One(s.whenFalse.value, []), a, b, x);
    } else {
      ReachSkip(here, x.a);
      ReachBranch(here, s, labels, false, Skip(), a, x.a, x);
    }
  }

  lemma {:induction false} ReachBranch(here: Here, s: Stmt, labels: seq<Name>, taken: bool, branch: Code, a: FlowState,
                                       b: FlowState, x: Exit)
    requires s.If? && SharpExpr(s.cond, here.names, here.place) && b in AnalyzeExpr(s.cond, a).states
    requires Reaches(here, branch, b, x)
    requires Follows(Both(Evaluate(Some(s.cond)), Chosen(taken, branch)), One(s, labels))
    ensures Reaches(here, One(s, labels), a, x)
  {
    ReachExpr(here, s.cond, a, At(b));
    ReachChosen(here, taken, branch, b, x);
    ReachThen(here, Evaluate(Some(s.cond)), Chosen(taken, branch), a, b, x);
    ReachFollows(here, Both(Evaluate(Some(s.cond)), Chosen(taken, branch)), One(s, labels), a, x);
  }

  // ----- switch --------------------------------------------------------------------

  /** The states in which a clause is entered, or the case block left without entering one. */
  function Entered(cs: seq<Clause>, states: seq<FlowState>, entry: Option<nat>): seq<FlowState>
    requires entry.Some? ==> entry.value < |cs|
  {
    var (entries, o) := AnalyzeSelectors(cs, states);
    if entry.Some? then entries[entry.value] else o.states
  }

  predicate IsEntry(cs: seq<Clause>, entry: Option<nat>) {
    entry.Some? ==> entry.value < |cs| && cs[entry.value].selector.Some?
  }

  function Before(entry: Option<nat>): Option<nat> {
    if entry.Some? && entry.value > 0 then Some(entry.value - 1) else None
  }

  lemma {:induction false} SelectorMatches(cs: seq<Clause>)
    requires cs != [] && cs[0].selector.Some?
    ensures Follows(Both(Evaluate(cs[0].selector), Chosen(true, Skip())), Choosing(cs, Some(0)))
  {
  }

  /** Choosing among later clauses, seen from the whole case block. */
  lemma {:induction false} ChoseLater(r: Selected, cs: seq<Clause>, entry: Option<nat>, m: Machine, o: Oracle, m': Machine, o': Oracle)
    requires cs != [] && r == Select(cs[1..], m', o') && Select(cs, m, o) == Later(r) && entry != Some(0)
    requires Chose(cs[1..], Before(entry), m', o').Done?
    ensures Chose(cs, entry, m, o) == Chose(cs[1..], Before(entry), m', o')
  {
  }

  lemma {:induction false} DefaultSkipped(cs: seq<Clause>, entry: Option<nat>)
    requires cs != [] && cs[0].selector.None? && entry != Some(0)
    ensures Follows(Choosing(cs[1..], Before(entry)), Choosing(cs, entry))
  {
    forall m: Machine, o: Oracle
      ensures Alike(Choosing(cs[1..], Before(entry)), Choosing(cs, entry), m, o)
    {
      if Chose(cs[1..], Before(entry), m, o).Done? { ChoseLater(Select(cs[1..], m, o), cs, entry, m, o, m, o); }
    }
  }

  lemma {:induction false} SelectorAlike(cs: seq<Clause>, entry: Option<nat>, m: Machine, o: Oracle)
    requires cs != [] && cs[0].selector.Some? && entry != Some(0)
    ensures Alike(Both(Evaluate(cs[0].selector), Chosen(false, Choosing(cs[1..], Before(entry)))), Choosing(cs, entry), m, o)
  {
    var v := Eval(cs[0].selector.value, m, o);
    if v.Value? && v.rest != [] && !v.rest[0].taken {
      var m', o' := v.m, v.rest[1..];
      if Chose(cs[1..], Before(entry), m', o').Done? { ChoseLater(Select(cs[1..], m', o'), cs, entry, m, o, m', o'); }
    }
  }

  lemma {:induction false} SelectorFollows(cs: seq<Clause>, entry: Option<nat>)
    requires cs != [] && cs[0].selector.Some? && entry != Some(0)
    ensures Follows(Both(Evaluate(cs[0].selector), Chosen(false, Choosing(cs[1..], Before(entry)))), Choosing(cs, entry))
  {
    forall m: Machine, o: Oracle
      ensures Alike(Both(Evaluate(cs[0].selector), Chosen(false, Choosing(cs[1..], Before(entry)))), Choosing(cs, entry), m, o)
    {
      SelectorAlike(cs, entry, m, o);
    }
  }

  lemma {:induction false} ReachChoosing(here: Here, cs: seq<Clause>, states: seq<FlowState>, entry: Option<nat>, x: Exit)
    returns (a: FlowState)
    requires SharpClauses(cs, here.names, here.closed, here.place) && IsEntry(cs, entry)
    requires if x.At? then x.a in Entered(cs, states, entry) else entry.None? && Occurs(here.mode, x, AnalyzeSelectors(cs, states).1)
    ensures a in states && Reaches(here, Choosing(cs, entry), a, x)
    decreases cs
  {
    if cs == [] {
      a := x.a;
      ReachSkip(here, a);
      ReachFollows(here, Skip(), Choosing(cs, entry), a, x);
    } else if cs[0].selector.None? {
      a := ReachChoosing(here, cs[1..], states, Before(entry), x);
      DefaultSkipped(cs, entry);
      ReachFollows(here, Choosing(cs[1..], Before(entry)), Choosing(cs, entry), a, x);
    } else {
      a := ReachSelector(here, cs, states, entry, x);
    }
  }

  lemma {:induction false} ReachSelector(here: Here, cs: seq<Clause>, states: seq<FlowState>, entry: Option<nat>, x: Exit)
    returns (a: FlowState)
    requires SharpClauses(cs, here.names, here.closed, here.place) && IsEntry(cs, entry) && cs != [] && cs[0].selector.Some?
    requires if x.At? then x.a in Entered(cs, states, entry) else entry.None? && Occurs(here.mode, x, AnalyzeSelectors(cs, states).1)
    ensures a in states && Reaches(here, Choosing(cs, entry), a, x)
    decreases cs, 0
  {
    var e := cs[0].selector.value;
    var first := AnalyzeExprs(e, states);
    var test, rest := Evaluate(Some(e)), Chosen(false, Choosing(cs[1..], Before(entry)));
    if !x.At? && Occurs(here.mode, x, first) {
      a := ReachExprs(here, e, states, x);
      SelectorFollows(cs, entry);
      ReachFirst(here, test, rest, a, x);
      ReachFollows(here, Both(test, rest), Choosing(cs, entry), a, x);
    } else if entry == Some(0) {
      a := ReachExprs(here, e, states, x);
      SelectorMatches(cs);
      ReachSkip(here, x.a);
      ReachChosen(here, true, Skip(), x.a, x);
      ReachThen(here, test, Chosen(true, Skip()), a, x.a, x);
      ReachFollows(here, Both(test, Chosen(true, Skip())), Choosing(cs, entry), a, x);
    } else {
      SelectorFollows(cs, entry);
      var between := ReachChoosing(here, cs[1..], first.states, Before(entry), x);
      a := ReachExprs(here, e, states, At(between));
      ReachChosen(here, false, Choosing(cs[1..], Before(entry)), between, x);
      ReachThen(here, test, rest, a, between, x);
      ReachFollows(here, Both(test, rest), Choosing(cs, entry), a, x);
    }
  }

  lemma {:induction false} ClausesFollow(cs: seq<Clause>)
    requires cs != []
    ensures Follows(Looped(Many(cs[0].statements), FallsOn(), Clauses(cs[1..])), Clauses(cs))
  {
  }

  lemma {:induction false} ReachFallthrough(here: Here, cs: seq<Clause>, active: seq<FlowState>, x: Exit) returns (a: FlowState)
    requires FitsClauses(here, cs) && Occurs(here.mode, x, AnalyzeFallthrough(cs, active, here.ctx))
    ensures a in active && Reaches(here, Clauses(cs), a, x)
    decreases cs, 0, 0
  {
    if cs == [] || active == [] {
      a := x.a;
      ReachSkip(here, a);
      ReachFollows(here, Skip(), Clauses(cs), a, x);
    } else {
      var list, rest := Many(cs[0].statements), Clauses(cs[1..]);
      var o := AnalyzeList(cs[0].statements, active, Under(here, SwitchFrame).ctx, false);
      AlignedUnder(here.ctx, [], 0, SwitchFrame, 0);
      SwitchSplits(here);
      if Occurs(here.mode, x, AnalyzeFallthrough(cs[1..], o.states, here.ctx)) {
        var between := ReachFallthrough(here, cs[1..], o.states, x);
        a := ReachList(Under(here, SwitchFrame), cs[0].statements, active, At(between));
        ReachLoopOn(here, SwitchFrame, list, FallsOn(), rest, a, At(between), between, x);
      } else {
        var y := OuterFrom(here, SwitchFrame, o, x);
        a := ReachList(Under(here, SwitchFrame), cs[0].statements, active, y);
        ReachLoopOut(here, SwitchFrame, list, FallsOn(), rest, a, y, x);
      }
      ClausesFollow(cs);
      ReachFollows(here, Looped(list, FallsOn(), rest), Clauses(cs), a, x);
    }
  }

  lemma {:induction false} ReachStarts(here: Here, cs: seq<Clause>, entries: seq<seq<FlowState>>, x: Exit) returns (k: nat, a: FlowState)
    requires |entries| == |cs| && FitsClauses(here, cs) && Occurs(here.mode, x, AnalyzeStarts(cs, entries, here.ctx))
    ensures k < |cs| && a in entries[k] && Reaches(here, Clauses(cs[k..]), a, x)
    decreases cs, 1, 0
  {
    if Occurs(here.mode, x, AnalyzeFallthrough(cs, entries[0], here.ctx)) {
      k := 0;
      a := ReachFallthrough(here, cs, entries[0], x);
      assert cs[0..] == cs;
    } else {
      var j, b := ReachStarts(here, cs[1..], entries[1..], x);
      k, a := j + 1, b;
      assert cs[1..][j..] == cs[k..];
    }
  }

  lemma {:induction false} OnlyDefault(cs: seq<Clause>, k: nat)
    requires OneDefault(cs) && k < |cs| && cs[k].selector.None?
    ensures DefaultAt(cs) == k
  {
    if k > 0 {
      assert cs[1..][k - 1] in cs[1..];
      OnlyDefault(cs[1..], k - 1);
    }
  }

  lemma {:induction false} SelectingFollows(cs: seq<Clause>, entry: Option<nat>)
    requires IsEntry(cs, entry)
    ensures var at := if entry.Some? then entry.value else DefaultAt(cs);
            Follows(Both(Choosing(cs, entry), Clauses(cs[at..])), Selecting(cs))
  {
  }

  lemma {:induction false} ReachSelecting(here: Here, cs: seq<Clause>, a: FlowState, x: Exit)
    requires FitsClauses(here, cs) && OneDefault(cs) && Occurs(here.mode, x, AnalyzeClauses(cs, a, here.ctx))
    ensures Reaches(here, Selecting(cs), a, x)
    decreases cs, 2, 0
  {
    var (entries, o) := AnalyzeSelectors(cs, [a]);
    if !x.At? && Occurs(here.mode, x, o) {
      var b := ReachChoosing(here, cs, [a], None, x);
      ReachFirst(here, Choosing(cs, None), Clauses(cs[DefaultAt(cs)..]), a, x);
      SelectingFollows(cs, None);
      ReachFollows(here, Both(Choosing(cs, None), Clauses(cs[DefaultAt(cs)..])), Selecting(cs), a, x);
    } else if Occurs(here.mode, x, AnalyzeStarts(cs, entries, here.ctx)) {
      var k, b := ReachStarts(here, cs, entries, x);
      if cs[k].selector.None? { OnlyDefault(cs, k); }
      ReachEntry(here, cs, a, if cs[k].selector.Some? then Some(k) else None, b, x);
    } else {
      DefaultFound(cs);
      assert cs[DefaultAt(cs)..] == [];
      ReachSkip(here, x.a);
      ReachFollows(here, Skip(), Clauses([]), x.a, x);
      ReachEntry(here, cs, a, None, x.a, x);
    }
  }

  lemma {:induction false} ReachEntry(here: Here, cs: seq<Clause>, a: FlowState, entry: Option<nat>, b: FlowState, x: Exit)
    requires SharpClauses(cs, here.names, here.closed, here.place) && IsEntry(cs, entry) && b in Entered(cs, [a], entry)
    requires var at := if entry.Some? then entry.value else DefaultAt(cs); Reaches(here, Clauses(cs[at..]), b, x)
    ensures Reaches(here, Selecting(cs), a, x)
  {
    var at := if entry.Some? then entry.value else DefaultAt(cs);
    var c := ReachChoosing(here, cs, [a], entry, At(b));
    ReachThen(here, Choosing(cs, entry), Clauses(cs[at..]), a, b, x);
    SelectingFollows(cs, entry);
    ReachFollows(here, Both(Choosing(cs, entry), Clauses(cs[at..])), Selecting(cs), a, x);
  }

  lemma {:induction false} CaseBlockFollows(cs: seq<Clause>)
    requires !HasUsing(SwitchStatements(cs))
    ensures Follows(Hidden(LexicalNames(SwitchStatements(cs)), Selecting(cs)), CaseBlock(cs))
  {
  }

  lemma {:induction false} ReachCaseBlock(here: Here, cs: seq<Clause>, states: seq<FlowState>, x: Exit) returns (a: FlowState)
    requires FitsClauses(here, cs) && OneDefault(cs) && Occurs(here.mode, x, AnalyzeSwitch(cs, states, here.ctx))
    ensures a in states && Reaches(here, CaseBlock(cs), a, x)
    decreases cs, 3, |states|
  {
    var names := LexicalNames(SwitchStatements(cs));
    var a0 := states[0].(aliases := states[0].aliases - names);
    SharpCasesNoUsing(cs, here.names, here.closed, here.place);
    var o := AnalyzeClauses(cs, a0, here.ctx);
    if Occurs(here.mode, x, LeaveScope(o, states[0], names, false)) {
      a := states[0];
      var y := Inside(o, a, names, here.mode, x);
      ReachSelecting(here, cs, a0, y);
      ReachHidden(here, names, Selecting(cs), a, y);
      CaseBlockFollows(cs);
      ReachFollows(here, Hidden(names, Selecting(cs)), CaseBlock(cs), a, x);
    } else {
      a := ReachCaseBlock(here, cs, states[1..], x);
    }
  }

  lemma {:induction false} ReachSwitch(here: Here, s: Stmt, labels: seq<Name>, a: FlowState, x: Exit)
    requires s.Switch? && Sharp(s, here.names, here.closed, here.place) && Aligned(here.ctx, [], 0)
    requires Occurs(here.mode, x, AnalyzeStmt(s, a, here.ctx, false))
    ensures Reaches(here, One(s, labels), a, x)
    decreases s, 0, 0
  {
    var tested := AnalyzeExpr(s.discriminant, a);
    var test, cases := Evaluate(Some(s.discriminant)), CaseBlock(s.clauses);
    if !x.At? && Occurs(here.mode, x, tested) {
      ReachExpr(here, s.discriminant, a, x);
      ReachFirst(here, test, cases, a, x);
    } else {
      var b := ReachCaseBlock(here, s.clauses, tested.states, x);
      ReachExpr(here, s.discriminant, a, At(b));
      ReachThen(here, test, cases, a, b, x);
    }
    SwitchFollows(s, labels);
    ReachFollows(here, Both(test, cases), One(s, labels), a, x);
  }

  lemma {:induction false} SwitchFollows(s: Stmt, labels: seq<Name>)
    requires s.Switch?
    ensures Follows(Both(Evaluate(Some(s.discriminant)), CaseBlock(s.clauses)), One(s, labels))
  {
    forall m: Machine, o: Oracle
      ensures Alike(Both(Evaluate(Some(s.discriminant)), CaseBlock(s.clauses)), One(s, labels), m, o)
    {
      assert Exec(s, m, o, labels) == ExecSwitch(s, m, o);
    }
  }

  // ----- labels --------------------------------------------------------------------

  /** What a label makes of an exit of its statement. */
  predicate LabelExit(here: Here, y: Exit, x: Exit) {
    if Breaks(here, y) then x == At(y.q.state) else x == y
  }

  lemma {:induction false} LabelFrom(here: Here, o: Outcome, x: Exit) returns (y: Exit)
    requires match x
             case Unsafe => here.mode.Losing? && o.unsafe
             case At(a) => a in o.states + Landing(o.abrupt, Breaking, |here.ctx|)
             case By(q) => q in Passing(o.abrupt, |here.ctx|, false)
    ensures Occurs(here.mode, y, o) && LabelExit(here, y, x)
  {
    y := x;
    if x.At? && x.a !in o.states {
      var q := LandedFrom(o.abrupt, Breaking, |here.ctx|, x.a);
      y := By(q);
    }
    if x.By? { PassedFrom(o.abrupt, |here.ctx|, false, x.q); }
  }

  function Labelled(here: Here, s: Stmt): Here
    requires s.Labeled?
  {
    Under(here, LabelFrame(s.name, LoopDepth(s.labeled))).(
      closed := if LoopDepth(s.labeled) == 0 then here.closed + {s.name} else here.closed - {s.name})
  }

  lemma {:induction false} LabelMatches(here: Here, s: Stmt, y: Exit, e: End, x: Exit)
    requires s.Labeled? && e.Ending? && Matches(Labelled(here, s), y, e) && LabelExit(here, y, x)
    requires e.jump == Continued(Some(s.name)) ==> LoopDepth(s.labeled) == 0
    ensures e.jump == Broke(Some(s.name)) <==> Breaks(here, y)
    ensures e.jump != Continued(Some(s.name))
    ensures Matches(here, x, if Breaks(here, y) then Ending(e.m, Normal, false) else e)
  {
    if e.jump.Broke? || e.jump.Continued? {
      TargetsUnder(e.jump.jump, here.ctx, LabelFrame(s.name, LoopDepth(s.labeled)));
    }
  }

  lemma {:induction false} NotResumed(s: Stmt, labels: seq<Name>, m: Machine, o: Oracle)
    requires s.Labeled? && LoopDepth(s.labeled) > 0
    ensures var r := Exec(s.labeled, m, o, labels + [s.name]); r.Done? ==> r.jump != Continued(Some(s.name))
  {
    assert (labels + [s.name])[|labels|] == s.name;
  }

  lemma {:induction false} ReachLabeled(here: Here, s: Stmt, labels: seq<Name>, a: FlowState, x: Exit)
    requires s.Labeled? && Fits(here, s, labels) && Occurs(here.mode, x, AnalyzeStmt(s, a, here.ctx, false))
    ensures Reaches(here, One(s, labels), a, x)
    decreases s, 0, 0
  {
    var inner, body := Labelled(here, s), One(s.labeled, labels + [s.name]);
    AlignedLabel(here.ctx, labels, s.name, s.labeled);
    var y := LabelFrom(here, AnalyzeStmt(s.labeled, a, inner.ctx, false), x);
    ReachStmt(inner, s.labeled, labels + [s.name], a, y);
    forall m: Machine | Backs(here, a, m)
      ensures Reached(here, One(s, labels), m, x)
    {
      assert Backs(inner, a, m);
      assert Reached(inner, body, m, y);
      var p: Oracle, e: End :| Runs(body, m, p, e) && Matches(inner, y, e);
      LabelRun(here, s, labels, m, p, y, e, x);
    }
  }

  lemma {:induction false} LabelRun(here: Here, s: Stmt, labels: seq<Name>, m: Machine, p: Oracle, y: Exit, e: End, x: Exit)
    requires s.Labeled? && Runs(One(s.labeled, labels + [s.name]), m, p, e) && Matches(Labelled(here, s), y, e)
    requires LabelExit(here, y, x)
    ensures Reached(here, One(s, labels), m, x)
  {
    var body := One(s.labeled, labels + [s.name]);
    if e.Ending? {
      assert Ends(body, m, p + [], e, []);
      if LoopDepth(s.labeled) > 0 { NotResumed(s, labels, m, p + []); }
      LabelMatches(here, s, y, e, x);
    }
    var e' := if Breaks(here, y) then Ending(e.m, Normal, false) else e;
    forall t: Oracle
      ensures Ends(One(s, labels), m, p + t, e', t)
    {
      assert Ends(body, m, p + t, e, t);
      LabelledIs(s, labels, m, p + t);
    }
    assert Runs(One(s, labels), m, p, e');
  }

  lemma {:induction false} LabelledIs(s: Stmt, labels: seq<Name>, m: Machine, o: Oracle)
    requires s.Labeled?
    ensures Strays(s, m, o, labels) == Strays(s.labeled, m, o, labels + [s.name])
    ensures var r := Exec(s.labeled, m, o, labels + [s.name]);
            Exec(s, m, o, labels) ==
            if r.Done? && r.jump == Broke(Some(s.name)) then Done(r.m, Normal, false, r.rest)
            else if r.Done? && r.jump == Continued(Some(s.name)) && LoopDepth(s.labeled) == 0 then Starved
            else r
  {
    assert Exec(s, m, o, labels) == ExecLabeled(s, m, o, labels);
  }

  // ----- try -----------------------------------------------------------------------

  lemma {:induction false} HandlingFollows(h: Handler)
    ensures Follows(Hidden(ParamNames(h.param), Scoped(h.block)), Handling(h))
  {
    var names := ParamNames(h.param);
    forall m: Machine, o: Oracle
      ensures Alike(Hidden(names, Scoped(h.block)), Handling(h), m, o)
    {
      assert (m.holders - names) + {} == m.holders - names;
    }
  }

  /** An exit of a handler: of its run from one of the throws, or a completion that passes it by. */
  lemma {:induction false} ReachHandler(here: Here, h: Handler, qs: seq<Abrupt>, x: Exit) returns (q: Abrupt)
    requires FitsList(here, h.block) && Occurs(here.mode, x, AnalyzeHandler(h, qs, here.ctx))
    ensures q in qs && if q.kind.Throwing? then Reaches(here, Handling(h), q.state, x) else x == By(q)
    decreases h, 1, |qs|
  {
    var first := qs[0];
    if !first.kind.Throwing? {
      if x == By(first) {
        q := first;
      } else {
        q := ReachHandler(here, h, qs[1..], x);
      }
    } else {
      var names := ParamNames(h.param);
      var a0 := first.state.(aliases := first.state.aliases - names);
      var o := AnalyzeBlock(h.block, a0, here.ctx, false);
      if Occurs(here.mode, x, LeaveScope(o, first.state, names, false)) {
        q := first;
        var y := Inside(o, q.state, names, here.mode, x);
        ReachBlock(here, h.block, a0, y);
        ReachHidden(here, names, Scoped(h.block), q.state, y);
        HandlingFollows(h);
        ReachFollows(here, Hidden(names, Scoped(h.block)), Handling(h), q.state, x);
      } else {
        q := ReachHandler(here, h, qs[1..], x);
      }
    }
  }

  function Tried(s: Stmt): Code
    requires s.Try?
  {
    if s.handler.Some? then Trying(Scoped(s.tried), s.handler.value) else Scoped(s.tried)
  }

  function HandledOutcome(s: Stmt, a: FlowState, ctx: seq<Frame>): Outcome
    requires s.Try?
  {
    var tried := AnalyzeBlock(s.tried, a, ctx, false);
    if s.handler.Some? then
      var caught := AnalyzeHandler(s.handler.value, tried.abrupt, ctx);
      Outcome(tried.states + caught.states, caught.abrupt, caught.unsafe)
    else tried
  }

  lemma {:induction false} ReachTried(here: Here, s: Stmt, a: FlowState, x: Exit)
    requires s.Try? && Aligned(here.ctx, [], 0) && Occurs(here.mode, x, HandledOutcome(s, a, here.ctx))
    requires SharpList(s.tried, here.names, here.closed, if s.handler.Some? then Guarded else here.place)
    requires s.handler.Some? ==> SharpList(s.handler.value.block, here.names, here.closed, here.place)
    ensures Reaches(here, Tried(s), a, x)
    decreases s, 0, 0
  {
    var tried := AnalyzeBlock(s.tried, a, here.ctx, false);
    if s.handler.None? {
      ReachBlock(here, s.tried, a, x);
    } else if x.At? && x.a in tried.states {
      ReachBlock(InTry(here), s.tried, a, x);
      ReachUncaught(here, Scoped(s.tried), s.handler.value, a, x);
    } else {
      var q := ReachHandler(here, s.handler.value, tried.abrupt, x);
      ReachBlock(InTry(here), s.tried, a, By(q));
      if q.kind.Throwing? {
        ReachCaught(here, Scoped(s.tried), s.handler.value, a, q, x);
      } else {
        ReachUncaught(here, Scoped(s.tried), s.handler.value, a, x);
      }
    }
  }

  lemma {:induction false} ResumedFrom(q: Abrupt, states: seq<FlowState>, p: Abrupt) returns (a: FlowState)
    requires p in Resumed(q, states)
    ensures a in states && p == q.(state := a)
  {
    if p == q.(state := states[0]) {
      a := states[0];
    } else {
      a := ResumedFrom(q, states[1..], p);
    }
  }

  /** An exit of a finalizer that runs behind normal completions. */
  lemma {:induction false} ReachFinishStates(here: Here, block: seq<Stmt>, states: seq<FlowState>, x: Exit) returns (a: FlowState)
    requires FitsList(here, block) && Occurs(here.mode, x, FinishStates(block, states, here.ctx))
    ensures a in states && Reaches(here, Scoped(block), a, x)
    decreases block, 5, |states|
  {
    if Occurs(here.mode, x, AnalyzeBlock(block, states[0], here.ctx, false)) {
      a := states[0];
      ReachBlock(here, block, a, x);
    } else {
      a := ReachFinishStates(here, block, states[1..], x);
    }
  }

  /** An exit of a finalizer that runs behind abrupt completions, which go on where it ends normally. */
  lemma {:induction false} ReachFinishAbrupt(here: Here, block: seq<Stmt>, qs: seq<Abrupt>, x: Exit) returns (q: Abrupt, z: Exit)
    requires FitsList(here, block) && Occurs(here.mode, x, FinishAbrupt(block, qs, here.ctx))
    ensures q in qs && Reaches(here, Scoped(block), q.state, z) && FinishedExit(By(q), z, x)
    decreases block, 5, |qs|
  {
    var o := AnalyzeBlock(block, qs[0].state, here.ctx, false);
    if !x.At? && Occurs(here.mode, x, o) {
      q, z := qs[0], x;
      ReachBlock(here, block, q.state, z);
    } else if x.By? && x.q in Resumed(qs[0], o.states) {
      var a := ResumedFrom(qs[0], o.states, x.q);
      q, z := qs[0], At(a);
      ReachBlock(here, block, q.state, z);
    } else {
      q, z := ReachFinishAbrupt(here, block, qs[1..], x);
    }
  }

  /** An exit of code with a finalizer behind it, found among the exits of the code. */
  lemma {:induction false} FinishedFrom(here: Here, f: Finalizer, o: Outcome, x: Exit) returns (y: Exit, z: Exit)
    requires f.Finally? && FitsList(here, f.block) && Occurs(here.mode, x, ApplyFinalizer(f, o, here.ctx))
    ensures !y.Unsafe? && Occurs(here.mode, y, o) && Reaches(here, Scoped(f.block), ExitState(y), z) && FinishedExit(y, z, x)
    decreases f, 6, 0
  {
    if Occurs(here.mode, x, FinishStates(f.block, o.states, here.ctx)) {
      var a := ReachFinishStates(here, f.block, o.states, x);
      y, z := At(a), x;
    } else {
      var q, w := ReachFinishAbrupt(here, f.block, o.abrupt, x);
      y, z := By(q), w;
    }
  }

  function FinishedTry(s: Stmt): Code
    requires s.Try?
  {
    if s.finalizer.Finally? then Lastly(Tried(s), s.finalizer.block) else Tried(s)
  }

  lemma {:induction false} TriedIs(s: Stmt, m: Machine, o: Oracle)
    requires s.Try?
    ensures var b := ExecBlock(s.tried, m, o); var thrown := b.Done? && b.jump.Thrown? && s.handler.Some?;
            Tried(s).go(m, o) == (if thrown then ExecHandler(s.handler.value, b.m, b.jump.original, b.rest) else b) &&
            (Tried(s).strays(m, o) <==>
             BlockStrays(s.tried, m, o) || (thrown && HandlerStrays(s.handler.value, b.m, b.jump.original, b.rest)))
  {
  }

  lemma {:induction false} LastlyIs(c: Code, block: seq<Stmt>, m: Machine, o: Oracle)
    ensures var r := c.go(m, o);
            Lastly(c, block).go(m, o) == (if r.Starved? then r else Finish(Finally(block), r)) &&
            (Lastly(c, block).strays(m, o) <==> c.strays(m, o) || (r.Done? && BlockStrays(block, r.m, r.rest)))
  {
  }

  lemma {:induction false} TryIs(s: Stmt, labels: seq<Name>, m: Machine, o: Oracle)
    requires s.Try?
    ensures var r := Tried(s).go(m, o);
            Exec(s, m, o, labels) == (if r.Starved? then r else Finish(s.finalizer, r)) &&
            (Strays(s, m, o, labels) <==>
             Tried(s).strays(m, o) || (r.Done? && s.finalizer.Finally? && BlockStrays(s.finalizer.block, r.m, r.rest)))
  {
    assert Exec(s, m, o, labels) == ExecTry(s, m, o) && Strays(s, m, o, labels) == TryStrays(s, m, o);
    TriedIs(s, m, o);
  }

  lemma {:induction false} TryFollows(s: Stmt, labels: seq<Name>)
    requires s.Try?
    ensures Follows(FinishedTry(s), One(s, labels))
  {
    forall m: Machine, o: Oracle
      ensures Alike(FinishedTry(s), One(s, labels), m, o)
    {
      TryIs(s, labels, m, o);
      if s.finalizer.Finally? { LastlyIs(Tried(s), s.finalizer.block, m, o); }
    }
  }

  lemma {:induction false} TrySharp(here: Here, s: Stmt)
    requires s.Try? && Sharp(s, here.names, here.closed, here.place)
    ensures var place := WithFinalizer(s.finalizer, here.place);
            SharpList(s.tried, here.names, here.closed, if s.handler.Some? then Guarded else place) &&
            (s.handler.Some? ==> SharpList(s.handler.value.block, here.names, here.closed, place)) &&
            (s.finalizer.Finally? ==> SharpList(s.finalizer.block, here.names, here.closed, here.place))
  {
  }

  /** An exit of a try statement: of its finalizer, if it has one, and else of what is before it. */
  lemma {:induction false} TryOccurs(s: Stmt, a: FlowState, ctx: seq<Frame>, mode: Mode, x: Exit)
    requires s.Try? && Occurs(mode, x, AnalyzeTry(s, a, ctx))
    ensures var handled := HandledOutcome(s, a, ctx);
            (x.Unsafe? && Occurs(mode, x, handled)) ||
            if s.finalizer.NoFinalizer? then Occurs(mode, x, handled) else Occurs(mode, x, ApplyFinalizer(s.finalizer, handled, ctx))
  {
    var finished := ApplyFinalizer(s.finalizer, HandledOutcome(s, a, ctx), ctx);
    assert AnalyzeTry(s, a, ctx) == finished.(unsafe := HandledOutcome(s, a, ctx).unsafe || finished.unsafe);
  }

  lemma {:induction false} ReachTry(here: Here, s: Stmt, labels: seq<Name>, a: FlowState, x: Exit)
    requires s.Try? && Sharp(s, here.names, here.closed, here.place) && Aligned(here.ctx, [], 0)
    requires Occurs(here.mode, x, AnalyzeTry(s, a, here.ctx))
    ensures Reaches(here, One(s, labels), a, x)
    decreases s, 0, 1
  {
    var handled := HandledOutcome(s, a, here.ctx);
    TrySharp(here, s);
    TryOccurs(s, a, here.ctx, here.mode, x);
    TryFollows(s, labels);
    if s.finalizer.NoFinalizer? {
      ReachTried(here, s, a, x);
    } else {
      var before, block := BeforeFinalizer(here), s.finalizer.block;
      if x.Unsafe? && handled.unsafe {
        ReachTried(before, s, a, x);
        ReachBeforeLast(here, Tried(s), block, a);
      } else {
        var y, z := FinishedFrom(here, s.finalizer, handled, x);
        ReachTried(before, s, a, y);
        ReachLastly(here, Tried(s), block, a, y, z, x);
      }
    }
    ReachFollows(here, FinishedTry(s), One(s, labels), a, x);
  }

  // ----- while and do --------------------------------------------------------------

  lemma {:induction false} WhileEnds(s: Stmt, labels: seq<Name>)
    requires s.While?
    ensures Follows(Both(Evaluate(Some(s.cond)), Chosen(false, Skip())), One(s, labels))
  {
    forall m: Machine, o: Oracle
      ensures Alike(Both(Evaluate(Some(s.cond)), Chosen(false, Skip())), One(s, labels), m, o)
    {
      assert Exec(s, m, o, labels) == IterateWhile(s, m, o, labels) && Strays(s, m, o, labels) == WhileStrays(s, m, o, labels);
    }
  }

  lemma {:induction false} WhileGoesRound(s: Stmt, labels: seq<Name>)
    requires s.While?
    ensures Follows(Both(Evaluate(Some(s.cond)), Chosen(true, Looped(One(s.loopBody, []), ResumesAt(labels), One(s, labels)))),
                    One(s, labels))
  {
    var round := Looped(One(s.loopBody, []), ResumesAt(labels), One(s, labels));
    forall m: Machine, o: Oracle
      ensures Alike(Both(Evaluate(Some(s.cond)), Chosen(true, round)), One(s, labels), m, o)
    {
      assert Exec(s, m, o, labels) == IterateWhile(s, m, o, labels) && Strays(s, m, o, labels) == WhileStrays(s, m, o, labels);
      WhileRound(s, labels, m, o);
    }
  }

  lemma {:induction false} WhileRound(s: Stmt, labels: seq<Name>, m: Machine, o: Oracle)
    requires s.While?
    ensures var t := Eval(s.cond, m, o);
            t.Value? && t.rest != [] && t.rest[0].taken ==>
              var b := Exec(s.loopBody, t.m, t.rest[1..], []);
              b.Done? && Resumes(b.jump, labels) ==>
                Exec(s, b.m, b.rest, labels) == IterateWhile(s, b.m, b.rest, labels) &&
                Strays(s, b.m, b.rest, labels) == WhileStrays(s, b.m, b.rest, labels)
  {
  }

  /** Going round once, from any state of the test. */
  lemma {:induction false} WhileTest(here: Here, s: Stmt, labels: seq<Name>, a: FlowState, x: Exit)
    requires s.While? && Reaches(here, Evaluate(Some(s.cond)), a, x)
    ensures Reaches(here, One(s, labels), a, x)
  {
    if x.At? {
      ReachSkip(here, x.a);
      ReachChosen(here, false, Skip(), x.a, x);
      ReachThen(here, Evaluate(Some(s.cond)), Chosen(false, Skip()), a, x.a, x);
    } else {
      ReachFirst(here, Evaluate(Some(s.cond)), Chosen(false, Skip()), a, x);
    }
    WhileEnds(s, labels);
    ReachFollows(here, Both(Evaluate(Some(s.cond)), Chosen(false, Skip())), One(s, labels), a, x);
  }

  lemma {:induction false} ReachWhile(here: Here, s: Stmt, labels: seq<Name>, a: FlowState, x: Exit)
    requires s.While? && Fits(here, s, labels) && Occurs(here.mode, x, AnalyzeWhile(s, a, here.ctx))
    ensures Reaches(here, One(s, labels), a, x)
    decreases s, 0, 0
  {
    var tested := AnalyzeExpr(s.cond, a);
    if Occurs(here.mode, x, tested) {
      ReachExpr(here, s.cond, a, x);
      WhileTest(here, s, labels, a, x);
    } else {
      var inner, body, on := Under(here, LoopFrame), One(s.loopBody, []), ResumesAt(labels);
      var test, round := Evaluate(Some(s.cond)), Looped(body, on, One(s, labels));
      var o := AnalyzeEach(s.loopBody, tested.states, inner.ctx, false);
      AlignedUnder(here.ctx, labels, 1, LoopFrame, 0);
      LoopSplits(here, labels);
      var b := a;
      if Occurs(here.mode, x, AnalyzeExprs(s.cond, o.states + Landing(o.abrupt, Continuing, |here.ctx|))) {
        var c := ReachExprs(here, s.cond, o.states + Landing(o.abrupt, Continuing, |here.ctx|), x);
        WhileTest(here, s, labels, c, x);
        var y := AgainFrom(here, o, c);
        b := ReachEach(inner, s.loopBody, tested.states, y);
        ReachLoopOn(here, LoopFrame, body, on, One(s, labels), b, y, c, x);
      } else {
        var y := OuterFrom(here, LoopFrame, o, x);
        b := ReachEach(inner, s.loopBody, tested.states, y);
        ReachLoopOut(here, LoopFrame, body, on, One(s, labels), b, y, x);
      }
      ReachExpr(here, s.cond, a, At(b));
      ReachChosen(here, true, round, b, x);
      ReachThen(here, test, Chosen(true, round), a, b, x);
      WhileGoesRound(s, labels);
      ReachFollows(here, Both(test, Chosen(true, round)), One(s, labels), a, x);
    }
  }

  lemma {:induction false} DoFollows(s: Stmt, labels: seq<Name>)
    requires s.DoWhile?
    ensures Follows(Looped(One(s.loopBody, []), ResumesAt(labels), Both(Evaluate(Some(s.cond)), Chosen(false, Skip()))), One(s, labels))
  {
    var all := Looped(One(s.loopBody, []), ResumesAt(labels), Both(Evaluate(Some(s.cond)), Chosen(false, Skip())));
    forall m: Machine, o: Oracle
      ensures Alike(all, One(s, labels), m, o)
    {
      assert Exec(s, m, o, labels) == IterateDo(s, m, o, labels) && Strays(s, m, o, labels) == DoStrays(s, m, o, labels);
    }
  }

  lemma {:induction false} ReachDoWhile(here: Here, s: Stmt, labels: seq<Name>, a: FlowState, x: Exit)
    requires s.DoWhile? && Fits(here, s, labels) && Occurs(here.mode, x, AnalyzeDoWhile(s, a, here.ctx))
    ensures Reaches(here, One(s, labels), a, x)
    decreases s, 0, 0
  {
    var inner, body, on := Under(here, LoopFrame), One(s.loopBody, []), ResumesAt(labels);
    var test, stop := Evaluate(Some(s.cond)), Chosen(false, Skip());
    var o := AnalyzeStmt(s.loopBody, a, inner.ctx, false);
    AlignedUnder(here.ctx, labels, 1, LoopFrame, LoopDepth(s.loopBody));
    LoopSplits(here, labels);
    if Occurs(here.mode, x, AnalyzeExprs(s.cond, o.states + Landing(o.abrupt, Continuing, |here.ctx|))) {
      var c := ReachExprs(here, s.cond, o.states + Landing(o.abrupt, Continuing, |here.ctx|), x);
      if x.At? {
        ReachSkip(here, x.a);
        ReachChosen(here, false, Skip(), x.a, x);
        ReachThen(here, test, stop, c, x.a, x);
      } else {
        ReachFirst(here, test, stop, c, x);
      }
      var y := AgainFrom(here, o, c);
      ReachStmt(inner, s.loopBody, [], a, y);
      ReachLoopOn(here, LoopFrame, body, on, Both(test, stop), a, y, c, x);
    } else {
      var y := OuterFrom(here, LoopFrame, o, x);
      ReachStmt(inner, s.loopBody, [], a, y);
      ReachLoopOut(here, LoopFrame, body, on, Both(test, stop), a, y, x);
    }
    DoFollows(s, labels);
    ReachFollows(here, Looped(body, on, Both(test, stop)), One(s, labels), a, x);
  }

  // ----- for -----------------------------------------------------------------------

  lemma {:induction false} ReachInit(here: Here, init: ForInit, a: FlowState, x: Exit)
    requires SharpInit(init, here.names, here.place) && Occurs(here.mode, x, AnalyzeInit(init, a))
    ensures Reaches(here, Initial(init), a, x)
  {
    match init
    case NoInit =>
      ReachSkip(here, a);
      ReachFollows(here, Skip(), Initial(init), a, x);
    case InitDeclare(kind, ds) =>
      var _ := ReachDeclarators(here, kind, ds, [a], x);
      ReachFollows(here, Declaring(kind, ds), Initial(init), a, x);
    case InitExpr(e) =>
      ReachExpr(here, e, a, x);
      ReachFollows(here, Evaluate(Some(e)), Initial(init), a, x);
  }

  lemma {:induction false} RoundsEnd(s: Stmt, labels: seq<Name>)
    requires s.For? && s.test.Some?
    ensures Follows(Chosen(false, Evaluate(s.test)), Rounds(s, labels))
  {
  }

  lemma {:induction false} RoundsGoOn(s: Stmt, labels: seq<Name>)
    requires s.For?
    ensures Follows(Chosen(true, Both(Evaluate(s.test), Looped(One(s.loopBody, []), ResumesAt(labels),
                                                               Both(Evaluate(s.update), Rounds(s, labels))))),
                    Rounds(s, labels))
  {
  }

  /** A loop without a test that goes round while the error is not settled. */
  function Endless(): Code {
    Code((m: Machine, o: Oracle) => Starved, (m: Machine, o: Oracle) => !Settled(m.ledger))
  }

  lemma {:induction false} EndlessGoesOn(s: Stmt, labels: seq<Name>)
    requires s.For? && s.test.None?
    ensures Follows(Chosen(true, Both(Evaluate(s.test), Looped(One(s.loopBody, []), ResumesAt(labels), Endless()))), Rounds(s, labels))
  {
  }

  lemma {:induction false} ReachEndless(here: Here, a: FlowState)
    requires here.mode.Losing? && MayNeedTerminal(a.protection)
    ensures Reaches(here, Endless(), a, Unsafe)
  {
    forall m: Machine | Backs(here, a, m)
      ensures Reached(here, Endless(), m, Unsafe)
    {
      assert Runs(Endless(), m, [], Straying) && Matches(here, Unsafe, Straying);
    }
  }

  lemma {:induction false} RoundsTest(here: Here, s: Stmt, labels: seq<Name>, a: FlowState, x: Exit)
    requires s.For? && s.test.Some? && Reaches(here, Evaluate(s.test), a, x)
    ensures Reaches(here, Rounds(s, labels), a, x)
  {
    ReachChosen(here, false, Evaluate(s.test), a, x);
    RoundsEnd(s, labels);
    ReachFollows(here, Chosen(false, Evaluate(s.test)), Rounds(s, labels), a, x);
  }

  /** The rest of a round, from the state in which its test has let it go on. */
  lemma {:induction false} RoundsRest(here: Here, s: Stmt, labels: seq<Name>, a: FlowState, b: FlowState, again: Code, x: Exit)
    requires s.For? && Reaches(here, Evaluate(s.test), a, At(b))
    requires Reaches(here, Looped(One(s.loopBody, []), ResumesAt(labels), again), b, x)
    requires again == Both(Evaluate(s.update), Rounds(s, labels)) || (s.test.None? && again == Endless())
    ensures Reaches(here, Rounds(s, labels), a, x)
  {
    var round := Looped(One(s.loopBody, []), ResumesAt(labels), again);
    ReachThen(here, Evaluate(s.test), round, a, b, x);
    ReachChosen(here, true, Both(Evaluate(s.test), round), a, x);
    if again == Both(Evaluate(s.update), Rounds(s, labels)) { RoundsGoOn(s, labels); } else { EndlessGoesOn(s, labels); }
    ReachFollows(here, Chosen(true, Both(Evaluate(s.test), round)), Rounds(s, labels), a, x);
  }

  function ForBody(s: Stmt, states: seq<FlowState>, ctx: seq<Frame>): Outcome
    requires s.For?
  {
    AnalyzeEach(s.loopBody, AnalyzeOptional(s.test, states).states, ctx + [LoopFrame], false)
  }

  function GoingOn(o: Outcome, ctx: seq<Frame>): seq<FlowState> { o.states + Landing(o.abrupt, Continuing, |ctx|) }

  /** From a state in which the body has gone on: the update, and the test of the next round. */
  lemma {:induction false} ReachUpdate(here: Here, s: Stmt, labels: seq<Name>, states: seq<FlowState>, x: Exit)
    returns (c: FlowState, again: Code)
    requires s.For? && Fits(here, s, labels)
    requires var o := ForBody(s, states, here.ctx); var going := GoingOn(o, here.ctx);
             var updated := AnalyzeOptional(s.update, going);
             (!x.At? && Occurs(here.mode, x, updated)) ||
             ((x.At? ==> s.test.Some?) && Occurs(here.mode, x, AnalyzeOptional(s.test, updated.states))) ||
             (x.Unsafe? && here.mode.Losing? && s.test.None? && NeedsEvidence(going))
    ensures c in GoingOn(ForBody(s, states, here.ctx), here.ctx) && Reaches(here, again, c, x)
    ensures again == Both(Evaluate(s.update), Rounds(s, labels)) || (s.test.None? && again == Endless())
  {
    var going := GoingOn(ForBody(s, states, here.ctx), here.ctx);
    var updated := AnalyzeOptional(s.update, going);
    again := Both(Evaluate(s.update), Rounds(s, labels));
    if !x.At? && Occurs(here.mode, x, updated) {
      c := ReachOption(here, s.update, going, x);
      ReachFirst(here, Evaluate(s.update), Rounds(s, labels), c, x);
    } else if (x.At? ==> s.test.Some?) && Occurs(here.mode, x, AnalyzeOptional(s.test, updated.states)) {
      var d := ReachOption(here, s.test, updated.states, x);
      RoundsTest(here, s, labels, d, x);
      c := ReachOption(here, s.update, going, At(d));
      ReachThen(here, Evaluate(s.update), Rounds(s, labels), c, d, x);
    } else {
      c :| c in going && MayNeedTerminal(c.protection);
      again := Endless();
      ReachEndless(here, c);
    }
  }

  /** An exit of a for loop by way of its body: y is the body's exit from one of the tested states. */
  lemma {:induction false} ReachForBody(here: Here, s: Stmt, labels: seq<Name>, states: seq<FlowState>, y: Exit) returns (p: FlowState, b: FlowState)
    requires s.For? && Fits(here, s, labels) && Occurs(here.mode, y, ForBody(s, states, here.ctx))
    ensures p in states && Reaches(here, Evaluate(s.test), p, At(b))
    ensures Reaches(Under(here, LoopFrame), One(s.loopBody, []), b, y) && Splits(here, LoopFrame, ResumesAt(labels))
    decreases s, 0, 0
  {
    AlignedUnder(here.ctx, labels, 1, LoopFrame, 0);
    LoopSplits(here, labels);
    b := ReachEach(Under(here, LoopFrame), s.loopBody, AnalyzeOptional(s.test, states).states, y);
    p := ReachOption(here, s.test, states, At(b));
  }

  predicate LeavesBody(here: Here, o: Outcome, x: Exit) {
    match x
    case Unsafe => here.mode.Losing? && o.unsafe
    case At(b) => b in Landing(o.abrupt, Breaking, |here.ctx|)
    case By(q) => q in Passing(o.abrupt, |here.ctx|, true)
  }

  lemma {:induction false} ReachRounds(here: Here, s: Stmt, labels: seq<Name>, a: FlowState, x: Exit) returns (p: FlowState)
    requires s.For? && Fits(here, s, labels) && Occurs(here.mode, x, AnalyzeFor(s, a, here.ctx))
    requires x.At? || !Occurs(here.mode, x, AnalyzeInit(s.init, a))
    ensures p in AnalyzeInit(s.init, a).states && Reaches(here, Rounds(s, labels), p, x)
    decreases s, 0, 1
  {
    var prepared := AnalyzeInit(s.init, a).states;
    var o, body, on := ForBody(s, prepared, here.ctx), One(s.loopBody, []), ResumesAt(labels);
    if (x.At? ==> s.test.Some?) && Occurs(here.mode, x, AnalyzeOptional(s.test, prepared)) {
      p := ReachOption(here, s.test, prepared, x);
      RoundsTest(here, s, labels, p, x);
    } else if LeavesBody(here, o, x) {
      var y := OuterFrom(here, LoopFrame, o, x);
      var again := Both(Evaluate(s.update), Rounds(s, labels));
      var b;
      p, b := ReachForBody(here, s, labels, prepared, y);
      ReachLoopOut(here, LoopFrame, body, on, again, b, y, x);
      RoundsRest(here, s, labels, p, b, again, x);
    } else {
      var c, again := ReachUpdate(here, s, labels, prepared, x);
      var y := AgainFrom(here, o, c);
      var b;
      p, b := ReachForBody(here, s, labels, prepared, y);
      ReachLoopOn(here, LoopFrame, body, on, again, b, y, c, x);
      RoundsRest(here, s, labels, p, b, again, x);
    }
  }

  lemma {:induction false} ForFollows(s: Stmt, labels: seq<Name>)
    requires s.For?
    ensures Follows(Leaving(ScopedByInit(s.init), Both(Initial(s.init), Rounds(s, labels))), One(s, labels))
  {
    var all := Leaving(ScopedByInit(s.init), Both(Initial(s.init), Rounds(s, labels)));
    forall m: Machine, o: Oracle
      ensures Alike(all, One(s, labels), m, o)
    {
      assert Exec(s, m, o, labels) == ExecFor(s, m, o, labels) && Strays(s, m, o, labels) == ForStrays(s, m, o, labels);
    }
  }

  lemma {:induction false} ReachFor(here: Here, s: Stmt, labels: seq<Name>, a: FlowState, x: Exit)
    requires s.For? && Fits(here, s, labels) && Occurs(here.mode, x, AnalyzeFor(s, a, here.ctx))
    ensures Reaches(here, One(s, labels), a, x)
    decreases s, 0, 2
  {
    var first, rounds := Initial(s.init), Rounds(s, labels);
    if !x.At? && Occurs(here.mode, x, AnalyzeInit(s.init, a)) {
      ReachInit(here, s.init, a, x);
      ReachFirst(here, first, rounds, a, x);
    } else {
      var p := ReachRounds(here, s, labels, a, x);
      ReachInit(here, s.init, a, At(p));
      ReachThen(here, first, rounds, a, p, x);
    }
    ReachLeaving(here, ScopedByInit(s.init), Both(first, rounds), a, x);
    ForFollows(s, labels);
    ReachFollows(here, Leaving(ScopedByInit(s.init), Both(first, rounds)), One(s, labels), a, x);
  }

  // ----- for-in and for-of ---------------------------------------------------------

  /** One round with an element that is not the caught error. */
  function Turn(s: Stmt): Code
    requires s.ForEach?
  {
    Code((m: Machine, o: Oracle) => EachRound(s, m, false, o),
         (m: Machine, o: Oracle) => Strays(s.loopBody, m.(holders := Assign(m.holders, s.binding.name, false)), o, []))
  }

  lemma {:induction false} TurnIs(s: Stmt, m: Machine, m0: Machine, o: Oracle)
    requires s.ForEach? && m0 == m.(holders := Assign(m.holders, s.binding.name, false))
    ensures var r := Exec(s.loopBody, m0, o, []);
            Turn(s).go(m, o) ==
            (if s.binding.DeclareEach? && s.binding.scoped then Leave(r, m.holders, {s.binding.name}, false) else r) &&
            Turn(s).strays(m, o) == Strays(s.loopBody, m0, o, [])
  {
  }

  lemma {:induction false} ReachTurn(here: Here, s: Stmt, a: FlowState, y: Exit)
    requires s.ForEach? && (s.binding.DeclareEach? && s.binding.scoped ==> s.binding.name !in here.names)
    requires Reaches(here, One(s.loopBody, []), a.(aliases := a.aliases - {s.binding.name}), y)
    ensures Reaches(here, Turn(s), a, y)
  {
    var name, body := s.binding.name, One(s.loopBody, []);
    var scoped := s.binding.DeclareEach? && s.binding.scoped;
    forall m: Machine | Backs(here, a, m)
      ensures Reached(here, Turn(s), m, y)
    {
      var m0 := m.(holders := m.holders - {name});
      assert Backs(here, a.(aliases := a.aliases - {name}), m0);
      assert Reached(here, body, m0, y);
      var p: Oracle, e: End :| Runs(body, m0, p, e) && Matches(here, y, e);
      var e' := if scoped then LeftEnd(e, m.holders, {name}) else e;
      if scoped { MatchesApart(here, y, e, m, {name}); }
      forall t: Oracle
        ensures Ends(Turn(s), m, p + t, e', t)
      {
        assert Ends(body, m0, p + t, e, t);
        assert Assign(m.holders, name, false) == m0.holders;
        TurnIs(s, m, m0, p + t);
      }
      assert Runs(Turn(s), m, p, e');
    }
  }

  /** A round, and what comes behind it: the next one, or the closing of the iterator. */
  function Turned(s: Stmt, labels: seq<Name>): Code
    requires s.ForEach?
  {
    Code((m: Machine, o: Oracle) =>
           var r := Turn(s).go(m, o);
           if r.Starved? then r
           else if Resumes(r.jump, labels) then IterateEach(s, r.m, r.rest, labels)
           else if r.jump.Thrown? then r
           else if r.rest == [] then Starved
           else if r.rest[0].throws then Done(r.m, Thrown(r.rest[0].original), false, r.rest[1..])
           else if r.jump == Broke(None) then Done(r.m, Normal, false, r.rest[1..])
           else r.(rest := r.rest[1..]),
         (m: Machine, o: Oracle) =>
           Turn(s).strays(m, o) ||
           var r := Turn(s).go(m, o); r.Done? && Resumes(r.jump, labels) && EachStrays(s, r.m, r.rest, labels))
  }

  lemma {:induction false} TurnsFollow(s: Stmt, labels: seq<Name>)
    requires s.ForEach?
    ensures Follows(Chosen(true, Turned(s, labels)), Turns(s, labels))
  {
    var all := Chosen(true, Turned(s, labels));
    forall m: Machine, o: Oracle
      ensures Alike(all, Turns(s, labels), m, o)
    {
      if o != [] && o[0].taken && !o[0].throws && !o[0].original {
        assert all.go(m, o) == Turned(s, labels).go(m, o[1..]) && all.strays(m, o) == Turned(s, labels).strays(m, o[1..]);
        assert Turn(s).go(m, o[1..]) == EachRound(s, m, o[0].original, o[1..]);
      }
    }
  }

  lemma {:induction false} TurnsEnd(s: Stmt, labels: seq<Name>)
    requires s.ForEach?
    ensures Follows(Chosen(false, Skip()), Turns(s, labels))
  {
  }

  lemma {:induction false} ReachTurnOut(here: Here, s: Stmt, labels: seq<Name>, a: FlowState, y: Exit, x: Exit)
    requires s.ForEach? && Reaches(Under(here, LoopFrame), Turn(s), a, y) && OuterExit(here, LoopFrame, y, x)
    requires Splits(here, LoopFrame, ResumesAt(labels))
    ensures Reaches(here, Turned(s, labels), a, x)
  {
    forall m: Machine | Backs(here, a, m)
      ensures Reached(here, Turned(s, labels), m, x)
    {
      assert Backs(Under(here, LoopFrame), a, m);
      assert Reached(Under(here, LoopFrame), Turn(s), m, y);
      var p: Oracle, e: End :| Runs(Turn(s), m, p, e) && Matches(Under(here, LoopFrame), y, e);
      TurnCloses(here, s, labels, m, p, e, y, x);
    }
  }

  /** A round after which the loop is left: closing the iterator does not fail. */
  lemma {:induction false} TurnCloses(here: Here, s: Stmt, labels: seq<Name>, m: Machine, p: Oracle, e: End, y: Exit, x: Exit)
    requires s.ForEach? && Runs(Turn(s), m, p, e) && Matches(Under(here, LoopFrame), y, e) && OuterExit(here, LoopFrame, y, x)
    requires Splits(here, LoopFrame, ResumesAt(labels))
    ensures Reached(here, Turned(s, labels), m, x)
  {
    var closes := e.Ending? && !e.jump.Thrown?;
    var p' := if closes then p + [Pick(false)] else p;
    var e' := if x.At? then Ending(e.m, Normal, false) else e;
    if e.Ending? { assert ResumesAt(labels)(e.jump) == Resumes(e.jump, labels); }
    forall t: Oracle
      ensures Ends(Turned(s, labels), m, p' + t, e', t)
    {
      if closes {
        assert p' + t == p + ([Pick(false)] + t) && ([Pick(false)] + t)[1..] == t;
        assert Ends(Turn(s), m, p + ([Pick(false)] + t), e, [Pick(false)] + t);
      } else {
        assert Ends(Turn(s), m, p + t, e, t);
      }
    }
    assert Runs(Turned(s, labels), m, p', e');
  }

  lemma {:induction false} ReachTurnOn(here: Here, s: Stmt, labels: seq<Name>, a: FlowState, y: Exit, c: FlowState, x: Exit)
    requires s.ForEach? && Reaches(Under(here, LoopFrame), Turn(s), a, y) && GoesOn(here, LoopFrame, y, c)
    requires Splits(here, LoopFrame, ResumesAt(labels)) && Reaches(here, Turns(s, labels), c, x)
    ensures Reaches(here, Turned(s, labels), a, x)
  {
    forall m: Machine | Backs(here, a, m)
      ensures Reached(here, Turned(s, labels), m, x)
    {
      assert Backs(Under(here, LoopFrame), a, m);
      assert Reached(Under(here, LoopFrame), Turn(s), m, y);
      var p: Oracle, e: End :| Runs(Turn(s), m, p, e) && Matches(Under(here, LoopFrame), y, e);
      assert ResumesAt(labels)(e.jump) && Backs(here, c, e.m);
      assert Reached(here, Turns(s, labels), e.m, x);
      var p': Oracle, e': End :| Runs(Turns(s, labels), e.m, p', e') && Matches(here, x, e');
      TurnAgain(s, labels, m, p, e, p', e');
    }
  }

  lemma {:induction false} TurnAgain(s: Stmt, labels: seq<Name>, m: Machine, p: Oracle, e: End, p': Oracle, e': End)
    requires s.ForEach? && Runs(Turn(s), m, p, e) && e.Ending? && Resumes(e.jump, labels) && Runs(Turns(s, labels), e.m, p', e')
    ensures Runs(Turned(s, labels), m, p + p', e')
  {
    forall t: Oracle
      ensures Ends(Turned(s, labels), m, p + p' + t, e', t)
    {
      assert p + p' + t == p + (p' + t);
      assert Ends(Turn(s), m, p + (p' + t), e, p' + t);
      assert Ends(Turns(s, labels), e.m, p' + t, e', t);
    }
  }

  lemma {:induction false} DroppedFrom(states: seq<FlowState>, name: Name, a: FlowState) returns (b: FlowState)
    requires a in DropName(states, name)
    ensures b in states && a == b.(aliases := b.aliases - {name})
  {
    if a == states[0].(aliases := states[0].aliases - {name}) {
      b := states[0];
    } else {
      b := DroppedFrom(states[1..], name, a);
    }
  }

  lemma {:induction false} ThrownFrom(states: seq<FlowState>, q: Abrupt) returns (a: FlowState)
    requires q in ThrowsFrom(states)
    ensures a in states && q == ThrowFrom(a)
  {
    if q == ThrowFrom(states[0]) {
      a := states[0];
    } else {
      a := ThrownFrom(states[1..], q);
    }
  }

  /** The iterator fails. */
  lemma {:induction false} ReachFailure(here: Here, s: Stmt, labels: seq<Name>, a: FlowState)
    requires s.ForEach?
    ensures Reaches(here, Turns(s, labels), a, By(ThrowFrom(a)))
  {
    var d := Choice(true, false, false, false, {});
    forall m: Machine | Backs(here, a, m)
      ensures Reached(here, Turns(s, labels), m, By(ThrowFrom(a)))
    {
      var e := Ending(m, Thrown(false), false);
      forall t: Oracle
        ensures Ends(Turns(s, labels), m, [d] + t, e, t)
      {
        assert ([d] + t)[1..] == t;
      }
      assert Runs(Turns(s, labels), m, [d], e) && Matches(here, By(ThrowFrom(a)), e);
    }
  }

  lemma {:induction false} ReachDone(here: Here, s: Stmt, labels: seq<Name>, a: FlowState)
    requires s.ForEach?
    ensures Reaches(here, Turns(s, labels), a, At(a))
  {
    ReachSkip(here, a);
    ReachChosen(here, false, Skip(), a, At(a));
    TurnsEnd(s, labels);
    ReachFollows(here, Chosen(false, Skip()), Turns(s, labels), a, At(a));
  }

  /** A round from one of the states with the loop variable dropped. */
  lemma {:induction false} ReachRound(here: Here, s: Stmt, labels: seq<Name>, states: seq<FlowState>, y: Exit) returns (b: FlowState)
    requires s.ForEach? && Fits(here, s, labels)
    requires Occurs(here.mode, y, AnalyzeEach(s.loopBody, DropName(states, s.binding.name), here.ctx + [LoopFrame], false))
    ensures b in states && Reaches(Under(here, LoopFrame), Turn(s), b, y)
    decreases s, 0, 0
  {
    AlignedUnder(here.ctx, labels, 1, LoopFrame, 0);
    var c := ReachEach(Under(here, LoopFrame), s.loopBody, DropName(states, s.binding.name), y);
    b := DroppedFrom(states, s.binding.name, c);
    ReachTurn(Under(here, LoopFrame), s, b, y);
  }

  lemma {:induction false} ReachTurns(here: Here, s: Stmt, labels: seq<Name>, a: FlowState, x: Exit) returns (b: FlowState)
    requires s.ForEach? && Fits(here, s, labels) && Occurs(here.mode, x, AnalyzeForEach(s, a, here.ctx))
    requires x.At? || !Occurs(here.mode, x, AnalyzeExpr(s.iterable, a))
    ensures b in AnalyzeExpr(s.iterable, a).states && Reaches(here, Turns(s, labels), b, x)
    decreases s, 0, 1
  {
    var states := AnalyzeExpr(s.iterable, a).states;
    var o := AnalyzeEach(s.loopBody, DropName(states, s.binding.name), here.ctx + [LoopFrame], false);
    if x.At? && x.a in states {
      b := x.a;
      ReachDone(here, s, labels, b);
    } else if x.By? && x.q in ThrowsFrom(states) {
      b := ThrownFrom(states, x.q);
      ReachFailure(here, s, labels, b);
    } else {
      LoopSplits(here, labels);
      TurnsFollow(s, labels);
      if x.At? && x.a in o.states + Landing(o.abrupt, Continuing, |here.ctx|) {
        var y := AgainFrom(here, o, x.a);
        b := ReachRound(here, s, labels, states, y);
        ReachDone(here, s, labels, x.a);
        ReachTurnOn(here, s, labels, b, y, x.a, x);
      } else {
        var y := OuterFrom(here, LoopFrame, o, x);
        b := ReachRound(here, s, labels, states, y);
        ReachTurnOut(here, s, labels, b, y, x);
      }
      ReachChosen(here, true, Turned(s, labels), b, x);
      ReachFollows(here, Chosen(true, Turned(s, labels)), Turns(s, labels), b, x);
    }
  }

  lemma {:induction false} ForEachFollows(s: Stmt, labels: seq<Name>)
    requires s.ForEach?
    ensures Follows(Both(Evaluate(Some(s.iterable)), Turns(s, labels)), One(s, labels))
  {
    forall m: Machine, o: Oracle
      ensures Alike(Both(Evaluate(Some(s.iterable)), Turns(s, labels)), One(s, labels), m, o)
    {
      assert Exec(s, m, o, labels) == ExecForEach(s, m, o, labels);
    }
  }

  lemma {:induction false} ReachForEach(here: Here, s: Stmt, labels: seq<Name>, a: FlowState, x: Exit)
    requires s.ForEach? && Fits(here, s, labels) && Occurs(here.mode, x, AnalyzeForEach(s, a, here.ctx))
    ensures Reaches(here, One(s, labels), a, x)
    decreases s, 0, 2
  {
    var first, turns := Evaluate(Some(s.iterable)), Turns(s, labels);
    if !x.At? && Occurs(here.mode, x, AnalyzeExpr(s.iterable, a)) {
      ReachExpr(here, s.iterable, a, x);
      ReachFirst(here, first, turns, a, x);
    } else {
      var b := ReachTurns(here, s, labels, a, x);
      ReachExpr(here, s.iterable, a, At(b));
      ReachThen(here, first, turns, a, b, x);
    }
    ForEachFollows(s, labels);
    ReachFollows(here, Both(first, turns), One(s, labels), a, x);
  }
}
