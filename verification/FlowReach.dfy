/**
 Runs that an outcome of the coverage scan stands for: when a run acts before anything has happened to the error, and what
 it means that every run begun at a state can be led to an outcome.
 */
module FlowReach {
  import opened Wrappers
  import opened FlowSyntax
  import opened FlowAnalysis
  import opened FlowSemantics
  import opened FlowSoundness

  // ----- acting before the error is recorded --------------------------------------

  predicate Untouched(l: Ledger) { !l.deferred && !Settled(l) }

  /** While nothing has happened to the error, an expression is evaluated that acts and is no sure capture of it. */
  predicate Acts(e: Expr, m: Machine) {
    Untouched(m.ledger) &&
    match e
    case FacadeCall(_, _, _, hazard, _) => hazard
    case RuntimeCapture(target, _, _) => target !in m.holders
    case NextCall(target, _, _) => target !in m.holders
    case Other(_, effectful, _, _) => effectful
    case _ => false
  }

  predicate OptionActs(e: Option<Expr>, m: Machine) { e.Some? && Acts(e.value, m) }

  /** A statement that is an expression and no capture acts by itself. */
  predicate ActsAlone(e: Expr, m: Machine) {
    Acts(e, m) || (Untouched(m.ledger) && !e.FacadeCall? && !(e.RuntimeCapture? && e.target in m.holders))
  }

  predicate DeclareStrays(kind: DeclKind, ds: seq<Declarator>, m: Machine, o: Oracle) {
    ds != [] &&
    (OptionActs(ds[0].init, m) ||
     var v := EvalOptional(ds[0].init, m, o);
     v.Value? && (IsUsing(kind) ==> v.rest != [] && !v.rest[0].throws) &&
     DeclareStrays(kind, ds[1..], v.m.(holders := Assign(v.m.holders, ds[0].name, v.original)),
                   if IsUsing(kind) then v.rest[1..] else v.rest))
  }

  /** The run acts, or goes round an endless loop, before anything has happened to the error. */
  predicate Strays(s: Stmt, m: Machine, o: Oracle, labels: seq<Name>)
    decreases |o|, s, 1, 0
  {
    match s
    case Block(body, ownedElsewhere) => !(ownedElsewhere && body == []) && BlockStrays(body, m, o)
    case Expression(e, directive) => !directive && ActsAlone(e, m)
    case Declare(kind, ds) => DeclareStrays(kind, ds, m, o)
    case Return(value, _) => OptionActs(value, m)
    case Throw(e, _) => Acts(e, m)
    case If(_, _, _) => IfStrays(s, m, o)
    case Switch(e, cs) => Acts(e, m) || (Eval(e, m, o).Value? && CasesStray(cs, Eval(e, m, o).m, Eval(e, m, o).rest))
    case Try(_, _, _) => TryStrays(s, m, o)
    case For(_, _, _, _) => ForStrays(s, m, o, labels)
    case ForEach(_, _, _) =>
      Acts(s.iterable, m) ||
      (Eval(s.iterable, m, o).Value? && EachStrays(s, Eval(s.iterable, m, o).m, Eval(s.iterable, m, o).rest, labels))
    case While(_, _) => WhileStrays(s, m, o, labels)
    case DoWhile(_, _) => DoStrays(s, m, o, labels)
    case Labeled(name, b) => Strays(b, m, o, labels + [name])
    case _ => false
  }

  predicate IfStrays(s: Stmt, m: Machine, o: Oracle)
    requires s.If?
    decreases |o|, s, 0, 0
  {
    Acts(s.cond, m) ||
    var v := Eval(s.cond, m, o);
    v.Value? && v.rest != [] &&
    if v.rest[0].taken then Strays(s.whenTrue, v.m, v.rest[1..], [])
    else s.whenFalse.Some? && Strays(s.whenFalse.value, v.m, v.rest[1..], [])
  }

  predicate ListStrays(ss: seq<Stmt>, m: Machine, o: Oracle)
    decreases |o|, ss, 2, 0
  {
    ss != [] &&
    (Strays(ss[0], m, o, []) ||
     var r := Exec(ss[0], m, o, []);
     r.Done? && r.jump.Normal? && ListStrays(ss[1..], r.m, r.rest))
  }

  predicate BlockStrays(ss: seq<Stmt>, m: Machine, o: Oracle)
    decreases |o|, ss, 3, 0
  {
    ListStrays(ss, m.(holders := m.holders - LexicalNames(ss)), o)
  }

  predicate SelectStrays(cs: seq<Clause>, m: Machine, o: Oracle) {
    cs != [] &&
    if cs[0].selector.None? then SelectStrays(cs[1..], m, o)
    else
      Acts(cs[0].selector.value, m) ||
      var v := Eval(cs[0].selector.value, m, o);
      v.Value? && v.rest != [] && !v.rest[0].taken && SelectStrays(cs[1..], v.m, v.rest[1..])
  }

  predicate ClausesStray(cs: seq<Clause>, m: Machine, o: Oracle)
    decreases |o|, cs, 0, 0
  {
    cs != [] &&
    (ListStrays(cs[0].statements, m, o) ||
     var r := ExecList(cs[0].statements, m, o);
     r.Done? && r.jump.Normal? && ClausesStray(cs[1..], r.m, r.rest))
  }

  predicate SelectedStrays(cs: seq<Clause>, m: Machine, o: Oracle)
    decreases |o|, cs, 1, 0
  {
    SelectStrays(cs, m, o) ||
    match Select(cs, m, o)
    case SelectorRaised(_) => false
    case Enter(at, em, erest) => ClausesStray(cs[at..], em, erest)
    case Unmatched(um, urest) => ClausesStray(cs[DefaultAt(cs)..], um, urest)
  }

  predicate CasesStray(cs: seq<Clause>, m: Machine, o: Oracle)
    decreases |o|, cs, 2, 0
  {
    SelectedStrays(cs, m.(holders := m.holders - LexicalNames(SwitchStatements(cs))), o)
  }

  predicate HandlerStrays(h: Handler, m: Machine, original: bool, o: Oracle)
    decreases |o|, h, 0, 0
  {
    var names := ParamNames(h.param);
    BlockStrays(h.block, m.(holders := (m.holders - names) + (if original then names else {})), o)
  }

  function ExecCaught(tried: seq<Stmt>, handler: Option<Handler>, m: Machine, o: Oracle): (r: Step)
    ensures r.Done? ==> |r.rest| <= |o|
  {
    var b := ExecBlock(tried, m, o);
    if b.Done? && b.jump.Thrown? && handler.Some? then ExecHandler(handler.value, b.m, b.jump.original, b.rest) else b
  }

  predicate TryStrays(s: Stmt, m: Machine, o: Oracle)
    requires s.Try?
    decreases |o|, s, 0, 0
  {
    BlockStrays(s.tried, m, o) ||
    (var b := ExecBlock(s.tried, m, o);
     b.Done? && b.jump.Thrown? && s.handler.Some? && HandlerStrays(s.handler.value, b.m, b.jump.original, b.rest)) ||
    var h := ExecCaught(s.tried, s.handler, m, o);
    h.Done? && s.finalizer.Finally? && BlockStrays(s.finalizer.block, h.m, h.rest)
  }

  predicate InitStrays(init: ForInit, m: Machine, o: Oracle) {
    match init
    case NoInit => false
    case InitDeclare(kind, ds) => DeclareStrays(kind, ds, m, o)
    case InitExpr(e) => Acts(e, m)
  }

  predicate ForStrays(s: Stmt, m: Machine, o: Oracle, labels: seq<Name>)
    requires s.For?
    decreases |o|, s, 0, 1
  {
    InitStrays(s.init, m, o) ||
    var p := ExecInit(s.init, m, o);
    p.Done? && p.jump.Normal? && RoundsStray(s, p.m, p.rest, labels)
  }

  predicate RoundsStray(s: Stmt, m: Machine, o: Oracle, labels: seq<Name>)
    requires s.For?
    decreases |o|, s, 0, 0
  {
    o != [] &&
    (OptionActs(s.test, m) ||
     var t := EvalOptional(s.test, m, o[1..]);
     t.Value? && (s.test.Some? ==> o[0].taken) &&
     (Strays(s.loopBody, t.m, t.rest, []) ||
      var b := Exec(s.loopBody, t.m, t.rest, []);
      b.Done? && Resumes(b.jump, labels) &&
      ((s.test.None? && !Settled(b.m.ledger)) || OptionActs(s.update, b.m) ||
       var u := EvalOptional(s.update, b.m, b.rest);
       u.Value? && RoundsStray(s, u.m, u.rest, labels))))
  }

  predicate EachStrays(s: Stmt, m: Machine, o: Oracle, labels: seq<Name>)
    requires s.ForEach?
    decreases |o|, s, 0, 0
  {
    o != [] && !o[0].throws && o[0].taken &&
    (Strays(s.loopBody, m.(holders := Assign(m.holders, s.binding.name, o[0].original)), o[1..], []) ||
     var b := EachRound(s, m, o[0].original, o[1..]);
     b.Done? && Resumes(b.jump, labels) && EachStrays(s, b.m, b.rest, labels))
  }

  predicate WhileStrays(s: Stmt, m: Machine, o: Oracle, labels: seq<Name>)
    requires s.While?
    decreases |o|, s, 0, 0
  {
    Acts(s.cond, m) ||
    var t := Eval(s.cond, m, o);
    t.Value? && t.rest != [] && t.rest[0].taken &&
    (Strays(s.loopBody, t.m, t.rest[1..], []) ||
     var b := Exec(s.loopBody, t.m, t.rest[1..], []);
     b.Done? && Resumes(b.jump, labels) && WhileStrays(s, b.m, b.rest, labels))
  }

  predicate DoStrays(s: Stmt, m: Machine, o: Oracle, labels: seq<Name>)
    requires s.DoWhile?
    decreases |o|, s, 0, 0
  {
    Strays(s.loopBody, m, o, []) ||
    var b := Exec(s.loopBody, m, o, []);
    b.Done? && Resumes(b.jump, labels) &&
    (Acts(s.cond, b.m) ||
     var t := Eval(s.cond, b.m, b.rest);
     t.Value? && t.rest != [] && t.rest[0].taken && DoStrays(s, t.m, t.rest[1..], labels))
  }

  // ----- parts of a run ------------------------------------------------------------

  /** A piece of a run: what it does, and whether it strays. */
  datatype Code = Code(go: (Machine, Oracle) -> Step, strays: (Machine, Oracle) -> bool)

  function Skip(): Code { Code((m: Machine, o: Oracle) => Done(m, Normal, false, o), (m: Machine, o: Oracle) => false) }

  function Evaluate(e: Option<Expr>): Code {
    Code((m: Machine, o: Oracle) => Complete(EvalOptional(e, m, o)), (m: Machine, o: Oracle) => OptionActs(e, m))
  }

  function Bound(d: Declarator, m: Machine, o: Oracle): Step {
    var v := EvalOptional(d.init, m, o);
    if v.Value? then Done(v.m.(holders := Assign(v.m.holders, d.name, v.original)), Normal, false, v.rest) else Complete(v)
  }

  function Binding(d: Declarator): Code {
    Code((m: Machine, o: Oracle) => Bound(d, m, o),
         (m: Machine, o: Oracle) => OptionActs(d.init, m))
  }

  function Declaring(kind: DeclKind, ds: seq<Declarator>): Code {
    Code((m: Machine, o: Oracle) => ExecDeclarators(kind, ds, m, o),
         (m: Machine, o: Oracle) => DeclareStrays(kind, ds, m, o))
  }

  function One(s: Stmt, labels: seq<Name>): Code {
    Code((m: Machine, o: Oracle) => Exec(s, m, o, labels),
         (m: Machine, o: Oracle) => Strays(s, m, o, labels))
  }

  function Many(ss: seq<Stmt>): Code {
    Code((m: Machine, o: Oracle) => ExecList(ss, m, o),
         (m: Machine, o: Oracle) => ListStrays(ss, m, o))
  }

  function Scoped(ss: seq<Stmt>): Code {
    Code((m: Machine, o: Oracle) => ExecBlock(ss, m, o),
         (m: Machine, o: Oracle) => BlockStrays(ss, m, o))
  }

  function HandedOver(l: Ledger): Ledger { l.(ownedElsewhere := true) }

  /** The boundary's own statements, where a hand-off counts as ownership by the caller if it is marked. */
  function ExecDirect(ss: seq<Stmt>, marks: bool, m: Machine, o: Oracle): Step {
    var r := ExecList(ss, m, o);
    if r.Done? && marks && ListHandsOff(ss, m, o) then r.(m := r.m.(ledger := HandedOver(r.m.ledger))) else r
  }

  function Direct(ss: seq<Stmt>, marks: bool): Code {
    Code((m: Machine, o: Oracle) => ExecDirect(ss, marks, m, o), (m: Machine, o: Oracle) => ListStrays(ss, m, o))
  }

  /** The selectors up to the entry of one clause, or past all of them. */
  function Chose(cs: seq<Clause>, entry: Option<nat>, m: Machine, o: Oracle): Step {
    match Select(cs, m, o)
    case SelectorRaised(step) => step
    case Enter(at, em, erest) => if entry == Some(at) then Done(em, Normal, false, erest) else Starved
    case Unmatched(um, urest) => if entry.None? then Done(um, Normal, false, urest) else Starved
  }

  function Choosing(cs: seq<Clause>, entry: Option<nat>): Code {
    Code((m: Machine, o: Oracle) => Chose(cs, entry, m, o), (m: Machine, o: Oracle) => SelectStrays(cs, m, o))
  }

  function Clauses(cs: seq<Clause>): Code {
    Code((m: Machine, o: Oracle) => ExecClauses(cs, m, o),
         (m: Machine, o: Oracle) => ClausesStray(cs, m, o))
  }

  function Selecting(cs: seq<Clause>): Code {
    Code((m: Machine, o: Oracle) => ExecSelected(cs, m, o),
         (m: Machine, o: Oracle) => SelectedStrays(cs, m, o))
  }

  function CaseBlock(cs: seq<Clause>): Code {
    Code((m: Machine, o: Oracle) => ExecCaseBlock(cs, m, o),
         (m: Machine, o: Oracle) => CasesStray(cs, m, o))
  }

  function Initial(init: ForInit): Code {
    Code((m: Machine, o: Oracle) => ExecInit(init, m, o),
         (m: Machine, o: Oracle) => InitStrays(init, m, o))
  }

  function Rounds(s: Stmt, labels: seq<Name>): Code
    requires s.For?
  {
    Code((m: Machine, o: Oracle) => IterateFor(s, m, o, labels), (m: Machine, o: Oracle) => RoundsStray(s, m, o, labels))
  }

  function Turns(s: Stmt, labels: seq<Name>): Code
    requires s.ForEach?
  {
    Code((m: Machine, o: Oracle) => IterateEach(s, m, o, labels), (m: Machine, o: Oracle) => EachStrays(s, m, o, labels))
  }

  function Both(first: Code, second: Code): Code {
    Code((m: Machine, o: Oracle) => var r := first.go(m, o); if r.Done? && r.jump.Normal? then second.go(r.m, r.rest) else r,
         (m: Machine, o: Oracle) => first.strays(m, o) ||
                   var r := first.go(m, o); r.Done? && r.jump.Normal? && second.strays(r.m, r.rest))
  }

  /** Go on when the next choice is this one. */
  function Chosen(taken: bool, c: Code): Code {
    Code((m: Machine, o: Oracle) => if o == [] || o[0].taken != taken || o[0].throws || o[0].original then Starved
                                    else c.go(m, o[1..]),
         (m: Machine, o: Oracle) => o != [] && o[0].taken == taken && !o[0].throws && !o[0].original && c.strays(m, o[1..]))
  }

  /** In a scope of its own names. */
  function Hidden(names: set<Name>, c: Code): Code {
    Code((m: Machine, o: Oracle) => Leave(c.go(m.(holders := m.holders - names), o), m.holders, names, false),
         (m: Machine, o: Oracle) => c.strays(m.(holders := m.holders - names), o))
  }

  /** In a scope whose names still stand for what they stand for outside. */
  function Leaving(names: set<Name>, c: Code): Code {
    Code((m: Machine, o: Oracle) => Leave(c.go(m, o), m.holders, names, false), (m: Machine, o: Oracle) => c.strays(m, o))
  }

  /** A loop body or a clause, which a break ends, and what comes when the loop or the switch goes on. */
  function Looped(body: Code, on: Jump -> bool, again: Code): Code {
    Code((m: Machine, o: Oracle) => var r := body.go(m, o);
                   if r.Starved? then r
                   else if r.jump == Broke(None) then Done(r.m, Normal, false, r.rest)
                   else if on(r.jump) then again.go(r.m, r.rest) else r,
         (m: Machine, o: Oracle) => body.strays(m, o) ||
                   var r := body.go(m, o); r.Done? && r.jump != Broke(None) && on(r.jump) && again.strays(r.m, r.rest))
  }

  function Trying(tried: Code, h: Handler): Code {
    Code((m: Machine, o: Oracle) => var r := tried.go(m, o);
                   if r.Done? && r.jump.Thrown? then ExecHandler(h, r.m, r.jump.original, r.rest) else r,
         (m: Machine, o: Oracle) => tried.strays(m, o) ||
                   var r := tried.go(m, o); r.Done? && r.jump.Thrown? && HandlerStrays(h, r.m, r.jump.original, r.rest))
  }

  function Lastly(c: Code, block: seq<Stmt>): Code {
    Code((m: Machine, o: Oracle) => var r := c.go(m, o); if r.Starved? then r else Finish(Finally(block), r),
         (m: Machine, o: Oracle) => c.strays(m, o) || var r := c.go(m, o); r.Done? && BlockStrays(block, r.m, r.rest))
  }

  // ----- what a run and an abstract exit have in common ----------------------------

  /** Runs that lose the error, or runs that record it twice. */
  datatype Mode = Losing | Repeating

  /** Inside a try statement whose handler names what it catches, inside one with a finalizer, or neither. */
  datatype Place = Open | Finished | Guarded

  /** The names that may hold the error, the enclosing frames, and the labels that no continue may name. */
  datatype Here = Here(mode: Mode, names: set<Name>, ctx: seq<Frame>, closed: set<Name>, place: Place)

  datatype Exit = At(a: FlowState) | By(q: Abrupt) | Unsafe

  datatype End = Ending(m: Machine, jump: Jump, waived: bool) | Straying

  /** The machine is in the abstract state, with the ledger that the mode asks for. */
  ghost predicate Backs(here: Here, a: FlowState, m: Machine) {
    a.aliases == m.holders && a.aliases <= here.names && !a.protection.Uncertain? &&
    match here.mode
    case Losing => MayNeedTerminal(a.protection) ==> !Settled(m.ledger) && (a.protection.Unprotected? ==> !m.ledger.deferred)
    case Repeating => a.terminalized ==> m.ledger.captured
  }

  ghost predicate Jumps(here: Here, q: Abrupt, jump: Jump) {
    match jump
    case Normal => false
    case Returned => q.kind.Returning? && !q.exactOriginal
    case Thrown(original) => q.kind.Throwing? && q.exactOriginal == original
    case Broke(to) => q.kind.Breaking? && !q.exactOriginal && q.target == BreakTarget(to, here.ctx)
    case Continued(to) =>
      q.kind.Continuing? && !q.exactOriginal && q.target == ContinueTarget(to, here.ctx) &&
      (to.Some? ==> to.value !in here.closed)
  }

  /** Forwarding the error settles it, so that the ledger of an exact throw is left open outside try statements. */
  ghost predicate BacksExit(here: Here, q: Abrupt, m: Machine) {
    (Backs(here, q.state, m) || (here.mode.Losing? && here.place.Open? && q.exactOriginal)) &&
    (here.place.Guarded? ==> !q.exactOriginal)
  }

  ghost predicate Matches(here: Here, x: Exit, e: End) {
    match x
    case Unsafe => e.Straying?
    case At(a) => e.Ending? && e.jump.Normal? && !e.waived && Backs(here, a, e.m)
    case By(q) => e.Ending? && e.waived == q.waived && Jumps(here, q, e.jump) && BacksExit(here, q, e.m)
  }

  predicate Occurs(mode: Mode, x: Exit, out: Outcome) {
    match x
    case Unsafe => mode.Losing? && out.unsafe
    case At(a) => a in out.states
    case By(q) => q in out.abrupt
  }

  predicate Ends(c: Code, m: Machine, o: Oracle, e: End, rest: Oracle) {
    if e.Straying? then c.strays(m, o) else c.go(m, o) == Done(e.m, e.jump, e.waived, rest)
  }

  /** The choices lead the code to this end, whatever choices come after them. */
  ghost predicate Runs(c: Code, m: Machine, p: Oracle, e: End) {
    forall t: Oracle :: Ends(c, m, p + t, e, t)
  }

  ghost predicate Reached(here: Here, c: Code, m: Machine, x: Exit) {
    exists p: Oracle, e: End :: Runs(c, m, p, e) && Matches(here, x, e)
  }

  /** From every machine in the state a some run comes to the exit. */
  ghost predicate Reaches(here: Here, c: Code, a: FlowState, x: Exit) {
    forall m: Machine :: Backs(here, a, m) ==> Reached(here, c, m, x)
  }

  predicate Alike(first: Code, second: Code, m: Machine, o: Oracle) {
    (first.go(m, o).Done? ==> second.go(m, o) == first.go(m, o)) && (first.strays(m, o) ==> second.strays(m, o))
  }

  /** Whatever the first code does, unless it is starved, the second one does too. */
  ghost predicate Follows(first: Code, second: Code) {
    forall m: Machine, o: Oracle :: Alike(first, second, m, o)
  }

  lemma {:induction false} ReachFollows(here: Here, first: Code, second: Code, a: FlowState, x: Exit)
    requires Follows(first, second) && Reaches(here, first, a, x)
    ensures Reaches(here, second, a, x)
  {
    forall m: Machine | Backs(here, a, m)
      ensures Reached(here, second, m, x)
    {
      var p: Oracle, e: End :| Runs(first, m, p, e) && Matches(here, x, e);
      forall t: Oracle
        ensures Ends(second, m, p + t, e, t)
      {
        assert Ends(first, m, p + t, e, t) && Alike(first, second, m, p + t);
      }
      assert Runs(second, m, p, e);
    }
  }

  // ----- sequences -----------------------------------------------------------------

  lemma {:induction false} RunThen(first: Code, second: Code, m: Machine, p: Oracle, m': Machine, p': Oracle, e: End)
    requires Runs(first, m, p, Ending(m', Normal, false)) && Runs(second, m', p', e)
    ensures Runs(Both(first, second), m, p + p', e)
  {
    forall t: Oracle
      ensures Ends(Both(first, second), m, p + p' + t, e, t)
    {
      assert p + p' + t == p + (p' + t);
      assert Ends(first, m, p + (p' + t), Ending(m', Normal, false), p' + t);
      assert Ends(second, m', p' + t, e, t);
    }
  }

  lemma {:induction false} ReachThen(here: Here, first: Code, second: Code, a: FlowState, a': FlowState, x: Exit)
    requires Reaches(here, first, a, At(a')) && Reaches(here, second, a', x)
    ensures Reaches(here, Both(first, second), a, x)
  {
    forall m: Machine | Backs(here, a, m)
      ensures Reached(here, Both(first, second), m, x)
    {
      assert Reached(here, first, m, At(a'));
      var p: Oracle, e: End :| Runs(first, m, p, e) && Matches(here, At(a'), e);
      assert Reached(here, second, e.m, x);
      var p': Oracle, e': End :| Runs(second, e.m, p', e') && Matches(here, x, e');
      RunThen(first, second, m, p, e.m, p', e');
    }
  }

  /** An exit of the first part that does not go on to the second one. */
  lemma {:induction false} ReachFirst(here: Here, first: Code, second: Code, a: FlowState, x: Exit)
    requires Reaches(here, first, a, x) && !x.At?
    ensures Reaches(here, Both(first, second), a, x)
  {
    forall m: Machine | Backs(here, a, m)
      ensures Reached(here, Both(first, second), m, x)
    {
      var p: Oracle, e: End :| Runs(first, m, p, e) && Matches(here, x, e);
      forall t: Oracle
        ensures Ends(Both(first, second), m, p + t, e, t)
      {
        assert Ends(first, m, p + t, e, t);
      }
      assert Runs(Both(first, second), m, p, e);
    }
  }

  lemma {:induction false} ReachSkip(here: Here, a: FlowState)
    ensures Reaches(here, Skip(), a, At(a))
  {
    forall m: Machine | Backs(here, a, m)
      ensures Reached(here, Skip(), m, At(a))
    {
      var e := Ending(m, Normal, false);
      forall t: Oracle
        ensures Ends(Skip(), m, [] + t, e, t)
      {
        assert [] + t == t;
      }
      assert Runs(Skip(), m, [], e);
    }
  }

  lemma {:induction false} ReachChosen(here: Here, taken: bool, c: Code, a: FlowState, x: Exit)
    requires Reaches(here, c, a, x)
    ensures Reaches(here, Chosen(taken, c), a, x)
  {
    forall m: Machine | Backs(here, a, m)
      ensures Reached(here, Chosen(taken, c), m, x)
    {
      var p: Oracle, e: End :| Runs(c, m, p, e) && Matches(here, x, e);
      var all := [Pick(taken)] + p;
      forall t: Oracle
        ensures Ends(Chosen(taken, c), m, all + t, e, t)
      {
        assert (all + t)[1..] == p + t;
        assert Ends(c, m, p + t, e, t);
      }
      assert Runs(Chosen(taken, c), m, all, e);
    }
  }

  // ----- scopes --------------------------------------------------------------------

  function RestoredExit(x: Exit, outer: FlowState, names: set<Name>): Exit {
    match x
    case Unsafe => Unsafe
    case At(a) => At(Restore(a, outer, names))
    case By(q) => By(q.(state := Restore(q.state, outer, names)))
  }

  function LeftEnd(e: End, outer: set<Name>, names: set<Name>): End {
    if e.Straying? then e else e.(m := e.m.(holders := Reinstate(e.m.holders, outer, names)))
  }

  lemma {:induction false} MatchesLeft(here: Here, x: Exit, e: End, a: FlowState, m: Machine, names: set<Name>)
    requires Backs(here, a, m) && Matches(here, x, e)
    ensures Matches(here, RestoredExit(x, a, names), LeftEnd(e, m.holders, names))
  {
  }

  lemma {:induction false} ReachHidden(here: Here, names: set<Name>, c: Code, a: FlowState, x: Exit)
    requires Reaches(here, c, a.(aliases := a.aliases - names), x)
    ensures Reaches(here, Hidden(names, c), a, RestoredExit(x, a, names))
  {
    forall m: Machine | Backs(here, a, m)
      ensures Reached(here, Hidden(names, c), m, RestoredExit(x, a, names))
    {
      var m0 := m.(holders := m.holders - names);
      assert Backs(here, a.(aliases := a.aliases - names), m0);
      assert Reached(here, c, m0, x);
      var p: Oracle, e: End :| Runs(c, m0, p, e) && Matches(here, x, e);
      MatchesLeft(here, x, e, a, m, names);
      forall t: Oracle
        ensures Ends(Hidden(names, c), m, p + t, LeftEnd(e, m.holders, names), t)
      {
        assert Ends(c, m0, p + t, e, t);
      }
      assert Runs(Hidden(names, c), m, p, LeftEnd(e, m.holders, names));
    }
  }

  /** A scope of names that never hold the error. */
  lemma {:induction false} MatchesApart(here: Here, x: Exit, e: End, m: Machine, names: set<Name>)
    requires Matches(here, x, e) && names !! here.names && m.holders <= here.names
    ensures Matches(here, x, LeftEnd(e, m.holders, names))
  {
    if e.Ending? && e.m.holders <= here.names { assert Reinstate(e.m.holders, m.holders, names) == e.m.holders; }
  }

  lemma {:induction false} ReachLeaving(here: Here, names: set<Name>, c: Code, a: FlowState, x: Exit)
    requires Reaches(here, c, a, x) && names !! here.names
    ensures Reaches(here, Leaving(names, c), a, x)
  {
    forall m: Machine | Backs(here, a, m)
      ensures Reached(here, Leaving(names, c), m, x)
    {
      var p: Oracle, e: End :| Runs(c, m, p, e) && Matches(here, x, e);
      MatchesApart(here, x, e, m, names);
      forall t: Oracle
        ensures Ends(Leaving(names, c), m, p + t, LeftEnd(e, m.holders, names), t)
      {
        assert Ends(c, m, p + t, e, t);
      }
      assert Runs(Leaving(names, c), m, p, LeftEnd(e, m.holders, names));
    }
  }

  // ----- loop bodies and clauses ---------------------------------------------------

  function Under(here: Here, frame: Frame): Here { here.(ctx := here.ctx + [frame]) }

  predicate Breaks(here: Here, y: Exit) { y.By? && Leaves(y.q, Breaking, |here.ctx|) }

  predicate Continues(here: Here, y: Exit) { y.By? && Leaves(y.q, Continuing, |here.ctx|) }

  /** The exits under a frame at which control leaves it, goes on, or passes through it. */
  ghost predicate Splits(here: Here, frame: Frame, on: Jump -> bool) {
    forall y: Exit, e: End :: e.Ending? && Matches(Under(here, frame), y, e) ==>
      (e.jump == Broke(None) <==> Breaks(here, y)) &&
      (on(e.jump) <==> y.At? || (frame.LoopFrame? && Continues(here, y))) &&
      (y.By? && !Breaks(here, y) && !(frame.LoopFrame? && Continues(here, y)) ==> Matches(here, y, e))
  }

  function ResumesAt(labels: seq<Name>): Jump -> bool { (jump: Jump) => Resumes(jump, labels) }

  function FallsOn(): Jump -> bool { (jump: Jump) => jump.Normal? }

  lemma {:induction false} LoopSplits(here: Here, labels: seq<Name>)
    requires Aligned(here.ctx, labels, 1)
    ensures Splits(here, LoopFrame, ResumesAt(labels))
  {
    forall y: Exit, e: End | e.Ending? && Matches(Under(here, LoopFrame), y, e)
      ensures e.jump == Broke(None) <==> Breaks(here, y)
      ensures Resumes(e.jump, labels) <==> y.At? || Continues(here, y)
      ensures y.By? && !Breaks(here, y) && !Continues(here, y) ==> Matches(here, y, e)
    {
      if e.jump.Broke? || e.jump.Continued? { LoopTargets(e.jump.jump, here.ctx, labels); }
    }
  }

  lemma {:induction false} SwitchSplits(here: Here)
    ensures Splits(here, SwitchFrame, FallsOn())
  {
    forall y: Exit, e: End | e.Ending? && Matches(Under(here, SwitchFrame), y, e)
      ensures e.jump == Broke(None) <==> Breaks(here, y)
      ensures y.By? && !Breaks(here, y) ==> Matches(here, y, e)
    {
      if e.jump.Broke? || e.jump.Continued? { TargetsUnder(e.jump.jump, here.ctx, SwitchFrame); }
    }
  }

  /** The exit at which a loop or a switch goes on, with its state. */
  predicate GoesOn(here: Here, frame: Frame, y: Exit, a: FlowState) {
    y == At(a) || (frame.LoopFrame? && Continues(here, y) && y.q.state == a)
  }

  /** What is made of every other exit. */
  predicate OuterExit(here: Here, frame: Frame, y: Exit, x: Exit) {
    match y
    case Unsafe => x == Unsafe
    case At(_) => false
    case By(q) => if Breaks(here, y) then x == At(q.state) else !(frame.LoopFrame? && Continues(here, y)) && x == y
  }

  lemma {:induction false} ReachLoopOut(here: Here, frame: Frame, body: Code, on: Jump -> bool, again: Code, a: FlowState, y: Exit,
                                        x: Exit)
    requires Reaches(Under(here, frame), body, a, y) && OuterExit(here, frame, y, x) && Splits(here, frame, on)
    ensures Reaches(here, Looped(body, on, again), a, x)
  {
    forall m: Machine | Backs(here, a, m)
      ensures Reached(here, Looped(body, on, again), m, x)
    {
      assert Backs(Under(here, frame), a, m);
      assert Reached(Under(here, frame), body, m, y);
      var p: Oracle, e: End :| Runs(body, m, p, e) && Matches(Under(here, frame), y, e);
      var e' := if x.At? then Ending(e.m, Normal, false) else e;
      forall t: Oracle
        ensures Ends(Looped(body, on, again), m, p + t, e', t)
      {
        assert Ends(body, m, p + t, e, t);
      }
      assert Runs(Looped(body, on, again), m, p, e');
    }
  }

  lemma {:induction false} RunAgain(body: Code, on: Jump -> bool, again: Code, m: Machine, p: Oracle, e: End, p': Oracle, e': End)
    requires Runs(body, m, p, e) && e.Ending? && e.jump != Broke(None) && on(e.jump) && Runs(again, e.m, p', e')
    ensures Runs(Looped(body, on, again), m, p + p', e')
  {
    forall t: Oracle
      ensures Ends(Looped(body, on, again), m, p + p' + t, e', t)
    {
      assert p + p' + t == p + (p' + t);
      assert Ends(body, m, p + (p' + t), e, p' + t);
      assert Ends(again, e.m, p' + t, e', t);
    }
  }

  lemma {:induction false} ReachLoopOn(here: Here, frame: Frame, body: Code, on: Jump -> bool, again: Code, a: FlowState, y: Exit,
                                       a': FlowState, x: Exit)
    requires Reaches(Under(here, frame), body, a, y) && GoesOn(here, frame, y, a') && Splits(here, frame, on)
    requires Reaches(here, again, a', x)
    ensures Reaches(here, Looped(body, on, again), a, x)
  {
    forall m: Machine | Backs(here, a, m)
      ensures Reached(here, Looped(body, on, again), m, x)
    {
      assert Backs(Under(here, frame), a, m);
      assert Reached(Under(here, frame), body, m, y);
      var p: Oracle, e: End :| Runs(body, m, p, e) && Matches(Under(here, frame), y, e);
      assert Backs(here, a', e.m);
      assert Reached(here, again, e.m, x);
      var p': Oracle, e': End :| Runs(again, e.m, p', e') && Matches(here, x, e');
      RunAgain(body, on, again, m, p, e, p', e');
    }
  }

  // ----- handlers and finalizers ---------------------------------------------------

  function InTry(here: Here): Here { here.(place := Guarded) }

  function BeforeFinalizer(here: Here): Here { here.(place := if here.place.Guarded? then Guarded else Finished) }

  /** A handler entered with something else than the caught error. */
  function Handling(h: Handler): Code {
    Code((m: Machine, o: Oracle) => ExecHandler(h, m, false, o), (m: Machine, o: Oracle) => HandlerStrays(h, m, false, o))
  }

  lemma {:induction false} ReachUncaught(here: Here, c: Code, h: Handler, a: FlowState, x: Exit)
    requires Reaches(InTry(here), c, a, x) && (x.By? ==> !x.q.kind.Throwing?)
    ensures Reaches(here, Trying(c, h), a, x)
  {
    forall m: Machine | Backs(here, a, m)
      ensures Reached(here, Trying(c, h), m, x)
    {
      assert Backs(InTry(here), a, m);
      assert Reached(InTry(here), c, m, x);
      var p: Oracle, e: End :| Runs(c, m, p, e) && Matches(InTry(here), x, e);
      forall t: Oracle
        ensures Ends(Trying(c, h), m, p + t, e, t)
      {
        assert Ends(c, m, p + t, e, t);
      }
      assert Runs(Trying(c, h), m, p, e) && Matches(here, x, e);
    }
  }

  lemma {:induction false} RunCaught(c: Code, h: Handler, m: Machine, p: Oracle, e: End, p': Oracle, e': End)
    requires Runs(c, m, p, e) && e.Ending? && e.jump == Thrown(false) && Runs(Handling(h), e.m, p', e')
    ensures Runs(Trying(c, h), m, p + p', e')
  {
    forall t: Oracle
      ensures Ends(Trying(c, h), m, p + p' + t, e', t)
    {
      assert p + p' + t == p + (p' + t);
      assert Ends(c, m, p + (p' + t), e, p' + t);
      assert Ends(Handling(h), e.m, p' + t, e', t);
    }
  }

  lemma {:induction false} ReachCaught(here: Here, c: Code, h: Handler, a: FlowState, q: Abrupt, x: Exit)
    requires Reaches(InTry(here), c, a, By(q)) && q.kind.Throwing? && Reaches(here, Handling(h), q.state, x)
    ensures Reaches(here, Trying(c, h), a, x)
  {
    forall m: Machine | Backs(here, a, m)
      ensures Reached(here, Trying(c, h), m, x)
    {
      assert Backs(InTry(here), a, m);
      assert Reached(InTry(here), c, m, By(q));
      var p: Oracle, e: End :| Runs(c, m, p, e) && Matches(InTry(here), By(q), e);
      assert Backs(here, q.state, e.m);
      assert Reached(here, Handling(h), e.m, x);
      var p': Oracle, e': End :| Runs(Handling(h), e.m, p', e') && Matches(here, x, e');
      RunCaught(c, h, m, p, e, p', e');
    }
  }

  /** What a finalizer makes of an exit y before it, when it comes to z itself. */
  predicate FinishedExit(y: Exit, z: Exit, x: Exit) {
    if z.At? && y.By? then x == By(y.q.(state := z.a)) else x == z
  }

  function FinishedEnd(e: End, z: Exit, e': End): End {
    if z.At? && e.Ending? && e'.Ending? then Ending(e'.m, e.jump, e.waived) else e'
  }

  function ExitState(y: Exit): FlowState
    requires !y.Unsafe?
  {
    if y.At? then y.a else y.q.state
  }

  lemma {:induction false} RunLastly(c: Code, block: seq<Stmt>, m: Machine, p: Oracle, e: End, p': Oracle, z: Exit, e': End)
    requires Runs(c, m, p, e) && e.Ending? && Runs(Scoped(block), e.m, p', e')
    requires z.At? <==> e'.Ending? && e'.jump.Normal?
    ensures Runs(Lastly(c, block), m, p + p', FinishedEnd(e, z, e'))
  {
    forall t: Oracle
      ensures Ends(Lastly(c, block), m, p + p' + t, FinishedEnd(e, z, e'), t)
    {
      assert p + p' + t == p + (p' + t);
      assert Ends(c, m, p + (p' + t), e, p' + t);
      assert Ends(Scoped(block), e.m, p' + t, e', t);
    }
  }

  lemma {:induction false} MatchesFinished(here: Here, y: Exit, e: End, z: Exit, e': End, x: Exit)
    requires !y.Unsafe? && Matches(BeforeFinalizer(here), y, e) && Matches(here, z, e') && FinishedExit(y, z, x)
    ensures Matches(here, x, FinishedEnd(e, z, e')) && (z.At? <==> e'.Ending? && e'.jump.Normal?)
  {
  }

  lemma {:induction false} ReachLastly(here: Here, c: Code, block: seq<Stmt>, a: FlowState, y: Exit, z: Exit, x: Exit)
    requires !y.Unsafe? && Reaches(BeforeFinalizer(here), c, a, y) && Reaches(here, Scoped(block), ExitState(y), z)
    requires FinishedExit(y, z, x)
    ensures Reaches(here, Lastly(c, block), a, x)
  {
    forall m: Machine | Backs(here, a, m)
      ensures Reached(here, Lastly(c, block), m, x)
    {
      assert Backs(BeforeFinalizer(here), a, m);
      assert Reached(BeforeFinalizer(here), c, m, y);
      var p: Oracle, e: End :| Runs(c, m, p, e) && Matches(BeforeFinalizer(here), y, e);
      assert Backs(here, ExitState(y), e.m);
      assert Reached(here, Scoped(block), e.m, z);
      var p': Oracle, e': End :| Runs(Scoped(block), e.m, p', e') && Matches(here, z, e');
      MatchesFinished(here, y, e, z, e', x);
      RunLastly(c, block, m, p, e, p', z, e');
    }
  }

  lemma {:induction false} ReachBeforeLast(here: Here, c: Code, block: seq<Stmt>, a: FlowState)
    requires Reaches(BeforeFinalizer(here), c, a, Unsafe)
    ensures Reaches(here, Lastly(c, block), a, Unsafe)
  {
    forall m: Machine | Backs(here, a, m)
      ensures Reached(here, Lastly(c, block), m, Unsafe)
    {
      assert Backs(BeforeFinalizer(here), a, m);
      assert Reached(BeforeFinalizer(here), c, m, Unsafe);
      var p: Oracle, e: End :| Runs(c, m, p, e) && Matches(BeforeFinalizer(here), Unsafe, e);
      forall t: Oracle
        ensures Ends(Lastly(c, block), m, p + t, e, t)
      {
        assert Ends(c, m, p + t, e, t);
      }
      assert Runs(Lastly(c, block), m, p, e);
    }
  }
}
