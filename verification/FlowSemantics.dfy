/**
 What a catch boundary really does: a big-step interpreter driven by an oracle, which
 settles every choice the program text leaves open (does this expression throw, is
 this branch taken, does the loop go round again).  A run terminates exactly when the
 oracle is long enough.  Completions and label sets follow ECMA-262: sections 14.7.1.1
 (loop continues), 14.12.2 (switch), 14.13.3 (labels) and 14.15.3 (try).
 */
module FlowSemantics {
  import opened Wrappers
  import opened FlowSyntax

  /** What has happened to the caught error so far; nothing here is ever undone. */
  datatype Ledger = Ledger(deferred: bool, captured: bool, forwarded: bool, ownedElsewhere: bool)

  /** `holders` are the names in scope whose value is the caught error itself. */
  datatype Machine = Machine(holders: set<Name>, ledger: Ledger)

  datatype Choice = Choice(throws: bool, original: bool, extra: bool, taken: bool, rebound: set<Name>)

  type Oracle = seq<Choice>

  /** The choice that throws nothing and takes a branch or not. */
  function Pick(taken: bool): Choice { Choice(false, false, false, taken, {}) }

  datatype Jump = Normal | Returned | Thrown(original: bool) | Broke(jump: Option<Name>) | Continued(jump: Option<Name>)

  datatype Step = Done(m: Machine, jump: Jump, waived: bool, rest: Oracle) | Starved

  datatype Evaluated = Value(m: Machine, original: bool, rest: Oracle) | Raised(m: Machine, original: bool, rest: Oracle) | NoChoice

  predicate Settled(l: Ledger) { l.captured || l.forwarded || l.ownedElsewhere }

  predicate Rises(before: Ledger, after: Ledger) {
    (before.deferred ==> after.deferred) && (before.captured ==> after.captured) &&
    (before.forwarded ==> after.forwarded) && (before.ownedElsewhere ==> after.ownedElsewhere)
  }

  /** Two environments agree except possibly on some names. */
  ghost predicate Agree(x: set<Name>, y: set<Name>, except: set<Name>) {
    forall n :: n !in except ==> (n in x <==> n in y)
  }

  ghost predicate Evolves(before: Machine, after: Machine, written: set<Name>) {
    Rises(before.ledger, after.ledger) && Agree(before.holders, after.holders, written)
  }

  // ----- expressions -----------------------------------------------------------

  function Rebind(holders: set<Name>, assigns: set<Name>, d: Choice): set<Name> {
    (holders - assigns) + (assigns * d.rebound)
  }

  function RecordCapture(mode: DeferMode, d: Choice, l: Ledger): Ledger {
    match mode
    case TerminalMode => l.(captured := true)
    case ProvisionalMode => l.(deferred := true)
    case UncertainMode => if d.extra then l.(captured := true) else l.(deferred := true)
  }

  /** A call that is no capture of the caught error, or any other expression. */
  function EvalPlain(throwing: bool, nested: bool, assigns: set<Name>, m: Machine, d: Choice, rest: Oracle): Evaluated {
    var m' := if nested && d.extra then m.(ledger := m.ledger.(captured := true)) else m;
    if throwing && d.throws then Raised(m', d.original, rest)
    else Value(m'.(holders := Rebind(m.holders, assigns, d)), d.original, rest)
  }

  function Eval(e: Expr, m: Machine, o: Oracle): (r: Evaluated)
    ensures !r.NoChoice? ==> |r.rest| < |o| && Evolves(m, r.m, Assigned(e))
    ensures r.Raised? ==> r.m.holders == m.holders
  {
    if o == [] then NoChoice
    else
      var d, rest := o[0], o[1..];
      match e
      case Read(name) => Value(m, name in m.holders, rest)
      case Literal => Value(m, false, rest)
      case FacadeCall(argument, wellFormed, mode, hazard, assigns) =>
        if hazard && d.throws then Raised(m, d.original, rest)
        else if wellFormed && argument.Some? && argument.value in m.holders then
          Value(Machine(Rebind(m.holders, assigns, d), RecordCapture(mode, d, m.ledger)), false, rest)
        else Value(m.(holders := Rebind(m.holders, assigns, d)), false, rest)
      case RuntimeCapture(target, nested, assigns) =>
        if target in m.holders then
          Value(Machine(Rebind(m.holders, assigns, d), m.ledger.(captured := true)), false, rest)
        else EvalPlain(true, nested, assigns, m, d, rest)
      case NextCall(target, nested, assigns) =>
        var m' := if target in m.holders then m.(ledger := m.ledger.(forwarded := true)) else m;
        EvalPlain(true, nested, assigns, m', d, rest)
      case Other(throwing, _, nested, assigns) => EvalPlain(throwing, nested, assigns, m, d, rest)
  }

  function EvalOptional(e: Option<Expr>, m: Machine, o: Oracle): (r: Evaluated)
    ensures !r.NoChoice? ==> |r.rest| <= |o| && Evolves(m, r.m, AssignedOpt(e))
    ensures r.Raised? ==> r.m.holders == m.holders
  {
    if e.Some? then Eval(e.value, m, o) else Value(m, false, o)
  }

  function Assign(holders: set<Name>, name: Name, original: bool): set<Name> {
    if original then holders + {name} else holders - {name}
  }

  function ExecDeclarators(kind: DeclKind, ds: seq<Declarator>, m: Machine, o: Oracle): (r: Step)
    ensures r.Done? ==> |r.rest| <= |o| && Evolves(m, r.m, AssignedByDeclarators(ds)) &&
                        (r.jump.Normal? || r.jump.Thrown?) && !r.waived
  {
    if ds == [] then Done(m, Normal, false, o)
    else
      var v := EvalOptional(ds[0].init, m, o);
      if v.NoChoice? then Starved
      else if v.Raised? then Done(v.m, Thrown(v.original), false, v.rest)
      else if IsUsing(kind) && v.rest == [] then Starved
      else if IsUsing(kind) && v.rest[0].throws then Done(v.m, Thrown(v.rest[0].original), false, v.rest[1..])
      else
        var rest := if IsUsing(kind) then v.rest[1..] else v.rest;
        ExecDeclarators(kind, ds[1..], v.m.(holders := Assign(v.m.holders, ds[0].name, v.original)), rest)
  }

  // ----- scopes ----------------------------------------------------------------

  function Reinstate(inner: set<Name>, outer: set<Name>, names: set<Name>): set<Name> {
    (inner - names) + (outer * names)
  }

  /** Leave a scope: dispose what `using` declared, then the shadowed names reappear. */
  function Leave(r: Step, outer: set<Name>, names: set<Name>, disposes: bool): Step {
    if r.Starved? || (disposes && r.rest == []) then Starved
    else
      var m := r.m.(holders := Reinstate(r.m.holders, outer, names));
      if disposes && r.rest[0].throws then Done(m, Thrown(r.rest[0].original), false, r.rest[1..])
      else if disposes then Done(m, r.jump, r.waived, r.rest[1..])
      else r.(m := m)
  }

  // ----- statements ------------------------------------------------------------

  function Exec(s: Stmt, m: Machine, o: Oracle, labels: seq<Name>): (r: Step)
    ensures r.Done? ==> |r.rest| <= |o| && Evolves(m, r.m, Writes(s))
    ensures r.Done? && LoopDepth(s) > 0 && r.jump.Continued? ==> !Resumes(r.jump, labels)
    decreases |o|, s, 1, 0
  {
    match s
    case Block(body, ownedElsewhere) =>
      if ownedElsewhere && body == [] then Done(m.(ledger := m.ledger.(ownedElsewhere := true)), Normal, false, o)
      else ExecBlock(body, m, o)
    case Expression(e, directive) =>
      if directive then Done(m, Normal, false, o) else Complete(Eval(e, m, o))
    case Declare(kind, ds) => ExecDeclarators(kind, ds, m, o)
    case Return(value, ignored) => ExecReturn(value, ignored, m, o)
    case Throw(e, ignored) => ExecThrow(e, ignored, m, o)
    case If(_, _, _) => ExecIf(s, m, o)
    case Switch(_, _) => ExecSwitch(s, m, o)
    case Try(_, _, _) => ExecTry(s, m, o)
    case For(_, _, _, _) => ExecFor(s, m, o, labels)
    case ForEach(_, _, _) => ExecForEach(s, m, o, labels)
    case While(_, _) => IterateWhile(s, m, o, labels)
    case DoWhile(_, _) => IterateDo(s, m, o, labels)
    case Break(jump, ignored) => Done(m, Broke(jump), ignored, o)
    case Continue(jump, ignored) => Done(m, Continued(jump), ignored, o)
    case Labeled(_, _) => ExecLabeled(s, m, o, labels)
    case Inert => Done(m, Normal, false, o)
  }

  function ExecReturn(value: Option<Expr>, ignored: bool, m: Machine, o: Oracle): (r: Step)
    ensures r.Done? ==> |r.rest| <= |o| && Evolves(m, r.m, AssignedOpt(value))
  {
    var v := EvalOptional(value, m, o);
    if v.NoChoice? then Starved
    else if v.Raised? then Done(v.m, Thrown(v.original), false, v.rest)
    else Done(v.m, Returned, ignored, v.rest)
  }

  function ExecThrow(e: Expr, ignored: bool, m: Machine, o: Oracle): (r: Step)
    ensures r.Done? ==> |r.rest| <= |o| && Evolves(m, r.m, Assigned(e))
  {
    var v := Eval(e, m, o);
    if v.NoChoice? then Starved
    else if v.Raised? then Done(v.m, Thrown(v.original), false, v.rest)
    else Done(v.m, Thrown(v.original), ignored, v.rest)
  }

  function ExecIf(s: Stmt, m: Machine, o: Oracle): (r: Step)
    requires s.If?
    ensures r.Done? ==> |r.rest| <= |o| && Evolves(m, r.m, Writes(s))
    decreases |o|, s, 0, 0
  {
    var v := Eval(s.cond, m, o);
    if !v.Value? then Complete(v)
    else if v.rest == [] then Starved
    else if v.rest[0].taken then Exec(s.whenTrue, v.m, v.rest[1..], [])
    else if s.whenFalse.Some? then Exec(s.whenFalse.value, v.m, v.rest[1..], [])
    else Done(v.m, Normal, false, v.rest[1..])
  }

  /**
   A labelled statement completes normally when its own label is broken to.  Continuing to a
   label of no loop is an early error, so a program that does it has no runs.
   */
  function ExecLabeled(s: Stmt, m: Machine, o: Oracle, labels: seq<Name>): (r: Step)
    requires s.Labeled?
    ensures r.Done? ==> |r.rest| <= |o| && Evolves(m, r.m, Writes(s))
    ensures r.Done? && LoopDepth(s) > 0 && r.jump.Continued? ==> !Resumes(r.jump, labels)
    decreases |o|, s, 0, 0
  {
    var r := Exec(s.labeled, m, o, labels + [s.name]);
    if r.Done? && r.jump == Broke(Some(s.name)) then Done(r.m, Normal, false, r.rest)
    else if r.Done? && r.jump == Continued(Some(s.name)) && LoopDepth(s.labeled) == 0 then Starved
    else r
  }

  function Complete(v: Evaluated): Step {
    match v
    case NoChoice => Starved
    case Raised(m, original, rest) => Done(m, Thrown(original), false, rest)
    case Value(m, _, rest) => Done(m, Normal, false, rest)
  }

  function ExecList(ss: seq<Stmt>, m: Machine, o: Oracle): (r: Step)
    ensures r.Done? ==> |r.rest| <= |o| && Evolves(m, r.m, WritesOf(ss))
    decreases |o|, ss, 2, 0
  {
    if ss == [] then Done(m, Normal, false, o)
    else
      var r := Exec(ss[0], m, o, []);
      if r.Done? && r.jump.Normal? then ExecList(ss[1..], r.m, r.rest) else r
  }

  function ExecBlock(ss: seq<Stmt>, m: Machine, o: Oracle): (r: Step)
    ensures r.Done? ==> |r.rest| <= |o| && Evolves(m, r.m, WritesOf(ss) - LexicalNames(ss))
    decreases |o|, ss, 3, 0
  {
    var names := LexicalNames(ss);
    var inner := m.(holders := m.holders - names);
    Leave(ExecList(ss, inner, o), m.holders, names, Disposes(ss, inner, o))
  }

  /** The run reaches a `using` declaration of the list, so that leaving the block disposes. */
  predicate Disposes(ss: seq<Stmt>, m: Machine, o: Oracle)
    decreases |o|, ss, 2, 0
  {
    ss != [] &&
    ((ss[0].Declare? && IsUsing(ss[0].kind) && ss[0].declarators != []) ||
     var r := Exec(ss[0], m, o, []);
     r.Done? && r.jump.Normal? && Disposes(ss[1..], r.m, r.rest))
  }

  // ----- switch ----------------------------------------------------------------

  /** Where the selectors send control: the position of the clause entered. */
  datatype Selected = Enter(at: nat, em: Machine, erest: Oracle) | Unmatched(um: Machine, urest: Oracle)
                    | SelectorRaised(step: Step)

  function Select(cs: seq<Clause>, m: Machine, o: Oracle): (r: Selected)
    ensures r.Enter? ==> r.at < |cs| && |r.erest| <= |o| && Evolves(m, r.em, WritesOfClauses(cs))
    ensures r.Unmatched? ==> |r.urest| <= |o| && Evolves(m, r.um, WritesOfClauses(cs))
    ensures r.SelectorRaised? && r.step.Done? ==>
              |r.step.rest| <= |o| && Evolves(m, r.step.m, WritesOfClauses(cs)) && r.step.jump.Thrown?
  {
    if cs == [] then Unmatched(m, o)
    else if cs[0].selector.None? then Later(Select(cs[1..], m, o))
    else
      var v := Eval(cs[0].selector.value, m, o);
      if !v.Value? then SelectorRaised(Complete(v))
      else if v.rest == [] then SelectorRaised(Starved)
      else if v.rest[0].taken then Enter(0, v.m, v.rest[1..])
      else Later(Select(cs[1..], v.m, v.rest[1..]))
  }

  function Later(r: Selected): Selected {
    if r.Enter? then r.(at := r.at + 1) else r
  }

  /** The position of the default clause, or past the end. */
  function DefaultAt(cs: seq<Clause>): (k: nat)
    ensures k <= |cs| && (k < |cs| ==> cs[k].selector.None?)
  {
    if cs == [] || cs[0].selector.None? then 0 else 1 + DefaultAt(cs[1..])
  }

  lemma {:induction false} SuffixWrites(cs: seq<Clause>, k: nat)
    requires k <= |cs|
    ensures WritesOfClauses(cs[k..]) <= WritesOfClauses(cs)
  {
    if k > 0 {
      assert cs[k..] == cs[1..][k - 1..];
      SuffixWrites(cs[1..], k - 1);
    }
  }

  function ExecClauses(cs: seq<Clause>, m: Machine, o: Oracle): (r: Step)
    ensures r.Done? ==> |r.rest| <= |o| && Evolves(m, r.m, WritesOfClauses(cs))
    decreases |o|, cs, 0, 0
  {
    if cs == [] then Done(m, Normal, false, o)
    else
      var r := ExecList(cs[0].statements, m, o);
      if r.Starved? then r
      else if r.jump == Broke(None) then Done(r.m, Normal, false, r.rest)
      else if r.jump.Normal? then ExecClauses(cs[1..], r.m, r.rest)
      else r
  }

  function ExecSwitch(s: Stmt, m: Machine, o: Oracle): (r: Step)
    requires s.Switch?
    ensures r.Done? ==> |r.rest| <= |o| && Evolves(m, r.m, Writes(s))
    decreases |o|, s, 0, 0
  {
    var v := Eval(s.discriminant, m, o);
    if !v.Value? then Complete(v) else ExecCaseBlock(s.clauses, v.m, v.rest)
  }

  /** Select a clause, or the default, and run from there. */
  function ExecSelected(cs: seq<Clause>, m: Machine, o: Oracle): (r: Step)
    ensures r.Done? ==> |r.rest| <= |o| && Evolves(m, r.m, WritesOfClauses(cs))
    decreases |o|, cs, 1, 0
  {
    match Select(cs, m, o)
    case SelectorRaised(step) => step
    case Enter(at, em, erest) =>
      SuffixWrites(cs, at);
      ExecClauses(cs[at..], em, erest)
    case Unmatched(um, urest) =>
      SuffixWrites(cs, DefaultAt(cs));
      ExecClauses(cs[DefaultAt(cs)..], um, urest)
  }

  function ExecCaseBlock(cs: seq<Clause>, m: Machine, o: Oracle): (r: Step)
    ensures r.Done? ==> |r.rest| <= |o| && Evolves(m, r.m, WritesOfClauses(cs) - LexicalNames(SwitchStatements(cs)))
    decreases |o|, cs, 2, 0
  {
    var names := LexicalNames(SwitchStatements(cs));
    Leave(ExecSelected(cs, m.(holders := m.holders - names), o), m.holders, names, HasUsing(SwitchStatements(cs)))
  }

  // ----- try -------------------------------------------------------------------

  function ExecHandler(h: Handler, m: Machine, original: bool, o: Oracle): (r: Step)
    ensures r.Done? ==> |r.rest| <= |o| &&
                        Evolves(m, r.m, (WritesOf(h.block) - LexicalNames(h.block)) - ParamNames(h.param))
    decreases |o|, h, 0, 0
  {
    var names := ParamNames(h.param);
    var bound := (m.holders - names) + (if original then names else {});
    Leave(ExecBlock(h.block, m.(holders := bound), o), m.holders, names, false)
  }

  function ExecTry(s: Stmt, m: Machine, o: Oracle): (r: Step)
    requires s.Try?
    ensures r.Done? ==> |r.rest| <= |o| && Evolves(m, r.m, Writes(s))
    decreases |o|, s, 0, 0
  {
    var b := ExecBlock(s.tried, m, o);
    if b.Starved? then b
    else
      var h := if b.jump.Thrown? && s.handler.Some?
               then ExecHandler(s.handler.value, b.m, b.jump.original, b.rest) else b;
      if h.Starved? then h else Finish(s.finalizer, h)
  }

  /** The finalizer runs on every completion, and overrides it unless it completes normally. */
  function Finish(f: Finalizer, h: Step): (r: Step)
    requires h.Done?
    ensures r.Done? ==> |r.rest| <= |h.rest| &&
                        Evolves(h.m, r.m, if f.Finally? then WritesOf(f.block) - LexicalNames(f.block) else {})
    decreases |h.rest|, f, 0, 0
  {
    if f.NoFinalizer? then h
    else
      var r := ExecBlock(f.block, h.m, h.rest);
      if r.Done? && r.jump.Normal? then Done(r.m, h.jump, h.waived, r.rest) else r
  }

  // ----- loops -----------------------------------------------------------------

  /** A continue this loop resumes: unlabelled, or naming one of the loop's own labels. */
  predicate Resumes(jump: Jump, labels: seq<Name>) {
    jump.Normal? || (jump.Continued? && (jump.jump.None? || jump.jump.value in labels))
  }

  function ExecInit(init: ForInit, m: Machine, o: Oracle): (r: Step)
    ensures r.Done? ==> |r.rest| <= |o| && Evolves(m, r.m, AssignedByInit(init)) &&
                        (r.jump.Normal? || r.jump.Thrown?) && !r.waived
  {
    match init
    case NoInit => Done(m, Normal, false, o)
    case InitDeclare(kind, ds) => ExecDeclarators(kind, ds, m, o)
    case InitExpr(e) => Complete(Eval(e, m, o))
  }

  function ExecFor(s: Stmt, m: Machine, o: Oracle, labels: seq<Name>): (r: Step)
    requires s.For?
    ensures r.Done? ==> |r.rest| <= |o| && Evolves(m, r.m, Writes(s))
    ensures r.Done? && r.jump.Continued? ==> !Resumes(r.jump, labels)
    decreases |o|, s, 0, 1
  {
    var names := ScopedByInit(s.init);
    var p := ExecInit(s.init, m, o);
    Leave(if p.Done? && p.jump.Normal? then IterateFor(s, p.m, p.rest, labels) else p, m.holders, names, false)
  }

  function IterateFor(s: Stmt, m: Machine, o: Oracle, labels: seq<Name>): (r: Step)
    requires s.For?
    ensures r.Done? ==> |r.rest| <= |o| &&
                        Evolves(m, r.m, AssignedOpt(s.test) + AssignedOpt(s.update) + Writes(s.loopBody))
    ensures r.Done? && r.jump.Continued? ==> !Resumes(r.jump, labels)
    decreases |o|, s, 0, 0
  {
    if o == [] then Starved
    else
      var t := EvalOptional(s.test, m, o[1..]);
      if !t.Value? then Complete(t)
      else if s.test.Some? && !o[0].taken then Done(t.m, Normal, false, t.rest)
      else
        var b := Exec(s.loopBody, t.m, t.rest, []);
        if b.Starved? then b
        else if b.jump == Broke(None) then Done(b.m, Normal, false, b.rest)
        else if !Resumes(b.jump, labels) then b
        else
          var u := EvalOptional(s.update, b.m, b.rest);
          if !u.Value? then Complete(u) else IterateFor(s, u.m, u.rest, labels)
  }

  function ExecForEach(s: Stmt, m: Machine, o: Oracle, labels: seq<Name>): (r: Step)
    requires s.ForEach?
    ensures r.Done? ==> |r.rest| <= |o| && Evolves(m, r.m, Writes(s))
    ensures r.Done? && r.jump.Continued? ==> !Resumes(r.jump, labels)
    decreases |o|, s, 0, 2
  {
    var v := Eval(s.iterable, m, o);
    if !v.Value? then Complete(v) else IterateEach(s, v.m, v.rest, labels)
  }

  /** One round of a for-in or for-of loop: bind the loop variable, run the body, leave its scope. */
  function EachRound(s: Stmt, m: Machine, original: bool, o: Oracle): (r: Step)
    requires s.ForEach?
    ensures r.Done? ==> |r.rest| <= |o| && Evolves(m, r.m, Writes(s))
    decreases |o|, s, 0, 0
  {
    var name := s.binding.name;
    var inner := Exec(s.loopBody, m.(holders := Assign(m.holders, name, original)), o, []);
    if s.binding.DeclareEach? && s.binding.scoped then Leave(inner, m.holders, {name}, false) else inner
  }

  /** Rounds until the iterator fails or is done; leaving early closes it, which may fail too. */
  function IterateEach(s: Stmt, m: Machine, o: Oracle, labels: seq<Name>): (r: Step)
    requires s.ForEach?
    ensures r.Done? ==> |r.rest| <= |o| && Evolves(m, r.m, Writes(s))
    ensures r.Done? && r.jump.Continued? ==> !Resumes(r.jump, labels)
    decreases |o|, s, 0, 1
  {
    if o == [] then Starved
    else if o[0].throws then Done(m, Thrown(o[0].original), false, o[1..])
    else if !o[0].taken then Done(m, Normal, false, o[1..])
    else
      var b := EachRound(s, m, o[0].original, o[1..]);
      if b.Starved? then b
      else if Resumes(b.jump, labels) then IterateEach(s, b.m, b.rest, labels)
      else if b.jump.Thrown? then b
      else if b.rest == [] then Starved
      else if b.rest[0].throws then Done(b.m, Thrown(b.rest[0].original), false, b.rest[1..])
      else if b.jump == Broke(None) then Done(b.m, Normal, false, b.rest[1..])
      else b.(rest := b.rest[1..])
  }

  function IterateWhile(s: Stmt, m: Machine, o: Oracle, labels: seq<Name>): (r: Step)
    requires s.While?
    ensures r.Done? ==> |r.rest| <= |o| && Evolves(m, r.m, Writes(s))
    ensures r.Done? && r.jump.Continued? ==> !Resumes(r.jump, labels)
    decreases |o|, s, 0, 0
  {
    var t := Eval(s.cond, m, o);
    if !t.Value? then Complete(t)
    else if t.rest == [] then Starved
    else if !t.rest[0].taken then Done(t.m, Normal, false, t.rest[1..])
    else
      var b := Exec(s.loopBody, t.m, t.rest[1..], []);
      if b.Starved? then b
      else if b.jump == Broke(None) then Done(b.m, Normal, false, b.rest)
      else if !Resumes(b.jump, labels) then b
      else IterateWhile(s, b.m, b.rest, labels)
  }

  function IterateDo(s: Stmt, m: Machine, o: Oracle, labels: seq<Name>): (r: Step)
    requires s.DoWhile?
    ensures r.Done? ==> |r.rest| <= |o| && Evolves(m, r.m, Writes(s))
    ensures r.Done? && r.jump.Continued? ==> !Resumes(r.jump, labels)
    decreases |o|, s, 0, 0
  {
    var b := Exec(s.loopBody, m, o, []);
    if b.Starved? then b
    else if b.jump == Broke(None) then Done(b.m, Normal, false, b.rest)
    else if !Resumes(b.jump, labels) then b
    else
      var t := Eval(s.cond, b.m, b.rest);
      if !t.Value? then Complete(t)
      else if t.rest == [] then Starved
      else if !t.rest[0].taken then Done(t.m, Normal, false, t.rest[1..])
      else IterateDo(s, t.m, t.rest[1..], labels)
  }

  // ----- boundaries ------------------------------------------------------------

  /** A run of a boundary, and whether the return it ends with hands the deferred error to the caller. */
  datatype Ended = Ended(step: Step, handedOff: bool)

  /** A return while the error is deferred, or a throw that evaluating it raises. */
  predicate HandsOff(s: Stmt, m: Machine, o: Oracle) {
    s.Return? &&
    var v := EvalOptional(s.value, m, o);
    (v.Raised? && m.ledger.deferred) || (v.Value? && v.m.ledger.deferred)
  }

  /** The list ends with one of its own statements handing the error off. */
  predicate ListHandsOff(ss: seq<Stmt>, m: Machine, o: Oracle) {
    ss != [] &&
    var r := Exec(ss[0], m, o, []);
    if r.Done? && r.jump.Normal? then ListHandsOff(ss[1..], r.m, r.rest) else HandsOff(ss[0], m, o)
  }

  /** The boundary's own block: a failing disposal replaces the return, and with it the hand-off. */
  function ExecBody(ss: seq<Stmt>, m: Machine, o: Oracle): Ended {
    var inner := m.(holders := m.holders - LexicalNames(ss));
    var r := ExecList(ss, inner, o);
    Ended(ExecBlock(ss, m, o),
          ListHandsOff(ss, inner, o) && !(Disposes(ss, inner, o) && r.Done? && r.rest != [] && r.rest[0].throws))
  }

  /** So does a finalizer that completes abruptly. */
  function FinishBody(f: Finalizer, e: Ended): Ended
    requires e.step.Done?
  {
    Ended(Finish(f, e.step),
          e.handedOff && (f.Finally? ==> var r := ExecBlock(f.block, e.step.m, e.step.rest); r.Done? && r.jump.Normal?))
  }

  /** A newly caught error; `outer` are names outside that already hold it. */
  function Caught(b: Boundary, outer: set<Name>): Machine {
    Machine(outer + ParamNames(b.binding), Ledger(false, false, false, false))
  }

  function RunBoundary(b: Boundary, outer: set<Name>, o: Oracle): Ended {
    var start := Caught(b, outer);
    match b
    case ExpressionBody(_, e) => Ended(Complete(Eval(e, start, o)), false)
    case CatchBlock(_, body, ownedElsewhere, f) =>
      if ownedElsewhere && body == [] then
        FinishBody(f, Ended(Done(Machine(outer, start.ledger.(ownedElsewhere := true)), Normal, false, o), false))
      else
        var r := ExecBody(body, start, o);
        var left := Leave(r.step, outer, ParamNames(b.binding), false);
        if left.Starved? then Ended(left, false) else FinishBody(f, Ended(left, r.handedOff))
  }

  /** Captured, forwarded, waived, or rethrown by identity. */
  predicate Excused(r: Step)
    requires r.Done?
  {
    Settled(r.m.ledger) || r.waived || (r.jump.Thrown? && r.jump.original)
  }

  /** How a run may legitimately end. */
  predicate Evidenced(e: Ended)
    requires e.step.Done?
  {
    e.handedOff || Excused(e.step)
  }

  /** The body handed the error off, and a disposal or the finalizer threw that return away. */
  predicate Discards(b: Boundary, outer: set<Name>, o: Oracle) {
    b.CatchBlock? && !(b.ownedElsewhere && b.body == []) &&
    (var m := Caught(b, outer); ListHandsOff(b.body, m.(holders := m.holders - LexicalNames(b.body)), o)) &&
    !RunBoundary(b, outer, o).handedOff
  }
}
