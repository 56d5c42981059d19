/**
 The abstract interpreter of the coverage scan: from a flow state it computes every
 abstract state in which a statement may complete, every abrupt completion, and
 whether an unprotected handling effect was seen.  Enclosing jump targets are the
 frames of `ctx`; a node is identified by its position in that chain of ancestors.
 */
module FlowAnalysis {
  import opened Wrappers
  import opened FlowSyntax

  datatype Protection = Unprotected | Provisional | Uncertain | Generic | Exact | Owned

  datatype FlowState = FlowState(aliases: set<Name>, protection: Protection, terminalized: bool)

  datatype Kind = Returning | Throwing | Breaking | Continuing

  datatype Abrupt = Abrupt(kind: Kind, state: FlowState, target: Option<nat>, exactOriginal: bool,
                           waived: bool, ignoreTarget: bool)

  datatype Outcome = Outcome(states: seq<FlowState>, abrupt: seq<Abrupt>, unsafe: bool)

  datatype Frame = LoopFrame | SwitchFrame | LabelFrame(name: Name, hops: nat)

  datatype Capture = Capture(state: FlowState, hazard: bool)

  predicate MayNeedTerminal(p: Protection) { p.Unprotected? || p.Provisional? || p.Uncertain? }

  predicate IsTerminal(p: Protection) { p.Generic? || p.Exact? || p.Owned? }

  // ----- jump targets ----------------------------------------------------------

  /** The position of the innermost frame a break leaves. */
  function BreakTarget(jump: Option<Name>, ctx: seq<Frame>): (r: Option<nat>)
    ensures r.Some? ==> r.value < |ctx|
  {
    if ctx == [] then None
    else
      var n := |ctx| - 1;
      if (if jump.None? then ctx[n].LoopFrame? || ctx[n].SwitchFrame?
          else ctx[n].LabelFrame? && ctx[n].name == jump.value)
      then Some(n) else BreakTarget(jump, ctx[..n])
  }

  /** The position of the frame a continue resumes: a label stands for the loop it labels. */
  function ContinueTarget(jump: Option<Name>, ctx: seq<Frame>): Option<nat> {
    if ctx == [] then None
    else
      var n := |ctx| - 1;
      if jump.None? && ctx[n].LoopFrame? then Some(n)
      else if jump.Some? && ctx[n].LabelFrame? && ctx[n].name == jump.value then Some(n + ctx[n].hops)
      else ContinueTarget(jump, ctx[..n])
  }

  // ----- expressions -----------------------------------------------------------

  function CaptureMode(mode: DeferMode, p: Protection): Protection {
    match mode
    case ProvisionalMode => if p.Unprotected? then Provisional else p
    case UncertainMode => if p.Unprotected? || p.Provisional? then Uncertain else p
    case TerminalMode => if MayNeedTerminal(p) then Generic else p
  }

  function CaptureProtection(e: Expr, a: FlowState): Option<Capture> {
    match e
    case FacadeCall(argument, wellFormed, mode, hazard, assigns) =>
      var after := a.(aliases := a.aliases - assigns);
      if wellFormed && argument.Some? && argument.value in a.aliases then
        Some(Capture(after.(
            protection := CaptureMode(mode, a.protection),
            terminalized := a.terminalized ||
              ((a.protection.Unprotected? || a.protection.Provisional?) && !mode.ProvisionalMode?)), hazard))
      else Some(Capture(after, hazard))
    case RuntimeCapture(target, _, assigns) =>
      if target in a.aliases then
        Some(Capture(FlowState(a.aliases - assigns,
                               if MayNeedTerminal(a.protection) then Generic else a.protection,
                               a.terminalized || a.protection.Unprotected? || a.protection.Provisional?), false))
      else None
    case _ => None
  }

  predicate MayThrow(e: Expr) { e.RuntimeCapture? || e.NextCall? || (e.Other? && e.throwing) || e.FacadeCall? }

  predicate HasEffect(e: Expr) { e.RuntimeCapture? || e.NextCall? || (e.Other? && e.effectful) || e.FacadeCall? }

  predicate NestedTerminalizes(e: Expr, a: FlowState) {
    (a.protection.Provisional? || a.protection.Uncertain?) &&
    ((e.Other? && e.nested) || (e.RuntimeCapture? && e.nested) || (e.NextCall? && e.nested))
  }

  predicate IsAlias(e: Expr, a: FlowState) { e.Read? && e.name in a.aliases }

  function ThrowFrom(a: FlowState): Abrupt { Abrupt(Throwing, a, None, false, false, false) }

  function AnalyzeExpr(e: Expr, a: FlowState): (r: Outcome)
    ensures forall q :: q in r.abrupt ==> !q.ignoreTarget && q.kind.Throwing?
  {
    var capture := CaptureProtection(e, a);
    if capture.Some? then
      Outcome([capture.value.state], if capture.value.hazard then [ThrowFrom(a)] else [],
              capture.value.hazard && a.protection.Unprotected?)
    else if e.NextCall? && e.target in a.aliases then
      Outcome([], [Abrupt(Throwing, a, None, true, false, false)], false)
    else
      var nested := NestedTerminalizes(e, a);
      var keeps := nested || e.Read? || e.Literal?;
      var terminalized := (a.terminalized || nested) && (IsAlias(e, a) || keeps);
      Outcome([a.(aliases := a.aliases - Assigned(e), terminalized := terminalized)],
              if MayThrow(e) then [ThrowFrom(a)] else [],
              a.protection.Unprotected? && HasEffect(e))
  }

  function Join(x: Outcome, y: Outcome): Outcome {
    Outcome(x.states + y.states, x.abrupt + y.abrupt, x.unsafe || y.unsafe)
  }

  const Nothing := Outcome([], [], false)

  function AnalyzeExprs(e: Expr, states: seq<FlowState>): (r: Outcome)
    ensures forall q :: q in r.abrupt ==> !q.ignoreTarget && q.kind.Throwing?
  {
    if states == [] then Nothing else Join(AnalyzeExpr(e, states[0]), AnalyzeExprs(e, states[1..]))
  }

  function AnalyzeOptional(e: Option<Expr>, states: seq<FlowState>): (r: Outcome)
    ensures forall q :: q in r.abrupt ==> !q.ignoreTarget && q.kind.Throwing?
  {
    if e.Some? then AnalyzeExprs(e.value, states) else Outcome(states, [], false)
  }

  function ThrowsFrom(states: seq<FlowState>): (r: seq<Abrupt>)
    ensures forall a :: a in states ==> ThrowFrom(a) in r
  {
    if states == [] then [] else [ThrowFrom(states[0])] + ThrowsFrom(states[1..])
  }

  // ----- declarations ----------------------------------------------------------

  function Bind(kind: DeclKind, d: Declarator, before: FlowState, after: FlowState): FlowState {
    var dropped := after.aliases - {d.name};
    after.(aliases := if IsImmutable(kind) && d.init.Some? && IsAlias(d.init.value, before)
                      then dropped + {d.name} else dropped)
  }

  function BindAll(kind: DeclKind, d: Declarator, before: FlowState, afters: seq<FlowState>): (r: seq<FlowState>)
    ensures forall a :: a in afters ==> Bind(kind, d, before, a) in r
  {
    if afters == [] then [] else [Bind(kind, d, before, afters[0])] + BindAll(kind, d, before, afters[1..])
  }

  function AnalyzeDeclarator(kind: DeclKind, d: Declarator, a: FlowState): Outcome {
    var initialized := AnalyzeOptional(d.init, [a]);
    Outcome(BindAll(kind, d, a, initialized.states),
            initialized.abrupt + (if IsUsing(kind) then ThrowsFrom(initialized.states) else []),
            initialized.unsafe)
  }

  function AnalyzeDeclaratorEach(kind: DeclKind, d: Declarator, states: seq<FlowState>): Outcome {
    if states == [] then Nothing
    else Join(AnalyzeDeclarator(kind, d, states[0]), AnalyzeDeclaratorEach(kind, d, states[1..]))
  }

  function AnalyzeDeclarators(kind: DeclKind, ds: seq<Declarator>, states: seq<FlowState>): Outcome {
    if ds == [] then Outcome(states, [], false)
    else Then(AnalyzeDeclaratorEach(kind, ds[0], states),
              AnalyzeDeclarators(kind, ds[1..], AnalyzeDeclaratorEach(kind, ds[0], states).states))
  }

  /** Sequencing: the second outcome was computed from the states of the first. */
  function Then(first: Outcome, second: Outcome): Outcome {
    Outcome(second.states, first.abrupt + second.abrupt, first.unsafe || second.unsafe)
  }

  // ----- scopes ----------------------------------------------------------------

  function Restore(exit: FlowState, outer: FlowState, names: set<Name>): FlowState {
    exit.(aliases := (exit.aliases - names) + (outer.aliases * names))
  }

  function RestoreStates(states: seq<FlowState>, outer: FlowState, names: set<Name>): (r: seq<FlowState>)
    ensures forall a :: a in states ==> Restore(a, outer, names) in r
  {
    if states == [] then [] else [Restore(states[0], outer, names)] + RestoreStates(states[1..], outer, names)
  }

  function RestoreAbrupt(qs: seq<Abrupt>, outer: FlowState, names: set<Name>): (r: seq<Abrupt>)
    ensures forall q :: q in qs ==> q.(state := Restore(q.state, outer, names)) in r
  {
    if qs == [] then []
    else [qs[0].(state := Restore(qs[0].state, outer, names))] + RestoreAbrupt(qs[1..], outer, names)
  }

  function StatesOf(qs: seq<Abrupt>): (r: seq<FlowState>)
    ensures forall q :: q in qs ==> q.state in r
  {
    if qs == [] then [] else [qs[0].state] + StatesOf(qs[1..])
  }

  /** Leave a block scope: disposal may throw from any exit, and shadowed names come back. */
  function LeaveScope(o: Outcome, outer: FlowState, names: set<Name>, disposes: bool): Outcome {
    var thrown := if disposes then ThrowsFrom(o.states + StatesOf(o.abrupt)) else [];
    Outcome(RestoreStates(o.states, outer, names), RestoreAbrupt(o.abrupt + thrown, outer, names), o.unsafe)
  }

  // ----- completions -----------------------------------------------------------

  predicate Leaves(q: Abrupt, kind: Kind, target: nat) { q.kind == kind && q.target == Some(target) }

  /** The states of the completions of one kind aimed at a target. */
  function Landing(qs: seq<Abrupt>, kind: Kind, target: nat): (r: seq<FlowState>)
    ensures forall q :: q in qs && Leaves(q, kind, target) ==> q.state in r
  {
    if qs == [] then []
    else (if Leaves(qs[0], kind, target) then [qs[0].state] else []) + Landing(qs[1..], kind, target)
  }

  /** The completions that pass through a loop (or, without `continues`, a switch or label). */
  function Passing(qs: seq<Abrupt>, target: nat, continues: bool): (r: seq<Abrupt>)
    ensures forall q :: q in qs && !Leaves(q, Breaking, target) && !(continues && Leaves(q, Continuing, target))
                        ==> q in r
  {
    if qs == [] then []
    else (if Leaves(qs[0], Breaking, target) || (continues && Leaves(qs[0], Continuing, target)) then [] else [qs[0]]) +
         Passing(qs[1..], target, continues)
  }

  function Waive(q: Abrupt): Abrupt { if q.ignoreTarget then q.(waived := true) else q }

  function WaiveAll(qs: seq<Abrupt>): (r: seq<Abrupt>)
    ensures forall q :: q in qs ==> Waive(q) in r
  {
    if qs == [] then [] else [Waive(qs[0])] + WaiveAll(qs[1..])
  }

  predicate HasIgnore(s: Stmt) {
    (s.Return? || s.Throw? || s.Break? || s.Continue?) && s.ignored
  }

  /** An ignore comment in front of a statement waives that statement's own completion. */
  function Honour(s: Stmt, o: Outcome): Outcome {
    if HasIgnore(s) then o.(abrupt := WaiveAll(o.abrupt)) else o
  }

  function OwnReturn(a: FlowState, direct: bool): FlowState {
    if direct && a.protection.Provisional? then a.(protection := Owned) else a
  }

  function Returns(states: seq<FlowState>, direct: bool): (r: seq<Abrupt>)
    ensures forall a :: a in states ==> Abrupt(Returning, OwnReturn(a, direct), None, false, false, true) in r
  {
    if states == [] then []
    else [Abrupt(Returning, OwnReturn(states[0], direct), None, false, false, true)] + Returns(states[1..], direct)
  }

  function Exacts(qs: seq<Abrupt>): (r: seq<Abrupt>)
    ensures forall q :: q in qs && q.exactOriginal ==> q in r
  {
    if qs == [] then [] else (if qs[0].exactOriginal then [qs[0]] else []) + Exacts(qs[1..])
  }

  function Throws(states: seq<FlowState>, exact: bool): (r: seq<Abrupt>)
    ensures forall a :: a in states ==> Abrupt(Throwing, a, None, exact, false, true) in r
  {
    if states == [] then [] else [Abrupt(Throwing, states[0], None, exact, false, true)] + Throws(states[1..], exact)
  }

  function DropName(states: seq<FlowState>, name: Name): (r: seq<FlowState>)
    ensures forall a :: a in states ==> a.(aliases := a.aliases - {name}) in r
  {
    if states == [] then []
    else [states[0].(aliases := states[0].aliases - {name})] + DropName(states[1..], name)
  }

  predicate NeedsEvidence(states: seq<FlowState>) {
    exists a :: a in states && MayNeedTerminal(a.protection)
  }

  // ----- statements ------------------------------------------------------------

  function AnalyzeStmt(s: Stmt, a: FlowState, ctx: seq<Frame>, direct: bool): Outcome
    decreases s, 1, 0
  {
    match s
    case Block(body, ownedElsewhere) =>
      if ownedElsewhere && body == [] then Outcome([a.(protection := Owned)], [], false)
      else AnalyzeBlock(body, a, ctx, false)
    case Expression(e, directive) =>
      if directive then Outcome([a], [], false)
      else
        var o := AnalyzeExpr(e, a);
        o.(unsafe := o.unsafe || (CaptureProtection(e, a).None? && a.protection.Unprotected?))
    case Declare(kind, ds) => AnalyzeDeclarators(kind, ds, [a])
    case Return(value, _) =>
      var o := AnalyzeOptional(value, [a]);
      Outcome([], (if direct && a.protection.Provisional? then Exacts(o.abrupt) else o.abrupt) +
                  Returns(o.states, direct), o.unsafe)
    case Throw(e, _) =>
      var o := AnalyzeExpr(e, a);
      Outcome([], o.abrupt + Throws(o.states, IsAlias(e, a)), o.unsafe)
    case If(e, t, f) =>
      var o := AnalyzeExpr(e, a);
      Then(o, Join(AnalyzeEach(t, o.states, ctx, false),
                   if f.Some? then AnalyzeEach(f.value, o.states, ctx, false) else Outcome(o.states, [], false)))
    case Switch(e, cs) =>
      var o := AnalyzeExpr(e, a);
      Then(o, AnalyzeSwitch(cs, o.states, ctx))
    case Try(_, _, _) => AnalyzeTry(s, a, ctx)
    case For(_, _, _, _) => AnalyzeFor(s, a, ctx)
    case ForEach(_, _, _) => AnalyzeForEach(s, a, ctx)
    case While(_, _) => AnalyzeWhile(s, a, ctx)
    case DoWhile(_, _) => AnalyzeDoWhile(s, a, ctx)
    case Break(jump, _) => Outcome([], [Abrupt(Breaking, a, BreakTarget(jump, ctx), false, false, true)], false)
    case Continue(jump, _) => Outcome([], [Abrupt(Continuing, a, ContinueTarget(jump, ctx), false, false, true)], false)
    case Labeled(name, b) =>
      var o := AnalyzeStmt(b, a, ctx + [LabelFrame(name, LoopDepth(b))], false);
      Outcome(o.states + Landing(o.abrupt, Breaking, |ctx|), Passing(o.abrupt, |ctx|, false), o.unsafe)
    case Inert => Outcome([a], [], false)
  }

  /** One statement of a list, from every state, with its ignore comment honoured. */
  function AnalyzeEach(s: Stmt, states: seq<FlowState>, ctx: seq<Frame>, direct: bool): Outcome
    decreases s, 2, |states|
  {
    if states == [] then Nothing
    else
      var o := AnalyzeStmt(s, states[0], ctx, direct);
      Join(Honour(s, o), AnalyzeEach(s, states[1..], ctx, direct))
  }

  function AnalyzeList(ss: seq<Stmt>, states: seq<FlowState>, ctx: seq<Frame>, direct: bool): Outcome
    decreases ss, 3, 0
  {
    if ss == [] then Outcome(states, [], false)
    else
      var first := AnalyzeEach(ss[0], states, ctx, direct);
      Then(first, AnalyzeList(ss[1..], first.states, ctx, direct))
  }

  function AnalyzeBlock(ss: seq<Stmt>, a: FlowState, ctx: seq<Frame>, direct: bool): Outcome
    decreases ss, 4, 0
  {
    var names := LexicalNames(ss);
    LeaveScope(AnalyzeList(ss, [a.(aliases := a.aliases - names)], ctx, direct), a, names, HasUsing(ss))
  }

  // ----- switch ----------------------------------------------------------------

  /** Selectors run in order; entry i is where clause i is entered when its selector matches. */
  function AnalyzeSelectors(cs: seq<Clause>, unmatched: seq<FlowState>): (r: (seq<seq<FlowState>>, Outcome))
    ensures |r.0| == |cs|
    ensures forall k :: 0 <= k < |cs| && cs[k].selector.None? ==> r.0[k] == r.1.states
  {
    if cs == [] then ([], Outcome(unmatched, [], false))
    else if cs[0].selector.None? then
      var (entries, o) := AnalyzeSelectors(cs[1..], unmatched);
      ([o.states] + entries, o)
    else
      var first := AnalyzeExprs(cs[0].selector.value, unmatched);
      var (entries, o) := AnalyzeSelectors(cs[1..], first.states);
      ([first.states] + entries, Then(first, o))
  }

  /** Fall through from the first of these clauses until a break or the end. */
  function AnalyzeFallthrough(cs: seq<Clause>, active: seq<FlowState>, ctx: seq<Frame>): Outcome
    decreases cs, 0, 0
  {
    if cs == [] || active == [] then Outcome(active, [], false)
    else
      var o := AnalyzeList(cs[0].statements, active, ctx + [SwitchFrame], false);
      var rest := AnalyzeFallthrough(cs[1..], o.states, ctx);
      Outcome(Landing(o.abrupt, Breaking, |ctx|) + rest.states,
              Passing(o.abrupt, |ctx|, false) + rest.abrupt, o.unsafe || rest.unsafe)
  }

  function AnalyzeStarts(cs: seq<Clause>, entries: seq<seq<FlowState>>, ctx: seq<Frame>): Outcome
    requires |entries| == |cs|
    decreases cs, 1, 0
  {
    if cs == [] then Nothing
    else Join(AnalyzeFallthrough(cs, entries[0], ctx), AnalyzeStarts(cs[1..], entries[1..], ctx))
  }

  predicate HasDefault(cs: seq<Clause>) {
    exists c :: c in cs && c.selector.None?
  }

  function AnalyzeClauses(cs: seq<Clause>, a: FlowState, ctx: seq<Frame>): Outcome
    decreases cs, 2, 0
  {
    var (entries, o) := AnalyzeSelectors(cs, [a]);
    var started := AnalyzeStarts(cs, entries, ctx);
    Outcome(started.states + (if HasDefault(cs) then [] else o.states), o.abrupt + started.abrupt,
            o.unsafe || started.unsafe)
  }

  function AnalyzeSwitch(cs: seq<Clause>, states: seq<FlowState>, ctx: seq<Frame>): Outcome
    decreases cs, 3, |states|
  {
    if states == [] then Nothing
    else
      var names := LexicalNames(SwitchStatements(cs));
      var outer := states[0];
      Join(LeaveScope(AnalyzeClauses(cs, outer.(aliases := outer.aliases - names), ctx), outer, names,
                      HasUsing(SwitchStatements(cs))),
           AnalyzeSwitch(cs, states[1..], ctx))
  }

  // ----- try -------------------------------------------------------------------

  /** The handler's outcomes for every throw; other completions pass by. */
  function AnalyzeHandler(h: Handler, qs: seq<Abrupt>, ctx: seq<Frame>): Outcome
    decreases h, 1, |qs|
  {
    if qs == [] then Nothing
    else if !qs[0].kind.Throwing? then
      var rest := AnalyzeHandler(h, qs[1..], ctx);
      rest.(abrupt := [qs[0]] + rest.abrupt)
    else
      var outer := qs[0].state;
      var names := ParamNames(h.param);
      var o := AnalyzeBlock(h.block, outer.(aliases := outer.aliases - names), ctx, false);
      Join(LeaveScope(o, outer, names, false), AnalyzeHandler(h, qs[1..], ctx))
  }

  function FinishStates(block: seq<Stmt>, states: seq<FlowState>, ctx: seq<Frame>): Outcome
    decreases block, 5, |states|
  {
    if states == [] then Nothing
    else Join(AnalyzeBlock(block, states[0], ctx, false), FinishStates(block, states[1..], ctx))
  }

  /** A completion resumed from each state in which the finalizer completes normally. */
  function Resumed(q: Abrupt, states: seq<FlowState>): (r: seq<Abrupt>)
    ensures forall a :: a in states ==> q.(state := a) in r
  {
    if states == [] then [] else [q.(state := states[0])] + Resumed(q, states[1..])
  }

  function FinishAbrupt(block: seq<Stmt>, qs: seq<Abrupt>, ctx: seq<Frame>): Outcome
    decreases block, 5, |qs|
  {
    if qs == [] then Nothing
    else
      var o := AnalyzeBlock(block, qs[0].state, ctx, false);
      Join(Outcome([], o.abrupt + Resumed(qs[0], o.states), o.unsafe), FinishAbrupt(block, qs[1..], ctx))
  }

  function ApplyFinalizer(f: Finalizer, o: Outcome, ctx: seq<Frame>): Outcome
    decreases f, 6, 0
  {
    if f.NoFinalizer? then Outcome(o.states, o.abrupt, false)
    else Join(FinishStates(f.block, o.states, ctx), FinishAbrupt(f.block, o.abrupt, ctx))
  }

  function AnalyzeTry(s: Stmt, a: FlowState, ctx: seq<Frame>): Outcome
    requires s.Try?
    decreases s, 0, 0
  {
    var tried := AnalyzeBlock(s.tried, a, ctx, false);
    var handled := if s.handler.Some? then
                     var caught := AnalyzeHandler(s.handler.value, tried.abrupt, ctx);
                     Outcome(tried.states + caught.states, caught.abrupt, caught.unsafe)
                   else tried;
    var finished := ApplyFinalizer(s.finalizer, handled, ctx);
    finished.(unsafe := handled.unsafe || finished.unsafe)
  }

  // ----- loops: the body is analysed once --------------------------------------

  function AnalyzeInit(init: ForInit, a: FlowState): Outcome {
    match init
    case NoInit => Outcome([a], [], false)
    case InitDeclare(kind, ds) => AnalyzeDeclarators(kind, ds, [a])
    case InitExpr(e) => AnalyzeExpr(e, a)
  }

  function AnalyzeFor(s: Stmt, a: FlowState, ctx: seq<Frame>): Outcome
    requires s.For?
    decreases s, 0, 0
  {
    var prepared := AnalyzeInit(s.init, a);
    var tested := AnalyzeOptional(s.test, prepared.states);
    var body := AnalyzeEach(s.loopBody, tested.states, ctx + [LoopFrame], false);
    var again := body.states + Landing(body.abrupt, Continuing, |ctx|);
    var updated := AnalyzeOptional(s.update, again);
    var retested := AnalyzeOptional(s.test, updated.states);
    Outcome((if s.test.Some? then tested.states else []) + Landing(body.abrupt, Breaking, |ctx|) +
            (if s.test.Some? then retested.states else []),
            prepared.abrupt + tested.abrupt + Passing(body.abrupt, |ctx|, true) + updated.abrupt + retested.abrupt,
            prepared.unsafe || tested.unsafe || body.unsafe || updated.unsafe || retested.unsafe ||
            (s.test.None? && NeedsEvidence(again)))
  }

  function AnalyzeForEach(s: Stmt, a: FlowState, ctx: seq<Frame>): Outcome
    requires s.ForEach?
    decreases s, 0, 0
  {
    var iterable := AnalyzeExpr(s.iterable, a);
    var bound := DropName(iterable.states, s.binding.name);
    var body := AnalyzeEach(s.loopBody, bound, ctx + [LoopFrame], false);
    Outcome(iterable.states + Landing(body.abrupt, Breaking, |ctx|) + body.states +
            Landing(body.abrupt, Continuing, |ctx|),
            iterable.abrupt + ThrowsFrom(iterable.states) + Passing(body.abrupt, |ctx|, true),
            iterable.unsafe || body.unsafe)
  }

  function AnalyzeWhile(s: Stmt, a: FlowState, ctx: seq<Frame>): Outcome
    requires s.While?
    decreases s, 0, 0
  {
    var tested := AnalyzeExpr(s.cond, a);
    var body := AnalyzeEach(s.loopBody, tested.states, ctx + [LoopFrame], false);
    var retested := AnalyzeExprs(s.cond, body.states + Landing(body.abrupt, Continuing, |ctx|));
    Outcome(tested.states + Landing(body.abrupt, Breaking, |ctx|) + retested.states,
            tested.abrupt + Passing(body.abrupt, |ctx|, true) + retested.abrupt,
            tested.unsafe || body.unsafe || retested.unsafe)
  }

  function AnalyzeDoWhile(s: Stmt, a: FlowState, ctx: seq<Frame>): Outcome
    requires s.DoWhile?
    decreases s, 0, 0
  {
    var body := AnalyzeStmt(s.loopBody, a, ctx + [LoopFrame], false);
    var tested := AnalyzeExprs(s.cond, body.states + Landing(body.abrupt, Continuing, |ctx|));
    Outcome(Landing(body.abrupt, Breaking, |ctx|) + tested.states,
            Passing(body.abrupt, |ctx|, true) + tested.abrupt, body.unsafe || tested.unsafe)
  }

  // ----- the verdict on a boundary ---------------------------------------------

  predicate CompletionHasEvidence(q: Abrupt) {
    !(q.kind.Throwing? && q.exactOriginal && (q.state.protection.Uncertain? || q.state.terminalized)) &&
    (q.waived || IsTerminal(q.state.protection) || (q.kind.Throwing? && q.exactOriginal))
  }

  predicate Accepts(o: Outcome) {
    !o.unsafe &&
    (forall q :: q in o.abrupt ==> CompletionHasEvidence(q)) &&
    (forall a :: a in o.states ==> IsTerminal(a.protection))
  }

  function WithoutName(o: Outcome, binding: Option<Name>): Outcome {
    if binding.None? then o
    else Outcome(DropName(o.states, binding.value), DropNameAbrupt(o.abrupt, binding.value), o.unsafe)
  }

  function DropNameAbrupt(qs: seq<Abrupt>, name: Name): (r: seq<Abrupt>)
    ensures forall q :: q in qs ==> q.(state := q.state.(aliases := q.state.aliases - {name})) in r
  {
    if qs == [] then []
    else [qs[0].(state := qs[0].state.(aliases := qs[0].state.aliases - {name}))] + DropNameAbrupt(qs[1..], name)
  }

  function AnalyzeBoundary(b: Boundary, outer: seq<Frame>): Outcome {
    var a := FlowState(ParamNames(b.binding), Unprotected, false);
    match b
    case ExpressionBody(_, e) => AnalyzeExpr(e, a)
    case CatchBlock(_, body, _, f) =>
      var o := AnalyzeBlock(body, a, outer, true);
      if f.NoFinalizer? then o
      else
        var finished := ApplyFinalizer(f, WithoutName(o, b.binding), outer);
        finished.(unsafe := o.unsafe || finished.unsafe)
  }

  predicate BoundaryHasEvidence(b: Boundary, outer: seq<Frame>) {
    (b.CatchBlock? && b.ownedElsewhere && b.body == []) || Accepts(AnalyzeBoundary(b, outer))
  }
}
