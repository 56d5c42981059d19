/**
 The statement language the error-telemetry coverage scan looks at.  An expression
 carries exactly what the scan reads off it: which call form it is, which names it
 assigns, and whether evaluating it may throw, has a handling effect, or may run a
 nested capture.
 */
module FlowSyntax {
  import opened Wrappers

  type Name = string

  /** How a capture's `deferUntilHandled` property reads: absent or false, true, or unknown. */
  datatype DeferMode = TerminalMode | ProvisionalMode | UncertainMode

  datatype Expr =
    | Read(name: Name)
    | Literal
    | FacadeCall(argument: Option<Name>, wellFormed: bool, mode: DeferMode, hazard: bool, assigns: set<Name>)
    | RuntimeCapture(target: Name, nested: bool, assigns: set<Name>)
    | NextCall(target: Name, nested: bool, assigns: set<Name>)
    | Other(throwing: bool, effectful: bool, nested: bool, assigns: set<Name>)

  datatype DeclKind = Var | Let | Const | Using | AwaitUsing

  datatype Declarator = Declarator(name: Name, init: Option<Expr>)

  datatype ForInit =
    | NoInit
    | InitDeclare(kind: DeclKind, declarators: seq<Declarator>)
    | InitExpr(init: Expr)

  /** The loop variable of for-in and for-of: declared afresh, or an existing name. */
  datatype EachBinding = DeclareEach(scoped: bool, name: Name) | AssignEach(name: Name)

  datatype Stmt =
    | Block(body: seq<Stmt>, ownedElsewhere: bool)
    | Expression(e: Expr, directive: bool)
    | Declare(kind: DeclKind, declarators: seq<Declarator>)
    | Return(value: Option<Expr>, ignored: bool)
    | Throw(thrown: Expr, ignored: bool)
    | If(cond: Expr, whenTrue: Stmt, whenFalse: Option<Stmt>)
    | Switch(discriminant: Expr, clauses: seq<Clause>)
    | Try(tried: seq<Stmt>, handler: Option<Handler>, finalizer: Finalizer)
    | For(init: ForInit, test: Option<Expr>, update: Option<Expr>, loopBody: Stmt)
    | ForEach(binding: EachBinding, iterable: Expr, loopBody: Stmt)
    | While(cond: Expr, loopBody: Stmt)
    | DoWhile(loopBody: Stmt, cond: Expr)
    | Break(jump: Option<Name>, ignored: bool)
    | Continue(jump: Option<Name>, ignored: bool)
    | Labeled(name: Name, labeled: Stmt)
    | Inert

  /** A case clause, or the default clause when there is no selector. */
  datatype Clause = Clause(selector: Option<Expr>, statements: seq<Stmt>)

  datatype Handler = Handler(param: Option<Name>, block: seq<Stmt>)

  datatype Finalizer = NoFinalizer | Finally(block: seq<Stmt>)

  /** A catch block or an inline rejection callback. */
  datatype Boundary =
    | CatchBlock(binding: Option<Name>, body: seq<Stmt>, ownedElsewhere: bool, finalizer: Finalizer)
    | ExpressionBody(binding: Option<Name>, result: Expr)

  predicate IsLoop(s: Stmt) {
    s.For? || s.ForEach? || s.While? || s.DoWhile?
  }

  /** One plus the number of labels between s and the loop it labels; 0 when it labels no loop. */
  function LoopDepth(s: Stmt): nat {
    if IsLoop(s) then 1
    else if s.Labeled? && LoopDepth(s.labeled) > 0 then 1 + LoopDepth(s.labeled)
    else 0
  }

  predicate IsUsing(kind: DeclKind) { kind.Using? || kind.AwaitUsing? }

  /** The scan's reading of "declared const": await-using declarations share the flag. */
  predicate IsImmutable(kind: DeclKind) { kind.Const? || kind.AwaitUsing? }

  function DeclaredNames(ds: seq<Declarator>): set<Name> {
    set d | d in ds :: d.name
  }

  /** Names a statement list declares in its own block scope. */
  function LexicalNames(ss: seq<Stmt>): set<Name> {
    if ss == [] then {}
    else (if ss[0].Declare? && !ss[0].kind.Var? then DeclaredNames(ss[0].declarators) else {}) + LexicalNames(ss[1..])
  }

  predicate HasUsing(ss: seq<Stmt>) {
    exists s :: s in ss && s.Declare? && IsUsing(s.kind)
  }

  function SwitchStatements(cs: seq<Clause>): seq<Stmt> {
    if cs == [] then [] else cs[0].statements + SwitchStatements(cs[1..])
  }

  function Assigned(e: Expr): set<Name> {
    if e.Read? || e.Literal? then {} else e.assigns
  }

  function AssignedOpt(e: Option<Expr>): set<Name> {
    if e.Some? then Assigned(e.value) else {}
  }

  /** Names assigned or function-scope declared by a declaration list's evaluation. */
  function AssignedByDeclarators(ds: seq<Declarator>): set<Name> {
    if ds == [] then {}
    else AssignedOpt(ds[0].init) + {ds[0].name} + AssignedByDeclarators(ds[1..])
  }

  function AssignedByInit(init: ForInit): set<Name> {
    match init
    case NoInit => {}
    case InitDeclare(_, ds) => AssignedByDeclarators(ds)
    case InitExpr(e) => Assigned(e)
  }

  /** Names whose scope is the for statement itself. */
  function ScopedByInit(init: ForInit): set<Name> {
    if init.InitDeclare? && !init.kind.Var? then DeclaredNames(init.declarators) else {}
  }

  /** Names of an enclosing scope that running s may rebind. */
  function Writes(s: Stmt): set<Name>
    decreases s
  {
    match s
    case Block(body, _) => WritesOf(body) - LexicalNames(body)
    case Expression(e, _) => Assigned(e)
    case Declare(_, ds) => AssignedByDeclarators(ds)
    case Return(v, _) => AssignedOpt(v)
    case Throw(e, _) => Assigned(e)
    case If(e, t, f) => Assigned(e) + Writes(t) + (if f.Some? then Writes(f.value) else {})
    case Switch(e, cs) => Assigned(e) + (WritesOfClauses(cs) - LexicalNames(SwitchStatements(cs)))
    case Try(b, h, f) =>
      (WritesOf(b) - LexicalNames(b)) +
      (if h.Some? then (WritesOf(h.value.block) - LexicalNames(h.value.block)) - ParamNames(h.value.param) else {}) +
      (if f.Finally? then WritesOf(f.block) - LexicalNames(f.block) else {})
    case For(i, t, u, b) =>
      (AssignedByInit(i) + AssignedOpt(t) + AssignedOpt(u) + Writes(b)) - ScopedByInit(i)
    case ForEach(binding, e, b) =>
      Assigned(e) + (if binding.DeclareEach? && binding.scoped then Writes(b) - {binding.name} else Writes(b) + {binding.name})
    case While(e, b) => Assigned(e) + Writes(b)
    case DoWhile(b, e) => Writes(b) + Assigned(e)
    case Labeled(_, b) => Writes(b)
    case Break(_, _) => {}
    case Continue(_, _) => {}
    case Inert => {}
  }

  function WritesOf(ss: seq<Stmt>): set<Name>
    decreases ss
  {
    if ss == [] then {} else Writes(ss[0]) + WritesOf(ss[1..])
  }

  function WritesOfClauses(cs: seq<Clause>): set<Name>
    decreases cs
  {
    if cs == [] then {}
    else AssignedOpt(cs[0].selector) + WritesOf(cs[0].statements) + WritesOfClauses(cs[1..])
  }

  function ParamNames(p: Option<Name>): set<Name> {
    if p.Some? then {p.value} else {}
  }
}
