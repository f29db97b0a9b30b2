// The part of the Siskin syntax tree that closure capture depends on, and the walk that
// decides what a closure must capture (micai/src/ast.rs).
//
// The walk keeps a stack of scopes and a list of names in the order they were first met.
// `FreeNames` says what it must produce: the names a function mentions that nothing inside the
// function has bound by then, each once, in that order.

module ClosureSyntax {

  type Name = string

  datatype Option<T> = None | Some(value: T)

  datatype BinOp = Add | Sub | Mul | Eq | Ne | Lt | Le | And | Or

  datatype UnOp = Not | Neg | Try

  // What a literal with parts makes: `[a, b]`, `(a, b)`, `{k: v}` (key, value, key, …), and an
  // f-string, whose pieces of plain text are parts too.
  datatype Form = AList | ATuple | ADict | AText

  datatype Expr =
    | IntLit(n: int)
    | BoolLit(b: bool)
    | NoneLit
    | StrLit(s: string)
    | Ident(name: Name)
    | Parts(form: Form, parts: seq<Expr>)
    | Unary(un: UnOp, inner: Expr)
    | Binary(op: BinOp, left: Expr, right: Expr)
    | Index(obj: Expr, idx: Expr)
    | Field(owner: Expr, part: nat)  // of a tuple
    | IfExpr(cond: Expr, yes: Expr, no: Expr)
    | OrElse(value: Expr, fallback: Expr)
    | Call(callee: Expr, args: seq<Expr>)
    | Lambda(f: FnDecl)
    | Spawn(f: FnDecl)

  datatype FnDecl = FnDecl(name: Name, params: seq<Name>, pre: seq<Expr>, post: seq<Expr>, body: seq<Stmt>)

  datatype Pattern = Wildcard | Bind(name: Name) | Literal(e: Expr) | Variant(tag: Name, binds: seq<Name>)

  // `catch e:` and its block.
  datatype Catch = Catch(name: Name, body: seq<Stmt>)

  datatype Case = Case(pattern: Pattern, body: seq<Stmt>)

  datatype Arm = Arm(cond: Expr, body: seq<Stmt>)

  datatype Stmt =
    | Let(name: Name, value: Expr, handler: Option<Catch>)
    | LetTuple(names: seq<Name>, value: Expr)
    | Assign(target: Expr, op: Option<BinOp>, value: Expr, handler: Option<Catch>)
    | Do(e: Expr, handler: Option<Catch>)
    | If(arms: seq<Arm>, els: seq<Stmt>)
    | While(cond: Expr, body: seq<Stmt>)
    | For(name: Name, second: Option<Name>, iter: Expr, body: seq<Stmt>)
    | Match(subject: Expr, cases: seq<Case>)
    | Return(result: Option<Expr>)
    | Break
    | Continue
    | Fn(f: FnDecl)
    | Scoped(arena: Option<Name>, body: seq<Stmt>)  // `with arena a:` and `unsafe:`

  // The first letter of the names the parser makes up for anonymous functions.
  const LAMBDA_PREFIX := '\U{03BB}'

  predicate IsLambdaName(n: Name) {
    n != "" && n[0] == LAMBDA_PREFIX
  }

  predicate IsLambda(f: FnDecl) {
    IsLambdaName(f.name)
  }

  // ------------------------------------------------------------------ blocks of `catch`

  // The block never runs to its end.
  predicate Leaves(b: seq<Stmt>)
    decreases b
  {
    b != [] && StmtLeaves(b[|b| - 1])
  }

  predicate StmtLeaves(s: Stmt)
    decreases s
  {
    s.Return? || s.Break? || s.Continue? || (s.If? && ArmsLeave(s.arms) && Leaves(s.els))
  }

  predicate ArmsLeave(arms: seq<Arm>)
    decreases arms
  {
    arms == [] || (ArmLeaves(arms[0]) && ArmsLeave(arms[1..]))
  }

  predicate ArmLeaves(a: Arm)
    decreases a
  {
    Leaves(a.body)
  }

  // The value that a `catch` block ends with, if it does.
  function FallbackOf(c: Catch): Option<Expr> {
    if c.body == [] then None
    else
      var last := c.body[|c.body| - 1];
      if last.Do? && last.handler.None? && !Leaves(c.body) then Some(last.e) else None
  }

  function SetOf(names: seq<Name>): set<Name> {
    set n | n in names
  }

  // ------------------------------------------------------------------ what a function mentions

  // The names a statement adds to the scope it stands in.
  function Binds(s: Stmt): set<Name> {
    if s.Let? then {s.name} else if s.LetTuple? then SetOf(s.names) else if s.Fn? then {s.f.name} else {}
  }

  function NameOf(n: Option<Name>): set<Name> {
    if n.Some? then {n.value} else {}
  }

  function Unbound(names: seq<Name>, bound: set<Name>): seq<Name> {
    if names == [] then []
    else (if names[0] in bound then [] else [names[0]]) + Unbound(names[1..], bound)
  }

  // Adds each name that is not there yet.
  function Gather(out: seq<Name>, names: seq<Name>): seq<Name>
    decreases |names|
  {
    if names == [] then out
    else Gather(if names[0] in out then out else out + [names[0]], names[1..])
  }

  // Every mention in `e` of a name outside `bound`, in order and with repetitions.
  function Mentions(e: Expr, bound: set<Name>): seq<Name>
    decreases e
  {
    match e
    case IntLit(_) => []
    case BoolLit(_) => []
    case NoneLit => []
    case StrLit(_) => []
    case Ident(n) => if n in bound then [] else [n]
    case Parts(_, es) => ListMentions(es, bound)
    case Unary(_, a) => Mentions(a, bound)
    case Field(a, _) => Mentions(a, bound)
    case Binary(_, a, b) => Mentions(a, bound) + Mentions(b, bound)
    case Index(a, b) => Mentions(a, bound) + Mentions(b, bound)
    case IfExpr(c, a, b) => Mentions(c, bound) + Mentions(a, bound) + Mentions(b, bound)
    case OrElse(a, b) => Mentions(a, bound) + Mentions(b, bound)
    case Call(c, es) => Mentions(c, bound) + ListMentions(es, bound)
    case Lambda(f) => Unbound(FreeNames(f), bound)
    case Spawn(f) => Unbound(FreeNames(f), bound)
  }

  function ListMentions(es: seq<Expr>, bound: set<Name>): seq<Name>
    decreases es
  {
    if es == [] then [] else Mentions(es[0], bound) + ListMentions(es[1..], bound)
  }

  function BlockMentions(b: seq<Stmt>, bound: set<Name>): seq<Name>
    decreases b
  {
    if b == [] then [] else StmtMentions(b[0], bound) + BlockMentions(b[1..], bound + Binds(b[0]))
  }

  function StmtMentions(s: Stmt, bound: set<Name>): seq<Name>
    decreases s
  {
    match s
    case Let(_, e, c) => Mentions(e, bound) + CatchMentions(c, bound)
    case LetTuple(_, e) => Mentions(e, bound)
    case Assign(x, _, e, c) => Mentions(x, bound) + Mentions(e, bound) + CatchMentions(c, bound)
    case Do(e, c) => Mentions(e, bound) + CatchMentions(c, bound)
    case If(arms, els) => ArmsMentions(arms, bound) + BlockMentions(els, bound)
    case While(c, b) => Mentions(c, bound) + BlockMentions(b, bound)
    case For(n, m, e, b) => Mentions(e, bound) + BlockMentions(b, bound + ({n} + NameOf(m)))
    case Match(e, cases) => Mentions(e, bound) + CasesMentions(cases, bound)
    case Return(r) => if r.None? then [] else Mentions(r.value, bound)
    case Break => []
    case Continue => []
    case Fn(f) => Unbound(FreeNames(f), bound + {f.name})
    case Scoped(a, b) => BlockMentions(b, bound + NameOf(a))
  }

  function CatchMentions(c: Option<Catch>, bound: set<Name>): seq<Name>
    decreases c
  {
    if c.None? then [] else BlockMentions(c.value.body, bound + {c.value.name})
  }

  function ArmsMentions(arms: seq<Arm>, bound: set<Name>): seq<Name>
    decreases arms
  {
    if arms == [] then [] else ArmMentions(arms[0], bound) + ArmsMentions(arms[1..], bound)
  }

  function ArmMentions(a: Arm, bound: set<Name>): seq<Name>
    decreases a
  {
    Mentions(a.cond, bound) + BlockMentions(a.body, bound)
  }

  function CasesMentions(cases: seq<Case>, bound: set<Name>): seq<Name>
    decreases cases
  {
    if cases == [] then [] else CaseMentions(cases[0], bound) + CasesMentions(cases[1..], bound)
  }

  function CaseMentions(c: Case, bound: set<Name>): seq<Name>
    decreases c
  {
    PatternMentions(c.pattern, bound) + BlockMentions(c.body, bound + PatternBinds(c.pattern))
  }

  function PatternMentions(p: Pattern, bound: set<Name>): seq<Name>
    decreases p
  {
    if p.Literal? then Mentions(p.e, bound) else []
  }

  function PatternBinds(p: Pattern): set<Name> {
    if p.Bind? then {p.name} else if p.Variant? then SetOf(p.binds) else {}
  }

  // The names bound before a function's body starts. A named function can call itself.
  function Given(f: FnDecl): set<Name> {
    SetOf(f.params) + if IsLambda(f) then {} else {f.name}
  }

  function FnMentions(f: FnDecl): seq<Name>
    decreases f, 0
  {
    ListMentions(f.pre, Given(f)) + BlockMentions(f.body, Given(f)) + ListMentions(f.post, Given(f) + {"result"})
  }

  // What a closure over `f` has to capture: every outside name once, in order of first mention.
  function FreeNames(f: FnDecl): seq<Name>
    decreases f, 1
  {
    Gather([], FnMentions(f))
  }
}
