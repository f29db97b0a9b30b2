// The tree-walking interpreter, as far as closures are concerned (micai/src/interp.rs).
//
// `fuel` bounds the depth of the evaluation, so that programs that never end can be run too: they
// stop with `OutOfFuel` at every fuel. `World.capture` chooses what a new closure copies: the free
// names of its function, as the interpreter does, or every local in sight.

module ClosureRun {
  import opened ClosureSyntax

  // The items of a dictionary are its keys and values in turn; an error holds what it carries, and
  // a task the closure that it runs.
  datatype Kind = KList | KTuple | KDict | KVariant(tag: Name) | KError | KTask | KArena

  datatype Value =
    | None_
    | Int(n: int)
    | Bool(b: bool)
    | Str(s: string)
    | Data(kind: Kind, items: seq<Value>)
    | Func(f: FnDecl)
    | Closure(decl: FnDecl, env: map<Name, Value>)
    | Maker(tag: Name, arity: nat)  // a variant's name, when it is called
    | MakesError  // the built-in function `error`

  datatype Fault =
    | NotBool | Redeclared | Undeclared | NoSuchName | NotCallable | MissingArg | ExtraArg
    | TooDeep | BadOperand | BadIndex | BadField | NotIterable | NotTuple | Unmatched | BadPattern
    | PreBroken | PostBroken | NotModelled

  datatype Flow = Returned(v: Value) | Broke | Continued | Failed(why: Fault) | OutOfFuel

  datatype Outcome<T> = Got(v: T) | Stop(flow: Flow)

  type Scope = map<Name, Value>

  // The locals of one call: what the closure captured (and its own name), then the scopes from
  // the outside in.
  datatype Frame = Frame(env: Scope, scopes: seq<Scope>)

  datatype Capture = OnlyFree | EveryLocal

  // The top-level functions, and how many values each variant of an enum carries.
  datatype World = World(fns: map<Name, FnDecl>, variants: map<Name, nat>, limit: nat, capture: Capture)

  // The frame a statement leaves behind, and why it did not run to its end.
  datatype Ran = Ran(frame: Frame, flow: Option<Flow>)

  // The frame that handling an error leaves behind, and the value to go on with, if there is one.
  datatype Handling = Handling(frame: Frame, out: Outcome<Option<Value>>)

  // ------------------------------------------------------------------ scopes

  function Keys(scopes: seq<Scope>): set<Name> {
    if scopes == [] then {} else Keys(scopes[..|scopes| - 1]) + scopes[|scopes| - 1].Keys
  }

  function LookupIn(scopes: seq<Scope>, n: Name): Option<Value> {
    if scopes == [] then None
    else
      var s := scopes[|scopes| - 1];
      if n in s then Some(s[n]) else LookupIn(scopes[..|scopes| - 1], n)
  }

  function Lookup(fr: Frame, n: Name): Option<Value> {
    var r := LookupIn(fr.scopes, n);
    if r.Some? then r else if n in fr.env then Some(fr.env[n]) else None
  }

  function Push(fr: Frame, s: Scope): Frame {
    fr.(scopes := fr.scopes + [s])
  }

  function Pop(fr: Frame): Frame {
    if fr.scopes == [] then fr else fr.(scopes := fr.scopes[..|fr.scopes| - 1])
  }

  predicate Redeclares(fr: Frame, n: Name) {
    fr.scopes != [] && n in fr.scopes[|fr.scopes| - 1]
  }

  function Declare(fr: Frame, n: Name, v: Value): Frame {
    if fr.scopes == [] then fr
    else fr.(scopes := fr.scopes[|fr.scopes| - 1 := fr.scopes[|fr.scopes| - 1][n := v]])
  }

  // Gives the innermost scope that has `n` the new value.
  function AssignIn(scopes: seq<Scope>, n: Name, v: Value): Option<seq<Scope>> {
    if scopes == [] then None
    else
      var k := |scopes| - 1;
      if n in scopes[k] then Some(scopes[k := scopes[k][n := v]])
      else
        var r := AssignIn(scopes[..k], n, v);
        if r.None? then None else Some(r.value + [scopes[k]])
  }

  function AssignTo(fr: Frame, n: Name, v: Value): Option<Frame> {
    var r := AssignIn(fr.scopes, n, v);
    if r.Some? then Some(fr.(scopes := r.value))
    else if n in fr.env then Some(fr.(env := fr.env[n := v]))
    else None
  }

  function Visible(fr: Frame): set<Name> {
    Keys(fr.scopes) + fr.env.Keys
  }

  function MakeClosure(w: World, f: FnDecl, fr: Frame): Value {
    var wanted := if w.capture.OnlyFree? then SetOf(FreeNames(f)) else Visible(fr);
    Closure(f, map n | n in wanted && Lookup(fr, n).Some? :: Lookup(fr, n).value)
  }

  // ------------------------------------------------------------------ operators

  predicate EqValue(a: Value, b: Value)
    decreases a
  {
    (a.None_? && b.None_?) ||
    (a.Int? && b.Int? && a.n == b.n) ||
    (a.Bool? && b.Bool? && a.b == b.b) ||
    (a.Str? && b.Str? && a.s == b.s) ||
    (a.Data? && b.Data? && a.kind == b.kind && !a.kind.KTask? && !a.kind.KArena? && |a.items| == |b.items| &&
     if a.kind.KDict? then EqPairs(a.items, b.items, 0)
     else forall i :: 0 <= i < |a.items| ==> EqValue(a.items[i], b.items[i]))
  }

  // Each key and value of `xs` is in `ys`; the first pair is looked for from `j` on.
  predicate EqPairs(xs: seq<Value>, ys: seq<Value>, j: nat)
    decreases xs, |ys| - j
  {
    |xs| < 2 ||
    (j + 1 < |ys| &&
     ((EqValue(xs[0], ys[j]) && EqValue(xs[1], ys[j + 1]) && EqPairs(xs[2..], ys, 0)) || EqPairs(xs, ys, j + 2)))
  }

  // The value of a key, or none.
  function DictGet(items: seq<Value>, key: Value): Value
    decreases |items|
  {
    if |items| < 2 then None_
    else if EqValue(items[0], key) then items[1]
    else DictGet(items[2..], key)
  }

  // ------------------------------------------------------------------ values as text

  function Digits(n: nat): string {
    if n < 10 then ['0' + n as char] else Digits(n / 10) + ['0' + (n % 10) as char]
  }

  function Decimal(n: int): string {
    if n < 0 then "-" + Digits(-n) else Digits(n)
  }

  function Escaped(s: string): string {
    if s == [] then [] else (if s[0] == '\\' || s[0] == '"' then ['\\', s[0]] else [s[0]]) + Escaped(s[1..])
  }

  function Commas(xs: seq<string>): string {
    if xs == [] then "" else if |xs| == 1 then xs[0] else xs[0] + ", " + Commas(xs[1..])
  }

  function Display(v: Value): string {
    if v.Str? then v.s else Repr(v)
  }

  function Repr(v: Value): string
    decreases v
  {
    match v
    case None_ => "none"
    case Int(n) => Decimal(n)
    case Bool(b) => if b then "true" else "false"
    case Str(t) => "\"" + Escaped(t) + "\""
    case Data(k, vs) =>
      if k.KDict? then "{" + Commas(ReprPairs(vs)) + "}" else Around(k, vs, Commas(ReprEach(vs)))
    case Func(f) => "<fn " + f.name + ">"
    case Closure(d, _) => if IsLambda(d) then "<fn anonymous function>" else "<fn " + d.name + ">"
    case Maker(t, _) => t
    case MakesError => "<builtin fn error>"
  }

  function Around(k: Kind, vs: seq<Value>, inner: string): string {
    match k
    case KTuple => "(" + inner + ")"
    case KVariant(t) => if vs == [] then t else t + "(" + inner + ")"
    case KError => if |vs| == 1 && vs[0].Str? then "error(\"" + vs[0].s + "\")" else "error(" + inner + ")"
    case KTask => "<task>"
    case KArena => "<arena>"
    case _ => "[" + inner + "]"
  }

  function ReprEach(vs: seq<Value>): seq<string>
    decreases vs
  {
    if vs == [] then [] else [Repr(vs[0])] + ReprEach(vs[1..])
  }

  function ReprPairs(vs: seq<Value>): seq<string>
    decreases vs
  {
    if |vs| < 2 then [] else [Repr(vs[0]) + ": " + Repr(vs[1])] + ReprPairs(vs[2..])
  }

  function DisplayAll(vs: seq<Value>): string {
    if vs == [] then "" else Display(vs[0]) + DisplayAll(vs[1..])
  }

  // ------------------------------------------------------------------ numbers and containers

  // An `Int` has 64 bits and wraps around.
  function Wrap64(n: int): int {
    (n + 0x8000_0000_0000_0000) % 0x1_0000_0000_0000_0000 - 0x8000_0000_0000_0000
  }

  // Whether `a` comes before `b`, character by character.
  predicate TextBefore(a: string, b: string) {
    b != [] && (a == [] || a[0] < b[0] || (a[0] == b[0] && TextBefore(a[1..], b[1..])))
  }

  function Apply(op: BinOp, a: Value, b: Value): Outcome<Value> {
    if op.Eq? then Got(Bool(EqValue(a, b)))
    else if op.Ne? then Got(Bool(!EqValue(a, b)))
    else if a.Int? && b.Int? && op.Add? then Got(Int(Wrap64(a.n + b.n)))
    else if a.Int? && b.Int? && op.Sub? then Got(Int(Wrap64(a.n - b.n)))
    else if a.Int? && b.Int? && op.Mul? then Got(Int(Wrap64(a.n * b.n)))
    else if a.Int? && b.Int? && op.Lt? then Got(Bool(a.n < b.n))
    else if a.Int? && b.Int? && op.Le? then Got(Bool(a.n <= b.n))
    else if a.Str? && b.Str? && op.Add? then Got(Str(a.s + b.s))
    else if a.Str? && b.Str? && op.Lt? then Got(Bool(TextBefore(a.s, b.s)))
    else if a.Str? && b.Str? && op.Le? then Got(Bool(!TextBefore(b.s, a.s)))
    else if Is(a, KList) && Is(b, KList) && op.Add? then Got(Data(KList, a.items + b.items))
    else Stop(Failed(BadOperand))
  }

  predicate Is(a: Value, k: Kind) {
    a.Data? && a.kind == k
  }

  predicate IsError(a: Value) {
    Is(a, KError) && |a.items| == 1
  }

  predicate IsFunction(a: Value) {
    a.Func? || a.Closure? || a.Maker? || a.MakesError?
  }

  function ApplyUnary(op: UnOp, a: Value): Outcome<Value> {
    match op
    case Not => if a.Bool? then Got(Bool(!a.b)) else Stop(Failed(NotBool))
    case Neg => if a.Int? then Got(Int(Wrap64(-a.n))) else Stop(Failed(BadOperand))
    case Try => if IsError(a) then Stop(Returned(a)) else Got(a)
  }

  function At(o: Value, i: Value): Outcome<Value> {
    if Is(o, KList) && i.Int? then
      if 0 <= i.n < |o.items| then Got(o.items[i.n]) else Stop(Failed(BadIndex))
    else if o.Str? && i.Int? then
      if 0 <= i.n < |o.s| then Got(Str([o.s[i.n]])) else Stop(Failed(BadIndex))
    else if Is(o, KDict) then Got(DictGet(o.items, i))
    else Stop(Failed(BadOperand))
  }

  function PartOf(o: Value, k: nat): Outcome<Value> {
    if Is(o, KTuple) && k < |o.items| then Got(o.items[k]) else Stop(Failed(BadField))
  }

  function Make(form: Form, vs: seq<Value>): Value {
    match form
    case AList => Data(KList, vs)
    case ATuple => Data(KTuple, vs)
    case ADict => Data(KDict, vs)
    case AText => Str(DisplayAll(vs))
  }

  // `error(x)`: a variant is carried as it is, anything else as text.
  function MakeError(args: seq<Value>): Value {
    if args == [] then Data(KError, [Str("")])
    else if args[0].Data? && args[0].kind.KVariant? then Data(KError, [args[0]])
    else Data(KError, [Str(Display(args[0]))])
  }

  // ------------------------------------------------------------------ expressions

  function Eval(w: World, e: Expr, fr: Frame, depth: nat, fuel: nat): Outcome<Value>
    decreases fuel, 2
  {
    if fuel == 0 then Stop(OutOfFuel)
    else
      match e
      case IntLit(n) => Got(Int(n))
      case BoolLit(b) => Got(Bool(b))
      case NoneLit => Got(None_)
      case StrLit(t) => Got(Str(t))
      case Ident(n) => Name(w, n, fr)
      case Parts(form, es) =>
        var vs := EvalAll(w, es, fr, depth, fuel - 1);
        if vs.Stop? then Stop(vs.flow) else Got(Make(form, vs.v))
      case Unary(op, a) =>
        var x := Eval(w, a, fr, depth, fuel - 1);
        if x.Stop? then x else ApplyUnary(op, x.v)
      case Field(a, k) =>
        var x := Eval(w, a, fr, depth, fuel - 1);
        if x.Stop? then x else PartOf(x.v, k)
      case Binary(op, a, b) => EvalBinary(w, op, a, b, fr, depth, fuel - 1)
      case Index(a, b) =>
        var x := Eval(w, a, fr, depth, fuel - 1);
        if x.Stop? then x
        else
          var y := Eval(w, b, fr, depth, fuel - 1);
          if y.Stop? then y else At(x.v, y.v)
      case IfExpr(c, a, b) =>
        var t := Truth(w, c, fr, depth, fuel - 1);
        if t.Stop? then Stop(t.flow) else Eval(w, if t.v then a else b, fr, depth, fuel - 1)
      case OrElse(a, b) =>
        var x := Eval(w, a, fr, depth, fuel - 1);
        if x.Got? && x.v.None_? then Eval(w, b, fr, depth, fuel - 1) else x
      case Call(c, es) =>
        var f := Callee(w, c, fr, depth, fuel - 1);
        if f.Stop? then f
        else
          var vs := EvalAll(w, es, fr, depth, fuel - 1);
          if vs.Stop? then Stop(vs.flow) else CallValue(w, f.v, vs.v, depth, fuel - 1)
      case Lambda(f) => Got(MakeClosure(w, f, fr))
      case Spawn(f) => Got(Data(KTask, [MakeClosure(w, f, fr)]))
  }

  // A name on its own: a local, or else a function or a variant that carries nothing.
  function Name(w: World, n: Name, fr: Frame): Outcome<Value> {
    var v := Lookup(fr, n);
    if v.Some? then Got(v.value)
    else if n == "error" then Got(MakesError)
    else if n in w.fns then Got(Func(w.fns[n]))
    else if n in w.variants && w.variants[n] == 0 then Got(Data(KVariant(n), []))
    else Stop(Failed(NoSuchName))
  }

  // What a name stands for where it is called, when no local function has it.
  function Global(w: World, n: Name, local: Option<Value>): Outcome<Value> {
    if n in w.fns then Got(Func(w.fns[n]))
    else if n in w.variants then Got(Maker(n, w.variants[n]))
    else if local == Some(MakesError) || n == "error" then Got(MakesError)
    else Stop(Failed(NoSuchName))
  }

  // What a call calls. A local that is not a function does not hide a top-level function here.
  function Callee(w: World, c: Expr, fr: Frame, depth: nat, fuel: nat): Outcome<Value>
    decreases fuel, 3
  {
    if c.Ident? then
      var v := Lookup(fr, c.name);
      if v.Some? && (v.value.Func? || v.value.Closure?) then Got(v.value) else Global(w, c.name, v)
    else
      var v := Eval(w, c, fr, depth, fuel);
      if v.Got? && !IsFunction(v.v) then Stop(Failed(NotCallable)) else v
  }

  function Truth(w: World, e: Expr, fr: Frame, depth: nat, fuel: nat): Outcome<bool>
    decreases fuel, 3
  {
    var v := Eval(w, e, fr, depth, fuel);
    if v.Stop? then Stop(v.flow) else if v.v.Bool? then Got(v.v.b) else Stop(Failed(NotBool))
  }

  function EvalBinary(w: World, op: BinOp, a: Expr, b: Expr, fr: Frame, depth: nat, fuel: nat): Outcome<Value>
    decreases fuel, 4
  {
    if op.And? || op.Or? then
      var x := Truth(w, a, fr, depth, fuel);
      if x.Stop? then Stop(x.flow)
      else if x.v == op.Or? then Got(Bool(x.v))
      else
        var y := Truth(w, b, fr, depth, fuel);
        if y.Stop? then Stop(y.flow) else Got(Bool(y.v))
    else
      var x := Eval(w, a, fr, depth, fuel);
      if x.Stop? then x
      else
        var y := Eval(w, b, fr, depth, fuel);
        if y.Stop? then y else Apply(op, x.v, y.v)
  }

  function EvalAll(w: World, es: seq<Expr>, fr: Frame, depth: nat, fuel: nat): Outcome<seq<Value>>
    decreases fuel, 3, |es|
  {
    if es == [] then Got([])
    else
      var v := Eval(w, es[0], fr, depth, fuel);
      if v.Stop? then Stop(v.flow)
      else
        var vs := EvalAll(w, es[1..], fr, depth, fuel);
        if vs.Stop? then vs else Got([v.v] + vs.v)
  }

  // ------------------------------------------------------------------ calls

  function Arguments(params: seq<Name>, args: seq<Value>): Scope
    requires |params| == |args|
  {
    if params == [] then map[]
    else
      var k := |params| - 1;
      Arguments(params[..k], args[..k])[params[k] := args[k]]
  }

  // The outermost scope of a call: what was captured, and a named closure's own name.
  function Captured(f: Value): Scope {
    if !f.Closure? then map[]
    else if IsLambda(f.decl) then f.env
    else f.env[f.decl.name := f]
  }

  function Code(f: Value): FnDecl
    requires f.Func? || f.Closure?
  {
    if f.Func? then f.f else f.decl
  }

  function CallValue(w: World, f: Value, args: seq<Value>, depth: nat, fuel: nat): Outcome<Value>
    decreases fuel, 5
  {
    if f.MakesError? then Got(MakeError(args))
    else if f.Maker? then
      if |args| < f.arity then Stop(Failed(MissingArg))
      else if |args| > f.arity then Stop(Failed(ExtraArg))
      else Got(Data(KVariant(f.tag), args))
    else if !f.Func? && !f.Closure? then Stop(Failed(NotCallable))
    else
      var d := Code(f);
      if depth + 1 > w.limit then Stop(Failed(TooDeep))
      else if |args| < |d.params| then Stop(Failed(MissingArg))
      else if |args| > |d.params| then Stop(Failed(ExtraArg))
      else RunBody(w, d, Frame(Captured(f), [Arguments(d.params, args)]), depth + 1, fuel)
  }

  function RunBody(w: World, d: FnDecl, fr: Frame, depth: nat, fuel: nat): Outcome<Value>
    decreases fuel, 4
  {
    var pre := Contract(w, d.pre, PreBroken, fr, depth, fuel);
    if pre.Some? then Stop(pre.value)
    else
      var body := Exec(w, d.body, fr, depth, fuel);
      if body.flow.Some? && !body.flow.value.Returned? then Stop(body.flow.value)
      else
        var result := if body.flow.Some? then body.flow.value.v else None_;
        var post := Contract(w, d.post, PostBroken, Push(body.frame, map["result" := result]), depth, fuel);
        if post.Some? then Stop(post.value) else Got(result)
  }

  // Every condition has to be true. `None` means they are.
  function Contract(w: World, conds: seq<Expr>, broken: Fault, fr: Frame, depth: nat, fuel: nat): Option<Flow>
    decreases fuel, 3, |conds|
  {
    if conds == [] then None
    else
      var v := Eval(w, conds[0], fr, depth, fuel);
      if v.Stop? then Some(v.flow)
      else if !v.v.Bool? then Some(Failed(NotBool))
      else if !v.v.b then Some(Failed(broken))
      else Contract(w, conds[1..], broken, fr, depth, fuel)
  }

  // ------------------------------------------------------------------ statements

  // No scope goes away and no name in it does.
  ghost predicate Grows(f: Frame, g: Frame) {
    |f.scopes| == |g.scopes| && f.env.Keys == g.env.Keys &&
    forall i :: 0 <= i < |f.scopes| ==> f.scopes[i].Keys <= g.scopes[i].Keys
  }

  function Exec(w: World, b: seq<Stmt>, fr: Frame, depth: nat, fuel: nat): (r: Ran)
    decreases fuel, 3, |b|
  {
    if b == [] then Ran(fr, None)
    else
      var r := Step(w, b[0], fr, depth, fuel);
      if r.flow.Some? then r else Exec(w, b[1..], r.frame, depth, fuel)
  }

  function Block(w: World, b: seq<Stmt>, s: Scope, fr: Frame, depth: nat, fuel: nat): Ran
    decreases fuel, 4
  {
    var r := Exec(w, b, Push(fr, s), depth, fuel);
    Ran(Pop(r.frame), r.flow)
  }

  // A body that ran to its end or met `continue` goes round again; `break` ends the loop quietly.
  predicate LeavesLoop(flow: Option<Flow>) {
    flow.Some? && !flow.value.Continued?
  }

  function AfterLoop(r: Ran): Ran {
    if r.flow == Some(Broke) then Ran(r.frame, None) else r
  }

  function Step(w: World, s: Stmt, fr: Frame, depth: nat, fuel: nat): Ran
    decreases fuel, 2
  {
    if fuel == 0 then Ran(fr, Some(OutOfFuel))
    else
      match s
      case Let(n, e, c) =>
        var h := EvalHandled(w, e, c, true, fr, depth, fuel - 1);
        if h.out.Stop? then Ran(h.frame, Some(h.out.flow))
        else if h.out.v.None? then Ran(h.frame, None)
        else if Redeclares(h.frame, n) then Ran(h.frame, Some(Failed(Redeclared)))
        else Ran(Declare(h.frame, n, h.out.v.value), None)
      case LetTuple(ns, e) =>
        var v := Eval(w, e, fr, depth, fuel - 1);
        if v.Stop? then Ran(fr, Some(v.flow))
        else if !Is(v.v, KTuple) || |v.v.items| != |ns| then Ran(fr, Some(Failed(NotTuple)))
        else DeclareAll(fr, ns, v.v.items)
      case Assign(x, op, e, c) => StepAssign(w, x, op, e, c, fr, depth, fuel - 1)
      case Do(e, c) =>
        var h := EvalHandled(w, e, c, false, fr, depth, fuel - 1);
        Ran(h.frame, if h.out.Stop? then Some(h.out.flow) else None)
      case If(arms, els) => StepIf(w, arms, els, fr, depth, fuel - 1)
      case While(c, body) =>
        var t := Truth(w, c, fr, depth, fuel - 1);
        if t.Stop? then Ran(fr, Some(t.flow))
        else if !t.v then Ran(fr, None)
        else Again(w, s, Block(w, body, map[], fr, depth, fuel - 1), depth, fuel - 1)
      case For(n, m, e, body) =>
        var v := Eval(w, e, fr, depth, fuel - 1);
        if v.Stop? then Ran(fr, Some(v.flow))
        else
          var rounds := Rounds(n, m, v.v);
          if rounds.None? then Ran(fr, Some(Failed(NotIterable)))
          else ForEach(w, rounds.value, body, fr, depth, fuel - 1)
      case Match(e, cases) =>
        var v := Eval(w, e, fr, depth, fuel - 1);
        if v.Stop? then Ran(fr, Some(v.flow)) else StepMatch(w, v.v, cases, fr, depth, fuel - 1)
      case Return(e) =>
        if e.None? then Ran(fr, Some(Returned(None_)))
        else
          var v := Eval(w, e.value, fr, depth, fuel - 1);
          Ran(fr, Some(if v.Stop? then v.flow else Returned(v.v)))
      case Break => Ran(fr, Some(Broke))
      case Continue => Ran(fr, Some(Continued))
      case Fn(f) => Ran(Declare(fr, f.name, MakeClosure(w, f, fr)), None)
      case Scoped(a, body) =>
        var r := Block(w, body, map[], Push(fr, ArenaScope(a)), depth, fuel - 1);
        Ran(Pop(r.frame), r.flow)
  }

  function ArenaScope(a: Option<Name>): Scope {
    if a.Some? then map[a.value := Data(KArena, [])] else map[]
  }

  // Declares the names one by one, up to one that is there already.
  function DeclareAll(fr: Frame, names: seq<Name>, vs: seq<Value>): Ran
    requires |names| == |vs|
    decreases |names|
  {
    if names == [] then Ran(fr, None)
    else if Redeclares(fr, names[0]) then Ran(fr, Some(Failed(Redeclared)))
    else DeclareAll(Declare(fr, names[0], vs[0]), names[1..], vs[1..])
  }

  // The scope of each round of a loop over `v`.
  function Rounds(n: Name, m: Option<Name>, v: Value): Option<seq<Scope>> {
    if m.Some? then if Is(v, KDict) then Some(PairScopes(n, m.value, v.items)) else None
    else if Is(v, KList) then Some(ItemScopes(n, v.items))
    else if v.Str? then Some(CharScopes(n, v.s))
    else None
  }

  function ItemScopes(n: Name, vs: seq<Value>): seq<Scope> {
    if vs == [] then [] else [map[n := vs[0]]] + ItemScopes(n, vs[1..])
  }

  function CharScopes(n: Name, s: string): seq<Scope> {
    if s == [] then [] else [map[n := Str([s[0]])]] + CharScopes(n, s[1..])
  }

  function PairScopes(n: Name, m: Name, vs: seq<Value>): seq<Scope> {
    if |vs| < 2 then [] else [map[n := vs[0]][m := vs[1]]] + PairScopes(n, m, vs[2..])
  }

  // An expression with its `catch`, if it has one. With `want`, the block's last value stands in.
  function EvalHandled(w: World, e: Expr, c: Option<Catch>, want: bool, fr: Frame, depth: nat, fuel: nat): Handling
    decreases fuel, 5
  {
    var v := Eval(w, e, fr, depth, fuel);
    if v.Stop? then Handling(fr, Stop(v.flow))
    else if c.None? || !IsError(v.v) then Handling(fr, Got(Some(v.v)))
    else Handle(w, c.value, v.v.items[0], want, fr, depth, fuel)
  }

  function Handle(w: World, c: Catch, carried: Value, want: bool, fr: Frame, depth: nat, fuel: nat): Handling
    decreases fuel, 4
  {
    var last := if want then FallbackOf(c) else None;
    var body := if last.Some? then c.body[..|c.body| - 1] else c.body;
    var r := Exec(w, body, Push(fr, map[c.name := carried]), depth, fuel);
    if r.flow.Some? then Handling(Pop(r.frame), Stop(r.flow.value))
    else if last.None? then Handling(Pop(r.frame), Got(None))
    else
      var x := Eval(w, last.value, r.frame, depth, fuel);
      Handling(Pop(r.frame), if x.Stop? then Stop(x.flow) else Got(Some(x.v)))
  }

  // Goes round the loop `s` again, unless the body left it.
  function Again(w: World, s: Stmt, r: Ran, depth: nat, fuel: nat): Ran
    decreases fuel, 3
  {
    if LeavesLoop(r.flow) then AfterLoop(r) else Step(w, s, r.frame, depth, fuel)
  }

  // Only names are assigned to here: items of lists are shared, and this model has no sharing.
  function StepAssign(w: World, x: Expr, op: Option<BinOp>, e: Expr, c: Option<Catch>, fr: Frame, depth: nat, fuel: nat): Ran
    decreases fuel, 6
  {
    var h := EvalHandled(w, e, c, true, fr, depth, fuel);
    if h.out.Stop? then Ran(h.frame, Some(h.out.flow))
    else if h.out.v.None? then Ran(h.frame, None)
    else if !x.Ident? then Ran(h.frame, Some(Failed(NotModelled)))
    else Store(w, x.name, op, h.out.v.value, h.frame)
  }

  function Store(w: World, n: Name, op: Option<BinOp>, v: Value, fr: Frame): Ran {
    var u := if op.None? then Got(v) else Updated(w, n, op.value, v, fr);
    if u.Stop? then Ran(fr, Some(u.flow))
    else
      var g := AssignTo(fr, n, u.v);
      if g.None? then Ran(fr, Some(Failed(Undeclared))) else Ran(g.value, None)
  }

  // `n op= v`: the right side comes first, then the old value of `n`.
  function Updated(w: World, n: Name, op: BinOp, v: Value, fr: Frame): Outcome<Value> {
    var old_ := Name(w, n, fr);
    if old_.Stop? then old_ else Apply(op, old_.v, v)
  }

  function StepIf(w: World, arms: seq<Arm>, els: seq<Stmt>, fr: Frame, depth: nat, fuel: nat): Ran
    decreases fuel, 5, |arms|
  {
    if arms == [] then Block(w, els, map[], fr, depth, fuel)
    else
      var t := Truth(w, arms[0].cond, fr, depth, fuel);
      if t.Stop? then Ran(fr, Some(t.flow))
      else if t.v then Block(w, arms[0].body, map[], fr, depth, fuel)
      else StepIf(w, arms[1..], els, fr, depth, fuel)
  }

  function ForEach(w: World, rounds: seq<Scope>, body: seq<Stmt>, fr: Frame, depth: nat, fuel: nat): Ran
    decreases fuel, 5, |rounds|
  {
    if rounds == [] then Ran(fr, None)
    else
      var r := Block(w, body, rounds[0], fr, depth, fuel);
      if LeavesLoop(r.flow) then AfterLoop(r) else ForEach(w, rounds[1..], body, r.frame, depth, fuel)
  }

  // What a pattern binds when it fits; `None` inside when it does not.
  function Fits(w: World, p: Pattern, v: Value, fr: Frame, depth: nat, fuel: nat): Outcome<Option<Scope>>
    decreases fuel, 3
  {
    match p
    case Wildcard => Got(Some(map[]))
    case Bind(n) => Got(Some(map[n := v]))
    case Literal(e) =>
      var lit := Eval(w, e, fr, depth, fuel);
      if lit.Stop? then Stop(lit.flow) else Got(if EqValue(lit.v, v) then Some(map[]) else None)
    case Variant(t, binds) =>
      if !Is(v, KVariant(t)) then Got(None)
      else if binds == [] then Got(Some(map[]))
      else if |binds| != |v.items| then Stop(Failed(BadPattern))
      else Got(Some(Arguments(binds, v.items)))
  }

  function StepMatch(w: World, v: Value, cases: seq<Case>, fr: Frame, depth: nat, fuel: nat): Ran
    decreases fuel, 5, |cases|
  {
    if cases == [] then Ran(fr, Some(Failed(Unmatched)))
    else
      var m := Fits(w, cases[0].pattern, v, fr, depth, fuel);
      if m.Stop? then Ran(fr, Some(m.flow))
      else if m.v.Some? then Block(w, cases[0].body, m.v.value, fr, depth, fuel)
      else StepMatch(w, v, cases[1..], fr, depth, fuel)
  }
}
