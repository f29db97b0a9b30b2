// What closure capture by free names guarantees, and the one kind of name it goes wrong for.

module ClosureTheorems {
  import opened ClosureSyntax
  import opened ClosureRun
  import opened ClosureCapture
  import opened ClosureNames
  import opened ClosureLaws

  // ------------------------------------------------------------------ values that correspond to themselves

  // A value with no function in it.
  ghost predicate Plain(a: Value)
    decreases a
  {
    a.None_? || a.Int? || a.Bool? || a.Str? || (a.Data? && forall i :: 0 <= i < |a.items| ==> Plain(a.items[i]))
  }

  lemma {:induction false} PlainIsItself(a: Value, b: Value)
    requires Plain(a)
    ensures Like(a, b) <==> a == b
    ensures Like(b, a) <==> a == b
    decreases a
  {
    if a.Data? && b.Data? && |a.items| == |b.items| {
      forall i | 0 <= i < |a.items|
        ensures Like(a.items[i], b.items[i]) <==> a.items[i] == b.items[i]
        ensures Like(b.items[i], a.items[i]) <==> a.items[i] == b.items[i]
      {
        PlainIsItself(a.items[i], b.items[i]);
      }
    }
  }

  // Every function in the value is one the capture rule is right for.
  ghost predicate TameValue(a: Value)
    decreases a
  {
    match a
    case None_ => true
    case Int(_) => true
    case Bool(_) => true
    case Str(_) => true
    case Data(_, vs) => forall i :: 0 <= i < |vs| ==> TameValue(vs[i])
    case Func(f) => TameFn(f)
    case Closure(d, env) => TameFn(d) && forall n :: n in env ==> TameValue(env[n])
    case Maker(_, _) => true
    case MakesError => true
  }

  ghost predicate TameScope(s: Scope) {
    forall n :: n in s ==> TameValue(s[n])
  }

  ghost predicate TameFrame(f: Frame) {
    TameScope(f.env) && f.scopes != [] && forall i :: 0 <= i < |f.scopes| ==> TameScope(f.scopes[i])
  }

  lemma {:induction false} LikeItself(a: Value)
    requires TameValue(a)
    ensures Like(a, a)
    decreases a
  {
    match a
    case None_ =>
    case Int(_) =>
    case Bool(_) =>
    case Str(_) =>
    case Data(_, vs) => forall i | 0 <= i < |vs| ensures Like(vs[i], vs[i]) { LikeItself(vs[i]); }
    case Func(f) =>
    case Closure(d, env) => forall n | n in env ensures Like(env[n], env[n]) { LikeItself(env[n]); }
    case Maker(_, _) =>
    case MakesError =>
  }

  lemma FrameLikeItself(names: set<Name>, f: Frame)
    requires TameFrame(f)
    ensures LikeFrame(names, f, f)
  {
    forall n | n in f.env ensures Like(f.env[n], f.env[n]) { LikeItself(f.env[n]); }
    forall i | 0 <= i < |f.scopes| ensures LikeScope(f.scopes[i], f.scopes[i]) {
      var s := f.scopes[i];
      forall n | n in s ensures Like(s[n], s[n]) { LikeItself(s[n]); }
    }
  }

  // ------------------------------------------------------------------ what a closure holds

  // The names that occur free in the function and mean something where it is made, with what they
  // mean right then, and nothing else.
  ghost predicate HoldsFree(env: Scope, d: FnDecl, fr: Frame) {
    forall n, v :: HoldsIffFree(env, d, fr, n, v)
  }

  ghost predicate HoldsIffFree(env: Scope, d: FnDecl, fr: Frame, n: Name, v: Value) {
    (n in env && env[n] == v) <==> (FreeInFn(d, n) && Means(fr, n, v))
  }

  lemma HoldsJustTheFreeNames(w: World, d: FnDecl, fr: Frame)
    requires w.capture.OnlyFree?
    ensures exists env :: MakeClosure(w, d, fr) == Closure(d, env) && HoldsFree(env, d, fr)
  {
    var env := MakeClosure(w, d, fr).env;
    forall n, v ensures HoldsIffFree(env, d, fr, n, v) {
      FreeNamesOccurFree(d, n);
      InnermostWins(fr, n, v);
    }
    assert HoldsFree(env, d, fr);
  }

  // ------------------------------------------------------------------ the theorems

  // A closure made anywhere, called with anything: holding the free names only, it does what it
  // would do holding every local in sight. This covers closures made while it runs, recursion
  // through its own name, contracts, faults, and running on for ever.
  lemma FreeNamesAreEnough(w: World, d: FnDecl, fr: Frame, args: seq<Value>, depth: nat, fuel: nat)
    requires TameWorld(w) && TameFrame(fr) && TameFn(d)
    requires forall i :: 0 <= i < |args| ==> TameValue(args[i])
    ensures LikeOut(CallValue(w, MakeClosure(w.(capture := OnlyFree), d, fr), args, depth, fuel),
                    CallValue(w, MakeClosure(w.(capture := EveryLocal), d, fr), args, depth, fuel))
  {
    var v := w.(capture := OnlyFree);
    var u := w.(capture := EveryLocal);
    var names := SetOf(FreeNames(d));
    FrameLikeItself(names, fr);
    forall n | n in Unbound(FreeNames(d), {}) ensures n in names { UnboundIs(FreeNames(d), {}, n); }
    ClosureAlike(v, u, names, {}, d, fr, fr);
    forall i | 0 <= i < |args| ensures Like(args[i], args[i]) { LikeItself(args[i]); }
    CallAlike(w, w, MakeClosure(v, d, fr), MakeClosure(u, d, fr), args, args, depth, fuel);
  }

  // A whole program: the answer is the same whether its closures copy their free names or every
  // local, and so is the fault when there is one.
  lemma SameAnswer(fns: map<Name, FnDecl>, variants: map<Name, nat>, limit: nat, f: FnDecl, args: seq<Value>, fuel: nat)
    requires TameFn(f) && forall n :: n in fns ==> TameFn(fns[n])
    requires forall i :: 0 <= i < |args| ==> Plain(args[i])
    ensures var a := CallValue(World(fns, variants, limit, OnlyFree), Func(f), args, 0, fuel);
      var b := CallValue(World(fns, variants, limit, EveryLocal), Func(f), args, 0, fuel);
      LikeOut(a, b) && (a.Got? && Plain(a.v) ==> b == a) && (b.Got? && Plain(b.v) ==> a == b) &&
      (a.Stop? && a.flow.Failed? ==> b == a) && (a == Stop(OutOfFuel) <==> b == Stop(OutOfFuel))
  {
    var v, w := World(fns, variants, limit, OnlyFree), World(fns, variants, limit, EveryLocal);
    forall i | 0 <= i < |args| ensures Like(args[i], args[i]) { PlainIsItself(args[i], args[i]); }
    CallAlike(v, w, Func(f), Func(f), args, args, 0, fuel);
    var a, b := CallValue(v, Func(f), args, 0, fuel), CallValue(w, Func(f), args, 0, fuel);
    if a.Got? && Plain(a.v) { PlainIsItself(a.v, b.v); }
    if b.Got? && Plain(b.v) { PlainIsItself(b.v, a.v); }
  }

  // ------------------------------------------------------------------ the names of nested functions

  // Every `fn` statement inside, at any depth, has an ordinary name or one of `but`. And every
  // `let x = e catch e:` has a value for `x` or leaves, as the type checker demands.
  predicate Checked(f: FnDecl, but: set<Name>)
    decreases f
  {
    CheckedAll(f.pre, but) && CheckedBlock(f.body, but) && CheckedAll(f.post, but)
  }

  predicate CheckedExpr(e: Expr, but: set<Name>)
    decreases e
  {
    match e
    case IntLit(_) => true
    case BoolLit(_) => true
    case NoneLit => true
    case StrLit(_) => true
    case Ident(_) => true
    case Parts(_, es) => CheckedAll(es, but)
    case Unary(_, a) => CheckedExpr(a, but)
    case Field(a, _) => CheckedExpr(a, but)
    case Binary(_, a, b) => CheckedExpr(a, but) && CheckedExpr(b, but)
    case Index(a, b) => CheckedExpr(a, but) && CheckedExpr(b, but)
    case IfExpr(c, a, b) => CheckedExpr(c, but) && CheckedExpr(a, but) && CheckedExpr(b, but)
    case OrElse(a, b) => CheckedExpr(a, but) && CheckedExpr(b, but)
    case Call(c, es) => CheckedExpr(c, but) && CheckedAll(es, but)
    case Lambda(f) => Checked(f, but)
    case Spawn(f) => Checked(f, but)
  }

  predicate CheckedAll(es: seq<Expr>, but: set<Name>)
    decreases es
  {
    es == [] || (CheckedExpr(es[0], but) && CheckedAll(es[1..], but))
  }

  predicate CheckedBlock(b: seq<Stmt>, but: set<Name>)
    decreases b
  {
    b == [] || (CheckedStmt(b[0], but) && CheckedBlock(b[1..], but))
  }

  predicate CheckedStmt(s: Stmt, but: set<Name>)
    decreases s
  {
    match s
    case Let(_, e, c) => CheckedExpr(e, but) && CheckedCatch(c, but) && (c.Some? ==> HasEnd(c.value))
    case LetTuple(_, e) => CheckedExpr(e, but)
    case Assign(x, _, e, c) => CheckedExpr(x, but) && CheckedExpr(e, but) && CheckedCatch(c, but)
    case Do(e, c) => CheckedExpr(e, but) && CheckedCatch(c, but)
    case If(arms, els) => CheckedArms(arms, but) && CheckedBlock(els, but)
    case While(c, b) => CheckedExpr(c, but) && CheckedBlock(b, but)
    case For(_, _, e, b) => CheckedExpr(e, but) && CheckedBlock(b, but)
    case Match(e, cases) => CheckedExpr(e, but) && CheckedCases(cases, but)
    case Return(r) => r.Some? ==> CheckedExpr(r.value, but)
    case Break => true
    case Continue => true
    case Fn(f) => (!IsLambdaName(f.name) || f.name in but) && Checked(f, but)
    case Scoped(_, b) => CheckedBlock(b, but)
  }

  predicate CheckedCatch(c: Option<Catch>, but: set<Name>)
    decreases c
  {
    c.Some? ==> CheckedBlock(c.value.body, but)
  }

  predicate CheckedArms(arms: seq<Arm>, but: set<Name>)
    decreases arms
  {
    arms == [] || (CheckedArm(arms[0], but) && CheckedArms(arms[1..], but))
  }

  predicate CheckedArm(a: Arm, but: set<Name>)
    decreases a
  {
    CheckedExpr(a.cond, but) && CheckedBlock(a.body, but)
  }

  predicate CheckedCases(cases: seq<Case>, but: set<Name>)
    decreases cases
  {
    cases == [] || (CheckedCase(cases[0], but) && CheckedCases(cases[1..], but))
  }

  predicate CheckedCase(c: Case, but: set<Name>)
    decreases c
  {
    CheckedPattern(c.pattern, but) && CheckedBlock(c.body, but)
  }

  predicate CheckedPattern(p: Pattern, but: set<Name>)
    decreases p
  {
    p.Literal? ==> CheckedExpr(p.e, but)
  }

  predicate AllOrdinary(names: set<Name>) {
    forall n :: n in names ==> !IsLambdaName(n)
  }

  // A function never mentions its own name as an outside name unless that name starts like the
  // parser's names for anonymous functions.
  lemma OrdinaryNameIsKnown(d: FnDecl)
    requires !IsLambda(d)
    ensures d.name !in FreeNames(d)
  {
    FreeNamesOccurFree(d, d.name);
  }

  // Ordinary names for nested functions, at any depth, are all that the capture rule needs.
  lemma {:induction false} OrdinaryNamesAreTame(f: FnDecl, but: set<Name>)
    requires Checked(f, but) && AllOrdinary(but)
    ensures TameFn(f)
    decreases f
  {
    OrdinaryAll(f.pre, but);
    OrdinaryBlock(f.body, but);
    OrdinaryAll(f.post, but);
  }

  lemma {:induction false} OrdinaryExpr(e: Expr, but: set<Name>)
    requires CheckedExpr(e, but) && AllOrdinary(but)
    ensures Tame(e)
    decreases e
  {
    match e
    case IntLit(_) =>
    case BoolLit(_) =>
    case NoneLit =>
    case StrLit(_) =>
    case Ident(_) =>
    case Parts(_, es) => OrdinaryAll(es, but);
    case Unary(_, a) => OrdinaryExpr(a, but);
    case Field(a, _) => OrdinaryExpr(a, but);
    case Binary(_, a, b) => OrdinaryExpr(a, but); OrdinaryExpr(b, but);
    case Index(a, b) => OrdinaryExpr(a, but); OrdinaryExpr(b, but);
    case IfExpr(c, a, b) => OrdinaryExpr(c, but); OrdinaryExpr(a, but); OrdinaryExpr(b, but);
    case OrElse(a, b) => OrdinaryExpr(a, but); OrdinaryExpr(b, but);
    case Call(c, es) => OrdinaryExpr(c, but); OrdinaryAll(es, but);
    case Lambda(f) => OrdinaryNamesAreTame(f, but);
    case Spawn(f) => OrdinaryNamesAreTame(f, but);
  }

  lemma {:induction false} OrdinaryAll(es: seq<Expr>, but: set<Name>)
    requires CheckedAll(es, but) && AllOrdinary(but)
    ensures TameAll(es)
    decreases es
  {
    if es != [] { OrdinaryExpr(es[0], but); OrdinaryAll(es[1..], but); }
  }

  lemma {:induction false} OrdinaryBlock(b: seq<Stmt>, but: set<Name>)
    requires CheckedBlock(b, but) && AllOrdinary(but)
    ensures TameBlock(b)
    decreases b
  {
    if b != [] { OrdinaryStmt(b[0], but); OrdinaryBlock(b[1..], but); }
  }

  lemma {:induction false} OrdinaryStmt(s: Stmt, but: set<Name>)
    requires CheckedStmt(s, but) && AllOrdinary(but)
    ensures TameStmt(s)
    decreases s
  {
    match s
    case Let(_, e, c) => OrdinaryExpr(e, but); OrdinaryCatch(c, but);
    case LetTuple(_, e) => OrdinaryExpr(e, but);
    case Assign(x, _, e, c) => OrdinaryExpr(x, but); OrdinaryExpr(e, but); OrdinaryCatch(c, but);
    case Do(e, c) => OrdinaryExpr(e, but); OrdinaryCatch(c, but);
    case If(arms, els) => OrdinaryArms(arms, but); OrdinaryBlock(els, but);
    case While(c, b) => OrdinaryExpr(c, but); OrdinaryBlock(b, but);
    case For(_, _, e, b) => OrdinaryExpr(e, but); OrdinaryBlock(b, but);
    case Match(e, cases) => OrdinaryExpr(e, but); OrdinaryCases(cases, but);
    case Return(r) => if r.Some? { OrdinaryExpr(r.value, but); }
    case Break =>
    case Continue =>
    case Fn(f) => OrdinaryNameIsKnown(f); OrdinaryNamesAreTame(f, but);
    case Scoped(_, b) => OrdinaryBlock(b, but);
  }

  lemma {:induction false} OrdinaryCatch(c: Option<Catch>, but: set<Name>)
    requires CheckedCatch(c, but) && AllOrdinary(but)
    ensures TameCatch(c)
    decreases c
  {
    if c.Some? { OrdinaryBlock(c.value.body, but); }
  }

  lemma {:induction false} OrdinaryArms(arms: seq<Arm>, but: set<Name>)
    requires CheckedArms(arms, but) && AllOrdinary(but)
    ensures TameArms(arms)
    decreases arms
  {
    if arms != [] {
      OrdinaryArm(arms[0], but);
      OrdinaryArms(arms[1..], but);
    }
  }

  lemma {:induction false} OrdinaryArm(a: Arm, but: set<Name>)
    requires CheckedArm(a, but) && AllOrdinary(but)
    ensures TameArm(a)
    decreases a
  {
    OrdinaryExpr(a.cond, but);
    OrdinaryBlock(a.body, but);
  }

  lemma {:induction false} OrdinaryCases(cases: seq<Case>, but: set<Name>)
    requires CheckedCases(cases, but) && AllOrdinary(but)
    ensures TameCases(cases)
    decreases cases
  {
    if cases != [] {
      OrdinaryCase(cases[0], but);
      OrdinaryCases(cases[1..], but);
    }
  }

  lemma {:induction false} OrdinaryCase(c: Case, but: set<Name>)
    requires CheckedCase(c, but) && AllOrdinary(but)
    ensures TameCase(c)
    decreases c
  {
    if c.pattern.Literal? { OrdinaryExpr(c.pattern.e, but); }
    OrdinaryBlock(c.body, but);
  }

  predicate OrdinaryWorld(w: World) {
    forall n :: n in w.fns ==> Checked(w.fns[n], {})
  }

  // The first theorem for every program whose nested functions have ordinary names.
  lemma FreeNamesAreEnoughForOrdinary(w: World, d: FnDecl, fr: Frame, args: seq<Value>, depth: nat, fuel: nat)
    requires OrdinaryWorld(w) && TameFrame(fr) && Checked(d, {})
    requires forall i :: 0 <= i < |args| ==> TameValue(args[i])
    ensures LikeOut(CallValue(w, MakeClosure(w.(capture := OnlyFree), d, fr), args, depth, fuel),
                    CallValue(w, MakeClosure(w.(capture := EveryLocal), d, fr), args, depth, fuel))
  {
    OrdinaryNamesAreTame(d, {});
    forall n | n in w.fns ensures TameFn(w.fns[n]) { OrdinaryNamesAreTame(w.fns[n], {}); }
    FreeNamesAreEnough(w, d, fr, args, depth, fuel);
  }

  // ------------------------------------------------------------------ names that are not ordinary

  // fn n(): return n
  function Inner(n: Name): FnDecl {
    FnDecl(n, [], [], [], [Return(Some(Ident(n)))])
  }

  // fn g(): fn n(): return n; return n()
  function Outer(n: Name): FnDecl {
    FnDecl("g", [], [], [], [Fn(Inner(n)), Return(Some(Call(Ident(n), [])))])
  }

  // fn main(): let n = 5; fn g(): ...; return g()
  function Twisted(n: Name): FnDecl {
    FnDecl("main", [], [], [], [Let(n, IntLit(5), None), Fn(Outer(n)), Return(Some(Call(Ident("g"), [])))])
  }

  // The walk takes `g` to mention nothing: it has already bound `n` when it comes to the inner
  // function, and the inner function, taken for an anonymous one, does not bind it itself.
  lemma TwistFreeNames(n: Name)
    requires IsLambdaName(n)
    ensures FreeNames(Inner(n)) == [n] && !IsLambda(Outer(n)) && FreeNames(Outer(n)) == []
  {
    var inner := Inner(n);
    var bound := Given(inner);
    assert bound == {};
    assert BlockMentions(inner.body, bound) == [n] by {
      assert StmtMentions(inner.body[0], bound) == [n];
      assert inner.body[1..] == [];
    }
    assert FnMentions(inner) == [n];
    assert Gather([n], [n][1..]) == [n];
    TwistOuterNames(n);
  }

  lemma TwistOuterNames(n: Name)
    requires FreeNames(Inner(n)) == [n]
    ensures FreeNames(Outer(n)) == []
  {
    var outer := Outer(n);
    var given := Given(outer);
    var last := [Return(Some(Call(Ident(n), [])))];
    BoundAlone(n, given + {n});
    CallMentions(n, given + {n});
    FnMentionsFirst(Inner(n), last, given);
    assert outer.body == [Fn(Inner(n))] + last;
    assert FnMentions(outer) == [];
  }

  lemma FnMentionsFirst(f: FnDecl, rest: seq<Stmt>, bound: set<Name>)
    ensures BlockMentions([Fn(f)] + rest, bound) == Unbound(FreeNames(f), bound + {f.name}) + BlockMentions(rest, bound + {f.name})
  {
    var b := [Fn(f)] + rest;
    assert b[0] == Fn(f) && b[1..] == rest;
    assert StmtMentions(b[0], bound) == Unbound(FreeNames(f), bound + {f.name});
  }

  lemma BoundAlone(n: Name, bound: set<Name>)
    requires n in bound
    ensures Unbound([n], bound) == []
  {
    assert [n][1..] == [];
  }

  lemma CallMentions(n: Name, bound: set<Name>)
    requires n in bound
    ensures BlockMentions([Return(Some(Call(Ident(n), [])))], bound) == []
  {
    var b := [Return(Some(Call(Ident(n), [])))];
    assert Mentions(Call(Ident(n), []), bound) == [];
    assert StmtMentions(b[0], bound) == [];
    assert b[1..] == [];
  }

  // A call of a function with no parameters and no contract runs its body.
  lemma JustTheBody(w: World, c: Value, depth: nat, fuel: nat)
    requires (c.Func? || c.Closure?) && depth < w.limit
    requires Code(c).params == [] && Code(c).pre == [] && Code(c).post == []
    ensures var r := Exec(w, Code(c).body, Frame(Captured(c), [map[]]), depth + 1, fuel).flow;
      CallValue(w, c, [], depth, fuel) ==
        if r.None? then Got(None_) else if r.value.Returned? then Got(r.value.v) else Stop(r.value)
  {
    var d := Code(c);
    assert Arguments(d.params, []) == map[];
    var fr := Frame(Captured(c), [map[]]);
    assert Contract(w, d.pre, PreBroken, fr, depth + 1, fuel) == None;
    assert CallValue(w, c, [], depth, fuel) == RunBody(w, d, fr, depth + 1, fuel);
    var r := Exec(w, d.body, fr, depth + 1, fuel);
    var result := if r.flow.Some? && r.flow.value.Returned? then r.flow.value.v else None_;
    assert Contract(w, d.post, PostBroken, Push(r.frame, map["result" := result]), depth + 1, fuel) == None;
  }

  // With nothing in its one scope, a frame has what was captured.
  lemma NotIn(n: Name, fr: Frame)
    requires fr.scopes == [map[]]
    ensures LookupIn(fr.scopes, n) == None
    ensures Lookup(fr, n) == if n in fr.env then Some(fr.env[n]) else None
  {
    assert fr.scopes[..|fr.scopes| - 1] == [];
    assert LookupIn([], n) == None;
  }

  // Calls `n` inside `g`, in the frame that `g` runs its second statement in.
  lemma TwistInside(n: Name, w: World, env: Scope, depth: nat, fuel: nat)
    requires IsLambdaName(n) && w.fns == map[] && w.variants == map[] && depth < w.limit && fuel > 2
    ensures var c := Closure(Inner(n), env);
      CallValue(w, c, [], depth, fuel) == if n in env then Got(env[n]) else Stop(Failed(NoSuchName))
  {
    var c := Closure(Inner(n), env);
    var fr := Frame(env, [map[]]);
    assert Captured(c) == env;
    NotIn(n, fr);
    var b := Inner(n).body;
    var r := Step(w, b[0], fr, depth + 1, fuel);
    assert Eval(w, Ident(n), fr, depth + 1, fuel - 1) == ClosureRun.Name(w, n, fr);
    assert Exec(w, b, fr, depth + 1, fuel) == r;
    JustTheBody(w, c, depth, fuel);
  }

  // What the inner function holds when `g`, made holding `env`, comes to it.
  lemma TwistHeld(n: Name, w: World, fr: Frame)
    requires IsLambdaName(n) && fr.scopes == [map[]] && (n in fr.env ==> w.capture.EveryLocal?)
    ensures var inner := MakeClosure(w, Inner(n), fr);
      (n in inner.env <==> n in fr.env) && (n in fr.env ==> inner.env[n] == fr.env[n])
    ensures Lookup(Declare(fr, n, MakeClosure(w, Inner(n), fr)), n) == Some(MakeClosure(w, Inner(n), fr))
  {
    TwistFreeNames(n);
    NotIn(n, fr);
    VisibleIs(fr, n);
  }

  // `return f()`, where `f` is a local closure.
  lemma ReturnCall(w: World, n: Name, f: Value, fr: Frame, depth: nat, fuel: nat)
    requires fuel > 1 && f.Closure? && Lookup(fr, n) == Some(f)
    ensures var r := CallValue(w, f, [], depth, fuel - 2);
      Exec(w, [Return(Some(Call(Ident(n), [])))], fr, depth, fuel) ==
        Ran(fr, Some(if r.Stop? then r.flow else Returned(r.v)))
  {
    var call := Call(Ident(n), []);
    assert Callee(w, Ident(n), fr, depth, fuel - 2) == Got(f);
    assert EvalAll(w, [], fr, depth, fuel - 2) == Got([]);
    assert Eval(w, call, fr, depth, fuel - 1) == CallValue(w, f, [], depth, fuel - 2);
  }

  // What `g` comes to, when it was made holding `env`.
  lemma TwistOuter(n: Name, w: World, env: Scope, depth: nat, fuel: nat)
    requires IsLambdaName(n) && w.fns == map[] && w.variants == map[] && depth + 1 < w.limit && fuel > 5
    requires n in env ==> w.capture.EveryLocal?
    ensures var c := Closure(Outer(n), env);
      CallValue(w, c, [], depth, fuel) == if n in env then Got(env[n]) else Stop(Failed(NoSuchName))
  {
    var c := Closure(Outer(n), env);
    assert n != "g" && (n in c.env <==> n in Captured(c)) && (n in c.env ==> Captured(c)[n] == env[n]);
    TwistOuterBody(n, w, Frame(Captured(c), [map[]]), depth, fuel);
    JustTheBody(w, c, depth, fuel);
  }

  // A `fn` statement and the rest of its block.
  lemma FnFirst(w: World, f: FnDecl, rest: seq<Stmt>, fr: Frame, depth: nat, fuel: nat)
    requires fuel > 0
    ensures Exec(w, [Fn(f)] + rest, fr, depth, fuel) == Exec(w, rest, Declare(fr, f.name, MakeClosure(w, f, fr)), depth, fuel)
  {
    var b := [Fn(f)] + rest;
    assert b[0] == Fn(f) && b[1..] == rest;
    assert Step(w, b[0], fr, depth, fuel) == Ran(Declare(fr, f.name, MakeClosure(w, f, fr)), None);
  }

  lemma TwistOuterBody(n: Name, w: World, fr: Frame, depth: nat, fuel: nat)
    requires IsLambdaName(n) && w.fns == map[] && w.variants == map[] && depth + 1 < w.limit && fuel > 5
    requires fr.scopes == [map[]] && (n in fr.env ==> w.capture.EveryLocal?)
    ensures Exec(w, Outer(n).body, fr, depth + 1, fuel).flow ==
      Some(if n in fr.env then Returned(fr.env[n]) else Failed(NoSuchName))
  {
    var inner := MakeClosure(w, Inner(n), fr);
    var last := [Return(Some(Call(Ident(n), [])))];
    TwistHeld(n, w, fr);
    assert Outer(n).body == [Fn(Inner(n))] + last;
    FnFirst(w, Inner(n), last, fr, depth + 1, fuel);
    ReturnCall(w, n, inner, Declare(fr, n, inner), depth + 1, fuel);
    TwistInside(n, w, inner.env, depth + 1, fuel - 2);
  }

  // A closure keeps the value a name had when the closure was made, whatever it is given later:
  // `x = 1`, then `fn g(): return x`, then `x = 2`, and `g()` is still 1.
  lemma CopiesAtCreation(w: World, x: Name, a: int, b: int, depth: nat, fuel: nat)
    requires x != "g" && depth < w.limit && fuel > 5
    ensures Exec(w, Keeper(x, a, b), Frame(map[], [map[]]), depth, fuel).flow == Some(Returned(Int(a)))
  {
    var fr, fr1 := Frame(map[], [map[]]), Frame(map[], [map[x := Int(a)]]);
    var g := MakeClosure(w, Getter(x), fr1);
    var last := [Return(Some(Call(Ident("g"), [])))];
    var after := [Assign(Ident(x), None, IntLit(b), None)] + last;
    var all := [Let(x, IntLit(a), None), Fn(Getter(x))] + after;
    assert Step(w, all[0], fr, depth, fuel) == Ran(fr1, None) by {
      assert EvalHandled(w, IntLit(a), None, true, fr, depth, fuel - 1) == Handling(fr, Got(Some(Int(a))));
      assert Declare(fr, x, Int(a)) == fr1;
    }
    assert all == Keeper(x, a, b);
    assert all[1..] == [Fn(Getter(x))] + after;
    FnFirst(w, Getter(x), after, fr1, depth, fuel);
    AssignedAfter(w, x, b, g, Declare(fr1, "g", g), last, depth, fuel);
    GetterGets(w, x, a, fr1, depth, fuel - 2);
  }

  function Keeper(x: Name, a: int, b: int): seq<Stmt> {
    [Let(x, IntLit(a), None), Fn(Getter(x)), Assign(Ident(x), None, IntLit(b), None), Return(Some(Call(Ident("g"), [])))]
  }

  function Getter(x: Name): FnDecl {
    FnDecl("g", [], [], [], [Return(Some(Ident(x)))])
  }

  lemma AssignedAfter(w: World, x: Name, b: int, g: Value, fr: Frame, last: seq<Stmt>, depth: nat, fuel: nat)
    requires fuel > 5 && x != "g" && g.Closure? && last == [Return(Some(Call(Ident("g"), [])))]
    requires Lookup(fr, "g") == Some(g) && Lookup(fr, x).Some?
    ensures var r := CallValue(w, g, [], depth, fuel - 2);
      Exec(w, [Assign(Ident(x), None, IntLit(b), None)] + last, fr, depth, fuel).flow == Some(if r.Stop? then r.flow else Returned(r.v))
  {
    var all := [Assign(Ident(x), None, IntLit(b), None)] + last;
    AssignChangesOne(fr, x, Int(b));
    var next := AssignTo(fr, x, Int(b)).value;
    assert Step(w, all[0], fr, depth, fuel) == Ran(next, None) by {
      assert EvalHandled(w, IntLit(b), None, true, fr, depth, fuel - 1) == Handling(fr, Got(Some(Int(b))));
    }
    assert all[1..] == last;
    ReturnCall(w, "g", g, next, depth, fuel);
  }

  lemma GetterGets(w: World, x: Name, a: int, fr: Frame, depth: nat, fuel: nat)
    requires fuel > 2 && x != "g" && depth < w.limit && Lookup(fr, x) == Some(Int(a))
    ensures CallValue(w, MakeClosure(w, Getter(x), fr), [], depth, fuel) == Got(Int(a))
  {
    var d := Getter(x);
    var c := MakeClosure(w, d, fr);
    assert FreeInFn(d, x) by {
      assert FreeInStmt(d.body[0], x) by { assert Free(Ident(x), x); }
      assert FreeInBlock(d.body, x);
    }
    FreeNamesOccurFree(d, x);
    VisibleIs(fr, x);
    assert c.env[x] == Int(a);
    var inside := Frame(Captured(c), [map[]]);
    NotIn(x, inside);
    assert Eval(w, Ident(x), inside, depth + 1, fuel - 1) == Got(Int(a));
    var b := d.body;
    assert Exec(w, b, inside, depth + 1, fuel) == Step(w, b[0], inside, depth + 1, fuel);
    JustTheBody(w, c, depth, fuel);
  }

  // For every name with the prefix: a program that loses a local when closures copy free names
  // only, and keeps it when they copy every local.
  lemma LambdaNamesMislead(n: Name, fuel: nat)
    requires IsLambdaName(n) && fuel > 9
    ensures CallValue(World(map[], map[], 2000, OnlyFree), Func(Twisted(n)), [], 0, fuel) == Stop(Failed(NoSuchName))
    ensures CallValue(World(map[], map[], 2000, EveryLocal), Func(Twisted(n)), [], 0, fuel) == Got(Int(5))
  {
    TwistMain(n, World(map[], map[], 2000, OnlyFree), fuel);
    TwistMain(n, World(map[], map[], 2000, EveryLocal), fuel);
  }

  lemma TwistMain(n: Name, w: World, fuel: nat)
    requires IsLambdaName(n) && w.fns == map[] && w.variants == map[] && w.limit == 2000 && fuel > 9
    ensures CallValue(w, Func(Twisted(n)), [], 0, fuel) ==
      if w.capture.EveryLocal? then Got(Int(5)) else Stop(Failed(NoSuchName))
  {
    TwistBody(n, w, fuel);
    JustTheBody(w, Func(Twisted(n)), 0, fuel);
  }

  lemma TwistBody(n: Name, w: World, fuel: nat)
    requires IsLambdaName(n) && w.fns == map[] && w.variants == map[] && w.limit == 2000 && fuel > 9
    ensures Exec(w, Twisted(n).body, Frame(map[], [map[]]), 1, fuel).flow ==
      Some(if w.capture.EveryLocal? then Returned(Int(5)) else Failed(NoSuchName))
  {
    var fr1 := Frame(map[], [map[n := Int(5)]]);
    var g := MakeClosure(w, Outer(n), fr1);
    TwistMade(n, w, fr1);
    var fr2 := Declare(fr1, "g", g);
    TwistStarts(n, w, fr1, fr2, fuel);
    ReturnCall(w, "g", g, fr2, 1, fuel);
    TwistOuter(n, w, g.env, 1, fuel - 2);
  }

  lemma TwistStarts(n: Name, w: World, fr1: Frame, fr2: Frame, fuel: nat)
    requires fuel > 9 && fr1 == Frame(map[], [map[n := Int(5)]])
    requires fr2 == Declare(fr1, "g", MakeClosure(w, Outer(n), fr1))
    ensures Exec(w, Twisted(n).body, Frame(map[], [map[]]), 1, fuel) ==
      Exec(w, [Return(Some(Call(Ident("g"), [])))], fr2, 1, fuel)
  {
    var b := Twisted(n).body;
    var fr := Frame(map[], [map[]]);
    assert Step(w, b[0], fr, 1, fuel) == Ran(fr1, None) by {
      assert Declare(fr, n, Int(5)) == fr1;
      assert Eval(w, IntLit(5), fr, 1, fuel - 1) == Got(Int(5));
      assert EvalHandled(w, IntLit(5), None, true, fr, 1, fuel - 1) == Handling(fr, Got(Some(Int(5))));
    }
    assert b[1..] == [Fn(Outer(n))] + [Return(Some(Call(Ident("g"), [])))];
    FnFirst(w, Outer(n), [Return(Some(Call(Ident("g"), [])))], fr1, 1, fuel);
  }

  lemma TwistMade(n: Name, w: World, fr1: Frame)
    requires IsLambdaName(n) && fr1 == Frame(map[], [map[n := Int(5)]])
    ensures var g := MakeClosure(w, Outer(n), fr1);
      (n in g.env <==> w.capture.EveryLocal?) && (n in g.env ==> g.env[n] == Int(5)) &&
      Lookup(Declare(fr1, "g", g), "g") == Some(g)
  {
    TwistFreeNames(n);
    VisibleIs(fr1, n);
    assert Lookup(fr1, n) == Some(Int(5));
  }

  // ------------------------------------------------------------------ which names are safe

  // Whichever rule its closures follow, the program comes to the same.
  ghost predicate RulesAgree(fns: map<Name, FnDecl>, variants: map<Name, nat>, limit: nat, f: FnDecl, fuel: nat) {
    LikeOut(CallValue(World(fns, variants, limit, OnlyFree), Func(f), [], 0, fuel),
            CallValue(World(fns, variants, limit, EveryLocal), Func(f), [], 0, fuel))
  }

  // Nested functions may safely be called `n`.
  ghost predicate SafeName(n: Name) {
    forall fns: map<Name, FnDecl>, variants: map<Name, nat>, limit: nat, f: FnDecl, fuel: nat ::
      Checked(f, {n}) && (forall m :: m in fns ==> Checked(fns[m], {n})) ==> RulesAgree(fns, variants, limit, f, fuel)
  }

  // Exactly the names that do not start like the parser's names for anonymous functions are safe.
  lemma SafeNames(n: Name)
    ensures SafeName(n) <==> n == "" || n[0] != '\U{03BB}'
  {
    if IsLambdaName(n) {
      LambdaNamesMislead(n, 10);
      TwistNames(n);
      assert !RulesAgree(map[], map[], 2000, Twisted(n), 10);
    } else {
      forall fns: map<Name, FnDecl>, variants: map<Name, nat>, limit: nat, f: FnDecl, fuel: nat
        | Checked(f, {n}) && (forall m :: m in fns ==> Checked(fns[m], {n}))
        ensures RulesAgree(fns, variants, limit, f, fuel)
      {
        OrdinaryNamesAreTame(f, {n});
        forall m | m in fns ensures TameFn(fns[m]) { OrdinaryNamesAreTame(fns[m], {n}); }
        SameAnswer(fns, variants, limit, f, [], fuel);
      }
    }
  }

  lemma CallIsChecked(n: Name, but: set<Name>)
    ensures CheckedBlock([Return(Some(Call(Ident(n), [])))], but)
  {
    var b := [Return(Some(Call(Ident(n), [])))];
    assert CheckedExpr(Call(Ident(n), []), but) by { assert CheckedExpr(Ident(n), but) && CheckedAll([], but); }
    assert CheckedStmt(b[0], but);
    assert b[1..] == [];
  }

  lemma FnIsChecked(f: FnDecl, rest: seq<Stmt>, but: set<Name>)
    requires Checked(f, but) && (!IsLambdaName(f.name) || f.name in but) && CheckedBlock(rest, but)
    ensures CheckedBlock([Fn(f)] + rest, but)
  {
    var b := [Fn(f)] + rest;
    assert b[0] == Fn(f) && b[1..] == rest;
    assert CheckedStmt(b[0], but);
  }

  lemma TwistNames(n: Name)
    ensures Checked(Twisted(n), {n})
  {
    var inner := Inner(n).body;
    assert CheckedStmt(inner[0], {n}) by { assert CheckedExpr(Ident(n), {n}); }
    assert inner[1..] == [] && CheckedBlock(inner, {n}) by { assert CheckedBlock([], {n}); }
    assert Checked(Inner(n), {n}) by { assert CheckedAll([], {n}); }
    var last := [Return(Some(Call(Ident(n), [])))];
    CallIsChecked(n, {n});
    FnIsChecked(Inner(n), last, {n});
    assert Outer(n).body == [Fn(Inner(n))] + last;
    var end := [Return(Some(Call(Ident("g"), [])))];
    CallIsChecked("g", {n});
    FnIsChecked(Outer(n), end, {n});
    var b := Twisted(n).body;
    assert b[1..] == [Fn(Outer(n))] + end;
    assert CheckedStmt(b[0], {n});
  }

  // A nested function finds itself by its own name, unless that name starts like the parser's
  // names for anonymous functions: then it cannot call itself.
  lemma OwnName(w: World, d: FnDecl, fr: Frame, args: seq<Value>, depth: nat, fuel: nat)
    requires |args| == |d.params| && d.name !in d.params && d.name !in Visible(fr)
    requires d.name !in w.fns && d.name !in w.variants
    ensures var c := MakeClosure(w, d, fr);
      var inside := Frame(Captured(c), [Arguments(d.params, args)]);
      Callee(w, Ident(d.name), inside, depth, fuel) == if IsLambda(d) then Stop(Failed(NoSuchName)) else Got(c)
  {
    var c := MakeClosure(w, d, fr);
    var inside := Frame(Captured(c), [Arguments(d.params, args)]);
    ArgumentNames(d.params, args);
    VisibleIs(fr, d.name);
    assert inside.scopes[..0] == [];
    assert LookupIn(inside.scopes, d.name) == None;
  }

  lemma {:induction false} ArgumentNames(params: seq<Name>, args: seq<Value>)
    requires |params| == |args|
    ensures Arguments(params, args).Keys == SetOf(params)
    decreases |params|
  {
    if params != [] {
      var k := |params| - 1;
      ArgumentNames(params[..k], args[..k]);
      assert params == params[..k] + [params[k]];
    }
  }
}
