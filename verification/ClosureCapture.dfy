// Why a closure need only copy the free names of its function (micai/src/ast.rs, micai/src/interp.rs).
//
// Two interpreters run the same program. They may differ in what a new closure copies. Values
// correspond when they are equal up to closures whose copies agree on the free names of the
// closure's function; frames correspond when their scopes do and the captured parts agree on
// `names`. Every expression, statement and call keeps the correspondence.

module ClosureCapture {
  import opened ClosureSyntax
  import opened ClosureRun

  // ------------------------------------------------------------------ declarations the capture rule is right for

  // No function inside mentions its own name as an outside name, which can only happen to names
  // that look like the parser's names for anonymous functions, and every `let x = e catch e:` has
  // a value for `x` or leaves, which the type checker sees to.
  ghost predicate TameFn(f: FnDecl)
    decreases f
  {
    TameAll(f.pre) && TameBlock(f.body) && TameAll(f.post)
  }

  ghost predicate Tame(e: Expr)
    decreases e
  {
    match e
    case IntLit(_) => true
    case BoolLit(_) => true
    case NoneLit => true
    case StrLit(_) => true
    case Ident(_) => true
    case Parts(_, es) => TameAll(es)
    case Unary(_, a) => Tame(a)
    case Field(a, _) => Tame(a)
    case Binary(_, a, b) => Tame(a) && Tame(b)
    case Index(a, b) => Tame(a) && Tame(b)
    case IfExpr(c, a, b) => Tame(c) && Tame(a) && Tame(b)
    case OrElse(a, b) => Tame(a) && Tame(b)
    case Call(c, es) => Tame(c) && TameAll(es)
    case Lambda(f) => TameFn(f)
    case Spawn(f) => TameFn(f)
  }

  ghost predicate TameAll(es: seq<Expr>)
    decreases es
  {
    es == [] || (Tame(es[0]) && TameAll(es[1..]))
  }

  ghost predicate TameBlock(b: seq<Stmt>)
    decreases b
  {
    b == [] || (TameStmt(b[0]) && TameBlock(b[1..]))
  }

  ghost predicate TameStmt(s: Stmt)
    decreases s
  {
    match s
    case Let(_, e, c) => Tame(e) && TameCatch(c) && (c.Some? ==> HasEnd(c.value))
    case LetTuple(_, e) => Tame(e)
    case Assign(x, _, e, c) => Tame(x) && Tame(e) && TameCatch(c)
    case Do(e, c) => Tame(e) && TameCatch(c)
    case If(arms, els) => TameArms(arms) && TameBlock(els)
    case While(c, b) => Tame(c) && TameBlock(b)
    case For(_, _, e, b) => Tame(e) && TameBlock(b)
    case Match(e, cases) => Tame(e) && TameCases(cases)
    case Return(r) => r.None? || Tame(r.value)
    case Break => true
    case Continue => true
    case Fn(f) => f.name !in FreeNames(f) && TameFn(f)
    case Scoped(_, b) => TameBlock(b)
  }

  ghost predicate TameCatch(c: Option<Catch>)
    decreases c
  {
    c.Some? ==> TameBlock(c.value.body)
  }

  ghost predicate TameArms(arms: seq<Arm>)
    decreases arms
  {
    arms == [] || (TameArm(arms[0]) && TameArms(arms[1..]))
  }

  ghost predicate TameArm(a: Arm)
    decreases a
  {
    Tame(a.cond) && TameBlock(a.body)
  }

  ghost predicate TameCases(cases: seq<Case>)
    decreases cases
  {
    cases == [] || (TameCase(cases[0]) && TameCases(cases[1..]))
  }

  ghost predicate TameCase(c: Case)
    decreases c
  {
    TamePattern(c.pattern) && TameBlock(c.body)
  }

  ghost predicate TamePattern(p: Pattern)
    decreases p
  {
    p.Literal? ==> Tame(p.e)
  }

  ghost predicate TameWorld(w: World) {
    forall n :: n in w.fns ==> TameFn(w.fns[n])
  }

  // ------------------------------------------------------------------ corresponding values and frames

  ghost predicate Like(a: Value, b: Value)
    decreases a
  {
    match a
    case None_ => b.None_?
    case Int(_) => b == a
    case Bool(_) => b == a
    case Str(_) => b == a
    case Data(k, vs) => b.Data? && b.kind == k && |b.items| == |vs| && forall i :: 0 <= i < |vs| ==> Like(vs[i], b.items[i])
    case Func(f) => b == a && TameFn(f)
    case Closure(d, env) =>
      b.Closure? && b.decl == d && TameFn(d) &&
      forall n :: n in FreeNames(d) ==>
        (n in env <==> n in b.env) && (n in env && n in b.env ==> Like(env[n], b.env[n]))
    case Maker(_, _) => b == a
    case MakesError => b == a
  }

  ghost predicate LikeAll(a: seq<Value>, b: seq<Value>) {
    |a| == |b| && forall i :: 0 <= i < |a| ==> Like(a[i], b[i])
  }

  ghost predicate LikeScope(s: Scope, t: Scope) {
    s.Keys == t.Keys && forall n :: n in s && n in t ==> Like(s[n], t[n])
  }

  ghost predicate LikeEnv(names: set<Name>, s: Scope, t: Scope) {
    forall n :: n in names ==> (n in s <==> n in t) && (n in s && n in t ==> Like(s[n], t[n]))
  }

  ghost predicate LikeScopes(f: seq<Scope>, g: seq<Scope>) {
    |f| == |g| && forall i :: 0 <= i < |f| ==> LikeScope(f[i], g[i])
  }

  ghost predicate LikeFrame(names: set<Name>, f: Frame, g: Frame) {
    LikeScopes(f.scopes, g.scopes) && LikeEnv(names, f.env, g.env)
  }

  ghost predicate LikeFlow(a: Flow, b: Flow) {
    if a.Returned? then b.Returned? && Like(a.v, b.v) else b == a
  }

  ghost predicate LikeStop(a: Option<Flow>, b: Option<Flow>) {
    if a.Some? then b.Some? && LikeFlow(a.value, b.value) else b.None?
  }

  ghost predicate LikeOut(a: Outcome<Value>, b: Outcome<Value>) {
    if a.Got? then b.Got? && Like(a.v, b.v) else b.Stop? && LikeFlow(a.flow, b.flow)
  }

  ghost predicate LikeOuts(a: Outcome<seq<Value>>, b: Outcome<seq<Value>>) {
    if a.Got? then b.Got? && LikeAll(a.v, b.v) else b.Stop? && LikeFlow(a.flow, b.flow)
  }

  ghost predicate LikeTruth(a: Outcome<bool>, b: Outcome<bool>) {
    if a.Got? then b == a else b.Stop? && LikeFlow(a.flow, b.flow)
  }

  ghost predicate LikeFit(a: Outcome<Option<Scope>>, b: Outcome<Option<Scope>>, keys: set<Name>) {
    if a.Got? then
      b.Got? && (a.v.Some? <==> b.v.Some?) &&
      (a.v.Some? && b.v.Some? ==> LikeScope(a.v.value, b.v.value) && a.v.value.Keys == keys)
    else b.Stop? && LikeFlow(a.flow, b.flow)
  }

  ghost predicate LikeOption(a: Option<Value>, b: Option<Value>) {
    if a.Some? then b.Some? && Like(a.value, b.value) else b.None?
  }

  // The scopes of the rounds of a loop.
  ghost predicate LikeRounds(a: Option<seq<Scope>>, b: Option<seq<Scope>>, keys: set<Name>) {
    if a.Some? then
      b.Some? && LikeScopes(a.value, b.value) && forall i :: 0 <= i < |a.value| ==> a.value[i].Keys == keys
    else b.None?
  }

  // What an expression with its `catch` promises.
  ghost predicate LikeHandled(names: set<Name>, f: Frame, a: Handling, b: Handling) {
    LikeFrame(names, a.frame, b.frame) && Grows(f, a.frame) &&
    if a.out.Got? then b.out.Got? && LikeOption(a.out.v, b.out.v) else b.out.Stop? && LikeFlow(a.out.flow, b.out.flow)
  }

  ghost predicate SameProgram(v: World, w: World) {
    v.fns == w.fns && v.variants == w.variants && v.limit == w.limit && TameWorld(v)
  }

  ghost predicate Within(mentions: seq<Name>, names: set<Name>) {
    forall n :: n in mentions ==> n in names
  }

  // Everything bound on paper is in a scope, or is one of the captured names that agree.
  ghost predicate Agree(v: World, w: World, names: set<Name>, bound: set<Name>, f: Frame, g: Frame) {
    SameProgram(v, w) && LikeFrame(names, f, g) && f.scopes != [] && bound <= Keys(f.scopes) + names
  }

  // What a finished statement promises.
  ghost predicate AgreeAfter(names: set<Name>, f: Frame, a: Ran, b: Ran) {
    LikeStop(a.flow, b.flow) && LikeFrame(names, a.frame, b.frame) && Grows(f, a.frame)
  }

  // ------------------------------------------------------------------ name lists

  lemma {:induction false} GatherKeeps(out: seq<Name>, names: seq<Name>, n: Name)
    ensures n in Gather(out, names) <==> n in out || n in names
    decreases |names|
  {
    if names != [] {
      var next := if names[0] in out then out else out + [names[0]];
      GatherKeeps(next, names[1..], n);
      assert names == [names[0]] + names[1..];
    }
  }

  ghost predicate Once(names: seq<Name>) {
    forall i, j :: 0 <= i < j < |names| ==> names[i] != names[j]
  }

  lemma {:induction false} GatherOnce(out: seq<Name>, names: seq<Name>)
    requires Once(out)
    ensures Once(Gather(out, names))
    decreases |names|
  {
    if names != [] {
      GatherOnce(if names[0] in out then out else out + [names[0]], names[1..]);
    }
  }

  lemma {:induction false} UnboundIs(names: seq<Name>, bound: set<Name>, n: Name)
    ensures n in Unbound(names, bound) <==> n in names && n !in bound
  {
    if names != [] {
      UnboundIs(names[1..], bound, n);
      assert names == [names[0]] + names[1..];
    }
  }

  lemma FreeNamesAre(f: FnDecl)
    ensures Within(FnMentions(f), SetOf(FreeNames(f)))
    ensures SetOf(FreeNames(f)) == SetOf(FnMentions(f))
    ensures Once(FreeNames(f))
  {
    forall n ensures n in FreeNames(f) <==> n in FnMentions(f) { GatherKeeps([], FnMentions(f), n); }
    GatherOnce([], FnMentions(f));
  }

  lemma WithinParts(a: seq<Name>, b: seq<Name>, names: set<Name>)
    ensures Within(a + b, names) <==> Within(a, names) && Within(b, names)
  {
    assert Within(a + b, names) ==> (forall n :: n in a || n in b ==> n in a + b);
    if Within(a, names) && Within(b, names) {
      assert forall n :: n in a + b ==> n in a || n in b;
    } else {
      if !Within(a, names) {
        var n :| n in a && n !in names;
        assert n in a + b;
      } else {
        var n :| n in b && n !in names;
        assert n in a + b;
      }
    }
  }

  // ------------------------------------------------------------------ scopes

  lemma {:induction false} LookupInAlike(f: seq<Scope>, g: seq<Scope>, n: Name)
    requires LikeScopes(f, g)
    ensures LookupIn(f, n).Some? <==> LookupIn(g, n).Some?
    ensures LookupIn(f, n).Some? <==> n in Keys(f)
    ensures LookupIn(f, n).Some? ==> Like(LookupIn(f, n).value, LookupIn(g, n).value)
    ensures Keys(f) == Keys(g)
    decreases |f|
  {
    if f != [] {
      var k := |f| - 1;
      assert LikeScope(f[k], g[k]);
      LookupInAlike(f[..k], g[..k], n);
    }
  }

  lemma LookupAlike(names: set<Name>, f: Frame, g: Frame, n: Name)
    requires LikeFrame(names, f, g)
    requires n in Keys(f.scopes) + names
    ensures Lookup(f, n).Some? <==> Lookup(g, n).Some?
    ensures Lookup(f, n).Some? ==> Like(Lookup(f, n).value, Lookup(g, n).value)
  {
    LookupInAlike(f.scopes, g.scopes, n);
  }

  lemma {:induction false} AssignInAlike(f: seq<Scope>, g: seq<Scope>, n: Name, a: Value, b: Value)
    requires LikeScopes(f, g) && Like(a, b)
    ensures AssignIn(f, n, a).Some? <==> n in Keys(f)
    ensures AssignIn(g, n, b).Some? <==> n in Keys(f)
    ensures AssignIn(f, n, a).Some? ==>
      var r := AssignIn(f, n, a).value;
      LikeScopes(r, AssignIn(g, n, b).value) && |r| == |f| && forall i :: 0 <= i < |f| ==> f[i].Keys <= r[i].Keys
    decreases |f|
  {
    if f != [] {
      var k := |f| - 1;
      assert LikeScope(f[k], g[k]);
      if n in f[k] {
        LikeScopePut(f[k], g[k], n, a, b);
        LikeScopesPut(f, g, k, f[k][n := a], g[k][n := b]);
      } else {
        AssignInAlike(f[..k], g[..k], n, a, b);
      }
    }
  }

  lemma AssignToAlike(names: set<Name>, f: Frame, g: Frame, n: Name, a: Value, b: Value)
    requires LikeFrame(names, f, g) && Like(a, b)
    requires n in Keys(f.scopes) + names
    ensures AssignTo(f, n, a).Some? <==> AssignTo(g, n, b).Some?
    ensures AssignTo(f, n, a).Some? ==>
      LikeFrame(names, AssignTo(f, n, a).value, AssignTo(g, n, b).value) && Grows(f, AssignTo(f, n, a).value)
  {
    AssignInAlike(f.scopes, g.scopes, n, a, b);
  }

  lemma DeclareAlike(names: set<Name>, f: Frame, g: Frame, n: Name, a: Value, b: Value)
    requires LikeFrame(names, f, g) && Like(a, b)
    ensures LikeFrame(names, Declare(f, n, a), Declare(g, n, b))
    ensures Grows(f, Declare(f, n, a))
    ensures Redeclares(f, n) <==> Redeclares(g, n)
    ensures f.scopes != [] ==> n in Keys(Declare(f, n, a).scopes)
  {
    if f.scopes != [] {
      var k := |f.scopes| - 1;
      assert LikeScope(f.scopes[k], g.scopes[k]);
      LikeScopePut(f.scopes[k], g.scopes[k], n, a, b);
      LikeScopesPut(f.scopes, g.scopes, k, f.scopes[k][n := a], g.scopes[k][n := b]);
    }
  }

  lemma LikeScopePut(s: Scope, t: Scope, n: Name, a: Value, b: Value)
    requires LikeScope(s, t) && Like(a, b)
    ensures LikeScope(s[n := a], t[n := b])
  {
  }

  lemma LikeScopesPut(f: seq<Scope>, g: seq<Scope>, k: nat, s: Scope, t: Scope)
    requires LikeScopes(f, g) && k < |f| && LikeScope(s, t)
    ensures LikeScopes(f[k := s], g[k := t])
  {
  }

  lemma {:induction false} GrowsKeys(f: seq<Scope>, g: seq<Scope>)
    requires |f| == |g| && forall i :: 0 <= i < |f| ==> f[i].Keys <= g[i].Keys
    ensures Keys(f) <= Keys(g)
    decreases |f|
  {
    if f != [] {
      GrowsKeys(f[..|f| - 1], g[..|f| - 1]);
    }
  }

  // The correspondence outlives a statement.
  lemma AgreeStill(v: World, w: World, names: set<Name>, bound: set<Name>, f: Frame, g: Frame, a: Ran, b: Ran)
    requires Agree(v, w, names, bound, f, g) && AgreeAfter(names, f, a, b)
    ensures Agree(v, w, names, bound, a.frame, b.frame)
  {
    GrowsKeys(f.scopes, a.frame.scopes);
  }

  lemma GrowsOn(f: Frame, g: Frame, h: Frame)
    requires Grows(f, g) && Grows(g, h)
    ensures Grows(f, h)
  {
    forall i | 0 <= i < |f.scopes| ensures f.scopes[i].Keys <= h.scopes[i].Keys {
      assert f.scopes[i].Keys <= g.scopes[i].Keys;
    }
  }

  lemma PushAgrees(v: World, w: World, names: set<Name>, bound: set<Name>, f: Frame, g: Frame, s: Scope, t: Scope)
    requires Agree(v, w, names, bound, f, g) && LikeScope(s, t)
    ensures Agree(v, w, names, bound + s.Keys, Push(f, s), Push(g, t))
  {
    assert Push(f, s).scopes[..|f.scopes|] == f.scopes;
  }

  lemma PopAgrees(names: set<Name>, f: Frame, s: Scope, a: Ran, b: Ran)
    requires AgreeAfter(names, Push(f, s), a, b)
    ensures AgreeAfter(names, f, Ran(Pop(a.frame), a.flow), Ran(Pop(b.frame), b.flow))
  {
    forall i | 0 <= i < |f.scopes| ensures f.scopes[i].Keys <= Pop(a.frame).scopes[i].Keys {
      assert Push(f, s).scopes[i] == f.scopes[i];
    }
  }

  // ------------------------------------------------------------------ values

  lemma {:induction false} EqValueAlike(a: Value, b: Value, c: Value, d: Value)
    requires Like(a, c) && Like(b, d)
    ensures EqValue(a, b) == EqValue(c, d)
    decreases a
  {
    if a.Data? && b.Data? && |a.items| == |b.items| {
      if a.kind.KDict? {
        EqPairsAlike(a.items, b.items, c.items, d.items, 0);
      } else {
        forall i | 0 <= i < |a.items| ensures EqValue(a.items[i], b.items[i]) == EqValue(c.items[i], d.items[i]) {
          EqValueAlike(a.items[i], b.items[i], c.items[i], d.items[i]);
        }
      }
    }
  }

  lemma {:induction false} EqPairsAlike(a: seq<Value>, b: seq<Value>, c: seq<Value>, d: seq<Value>, j: nat)
    requires LikeAll(a, c) && LikeAll(b, d)
    ensures EqPairs(a, b, j) == EqPairs(c, d, j)
    decreases a, |b| - j
  {
    if |a| >= 2 && j + 1 < |b| {
      EqValueAlike(a[0], b[j], c[0], d[j]);
      EqValueAlike(a[1], b[j + 1], c[1], d[j + 1]);
      EqPairsAlike(a[2..], b, c[2..], d, 0);
      EqPairsAlike(a, b, c, d, j + 2);
    }
  }

  lemma {:induction false} DictGetAlike(a: seq<Value>, b: seq<Value>, key: Value, like: Value)
    requires LikeAll(a, b) && Like(key, like)
    ensures Like(DictGet(a, key), DictGet(b, like))
    decreases |a|
  {
    if |a| >= 2 {
      EqValueAlike(a[0], key, b[0], like);
      DictGetAlike(a[2..], b[2..], key, like);
    }
  }

  lemma {:induction false} ReprAlike(a: Value, b: Value)
    requires Like(a, b)
    ensures Repr(a) == Repr(b)
    decreases a
  {
    if a.Data? {
      ReprEachAlike(a.items, b.items);
      ReprPairsAlike(a.items, b.items);
    }
  }

  lemma {:induction false} ReprEachAlike(a: seq<Value>, b: seq<Value>)
    requires LikeAll(a, b)
    ensures ReprEach(a) == ReprEach(b)
    decreases a
  {
    if a != [] {
      ReprAlike(a[0], b[0]);
      ReprEachAlike(a[1..], b[1..]);
    }
  }

  lemma {:induction false} ReprPairsAlike(a: seq<Value>, b: seq<Value>)
    requires LikeAll(a, b)
    ensures ReprPairs(a) == ReprPairs(b)
    decreases a
  {
    if |a| >= 2 {
      ReprAlike(a[0], b[0]);
      ReprAlike(a[1], b[1]);
      ReprPairsAlike(a[2..], b[2..]);
    }
  }

  lemma {:induction false} DisplayAllAlike(a: seq<Value>, b: seq<Value>)
    requires LikeAll(a, b)
    ensures DisplayAll(a) == DisplayAll(b)
    decreases |a|
  {
    if a != [] {
      ReprAlike(a[0], b[0]);
      DisplayAllAlike(a[1..], b[1..]);
    }
  }

  lemma ApplyAlike(op: BinOp, a: Value, b: Value, c: Value, d: Value)
    requires Like(a, c) && Like(b, d)
    ensures LikeOut(Apply(op, a, b), Apply(op, c, d))
  {
    EqValueAlike(a, b, c, d);
  }

  lemma ApplyUnaryAlike(un: UnOp, a: Value, b: Value)
    requires Like(a, b)
    ensures LikeOut(ApplyUnary(un, a), ApplyUnary(un, b))
  {
  }

  lemma AtAlike(a: Value, b: Value, c: Value, d: Value)
    requires Like(a, c) && Like(b, d)
    ensures LikeOut(At(a, b), At(c, d))
  {
    if a.Data? { DictGetAlike(a.items, c.items, b, d); }
  }

  lemma MakeAlike(form: Form, a: seq<Value>, b: seq<Value>)
    requires LikeAll(a, b)
    ensures Like(Make(form, a), Make(form, b))
  {
    DisplayAllAlike(a, b);
  }

  lemma MakeErrorAlike(a: seq<Value>, b: seq<Value>)
    requires LikeAll(a, b)
    ensures Like(MakeError(a), MakeError(b))
  {
    if a != [] { ReprAlike(a[0], b[0]); }
  }

  lemma RoundsAlike(n: Name, m: Option<Name>, a: Value, b: Value)
    requires Like(a, b)
    ensures LikeRounds(Rounds(n, m, a), Rounds(n, m, b), {n} + NameOf(m))
  {
    if m.Some? {
      if a.Data? { PairScopesAlike(n, m.value, a.items, b.items); }
    } else if a.Data? {
      ItemScopesAlike(n, a.items, b.items);
    } else if a.Str? {
      CharScopesAlike(n, a.s);
    }
  }

  lemma {:induction false} ItemScopesAlike(n: Name, a: seq<Value>, b: seq<Value>)
    requires LikeAll(a, b)
    ensures LikeRounds(Some(ItemScopes(n, a)), Some(ItemScopes(n, b)), {n})
    decreases |a|
  {
    if a != [] {
      ItemScopesAlike(n, a[1..], b[1..]);
      RoundFirst(map[n := a[0]], map[n := b[0]], ItemScopes(n, a[1..]), ItemScopes(n, b[1..]), {n});
    }
  }

  lemma {:induction false} PairScopesAlike(n: Name, m: Name, a: seq<Value>, b: seq<Value>)
    requires LikeAll(a, b)
    ensures LikeRounds(Some(PairScopes(n, m, a)), Some(PairScopes(n, m, b)), {n} + {m})
    decreases |a|
  {
    if |a| >= 2 {
      PairScopesAlike(n, m, a[2..], b[2..]);
      RoundFirst(map[n := a[0]][m := a[1]], map[n := b[0]][m := b[1]], PairScopes(n, m, a[2..]), PairScopes(n, m, b[2..]), {n} + {m});
    }
  }

  lemma {:induction false} CharScopesAlike(n: Name, s: string)
    ensures LikeRounds(Some(CharScopes(n, s)), Some(CharScopes(n, s)), {n})
    decreases |s|
  {
    if s != [] {
      CharScopesAlike(n, s[1..]);
      var first: Scope := map[n := Str([s[0]])];
      RoundFirst(first, first, CharScopes(n, s[1..]), CharScopes(n, s[1..]), {n});
    }
  }

  lemma RoundFirst(s: Scope, t: Scope, xs: seq<Scope>, ys: seq<Scope>, keys: set<Name>)
    requires LikeScope(s, t) && s.Keys == keys && LikeRounds(Some(xs), Some(ys), keys)
    ensures LikeRounds(Some([s] + xs), Some([t] + ys), keys)
  {
  }

  lemma ClosureAlike(v: World, w: World, names: set<Name>, bound: set<Name>, d: FnDecl, f: Frame, g: Frame)
    requires Agree(v, w, names, bound, f, g)
    requires TameFn(d) && Within(Unbound(FreeNames(d), bound), names)
    ensures Like(MakeClosure(v, d, f), MakeClosure(w, d, g))
  {
    var a, b := MakeClosure(v, d, f), MakeClosure(w, d, g);
    forall n | n in FreeNames(d)
      ensures (n in a.env <==> n in b.env) && (n in a.env && n in b.env ==> Like(a.env[n], b.env[n]))
    {
      UnboundIs(FreeNames(d), bound, n);
      LookupAlike(names, f, g, n);
      Holds(v, d, f, n);
      Holds(w, d, g, n);
    }
  }

  /** Whatever the rule, a closure holds the free names that are in sight. */
  lemma Holds(w: World, d: FnDecl, fr: Frame, n: Name)
    requires n in FreeNames(d)
    ensures n in MakeClosure(w, d, fr).env <==> Lookup(fr, n).Some?
    ensures n in MakeClosure(w, d, fr).env ==> Some(MakeClosure(w, d, fr).env[n]) == Lookup(fr, n)
  {
    VisibleIs(fr, n);
  }

  lemma {:induction false} KeysAre(f: seq<Scope>, n: Name)
    ensures LookupIn(f, n).Some? <==> n in Keys(f)
    decreases |f|
  {
    if f != [] {
      KeysAre(f[..|f| - 1], n);
    }
  }

  lemma VisibleIs(f: Frame, n: Name)
    ensures Lookup(f, n).Some? <==> n in Visible(f)
  {
    KeysAre(f.scopes, n);
  }

  lemma {:induction false} ArgumentsAlike(params: seq<Name>, a: seq<Value>, b: seq<Value>)
    requires LikeAll(a, b) && |params| == |a|
    ensures LikeScope(Arguments(params, a), Arguments(params, b))
    ensures Arguments(params, a).Keys == SetOf(params)
    decreases |params|
  {
    if params != [] {
      var k := |params| - 1;
      ArgumentsAlike(params[..k], a[..k], b[..k]);
      assert params == params[..k] + [params[k]];
    }
  }

  lemma {:induction false} DeclareAllAlike(names: set<Name>, f: Frame, g: Frame, ns: seq<Name>, a: seq<Value>, b: seq<Value>)
    requires LikeFrame(names, f, g) && f.scopes != [] && LikeAll(a, b) && |ns| == |a|
    ensures AgreeAfter(names, f, DeclareAll(f, ns, a), DeclareAll(g, ns, b))
    ensures DeclareAll(f, ns, a).flow.None? ==> SetOf(ns) <= Keys(DeclareAll(f, ns, a).frame.scopes)
    decreases |ns|
  {
    if ns != [] {
      DeclareAlike(names, f, g, ns[0], a[0], b[0]);
      if !Redeclares(f, ns[0]) {
        var f', g' := Declare(f, ns[0], a[0]), Declare(g, ns[0], b[0]);
        DeclareAllAlike(names, f', g', ns[1..], a[1..], b[1..]);
        GrowsOn(f, f', DeclareAll(f', ns[1..], a[1..]).frame);
        GrowsKeys(f'.scopes, DeclareAll(f', ns[1..], a[1..]).frame.scopes);
        assert ns == [ns[0]] + ns[1..];
      }
    }
  }

  // ------------------------------------------------------------------ expressions

  lemma {:induction false} EvalAlike(v: World, w: World, names: set<Name>, bound: set<Name>, e: Expr, f: Frame, g: Frame, depth: nat, fuel: nat)
    requires Agree(v, w, names, bound, f, g) && Tame(e) && Within(Mentions(e, bound), names)
    ensures LikeOut(Eval(v, e, f, depth, fuel), Eval(w, e, g, depth, fuel))
    decreases fuel, 2
  {
    if fuel > 0 {
      if IsWord(e) { WordAlike(v, w, names, bound, e, f, g, depth, fuel); }
      else if e.Parts? { PartsAlike(v, w, names, bound, e.form, e.parts, f, g, depth, fuel); }
      else if e.Unary? { UnaryAlike(v, w, names, bound, e.un, e.inner, f, g, depth, fuel); }
      else if e.Field? { FieldAlike(v, w, names, bound, e.owner, e.part, f, g, depth, fuel); }
      else if e.Binary? { BinaryExprAlike(v, w, names, bound, e.op, e.left, e.right, f, g, depth, fuel); }
      else if e.Index? { IndexAlike(v, w, names, bound, e.obj, e.idx, f, g, depth, fuel); }
      else if e.IfExpr? { IfExprAlike(v, w, names, bound, e.cond, e.yes, e.no, f, g, depth, fuel); }
      else if e.OrElse? { OrElseAlike(v, w, names, bound, e.value, e.fallback, f, g, depth, fuel); }
      else { CallExprAlike(v, w, names, bound, e.callee, e.args, f, g, depth, fuel); }
    }
  }

  // Nothing inside is evaluated.
  predicate IsWord(e: Expr) {
    e.IntLit? || e.BoolLit? || e.NoneLit? || e.StrLit? || e.Ident? || e.Lambda? || e.Spawn?
  }

  lemma WordAlike(v: World, w: World, names: set<Name>, bound: set<Name>, e: Expr, f: Frame, g: Frame, depth: nat, fuel: nat)
    requires fuel > 0 && IsWord(e)
    requires Agree(v, w, names, bound, f, g) && Tame(e) && Within(Mentions(e, bound), names)
    ensures LikeOut(Eval(v, e, f, depth, fuel), Eval(w, e, g, depth, fuel))
  {
    if e.Ident? {
      if e.name !in bound { assert Mentions(e, bound)[0] == e.name; }
      NameAlike(v, w, names, e.name, f, g);
    } else if e.Lambda? || e.Spawn? {
      ClosureAlike(v, w, names, bound, e.f, f, g);
    }
  }

  lemma {:induction false} UnaryAlike(v: World, w: World, names: set<Name>, bound: set<Name>, un: UnOp, a: Expr, f: Frame, g: Frame, depth: nat, fuel: nat)
    requires fuel > 0
    requires Agree(v, w, names, bound, f, g) && Tame(a) && Within(Mentions(a, bound), names)
    ensures LikeOut(Eval(v, Unary(un, a), f, depth, fuel), Eval(w, Unary(un, a), g, depth, fuel))
    decreases fuel, 0
  {
    EvalAlike(v, w, names, bound, a, f, g, depth, fuel - 1);
    var x, y := Eval(v, a, f, depth, fuel - 1), Eval(w, a, g, depth, fuel - 1);
    if x.Got? { ApplyUnaryAlike(un, x.v, y.v); }
  }

  lemma {:induction false} FieldAlike(v: World, w: World, names: set<Name>, bound: set<Name>, a: Expr, part: nat, f: Frame, g: Frame, depth: nat, fuel: nat)
    requires fuel > 0
    requires Agree(v, w, names, bound, f, g) && Tame(a) && Within(Mentions(a, bound), names)
    ensures LikeOut(Eval(v, Field(a, part), f, depth, fuel), Eval(w, Field(a, part), g, depth, fuel))
    decreases fuel, 0
  {
    EvalAlike(v, w, names, bound, a, f, g, depth, fuel - 1);
  }

  lemma {:induction false} BinaryExprAlike(v: World, w: World, names: set<Name>, bound: set<Name>, op: BinOp, a: Expr, b: Expr, f: Frame, g: Frame, depth: nat, fuel: nat)
    requires fuel > 0
    requires Agree(v, w, names, bound, f, g) && Tame(Binary(op, a, b)) && Within(Mentions(Binary(op, a, b), bound), names)
    ensures LikeOut(Eval(v, Binary(op, a, b), f, depth, fuel), Eval(w, Binary(op, a, b), g, depth, fuel))
    decreases fuel, 0
  {
    WithinParts(Mentions(a, bound), Mentions(b, bound), names);
    BinaryAlike(v, w, names, bound, op, a, b, f, g, depth, fuel - 1);
  }

  lemma {:induction false} PartsAlike(v: World, w: World, names: set<Name>, bound: set<Name>, form: Form, es: seq<Expr>, f: Frame, g: Frame, depth: nat, fuel: nat)
    requires fuel > 0
    requires Agree(v, w, names, bound, f, g) && TameAll(es) && Within(ListMentions(es, bound), names)
    ensures LikeOut(Eval(v, Parts(form, es), f, depth, fuel), Eval(w, Parts(form, es), g, depth, fuel))
    decreases fuel, 0
  {
    EvalAllAlike(v, w, names, bound, es, f, g, depth, fuel - 1);
    var x, y := EvalAll(v, es, f, depth, fuel - 1), EvalAll(w, es, g, depth, fuel - 1);
    if x.Got? { MakeAlike(form, x.v, y.v); }
  }

  lemma {:induction false} IndexAlike(v: World, w: World, names: set<Name>, bound: set<Name>, a: Expr, b: Expr, f: Frame, g: Frame, depth: nat, fuel: nat)
    requires fuel > 0
    requires Agree(v, w, names, bound, f, g) && Tame(Index(a, b)) && Within(Mentions(Index(a, b), bound), names)
    ensures LikeOut(Eval(v, Index(a, b), f, depth, fuel), Eval(w, Index(a, b), g, depth, fuel))
    decreases fuel, 0
  {
    WithinParts(Mentions(a, bound), Mentions(b, bound), names);
    EvalAlike(v, w, names, bound, a, f, g, depth, fuel - 1);
    EvalAlike(v, w, names, bound, b, f, g, depth, fuel - 1);
    var x, y := Eval(v, a, f, depth, fuel - 1), Eval(v, b, f, depth, fuel - 1);
    if x.Got? && y.Got? {
      AtAlike(x.v, y.v, Eval(w, a, g, depth, fuel - 1).v, Eval(w, b, g, depth, fuel - 1).v);
    }
  }

  lemma {:induction false} OrElseAlike(v: World, w: World, names: set<Name>, bound: set<Name>, a: Expr, b: Expr, f: Frame, g: Frame, depth: nat, fuel: nat)
    requires fuel > 0
    requires Agree(v, w, names, bound, f, g) && Tame(OrElse(a, b)) && Within(Mentions(OrElse(a, b), bound), names)
    ensures LikeOut(Eval(v, OrElse(a, b), f, depth, fuel), Eval(w, OrElse(a, b), g, depth, fuel))
    decreases fuel, 0
  {
    WithinParts(Mentions(a, bound), Mentions(b, bound), names);
    EvalAlike(v, w, names, bound, a, f, g, depth, fuel - 1);
    if Eval(v, a, f, depth, fuel - 1) == Got(None_) {
      EvalAlike(v, w, names, bound, b, f, g, depth, fuel - 1);
    }
  }

  lemma NameAlike(v: World, w: World, names: set<Name>, n: Name, f: Frame, g: Frame)
    requires SameProgram(v, w) && LikeFrame(names, f, g)
    requires n in Keys(f.scopes) + names
    ensures LikeOut(ClosureRun.Name(v, n, f), ClosureRun.Name(w, n, g))
  {
    LookupAlike(names, f, g, n);
  }

  lemma {:induction false} IfExprAlike(v: World, w: World, names: set<Name>, bound: set<Name>, c: Expr, a: Expr, b: Expr, f: Frame, g: Frame, depth: nat, fuel: nat)
    requires fuel > 0
    requires Agree(v, w, names, bound, f, g) && Tame(IfExpr(c, a, b)) && Within(Mentions(IfExpr(c, a, b), bound), names)
    ensures LikeOut(Eval(v, IfExpr(c, a, b), f, depth, fuel), Eval(w, IfExpr(c, a, b), g, depth, fuel))
    decreases fuel, 0
  {
    WithinParts(Mentions(c, bound) + Mentions(a, bound), Mentions(b, bound), names);
    WithinParts(Mentions(c, bound), Mentions(a, bound), names);
    TruthAlike(v, w, names, bound, c, f, g, depth, fuel - 1);
    EvalAlike(v, w, names, bound, a, f, g, depth, fuel - 1);
    EvalAlike(v, w, names, bound, b, f, g, depth, fuel - 1);
  }

  lemma {:induction false} CallExprAlike(v: World, w: World, names: set<Name>, bound: set<Name>, c: Expr, es: seq<Expr>, f: Frame, g: Frame, depth: nat, fuel: nat)
    requires fuel > 0
    requires Agree(v, w, names, bound, f, g) && Tame(Call(c, es)) && Within(Mentions(Call(c, es), bound), names)
    ensures LikeOut(Eval(v, Call(c, es), f, depth, fuel), Eval(w, Call(c, es), g, depth, fuel))
    decreases fuel, 0
  {
    WithinParts(Mentions(c, bound), ListMentions(es, bound), names);
    CalleeAlike(v, w, names, bound, c, f, g, depth, fuel - 1);
    EvalAllAlike(v, w, names, bound, es, f, g, depth, fuel - 1);
    var a, b := Callee(v, c, f, depth, fuel - 1), Callee(w, c, g, depth, fuel - 1);
    var args, brgs := EvalAll(v, es, f, depth, fuel - 1), EvalAll(w, es, g, depth, fuel - 1);
    if a.Got? && args.Got? {
      CallAlike(v, w, a.v, b.v, args.v, brgs.v, depth, fuel - 1);
    }
  }

  lemma {:induction false} CalleeAlike(v: World, w: World, names: set<Name>, bound: set<Name>, c: Expr, f: Frame, g: Frame, depth: nat, fuel: nat)
    requires Agree(v, w, names, bound, f, g) && Tame(c) && Within(Mentions(c, bound), names)
    ensures LikeOut(Callee(v, c, f, depth, fuel), Callee(w, c, g, depth, fuel))
    decreases fuel, 3
  {
    if c.Ident? {
      if c.name !in bound { assert Mentions(c, bound)[0] == c.name; }
      LookupAlike(names, f, g, c.name);
      GlobalAlike(v, w, c.name, Lookup(f, c.name), Lookup(g, c.name));
    } else {
      EvalAlike(v, w, names, bound, c, f, g, depth, fuel);
    }
  }

  lemma GlobalAlike(v: World, w: World, n: Name, a: Option<Value>, b: Option<Value>)
    requires SameProgram(v, w) && LikeOption(a, b)
    ensures LikeOut(Global(v, n, a), Global(w, n, b))
  {
  }

  lemma {:induction false} TruthAlike(v: World, w: World, names: set<Name>, bound: set<Name>, e: Expr, f: Frame, g: Frame, depth: nat, fuel: nat)
    requires Agree(v, w, names, bound, f, g) && Tame(e) && Within(Mentions(e, bound), names)
    ensures LikeTruth(Truth(v, e, f, depth, fuel), Truth(w, e, g, depth, fuel))
    decreases fuel, 3
  {
    EvalAlike(v, w, names, bound, e, f, g, depth, fuel);
  }

  lemma {:induction false} BinaryAlike(v: World, w: World, names: set<Name>, bound: set<Name>, op: BinOp, a: Expr, b: Expr, f: Frame, g: Frame, depth: nat, fuel: nat)
    requires Agree(v, w, names, bound, f, g) && Tame(a) && Tame(b)
    requires Within(Mentions(a, bound), names) && Within(Mentions(b, bound), names)
    ensures LikeOut(EvalBinary(v, op, a, b, f, depth, fuel), EvalBinary(w, op, a, b, g, depth, fuel))
    decreases fuel, 4
  {
    if op.And? || op.Or? {
      TruthAlike(v, w, names, bound, a, f, g, depth, fuel);
      TruthAlike(v, w, names, bound, b, f, g, depth, fuel);
    } else {
      EvalAlike(v, w, names, bound, a, f, g, depth, fuel);
      EvalAlike(v, w, names, bound, b, f, g, depth, fuel);
      var x, y := Eval(v, a, f, depth, fuel), Eval(v, b, f, depth, fuel);
      if x.Got? && y.Got? {
        ApplyAlike(op, x.v, y.v, Eval(w, a, g, depth, fuel).v, Eval(w, b, g, depth, fuel).v);
      }
    }
  }

  lemma {:induction false} EvalAllAlike(v: World, w: World, names: set<Name>, bound: set<Name>, es: seq<Expr>, f: Frame, g: Frame, depth: nat, fuel: nat)
    requires Agree(v, w, names, bound, f, g) && TameAll(es) && Within(ListMentions(es, bound), names)
    ensures LikeOuts(EvalAll(v, es, f, depth, fuel), EvalAll(w, es, g, depth, fuel))
    decreases fuel, 3, |es|
  {
    if es != [] {
      WithinParts(Mentions(es[0], bound), ListMentions(es[1..], bound), names);
      EvalAlike(v, w, names, bound, es[0], f, g, depth, fuel);
      EvalAllAlike(v, w, names, bound, es[1..], f, g, depth, fuel);
    }
  }

  // ------------------------------------------------------------------ calls

  // Corresponding functions called with corresponding arguments come to corresponding ends.
  lemma {:induction false} CallAlike(v: World, w: World, a: Value, b: Value, args: seq<Value>, brgs: seq<Value>, depth: nat, fuel: nat)
    requires SameProgram(v, w) && Like(a, b) && LikeAll(args, brgs)
    ensures LikeOut(CallValue(v, a, args, depth, fuel), CallValue(w, b, brgs, depth, fuel))
    decreases fuel, 5
  {
    if a.Func? || a.Closure? {
      var d := Code(a);
      if depth + 1 <= v.limit && |args| == |d.params| {
        ArgumentsAlike(d.params, args, brgs);
        FreeNamesAre(d);
        CapturedAlike(a, b);
        var f := Frame(Captured(a), [Arguments(d.params, args)]);
        var g := Frame(Captured(b), [Arguments(d.params, brgs)]);
        assert Keys(f.scopes) == SetOf(d.params) by { assert f.scopes[..0] == []; }
        var names := SetOf(FreeNames(d)) + Own(d);
        BodyAlike(v, w, names, d, f, g, depth + 1, fuel);
      }
    } else if a.MakesError? {
      MakeErrorAlike(args, brgs);
    }
  }

  // A named function is called with its own name in sight.
  ghost function Own(d: FnDecl): set<Name> {
    if IsLambda(d) then {} else {d.name}
  }

  lemma CapturedAlike(a: Value, b: Value)
    requires Like(a, b) && (a.Func? || a.Closure?)
    ensures LikeEnv(SetOf(FreeNames(Code(a))) + Own(Code(a)), Captured(a), Captured(b))
  {
  }

  lemma {:induction false} BodyAlike(v: World, w: World, names: set<Name>, d: FnDecl, f: Frame, g: Frame, depth: nat, fuel: nat)
    requires Agree(v, w, names, Given(d), f, g) && TameFn(d) && Within(FnMentions(d), names)
    ensures LikeOut(RunBody(v, d, f, depth, fuel), RunBody(w, d, g, depth, fuel))
    decreases fuel, 4
  {
    WithinParts(ListMentions(d.pre, Given(d)) + BlockMentions(d.body, Given(d)), ListMentions(d.post, Given(d) + {"result"}), names);
    WithinParts(ListMentions(d.pre, Given(d)), BlockMentions(d.body, Given(d)), names);
    ContractAlike(v, w, names, Given(d), d.pre, PreBroken, f, g, depth, fuel);
    ExecAlike(v, w, names, Given(d), d.body, f, g, depth, fuel);
    var a, b := Exec(v, d.body, f, depth, fuel), Exec(w, d.body, g, depth, fuel);
    AgreeStill(v, w, names, Given(d), f, g, a, b);
    if a.flow.None? || a.flow.value.Returned? {
      var s := map["result" := if a.flow.Some? then a.flow.value.v else None_];
      var t := map["result" := if b.flow.Some? then b.flow.value.v else None_];
      PushAgrees(v, w, names, Given(d), a.frame, b.frame, s, t);
      ContractAlike(v, w, names, Given(d) + {"result"}, d.post, PostBroken, Push(a.frame, s), Push(b.frame, t), depth, fuel);
    }
  }

  lemma {:induction false} ContractAlike(v: World, w: World, names: set<Name>, bound: set<Name>, conds: seq<Expr>, broken: Fault, f: Frame, g: Frame, depth: nat, fuel: nat)
    requires Agree(v, w, names, bound, f, g) && TameAll(conds) && Within(ListMentions(conds, bound), names)
    ensures LikeStop(Contract(v, conds, broken, f, depth, fuel), Contract(w, conds, broken, g, depth, fuel))
    decreases fuel, 3, |conds|
  {
    if conds != [] {
      WithinParts(Mentions(conds[0], bound), ListMentions(conds[1..], bound), names);
      EvalAlike(v, w, names, bound, conds[0], f, g, depth, fuel);
      ContractAlike(v, w, names, bound, conds[1..], broken, f, g, depth, fuel);
    }
  }

  // ------------------------------------------------------------------ statements

  lemma {:induction false} ExecAlike(v: World, w: World, names: set<Name>, bound: set<Name>, b: seq<Stmt>, f: Frame, g: Frame, depth: nat, fuel: nat)
    requires Agree(v, w, names, bound, f, g) && TameBlock(b) && Within(BlockMentions(b, bound), names)
    ensures AgreeAfter(names, f, Exec(v, b, f, depth, fuel), Exec(w, b, g, depth, fuel))
    decreases fuel, 3, |b|
  {
    if b != [] {
      WithinParts(StmtMentions(b[0], bound), BlockMentions(b[1..], bound + Binds(b[0])), names);
      StepAlike(v, w, names, bound, b[0], f, g, depth, fuel);
      var x, y := Step(v, b[0], f, depth, fuel), Step(w, b[0], g, depth, fuel);
      AgreeStill(v, w, names, bound, f, g, x, y);
      if x.flow.None? {
        ExecAlike(v, w, names, bound + Binds(b[0]), b[1..], x.frame, y.frame, depth, fuel);
        GrowsOn(f, x.frame, Exec(v, b[1..], x.frame, depth, fuel).frame);
      }
    }
  }

  lemma {:induction false} BlockAlike(v: World, w: World, names: set<Name>, bound: set<Name>, b: seq<Stmt>, s: Scope, t: Scope, f: Frame, g: Frame, depth: nat, fuel: nat)
    requires Agree(v, w, names, bound, f, g) && TameBlock(b) && LikeScope(s, t)
    requires Within(BlockMentions(b, bound + s.Keys), names)
    ensures AgreeAfter(names, f, Block(v, b, s, f, depth, fuel), Block(w, b, t, g, depth, fuel))
    decreases fuel, 4, 0
  {
    PushAgrees(v, w, names, bound, f, g, s, t);
    ExecAlike(v, w, names, bound + s.Keys, b, Push(f, s), Push(g, t), depth, fuel);
    PopAgrees(names, f, s, Exec(v, b, Push(f, s), depth, fuel), Exec(w, b, Push(g, t), depth, fuel));
  }

  lemma {:induction false} StepAlike(v: World, w: World, names: set<Name>, bound: set<Name>, s: Stmt, f: Frame, g: Frame, depth: nat, fuel: nat)
    requires Agree(v, w, names, bound, f, g) && TameStmt(s) && Within(StmtMentions(s, bound), names)
    ensures AgreeAfter(names, f, Step(v, s, f, depth, fuel), Step(w, s, g, depth, fuel))
    ensures Step(v, s, f, depth, fuel).flow.None? ==> Binds(s) <= Keys(Step(v, s, f, depth, fuel).frame.scopes)
    decreases fuel, 2
  {
    if fuel == 0 {
      Stays(names, f, g, Some(OutOfFuel), Some(OutOfFuel));
    } else if HasBlocks(s) {
      BlocksAlike(v, w, names, bound, s, f, g, depth, fuel);
    } else if s.Let? {
      LetAlike(v, w, names, bound, s, f, g, depth, fuel);
    } else if s.LetTuple? {
      LetTupleAlike(v, w, names, bound, s.names, s.value, f, g, depth, fuel);
    } else if s.Fn? {
      FnAlike(v, w, names, bound, s.f, f, g);
    } else {
      PlainAlike(v, w, names, bound, s, f, g, depth, fuel);
    }
  }

  // Statements that bind nothing and have no block in them.
  lemma {:induction false} PlainAlike(v: World, w: World, names: set<Name>, bound: set<Name>, s: Stmt, f: Frame, g: Frame, depth: nat, fuel: nat)
    requires fuel > 0 && (s.Assign? || s.Do? || s.Return? || s.Break? || s.Continue?)
    requires Agree(v, w, names, bound, f, g) && TameStmt(s) && Within(StmtMentions(s, bound), names)
    ensures AgreeAfter(names, f, Step(v, s, f, depth, fuel), Step(w, s, g, depth, fuel))
    decreases fuel, 1
  {
    if s.Assign? {
      AssignAlike(v, w, names, bound, s, f, g, depth, fuel - 1);
    } else if s.Do? {
      DoAlike(v, w, names, bound, s.e, s.handler, f, g, depth, fuel);
    } else if s.Return? {
      ReturnAlike(v, w, names, bound, s.result, f, g, depth, fuel);
    } else if s.Break? {
      Stays(names, f, g, Some(Broke), Some(Broke));
    } else {
      Stays(names, f, g, Some(Continued), Some(Continued));
    }
  }

  lemma Stays(names: set<Name>, f: Frame, g: Frame, a: Option<Flow>, b: Option<Flow>)
    requires LikeFrame(names, f, g) && LikeStop(a, b)
    ensures AgreeAfter(names, f, Ran(f, a), Ran(g, b))
  {
  }

  predicate HasBlocks(s: Stmt) {
    s.If? || s.While? || s.For? || s.Match? || s.Scoped?
  }

  lemma {:induction false} BlocksAlike(v: World, w: World, names: set<Name>, bound: set<Name>, s: Stmt, f: Frame, g: Frame, depth: nat, fuel: nat)
    requires fuel > 0 && HasBlocks(s)
    requires Agree(v, w, names, bound, f, g) && TameStmt(s) && Within(StmtMentions(s, bound), names)
    ensures AgreeAfter(names, f, Step(v, s, f, depth, fuel), Step(w, s, g, depth, fuel))
    decreases fuel, 1
  {
    match s
    case If(arms, els) => IfAlike(v, w, names, bound, arms, els, f, g, depth, fuel - 1);
    case While(c, body) => WhileAlike(v, w, names, bound, c, body, f, g, depth, fuel);
    case For(_, _, _, _) => ForAlike(v, w, names, bound, s, f, g, depth, fuel);
    case Match(e, cases) => MatchStepAlike(v, w, names, bound, e, cases, f, g, depth, fuel);
    case Scoped(a, body) => ScopedAlike(v, w, names, bound, a, body, f, g, depth, fuel);
  }

  lemma {:induction false} ScopedAlike(v: World, w: World, names: set<Name>, bound: set<Name>, a: Option<Name>, body: seq<Stmt>, f: Frame, g: Frame, depth: nat, fuel: nat)
    requires fuel > 0
    requires Agree(v, w, names, bound, f, g) && TameBlock(body) && Within(BlockMentions(body, bound + NameOf(a)), names)
    ensures AgreeAfter(names, f, Step(v, Scoped(a, body), f, depth, fuel), Step(w, Scoped(a, body), g, depth, fuel))
    decreases fuel, 0
  {
    var s := ArenaScope(a);
    ArenaScopeAlike(a);
    PushAgrees(v, w, names, bound, f, g, s, s);
    PlainBlockAlike(v, w, names, bound + NameOf(a), body, Push(f, s), Push(g, s), depth, fuel - 1);
    PopAgrees(names, f, s, Block(v, body, map[], Push(f, s), depth, fuel - 1), Block(w, body, map[], Push(g, s), depth, fuel - 1));
    ScopedRuns(v, a, body, f, depth, fuel);
    ScopedRuns(w, a, body, g, depth, fuel);
  }

  lemma ArenaScopeAlike(a: Option<Name>)
    ensures LikeScope(ArenaScope(a), ArenaScope(a)) && ArenaScope(a).Keys == NameOf(a)
  {
  }

  lemma ScopedRuns(w: World, a: Option<Name>, body: seq<Stmt>, fr: Frame, depth: nat, fuel: nat)
    requires fuel > 0
    ensures var r := Block(w, body, map[], Push(fr, ArenaScope(a)), depth, fuel - 1);
      Step(w, Scoped(a, body), fr, depth, fuel) == Ran(Pop(r.frame), r.flow)
  {
  }

  // ------------------------------------------------------------------ `catch`

  // A block that leaves never runs to its end.
  lemma {:induction false} LeavingStops(w: World, b: seq<Stmt>, fr: Frame, depth: nat, fuel: nat)
    requires Leaves(b)
    ensures Exec(w, b, fr, depth, fuel).flow.Some?
    decreases b
  {
    var r := Step(w, b[0], fr, depth, fuel);
    if |b| == 1 {
      LeavingStepStops(w, b[0], fr, depth, fuel);
    } else if r.flow.None? {
      LeavingStops(w, b[1..], r.frame, depth, fuel);
    }
  }

  lemma {:induction false} LeavingStepStops(w: World, s: Stmt, fr: Frame, depth: nat, fuel: nat)
    requires StmtLeaves(s)
    ensures Step(w, s, fr, depth, fuel).flow.Some?
    decreases s
  {
    if fuel > 0 && s.If? {
      LeavingStops(w, s.els, Push(fr, map[]), depth, fuel - 1);
      LeavingArmsStop(w, s.arms, s.els, fr, depth, fuel - 1);
    }
  }

  lemma {:induction false} LeavingArmsStop(w: World, arms: seq<Arm>, els: seq<Stmt>, fr: Frame, depth: nat, fuel: nat)
    requires ArmsLeave(arms) && Exec(w, els, Push(fr, map[]), depth, fuel).flow.Some?
    ensures StepIf(w, arms, els, fr, depth, fuel).flow.Some?
    decreases arms
  {
    if arms != [] {
      LeavingStops(w, arms[0].body, Push(fr, map[]), depth, fuel);
      LeavingArmsStop(w, arms[1..], els, fr, depth, fuel);
    }
  }

  // A block up to its last expression, and then the expression.
  lemma {:induction false} UptoLastAlike(v: World, w: World, names: set<Name>, bound: set<Name>, b: seq<Stmt>, f: Frame, g: Frame, depth: nat, fuel: nat)
    requires Agree(v, w, names, bound, f, g) && TameBlock(b) && Within(BlockMentions(b, bound), names)
    requires b != [] && b[|b| - 1].Do? && b[|b| - 1].handler.None?
    ensures var x, y := Exec(v, b[..|b| - 1], f, depth, fuel), Exec(w, b[..|b| - 1], g, depth, fuel);
      AgreeAfter(names, f, x, y) &&
      (x.flow.None? ==> LikeOut(Eval(v, b[|b| - 1].e, x.frame, depth, fuel), Eval(w, b[|b| - 1].e, y.frame, depth, fuel)))
    decreases fuel, 3, |b|
  {
    WithinParts(StmtMentions(b[0], bound), BlockMentions(b[1..], bound + Binds(b[0])), names);
    if |b| == 1 {
      WithinParts(Mentions(b[0].e, bound), CatchMentions(b[0].handler, bound), names);
      EvalAlike(v, w, names, bound, b[0].e, f, g, depth, fuel);
    } else {
      StepAlike(v, w, names, bound, b[0], f, g, depth, fuel);
      var x, y := Step(v, b[0], f, depth, fuel), Step(w, b[0], g, depth, fuel);
      assert b[..|b| - 1][1..] == b[1..][..|b| - 2];
      if x.flow.None? {
        AgreeStill(v, w, names, bound, f, g, x, y);
        UptoLastAlike(v, w, names, bound + Binds(b[0]), b[1..], x.frame, y.frame, depth, fuel);
        GrowsOn(f, x.frame, Exec(v, b[1..][..|b| - 2], x.frame, depth, fuel).frame);
      }
    }
  }

  // The block has a value to end with, or leaves.
  predicate HasEnd(c: Catch) {
    FallbackOf(c).Some? || Leaves(c.body)
  }

  lemma {:induction false} HandleAlike(v: World, w: World, names: set<Name>, bound: set<Name>, c: Catch, a: Value, b: Value, want: bool, f: Frame, g: Frame, depth: nat, fuel: nat)
    requires Agree(v, w, names, bound, f, g) && TameBlock(c.body) && Like(a, b)
    requires Within(BlockMentions(c.body, bound + {c.name}), names)
    ensures LikeHandled(names, f, Handle(v, c, a, want, f, depth, fuel), Handle(w, c, b, want, g, depth, fuel))
    ensures want && HasEnd(c) && Handle(v, c, a, want, f, depth, fuel).out.Got? ==> Handle(v, c, a, want, f, depth, fuel).out.v.Some?
    decreases fuel, 4
  {
    var s, t: Scope := map[c.name := a], map[c.name := b];
    assert s.Keys == {c.name};
    PushAgrees(v, w, names, bound, f, g, s, t);
    if want && FallbackOf(c).Some? {
      ValueBlockAlike(v, w, names, bound, c, s, t, f, g, depth, fuel);
    } else {
      ExecAlike(v, w, names, bound + {c.name}, c.body, Push(f, s), Push(g, t), depth, fuel);
      PopAgrees(names, f, s, Exec(v, c.body, Push(f, s), depth, fuel), Exec(w, c.body, Push(g, t), depth, fuel));
      if Leaves(c.body) { LeavingStops(v, c.body, Push(f, s), depth, fuel); }
    }
  }

  lemma {:induction false} ValueBlockAlike(v: World, w: World, names: set<Name>, bound: set<Name>, c: Catch, s: Scope, t: Scope, f: Frame, g: Frame, depth: nat, fuel: nat)
    requires Agree(v, w, names, bound + {c.name}, Push(f, s), Push(g, t)) && TameBlock(c.body) && FallbackOf(c).Some?
    requires Within(BlockMentions(c.body, bound + {c.name}), names)
    ensures var x, y := Exec(v, c.body[..|c.body| - 1], Push(f, s), depth, fuel), Exec(w, c.body[..|c.body| - 1], Push(g, t), depth, fuel);
      AgreeAfter(names, f, Ran(Pop(x.frame), x.flow), Ran(Pop(y.frame), y.flow)) &&
      (x.flow.None? ==> LikeOut(Eval(v, FallbackOf(c).value, x.frame, depth, fuel), Eval(w, FallbackOf(c).value, y.frame, depth, fuel)))
    decreases fuel, 3, |c.body| + 1
  {
    var init := c.body[..|c.body| - 1];
    UptoLastAlike(v, w, names, bound + {c.name}, c.body, Push(f, s), Push(g, t), depth, fuel);
    PopAgrees(names, f, s, Exec(v, init, Push(f, s), depth, fuel), Exec(w, init, Push(g, t), depth, fuel));
  }

  lemma {:induction false} EvalHandledAlike(v: World, w: World, names: set<Name>, bound: set<Name>, e: Expr, c: Option<Catch>, want: bool, f: Frame, g: Frame, depth: nat, fuel: nat)
    requires Agree(v, w, names, bound, f, g) && Tame(e) && TameCatch(c)
    requires Within(Mentions(e, bound), names) && Within(CatchMentions(c, bound), names)
    ensures LikeHandled(names, f, EvalHandled(v, e, c, want, f, depth, fuel), EvalHandled(w, e, c, want, g, depth, fuel))
    ensures var h := EvalHandled(v, e, c, want, f, depth, fuel);
      want && (c.Some? ==> HasEnd(c.value)) && h.out.Got? ==> h.out.v.Some?
    decreases fuel, 5
  {
    EvalAlike(v, w, names, bound, e, f, g, depth, fuel);
    var x, y := Eval(v, e, f, depth, fuel), Eval(w, e, g, depth, fuel);
    if x.Got? && c.Some? && IsError(x.v) {
      HandleAlike(v, w, names, bound, c.value, x.v.items[0], y.v.items[0], want, f, g, depth, fuel);
    }
  }

  lemma {:induction false} DoAlike(v: World, w: World, names: set<Name>, bound: set<Name>, e: Expr, c: Option<Catch>, f: Frame, g: Frame, depth: nat, fuel: nat)
    requires fuel > 0
    requires Agree(v, w, names, bound, f, g) && TameStmt(Do(e, c)) && Within(StmtMentions(Do(e, c), bound), names)
    ensures AgreeAfter(names, f, Step(v, Do(e, c), f, depth, fuel), Step(w, Do(e, c), g, depth, fuel))
    decreases fuel, 0
  {
    WithinParts(Mentions(e, bound), CatchMentions(c, bound), names);
    EvalHandledAlike(v, w, names, bound, e, c, false, f, g, depth, fuel - 1);
  }

  lemma {:induction false} ReturnAlike(v: World, w: World, names: set<Name>, bound: set<Name>, e: Option<Expr>, f: Frame, g: Frame, depth: nat, fuel: nat)
    requires fuel > 0
    requires Agree(v, w, names, bound, f, g) && TameStmt(Return(e)) && Within(StmtMentions(Return(e), bound), names)
    ensures AgreeAfter(names, f, Step(v, Return(e), f, depth, fuel), Step(w, Return(e), g, depth, fuel))
    decreases fuel, 0
  {
    if e.Some? { EvalAlike(v, w, names, bound, e.value, f, g, depth, fuel - 1); }
  }

  lemma {:induction false} ForAlike(v: World, w: World, names: set<Name>, bound: set<Name>, s: Stmt, f: Frame, g: Frame, depth: nat, fuel: nat)
    requires fuel > 0 && s.For?
    requires Agree(v, w, names, bound, f, g) && TameStmt(s) && Within(StmtMentions(s, bound), names)
    ensures AgreeAfter(names, f, Step(v, s, f, depth, fuel), Step(w, s, g, depth, fuel))
    decreases fuel, 0
  {
    var keys := {s.name} + NameOf(s.second);
    WithinParts(Mentions(s.iter, bound), BlockMentions(s.body, bound + keys), names);
    EvalAlike(v, w, names, bound, s.iter, f, g, depth, fuel - 1);
    var x, y := Eval(v, s.iter, f, depth, fuel - 1), Eval(w, s.iter, g, depth, fuel - 1);
    if x.Got? {
      RoundsAlike(s.name, s.second, x.v, y.v);
      var xs, ys := Rounds(s.name, s.second, x.v), Rounds(s.name, s.second, y.v);
      if xs.Some? { ForEachAlike(v, w, names, bound, keys, xs.value, ys.value, s.body, f, g, depth, fuel - 1); }
    }
  }

  lemma {:induction false} MatchStepAlike(v: World, w: World, names: set<Name>, bound: set<Name>, e: Expr, cases: seq<Case>, f: Frame, g: Frame, depth: nat, fuel: nat)
    requires fuel > 0
    requires Agree(v, w, names, bound, f, g) && TameStmt(Match(e, cases)) && Within(StmtMentions(Match(e, cases), bound), names)
    ensures AgreeAfter(names, f, Step(v, Match(e, cases), f, depth, fuel), Step(w, Match(e, cases), g, depth, fuel))
    decreases fuel, 0
  {
    WithinParts(Mentions(e, bound), CasesMentions(cases, bound), names);
    EvalAlike(v, w, names, bound, e, f, g, depth, fuel - 1);
    var x, y := Eval(v, e, f, depth, fuel - 1), Eval(w, e, g, depth, fuel - 1);
    if x.Got? {
      MatchAlike(v, w, names, bound, x.v, y.v, cases, f, g, depth, fuel - 1);
    }
  }

  lemma FnAlike(v: World, w: World, names: set<Name>, bound: set<Name>, d: FnDecl, f: Frame, g: Frame)
    requires Agree(v, w, names, bound, f, g) && TameStmt(Fn(d)) && Within(StmtMentions(Fn(d), bound), names)
    ensures LikeFrame(names, Declare(f, d.name, MakeClosure(v, d, f)), Declare(g, d.name, MakeClosure(w, d, g)))
    ensures Grows(f, Declare(f, d.name, MakeClosure(v, d, f)))
    ensures d.name in Keys(Declare(f, d.name, MakeClosure(v, d, f)).scopes)
  {
    forall n | n in Unbound(FreeNames(d), bound) ensures n in names {
      UnboundIs(FreeNames(d), bound, n);
      UnboundIs(FreeNames(d), bound + {d.name}, n);
    }
    ClosureAlike(v, w, names, bound, d, f, g);
    DeclareAlike(names, f, g, d.name, MakeClosure(v, d, f), MakeClosure(w, d, g));
  }

  lemma {:induction false} LetAlike(v: World, w: World, names: set<Name>, bound: set<Name>, s: Stmt, f: Frame, g: Frame, depth: nat, fuel: nat)
    requires fuel > 0 && s.Let?
    requires Agree(v, w, names, bound, f, g) && TameStmt(s) && Within(StmtMentions(s, bound), names)
    ensures AgreeAfter(names, f, Step(v, s, f, depth, fuel), Step(w, s, g, depth, fuel))
    ensures Step(v, s, f, depth, fuel).flow.None? ==> s.name in Keys(Step(v, s, f, depth, fuel).frame.scopes)
    decreases fuel, 0
  {
    WithinParts(Mentions(s.value, bound), CatchMentions(s.handler, bound), names);
    EvalHandledAlike(v, w, names, bound, s.value, s.handler, true, f, g, depth, fuel - 1);
    var x, y := EvalHandled(v, s.value, s.handler, true, f, depth, fuel - 1), EvalHandled(w, s.value, s.handler, true, g, depth, fuel - 1);
    if x.out.Got? {
      DeclareAlike(names, x.frame, y.frame, s.name, x.out.v.value, y.out.v.value);
      GrowsOn(f, x.frame, Declare(x.frame, s.name, x.out.v.value));
    }
  }

  lemma {:induction false} LetTupleAlike(v: World, w: World, names: set<Name>, bound: set<Name>, ns: seq<Name>, e: Expr, f: Frame, g: Frame, depth: nat, fuel: nat)
    requires fuel > 0
    requires Agree(v, w, names, bound, f, g) && Tame(e) && Within(Mentions(e, bound), names)
    ensures AgreeAfter(names, f, Step(v, LetTuple(ns, e), f, depth, fuel), Step(w, LetTuple(ns, e), g, depth, fuel))
    ensures var r := Step(v, LetTuple(ns, e), f, depth, fuel); r.flow.None? ==> SetOf(ns) <= Keys(r.frame.scopes)
    decreases fuel, 0
  {
    EvalAlike(v, w, names, bound, e, f, g, depth, fuel - 1);
    var x, y := Eval(v, e, f, depth, fuel - 1), Eval(w, e, g, depth, fuel - 1);
    if x.Got? && Is(x.v, KTuple) && |x.v.items| == |ns| {
      DeclareAllAlike(names, f, g, ns, x.v.items, y.v.items);
    }
  }

  lemma {:induction false} AssignAlike(v: World, w: World, names: set<Name>, bound: set<Name>, s: Stmt, f: Frame, g: Frame, depth: nat, fuel: nat)
    requires s.Assign?
    requires Agree(v, w, names, bound, f, g) && TameStmt(s) && Within(StmtMentions(s, bound), names)
    ensures AgreeAfter(names, f, StepAssign(v, s.target, s.op, s.value, s.handler, f, depth, fuel),
                       StepAssign(w, s.target, s.op, s.value, s.handler, g, depth, fuel))
    decreases fuel, 6
  {
    WithinParts(Mentions(s.target, bound) + Mentions(s.value, bound), CatchMentions(s.handler, bound), names);
    WithinParts(Mentions(s.target, bound), Mentions(s.value, bound), names);
    EvalHandledAlike(v, w, names, bound, s.value, s.handler, true, f, g, depth, fuel);
    var x, y := EvalHandled(v, s.value, s.handler, true, f, depth, fuel), EvalHandled(w, s.value, s.handler, true, g, depth, fuel);
    if x.out.Got? && x.out.v.Some? && s.target.Ident? {
      var n := s.target.name;
      if n !in bound { assert Mentions(s.target, bound)[0] == n; }
      GrowsKeys(f.scopes, x.frame.scopes);
      StoreAlike(v, w, names, n, s.op, x.out.v.value, y.out.v.value, x.frame, y.frame);
      GrowsOn(f, x.frame, Store(v, n, s.op, x.out.v.value, x.frame).frame);
    }
  }

  lemma StoreAlike(v: World, w: World, names: set<Name>, n: Name, op: Option<BinOp>, a: Value, b: Value, f: Frame, g: Frame)
    requires SameProgram(v, w) && LikeFrame(names, f, g) && Like(a, b)
    requires n in Keys(f.scopes) + names
    ensures AgreeAfter(names, f, Store(v, n, op, a, f), Store(w, n, op, b, g))
  {
    NameAlike(v, w, names, n, f, g);
    var p, q := ClosureRun.Name(v, n, f), ClosureRun.Name(w, n, g);
    if op.Some? && p.Got? { ApplyAlike(op.value, p.v, a, q.v, b); }
    var x, y := if op.None? then Got(a) else Updated(v, n, op.value, a, f), if op.None? then Got(b) else Updated(w, n, op.value, b, g);
    if x.Got? { AssignToAlike(names, f, g, n, x.v, y.v); }
  }

  lemma {:induction false} IfAlike(v: World, w: World, names: set<Name>, bound: set<Name>, arms: seq<Arm>, els: seq<Stmt>, f: Frame, g: Frame, depth: nat, fuel: nat)
    requires Agree(v, w, names, bound, f, g) && TameArms(arms) && TameBlock(els)
    requires Within(ArmsMentions(arms, bound) + BlockMentions(els, bound), names)
    ensures AgreeAfter(names, f, StepIf(v, arms, els, f, depth, fuel), StepIf(w, arms, els, g, depth, fuel))
    decreases fuel, 5, |arms|
  {
    WithinParts(ArmsMentions(arms, bound), BlockMentions(els, bound), names);
    if arms == [] {
      PlainBlockAlike(v, w, names, bound, els, f, g, depth, fuel);
    } else {
      WithinParts(ArmMentions(arms[0], bound), ArmsMentions(arms[1..], bound), names);
      WithinParts(Mentions(arms[0].cond, bound), BlockMentions(arms[0].body, bound), names);
      TruthAlike(v, w, names, bound, arms[0].cond, f, g, depth, fuel);
      PlainBlockAlike(v, w, names, bound, arms[0].body, f, g, depth, fuel);
      WithinParts(ArmsMentions(arms[1..], bound), BlockMentions(els, bound), names);
      IfAlike(v, w, names, bound, arms[1..], els, f, g, depth, fuel);
    }
  }

  lemma {:induction false} PlainBlockAlike(v: World, w: World, names: set<Name>, bound: set<Name>, b: seq<Stmt>, f: Frame, g: Frame, depth: nat, fuel: nat)
    requires Agree(v, w, names, bound, f, g) && TameBlock(b) && Within(BlockMentions(b, bound), names)
    ensures AgreeAfter(names, f, Block(v, b, map[], f, depth, fuel), Block(w, b, map[], g, depth, fuel))
    decreases fuel, 4, 1
  {
    var s: Scope := map[];
    assert bound + s.Keys == bound;
    BlockAlike(v, w, names, bound, b, map[], map[], f, g, depth, fuel);
  }

  lemma {:induction false} WhileAlike(v: World, w: World, names: set<Name>, bound: set<Name>, c: Expr, body: seq<Stmt>, f: Frame, g: Frame, depth: nat, fuel: nat)
    requires fuel > 0
    requires Agree(v, w, names, bound, f, g) && TameStmt(While(c, body)) && Within(StmtMentions(While(c, body), bound), names)
    ensures AgreeAfter(names, f, Step(v, While(c, body), f, depth, fuel), Step(w, While(c, body), g, depth, fuel))
    decreases fuel, 0
  {
    WithinParts(Mentions(c, bound), BlockMentions(body, bound), names);
    TruthAlike(v, w, names, bound, c, f, g, depth, fuel - 1);
    if Truth(v, c, f, depth, fuel - 1) == Got(true) {
      PlainBlockAlike(v, w, names, bound, body, f, g, depth, fuel - 1);
      AgainAlike(v, w, names, bound, While(c, body), Block(v, body, map[], f, depth, fuel - 1), Block(w, body, map[], g, depth, fuel - 1), f, g, depth, fuel - 1);
    }
  }

  lemma {:induction false} AgainAlike(v: World, w: World, names: set<Name>, bound: set<Name>, s: Stmt, x: Ran, y: Ran, f: Frame, g: Frame, depth: nat, fuel: nat)
    requires Agree(v, w, names, bound, f, g) && AgreeAfter(names, f, x, y)
    requires TameStmt(s) && Within(StmtMentions(s, bound), names)
    ensures AgreeAfter(names, f, Again(v, s, x, depth, fuel), Again(w, s, y, depth, fuel))
    decreases fuel, 3
  {
    if !LeavesLoop(x.flow) {
      AgreeStill(v, w, names, bound, f, g, x, y);
      StepAlike(v, w, names, bound, s, x.frame, y.frame, depth, fuel);
      GrowsOn(f, x.frame, Step(v, s, x.frame, depth, fuel).frame);
    }
  }

  lemma {:induction false} ForEachAlike(v: World, w: World, names: set<Name>, bound: set<Name>, keys: set<Name>, xs: seq<Scope>, ys: seq<Scope>, body: seq<Stmt>, f: Frame, g: Frame, depth: nat, fuel: nat)
    requires Agree(v, w, names, bound, f, g) && TameBlock(body) && LikeRounds(Some(xs), Some(ys), keys)
    requires Within(BlockMentions(body, bound + keys), names)
    ensures AgreeAfter(names, f, ForEach(v, xs, body, f, depth, fuel), ForEach(w, ys, body, g, depth, fuel))
    decreases fuel, 5, |xs|
  {
    if xs != [] {
      BlockAlike(v, w, names, bound, body, xs[0], ys[0], f, g, depth, fuel);
      var x, y := Block(v, body, xs[0], f, depth, fuel), Block(w, body, ys[0], g, depth, fuel);
      if !LeavesLoop(x.flow) {
        AgreeStill(v, w, names, bound, f, g, x, y);
        ForEachAlike(v, w, names, bound, keys, xs[1..], ys[1..], body, x.frame, y.frame, depth, fuel);
        GrowsOn(f, x.frame, ForEach(v, xs[1..], body, x.frame, depth, fuel).frame);
      }
    }
  }

  lemma {:induction false} FitsAlike(v: World, w: World, names: set<Name>, bound: set<Name>, p: Pattern, a: Value, b: Value, f: Frame, g: Frame, depth: nat, fuel: nat)
    requires Agree(v, w, names, bound, f, g) && TamePattern(p) && Like(a, b)
    requires Within(PatternMentions(p, bound), names)
    ensures LikeFit(Fits(v, p, a, f, depth, fuel), Fits(w, p, b, g, depth, fuel), PatternBinds(p))
    decreases fuel, 3
  {
    if p.Literal? {
      EvalAlike(v, w, names, bound, p.e, f, g, depth, fuel);
      var x, y := Eval(v, p.e, f, depth, fuel), Eval(w, p.e, g, depth, fuel);
      if x.Got? { EqValueAlike(x.v, a, y.v, b); }
    } else if p.Variant? {
      VariantAlike(v, w, p, a, b, f, g, depth, fuel);
    }
  }

  lemma VariantAlike(v: World, w: World, p: Pattern, a: Value, b: Value, f: Frame, g: Frame, depth: nat, fuel: nat)
    requires p.Variant? && Like(a, b)
    ensures LikeFit(Fits(v, p, a, f, depth, fuel), Fits(w, p, b, g, depth, fuel), PatternBinds(p))
  {
    if Is(a, KVariant(p.tag)) && |p.binds| == |a.items| {
      ArgumentsAlike(p.binds, a.items, b.items);
    }
  }

  lemma {:induction false} MatchAlike(v: World, w: World, names: set<Name>, bound: set<Name>, a: Value, b: Value, cases: seq<Case>, f: Frame, g: Frame, depth: nat, fuel: nat)
    requires Agree(v, w, names, bound, f, g) && TameCases(cases) && Like(a, b)
    requires Within(CasesMentions(cases, bound), names)
    ensures AgreeAfter(names, f, StepMatch(v, a, cases, f, depth, fuel), StepMatch(w, b, cases, g, depth, fuel))
    decreases fuel, 5, |cases|
  {
    if cases != [] {
      var c := cases[0];
      WithinParts(CaseMentions(c, bound), CasesMentions(cases[1..], bound), names);
      WithinParts(PatternMentions(c.pattern, bound), BlockMentions(c.body, bound + PatternBinds(c.pattern)), names);
      FitsAlike(v, w, names, bound, c.pattern, a, b, f, g, depth, fuel);
      var x, y := Fits(v, c.pattern, a, f, depth, fuel), Fits(w, c.pattern, b, g, depth, fuel);
      if x.Got? && x.v.Some? {
        BlockAlike(v, w, names, bound, c.body, x.v.value, y.v.value, f, g, depth, fuel);
      }
      MatchAlike(v, w, names, bound, a, b, cases[1..], f, g, depth, fuel);
    }
  }
}
