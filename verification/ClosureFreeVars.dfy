// The walk itself: a stack of scopes and a growing list of names, updated in place (micai/src/ast.rs).

module ClosureFreeVars {
  import opened ClosureSyntax

  function AllOf(scopes: seq<seq<Name>>): set<Name> {
    if scopes == [] then {} else AllOf(scopes[..|scopes| - 1]) + SetOf(scopes[|scopes| - 1])
  }

  lemma {:induction false} InSomeScope(scopes: seq<seq<Name>>, n: Name)
    ensures n in AllOf(scopes) <==> exists i :: 0 <= i < |scopes| && n in scopes[i]
    decreases |scopes|
  {
    if scopes != [] {
      var init := scopes[..|scopes| - 1];
      InSomeScope(init, n);
      assert forall i :: 0 <= i < |init| ==> init[i] == scopes[i];
    }
  }

  lemma {:induction false} GatherJoin(out: seq<Name>, a: seq<Name>, b: seq<Name>)
    ensures Gather(Gather(out, a), b) == Gather(out, a + b)
    decreases |a|
  {
    if a == [] {
      assert a + b == b;
    } else {
      GatherJoin(if a[0] in out then out else out + [a[0]], a[1..], b);
      assert (a + b)[1..] == a[1..] + b;
    }
  }

  class FreeVars {
    var scopes: seq<seq<Name>>
    var out: seq<Name>

    ghost function InSight(): set<Name>
      reads this
    {
      AllOf(scopes)
    }

    constructor ()
      ensures scopes == [[]] && out == []
    {
      scopes, out := [[]], [];
    }

    method BindName(n: Name)
      requires scopes != []
      modifies this
      ensures scopes == old(scopes)[..|old(scopes)| - 1] + [old(scopes)[|old(scopes)| - 1] + [n]]
      ensures out == old(out) && InSight() == old(InSight()) + {n}
    {
      var k := |scopes| - 1;
      ghost var last := scopes[k];
      scopes := scopes[..k] + [scopes[k] + [n]];
      assert scopes[..k] == old(scopes)[..k];
      assert SetOf(last + [n]) == SetOf(last) + {n};
    }

    method BindNames(names: seq<Name>)
      requires scopes != []
      modifies this
      ensures |scopes| == |old(scopes)| && scopes[..|scopes| - 1] == old(scopes)[..|scopes| - 1]
      ensures out == old(out) && InSight() == old(InSight()) + SetOf(names)
    {
      for i := 0 to |names|
        invariant |scopes| == |old(scopes)| && scopes[..|scopes| - 1] == old(scopes)[..|scopes| - 1]
        invariant out == old(out) && InSight() == old(InSight()) + SetOf(names[..i])
      {
        BindName(names[i]);
        assert names[..i + 1] == names[..i] + [names[i]];
      }
      assert names[..|names|] == names;
    }

    method Bound(n: Name) returns (b: bool)
      ensures b <==> n in InSight()
    {
      InSomeScope(scopes, n);
      b := false;
      for i := 0 to |scopes|
        invariant b <==> exists j :: 0 <= j < i && n in scopes[j]
      {
        b := b || n in scopes[i];
      }
    }

    method UseName(n: Name)
      modifies this
      ensures scopes == old(scopes)
      ensures out == Gather(old(out), if n in InSight() then [] else [n])
    {
      var b := Bound(n);
      if !b && n !in out {
        out := out + [n];
      }
      assert [n][1..] == [];
    }

    method UseNames(names: seq<Name>)
      modifies this
      ensures scopes == old(scopes)
      ensures out == Gather(old(out), Unbound(names, InSight()))
    {
      var i := 0;
      while i < |names|
        invariant 0 <= i <= |names| && scopes == old(scopes)
        invariant Gather(out, Unbound(names[i..], InSight())) == Gather(old(out), Unbound(names, InSight()))
      {
        GatherJoin(out, if names[i] in InSight() then [] else [names[i]], Unbound(names[i + 1..], InSight()));
        assert names[i..][1..] == names[i + 1..];
        UseName(names[i]);
        i := i + 1;
      }
    }

    method Expr(e: Expr)
      modifies this
      ensures scopes == old(scopes)
      ensures out == Gather(old(out), Mentions(e, InSight()))
      decreases e
    {
      match e
      case IntLit(_) =>
      case BoolLit(_) =>
      case NoneLit =>
      case StrLit(_) =>
      case Ident(n) => UseName(n);
      case Parts(_, es) => Exprs(es);
      case Unary(_, a) => Expr(a);
      case Field(a, _) => Expr(a);
      case Binary(_, a, b) =>
        GatherJoin(out, Mentions(a, InSight()), Mentions(b, InSight()));
        Expr(a);
        Expr(b);
      case Index(a, b) =>
        GatherJoin(out, Mentions(a, InSight()), Mentions(b, InSight()));
        Expr(a);
        Expr(b);
      case IfExpr(c, a, b) =>
        GatherJoin(out, Mentions(c, InSight()), Mentions(a, InSight()));
        GatherJoin(out, Mentions(c, InSight()) + Mentions(a, InSight()), Mentions(b, InSight()));
        Expr(c);
        Expr(a);
        Expr(b);
      case OrElse(a, b) =>
        GatherJoin(out, Mentions(a, InSight()), Mentions(b, InSight()));
        Expr(a);
        Expr(b);
      case Call(c, es) =>
        GatherJoin(out, Mentions(c, InSight()), ListMentions(es, InSight()));
        Expr(c);
        Exprs(es);
      case Lambda(f) =>
        var names := NamesOf(f);
        UseNames(names);
      case Spawn(f) =>
        var names := NamesOf(f);
        UseNames(names);
    }

    method Exprs(es: seq<ClosureSyntax.Expr>)
      modifies this
      ensures scopes == old(scopes)
      ensures out == Gather(old(out), ListMentions(es, InSight()))
      decreases es
    {
      var i := 0;
      while i < |es|
        invariant 0 <= i <= |es| && scopes == old(scopes)
        invariant Gather(out, ListMentions(es[i..], InSight())) == Gather(old(out), ListMentions(es, InSight()))
      {
        GatherJoin(out, Mentions(es[i], InSight()), ListMentions(es[i + 1..], InSight()));
        assert es[i..][1..] == es[i + 1..];
        Expr(es[i]);
        i := i + 1;
      }
    }

    // Opens a scope holding `names`.
    method Open(names: seq<Name>)
      modifies this
      ensures scopes == old(scopes) + [names] && out == old(out)
      ensures InSight() == old(InSight()) + SetOf(names)
    {
      scopes := scopes + [names];
      assert scopes[..|scopes| - 1] == old(scopes);
    }

    method Close()
      requires scopes != []
      modifies this
      ensures scopes == old(scopes)[..|old(scopes)| - 1] && out == old(out)
    {
      scopes := scopes[..|scopes| - 1];
    }

    method Block(b: seq<ClosureSyntax.Stmt>)
      requires scopes != []
      modifies this
      ensures scopes == old(scopes)
      ensures out == Gather(old(out), BlockMentions(b, InSight()))
      decreases b, 1
    {
      Open([]);
      assert InSight() == old(InSight());
      Stmts(b);
      Close();
    }

    // Runs through statements that share the innermost scope.
    method Stmts(b: seq<ClosureSyntax.Stmt>)
      requires scopes != []
      modifies this
      ensures |scopes| == |old(scopes)| && scopes[..|scopes| - 1] == old(scopes)[..|scopes| - 1]
      ensures out == Gather(old(out), BlockMentions(b, old(InSight())))
      decreases b, 0
    {
      var i := 0;
      while i < |b|
        invariant 0 <= i <= |b|
        invariant |scopes| == |old(scopes)| && scopes[..|scopes| - 1] == old(scopes)[..|scopes| - 1]
        invariant Gather(out, BlockMentions(b[i..], InSight())) == Gather(old(out), BlockMentions(b, old(InSight())))
      {
        GatherJoin(out, StmtMentions(b[i], InSight()), BlockMentions(b[i + 1..], InSight() + Binds(b[i])));
        assert b[i..][1..] == b[i + 1..];
        Stmt(b[i]);
        i := i + 1;
      }
    }

    method Stmt(s: ClosureSyntax.Stmt)
      requires scopes != []
      modifies this
      ensures |scopes| == |old(scopes)| && scopes[..|scopes| - 1] == old(scopes)[..|scopes| - 1]
      ensures InSight() == old(InSight()) + Binds(s)
      ensures out == Gather(old(out), StmtMentions(s, old(InSight())))
      decreases s
    {
      match s
      case Let(n, e, c) =>
        GatherJoin(out, Mentions(e, InSight()), CatchMentions(c, InSight()));
        Expr(e);
        Catch(c);
        BindName(n);
      case LetTuple(names, e) =>
        Expr(e);
        BindNames(names);
      case Assign(x, _, e, c) =>
        GatherJoin(out, Mentions(x, InSight()), Mentions(e, InSight()));
        GatherJoin(out, Mentions(x, InSight()) + Mentions(e, InSight()), CatchMentions(c, InSight()));
        Expr(x);
        Expr(e);
        Catch(c);
      case Do(e, c) =>
        GatherJoin(out, Mentions(e, InSight()), CatchMentions(c, InSight()));
        Expr(e);
        Catch(c);
      case If(arms, els) =>
        GatherJoin(out, ArmsMentions(arms, InSight()), BlockMentions(els, InSight()));
        Arms(arms);
        Block(els);
      case While(c, b) =>
        GatherJoin(out, Mentions(c, InSight()), BlockMentions(b, InSight()));
        Expr(c);
        Block(b);
      case For(n, m, e, b) =>
        GatherJoin(out, Mentions(e, InSight()), BlockMentions(b, InSight() + ({n} + NameOf(m))));
        Expr(e);
        LoopBody(n, m, b);
      case Match(e, cases) =>
        GatherJoin(out, Mentions(e, InSight()), CasesMentions(cases, InSight()));
        Expr(e);
        Cases(cases);
      case Return(e) =>
        if e.Some? { Expr(e.value); }
      case Break =>
      case Continue =>
      case Fn(f) =>
        BindName(f.name);
        var names := NamesOf(f);
        UseNames(names);
      case Scoped(a, b) => ScopedBody(a, b);
    }

    method LoopBody(n: Name, m: Option<Name>, b: seq<ClosureSyntax.Stmt>)
      requires scopes != []
      modifies this
      ensures scopes == old(scopes)
      ensures out == Gather(old(out), BlockMentions(b, InSight() + ({n} + NameOf(m))))
      decreases b, 2
    {
      Open([n]);
      if m.Some? { BindName(m.value); }
      assert InSight() == old(InSight()) + ({n} + NameOf(m)) by { assert SetOf([n]) == {n}; }
      Block(b);
      Close();
    }

    method ScopedBody(a: Option<Name>, b: seq<ClosureSyntax.Stmt>)
      requires scopes != []
      modifies this
      ensures scopes == old(scopes)
      ensures out == Gather(old(out), BlockMentions(b, InSight() + NameOf(a)))
      decreases b, 2
    {
      Open(if a.Some? then [a.value] else []);
      assert InSight() == old(InSight()) + NameOf(a);
      Block(b);
      Close();
    }

    method Catch(c: Option<ClosureSyntax.Catch>)
      requires scopes != []
      modifies this
      ensures scopes == old(scopes)
      ensures out == Gather(old(out), CatchMentions(c, InSight()))
      decreases c
    {
      if c.Some? {
        Open([c.value.name]);
        assert InSight() == old(InSight()) + {c.value.name} by { assert SetOf([c.value.name]) == {c.value.name}; }
        Stmts(c.value.body);
        Close();
      }
    }

    method Arms(arms: seq<Arm>)
      requires scopes != []
      modifies this
      ensures scopes == old(scopes)
      ensures out == Gather(old(out), ArmsMentions(arms, InSight()))
      decreases arms
    {
      var i := 0;
      while i < |arms|
        invariant 0 <= i <= |arms| && scopes == old(scopes)
        invariant Gather(out, ArmsMentions(arms[i..], InSight())) == Gather(old(out), ArmsMentions(arms, InSight()))
      {
        GatherJoin(out, ArmMentions(arms[i], InSight()), ArmsMentions(arms[i + 1..], InSight()));
        GatherJoin(out, Mentions(arms[i].cond, InSight()), BlockMentions(arms[i].body, InSight()));
        assert arms[i..][1..] == arms[i + 1..];
        Expr(arms[i].cond);
        Block(arms[i].body);
        i := i + 1;
      }
    }

    method Cases(cases: seq<ClosureSyntax.Case>)
      requires scopes != []
      modifies this
      ensures scopes == old(scopes)
      ensures out == Gather(old(out), CasesMentions(cases, InSight()))
      decreases cases
    {
      var i := 0;
      while i < |cases|
        invariant 0 <= i <= |cases| && scopes == old(scopes)
        invariant Gather(out, CasesMentions(cases[i..], InSight())) == Gather(old(out), CasesMentions(cases, InSight()))
      {
        GatherJoin(out, CaseMentions(cases[i], InSight()), CasesMentions(cases[i + 1..], InSight()));
        assert cases[i..][1..] == cases[i + 1..];
        Case(cases[i]);
        i := i + 1;
      }
    }

    method Case(c: ClosureSyntax.Case)
      requires scopes != []
      modifies this
      ensures scopes == old(scopes)
      ensures out == Gather(old(out), CaseMentions(c, InSight()))
      decreases c
    {
      GatherJoin(out, PatternMentions(c.pattern, InSight()), BlockMentions(c.body, InSight() + PatternBinds(c.pattern)));
      Open([]);
      assert InSight() == old(InSight());
      match c.pattern {
        case Wildcard =>
        case Bind(n) => BindName(n);
        case Literal(e) => Expr(e);
        case Variant(_, names) => BindNames(names);
      }
      assert InSight() == old(InSight()) + PatternBinds(c.pattern);
      Block(c.body);
      Close();
    }

    // The parameters, and a named function's own name.
    method BindHeader(f: FnDecl)
      requires scopes == [[]]
      modifies this
      ensures |scopes| == 1 && out == old(out) && InSight() == Given(f)
    {
      for i := 0 to |f.params|
        invariant scopes == [f.params[..i]] && out == old(out)
      {
        BindName(f.params[i]);
        assert f.params[..i + 1] == f.params[..i] + [f.params[i]];
      }
      assert f.params[..|f.params|] == f.params;
      assert InSight() == SetOf(f.params) by { assert AllOf([]) == {} && scopes[..0] == []; }
      if !IsLambda(f) {
        BindName(f.name);
      }
    }
  }

  lemma GatherThree(a: seq<Name>, b: seq<Name>, c: seq<Name>)
    ensures Gather(Gather(Gather([], a), b), c) == Gather([], a + b + c)
  {
    GatherJoin([], a, b);
    GatherJoin([], a + b, c);
  }

  // The names a closure over `f` must capture, in order of first mention.
  method NamesOf(f: FnDecl) returns (names: seq<Name>)
    ensures names == FreeNames(f)
    decreases f
  {
    var fv := new FreeVars();
    fv.BindHeader(f);
    fv.Exprs(f.pre);
    fv.Block(f.body);
    fv.Open(["result"]);
    assert fv.InSight() == Given(f) + {"result"} by { assert SetOf(["result"]) == {"result"}; }
    fv.Exprs(f.post);
    names := fv.out;
    GatherThree(ListMentions(f.pre, Given(f)), BlockMentions(f.body, Given(f)), ListMentions(f.post, Given(f) + {"result"}));
  }
}
