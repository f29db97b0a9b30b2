// Which names occur free in a function, as a textbook has it: an occurrence that no declaration
// around it or before it in its blocks binds. Nothing here carries a set of bound names along, as
// the walk does; the walk finds exactly these names (micai/src/ast.rs).

module ClosureNames {
  import opened ClosureSyntax
  import opened ClosureCapture

  ghost predicate Free(e: Expr, n: Name)
    decreases e
  {
    match e
    case Ident(m) => n == m
    case Parts(_, es) => FreeInSome(es, n)
    case Unary(_, a) => Free(a, n)
    case Field(a, _) => Free(a, n)
    case Binary(_, a, b) => Free(a, n) || Free(b, n)
    case Index(a, b) => Free(a, n) || Free(b, n)
    case IfExpr(c, a, b) => Free(c, n) || Free(a, n) || Free(b, n)
    case OrElse(a, b) => Free(a, n) || Free(b, n)
    case Call(c, es) => Free(c, n) || FreeInSome(es, n)
    case Lambda(f) => FreeInFn(f, n)
    case Spawn(f) => FreeInFn(f, n)
    case _ => false
  }

  ghost predicate FreeInSome(es: seq<Expr>, n: Name)
    decreases es
  {
    exists i :: 0 <= i < |es| && Free(es[i], n)
  }

  // A named function may call itself by its name; one the parser made up a name for may not.
  ghost predicate FreeInFn(f: FnDecl, n: Name)
    decreases f
  {
    n !in f.params && (n == f.name ==> n != "" && n[0] == '\U{03BB}') &&
    (FreeInSome(f.pre, n) || FreeInBlock(f.body, n) || (n != "result" && FreeInSome(f.post, n)))
  }

  // The statement declares `n` for those after it in its block.
  ghost predicate Declares(s: Stmt, n: Name) {
    match s
    case Let(m, _, _) => n == m
    case LetTuple(ms, _) => n in ms
    case Fn(f) => n == f.name
    case _ => false
  }

  // Free in some statement, and declared by none before it.
  ghost predicate FreeInBlock(b: seq<Stmt>, n: Name)
    decreases b
  {
    exists i :: 0 <= i < |b| && FreeInStmt(b[i], n) && forall j :: 0 <= j < i ==> !Declares(b[j], n)
  }

  ghost predicate FreeInStmt(s: Stmt, n: Name)
    decreases s
  {
    match s
    case Let(_, e, c) => Free(e, n) || FreeInCatch(c, n)
    case LetTuple(_, e) => Free(e, n)
    case Assign(x, _, e, c) => Free(x, n) || Free(e, n) || FreeInCatch(c, n)
    case Do(e, c) => Free(e, n) || FreeInCatch(c, n)
    case If(arms, els) =>
      (exists i :: 0 <= i < |arms| && (Free(arms[i].cond, n) || FreeInBlock(arms[i].body, n))) || FreeInBlock(els, n)
    case While(c, b) => Free(c, n) || FreeInBlock(b, n)
    case For(m, k, e, b) => Free(e, n) || (n != m && k != Some(n) && FreeInBlock(b, n))
    case Match(e, cases) => Free(e, n) || exists i :: 0 <= i < |cases| && FreeInCase(cases[i], n)
    case Return(e) => e.Some? && Free(e.value, n)
    case Fn(f) => n != f.name && FreeInFn(f, n)
    case Scoped(a, b) => a != Some(n) && FreeInBlock(b, n)
    case _ => false
  }

  ghost predicate FreeInCatch(c: Option<Catch>, n: Name)
    decreases c
  {
    c.Some? && n != c.value.name && FreeInBlock(c.value.body, n)
  }

  ghost predicate FreeInCase(c: Case, n: Name)
    decreases c
  {
    match c.pattern
    case Wildcard => FreeInBlock(c.body, n)
    case Bind(m) => n != m && FreeInBlock(c.body, n)
    case Literal(e) => Free(e, n) || FreeInBlock(c.body, n)
    case Variant(_, ms) => n !in ms && FreeInBlock(c.body, n)
  }

  // ------------------------------------------------------------------ the walk finds just these

  // A closure's list has the names that occur free in its function, and no others.
  lemma {:induction false} FreeNamesOccurFree(f: FnDecl, n: Name)
    ensures n in FreeNames(f) <==> FreeInFn(f, n)
    decreases f
  {
    var g := Given(f);
    FreeNamesAre(f);
    assert n in FreeNames(f) <==> n in SetOf(FnMentions(f));
    ListMentionsIff(f.pre, g, n);
    BlockMentionsIff(f.body, g, n);
    ListMentionsIff(f.post, g + {"result"}, n);
    assert n in g <==> n in f.params || (!IsLambda(f) && n == f.name);
  }

  // What is mentioned outside `bound` is what occurs free and is not bound.
  lemma {:induction false} MentionsIff(e: Expr, bound: set<Name>, n: Name)
    ensures n in Mentions(e, bound) <==> n !in bound && Free(e, n)
    decreases e
  {
    match e
    case IntLit(_) =>
    case BoolLit(_) =>
    case NoneLit =>
    case StrLit(_) =>
    case Ident(_) =>
    case Parts(_, es) => ListMentionsIff(es, bound, n);
    case Unary(_, a) => MentionsIff(a, bound, n);
    case Field(a, _) => MentionsIff(a, bound, n);
    case Binary(_, a, b) => MentionsIff(a, bound, n); MentionsIff(b, bound, n);
    case Index(a, b) => MentionsIff(a, bound, n); MentionsIff(b, bound, n);
    case IfExpr(c, a, b) => MentionsIff(c, bound, n); MentionsIff(a, bound, n); MentionsIff(b, bound, n);
    case OrElse(a, b) => MentionsIff(a, bound, n); MentionsIff(b, bound, n);
    case Call(c, es) => MentionsIff(c, bound, n); ListMentionsIff(es, bound, n);
    case Lambda(f) => FreeNamesOccurFree(f, n); UnboundIs(FreeNames(f), bound, n);
    case Spawn(f) => FreeNamesOccurFree(f, n); UnboundIs(FreeNames(f), bound, n);
  }

  lemma {:induction false} ListMentionsIff(es: seq<Expr>, bound: set<Name>, n: Name)
    ensures n in ListMentions(es, bound) <==> n !in bound && FreeInSome(es, n)
    decreases es
  {
    if es != [] {
      MentionsIff(es[0], bound, n);
      ListMentionsIff(es[1..], bound, n);
      assert forall i :: 0 < i < |es| ==> es[i] == es[1..][i - 1];
    }
  }

  lemma {:induction false} BlockMentionsIff(b: seq<Stmt>, bound: set<Name>, n: Name)
    ensures n in BlockMentions(b, bound) <==> n !in bound && FreeInBlock(b, n)
    decreases b
  {
    if b != [] {
      StmtMentionsIff(b[0], bound, n);
      BlockMentionsIff(b[1..], bound + Binds(b[0]), n);
      assert Declares(b[0], n) <==> n in Binds(b[0]);
      FreeLater(b, n);
    }
  }

  lemma FreeLater(b: seq<Stmt>, n: Name)
    requires b != []
    ensures FreeInBlock(b, n) <==> FreeInStmt(b[0], n) || (!Declares(b[0], n) && FreeInBlock(b[1..], n))
  {
    var t := b[1..];
    if i :| 0 <= i < |b| && FreeInStmt(b[i], n) && forall j :: 0 <= j < i ==> !Declares(b[j], n) {
      if i > 0 {
        assert FreeInStmt(t[i - 1], n) && forall j :: 0 <= j < i - 1 ==> !Declares(t[j], n);
      }
    }
    if !Declares(b[0], n) && FreeInBlock(t, n) {
      var i :| 0 <= i < |t| && FreeInStmt(t[i], n) && forall j :: 0 <= j < i ==> !Declares(t[j], n);
      assert forall j :: 0 <= j < i + 1 ==> !Declares(b[j], n) by {
        assert forall j :: 0 < j < i + 1 ==> b[j] == t[j - 1];
      }
      assert FreeInStmt(b[i + 1], n);
    }
  }

  lemma {:induction false} StmtMentionsIff(s: Stmt, bound: set<Name>, n: Name)
    ensures n in StmtMentions(s, bound) <==> n !in bound && FreeInStmt(s, n)
    decreases s
  {
    match s
    case Let(_, e, c) => MentionsIff(e, bound, n); CatchMentionsIff(c, bound, n);
    case LetTuple(_, e) => MentionsIff(e, bound, n);
    case Assign(x, _, e, c) => MentionsIff(x, bound, n); MentionsIff(e, bound, n); CatchMentionsIff(c, bound, n);
    case Do(e, c) => MentionsIff(e, bound, n); CatchMentionsIff(c, bound, n);
    case If(arms, els) => ArmsMentionsIff(arms, bound, n); BlockMentionsIff(els, bound, n);
    case While(c, b) => MentionsIff(c, bound, n); BlockMentionsIff(b, bound, n);
    case For(m, k, e, b) => MentionsIff(e, bound, n); BlockMentionsIff(b, bound + ({m} + NameOf(k)), n);
    case Match(e, cases) => MentionsIff(e, bound, n); CasesMentionsIff(cases, bound, n);
    case Return(e) => if e.Some? { MentionsIff(e.value, bound, n); }
    case Break =>
    case Continue =>
    case Fn(f) => FreeNamesOccurFree(f, n); UnboundIs(FreeNames(f), bound + {f.name}, n);
    case Scoped(a, b) => BlockMentionsIff(b, bound + NameOf(a), n);
  }

  lemma {:induction false} CatchMentionsIff(c: Option<Catch>, bound: set<Name>, n: Name)
    ensures n in CatchMentions(c, bound) <==> n !in bound && FreeInCatch(c, n)
    decreases c
  {
    if c.Some? { BlockMentionsIff(c.value.body, bound + {c.value.name}, n); }
  }

  lemma {:induction false} ArmsMentionsIff(arms: seq<Arm>, bound: set<Name>, n: Name)
    ensures n in ArmsMentions(arms, bound) <==>
      n !in bound && exists i :: 0 <= i < |arms| && (Free(arms[i].cond, n) || FreeInBlock(arms[i].body, n))
    decreases arms
  {
    if arms != [] {
      MentionsIff(arms[0].cond, bound, n);
      BlockMentionsIff(arms[0].body, bound, n);
      ArmsMentionsIff(arms[1..], bound, n);
      assert forall i :: 0 < i < |arms| ==> arms[i] == arms[1..][i - 1];
    }
  }

  lemma {:induction false} CasesMentionsIff(cases: seq<Case>, bound: set<Name>, n: Name)
    ensures n in CasesMentions(cases, bound) <==> n !in bound && exists i :: 0 <= i < |cases| && FreeInCase(cases[i], n)
    decreases cases
  {
    if cases != [] {
      CaseMentionsIff(cases[0], bound, n);
      CasesMentionsIff(cases[1..], bound, n);
      assert forall i :: 0 < i < |cases| ==> cases[i] == cases[1..][i - 1];
    }
  }

  lemma {:induction false} CaseMentionsIff(c: Case, bound: set<Name>, n: Name)
    ensures n in CaseMentions(c, bound) <==> n !in bound && FreeInCase(c, n)
    decreases c
  {
    if c.pattern.Literal? { MentionsIff(c.pattern.e, bound, n); }
    BlockMentionsIff(c.body, bound + PatternBinds(c.pattern), n);
  }
}
