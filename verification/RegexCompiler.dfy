/** The one-pass compiler: it emits code while it reads, and relocates finished fragments. */
module RegexCompiler {
  import opened RegexSyntax

  datatype Inst =
    | Char(c: char)
    | Any
    | InClass(ci: nat)
    | Match
    | Jmp(target: nat)
    | Split(first: nat, second: nat)
    | Save(slot: nat)
    | AtBol
    | AtEol

  datatype Prog = Prog(insts: seq<Inst>, classes: seq<Class>, ngroups: nat)

  function ShiftInst(i: Inst, d: nat): Inst {
    match i
    case Jmp(a) => Jmp(a + d)
    case Split(a, b) => Split(a + d, b + d)
    case other => other
  }

  // ---- what code a tree stands for

  function Size(t: Re): nat {
    match t
    case Empty => 0
    case One(_) => 1
    case Cat(l, r) => Size(l) + Size(r)
    case Alt(l, r) => Size(l) + Size(r) + 2
    case Rep(op, b, _) => Size(b) + (if op.Star? then 2 else 1)
    case Group(_, b) => Size(b) + 2
  }

  /** How many entries of the class table `t` takes. */
  function Sets(t: Re): nat {
    match t
    case Empty => 0
    case One(x) => if x.Set? then 1 else 0
    case Cat(l, r) => Sets(l) + Sets(r)
    case Alt(l, r) => Sets(l) + Sets(r)
    case Rep(_, b, _) => Sets(b)
    case Group(_, b) => Sets(b)
  }

  function LeafInst(x: Leaf, cb: nat): Inst {
    match x
    case Lit(c) => Char(c)
    case Dot => Any
    case Set(_) => InClass(cb)
    case Bol => AtBol
    case Eol => AtEol
  }

  function Branch(body: nat, after: nat, lazy: bool): Inst {
    if lazy then Split(after, body) else Split(body, after)
  }

  // Where the parts of a fragment at `at` are placed.

  function After(t: Re, at: nat): nat {
    at + Size(t)
  }

  function AfterSets(t: Re, cb: nat): nat {
    cb + Sets(t)
  }

  function Next(at: nat): nat {
    at + 1
  }

  function RightAt(l: Re, at: nat): nat {
    at + Size(l) + 2
  }

  function BodyAt(op: Op, at: nat): nat {
    if op.Plus? then at else at + 1
  }

  function BranchAt(op: Op, b: Re, at: nat): nat {
    if op.Plus? then at + Size(b) else at
  }

  /** The instruction at `j` when `t` is compiled at `at`, with its classes from `cb` on. */
  function InstAt(t: Re, at: nat, cb: nat, j: nat): Inst
    requires at <= j < at + Size(t)
  {
    match t
    case One(x) => LeafInst(x, cb)
    case Cat(l, r) =>
      if j < at + Size(l) then InstAt(l, at, cb, j) else InstAt(r, After(l, at), AfterSets(l, cb), j)
    case Alt(l, r) =>
      if j == at then Split(Next(at), RightAt(l, at))
      else if j <= at + Size(l) then InstAt(l, Next(at), cb, j)
      else if j == at + Size(l) + 1 then Jmp(at + Size(t))
      else InstAt(r, RightAt(l, at), AfterSets(l, cb), j)
    case Rep(op, b, lazy) =>
      if j == BranchAt(op, b, at) then Branch(BodyAt(op, at), at + Size(t), lazy)
      else if j < BodyAt(op, at) + Size(b) then InstAt(b, BodyAt(op, at), cb, j)
      else Jmp(at)
    case Group(g, b) =>
      if j == at then Save(2 * g)
      else if j <= at + Size(b) then InstAt(b, Next(at), cb, j)
      else Save(2 * g + 1)
  }

  /** The entry `j` of the class table that `t` fills from `cb` on. */
  function SetAt(t: Re, cb: nat, j: nat): Class
    requires cb <= j < cb + Sets(t)
  {
    match t
    case One(x) => x.cls
    case Cat(l, r) => if j < cb + Sets(l) then SetAt(l, cb, j) else SetAt(r, AfterSets(l, cb), j)
    case Alt(l, r) => if j < cb + Sets(l) then SetAt(l, cb, j) else SetAt(r, AfterSets(l, cb), j)
    case Rep(_, b, _) => SetAt(b, cb, j)
    case Group(_, b) => SetAt(b, cb, j)
  }

  /** `p[at .. at + Size(t)]` is the code of `t`. */
  ghost predicate Placed(p: seq<Inst>, t: Re, at: nat, cb: nat) {
    at + Size(t) <= |p| && forall j :: at <= j < at + Size(t) ==> p[j] == InstAt(t, at, cb, j)
  }

  ghost predicate Listed(cs: seq<Class>, t: Re, cb: nat) {
    cb + Sets(t) <= |cs| && forall j :: cb <= j < cb + Sets(t) ==> cs[j] == SetAt(t, cb, j)
  }

  // ---- relocation

  ghost predicate Relocates(t: Re, at: nat, cb: nat, d: nat, j: nat) {
    at <= j < at + Size(t) ==> InstAt(t, at + d, cb, j + d) == ShiftInst(InstAt(t, at, cb, j), d)
  }

  lemma RelocateAlt(l: Re, r: Re, at: nat, cb: nat, d: nat, j: nat)
    requires Relocates(l, Next(at), cb, d, j)
    requires Relocates(r, RightAt(l, at), AfterSets(l, cb), d, j)
    ensures Relocates(Alt(l, r), at, cb, d, j)
  {
    assert Next(at + d) == Next(at) + d && RightAt(l, at + d) == RightAt(l, at) + d;
  }

  lemma RelocateRep(op: Op, b: Re, lazy: bool, at: nat, cb: nat, d: nat, j: nat)
    requires Relocates(b, BodyAt(op, at), cb, d, j)
    ensures Relocates(Rep(op, b, lazy), at, cb, d, j)
  {
    assert BodyAt(op, at + d) == BodyAt(op, at) + d && BranchAt(op, b, at + d) == BranchAt(op, b, at) + d;
  }

  /** Relocating an instruction of a fragment gives the one compiled at the new place. */
  lemma {:induction false} Relocate(t: Re, at: nat, cb: nat, d: nat, j: nat)
    ensures Relocates(t, at, cb, d, j)
  {
    match t
    case Empty =>
    case One(x) =>
    case Cat(l, r) =>
      Relocate(l, at, cb, d, j);
      Relocate(r, After(l, at), AfterSets(l, cb), d, j);
      assert After(l, at + d) == After(l, at) + d;
    case Alt(l, r) =>
      Relocate(l, Next(at), cb, d, j);
      Relocate(r, RightAt(l, at), AfterSets(l, cb), d, j);
      RelocateAlt(l, r, at, cb, d, j);
    case Rep(op, b, lazy) =>
      Relocate(b, BodyAt(op, at), cb, d, j);
      RelocateRep(op, b, lazy, at, cb, d, j);
    case Group(g, b) =>
      Relocate(b, Next(at), cb, d, j);
      assert Next(at + d) == Next(at) + d;
  }

  // ---- growing the code

  /** The code and the class table grew by exactly the code of `t`. */
  ghost predicate Emitted(p0: seq<Inst>, cs0: seq<Class>, p: seq<Inst>, cs: seq<Class>, t: Re) {
    && p0 <= p && |p| == |p0| + Size(t) && Placed(p, t, |p0|, |cs0|)
    && cs0 <= cs && |cs| == |cs0| + Sets(t) && Listed(cs, t, |cs0|)
  }

  lemma EmitCat(p0: seq<Inst>, cs0: seq<Class>, p1: seq<Inst>, cs1: seq<Class>, p2: seq<Inst>, cs2: seq<Class>, l: Re, r: Re)
    requires Emitted(p0, cs0, p1, cs1, l) && Emitted(p1, cs1, p2, cs2, r)
    ensures Emitted(p0, cs0, p2, cs2, Cat(l, r))
  {
  }

  lemma EmitAlt(p0: seq<Inst>, cs0: seq<Class>, p1: seq<Inst>, cs1: seq<Class>, l: Re,
                q1: seq<Inst>, q2: seq<Inst>, cs2: seq<Class>, r: Re, q3: seq<Inst>)
    requires Emitted(p0, cs0, p1, cs1, l)
    requires MovedUp(|p0|, p1, q1, 2)
    requires Emitted(q1, cs1, q2, cs2, r)
    requires q3 == q2[|p0| := Split(|p0| + 1, |q1|)][|q1| - 1 := Jmp(|q2|)]
    ensures Emitted(p0, cs0, q3, cs2, Alt(l, r))
  {
    var at, cb := |p0|, |cs0|;
    forall j | at <= j < at + Size(Alt(l, r))
      ensures q3[j] == InstAt(Alt(l, r), at, cb, j)
    {
      if at < j <= at + Size(l) {
        Relocate(l, at, cb, 1, j - 1);
        assert q3[j] == q1[j - 1 + 1] == ShiftInst(p1[j - 1], 1);
      } else if RightAt(l, at) <= j {
        assert q3[j] == q2[j];
      }
    }
  }

  lemma EmitRep(p0: seq<Inst>, cs0: seq<Class>, p1: seq<Inst>, cs1: seq<Class>, op: Op, b: Re, lazy: bool, q: seq<Inst>)
    requires Emitted(p0, cs0, p1, cs1, b)
    requires p0 <= q && |q| == |p0| + Size(Rep(op, b, lazy))
    requires q[BranchAt(op, b, |p0|)] == Branch(BodyAt(op, |p0|), |q|, lazy)
    requires var d := BodyAt(op, |p0|) - |p0|;
             forall j :: |p0| <= j < |p1| ==> q[j + d] == ShiftInst(p1[j], d)
    requires op.Star? ==> q[|q| - 1] == Jmp(|p0|)
    ensures Emitted(p0, cs0, q, cs1, Rep(op, b, lazy))
  {
    var at, cb, t := |p0|, |cs0|, Rep(op, b, lazy);
    var d := BodyAt(op, at) - at;
    forall j | at <= j < at + Size(t)
      ensures q[j] == InstAt(t, at, cb, j)
    {
      if j != BranchAt(op, b, at) && BodyAt(op, at) <= j < BodyAt(op, at) + Size(b) {
        Relocate(b, at, cb, d, j - d);
        assert q[j - d + d] == ShiftInst(p1[j - d], d);
      }
    }
  }

  /** The code from `start` on moved up by one and was relocated; `more` instructions came in. */
  ghost predicate MovedUp(start: nat, p: seq<Inst>, q: seq<Inst>, more: nat) {
    && start <= |p| && |q| == |p| + more && more > 0
    && (forall j :: 0 <= j < start ==> q[j] == p[j])
    && (forall j :: start <= j < |p| ==> q[j + 1] == ShiftInst(p[j], 1))
  }

  lemma EmitStar(p0: seq<Inst>, cs0: seq<Class>, p1: seq<Inst>, cs1: seq<Class>, b: Re, lazy: bool, q: seq<Inst>)
    requires Emitted(p0, cs0, p1, cs1, b) && MovedUp(|p0|, p1, q, 2)
    requires q[|p0|] == Branch(|p0| + 1, |q|, lazy) && q[|q| - 1] == Jmp(|p0|)
    ensures Emitted(p0, cs0, q, cs1, Rep(Star, b, lazy))
  {
    EmitRep(p0, cs0, p1, cs1, Star, b, lazy, q);
  }

  lemma EmitPlus(p0: seq<Inst>, cs0: seq<Class>, p1: seq<Inst>, cs1: seq<Class>, b: Re, lazy: bool, q: seq<Inst>)
    requires Emitted(p0, cs0, p1, cs1, b) && q == p1 + [Branch(|p0|, |p1| + 1, lazy)]
    ensures Emitted(p0, cs0, q, cs1, Rep(Plus, b, lazy))
  {
    EmitRep(p0, cs0, p1, cs1, Plus, b, lazy, q);
  }

  lemma EmitOpt(p0: seq<Inst>, cs0: seq<Class>, p1: seq<Inst>, cs1: seq<Class>, b: Re, lazy: bool, q: seq<Inst>)
    requires Emitted(p0, cs0, p1, cs1, b) && MovedUp(|p0|, p1, q, 1)
    requires q[|p0|] == Branch(|p0| + 1, |q|, lazy)
    ensures Emitted(p0, cs0, q, cs1, Rep(Opt, b, lazy))
  {
    EmitRep(p0, cs0, p1, cs1, Opt, b, lazy, q);
  }

  lemma EmitGroup(p0: seq<Inst>, cs0: seq<Class>, p1: seq<Inst>, cs1: seq<Class>, g: nat, b: Re)
    requires Emitted(p0 + [Save(2 * g)], cs0, p1, cs1, b)
    ensures Emitted(p0, cs0, p1 + [Save(2 * g + 1)], cs1, Group(g, b))
  {
    assert p1[|p0|] == (p0 + [Save(2 * g)])[|p0|];
  }

  // ---- the compiler

  datatype Outcome = Pass | Fail(error: Error)

  class Compiler {
    const src: string
    var pos: nat
    var insts: seq<Inst>
    var classes: seq<Class>
    var ngroups: nat

    constructor (src: string)
      ensures this.src == src && pos == 0 && insts == [] && classes == [] && ngroups == 0
    {
      this.src := src;
      pos, insts, classes, ngroups := 0, [], [], 0;
    }

    /** The state reached from the given code and classes by reading `q` and emitting its code. */
    ghost predicate Reads(q: Parsed, r: Outcome, insts0: seq<Inst>, classes0: seq<Class>)
      reads this
    {
      match q
      case Bad(e) => r == Fail(e)
      case Ok(t, p, g) => r == Pass && pos == p && ngroups == g && Emitted(insts0, classes0, insts, classes, t)
    }

    method PushShifted(body: seq<Inst>, shift: nat)
      modifies this`insts
      ensures old(insts) <= insts && |insts| == |old(insts)| + |body|
      ensures forall k :: 0 <= k < |body| ==> insts[|old(insts)| + k] == ShiftInst(body[k], shift)
    {
      for k := 0 to |body|
        invariant old(insts) <= insts && |insts| == |old(insts)| + k
        invariant forall m :: 0 <= m < k ==> insts[|old(insts)| + m] == ShiftInst(body[m], shift)
      {
        insts := insts + [ShiftInst(body[k], shift)];
      }
    }

    /** `A|B|C` */
    method Alternatives() returns (r: Outcome)
      requires pos <= |src|
      modifies this
      ensures Reads(ParseAlt(src, old(pos), old(ngroups)), r, old(insts), old(classes))
      decreases |src| - pos, 6
    {
      var start := |insts|;
      ghost var insts0, classes0, pos0 := insts, classes, pos;
      ghost var goal := ParseAlt(src, pos, ngroups);
      r := Concat();
      if r.Fail? { return; }
      ghost var tree := ParseConcat(src, old(pos), old(ngroups)).tree;
      while pos < |src| && src[pos] == '|'
        invariant pos0 <= pos <= |src| && r == Pass
        invariant Emitted(insts0, classes0, insts, classes, tree)
        invariant goal == ParseAltRest(src, pos, ngroups, tree)
        decreases |src| - pos
      {
        pos := pos + 1;
        ghost var p := ParseConcat(src, pos, ngroups);
        ghost var left, leftClasses := insts, classes;
        var splitAt := PutBehindSplit(start);
        insts := insts + [Jmp(0)];
        var jmpAt := |insts| - 1;
        ghost var before := insts;
        var right := |insts|;
        r := Concat();
        if r.Fail? { return; }
        ghost var after := insts;
        var end := |insts|;
        insts := insts[splitAt := Split(splitAt + 1, right)];
        insts := insts[jmpAt := Jmp(end)];
        EmitAlt(insts0, classes0, left, leftClasses, tree, before, after, classes, p.tree, insts);
        tree := Alt(tree, p.tree);
      }
    }

    /** Moves the fragment from `start` on behind a Split whose targets are still to be filled in. */
    method PutBehindSplit(start: nat) returns (splitAt: nat)
      requires start <= |insts|
      modifies this`insts
      ensures splitAt == start && MovedUp(start, old(insts), insts, 1)
    {
      var body := insts[start..];
      insts := insts[..start] + [Split(0, 0)];
      splitAt := |insts| - 1;
      var shift := |insts| - start;
      PushShifted(body, shift);
      forall j | start <= j < |old(insts)|
        ensures insts[j + 1] == ShiftInst(old(insts)[j], 1)
      {
        assert insts[start + 1 + (j - start)] == ShiftInst(body[j - start], 1);
      }
    }

    method Concat() returns (r: Outcome)
      requires pos <= |src|
      modifies this
      ensures Reads(ParseConcat(src, old(pos), old(ngroups)), r, old(insts), old(classes))
      decreases |src| - pos, 4
    {
      r := Pass;
      ghost var insts0, classes0, pos0 := insts, classes, pos;
      ghost var goal := ParseConcat(src, pos, ngroups);
      ghost var tree := Empty;
      while pos < |src| && !(src[pos] == '|' || src[pos] == ')')
        invariant pos0 <= pos <= |src| && r == Pass
        invariant Emitted(insts0, classes0, insts, classes, tree)
        invariant goal == ParseConcatRest(src, pos, ngroups, tree)
        decreases |src| - pos
      {
        ghost var p := ParseRepeat(src, pos, ngroups);
        ghost var before, beforeClasses := insts, classes;
        r := Repeat();
        if r.Fail? { return; }
        EmitCat(insts0, classes0, before, beforeClasses, insts, classes, tree, p.tree);
        tree := Cat(tree, p.tree);
      }
    }

    method Repeat() returns (r: Outcome)
      requires pos <= |src|
      modifies this
      ensures Reads(ParseRepeat(src, old(pos), old(ngroups)), r, old(insts), old(classes))
      decreases |src| - pos, 2
    {
      var start := |insts|;
      ghost var insts0, classes0, pos0 := insts, classes, pos;
      ghost var goal := ParseRepeat(src, pos, ngroups);
      r := Atom();
      if r.Fail? { return; }
      ghost var tree := ParseAtom(src, old(pos), old(ngroups)).tree;
      while pos < |src| && (src[pos] == '*' || src[pos] == '+' || src[pos] == '?')
        invariant pos0 <= pos <= |src| && r == Pass
        invariant Emitted(insts0, classes0, insts, classes, tree)
        invariant goal == ParseSuffixes(src, pos, ngroups, tree)
        decreases |src| - pos
      {
        tree := Suffix(start, insts0, classes0, tree);
      }
    }

    /** One of `*`, `+`, `?`; a `?` right behind it asks for as little as possible. */
    method Suffix(start: nat, ghost p0: seq<Inst>, ghost cs0: seq<Class>, ghost t: Re) returns (ghost t': Re)
      requires IsSuffix(src, pos)
      requires start == |p0| && Emitted(p0, cs0, insts, classes, t)
      modifies this`pos, this`insts
      ensures var lazy := Is(src, old(pos) + 1, '?');
              t' == Rep(OpOf(src[old(pos)]), t, lazy) && pos == old(pos) + (if lazy then 2 else 1)
      ensures Emitted(p0, cs0, insts, classes, t')
    {
      var c := src[pos];
      pos := pos + 1;
      var lazy := pos < |src| && src[pos] == '?';
      if lazy {
        pos := pos + 1;
      }
      ghost var p1 := insts;
      match c {
        case '*' =>
          WrapStar(start, lazy);
          EmitStar(p0, cs0, p1, classes, t, lazy, insts);
        case '+' =>
          WrapPlus(start, lazy);
          EmitPlus(p0, cs0, p1, classes, t, lazy, insts);
        case _ =>
          WrapOpt(start, lazy);
          EmitOpt(p0, cs0, p1, classes, t, lazy, insts);
      }
      t' := Rep(OpOf(c), t, lazy);
    }

    /** split -> body -> jmp(split) */
    method WrapStar(start: nat, lazy: bool)
      requires start <= |insts|
      modifies this`insts
      ensures MovedUp(start, old(insts), insts, 2)
      ensures insts[start] == Branch(start + 1, |insts|, lazy) && insts[|insts| - 1] == Jmp(start)
    {
      var splitAt := PutBehindSplit(start);
      insts := insts + [Jmp(splitAt)];
      var after := |insts|;
      insts := insts[splitAt := if lazy then Split(after, splitAt + 1) else Split(splitAt + 1, after)];
    }

    /** body -> split(body, after) */
    method WrapPlus(start: nat, lazy: bool)
      requires start <= |insts|
      modifies this`insts
      ensures insts == old(insts) + [Branch(start, |old(insts)| + 1, lazy)]
    {
      var body := insts[start..];
      insts := insts[..start];
      insts := insts + body;
      assert insts == old(insts);
      var splitAt := |insts|;
      insts := insts + [Split(0, 0)];
      var after := |insts|;
      insts := insts[splitAt := if lazy then Split(after, start) else Split(start, after)];
    }

    /** split -> body */
    method WrapOpt(start: nat, lazy: bool)
      requires start <= |insts|
      modifies this`insts
      ensures MovedUp(start, old(insts), insts, 1)
      ensures insts[start] == Branch(start + 1, |insts|, lazy)
    {
      var splitAt := PutBehindSplit(start);
      var after := |insts|;
      insts := insts[splitAt := if lazy then Split(after, splitAt + 1) else Split(splitAt + 1, after)];
    }

    method Atom() returns (r: Outcome)
      requires pos <= |src|
      modifies this
      ensures Reads(ParseAtom(src, old(pos), old(ngroups)), r, old(insts), old(classes))
      decreases |src| - pos, 1
    {
      if pos == |src| { return Fail(UnexpectedEnd); }
      var c := src[pos];
      pos := pos + 1;
      match c {
        case '(' =>
          r := Parenthesis();
        case '[' =>
          ghost var goal := ParseClass(src, pos);
          var cls;
          r, cls := ClassMembers();
          if r.Fail? { return; }
          classes := classes + [cls];
          insts := insts + [InClass(|classes| - 1)];
        case '.' =>
          insts, r := insts + [Any], Pass;
        case '^' =>
          insts, r := insts + [AtBol], Pass;
        case '$' =>
          insts, r := insts + [AtEol], Pass;
        case '\\' =>
          if pos == |src| { return Fail(NothingAfterBackslash); }
          var e := src[pos];
          pos := pos + 1;
          r := Pass;
          match EscClass(e) {
            case Some(cls) =>
              classes := classes + [cls];
              insts := insts + [InClass(|classes| - 1)];
            case None =>
              insts := insts + [Char(EscChar(e))];
          }
        case ')' =>
          r := Fail(UnmatchedParen);
        case _ =>
          if c == '*' || c == '+' { return Fail(NothingToRepeat); }
          insts, r := insts + [Char(c)], Pass;
      }
    }

    /** The rest of an atom after its `(`. */
    method Parenthesis() returns (r: Outcome)
      requires 0 < pos <= |src| && src[pos - 1] == '('
      modifies this
      ensures Reads(ParseAtom(src, old(pos) - 1, old(ngroups)), r, old(insts), old(classes))
      decreases |src| - pos, 7
    {
      ghost var insts0, classes0 := insts, classes;
      var capture := !(pos + 1 < |src| && src[pos] == '?' && src[pos + 1] == ':');
      var slot := 0;
      if capture {
        ngroups := ngroups + 1;
        if ngroups >= MAX_GROUPS { return Fail(TooManyGroups); }
        slot := ngroups;
        insts := insts + [Save(slot * 2)];
      } else {
        pos := pos + 2;
      }
      ghost var p := ParseAlt(src, pos, ngroups);
      r := Alternatives();
      if r.Fail? { return; }
      if !(pos < |src| && src[pos] == ')') { return Fail(MissingParen); }
      pos := pos + 1;
      ghost var inner := insts;
      if capture {
        insts := insts + [Save(slot * 2 + 1)];
        EmitGroup(insts0, classes0, inner, classes, slot, p.tree);
      }
    }

    method ClassMembers() returns (r: Outcome, cls: Class)
      requires pos <= |src|
      modifies this`pos
      ensures match ParseClass(src, old(pos))
              case BadClass(e) => r == Fail(e)
              case OkClass(k, p) => r == Pass && cls == k && pos == p
    {
      ghost var goal := ParseClass(src, pos);
      cls := Class(false, []);
      var neg := false;
      if pos < |src| && src[pos] == '^' {
        neg := true;
        pos := pos + 1;
      }
      var ranges := [];
      var first := true;
      while true
        invariant pos <= |src|
        invariant goal == ParseClassItems(src, pos, first, neg, ranges)
        decreases |src| - pos
      {
        if pos == |src| { return Fail(MissingBracket), cls; }
        var c := src[pos];
        if c == ']' && !first {
          pos := pos + 1;
          return Pass, Class(neg, ranges);
        }
        first := false;
        pos := pos + 1;
        if c == '\\' {
          if pos == |src| { return Fail(NothingAfterBackslash), cls; }
          var e := src[pos];
          pos := pos + 1;
          match EscClass(e) {
            case Some(sub) =>
              // A class inside a class merges its ranges as they are.
              ranges := ranges + sub.ranges;
            case None =>
              ranges := ranges + [Range(EscChar(e), EscChar(e))];
          }
          continue;
        }
        if pos + 1 < |src| && src[pos] == '-' && src[pos + 1] != ']' {
          pos := pos + 1;
          var hi := src[pos];
          pos := pos + 1;
          ranges := ranges + [Range(c, hi)];
        } else {
          ranges := ranges + [Range(c, c)];
        }
      }
    }
  }

  datatype Compiled = Rejected(error: Error) | Accepted(prog: Prog)

  /** The program of a pattern: group 0 around the tree, then the accepting instruction. */
  ghost predicate IsProgram(p: Prog, t: Re, ngroups: nat) {
    && |p.insts| == Size(Group(0, t)) + 1 && Placed(p.insts, Group(0, t), 0, 0)
    && p.insts[|p.insts| - 1] == Match
    && |p.classes| == Sets(t) && Listed(p.classes, t, 0)
    && p.ngroups == ngroups
  }

  method Compile(pattern: string) returns (r: Compiled)
    ensures match ParsePattern(pattern)
            case Bad(e) => r == Rejected(e)
            case Ok(t, _, g) => r.Accepted? && IsProgram(r.prog, t, g)
  {
    var p := new Compiler(pattern);
    p.insts := p.insts + [Save(0)];
    ghost var q := ParseAlt(pattern, 0, 0);
    var o := p.Alternatives();
    if o.Fail? { return Rejected(o.error); }
    if p.pos < |p.src| { return Rejected(CannotRead(p.pos)); }
    assert [] + [Save(2 * 0)] == [Save(0)];
    EmitGroup([], [], p.insts, p.classes, 0, q.tree);
    p.insts := p.insts + [Save(1)];
    p.insts := p.insts + [Match];
    r := Accepted(Prog(p.insts, p.classes, p.ngroups));
  }
}
