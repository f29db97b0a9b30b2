/** The code of a pattern does what the pattern means: each fragment, and the whole program. */
module RegexCorrect {
  import opened RegexSyntax
  import opened RegexMeaning
  import opened RegexCompiler
  import opened RegexMachine
  import opened RegexSearch

  // ---- fragments inside a program

  /** The program can run, holds the code of `t` at `at`, and goes on behind it. */
  ghost predicate Holds(p: Prog, t: Re, at: nat, cb: nat) {
    Runnable(p) && SlotsOk(t) && Placed(p.insts, t, at, cb) && Listed(p.classes, t, cb) && at + Size(t) < |p.insts|
  }

  lemma CatParts(p: Prog, l: Re, r: Re, at: nat, cb: nat)
    requires Holds(p, Cat(l, r), at, cb)
    ensures Holds(p, l, at, cb) && Holds(p, r, After(l, at), AfterSets(l, cb))
  {
  }

  lemma AltParts(p: Prog, l: Re, r: Re, at: nat, cb: nat)
    requires Holds(p, Alt(l, r), at, cb)
    ensures Holds(p, l, Next(at), cb) && Holds(p, r, RightAt(l, at), AfterSets(l, cb))
    ensures p.insts[at] == Split(Next(at), RightAt(l, at))
    ensures p.insts[After(l, Next(at))] == Jmp(After(Alt(l, r), at))
  {
  }

  lemma RepParts(p: Prog, op: Op, b: Re, lazy: bool, at: nat, cb: nat)
    requires Holds(p, Rep(op, b, lazy), at, cb)
    ensures Holds(p, b, BodyAt(op, at), cb)
    ensures p.insts[BranchAt(op, b, at)] == Branch(BodyAt(op, at), After(Rep(op, b, lazy), at), lazy)
    ensures op.Star? ==> p.insts[After(b, Next(at))] == Jmp(at)
  {
  }

  lemma GroupParts(p: Prog, g: nat, b: Re, at: nat, cb: nat)
    requires Holds(p, Group(g, b), at, cb)
    ensures Holds(p, b, Next(at), cb)
    ensures p.insts[at] == Save(2 * g) && p.insts[After(b, Next(at))] == Save(2 * g + 1)
  {
  }

  /** The jump targets of `i` are in `[at, end]` and its class in `[cb, cend)`. */
  predicate Inside(i: Inst, at: nat, end: nat, cb: nat, cend: nat) {
    match i
    case Jmp(a) => at <= a <= end
    case Split(a, b) => at <= a <= end && at <= b <= end
    case InClass(ci) => cb <= ci < cend
    case Save(slot) => slot < NSLOTS
    case Match => false
    case _ => true
  }

  ghost predicate InsideAt(t: Re, at: nat, cb: nat, j: nat) {
    at <= j < at + Size(t) ==> Inside(InstAt(t, at, cb, j), at, at + Size(t), cb, cb + Sets(t))
  }

  lemma CatInside(l: Re, r: Re, at: nat, cb: nat, j: nat)
    requires InsideAt(l, at, cb, j) && InsideAt(r, After(l, at), AfterSets(l, cb), j)
    ensures InsideAt(Cat(l, r), at, cb, j)
  {
  }

  lemma AltInside(l: Re, r: Re, at: nat, cb: nat, j: nat)
    requires InsideAt(l, Next(at), cb, j) && InsideAt(r, RightAt(l, at), AfterSets(l, cb), j)
    ensures InsideAt(Alt(l, r), at, cb, j)
  {
  }

  lemma RepInside(op: Op, b: Re, lazy: bool, at: nat, cb: nat, j: nat)
    requires InsideAt(b, BodyAt(op, at), cb, j)
    ensures InsideAt(Rep(op, b, lazy), at, cb, j)
  {
  }

  lemma GroupInside(g: nat, b: Re, at: nat, cb: nat, j: nat)
    requires g < MAX_GROUPS && InsideAt(b, Next(at), cb, j)
    ensures InsideAt(Group(g, b), at, cb, j)
  {
  }

  /** Jumps of a fragment stay inside it or go right behind it, and its classes are its own. */
  lemma {:induction false} TargetsInside(t: Re, at: nat, cb: nat, j: nat)
    requires SlotsOk(t)
    ensures InsideAt(t, at, cb, j)
  {
    match t
    case Empty =>
    case One(x) =>
    case Cat(l, r) =>
      TargetsInside(l, at, cb, j);
      TargetsInside(r, After(l, at), AfterSets(l, cb), j);
      CatInside(l, r, at, cb, j);
    case Alt(l, r) =>
      TargetsInside(l, Next(at), cb, j);
      TargetsInside(r, RightAt(l, at), AfterSets(l, cb), j);
      AltInside(l, r, at, cb, j);
    case Rep(op, b, lazy) =>
      TargetsInside(b, BodyAt(op, at), cb, j);
      RepInside(op, b, lazy, at, cb, j);
    case Group(g, b) =>
      TargetsInside(b, Next(at), cb, j);
      GroupInside(g, b, at, cb, j);
  }

  /** A compiled program never leaves its code or its tables. */
  lemma ProgramRuns(p: Prog, t: Re, ngroups: nat)
    requires IsProgram(p, t, ngroups) && SlotsOk(t)
    ensures Runnable(p) && Holds(p, Group(0, t), 0, 0)
    ensures forall k :: 0 <= k < |p.insts| - 1 ==> p.insts[k] != Match
  {
    forall k | 0 <= k < |p.insts|
      ensures InstOk(p, k) && (k < |p.insts| - 1 ==> p.insts[k] != Match)
    {
      if k < |p.insts| - 1 {
        TargetsInside(Group(0, t), 0, 0, k);
      }
    }
  }

  // ---- how far a fragment can go

  /** Can `t` match without reading a character? */
  predicate Nullable(t: Re) {
    match t
    case Empty => true
    case One(x) => Width(x) == 0
    case Cat(l, r) => Nullable(l) && Nullable(r)
    case Alt(l, r) => Nullable(l) || Nullable(r)
    case Rep(op, b, _) => !op.Plus? || Nullable(b)
    case Group(_, b) => Nullable(b)
  }

  /** No `*` or `+` of `t` repeats something that can match without reading a character. */
  predicate Safe(t: Re) {
    match t
    case Cat(l, r) => Safe(l) && Safe(r)
    case Alt(l, r) => Safe(l) && Safe(r)
    case Rep(op, b, _) => Safe(b) && (op.Opt? || !Nullable(b))
    case Group(_, b) => Safe(b)
    case _ => true
  }

  function Left(inp: string, i: nat): nat {
    if i < |inp| then |inp| - i else 0
  }

  lemma {:induction false} Progress(t: Re, inp: string, i: nat, s: Saves, w: seq<bool>)
    requires SlotsOk(t) && Walk(t, inp, i, s, w).Went?
    ensures var j := Walk(t, inp, i, s, w).at;
            i <= j && (i < j ==> j <= |inp|) && (!Nullable(t) ==> i < j)
    decreases |w|, t
  {
    match t
    case Empty =>
    case One(x) =>
    case Cat(l, r) =>
      var a := Walk(l, inp, i, s, w);
      Progress(l, inp, i, s, w);
      Progress(r, inp, a.at, a.saves, a.rest);
    case Alt(l, r) =>
      Progress(if w[0] then r else l, inp, i, s, w[1..]);
    case Rep(op, b, lazy) =>
      if op.Plus? || Again(w[0], lazy) {
        var v := if op.Plus? then w else w[1..];
        var a := Walk(b, inp, i, s, v);
        Progress(b, inp, i, s, v);
        if op.Star? {
          Progress(t, inp, a.at, a.saves, a.rest);
        } else if op.Plus? && Again(a.rest[0], lazy) {
          Progress(t, inp, a.at, a.saves, a.rest[1..]);
        }
      }
    case Group(g, b) =>
      Progress(b, inp, i, s[2 * g := i], w);
  }

  /**
   * Following `w`, a walk comes round some `*` or `+` of `t` without having read a character in that
   * round, whether or not it gets through in the end.
   */
  ghost predicate Idles(t: Re, inp: string, i: nat, s: Saves, w: seq<bool>)
    requires SlotsOk(t)
    decreases |w|, t, 1
  {
    match t
    case Empty => false
    case One(_) => false
    case Cat(l, r) =>
      Idles(l, inp, i, s, w) ||
      (var a := Walk(l, inp, i, s, w); a.Went? && Idles(r, inp, a.at, a.saves, a.rest))
    case Alt(l, r) => w != [] && Idles(if w[0] then r else l, inp, i, s, w[1..])
    case Rep(_, _, _) => RepIdles(t, inp, i, s, w)
    case Group(g, b) => Idles(b, inp, i, s[2 * g := i], w)
  }

  ghost predicate RepIdles(t: Re, inp: string, i: nat, s: Saves, w: seq<bool>)
    requires SlotsOk(t) && t.Rep?
    decreases |w|, t, 0
  {
    if t.op.Plus? then
      Idles(t.body, inp, i, s, w) ||
      (var a := Walk(t.body, inp, i, s, w);
       a.Went? && a.rest != [] && Again(a.rest[0], t.lazy) &&
       (a.at == i || RepIdles(t, inp, a.at, a.saves, a.rest[1..])))
    else
      w != [] && Again(w[0], t.lazy) &&
      (Idles(t.body, inp, i, s, w[1..]) ||
       (var a := Walk(t.body, inp, i, s, w[1..]);
        a.Went? && t.op.Star? && (a.at == i || RepIdles(t, inp, a.at, a.saves, a.rest))))
  }

  lemma StarIdles(t: Re, inp: string, i: nat, s: Saves, w: seq<bool>)
    requires SlotsOk(t) && t.Rep? && !t.op.Plus? && w != [] && Again(w[0], t.lazy)
    ensures var a := Walk(t.body, inp, i, s, w[1..]);
      Idles(t, inp, i, s, w) <==>
        Idles(t.body, inp, i, s, w[1..]) ||
        (a.Went? && t.op.Star? && (a.at == i || Idles(t, inp, a.at, a.saves, a.rest)))
  {
  }

  lemma PlusIdles(t: Re, inp: string, i: nat, s: Saves, w: seq<bool>)
    requires SlotsOk(t) && t.Rep? && t.op.Plus?
    ensures var a := Walk(t.body, inp, i, s, w);
      Idles(t, inp, i, s, w) <==>
        Idles(t.body, inp, i, s, w) ||
        (a.Went? && a.rest != [] && Again(a.rest[0], t.lazy) && (a.at == i || Idles(t, inp, a.at, a.saves, a.rest[1..])))
  {
  }

  /** A safe pattern never idles. */
  lemma {:induction false} SafeNeverIdles(t: Re, inp: string, i: nat, s: Saves, w: seq<bool>)
    requires SlotsOk(t) && Safe(t)
    ensures !Idles(t, inp, i, s, w)
    decreases |w|, t, 1
  {
    match t
    case Empty =>
    case One(_) =>
    case Cat(l, r) =>
      SafeNeverIdles(l, inp, i, s, w);
      var a := Walk(l, inp, i, s, w);
      if a.Went? { SafeNeverIdles(r, inp, a.at, a.saves, a.rest); }
    case Alt(l, r) => if w != [] { SafeNeverIdles(if w[0] then r else l, inp, i, s, w[1..]); }
    case Rep(_, _, _) => SafeRepNeverIdles(t, inp, i, s, w);
    case Group(g, b) => SafeNeverIdles(b, inp, i, s[2 * g := i], w);
  }

  lemma {:induction false} SafeRepNeverIdles(t: Re, inp: string, i: nat, s: Saves, w: seq<bool>)
    requires SlotsOk(t) && t.Rep? && Safe(t)
    ensures !RepIdles(t, inp, i, s, w)
    decreases |w|, t, 0
  {
    if t.op.Plus? {
      SafeNeverIdles(t.body, inp, i, s, w);
      var a := Walk(t.body, inp, i, s, w);
      if a.Went? {
        Progress(t.body, inp, i, s, w);
        if a.rest != [] { SafeRepNeverIdles(t, inp, a.at, a.saves, a.rest[1..]); }
      }
    } else if w != [] {
      SafeNeverIdles(t.body, inp, i, s, w[1..]);
      var a := Walk(t.body, inp, i, s, w[1..]);
      if a.Went? {
        Progress(t.body, inp, i, s, w[1..]);
        if t.op.Star? { SafeRepNeverIdles(t, inp, a.at, a.saves, a.rest); }
      }
    }
  }

  /** Steps a fragment can take while `k` characters are left and the walk does not idle. */
  function Bound(t: Re, k: nat): nat
    decreases t, k
  {
    match t
    case Empty => 0
    case One(_) => 1
    case Cat(l, r) => Bound(l, k) + Bound(r, k)
    case Alt(l, r) => Bound(l, k) + Bound(r, k) + 2
    case Rep(op, b, _) => Bound(b, k) + 2 + (if k == 0 || op.Opt? then 0 else Bound(t, k - 1))
    case Group(_, b) => Bound(b, k) + 2
  }

  lemma {:induction false} BoundMonotone(t: Re, k: nat, k': nat)
    requires k <= k'
    ensures Bound(t, k) <= Bound(t, k')
    decreases t, k'
  {
    match t
    case Empty =>
    case One(_) =>
    case Cat(l, r) => BoundMonotone(l, k, k'); BoundMonotone(r, k, k');
    case Alt(l, r) => BoundMonotone(l, k, k'); BoundMonotone(r, k, k');
    case Rep(op, b, _) =>
      BoundMonotone(b, k, k');
      if k > 0 { BoundMonotone(t, k - 1, k' - 1); }
    case Group(_, b) => BoundMonotone(b, k, k');
  }

  // ---- walking is running

  /** `n` steps take the fragment of `t` at `at` to its end, as the choices of `w` say. */
  ghost predicate Crosses(p: Prog, inp: string, t: Re, at: nat, i: nat, s: Saves, w: seq<bool>, n: nat)
    requires Runnable(p) && SlotsOk(t) && at < |p.insts|
  {
    var r := Walk(t, inp, i, s, w);
    r.Went? && Drive(p, inp, Thread(at, i, s), w, n) == At(Thread(After(t, at), r.at, r.saves), r.rest)
  }

  lemma OneCrosses(p: Prog, inp: string, x: Leaf, at: nat, cb: nat, i: nat, s: Saves, w: seq<bool>)
    requires Holds(p, One(x), at, cb)
    ensures if OneMatches(x, inp, i) then Crosses(p, inp, One(x), at, i, s, w, 1)
            else Drive(p, inp, Thread(at, i, s), w, 1) == Halted
  {
    assert p.insts[at] == LeafInst(x, cb);
    assert x.Set? ==> p.classes[cb] == x.cls;
  }

  lemma CatCrosses(p: Prog, inp: string, l: Re, r: Re, at: nat, i: nat, s: Saves, w: seq<bool>, n1: nat, n2: nat)
    requires Runnable(p) && SlotsOk(Cat(l, r)) && at + Size(l) < |p.insts|
    requires Crosses(p, inp, l, at, i, s, w, n1)
    requires var a := Walk(l, inp, i, s, w); Crosses(p, inp, r, After(l, at), a.at, a.saves, a.rest, n2)
    ensures Crosses(p, inp, Cat(l, r), at, i, s, w, n1 + n2)
  {
    DriveOn(p, inp, Thread(at, i, s), w, n1, n2);
  }

  lemma LeftCrosses(p: Prog, inp: string, l: Re, r: Re, at: nat, cb: nat, i: nat, s: Saves, w: seq<bool>, n: nat)
    requires Holds(p, Alt(l, r), at, cb) && w != [] && !w[0]
    requires Crosses(p, inp, l, Next(at), i, s, w[1..], n)
    ensures Crosses(p, inp, Alt(l, r), at, i, s, w, n + 2)
  {
    AltParts(p, l, r, at, cb);
    DriveOn(p, inp, Thread(Next(at), i, s), w[1..], n, 1);
  }

  lemma RightCrosses(p: Prog, inp: string, l: Re, r: Re, at: nat, cb: nat, i: nat, s: Saves, w: seq<bool>, n: nat)
    requires Holds(p, Alt(l, r), at, cb) && w != [] && w[0]
    requires Crosses(p, inp, r, RightAt(l, at), i, s, w[1..], n)
    ensures Crosses(p, inp, Alt(l, r), at, i, s, w, n + 1)
  {
    AltParts(p, l, r, at, cb);
  }

  lemma GroupCrosses(p: Prog, inp: string, g: nat, b: Re, at: nat, cb: nat, i: nat, s: Saves, w: seq<bool>, n: nat)
    requires Holds(p, Group(g, b), at, cb)
    requires Crosses(p, inp, b, Next(at), i, s[2 * g := i], w, n)
    ensures Crosses(p, inp, Group(g, b), at, i, s, w, n + 2)
  {
    GroupParts(p, g, b, at, cb);
    DriveOn(p, inp, Thread(Next(at), i, s[2 * g := i]), w, n, 1);
  }

  /** The body of a repetition ends at the branch of `+`, the jump back of `*`, or the end of `?`. */
  lemma BranchStep(p: Prog, inp: string, t: Re, at: nat, cb: nat, i: nat, s: Saves, w: seq<bool>)
    requires Holds(p, t, at, cb) && t.Rep? && w != []
    ensures Drive(p, inp, Thread(BranchAt(t.op, t.body, at), i, s), w, 1) ==
            At(Thread(if Again(w[0], t.lazy) then BodyAt(t.op, at) else After(t, at), i, s), w[1..])
  {
    RepParts(p, t.op, t.body, t.lazy, at, cb);
  }

  lemma LeaveCrosses(p: Prog, inp: string, t: Re, at: nat, cb: nat, i: nat, s: Saves, w: seq<bool>)
    requires Holds(p, t, at, cb) && t.Rep? && !t.op.Plus? && w != [] && !Again(w[0], t.lazy)
    ensures Crosses(p, inp, t, at, i, s, w, 1)
  {
    BranchStep(p, inp, t, at, cb, i, s, w);
  }

  lemma OptCrosses(p: Prog, inp: string, t: Re, at: nat, cb: nat, i: nat, s: Saves, w: seq<bool>, n: nat)
    requires Holds(p, t, at, cb) && t.Rep? && t.op.Opt? && w != [] && Again(w[0], t.lazy)
    requires Crosses(p, inp, t.body, Next(at), i, s, w[1..], n)
    ensures Crosses(p, inp, t, at, i, s, w, n + 1)
  {
    BranchStep(p, inp, t, at, cb, i, s, w);
    DriveOn(p, inp, Thread(at, i, s), w, 1, n);
  }

  lemma StarCrosses(p: Prog, inp: string, t: Re, at: nat, cb: nat, i: nat, s: Saves, w: seq<bool>, n1: nat, n2: nat)
    requires Holds(p, t, at, cb) && t.Rep? && t.op.Star? && w != [] && Again(w[0], t.lazy)
    requires Crosses(p, inp, t.body, Next(at), i, s, w[1..], n1)
    requires var a := Walk(t.body, inp, i, s, w[1..]); Crosses(p, inp, t, at, a.at, a.saves, a.rest, n2)
    ensures Crosses(p, inp, t, at, i, s, w, n1 + n2 + 2)
  {
    var a := Walk(t.body, inp, i, s, w[1..]);
    BranchStep(p, inp, t, at, cb, i, s, w);
    RepParts(p, t.op, t.body, t.lazy, at, cb);
    DriveOn(p, inp, Thread(at, i, s), w, 1, n1);
    DriveOn(p, inp, Thread(at, i, s), w, n1 + 1, n2 + 1);
    assert Drive(p, inp, Thread(After(t.body, Next(at)), a.at, a.saves), a.rest, n2 + 1) ==
           Drive(p, inp, Thread(at, a.at, a.saves), a.rest, n2);
  }

  lemma LastRoundCrosses(p: Prog, inp: string, t: Re, at: nat, cb: nat, i: nat, s: Saves, w: seq<bool>, n: nat)
    requires Holds(p, t, at, cb) && t.Rep? && t.op.Plus?
    requires Crosses(p, inp, t.body, at, i, s, w, n)
    requires var a := Walk(t.body, inp, i, s, w); a.rest != [] && !Again(a.rest[0], t.lazy)
    ensures Crosses(p, inp, t, at, i, s, w, n + 1)
  {
    var a := Walk(t.body, inp, i, s, w);
    BranchStep(p, inp, t, at, cb, a.at, a.saves, a.rest);
    DriveOn(p, inp, Thread(at, i, s), w, n, 1);
  }

  lemma NextRoundCrosses(p: Prog, inp: string, t: Re, at: nat, cb: nat, i: nat, s: Saves, w: seq<bool>, n1: nat, n2: nat)
    requires Holds(p, t, at, cb) && t.Rep? && t.op.Plus?
    requires Crosses(p, inp, t.body, at, i, s, w, n1)
    requires var a := Walk(t.body, inp, i, s, w);
             a.rest != [] && Again(a.rest[0], t.lazy) && Crosses(p, inp, t, at, a.at, a.saves, a.rest[1..], n2)
    ensures Crosses(p, inp, t, at, i, s, w, n1 + 1 + n2)
  {
    var a := Walk(t.body, inp, i, s, w);
    BranchStep(p, inp, t, at, cb, a.at, a.saves, a.rest);
    DriveOn(p, inp, Thread(at, i, s), w, n1, 1);
    DriveOn(p, inp, Thread(at, i, s), w, n1 + 1, n2);
  }

  lemma {:induction false} WalkRuns(p: Prog, inp: string, t: Re, at: nat, cb: nat, i: nat, s: Saves, w: seq<bool>) returns (n: nat)
    requires Holds(p, t, at, cb) && Walk(t, inp, i, s, w).Went?
    ensures Crosses(p, inp, t, at, i, s, w, n)
    decreases |w|, t
  {
    match t
    case Empty => n := 0;
    case One(x) =>
      OneCrosses(p, inp, x, at, cb, i, s, w);
      n := 1;
    case Cat(l, r) =>
      CatParts(p, l, r, at, cb);
      var a := Walk(l, inp, i, s, w);
      var n1 := WalkRuns(p, inp, l, at, cb, i, s, w);
      var n2 := WalkRuns(p, inp, r, After(l, at), AfterSets(l, cb), a.at, a.saves, a.rest);
      CatCrosses(p, inp, l, r, at, i, s, w, n1, n2);
      n := n1 + n2;
    case Alt(l, r) =>
      n := AltRuns(p, inp, l, r, at, cb, i, s, w);
    case Rep(op, b, lazy) =>
      n := RepRuns(p, inp, t, at, cb, i, s, w);
    case Group(g, b) =>
      GroupParts(p, g, b, at, cb);
      var n1 := WalkRuns(p, inp, b, Next(at), cb, i, s[2 * g := i], w);
      GroupCrosses(p, inp, g, b, at, cb, i, s, w, n1);
      n := n1 + 2;
  }

  lemma {:induction false} AltRuns(p: Prog, inp: string, l: Re, r: Re, at: nat, cb: nat, i: nat, s: Saves, w: seq<bool>) returns (n: nat)
    requires Holds(p, Alt(l, r), at, cb) && Walk(Alt(l, r), inp, i, s, w).Went?
    ensures Crosses(p, inp, Alt(l, r), at, i, s, w, n)
    decreases |w|, Alt(l, r), 0
  {
    AltParts(p, l, r, at, cb);
    if w[0] {
      var n2 := WalkRuns(p, inp, r, RightAt(l, at), AfterSets(l, cb), i, s, w[1..]);
      RightCrosses(p, inp, l, r, at, cb, i, s, w, n2);
      n := n2 + 1;
    } else {
      var n1 := WalkRuns(p, inp, l, Next(at), cb, i, s, w[1..]);
      LeftCrosses(p, inp, l, r, at, cb, i, s, w, n1);
      n := n1 + 2;
    }
  }

  lemma {:induction false} RepRuns(p: Prog, inp: string, t: Re, at: nat, cb: nat, i: nat, s: Saves, w: seq<bool>) returns (n: nat)
    requires Holds(p, t, at, cb) && t.Rep? && Walk(t, inp, i, s, w).Went?
    ensures Crosses(p, inp, t, at, i, s, w, n)
    decreases |w|, t, 0
  {
    if t.op.Plus? {
      n := PlusRuns(p, inp, t, at, cb, i, s, w);
    } else if !Again(w[0], t.lazy) {
      LeaveCrosses(p, inp, t, at, cb, i, s, w);
      n := 1;
    } else {
      RepParts(p, t.op, t.body, t.lazy, at, cb);
      var a := Walk(t.body, inp, i, s, w[1..]);
      var n1 := WalkRuns(p, inp, t.body, Next(at), cb, i, s, w[1..]);
      if t.op.Opt? {
        OptCrosses(p, inp, t, at, cb, i, s, w, n1);
        n := n1 + 1;
      } else {
        var n2 := RepRuns(p, inp, t, at, cb, a.at, a.saves, a.rest);
        StarCrosses(p, inp, t, at, cb, i, s, w, n1, n2);
        n := n1 + n2 + 2;
      }
    }
  }

  lemma {:induction false} PlusRuns(p: Prog, inp: string, t: Re, at: nat, cb: nat, i: nat, s: Saves, w: seq<bool>) returns (n: nat)
    requires Holds(p, t, at, cb) && t.Rep? && t.op.Plus? && Walk(t, inp, i, s, w).Went?
    ensures Crosses(p, inp, t, at, i, s, w, n)
    decreases |w|, t, 0, 0
  {
    RepParts(p, t.op, t.body, t.lazy, at, cb);
    var a := Walk(t.body, inp, i, s, w);
    var n1 := WalkRuns(p, inp, t.body, at, cb, i, s, w);
    if Again(a.rest[0], t.lazy) {
      var n2 := RepRuns(p, inp, t, at, cb, a.at, a.saves, a.rest[1..]);
      NextRoundCrosses(p, inp, t, at, cb, i, s, w, n1, n2);
      n := n1 + 1 + n2;
    } else {
      LastRoundCrosses(p, inp, t, at, cb, i, s, w, n1);
      n := n1 + 1;
    }
  }

  // ---- running is walking

  /** `n` steps from the start of a fragment get out of it, or are more than it can take without idling. */
  ghost predicate Escapes(p: Prog, inp: string, t: Re, at: nat, i: nat, s: Saves, w: seq<bool>, n: nat)
    requires Runnable(p) && SlotsOk(t) && at < |p.insts|
  {
    var r := Drive(p, inp, Thread(at, i, s), w, n);
    r.At? && (!(at <= r.th.pc < at + Size(t)) || (!Idles(t, inp, i, s, w) && n > Bound(t, Left(inp, i))))
  }

  /** The first `m` of `n` steps cross the fragment, within its bound unless the walk idles. */
  ghost predicate CrossesBy(p: Prog, inp: string, t: Re, at: nat, i: nat, s: Saves, w: seq<bool>, m: nat, n: nat)
    requires Runnable(p) && SlotsOk(t) && at < |p.insts|
  {
    m <= n && Crosses(p, inp, t, at, i, s, w, m) && (!Idles(t, inp, i, s, w) ==> m <= Bound(t, Left(inp, i)))
  }

  /** After crossing `l`, `r` has no more room than before, and less if `l` read a character. */
  lemma LessRoom(inp: string, l: Re, r: Re, i: nat, s: Saves, w: seq<bool>)
    requires SlotsOk(l) && Walk(l, inp, i, s, w).Went?
    ensures var j := Walk(l, inp, i, s, w).at; var k, k' := Left(inp, i), Left(inp, j);
            Bound(r, k') <= Bound(r, k) && (j != i ==> k > 0 && Bound(r, k') <= Bound(r, k - 1))
  {
    Progress(l, inp, i, s, w);
    var k, k' := Left(inp, i), Left(inp, Walk(l, inp, i, s, w).at);
    BoundMonotone(r, k', k);
    if Walk(l, inp, i, s, w).at != i {
      BoundMonotone(r, k', k - 1);
    }
  }

  /** Every run that gets out of a fragment crosses it first, along a walk of its tree. */
  lemma {:induction false} RunsWalk(p: Prog, inp: string, t: Re, at: nat, cb: nat, i: nat, s: Saves, w: seq<bool>, n: nat) returns (m: nat)
    requires Holds(p, t, at, cb) && Escapes(p, inp, t, at, i, s, w, n)
    ensures CrossesBy(p, inp, t, at, i, s, w, m, n)
    decreases n, t, 1
  {
    match t
    case Empty => m := 0;
    case One(x) =>
      OneCrosses(p, inp, x, at, cb, i, s, w);
      m := OneWalks(p, inp, x, at, cb, i, s, w, n);
    case Cat(l, r) => m := CatWalks(p, inp, l, r, at, cb, i, s, w, n);
    case Alt(l, r) => m := AltWalks(p, inp, l, r, at, cb, i, s, w, n);
    case Rep(op, b, lazy) => m := RepWalks(p, inp, t, at, cb, i, s, w, n);
    case Group(g, b) => m := GroupWalks(p, inp, g, b, at, cb, i, s, w, n);
  }

  lemma OneWalks(p: Prog, inp: string, x: Leaf, at: nat, cb: nat, i: nat, s: Saves, w: seq<bool>, n: nat) returns (m: nat)
    requires Holds(p, One(x), at, cb) && Escapes(p, inp, One(x), at, i, s, w, n)
    ensures CrossesBy(p, inp, One(x), at, i, s, w, m, n)
  {
    OneCrosses(p, inp, x, at, cb, i, s, w);
    assert n > 0;
    m := 1;
  }

  lemma CatFirst(p: Prog, inp: string, l: Re, r: Re, at: nat, i: nat, s: Saves, w: seq<bool>, n: nat)
    requires Runnable(p) && SlotsOk(Cat(l, r)) && at < |p.insts| && Escapes(p, inp, Cat(l, r), at, i, s, w, n)
    ensures Escapes(p, inp, l, at, i, s, w, n)
  {
    assert Idles(l, inp, i, s, w) ==> Idles(Cat(l, r), inp, i, s, w);
  }

  lemma CatSecond(p: Prog, inp: string, l: Re, r: Re, at: nat, i: nat, s: Saves, w: seq<bool>, m1: nat, n: nat)
    requires Runnable(p) && SlotsOk(Cat(l, r)) && at + Size(l) < |p.insts| && Escapes(p, inp, Cat(l, r), at, i, s, w, n)
    requires CrossesBy(p, inp, l, at, i, s, w, m1, n)
    ensures var a := Walk(l, inp, i, s, w); Escapes(p, inp, r, After(l, at), a.at, a.saves, a.rest, n - m1)
  {
    var a := Walk(l, inp, i, s, w);
    DriveOn(p, inp, Thread(at, i, s), w, m1, n - m1);
    LessRoom(inp, l, r, i, s, w);
    assert Idles(l, inp, i, s, w) || Idles(r, inp, a.at, a.saves, a.rest) ==> Idles(Cat(l, r), inp, i, s, w);
  }

  lemma CatBoth(p: Prog, inp: string, l: Re, r: Re, at: nat, i: nat, s: Saves, w: seq<bool>, m1: nat, m2: nat, n: nat)
    requires Runnable(p) && SlotsOk(Cat(l, r)) && at + Size(l) < |p.insts|
    requires CrossesBy(p, inp, l, at, i, s, w, m1, n)
    requires var a := Walk(l, inp, i, s, w); CrossesBy(p, inp, r, After(l, at), a.at, a.saves, a.rest, m2, n - m1)
    ensures CrossesBy(p, inp, Cat(l, r), at, i, s, w, m1 + m2, n)
  {
    var a := Walk(l, inp, i, s, w);
    CatCrosses(p, inp, l, r, at, i, s, w, m1, m2);
    LessRoom(inp, l, r, i, s, w);
    assert Idles(l, inp, i, s, w) || Idles(r, inp, a.at, a.saves, a.rest) ==> Idles(Cat(l, r), inp, i, s, w);
  }

  lemma {:induction false} CatWalks(p: Prog, inp: string, l: Re, r: Re, at: nat, cb: nat, i: nat, s: Saves, w: seq<bool>, n: nat) returns (m: nat)
    requires Holds(p, Cat(l, r), at, cb) && Escapes(p, inp, Cat(l, r), at, i, s, w, n)
    ensures CrossesBy(p, inp, Cat(l, r), at, i, s, w, m, n)
    decreases n, Cat(l, r), 0
  {
    CatParts(p, l, r, at, cb);
    CatFirst(p, inp, l, r, at, i, s, w, n);
    var m1 := RunsWalk(p, inp, l, at, cb, i, s, w, n);
    CatSecond(p, inp, l, r, at, i, s, w, m1, n);
    var a := Walk(l, inp, i, s, w);
    var m2 := RunsWalk(p, inp, r, After(l, at), AfterSets(l, cb), a.at, a.saves, a.rest, n - m1);
    CatBoth(p, inp, l, r, at, i, s, w, m1, m2, n);
    m := m1 + m2;
  }

  lemma AltFork(p: Prog, inp: string, l: Re, r: Re, at: nat, cb: nat, i: nat, s: Saves, w: seq<bool>, n: nat)
    requires Holds(p, Alt(l, r), at, cb) && Escapes(p, inp, Alt(l, r), at, i, s, w, n)
    ensures Holds(p, l, Next(at), cb) && Holds(p, r, RightAt(l, at), AfterSets(l, cb))
    ensures n > 0 && w != []
    ensures if w[0] then Escapes(p, inp, r, RightAt(l, at), i, s, w[1..], n - 1)
            else Escapes(p, inp, l, Next(at), i, s, w[1..], n - 1)
  {
    AltParts(p, l, r, at, cb);
    assert n > 0 && w != [];
  }

  /** Whether `|` idles is up to the side taken. */
  lemma SideIdles(l: Re, r: Re, inp: string, i: nat, s: Saves, w: seq<bool>)
    requires SlotsOk(Alt(l, r)) && w != []
    ensures Idles(Alt(l, r), inp, i, s, w) == Idles(if w[0] then r else l, inp, i, s, w[1..])
  {
  }

  /** The left side of `|` has its jump still to do. */
  lemma LeftNotDone(p: Prog, inp: string, l: Re, r: Re, at: nat, cb: nat, i: nat, s: Saves, w: seq<bool>, m1: nat, n: nat)
    requires Holds(p, Alt(l, r), at, cb) && Escapes(p, inp, Alt(l, r), at, i, s, w, n)
    requires n > 0 && w != [] && !w[0] && CrossesBy(p, inp, l, Next(at), i, s, w[1..], m1, n - 1)
    ensures m1 + 2 <= n
  {
    AltParts(p, l, r, at, cb);
    SideIdles(l, r, inp, i, s, w);
    assert Drive(p, inp, Thread(at, i, s), w, n) == Drive(p, inp, Thread(Next(at), i, s), w[1..], n - 1);
  }

  lemma LeftJumps(p: Prog, inp: string, l: Re, r: Re, at: nat, cb: nat, i: nat, s: Saves, w: seq<bool>, m1: nat, n: nat)
    requires Holds(p, Alt(l, r), at, cb) && Escapes(p, inp, Alt(l, r), at, i, s, w, n)
    requires n > 0 && w != [] && !w[0] && CrossesBy(p, inp, l, Next(at), i, s, w[1..], m1, n - 1)
    ensures CrossesBy(p, inp, Alt(l, r), at, i, s, w, m1 + 2, n)
  {
    LeftNotDone(p, inp, l, r, at, cb, i, s, w, m1, n);
    LeftCrosses(p, inp, l, r, at, cb, i, s, w, m1);
    SideIdles(l, r, inp, i, s, w);
  }

  lemma RightEnds(p: Prog, inp: string, l: Re, r: Re, at: nat, cb: nat, i: nat, s: Saves, w: seq<bool>, m2: nat, n: nat)
    requires Holds(p, Alt(l, r), at, cb) && Escapes(p, inp, Alt(l, r), at, i, s, w, n)
    requires n > 0 && w != [] && w[0] && CrossesBy(p, inp, r, RightAt(l, at), i, s, w[1..], m2, n - 1)
    ensures CrossesBy(p, inp, Alt(l, r), at, i, s, w, m2 + 1, n)
  {
    RightCrosses(p, inp, l, r, at, cb, i, s, w, m2);
    SideIdles(l, r, inp, i, s, w);
  }

  lemma {:induction false} AltWalks(p: Prog, inp: string, l: Re, r: Re, at: nat, cb: nat, i: nat, s: Saves, w: seq<bool>, n: nat) returns (m: nat)
    requires Holds(p, Alt(l, r), at, cb) && Escapes(p, inp, Alt(l, r), at, i, s, w, n)
    ensures CrossesBy(p, inp, Alt(l, r), at, i, s, w, m, n)
    decreases n, Alt(l, r), 0
  {
    AltFork(p, inp, l, r, at, cb, i, s, w, n);
    if w[0] {
      var m2 := RunsWalk(p, inp, r, RightAt(l, at), AfterSets(l, cb), i, s, w[1..], n - 1);
      RightEnds(p, inp, l, r, at, cb, i, s, w, m2, n);
      m := m2 + 1;
    } else {
      var m1 := RunsWalk(p, inp, l, Next(at), cb, i, s, w[1..], n - 1);
      LeftJumps(p, inp, l, r, at, cb, i, s, w, m1, n);
      m := m1 + 2;
    }
  }

  lemma {:induction false} GroupWalks(p: Prog, inp: string, g: nat, b: Re, at: nat, cb: nat, i: nat, s: Saves, w: seq<bool>, n: nat) returns (m: nat)
    requires Holds(p, Group(g, b), at, cb) && Escapes(p, inp, Group(g, b), at, i, s, w, n)
    ensures CrossesBy(p, inp, Group(g, b), at, i, s, w, m, n)
    decreases n, Group(g, b), 0
  {
    GroupParts(p, g, b, at, cb);
    assert n > 0;
    var m1 := RunsWalk(p, inp, b, Next(at), cb, i, s[2 * g := i], w, n - 1);
    GroupCrosses(p, inp, g, b, at, cb, i, s, w, m1);
    m := m1 + 2;
  }

  lemma {:induction false} RepWalks(p: Prog, inp: string, t: Re, at: nat, cb: nat, i: nat, s: Saves, w: seq<bool>, n: nat) returns (m: nat)
    requires Holds(p, t, at, cb) && t.Rep? && Escapes(p, inp, t, at, i, s, w, n)
    ensures CrossesBy(p, inp, t, at, i, s, w, m, n)
    decreases n, t, 0
  {
    RepParts(p, t.op, t.body, t.lazy, at, cb);
    if t.op.Plus? {
      m := PlusWalks(p, inp, t, at, cb, i, s, w, n);
    } else {
      assert n > 0 && w != [];
      BranchStep(p, inp, t, at, cb, i, s, w);
      if !Again(w[0], t.lazy) {
        LeaveCrosses(p, inp, t, at, cb, i, s, w);
        m := 1;
      } else {
        DriveOn(p, inp, Thread(at, i, s), w, 1, n - 1);
        m := StarWalks(p, inp, t, at, cb, i, s, w, n);
      }
    }
  }

  /** One more round that reads a character costs no more than the bound allows. */
  lemma RoundBound(inp: string, t: Re, i: nat, s: Saves, w: seq<bool>)
    requires SlotsOk(t) && t.Rep? && !t.op.Opt? && Walk(t.body, inp, i, s, w).Went? && Walk(t.body, inp, i, s, w).at != i
    ensures Bound(t.body, Left(inp, i)) + 2 + Bound(t, Left(inp, Walk(t.body, inp, i, s, w).at)) <= Bound(t, Left(inp, i))
  {
    LessRoom(inp, t.body, t, i, s, w);
  }

  /** Behind the body of `*` come its jump back and another escape. */
  lemma StarBack(p: Prog, inp: string, t: Re, at: nat, cb: nat, i: nat, s: Saves, w: seq<bool>, m1: nat, n: nat)
    requires Holds(p, t, at, cb) && t.Rep? && t.op.Star? && Escapes(p, inp, t, at, i, s, w, n)
    requires n > 0 && w != [] && Again(w[0], t.lazy) && CrossesBy(p, inp, t.body, Next(at), i, s, w[1..], m1, n - 1)
    requires Drive(p, inp, Thread(Next(at), i, s), w[1..], n - 1) == Drive(p, inp, Thread(at, i, s), w, n)
    ensures m1 + 2 <= n
    ensures var a := Walk(t.body, inp, i, s, w[1..]); Escapes(p, inp, t, at, a.at, a.saves, a.rest, n - m1 - 2)
  {
    var a := Walk(t.body, inp, i, s, w[1..]);
    RepParts(p, t.op, t.body, t.lazy, at, cb);
    StarIdles(t, inp, i, s, w);
    DriveOn(p, inp, Thread(Next(at), i, s), w[1..], m1, n - 1 - m1);
    if !Idles(t, inp, i, s, w) {
      RoundBound(inp, t, i, s, w[1..]);
    }
    assert n - 1 - m1 > 0;
  }

  /** Behind the body of `+` comes its branch, and after one more choice another escape. */
  lemma PlusBack(p: Prog, inp: string, t: Re, at: nat, cb: nat, i: nat, s: Saves, w: seq<bool>, m1: nat, n: nat)
    requires Holds(p, t, at, cb) && t.Rep? && t.op.Plus? && Escapes(p, inp, t, at, i, s, w, n)
    requires CrossesBy(p, inp, t.body, at, i, s, w, m1, n)
    ensures var a := Walk(t.body, inp, i, s, w);
            && m1 + 1 <= n && a.rest != []
            && (Again(a.rest[0], t.lazy) ==> Escapes(p, inp, t, at, a.at, a.saves, a.rest[1..], n - m1 - 1))
  {
    var a := Walk(t.body, inp, i, s, w);
    PlusIdles(t, inp, i, s, w);
    DriveOn(p, inp, Thread(at, i, s), w, m1, n - m1);
    assert n - m1 > 0;
    RepParts(p, t.op, t.body, t.lazy, at, cb);
    assert a.rest != [];
    if !Idles(t, inp, i, s, w) && Again(a.rest[0], t.lazy) {
      RoundBound(inp, t, i, s, w);
    }
    BranchStep(p, inp, t, at, cb, a.at, a.saves, a.rest);
    DriveOn(p, inp, Thread(After(t.body, at), a.at, a.saves), a.rest, 1, n - m1 - 1);
  }

  lemma {:induction false} StarWalks(p: Prog, inp: string, t: Re, at: nat, cb: nat, i: nat, s: Saves, w: seq<bool>, n: nat) returns (m: nat)
    requires Holds(p, t, at, cb) && t.Rep? && !t.op.Plus? && Escapes(p, inp, t, at, i, s, w, n)
    requires n > 0 && w != [] && Again(w[0], t.lazy)
    requires Drive(p, inp, Thread(Next(at), i, s), w[1..], n - 1) == Drive(p, inp, Thread(at, i, s), w, n)
    ensures CrossesBy(p, inp, t, at, i, s, w, m, n)
    decreases n, t, 0, 0
  {
    RepParts(p, t.op, t.body, t.lazy, at, cb);
    StarIdles(t, inp, i, s, w);
    var m1 := RunsWalk(p, inp, t.body, Next(at), cb, i, s, w[1..], n - 1);
    if t.op.Opt? {
      OptCrosses(p, inp, t, at, cb, i, s, w, m1);
      m := m1 + 1;
    } else {
      StarBack(p, inp, t, at, cb, i, s, w, m1, n);
      var a := Walk(t.body, inp, i, s, w[1..]);
      var m2 := RepWalks(p, inp, t, at, cb, a.at, a.saves, a.rest, n - m1 - 2);
      StarCrosses(p, inp, t, at, cb, i, s, w, m1, m2);
      m := m1 + m2 + 2;
      if !Idles(t, inp, i, s, w) {
        RoundBound(inp, t, i, s, w[1..]);
      }
    }
  }

  lemma {:induction false} PlusWalks(p: Prog, inp: string, t: Re, at: nat, cb: nat, i: nat, s: Saves, w: seq<bool>, n: nat) returns (m: nat)
    requires Holds(p, t, at, cb) && t.Rep? && t.op.Plus? && Escapes(p, inp, t, at, i, s, w, n)
    ensures CrossesBy(p, inp, t, at, i, s, w, m, n)
    decreases n, t, 0, 0
  {
    RepParts(p, t.op, t.body, t.lazy, at, cb);
    PlusIdles(t, inp, i, s, w);
    var m1 := RunsWalk(p, inp, t.body, at, cb, i, s, w, n);
    PlusBack(p, inp, t, at, cb, i, s, w, m1, n);
    var a := Walk(t.body, inp, i, s, w);
    if Again(a.rest[0], t.lazy) {
      var m2 := RepWalks(p, inp, t, at, cb, a.at, a.saves, a.rest[1..], n - m1 - 1);
      NextRoundCrosses(p, inp, t, at, cb, i, s, w, m1, m2);
      m := m1 + 1 + m2;
      if !Idles(t, inp, i, s, w) {
        RoundBound(inp, t, i, s, w);
      }
    } else {
      LastRoundCrosses(p, inp, t, at, cb, i, s, w, m1);
      m := m1 + 1;
    }
  }
}
