/** What a pattern means: which stretches of the input it matches, and which of them it prefers. */
module RegexMeaning {
  import opened RegexSyntax

  // ---- the language of a pattern

  predicate OneMatches(x: Leaf, inp: string, i: nat) {
    match x
    case Lit(c) => i < |inp| && inp[i] == c
    case Dot => i < |inp|
    case Set(cls) => i < |inp| && cls.Has(inp[i])
    case Bol => i == 0
    case Eol => i == |inp|
  }

  function Width(x: Leaf): nat {
    if x.Bol? || x.Eol? then 0 else 1
  }

  /** `t` matches `inp[i..j]`. */
  ghost predicate Matches(t: Re, inp: string, i: nat, j: nat)
    decreases t, 0, 0
  {
    match t
    case Empty => i == j
    case One(x) => OneMatches(x, inp, i) && j == i + Width(x)
    case Cat(l, r) => exists m: nat :: Matches(l, inp, i, m) && Matches(r, inp, m, j)
    case Alt(l, r) => Matches(l, inp, i, j) || Matches(r, inp, i, j)
    case Rep(op, b, _) => exists n: nat :: Allows(op, n) && Times(b, inp, n, i, j)
    case Group(_, b) => Matches(b, inp, i, j)
  }

  predicate Allows(op: Op, n: nat) {
    match op
    case Star => true
    case Plus => n >= 1
    case Opt => n <= 1
  }

  /** `n` matches of `b` in a row lead from `i` to `j`. */
  ghost predicate Times(b: Re, inp: string, n: nat, i: nat, j: nat)
    decreases b, 1, n
  {
    if n == 0 then i == j
    else exists m: nat :: Matches(b, inp, i, m) && Times(b, inp, n - 1, m, j)
  }

  // ---- preference

  const NSLOTS: nat := MAX_GROUPS * 2

  /** Start and end of each group, -1 while it is not set. */
  type Saves = s: seq<int> | |s| == NSLOTS
    witness [-1, -1, -1, -1, -1, -1, -1, -1, -1, -1, -1, -1, -1, -1, -1, -1, -1, -1, -1, -1]

  const NoSaves: Saves :=
    [-1, -1, -1, -1, -1, -1, -1, -1, -1, -1, -1, -1, -1, -1, -1, -1, -1, -1, -1, -1]

  datatype Walked = Stuck | Went(at: nat, saves: Saves, rest: seq<bool>)

  predicate SlotsOk(t: Re) {
    match t
    case Cat(l, r) => SlotsOk(l) && SlotsOk(r)
    case Alt(l, r) => SlotsOk(l) && SlotsOk(r)
    case Rep(_, b, _) => SlotsOk(b)
    case Group(g, b) => g < MAX_GROUPS && SlotsOk(b)
    case _ => true
  }

  /** Groups numbered in order, at most nine, have slots. */
  lemma {:induction false} NumbersFit(t: Re, g: nat)
    requires Numbered(t, g) && g + Count(t) < MAX_GROUPS
    ensures SlotsOk(t)
  {
    match t
    case Empty =>
    case One(_) =>
    case Cat(l, r) => NumbersFit(l, g); NumbersFit(r, g + Count(l));
    case Alt(l, r) => NumbersFit(l, g); NumbersFit(r, g + Count(l));
    case Rep(_, b, _) => NumbersFit(b, g);
    case Group(_, b) => NumbersFit(b, g + 1);
  }

  /** Go round a repetition once more (true), or leave it? The first choice is the preferred one. */
  function Again(choice: bool, lazy: bool): bool {
    choice == lazy
  }

  /**
   * Matches `t` from `i` on, following the choices of `w` one by one: at each `|`, `*`, `+` and `?`
   * the choice `false` takes the preferred way and `true` the other one.
   * The preferred way is the left side of `|`, one more round of a greedy repetition,
   * and the way out of a lazy one.
   */
  function Walk(t: Re, inp: string, i: nat, s: Saves, w: seq<bool>): (r: Walked)
    requires SlotsOk(t)
    ensures r.Went? ==> |r.rest| <= |w|
    decreases |w|, t
  {
    match t
    case Empty => Went(i, s, w)
    case One(x) => if OneMatches(x, inp, i) then Went(i + Width(x), s, w) else Stuck
    case Cat(l, r) =>
      (match Walk(l, inp, i, s, w)
       case Stuck => Stuck
       case Went(m, s1, w1) => Walk(r, inp, m, s1, w1))
    case Alt(l, r) =>
      if w == [] then Stuck
      else if w[0] then Walk(r, inp, i, s, w[1..])
      else Walk(l, inp, i, s, w[1..])
    case Rep(op, b, lazy) =>
      if op.Plus? then
        match Walk(b, inp, i, s, w)
        case Stuck => Stuck
        case Went(m, s1, w1) =>
          if w1 == [] then Stuck
          else if Again(w1[0], lazy) then Walk(t, inp, m, s1, w1[1..])
          else Went(m, s1, w1[1..])
      else if w == [] then Stuck
      else if !Again(w[0], lazy) then Went(i, s, w[1..])
      else
        (match Walk(b, inp, i, s, w[1..])
         case Stuck => Stuck
         case Went(m, s1, w1) => if op.Opt? then Went(m, s1, w1) else Walk(t, inp, m, s1, w1))
    case Group(g, b) =>
      (match Walk(b, inp, i, s[2 * g := i], w)
       case Stuck => Stuck
       case Went(m, s1, w1) => Went(m, s1[2 * g + 1 := m], w1))
  }

  /** `a` is preferred to `b`: at their first difference `a` takes the preferred way. */
  ghost predicate Before(a: seq<bool>, b: seq<bool>) {
    exists k :: 0 <= k < |a| && k < |b| && a[..k] == b[..k] && !a[k] && b[k]
  }

  // ---- the two readings agree

  lemma {:induction false} WalkIsMatch(t: Re, inp: string, i: nat, s: Saves, w: seq<bool>)
    requires SlotsOk(t)
    requires Walk(t, inp, i, s, w).Went?
    ensures Matches(t, inp, i, Walk(t, inp, i, s, w).at)
    decreases |w|, t
  {
    match t
    case Empty =>
    case One(x) =>
    case Cat(l, r) =>
      var a := Walk(l, inp, i, s, w);
      WalkIsMatch(l, inp, i, s, w);
      WalkIsMatch(r, inp, a.at, a.saves, a.rest);
    case Alt(l, r) =>
      WalkIsMatch(if w[0] then r else l, inp, i, s, w[1..]);
    case Rep(op, b, lazy) =>
      RoundsAreTimes(t, inp, i, s, w);
    case Group(g, b) =>
      WalkIsMatch(b, inp, i, s[2 * g := i], w);
  }

  lemma {:induction false} RoundsAreTimes(t: Re, inp: string, i: nat, s: Saves, w: seq<bool>)
    requires SlotsOk(t) && t.Rep?
    requires Walk(t, inp, i, s, w).Went?
    ensures exists n: nat :: Allows(t.op, n) && Times(t.body, inp, n, i, Walk(t, inp, i, s, w).at)
    decreases |w|, t, 0
  {
    var b, lazy, j := t.body, t.lazy, Walk(t, inp, i, s, w).at;
    if !t.op.Plus? && !Again(w[0], lazy) {
      assert Times(b, inp, 0, i, j);
    } else {
      var v := if t.op.Plus? then w else w[1..];
      var a := Walk(b, inp, i, s, v);
      WalkIsMatch(b, inp, i, s, v);
      if t.op.Opt? || (t.op.Plus? && !Again(a.rest[0], lazy)) {
        assert Times(b, inp, 0, a.at, j);
        assert Times(b, inp, 1, i, j);
      } else {
        var v2 := if t.op.Plus? then a.rest[1..] else a.rest;
        RoundsAreTimes(t, inp, a.at, a.saves, v2);
        var n: nat :| Allows(t.op, n) && Times(b, inp, n, a.at, j);
        assert Times(b, inp, n + 1, i, j);
      }
    }
  }

  /** Choices that are not used up stay as they are. */
  lemma {:induction false} WalkExtends(t: Re, inp: string, i: nat, s: Saves, w: seq<bool>, x: seq<bool>)
    requires SlotsOk(t)
    requires Walk(t, inp, i, s, w).Went?
    ensures var r := Walk(t, inp, i, s, w); Walk(t, inp, i, s, w + x) == Went(r.at, r.saves, r.rest + x)
    decreases |w|, t
  {
    match t
    case Empty =>
    case One(y) =>
    case Cat(l, r) =>
      var a := Walk(l, inp, i, s, w);
      WalkExtends(l, inp, i, s, w, x);
      WalkExtends(r, inp, a.at, a.saves, a.rest, x);
    case Alt(l, r) =>
      assert (w + x)[1..] == w[1..] + x;
      WalkExtends(if w[0] then r else l, inp, i, s, w[1..], x);
    case Rep(op, b, lazy) =>
      RepExtends(t, inp, i, s, w, x);
    case Group(g, b) =>
      WalkExtends(b, inp, i, s[2 * g := i], w, x);
  }

  lemma {:induction false} RepExtends(t: Re, inp: string, i: nat, s: Saves, w: seq<bool>, x: seq<bool>)
    requires SlotsOk(t) && t.Rep?
    requires Walk(t, inp, i, s, w).Went?
    ensures var r := Walk(t, inp, i, s, w); Walk(t, inp, i, s, w + x) == Went(r.at, r.saves, r.rest + x)
    decreases |w|, t, 0
  {
    if t.op.Plus? {
      var a := Walk(t.body, inp, i, s, w);
      WalkExtends(t.body, inp, i, s, w, x);
      assert (a.rest + x)[1..] == a.rest[1..] + x;
      if Again(a.rest[0], t.lazy) {
        WalkExtends(t, inp, a.at, a.saves, a.rest[1..], x);
      }
    } else {
      assert (w + x)[1..] == w[1..] + x;
      if Again(w[0], t.lazy) {
        var a := Walk(t.body, inp, i, s, w[1..]);
        WalkExtends(t.body, inp, i, s, w[1..], x);
        if t.op.Star? {
          WalkExtends(t, inp, a.at, a.saves, a.rest, x);
        }
      }
    }
  }

  /** `w` is a complete sequence of choices that takes `t` from `i` to `j`. */
  ghost predicate Chooses(t: Re, inp: string, i: nat, s: Saves, w: seq<bool>, j: nat)
    requires SlotsOk(t)
  {
    var r := Walk(t, inp, i, s, w);
    r.Went? && r.at == j && r.rest == []
  }

  lemma Then(t: Re, inp: string, i: nat, s: Saves, w: seq<bool>, j: nat, x: seq<bool>)
    requires SlotsOk(t) && Chooses(t, inp, i, s, w, j)
    ensures Walk(t, inp, i, s, w + x) == Went(j, Walk(t, inp, i, s, w).saves, x)
  {
    WalkExtends(t, inp, i, s, w, x);
    assert [] + x == x;
  }

  lemma {:induction false} MatchIsWalk(t: Re, inp: string, i: nat, j: nat, s: Saves) returns (w: seq<bool>)
    requires SlotsOk(t) && Matches(t, inp, i, j)
    ensures Chooses(t, inp, i, s, w, j)
    decreases t, 0, 0
  {
    match t
    case Empty => w := [];
    case One(x) => w := [];
    case Cat(l, r) =>
      var m: nat :| Matches(l, inp, i, m) && Matches(r, inp, m, j);
      var w1 := MatchIsWalk(l, inp, i, m, s);
      var w2 := MatchIsWalk(r, inp, m, j, Walk(l, inp, i, s, w1).saves);
      Then(l, inp, i, s, w1, m, w2);
      w := w1 + w2;
    case Alt(l, r) =>
      var right := !Matches(l, inp, i, j);
      var v := MatchIsWalk(if right then r else l, inp, i, j, s);
      w := [right] + v;
      assert w[1..] == v;
    case Rep(op, b, lazy) =>
      var n: nat :| Allows(op, n) && Times(b, inp, n, i, j);
      w := TimesAreRounds(op, b, lazy, inp, n, i, j, s);
    case Group(g, b) =>
      w := MatchIsWalk(b, inp, i, j, s[2 * g := i]);
  }

  lemma {:induction false} TimesAreRounds(op: Op, b: Re, lazy: bool, inp: string, n: nat, i: nat, j: nat, s: Saves)
    returns (w: seq<bool>)
    requires SlotsOk(b) && Allows(op, n) && Times(b, inp, n, i, j)
    ensures Chooses(Rep(op, b, lazy), inp, i, s, w, j)
    decreases b, 1, n
  {
    if n == 0 {
      w := [!lazy];
    } else {
      var m: nat :| Matches(b, inp, i, m) && Times(b, inp, n - 1, m, j);
      var w1 := MatchIsWalk(b, inp, i, m, s);
      var s1 := Walk(b, inp, i, s, w1).saves;
      if op.Opt? || (op.Plus? && n == 1) {
        assert m == j;
        if op.Opt? {
          w := [lazy] + w1;
          assert w[1..] == w1;
        } else {
          w := w1 + [!lazy];
          Then(b, inp, i, s, w1, m, [!lazy]);
        }
      } else {
        var w2 := TimesAreRounds(op, b, lazy, inp, n - 1, m, j, s1);
        if op.Plus? {
          w := w1 + ([lazy] + w2);
          Then(b, inp, i, s, w1, m, [lazy] + w2);
          assert ([lazy] + w2)[1..] == w2;
        } else {
          w := [lazy] + (w1 + w2);
          Then(b, inp, i, s, w1, m, w2);
          assert w[1..] == w1 + w2;
        }
      }
    }
  }

  /** A stretch is in the language of `t` if and only if some sequence of choices reaches its end. */
  lemma MatchesIffChoices(t: Re, inp: string, i: nat, j: nat, s: Saves)
    requires SlotsOk(t)
    ensures Matches(t, inp, i, j) <==> exists w :: Chooses(t, inp, i, s, w, j)
  {
    if Matches(t, inp, i, j) {
      var w := MatchIsWalk(t, inp, i, j, s);
    }
    if w :| Chooses(t, inp, i, s, w, j) {
      WalkIsMatch(t, inp, i, s, w);
    }
  }
}
