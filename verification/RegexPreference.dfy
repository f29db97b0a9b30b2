/**
 * Which match is preferred, and what the groups of it hold (micai/src/regex.rs): said of the input
 * alone, without choices or instructions.
 */
module RegexPreference {
  import opened RegexSyntax
  import opened RegexMeaning
  import RegexCompiler
  import opened RegexCorrect
  import opened RegexTheorems
  import opened RegexSpin

  // ------------------------------------------------------------------ the preferred walk

  /** Captures as they are when the walk through the pattern itself begins. */
  function Fresh(start: nat): Saves {
    NoSaves[0 := start]
  }

  /** `w` leads through `t` to `e`, and all other choices that lead through come after it. */
  ghost predicate First(t: Re, inp: string, start: nat, w: seq<bool>, e: nat)
    requires SlotsOk(t)
  {
    Chooses(t, inp, start, Fresh(start), w, e) &&
    forall q, j :: Chooses(t, inp, start, Fresh(start), q, j) ==> q == w || Before(w, q)
  }

  lemma ReadsIs(t: Re, inp: string, start: nat, w: seq<bool>, e: nat)
    requires SlotsOk(t) && Chooses(t, inp, start, Fresh(start), w, e)
    ensures Reads(t, inp, start, w, Walk(t, inp, start, Fresh(start), w).saves[1 := e])
  {
  }

  lemma BestIsFirst(t: Re, inp: string, start: nat, s: Saves) returns (w: seq<bool>, e: nat)
    requires SlotsOk(t) && IsBest(t, inp, start, s)
    ensures First(t, inp, start, w, e) && s[1] == e
  {
    w :| Reads(t, inp, start, w, s) && forall q, s' :: Reads(t, inp, start, q, s') ==> q == w || Before(w, q);
    e := Walk(t, inp, start, Fresh(start), w).at;
    forall q, j | Chooses(t, inp, start, Fresh(start), q, j) ensures q == w || Before(w, q) {
      ReadsIs(t, inp, start, q, j);
    }
  }

  /** Of two walks only one comes first. */
  lemma NotBoth(a: seq<bool>, b: seq<bool>)
    requires Before(a, b)
    ensures a != b && !Before(b, a)
  {
    var k :| 0 <= k < |a| && k < |b| && a[..k] == b[..k] && !a[k] && b[k];
    forall m | 0 <= m < |b| && m < |a| && b[..m] == a[..m] ensures b[m] || !a[m] {
      if m < k { assert a[m] == a[..k][m] && b[m] == b[..k][m]; }
    }
  }

  lemma DiffersAt(u: seq<bool>, a: seq<bool>, b: seq<bool>)
    ensures Before(u + ([false] + a), u + ([true] + b))
  {
    var x, y := u + ([false] + a), u + ([true] + b);
    assert x[..|u|] == u == y[..|u|] && !x[|u|] && y[|u|];
  }

  /** What comes first makes the preferred choice first if anything does. */
  lemma FirstChoice(w: seq<bool>, q: seq<bool>)
    requires w != [] && q != [] && !q[0] && (q == w || Before(w, q))
    ensures !w[0]
  {
    if q != w {
      var k :| 0 <= k < |w| && k < |q| && w[..k] == q[..k] && !w[k] && q[k];
      assert k > 0 ==> w[0] == w[..k][0] && q[0] == q[..k][0];
    }
  }

  // ------------------------------------------------------------------ alternatives

  /** The left side is taken wherever it matches at all. */
  lemma LeftFirst(l: Re, r: Re, inp: string, start: nat, s: Saves, j: nat)
    requires SlotsOk(Alt(l, r)) && IsBest(Alt(l, r), inp, start, s) && Matches(l, inp, start, j)
    ensures s[1] >= 0 && Matches(l, inp, start, s[1])
  {
    var w, e := BestIsFirst(Alt(l, r), inp, start, s);
    var v := MatchIsWalk(l, inp, start, j, Fresh(start));
    var q := [false] + v;
    assert q[1..] == v && Chooses(Alt(l, r), inp, start, Fresh(start), q, j);
    FirstChoice(w, q);
    WalkIsMatch(l, inp, start, Fresh(start), w[1..]);
  }

  // ------------------------------------------------------------------ lazy repetitions

  /** A lazy `*` or `?` takes nothing; a lazy `+` takes one round. */
  lemma LazyTakesLeast(op: Op, b: Re, inp: string, start: nat, s: Saves)
    requires SlotsOk(b) && IsBest(Rep(op, b, true), inp, start, s)
    ensures s[1] >= 0 && if op.Plus? then Matches(b, inp, start, s[1]) else s[1] == start
  {
    var t, f := Rep(op, b, true), Fresh(start);
    var w, e := BestIsFirst(t, inp, start, s);
    if op.Plus? {
      LazyPlusStops(b, inp, start, w, e);
    } else {
      assert Chooses(t, inp, start, f, [false], start);
    }
  }

  lemma LazyPlusStops(b: Re, inp: string, start: nat, w: seq<bool>, e: nat)
    requires SlotsOk(b) && First(Rep(Plus, b, true), inp, start, w, e)
    ensures Matches(b, inp, start, e)
  {
    var t, f := Rep(Plus, b, true), Fresh(start);
    var a := Walk(b, inp, start, f, w);
    var u := Used(w, a.rest);
    WalkIsMatch(b, inp, start, f, w);
    OtherRest(b, inp, start, f, w, [false]);
    assert ([false])[1..] == [];
    assert Chooses(t, inp, start, f, u + [false], a.at);
  }

  /** What differs from `w` by an earlier preferred choice does not come after it. */
  lemma NotLater(w: seq<bool>, u: seq<bool>, x: seq<bool>, y: seq<bool>)
    requires w == u + ([true] + y)
    ensures u + ([false] + x) != w && !Before(w, u + ([false] + x))
  {
    DiffersAt(u, x, y);
    NotBoth(u + ([false] + x), w);
  }

  // ------------------------------------------------------------------ greedy repetitions

  /** One round of a greedy `*`, and whatever choices come then. */
  lemma StarRound(b: Re, inp: string, i: nat, s: Saves, w: seq<bool>, y: seq<bool>)
    requires SlotsOk(b) && Walk(Rep(Star, b, false), inp, i, s, w).Went? && !w[0]
    ensures var a := Walk(b, inp, i, s, w[1..]);
      a.Went? && w == [false] + (Used(w[1..], a.rest) + a.rest) &&
      Walk(Rep(Star, b, false), inp, i, s, [false] + (Used(w[1..], a.rest) + y)) == Walk(Rep(Star, b, false), inp, a.at, a.saves, y)
  {
    var a := Walk(b, inp, i, s, w[1..]);
    OtherRest(b, inp, i, s, w[1..], y);
    assert ([false] + (Used(w[1..], a.rest) + y))[1..] == Used(w[1..], a.rest) + y;
    assert w == [w[0]] + w[1..];
  }

  /** A complete walk through a greedy `*` is `u` and the choice to leave; one round more could go in between. */
  lemma {:induction false} StarGoesOn(b: Re, inp: string, i: nat, s: Saves, w: seq<bool>, e: nat, x: seq<bool>) returns (u: seq<bool>)
    requires SlotsOk(b) && Chooses(Rep(Star, b, false), inp, i, s, w, e)
    ensures w == u + [true]
    ensures Walk(Rep(Star, b, false), inp, i, s, u + x) == Walk(Rep(Star, b, false), inp, e, Walk(Rep(Star, b, false), inp, i, s, w).saves, x)
    decreases |w|
  {
    if w[0] {
      u := [];
      assert u + x == x;
    } else {
      var a := Walk(b, inp, i, s, w[1..]);
      var mid := Used(w[1..], a.rest);
      StarRound(b, inp, i, s, w, a.rest);
      var u1 := StarGoesOn(b, inp, a.at, a.saves, a.rest, e, x);
      StarRound(b, inp, i, s, w, u1 + x);
      u := [false] + (mid + u1);
      assert u + x == [false] + (mid + (u1 + x)) && u + [true] == [false] + (mid + (u1 + [true]));
    }
  }

  /** One round of a greedy `+`, the choice to go on, and whatever choices come then. */
  lemma PlusRound(b: Re, inp: string, i: nat, s: Saves, w: seq<bool>, y: seq<bool>)
    requires SlotsOk(b) && Walk(Rep(Plus, b, false), inp, i, s, w).Went?
    ensures var a := Walk(b, inp, i, s, w);
      a.Went? && a.rest != [] && w == Used(w, a.rest) + a.rest &&
      Walk(Rep(Plus, b, false), inp, i, s, Used(w, a.rest) + ([false] + y)) == Walk(Rep(Plus, b, false), inp, a.at, a.saves, y)
  {
    OtherRest(b, inp, i, s, w, [false] + y);
    assert ([false] + y)[1..] == y;
  }

  lemma {:induction false} PlusGoesOn(b: Re, inp: string, i: nat, s: Saves, w: seq<bool>, e: nat, x: seq<bool>) returns (u: seq<bool>)
    requires SlotsOk(b) && Chooses(Rep(Plus, b, false), inp, i, s, w, e)
    ensures w == u + [true]
    ensures Walk(Rep(Plus, b, false), inp, i, s, u + ([false] + x)) == Walk(Rep(Plus, b, false), inp, e, Walk(Rep(Plus, b, false), inp, i, s, w).saves, x)
    decreases |w|
  {
    var a := Walk(b, inp, i, s, w);
    var mid := Used(w, a.rest);
    PlusRound(b, inp, i, s, w, x);
    assert a.rest == [a.rest[0]] + a.rest[1..];
    if a.rest[0] {
      u := mid;
    } else {
      var u1 := PlusGoesOn(b, inp, a.at, a.saves, a.rest[1..], e, x);
      PlusRound(b, inp, i, s, w, u1 + ([false] + x));
      u := mid + ([false] + u1);
      assert u + ([false] + x) == mid + ([false] + (u1 + ([false] + x))) && u + [true] == mid + ([false] + (u1 + [true]));
    }
  }

  /** Where a greedy `*` or `+` stops, its body matches no more; a greedy `?` takes its body if it can. */
  lemma GreedyTakesAll(op: Op, b: Re, inp: string, start: nat, s: Saves, j: nat)
    requires SlotsOk(b) && IsBest(Rep(op, b, false), inp, start, s)
    ensures s[1] >= 0
    ensures if op.Opt? then Matches(b, inp, start, j) ==> Matches(b, inp, start, s[1]) else !Matches(b, inp, s[1], j)
  {
    var t, f := Rep(op, b, false), Fresh(start);
    var w, e := BestIsFirst(t, inp, start, s);
    if op.Opt? {
      if Matches(b, inp, start, j) { OptTaken(b, inp, start, w, e, j); }
    } else if Matches(b, inp, e, j) {
      var q := OneRoundMore(op, b, inp, start, f, w, e, j);
    }
  }

  /** If the body still matches where a greedy repetition stops, there is a walk that goes round once more, and it is not later. */
  lemma OneRoundMore(op: Op, b: Re, inp: string, i: nat, s: Saves, w: seq<bool>, e: nat, j: nat) returns (q: seq<bool>)
    requires SlotsOk(b) && !op.Opt? && Chooses(Rep(op, b, false), inp, i, s, w, e) && Matches(b, inp, e, j)
    ensures Chooses(Rep(op, b, false), inp, i, s, q, j) && q != w && !Before(w, q)
  {
    var se := Walk(Rep(op, b, false), inp, i, s, w).saves;
    var v := MatchIsWalk(b, inp, e, j, se);
    Then(b, inp, e, se, v, j, [true]);
    if op.Star? {
      q := StarOnce(b, inp, i, s, w, e, j, v);
    } else {
      q := PlusOnce(b, inp, i, s, w, e, j, v);
    }
  }

  lemma StarOnce(b: Re, inp: string, i: nat, s: Saves, w: seq<bool>, e: nat, j: nat, v: seq<bool>) returns (q: seq<bool>)
    requires SlotsOk(b) && Chooses(Rep(Star, b, false), inp, i, s, w, e)
    requires var a := Walk(b, inp, e, Walk(Rep(Star, b, false), inp, i, s, w).saves, v + [true]); a.Went? && a.at == j && a.rest == [true]
    ensures Chooses(Rep(Star, b, false), inp, i, s, q, j) && q != w && !Before(w, q)
  {
    var x := [false] + (v + [true]);
    assert x[1..] == v + [true] && ([true])[1..] == [];
    var u := StarGoesOn(b, inp, i, s, w, e, x);
    q := u + x;
    assert w == u + ([true] + []);
    NotLater(w, u, v + [true], []);
  }

  lemma PlusOnce(b: Re, inp: string, i: nat, s: Saves, w: seq<bool>, e: nat, j: nat, v: seq<bool>) returns (q: seq<bool>)
    requires SlotsOk(b) && Chooses(Rep(Plus, b, false), inp, i, s, w, e)
    requires var a := Walk(b, inp, e, Walk(Rep(Plus, b, false), inp, i, s, w).saves, v + [true]); a.Went? && a.at == j && a.rest == [true]
    ensures Chooses(Rep(Plus, b, false), inp, i, s, q, j) && q != w && !Before(w, q)
  {
    var x := v + [true];
    assert ([true])[1..] == [];
    var u := PlusGoesOn(b, inp, i, s, w, e, x);
    q := u + ([false] + x);
    assert w == u + ([true] + []);
    NotLater(w, u, x, []);
  }

  lemma OptTaken(b: Re, inp: string, start: nat, w: seq<bool>, e: nat, j: nat)
    requires SlotsOk(b) && First(Rep(Opt, b, false), inp, start, w, e) && Matches(b, inp, start, j)
    ensures Matches(b, inp, start, e)
  {
    var t, f := Rep(Opt, b, false), Fresh(start);
    var v := MatchIsWalk(b, inp, start, j, f);
    var q := [false] + v;
    assert q[1..] == v && Chooses(t, inp, start, f, q, j);
    FirstChoice(w, q);
    WalkIsMatch(b, inp, start, f, w[1..]);
  }

  // ------------------------------------------------------------------ groups

  predicate Absent(t: Re, k: nat) {
    match t
    case Cat(l, r) => Absent(l, k) && Absent(r, k)
    case Alt(l, r) => Absent(l, k) && Absent(r, k)
    case Rep(_, b, _) => Absent(b, k)
    case Group(n, b) => n != k && Absent(b, k)
    case _ => true
  }

  /** What stands between the parentheses of group `k`. */
  function BodyOf(t: Re, k: nat): Option<Re> {
    match t
    case Cat(l, r) => if BodyOf(l, k).Some? then BodyOf(l, k) else BodyOf(r, k)
    case Alt(l, r) => if BodyOf(l, k).Some? then BodyOf(l, k) else BodyOf(r, k)
    case Rep(_, b, _) => BodyOf(b, k)
    case Group(n, b) => if n == k then Some(b) else BodyOf(b, k)
    case _ => None
  }

  lemma {:induction false} AbsentOrNot(t: Re, g: nat, k: nat)
    requires Numbered(t, g)
    ensures Absent(t, k) <==> !(g < k <= g + Count(t))
    ensures BodyOf(t, k).Some? <==> g < k <= g + Count(t)
    decreases t
  {
    match t
    case Empty =>
    case One(_) =>
    case Cat(l, r) => AbsentOrNot(l, g, k); AbsentOrNot(r, g + Count(l), k);
    case Alt(l, r) => AbsentOrNot(l, g, k); AbsentOrNot(r, g + Count(l), k);
    case Rep(_, b, _) => AbsentOrNot(b, g, k);
    case Group(_, b) => AbsentOrNot(b, g + 1, k);
  }

  /** Group `k` is not set, or its two ends are those of a match of `b`. */
  ghost predicate HoldsMatch(b: Re, inp: string, s: Saves, k: nat)
    requires k < MAX_GROUPS
  {
    (s[2 * k] == -1 && s[2 * k + 1] == -1) || (s[2 * k] >= 0 && s[2 * k + 1] >= 0 && Matches(b, inp, s[2 * k], s[2 * k + 1]))
  }

  ghost predicate SameGroup(s: Saves, s': Saves, k: nat)
    requires k < MAX_GROUPS
  {
    s'[2 * k] == s[2 * k] && s'[2 * k + 1] == s[2 * k + 1]
  }

  lemma {:induction false} AbsentIsKept(t: Re, inp: string, i: nat, s: Saves, w: seq<bool>, k: nat)
    requires SlotsOk(t) && Walk(t, inp, i, s, w).Went? && Absent(t, k) && k < MAX_GROUPS
    ensures SameGroup(s, Walk(t, inp, i, s, w).saves, k)
    decreases |w|, t
  {
    match t
    case Empty =>
    case One(_) =>
    case Cat(l, r) =>
      var a := Walk(l, inp, i, s, w);
      AbsentIsKept(l, inp, i, s, w, k);
      AbsentIsKept(r, inp, a.at, a.saves, a.rest, k);
    case Alt(l, r) => AbsentIsKept(if w[0] then r else l, inp, i, s, w[1..], k);
    case Rep(op, b, lazy) =>
      if op.Plus? || Again(w[0], lazy) {
        var v := if op.Plus? then w else w[1..];
        var a := Walk(b, inp, i, s, v);
        AbsentIsKept(b, inp, i, s, v, k);
        if op.Star? { AbsentIsKept(t, inp, a.at, a.saves, a.rest, k); }
        if op.Plus? && Again(a.rest[0], lazy) { AbsentIsKept(t, inp, a.at, a.saves, a.rest[1..], k); }
      }
    case Group(n, b) => AbsentIsKept(b, inp, i, s[2 * n := i], w, k);
  }

  lemma {:induction false} WalkHolds(t: Re, inp: string, i: nat, s: Saves, w: seq<bool>, g: nat, k: nat, body: Re)
    requires SlotsOk(t) && Walk(t, inp, i, s, w).Went? && Numbered(t, g) && k < MAX_GROUPS
    requires (Absent(t, k) || BodyOf(t, k) == Some(body)) && HoldsMatch(body, inp, s, k)
    ensures HoldsMatch(body, inp, Walk(t, inp, i, s, w).saves, k)
    decreases |w|, t, 1
  {
    AbsentOrNot(t, g, k);
    match t
    case Empty =>
    case One(_) =>
    case Cat(l, r) =>
      AbsentOrNot(l, g, k);
      AbsentOrNot(r, g + Count(l), k);
      var a := Walk(l, inp, i, s, w);
      WalkHolds(l, inp, i, s, w, g, k, body);
      WalkHolds(r, inp, a.at, a.saves, a.rest, g + Count(l), k, body);
    case Alt(l, r) =>
      AbsentOrNot(l, g, k);
      AbsentOrNot(r, g + Count(l), k);
      WalkHolds(if w[0] then r else l, inp, i, s, w[1..], if w[0] then g + Count(l) else g, k, body);
    case Rep(_, _, _) => RoundsHold(t, inp, i, s, w, g, k, body);
    case Group(_, b) => GroupHolds(b, inp, i, s, w, g, k, body);
  }

  lemma {:induction false} RoundsHold(t: Re, inp: string, i: nat, s: Saves, w: seq<bool>, g: nat, k: nat, body: Re)
    requires SlotsOk(t) && t.Rep? && Walk(t, inp, i, s, w).Went? && Numbered(t, g) && k < MAX_GROUPS
    requires (Absent(t, k) || BodyOf(t, k) == Some(body)) && HoldsMatch(body, inp, s, k)
    ensures HoldsMatch(body, inp, Walk(t, inp, i, s, w).saves, k)
    decreases |w|, t, 0
  {
    if t.op.Plus? || Again(w[0], t.lazy) {
      var v := if t.op.Plus? then w else w[1..];
      var a := Walk(t.body, inp, i, s, v);
      WalkHolds(t.body, inp, i, s, v, g, k, body);
      if t.op.Star? { RoundsHold(t, inp, a.at, a.saves, a.rest, g, k, body); }
      if t.op.Plus? && Again(a.rest[0], t.lazy) { RoundsHold(t, inp, a.at, a.saves, a.rest[1..], g, k, body); }
    }
  }

  lemma {:induction false} GroupHolds(b: Re, inp: string, i: nat, s: Saves, w: seq<bool>, g: nat, k: nat, body: Re)
    requires SlotsOk(Group(g + 1, b)) && Walk(Group(g + 1, b), inp, i, s, w).Went? && Numbered(b, g + 1) && k < MAX_GROUPS
    requires Absent(Group(g + 1, b), k) || BodyOf(Group(g + 1, b), k) == Some(body)
    requires HoldsMatch(body, inp, s, k)
    ensures HoldsMatch(body, inp, Walk(Group(g + 1, b), inp, i, s, w).saves, k)
    decreases |w|, Group(g + 1, b), 0
  {
    var n := g + 1;
    var s1 := s[2 * n := i];
    var a := Walk(b, inp, i, s1, w);
    if k == n {
      AbsentOrNot(b, n, k);
      AbsentIsKept(b, inp, i, s1, w, k);
      WalkIsMatch(b, inp, i, s1, w);
    } else {
      AbsentOrNot(b, n, k);
      WalkHolds(b, inp, i, s1, w, n, k, body);
    }
  }

  /** Whatever a group of the answer has captured, the text between its parentheses matches just that stretch. */
  lemma GroupsHoldMatches(src: string, t: Re, p: RegexCompiler.Prog, inp: string, start: nat, s: Saves, k: nat)
    requires Compiles(src, t, p) && SlotsOk(t) && IsBest(t, inp, start, s) && 1 <= k <= p.ngroups
    ensures k <= 9 && BodyOf(t, k).Some? && HoldsMatch(BodyOf(t, k).value, inp, s, k)
  {
    PatternNumbered(src);
    AbsentOrNot(t, 0, k);
    var w :| Reads(t, inp, start, w, s);
    WalkHolds(t, inp, start, Fresh(start), w, 0, k, BodyOf(t, k).value);
  }
}
