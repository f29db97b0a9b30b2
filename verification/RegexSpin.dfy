/** Where the matcher goes wrong (micai/src/regex.rs): greedy repetitions of something that can match nothing. */
module RegexSpin {
  import opened RegexSyntax
  import opened RegexMeaning
  import opened RegexCompiler
  import opened RegexMachine
  import opened RegexCorrect
  import opened RegexTheorems

  // ---- leaving a greedy repetition where one more empty round was possible

  ghost predicate OneMoreEmpty(t: Re, inp: string, m: nat)
    requires t.Rep?
  {
    !t.op.Opt? && !t.lazy && Matches(t.body, inp, m, m)
  }

  /** The walk `w` leaves some greedy `*` or `+` at a place where its body matches the empty stretch. */
  ghost predicate LeavesEarly(t: Re, inp: string, i: nat, s: Saves, w: seq<bool>)
    requires SlotsOk(t) && Walk(t, inp, i, s, w).Went?
    decreases |w|, t, 1
  {
    match t
    case Empty => false
    case One(_) => false
    case Cat(l, r) =>
      var a := Walk(l, inp, i, s, w);
      LeavesEarly(l, inp, i, s, w) || LeavesEarly(r, inp, a.at, a.saves, a.rest)
    case Alt(l, r) => LeavesEarly(if w[0] then r else l, inp, i, s, w[1..])
    case Rep(_, _, _) => RepLeavesEarly(t, inp, i, s, w)
    case Group(g, b) => LeavesEarly(b, inp, i, s[2 * g := i], w)
  }

  ghost predicate RepLeavesEarly(t: Re, inp: string, i: nat, s: Saves, w: seq<bool>)
    requires SlotsOk(t) && t.Rep? && Walk(t, inp, i, s, w).Went?
    decreases |w|, t, 0
  {
    if t.op.Plus? then
      var a := Walk(t.body, inp, i, s, w);
      LeavesEarly(t.body, inp, i, s, w) ||
      if Again(a.rest[0], t.lazy) then RepLeavesEarly(t, inp, a.at, a.saves, a.rest[1..]) else OneMoreEmpty(t, inp, a.at)
    else if !Again(w[0], t.lazy) then OneMoreEmpty(t, inp, i)
    else
      var a := Walk(t.body, inp, i, s, w[1..]);
      LeavesEarly(t.body, inp, i, s, w[1..]) || (t.op.Star? && RepLeavesEarly(t, inp, a.at, a.saves, a.rest))
  }

  // ---- walks with other captures, and with other choices behind them

  /** Captures do not decide where a walk goes. */
  lemma {:induction false} SameShape(t: Re, inp: string, i: nat, s: Saves, s': Saves, w: seq<bool>)
    requires SlotsOk(t) && Walk(t, inp, i, s, w).Went?
    ensures var r, r' := Walk(t, inp, i, s, w), Walk(t, inp, i, s', w); r'.Went? && r'.at == r.at && r'.rest == r.rest
    decreases |w|, t
  {
    match t
    case Empty =>
    case One(_) =>
    case Cat(l, r) =>
      SameShape(l, inp, i, s, s', w);
      var a, a' := Walk(l, inp, i, s, w), Walk(l, inp, i, s', w);
      SameShape(r, inp, a.at, a.saves, a'.saves, a.rest);
    case Alt(l, r) =>
      SameShape(if w[0] then r else l, inp, i, s, s', w[1..]);
    case Rep(op, b, lazy) =>
      if op.Plus? {
        SameShape(b, inp, i, s, s', w);
        var a, a' := Walk(b, inp, i, s, w), Walk(b, inp, i, s', w);
        if Again(a.rest[0], lazy) { SameShape(t, inp, a.at, a.saves, a'.saves, a.rest[1..]); }
      } else if Again(w[0], lazy) {
        SameShape(b, inp, i, s, s', w[1..]);
        var a, a' := Walk(b, inp, i, s, w[1..]), Walk(b, inp, i, s', w[1..]);
        if op.Star? { SameShape(t, inp, a.at, a.saves, a'.saves, a.rest); }
      }
    case Group(g, b) =>
      SameShape(b, inp, i, s[2 * g := i], s'[2 * g := i], w);
  }

  /** The choices of `w` that are used up when `rest` is left. */
  function Used(w: seq<bool>, rest: seq<bool>): seq<bool>
    requires |rest| <= |w|
  {
    w[..|w| - |rest|]
  }

  /** A walk does not look at the choices behind those it uses. */
  lemma {:induction false} OtherRest(t: Re, inp: string, i: nat, s: Saves, w: seq<bool>, x: seq<bool>)
    requires SlotsOk(t) && Walk(t, inp, i, s, w).Went?
    ensures var r := Walk(t, inp, i, s, w);
      w == Used(w, r.rest) + r.rest && Walk(t, inp, i, s, Used(w, r.rest) + x) == Went(r.at, r.saves, x)
    decreases |w|, t, 1
  {
    match t
    case Empty => assert [] + x == x;
    case One(_) => assert [] + x == x;
    case Cat(l, r) =>
      var a := Walk(l, inp, i, s, w);
      var e := Walk(r, inp, a.at, a.saves, a.rest);
      OtherRest(r, inp, a.at, a.saves, a.rest, x);
      OtherRest(l, inp, i, s, w, Used(a.rest, e.rest) + x);
      UsedTwice(w, a.rest, e.rest, x);
    case Alt(l, r) =>
      OtherRest(if w[0] then r else l, inp, i, s, w[1..], x);
      UsedFirst(w, Walk(t, inp, i, s, w).rest, x);
    case Rep(_, _, _) =>
      OtherRestOfRep(t, inp, i, s, w, x);
    case Group(g, b) =>
      OtherRest(b, inp, i, s[2 * g := i], w, x);
  }

  lemma UsedTwice(w: seq<bool>, mid: seq<bool>, rest: seq<bool>, x: seq<bool>)
    requires |rest| <= |mid| <= |w| && w == Used(w, mid) + mid && mid == Used(mid, rest) + rest
    ensures w == Used(w, rest) + rest && Used(w, mid) + (Used(mid, rest) + x) == Used(w, rest) + x
  {
    assert Used(w, mid) + Used(mid, rest) == Used(w, rest);
  }

  lemma UsedFirst(w: seq<bool>, rest: seq<bool>, x: seq<bool>)
    requires |rest| < |w| && w[1..] == Used(w[1..], rest) + rest
    ensures w == Used(w, rest) + rest && (Used(w, rest) + x)[1..] == Used(w[1..], rest) + x && (Used(w, rest) + x)[0] == w[0]
    ensures Used(w, rest) + x != []
  {
    assert Used(w, rest) == [w[0]] + Used(w[1..], rest);
    assert w == [w[0]] + w[1..];
  }

  lemma {:induction false} OtherRestOfRep(t: Re, inp: string, i: nat, s: Saves, w: seq<bool>, x: seq<bool>)
    requires SlotsOk(t) && t.Rep? && Walk(t, inp, i, s, w).Went?
    ensures var r := Walk(t, inp, i, s, w);
      w == Used(w, r.rest) + r.rest && Walk(t, inp, i, s, Used(w, r.rest) + x) == Went(r.at, r.saves, x)
    decreases |w|, t, 0
  {
    var e := Walk(t, inp, i, s, w);
    if t.op.Plus? {
      var a := Walk(t.body, inp, i, s, w);
      if Again(a.rest[0], t.lazy) {
        OtherRestOfRep(t, inp, a.at, a.saves, a.rest[1..], x);
      } else {
        assert a.rest[1..] == Used(a.rest[1..], e.rest) + e.rest;
      }
      UsedFirst(a.rest, e.rest, x);
      OtherRest(t.body, inp, i, s, w, Used(a.rest, e.rest) + x);
      UsedTwice(w, a.rest, e.rest, x);
    } else if Again(w[0], t.lazy) {
      var a := Walk(t.body, inp, i, s, w[1..]);
      if t.op.Star? {
        OtherRestOfRep(t, inp, a.at, a.saves, a.rest, x);
        OtherRest(t.body, inp, i, s, w[1..], Used(a.rest, e.rest) + x);
        UsedTwice(w[1..], a.rest, e.rest, x);
      } else {
        OtherRest(t.body, inp, i, s, w[1..], x);
      }
      UsedFirst(w, e.rest, x);
    } else {
      assert w[1..] == Used(w[1..], e.rest) + e.rest;
      UsedFirst(w, e.rest, x);
      assert Used(w[1..], e.rest) + x == x;
    }
  }

  // ---- a walk that leaves early is never the preferred one

  /** `q` goes where `w` goes, and is preferred. */
  ghost predicate Beats(t: Re, inp: string, i: nat, s: Saves, q: seq<bool>, w: seq<bool>)
    requires SlotsOk(t) && Walk(t, inp, i, s, w).Went?
  {
    var r, r' := Walk(t, inp, i, s, w), Walk(t, inp, i, s, q);
    r'.Went? && r'.at == r.at && r'.rest == r.rest && Before(q, w)
  }

  lemma BeforeBehind(u: seq<bool>, a: seq<bool>, b: seq<bool>)
    requires Before(a, b)
    ensures Before(u + a, u + b)
  {
    var k :| 0 <= k < |a| && k < |b| && a[..k] == b[..k] && !a[k] && b[k];
    var x, y, n := u + a, u + b, |u| + k;
    assert x[..n] == u + a[..k] && y[..n] == u + b[..k];
    assert x[n] == a[k] && y[n] == b[k];
  }

  lemma BeforeAtOnce(a: seq<bool>, b: seq<bool>)
    requires a != [] && b != [] && !a[0] && b[0]
    ensures Before(a, b)
  {
    assert a[..0] == b[..0];
  }

  /** One more empty round, then the way out. */
  lemma OneRoundMore(t: Re, inp: string, i: nat, s: Saves, w: seq<bool>) returns (e: seq<bool>)
    requires SlotsOk(t) && t.Rep? && OneMoreEmpty(t, inp, i) && w != [] && w[0]
    ensures var r := if t.op.Plus? then Walk(t, inp, i, s, e + w) else Walk(t, inp, i, s, [false] + (e + w));
      r.Went? && r.at == i && r.rest == w[1..]
  {
    e := MatchIsWalk(t.body, inp, i, i, s);
    Then(t.body, inp, i, s, e, i, w);
    assert ([false] + (e + w))[1..] == e + w;
  }

  lemma {:induction false} Sooner(t: Re, inp: string, i: nat, s: Saves, w: seq<bool>) returns (q: seq<bool>)
    requires SlotsOk(t) && Walk(t, inp, i, s, w).Went? && LeavesEarly(t, inp, i, s, w)
    ensures Beats(t, inp, i, s, q, w)
    decreases |w|, t, 1
  {
    match t
    case Cat(l, r) =>
      var a := Walk(l, inp, i, s, w);
      if LeavesEarly(l, inp, i, s, w) {
        q := Sooner(l, inp, i, s, w);
        SameShape(r, inp, a.at, a.saves, Walk(l, inp, i, s, q).saves, a.rest);
      } else {
        var q2 := Sooner(r, inp, a.at, a.saves, a.rest);
        q := Used(w, a.rest) + q2;
        OtherRest(l, inp, i, s, w, q2);
        BeforeBehind(Used(w, a.rest), q2, a.rest);
      }
    case Alt(l, r) =>
      var q1 := Sooner(if w[0] then r else l, inp, i, s, w[1..]);
      q := FirstThen(w, q1);
    case Rep(_, _, _) =>
      q := RepSooner(t, inp, i, s, w);
    case Group(g, b) =>
      q := Sooner(b, inp, i, s[2 * g := i], w);
  }

  lemma FirstThen(w: seq<bool>, q1: seq<bool>) returns (q: seq<bool>)
    requires w != [] && Before(q1, w[1..])
    ensures q != [] && q[0] == w[0] && q[1..] == q1 && Before(q, w)
  {
    q := [w[0]] + q1;
    BeforeBehind([w[0]], q1, w[1..]);
    assert [w[0]] + w[1..] == w;
  }

  lemma {:induction false} RepSooner(t: Re, inp: string, i: nat, s: Saves, w: seq<bool>) returns (q: seq<bool>)
    requires SlotsOk(t) && t.Rep? && Walk(t, inp, i, s, w).Went? && RepLeavesEarly(t, inp, i, s, w)
    ensures Beats(t, inp, i, s, q, w)
    decreases |w|, t, 0
  {
    if t.op.Plus? {
      q := PlusSooner(t, inp, i, s, w);
    } else if !Again(w[0], t.lazy) {
      var e := OneRoundMore(t, inp, i, s, w);
      q := [false] + (e + w);
      BeforeAtOnce(q, w);
    } else {
      var a := Walk(t.body, inp, i, s, w[1..]);
      if LeavesEarly(t.body, inp, i, s, w[1..]) {
        var q1 := Sooner(t.body, inp, i, s, w[1..]);
        q := FirstThen(w, q1);
        if t.op.Star? { SameShape(t, inp, a.at, a.saves, Walk(t.body, inp, i, s, q1).saves, a.rest); }
      } else {
        var q2 := RepSooner(t, inp, a.at, a.saves, a.rest);
        OtherRest(t.body, inp, i, s, w[1..], q2);
        BeforeBehind(Used(w[1..], a.rest), q2, a.rest);
        q := FirstThen(w, Used(w[1..], a.rest) + q2);
      }
    }
  }

  lemma {:induction false} PlusSooner(t: Re, inp: string, i: nat, s: Saves, w: seq<bool>) returns (q: seq<bool>)
    requires SlotsOk(t) && t.Rep? && t.op.Plus? && Walk(t, inp, i, s, w).Went? && RepLeavesEarly(t, inp, i, s, w)
    ensures Beats(t, inp, i, s, q, w)
    decreases |w|, t, 0, 0
  {
    var a := Walk(t.body, inp, i, s, w);
    if LeavesEarly(t.body, inp, i, s, w) {
      q := Sooner(t.body, inp, i, s, w);
      if Again(a.rest[0], t.lazy) {
        SameShape(t, inp, a.at, a.saves, Walk(t.body, inp, i, s, q).saves, a.rest[1..]);
      }
    } else {
      var x: seq<bool>;
      if Again(a.rest[0], t.lazy) {
        var q2 := RepSooner(t, inp, a.at, a.saves, a.rest[1..]);
        x := FirstThen(a.rest, q2);
      } else {
        var e := OneRoundMore(t, inp, a.at, a.saves, a.rest);
        x := [false] + (e + a.rest);
        assert x[1..] == e + a.rest;
        BeforeAtOnce(x, a.rest);
      }
      q := Used(w, a.rest) + x;
      OtherRest(t.body, inp, i, s, w, x);
      BeforeBehind(Used(w, a.rest), x, a.rest);
    }
  }

  // ---- what that means for the matcher

  lemma BeforeOneWay(a: seq<bool>, b: seq<bool>)
    requires Before(a, b)
    ensures a != b && !Before(b, a)
  {
    var k :| 0 <= k < |a| && k < |b| && a[..k] == b[..k] && !a[k] && b[k];
    forall x | 0 <= x < k ensures a[x] == b[x] { assert a[..k][x] == b[..k][x]; }
    if m :| 0 <= m < |b| && m < |a| && b[..m] == a[..m] && !b[m] && a[m] {
      forall x | 0 <= x < m ensures a[x] == b[x] { assert a[..m][x] == b[..m][x]; }
      assert false;
    }
  }

  /** A match that is found never leaves a greedy repetition where its body could have matched nothing. */
  lemma FoundNeverLeavesEarly(src: string, t: Re, p: Prog, inp: string, start: nat, cap: nat)
    requires Compiles(src, t, p)
    ensures SlotsOk(t) && Runnable(p)
    ensures Matched(p, inp, start, cap).Some? ==>
      exists w :: Reads(t, inp, start, w, Matched(p, inp, start, cap).value) && !LeavesEarly(Whole(t), inp, start, NoSaves, w)
  {
    MatchAtIsRight(src, t, p, inp, start, cap);
    if Matched(p, inp, start, cap).Some? {
      var s := Matched(p, inp, start, cap).value;
      assert IsBest(t, inp, start, s);
      var w :| Reads(t, inp, start, w, s) && forall q, s' :: Reads(t, inp, start, q, s') ==> q == w || Before(w, q);
      if LeavesEarly(Whole(t), inp, start, NoSaves, w) {
        var q := Sooner(Whole(t), inp, start, NoSaves, w);
        BeforeOneWay(q, w);
        assert Reads(t, inp, start, q, Walk(Whole(t), inp, start, NoSaves, q).saves);
      }
    }
  }

  // ---- patterns that are one greedy repetition

  lemma {:induction false} NullableMatchesNothing(t: Re)
    requires Nullable(t)
    ensures Matches(t, "", 0, 0)
    decreases t
  {
    match t
    case Empty =>
    case One(_) =>
    case Cat(l, r) => NullableMatchesNothing(l); NullableMatchesNothing(r);
    case Alt(l, r) => if Nullable(l) { NullableMatchesNothing(l); } else { NullableMatchesNothing(r); }
    case Rep(op, b, _) =>
      assert Times(b, "", 0, 0, 0);
      if op.Plus? { NullableMatchesNothing(b); assert Times(b, "", 1, 0, 0); }
    case Group(_, b) => NullableMatchesNothing(b);
  }

  lemma {:induction false} AlwaysEarly(t: Re, s: Saves, w: seq<bool>)
    requires SlotsOk(t) && t.Rep? && !t.op.Opt? && !t.lazy && Nullable(t.body) && Walk(t, "", 0, s, w).Went?
    ensures RepLeavesEarly(t, "", 0, s, w)
    decreases |w|
  {
    NullableMatchesNothing(t.body);
    if t.op.Plus? {
      var a := Walk(t.body, "", 0, s, w);
      Progress(t.body, "", 0, s, w);
      if Again(a.rest[0], t.lazy) { AlwaysEarly(t, a.saves, a.rest[1..]); }
    } else if Again(w[0], t.lazy) {
      var a := Walk(t.body, "", 0, s, w[1..]);
      Progress(t.body, "", 0, s, w[1..]);
      AlwaysEarly(t, a.saves, a.rest);
    }
  }

  /** The answer from `start` is right: something is found if and only if something matches. */
  ghost predicate Answers(t: Re, p: Prog, inp: string, start: nat, cap: nat)
    requires Runnable(p)
  {
    Matched(p, inp, start, cap).Some? <==> exists j: nat :: Matches(t, inp, start, j)
  }

  lemma NothingFoundInNothing(src: string, op: Op, b: Re, p: Prog, cap: nat)
    requires Compiles(src, Cat(Empty, Rep(op, b, false)), p) && !op.Opt? && Nullable(b)
    ensures Runnable(p) && Matched(p, "", 0, cap) == None
    ensures Matches(Cat(Empty, Rep(op, b, false)), "", 0, 0)
  {
    var rep := Rep(op, b, false);
    var t := Cat(Empty, rep);
    FoundNeverLeavesEarly(src, t, p, "", 0, cap);
    if Matched(p, "", 0, cap).Some? {
      var w :| Reads(t, "", 0, w, Matched(p, "", 0, cap).value) && !LeavesEarly(Whole(t), "", 0, NoSaves, w);
      assert Walk(t, "", 0, NoSaves[0 := 0], w) == Walk(rep, "", 0, NoSaves[0 := 0], w);
      AlwaysEarly(rep, NoSaves[0 := 0], w);
      assert LeavesEarly(t, "", 0, NoSaves[0 := 0], w);
    }
    NullableMatchesNothing(rep);
    assert Matches(Empty, "", 0, 0);
  }

  /** However many steps that takes. */
  ghost predicate AnswersFrom(t: Re, p: Prog, inp: string, start: nat)
    requires Runnable(p)
  {
    exists cap: nat :: Answers(t, p, inp, start, cap)
  }

  ghost predicate AnswersAll(t: Re, p: Prog)
    requires Runnable(p)
  {
    forall inp: string, start: nat :: AnswersFrom(t, p, inp, start)
  }

  lemma SafeAnswers(src: string, t: Re, p: Prog, inp: string, start: nat)
    requires Compiles(src, t, p) && Safe(t)
    ensures Runnable(p) && AnswersFrom(t, p, inp, start)
  {
    var cap := EnoughSteps(t, inp, 0);
    SafeMatchAt(src, t, p, inp, start, cap);
    forall j: nat | Matches(t, inp, start, j) ensures Matched(p, inp, start, cap).Some? {
      assert exists k: nat :: Matches(t, inp, start, k);
    }
    assert Answers(t, p, inp, start, cap);
  }

  /**
   * A pattern that is a greedy repetition is answered right on every input, given steps enough, if
   * and only if its body cannot match nothing.
   */
  lemma RepetitionIsAnsweredIff(src: string, op: Op, b: Re, p: Prog)
    requires Compiles(src, Cat(Empty, Rep(op, b, false)), p) && !op.Opt? && Safe(b)
    ensures Runnable(p)
    ensures AnswersAll(Cat(Empty, Rep(op, b, false)), p) <==> !Nullable(b)
  {
    var t := Cat(Empty, Rep(op, b, false));
    MatchAtIsRight(src, t, p, "", 0, 0);
    if Nullable(b) {
      forall cap: nat ensures !Answers(t, p, "", 0, cap) { NothingFoundInNothing(src, op, b, p, cap); }
      assert !AnswersFrom(t, p, "", 0);
    } else {
      assert Safe(Rep(op, b, false)) && Safe(Empty);
      forall inp: string, start: nat ensures AnswersFrom(t, p, inp, start) { SafeAnswers(src, t, p, inp, start); }
    }
  }
}
