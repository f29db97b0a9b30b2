/** What `compile`, `match_at` and `search` together promise about a pattern. */
module RegexTheorems {
  import opened RegexSyntax
  import opened RegexMeaning
  import opened RegexCompiler
  import opened RegexMachine
  import opened RegexSearch
  import opened RegexCorrect

  /** `p` is the compiled program of the pattern `src`, and `t` its tree. */
  ghost predicate Compiles(src: string, t: Re, p: Prog) {
    ParsePattern(src).Ok? && ParsePattern(src).tree == t && IsProgram(p, t, ParsePattern(src).groups)
  }

  /** A pattern with its whole match as group 0. */
  function Whole(t: Re): Re {
    Group(0, t)
  }

  // ---- captures

  /** Group `h` is not set, or it is a stretch of `[lo, hi]`. */
  predicate SpanOk(s: Saves, h: nat, lo: int, hi: int)
    requires h < MAX_GROUPS
  {
    (s[2 * h] == -1 && s[2 * h + 1] == -1) || lo <= s[2 * h] <= s[2 * h + 1] <= hi
  }

  ghost predicate SpansOk(s: Saves, lo: int, hi: int, g: nat, n: nat) {
    g + n < MAX_GROUPS && forall h :: g < h <= g + n ==> SpanOk(s, h, lo, hi)
  }

  /** Only the groups `g+1 .. g+n` may differ between `s` and `s'`. */
  ghost predicate OnlyGroups(s: Saves, s': Saves, g: nat, n: nat) {
    forall k :: 0 <= k < NSLOTS && !(2 * g + 2 <= k < 2 * (g + n) + 2) ==> s'[k] == s[k]
  }

  /** A walk sets the groups of its tree to stretches of what it read, and no others. */
  lemma {:induction false} WalkSpans(t: Re, inp: string, i: nat, s: Saves, w: seq<bool>, lo: nat, g: nat)
    requires SlotsOk(t) && Numbered(t, g) && g + Count(t) < MAX_GROUPS
    requires Walk(t, inp, i, s, w).Went?
    requires lo <= i && SpansOk(s, lo, i, g, Count(t))
    ensures var r := Walk(t, inp, i, s, w); OnlyGroups(s, r.saves, g, Count(t)) && SpansOk(r.saves, lo, r.at, g, Count(t))
    decreases |w|, t
  {
    Progress(t, inp, i, s, w);
    match t
    case Empty =>
    case One(x) =>
    case Cat(l, r) =>
      var a := Walk(l, inp, i, s, w);
      Progress(l, inp, i, s, w);
      WalkSpans(l, inp, i, s, w, lo, g);
      SpansAfter(s, a.saves, lo, i, a.at, g, Count(l), g + Count(l), Count(r));
      WalkSpans(r, inp, a.at, a.saves, a.rest, lo, g + Count(l));
      var e := Walk(r, inp, a.at, a.saves, a.rest);
      Progress(r, inp, a.at, a.saves, a.rest);
      SpansAfter(a.saves, e.saves, lo, a.at, e.at, g + Count(l), Count(r), g, Count(l));
    case Alt(l, r) =>
      var e := Walk(t, inp, i, s, w);
      if w[0] {
        WalkSpans(r, inp, i, s, w[1..], lo, g + Count(l));
        SpansAfter(s, e.saves, lo, i, e.at, g + Count(l), Count(r), g, Count(l));
      } else {
        WalkSpans(l, inp, i, s, w[1..], lo, g);
        SpansAfter(s, e.saves, lo, i, e.at, g, Count(l), g + Count(l), Count(r));
      }
    case Rep(op, b, lazy) =>
      RepSpans(t, inp, i, s, w, lo, g);
    case Group(k, b) =>
      GroupSpans(k, b, inp, i, s, w, lo, g);
  }

  /** Groups that are not touched stay in order while the position moves on. */
  lemma SpansAfter(s: Saves, s': Saves, lo: int, i: int, j: int, g: nat, n: nat, g2: nat, n2: nat)
    requires OnlyGroups(s, s', g, n) && i <= j
    requires g + n <= g2 || g2 + n2 <= g
    requires SpansOk(s, lo, i, g2, n2)
    ensures SpansOk(s', lo, j, g2, n2)
  {
    forall h | g2 < h <= g2 + n2 ensures SpanOk(s', h, lo, j) {
      assert SpanOk(s, h, lo, i);
    }
  }

  lemma {:induction false} RepSpans(t: Re, inp: string, i: nat, s: Saves, w: seq<bool>, lo: nat, g: nat)
    requires SlotsOk(t) && t.Rep? && Numbered(t, g) && g + Count(t) < MAX_GROUPS
    requires Walk(t, inp, i, s, w).Went?
    requires lo <= i && SpansOk(s, lo, i, g, Count(t))
    ensures var r := Walk(t, inp, i, s, w); OnlyGroups(s, r.saves, g, Count(t)) && SpansOk(r.saves, lo, r.at, g, Count(t))
    decreases |w|, t, 0
  {
    if t.op.Plus? || Again(w[0], t.lazy) {
      var v := if t.op.Plus? then w else w[1..];
      var a := Walk(t.body, inp, i, s, v);
      Progress(t.body, inp, i, s, v);
      WalkSpans(t.body, inp, i, s, v, lo, g);
      if t.op.Star? {
        RepSpans(t, inp, a.at, a.saves, a.rest, lo, g);
      } else if t.op.Plus? && Again(a.rest[0], t.lazy) {
        RepSpans(t, inp, a.at, a.saves, a.rest[1..], lo, g);
      }
    }
  }

  lemma {:induction false} GroupSpans(k: nat, b: Re, inp: string, i: nat, s: Saves, w: seq<bool>, lo: nat, g: nat)
    requires SlotsOk(Group(k, b)) && k == g + 1 && Numbered(b, g + 1) && g + 1 + Count(b) < MAX_GROUPS
    requires Walk(Group(k, b), inp, i, s, w).Went?
    requires lo <= i && SpansOk(s, lo, i, g, 1 + Count(b))
    ensures var r := Walk(Group(k, b), inp, i, s, w);
            OnlyGroups(s, r.saves, g, 1 + Count(b)) && SpansOk(r.saves, lo, r.at, g, 1 + Count(b))
    decreases |w|, Group(k, b), 0
  {
    var s1 := s[2 * k := i];
    forall h | g + 1 < h <= g + 1 + Count(b) ensures SpanOk(s1, h, lo, i) {
      assert SpanOk(s, h, lo, i);
    }
    Progress(b, inp, i, s1, w);
    WalkSpans(b, inp, i, s1, w, lo, g + 1);
    var m := Walk(b, inp, i, s1, w);
    var e := Walk(Group(k, b), inp, i, s, w);
    forall h | g < h <= g + 1 + Count(b) ensures SpanOk(e.saves, h, lo, e.at) {
      if h > k {
        assert SpanOk(m.saves, h, lo, m.at);
      }
    }
  }

  /** The choices `w` take the whole pattern from `start` to an end, with captures `s`. */
  ghost predicate Reads(t: Re, inp: string, start: nat, w: seq<bool>, s: Saves)
    requires SlotsOk(t)
  {
    var r := Walk(Whole(t), inp, start, NoSaves, w);
    r.Went? && r.rest == [] && r.saves == s
  }

  // ---- the program accepts exactly the walks of its tree

  /** The code of the whole pattern, and behind it the only accepting instruction. */
  ghost predicate Loaded(p: Prog, t: Re) {
    && Holds(p, Whole(t), 0, 0) && |p.insts| == Size(Whole(t)) + 1
    && forall k :: 0 <= k < |p.insts| ==> (p.insts[k] == Match <==> k == Size(Whole(t)))
  }

  lemma ProgramLoaded(p: Prog, t: Re, ngroups: nat)
    requires IsProgram(p, t, ngroups) && SlotsOk(t)
    ensures Loaded(p, t)
  {
    ProgramRuns(p, t, ngroups);
  }

  /** Nothing runs on behind the whole pattern. */
  lemma NoneRunsPast(p: Prog, t: Re, inp: string, start: nat, w: seq<bool>, m: nat, n: nat)
    requires Loaded(p, t) && m <= n
    requires Crosses(p, inp, Whole(t), 0, start, NoSaves, w, m)
    requires Drive(p, inp, Thread(0, start, NoSaves), w, n).At?
    ensures n == m
  {
    DriveOn(p, inp, Thread(0, start, NoSaves), w, m, n - m);
  }

  lemma AcceptedReads(p: Prog, t: Re, inp: string, start: nat, w: seq<bool>, s: Saves)
    requires Loaded(p, t) && Accepting(p, inp, Thread(0, start, NoSaves), w, s)
    ensures Reads(t, inp, start, w, s)
  {
    var root := Thread(0, start, NoSaves);
    var n: nat, th :| Leads(p, inp, root, w, n, th) && p.insts[th.pc] == Match && th.saves == s;
    var m := RunsWalk(p, inp, Whole(t), 0, 0, start, NoSaves, w, n);
    NoneRunsPast(p, t, inp, start, w, m, n);
  }

  lemma ReadAccepts(p: Prog, t: Re, inp: string, start: nat, w: seq<bool>, s: Saves)
    requires Loaded(p, t) && Reads(t, inp, start, w, s)
    ensures Accepting(p, inp, Thread(0, start, NoSaves), w, s)
  {
    var r := Walk(Whole(t), inp, start, NoSaves, w);
    var n := WalkRuns(p, inp, Whole(t), 0, 0, start, NoSaves, w);
    assert Leads(p, inp, Thread(0, start, NoSaves), w, n, Thread(Size(Whole(t)), r.at, r.saves));
  }

  /** The program accepts exactly what walks its tree, with the same choices and captures. */
  lemma AcceptsIffReads(p: Prog, t: Re, inp: string, start: nat, w: seq<bool>, s: Saves)
    requires Loaded(p, t)
    ensures Accepting(p, inp, Thread(0, start, NoSaves), w, s) <==> Reads(t, inp, start, w, s)
  {
    if Accepting(p, inp, Thread(0, start, NoSaves), w, s) {
      AcceptedReads(p, t, inp, start, w, s);
    }
    if Reads(t, inp, start, w, s) {
      ReadAccepts(p, t, inp, start, w, s);
    }
  }

  /** A run that does not idle is short. */
  lemma BusyRunIsShort(p: Prog, t: Re, inp: string, start: nat, w: seq<bool>, n: nat)
    requires Loaded(p, t) && !Idles(Whole(t), inp, start, NoSaves, w)
    requires Drive(p, inp, Thread(0, start, NoSaves), w, n).At?
    ensures n <= Bound(Whole(t), Left(inp, start))
  {
    if n > Bound(Whole(t), Left(inp, start)) {
      var m := RunsWalk(p, inp, Whole(t), 0, 0, start, NoSaves, w, n);
      NoneRunsPast(p, t, inp, start, w, m, n);
    }
  }

  /** No run of a safe program takes more steps than its bound. */
  lemma SafeIsShallow(p: Prog, t: Re, inp: string, start: nat)
    requires Loaded(p, t) && Safe(t)
    ensures Shallow(p, inp, Thread(0, start, NoSaves), Bound(Whole(t), Left(inp, start)))
  {
    var root := Thread(0, start, NoSaves);
    forall w, n: nat, th | Leads(p, inp, root, w, n, th)
      ensures n <= Bound(Whole(t), Left(inp, start))
    {
      SafeNeverIdles(Whole(t), inp, start, NoSaves, w);
      BusyRunIsShort(p, t, inp, start, w, n);
    }
  }

  // ---- the theorems

  /** `s` are the captures of the match of `t` from `start` that a backtracking reader prefers to all others. */
  ghost predicate IsBest(t: Re, inp: string, start: nat, s: Saves)
    requires SlotsOk(t)
  {
    exists w :: Reads(t, inp, start, w, s) && forall q, s' :: Reads(t, inp, start, q, s') ==> q == w || Before(w, q)
  }

  /** The search from one start answers the preferred match of the pattern, or that there is none. */
  lemma MatchAtIsRight(src: string, t: Re, p: Prog, inp: string, start: nat, fuel: nat)
    requires Compiles(src, t, p)
    ensures SlotsOk(t) && Runnable(p)
    ensures var r := Run(p, inp, StartAt(start), fuel);
            && (r.Won? ==> IsBest(t, inp, start, r.saves))
            && (r.Lost? ==> forall j: nat :: !Matches(t, inp, start, j))
  {
    CompiledIsLoaded(src, t, p);
    SearchIsRight(p, inp, start, fuel);
    var r := Run(p, inp, StartAt(start), fuel);
    if r.Won? {
      PreferredIsBest(p, t, inp, start, r.saves);
    }
    if r.Lost? {
      forall j: nat ensures !Matches(t, inp, start, j) {
        if Matches(t, inp, start, j) {
          assert Matches(Whole(t), inp, start, j);
          var q := MatchIsWalk(Whole(t), inp, start, j, NoSaves);
          AcceptsIffReads(p, t, inp, start, q, Walk(Whole(t), inp, start, NoSaves, q).saves);
        }
      }
    }
  }

  lemma PreferredIsBest(p: Prog, t: Re, inp: string, start: nat, s: Saves)
    requires Loaded(p, t)
    requires exists w :: Preferred(p, inp, Thread(0, start, NoSaves), w, s)
    ensures IsBest(t, inp, start, s)
  {
    var w :| Preferred(p, inp, Thread(0, start, NoSaves), w, s);
    AcceptsIffReads(p, t, inp, start, w, s);
    forall q, s' | Reads(t, inp, start, q, s') ensures q == w || Before(w, q) {
      AcceptsIffReads(p, t, inp, start, q, s');
    }
  }

  /** The whole match and the groups after a walk that started with no capture set. */
  lemma WholeSpans(t: Re, inp: string, start: nat, s0: Saves, w: seq<bool>)
    requires SlotsOk(t) && Numbered(t, 0) && Count(t) < MAX_GROUPS
    requires forall k :: 0 <= k < NSLOTS ==> s0[k] == -1
    requires Walk(Whole(t), inp, start, s0, w).Went?
    ensures var r := Walk(Whole(t), inp, start, s0, w);
            && r.saves[0] == start <= r.saves[1] == r.at
            && (r.at > start ==> r.at <= |inp|)
            && SpansOk(r.saves, start, r.at, 0, Count(t))
  {
    var s1 := s0[0 := start];
    assert SpansOk(s1, start, start, 0, Count(t));
    Progress(t, inp, start, s1, w);
    WalkSpans(t, inp, start, s1, w, start, 0);
    var m := Walk(t, inp, start, s1, w);
    var e := m.saves[1 := m.at];
    forall h | 0 < h <= Count(t) ensures SpanOk(e, h, start, m.at) {
      assert SpanOk(m.saves, h, start, m.at);
    }
  }

  /** What a caller sees of a match: where it lies, that the pattern matches there, and that every group is unset or lies inside. */
  lemma BestIsMatch(src: string, t: Re, p: Prog, inp: string, start: nat, s: Saves)
    requires Compiles(src, t, p) && SlotsOk(t) && IsBest(t, inp, start, s)
    ensures s[0] == start && s[1] >= start && (s[1] > start ==> s[1] <= |inp|)
    ensures Matches(t, inp, start, s[1])
    ensures SpansOk(s, start, s[1], 0, p.ngroups)
  {
    PatternNumbered(src);
    var w :| Reads(t, inp, start, w, s);
    WholeSpans(t, inp, start, NoSaves, w);
    WalkIsMatch(Whole(t), inp, start, NoSaves, w);
  }

  /** Steps that surely suffice for a safe pattern. */
  function EnoughSteps(t: Re, inp: string, start: nat): nat {
    Pow2(Bound(Whole(t), Left(inp, start)) + 1)
  }

  lemma Pow2Monotone(m: nat, n: nat)
    requires m <= n
    ensures Pow2(m) <= Pow2(n)
    decreases n
  {
    if m > 0 {
      Pow2Monotone(m - 1, n - 1);
    }
  }

  lemma CompiledIsLoaded(src: string, t: Re, p: Prog)
    requires Compiles(src, t, p)
    ensures Loaded(p, t)
  {
    PatternNumbered(src);
    NumbersFit(t, 0);
    ProgramLoaded(p, t, ParsePattern(src).groups);
  }

  /** From whichever start, the search of a safe pattern ends within these steps. */
  lemma SafeSearchEnds(t: Re, p: Prog, inp: string, start: nat, cap: nat)
    requires Loaded(p, t) && Safe(t)
    requires cap >= EnoughSteps(t, inp, 0)
    ensures !Run(p, inp, StartAt(start), cap).Busy?
  {
    SafeIsShallow(p, t, inp, start);
    var b, b0 := Bound(Whole(t), Left(inp, start)), Bound(Whole(t), Left(inp, 0));
    BoundMonotone(Whole(t), Left(inp, start), Left(inp, 0));
    Pow2Monotone(b + 1, b0 + 1);
    SearchEnds(p, inp, start, b, cap);
  }

  /** With enough steps, a safe pattern is found from `start` if and only if it matches there. */
  lemma SafeMatchAt(src: string, t: Re, p: Prog, inp: string, start: nat, cap: nat)
    requires Compiles(src, t, p) && Safe(t)
    requires cap >= EnoughSteps(t, inp, 0)
    ensures Runnable(p) && SlotsOk(t)
    ensures Matched(p, inp, start, cap).Some? <==> exists j: nat :: Matches(t, inp, start, j)
  {
    MatchAtIsRight(src, t, p, inp, start, cap);
    CompiledIsLoaded(src, t, p);
    SafeSearchEnds(t, p, inp, start, cap);
    var r := Run(p, inp, StartAt(start), cap);
    if r.Won? {
      BestIsMatch(src, t, p, inp, start, r.saves);
      var j: nat := r.saves[1];
      assert Matches(t, inp, start, j);
    }
  }

  /** `search` answers at the first start where the search from that start wins. */
  lemma {:induction false} FoundIsFirst(p: Prog, inp: string, from: nat, cap: nat) returns (at: nat)
    requires Runnable(p)
    ensures from <= at && (from <= |inp| ==> at <= |inp|)
    ensures Found(p, inp, from, cap) == Matched(p, inp, at, cap)
    ensures forall a :: from <= a < at ==> Matched(p, inp, a, cap) == None
    ensures Found(p, inp, from, cap) == None ==> at >= |inp|
    decreases |inp| - from
  {
    if Matched(p, inp, from, cap).Some? || from >= |inp| {
      at := from;
    } else {
      at := FoundIsFirst(p, inp, from + 1, cap);
    }
  }

  /** Starts in `[from, to)` at which the pattern matches are missed only when the search there runs out of steps. */
  ghost predicate MissesNone(t: Re, p: Prog, inp: string, from: nat, to: int, cap: nat)
    requires Runnable(p)
  {
    forall a: nat, j: nat :: from <= a < to && Matches(t, inp, a, j) ==> Run(p, inp, StartAt(a), cap).Busy?
  }

  lemma NoneMissed(src: string, t: Re, p: Prog, inp: string, from: nat, to: int, cap: nat)
    requires Compiles(src, t, p) && Runnable(p)
    requires forall a: nat :: from <= a < to ==> Matched(p, inp, a, cap) == None
    ensures MissesNone(t, p, inp, from, to, cap)
  {
    forall a: nat, j: nat | from <= a < to && Matches(t, inp, a, j)
      ensures Run(p, inp, StartAt(a), cap).Busy?
    {
      MatchAtIsRight(src, t, p, inp, a, cap);
      assert Matched(p, inp, a, cap) == None;
    }
  }

  /** The leftmost match: no earlier start matches, unless the search there ran out of steps. */
  lemma SearchIsLeftmost(src: string, t: Re, p: Prog, inp: string, from: nat, cap: nat)
    requires Compiles(src, t, p)
    ensures SlotsOk(t) && Runnable(p)
    ensures var r := Found(p, inp, from, cap);
            if r.Some? then r.value[0] >= from && IsBest(t, inp, r.value[0], r.value) && MissesNone(t, p, inp, from, r.value[0], cap)
            else MissesNone(t, p, inp, from, |inp| + 1, cap)
  {
    MatchAtIsRight(src, t, p, inp, from, cap);
    var at := FoundIsFirst(p, inp, from, cap);
    MatchAtIsRight(src, t, p, inp, at, cap);
    var r := Found(p, inp, from, cap);
    if r.Some? {
      BestIsMatch(src, t, p, inp, at, r.value);
      NoneMissed(src, t, p, inp, from, at, cap);
    } else {
      NoneMissed(src, t, p, inp, from, |inp| + 1, cap);
    }
  }

  // ---- a repeated body that can match nothing spins

  /** The tree of `(?:a*)*`. */
  const SpinTree: Re := Cat(Empty, Rep(Star, Cat(Empty, Rep(Star, One(Lit('a')), false)), false))

  lemma SpinTreeIsRead()
    ensures ParsePattern("(?:a*)*") == Ok(SpinTree, 7, 0)
  {
    var src := "(?:a*)*";
    var inner := Cat(Empty, Rep(Star, One(Lit('a')), false));
    assert ParseAtom(src, 3, 0) == Ok(One(Lit('a')), 4, 0);
    assert ParseSuffixes(src, 5, 0, Rep(Star, One(Lit('a')), false)) == Ok(Rep(Star, One(Lit('a')), false), 5, 0);
    assert ParseRepeat(src, 3, 0) == Ok(Rep(Star, One(Lit('a')), false), 5, 0);
    assert ParseConcatRest(src, 5, 0, inner) == Ok(inner, 5, 0);
    assert ParseConcat(src, 3, 0) == Ok(inner, 5, 0);
    assert ParseAlt(src, 3, 0) == Ok(inner, 5, 0);
    assert ParseAtom(src, 0, 0) == Ok(inner, 6, 0);
    assert ParseSuffixes(src, 7, 0, Rep(Star, inner, false)) == Ok(Rep(Star, inner, false), 7, 0);
    assert ParseRepeat(src, 0, 0) == Ok(Rep(Star, inner, false), 7, 0);
    assert ParseConcatRest(src, 7, 0, SpinTree) == Ok(SpinTree, 7, 0);
    assert ParseConcat(src, 0, 0) == Ok(SpinTree, 7, 0);
  }

  lemma SpinInsts()
    ensures Size(Whole(SpinTree)) == 7
    ensures InstAt(Whole(SpinTree), 0, 0, 0) == Save(0) && InstAt(Whole(SpinTree), 0, 0, 1) == Split(2, 6)
    ensures InstAt(Whole(SpinTree), 0, 0, 2) == Split(3, 5) && InstAt(Whole(SpinTree), 0, 0, 3) == Char('a')
    ensures InstAt(Whole(SpinTree), 0, 0, 5) == Jmp(1)
  {
  }

  /** The instructions of `(?:a*)*` that run on an input that does not start with `a`. */
  ghost predicate Spins(p: Prog) {
    && |p.insts| == 8 && Runnable(p)
    && p.insts[0] == Save(0) && p.insts[1] == Split(2, 6) && p.insts[2] == Split(3, 5)
    && p.insts[3] == Char('a') && p.insts[5] == Jmp(1)
  }

  lemma SpinCode(p: Prog)
    requires IsProgram(p, SpinTree, 0)
    ensures Spins(p)
  {
    ProgramRuns(p, SpinTree, 0);
    SpinInsts();
  }

  lemma {:induction false} SpinsFrom(p: Prog, s: Saves, stack: seq<Thread>, fuel: nat)
    requires Spins(p) && InProgram(p, Busy(Thread(1, 0, s), stack))
    ensures Run(p, "b", Busy(Thread(1, 0, s), stack), fuel).Busy?
    decreases fuel
  {
    var six, five := Thread(6, 0, s), Thread(5, 0, s);
    var m0 := Busy(Thread(1, 0, s), stack);
    var m1 := Busy(Thread(2, 0, s), stack + [six]);
    var m2 := Busy(Thread(3, 0, s), stack + [six] + [five]);
    var m3 := Busy(five, stack + [six]);
    var m4 := Busy(Thread(1, 0, s), stack + [six]);
    assert Tick(p, "b", m0) == m1 && Tick(p, "b", m1) == m2;
    assert (stack + [six] + [five])[..|stack| + 1] == stack + [six];
    assert Tick(p, "b", m2) == m3 && Tick(p, "b", m3) == m4;
    if fuel >= 4 {
      SpinsFrom(p, s, stack + [six], fuel - 4);
      assert Run(p, "b", m3, fuel - 3) == Run(p, "b", m4, fuel - 4);
      assert Run(p, "b", m2, fuel - 2) == Run(p, "b", m3, fuel - 3);
      assert Run(p, "b", m1, fuel - 1) == Run(p, "b", m2, fuel - 2);
    } else if fuel == 3 {
      assert Run(p, "b", m1, 2) == Run(p, "b", m2, 1);
    }
  }

  lemma SpinsOn(p: Prog, cap: nat)
    requires Spins(p)
    ensures Matched(p, "b", 0, cap) == None
  {
    if cap > 0 {
      var s := NoSaves[0 := 0];
      assert Tick(p, "b", StartAt(0)) == Busy(Thread(1, 0, s), []);
      SpinsFrom(p, s, [], cap - 1);
    }
  }

  /** `(?:a*)*` matches the empty start of "b", but the search never gets there: only the step cap ends it, without a match. */
  lemma SpinsForever(p: Prog, cap: nat)
    requires IsProgram(p, SpinTree, 0)
    ensures Compiles("(?:a*)*", SpinTree, p) && Runnable(p)
    ensures Matches(SpinTree, "b", 0, 0)
    ensures Matched(p, "b", 0, cap) == None
  {
    SpinTreeIsRead();
    SpinCode(p);
    var inner := Cat(Empty, Rep(Star, One(Lit('a')), false));
    assert Times(inner, "b", 0, 0, 0);
    assert Allows(Star, 0) && Matches(Rep(Star, inner, false), "b", 0, 0);
    assert Matches(Empty, "b", 0, 0);
    SpinsOn(p, cap);
  }
}
