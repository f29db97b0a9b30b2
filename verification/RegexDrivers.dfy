/** `find_all`, `split_re` and `replace`: walking over all matches of a pattern (micai/src/interp.rs). */
module RegexDrivers {
  import opened RegexSyntax
  import opened RegexMeaning
  import opened RegexCompiler
  import opened RegexMachine
  import opened RegexCorrect
  import opened RegexTheorems
  import opened RegexExact

  /** A match, as a stretch of the input. */
  datatype Span = Span(a: nat, b: nat)

  /** Programs that `compile` makes. */
  ghost predicate FromPattern(p: Prog) {
    Runnable(p) && exists src, t :: Compiles(src, t, p)
  }

  function SpanOf(s: Saves): Span
    requires 0 <= s[0] && 0 <= s[1]
  {
    Span(s[0], s[1])
  }

  lemma FoundInside(p: Prog, inp: string, at: nat, cap: nat)
    requires FromPattern(p) && at <= |inp|
    ensures var r := Found(p, inp, at, cap); r.Some? ==> at <= r.value[0] <= r.value[1] <= |inp|
  {
    var src, t :| Compiles(src, t, p);
    SearchIsLeftmost(src, t, p, inp, at, cap);
    var r := Found(p, inp, at, cap);
    if r.Some? {
      BestIsMatch(src, t, p, inp, r.value[0], r.value);
      var first := FoundIsFirst(p, inp, at, cap);
      MatchAtIsRight(src, t, p, inp, first, cap);
      BestIsMatch(src, t, p, inp, first, r.value);
    }
  }

  /** Where the next search starts: an empty match is stepped over by one character. */
  function Onward(m: Span): nat {
    if m.b > m.a then m.b else m.b + 1
  }

  /** All matches from `at` on, each search starting where the previous match allows. */
  ghost function Cuts(p: Prog, inp: string, at: nat, cap: nat): (r: seq<Span>)
    requires FromPattern(p)
    decreases |inp| + 1 - at
  {
    if at > |inp| then []
    else
      var f := Found(p, inp, at, cap);
      FoundInside(p, inp, at, cap);
      if f.None? then [] else [SpanOf(f.value)] + Cuts(p, inp, Onward(SpanOf(f.value)), cap)
  }

  /** Stretches in order: none starts before the previous one ends, and an empty one is left behind. */
  predicate InOrder(cuts: seq<Span>, from: nat, to: nat) {
    cuts == [] || (from <= cuts[0].a <= cuts[0].b <= to && InOrder(cuts[1..], Onward(cuts[0]), to))
  }

  lemma {:induction false} FromEarlier(cuts: seq<Span>, from: nat, from': nat, to: nat)
    requires InOrder(cuts, from', to) && from <= from'
    ensures InOrder(cuts, from, to)
  {
  }

  /** Any two of them, not only neighbours, lie apart and in order. */
  lemma {:induction false} CutsApart(cuts: seq<Span>, from: nat, to: nat, k: nat, l: nat)
    requires InOrder(cuts, from, to) && k <= l < |cuts|
    ensures from <= cuts[k].a <= cuts[k].b <= to
    ensures k < l ==> cuts[k].b <= cuts[l].a && (cuts[k].a == cuts[k].b ==> cuts[k].b < cuts[l].a)
  {
    if k == 0 {
      if l > 0 {
        CutsApart(cuts[1..], Onward(cuts[0]), to, 0, l - 1);
      }
    } else {
      CutsApart(cuts[1..], Onward(cuts[0]), to, k - 1, l - 1);
    }
  }

  lemma {:induction false} CutsInOrder(p: Prog, inp: string, at: nat, cap: nat)
    requires FromPattern(p)
    ensures InOrder(Cuts(p, inp, at, cap), at, |inp|)
    decreases |inp| + 1 - at
  {
    if at <= |inp| {
      FoundInside(p, inp, at, cap);
      var f := Found(p, inp, at, cap);
      if f.Some? {
        var m := SpanOf(f.value);
        CutsInOrder(p, inp, Onward(m), cap);
        assert Cuts(p, inp, at, cap)[1..] == Cuts(p, inp, Onward(m), cap);
      }
    }
  }

  /** The first cut is what the search finds, and each further one what it finds from the end of the last, one on after an empty one. */
  lemma {:induction false} CutsFollow(p: Prog, inp: string, at: nat, cap: nat, k: nat)
    requires FromPattern(p) && at <= |inp| && k <= |Cuts(p, inp, at, cap)|
    ensures var cuts := Cuts(p, inp, at, cap);
      var from := if k == 0 then at else if cuts[k - 1].b > cuts[k - 1].a then cuts[k - 1].b else cuts[k - 1].a + 1;
      var f := Found(p, inp, from, cap);
      if k < |cuts| then f.Some? && f.value[0] == cuts[k].a && f.value[1] == cuts[k].b else from > |inp| || f.None?
    decreases k
  {
    CutsStep(p, inp, at, cap);
    var cuts := Cuts(p, inp, at, cap);
    if k > 0 {
      var next := Onward(cuts[0]);
      if next <= |inp| {
        CutsFollow(p, inp, next, cap, k - 1);
      } else {
        assert cuts[1..] == [];
      }
    }
  }

  /** One turn of the loops below: either no cut is left, or the search finds the first one. */
  lemma CutsStep(p: Prog, inp: string, at: nat, cap: nat)
    requires FromPattern(p) && at <= |inp|
    ensures InOrder(Cuts(p, inp, at, cap), at, |inp|)
    ensures var f, cuts := Found(p, inp, at, cap), Cuts(p, inp, at, cap);
            if f.None? then cuts == []
            else
              && at <= f.value[0] <= f.value[1] <= |inp| && cuts != [] && cuts[0] == SpanOf(f.value)
              && cuts[1..] == Cuts(p, inp, Onward(cuts[0]), cap)
  {
    FoundInside(p, inp, at, cap);
    CutsInOrder(p, inp, at, cap);
  }

  function Text(inp: string, m: Span): string
    requires m.a <= m.b <= |inp|
  {
    inp[m.a..m.b]
  }

  /** The texts of the cuts. */
  function Texts(inp: string, cuts: seq<Span>, last: nat): (r: seq<string>)
    requires InOrder(cuts, last, |inp|)
    ensures |r| == |cuts|
  {
    if cuts == [] then [] else [Text(inp, cuts[0])] + Texts(inp, cuts[1..], Onward(cuts[0]))
  }

  /** What lies between the cuts, from `last` to the end; they are in order from `from` on. */
  function Gaps(inp: string, cuts: seq<Span>, last: nat, from: nat): (r: seq<string>)
    requires last <= |inp| && last <= from && InOrder(cuts, from, |inp|)
    ensures |r| == |cuts| + 1
    decreases |cuts|
  {
    if cuts == [] then [inp[last..]]
    else [inp[last..cuts[0].a]] + Gaps(inp, cuts[1..], cuts[0].b, Onward(cuts[0]))
  }

  /** The text of each cut is the input from its start to its end. */
  lemma {:induction false} TextAt(inp: string, cuts: seq<Span>, from: nat, k: nat)
    requires InOrder(cuts, from, |inp|) && k < |cuts|
    ensures cuts[k].a <= cuts[k].b <= |inp| && Texts(inp, cuts, from)[k] == inp[cuts[k].a..cuts[k].b]
    decreases k
  {
    if k > 0 { TextAt(inp, cuts[1..], Onward(cuts[0]), k - 1); }
  }

  /** Each gap is the input from the end of one cut, or `last`, to the start of the next, or the end. */
  lemma {:induction false} GapAt(inp: string, cuts: seq<Span>, last: nat, from: nat, k: nat)
    requires last <= |inp| && last <= from && InOrder(cuts, from, |inp|) && k <= |cuts|
    ensures var a, b := if k == 0 then last else cuts[k - 1].b, if k == |cuts| then |inp| else cuts[k].a;
      a <= b <= |inp| && Gaps(inp, cuts, last, from)[k] == inp[a..b]
    decreases k
  {
    if k > 0 { GapAt(inp, cuts[1..], cuts[0].b, Onward(cuts[0]), k - 1); }
  }

  /** `gaps[0] seps[0] gaps[1] seps[1] ... gaps[n]` */
  function Weave(gaps: seq<string>, seps: seq<string>): string
    requires |gaps| == |seps| + 1
  {
    if seps == [] then gaps[0] else gaps[0] + seps[0] + Weave(gaps[1..], seps[1..])
  }

  /** Gaps and matches together are the input: nothing is lost and nothing is doubled. */
  lemma {:induction false} Conserved(inp: string, cuts: seq<Span>, last: nat, from: nat)
    requires last <= |inp| && last <= from && InOrder(cuts, from, |inp|)
    ensures Weave(Gaps(inp, cuts, last, from), Texts(inp, cuts, from)) == inp[last..]
    decreases |cuts|
  {
    if cuts != [] {
      var a, b := cuts[0].a, cuts[0].b;
      Conserved(inp, cuts[1..], b, Onward(cuts[0]));
      WeaveStep([inp[last..a]], Gaps(inp, cuts[1..], b, Onward(cuts[0])), inp[a..b], Texts(inp, cuts[1..], Onward(cuts[0])));
      assert inp[last..] == inp[last..a] + inp[a..b] + inp[b..];
    }
  }

  lemma WeaveStep(first: seq<string>, gaps: seq<string>, sep: string, seps: seq<string>)
    requires |first| == 1 && |gaps| == |seps| + 1
    ensures Weave(first + gaps, [sep] + seps) == first[0] + sep + Weave(gaps, seps)
  {
    assert (first + gaps)[1..] == gaps && ([sep] + seps)[1..] == seps;
  }

  function Copies(x: string, n: nat): (r: seq<string>)
    ensures |r| == n && forall k :: 0 <= k < n ==> r[k] == x
  {
    if n == 0 then [] else [x] + Copies(x, n - 1)
  }

  /** The cuts that are not empty. */
  function Solid(cuts: seq<Span>): (r: seq<Span>)
    ensures |r| <= |cuts|
  {
    if cuts == [] then []
    else if cuts[0].b == cuts[0].a then Solid(cuts[1..])
    else [cuts[0]] + Solid(cuts[1..])
  }

  lemma {:induction false} SolidInOrder(cuts: seq<Span>, from: nat, to: nat)
    requires InOrder(cuts, from, to)
    ensures InOrder(Solid(cuts), from, to)
    ensures forall m :: m in Solid(cuts) <==> m in cuts && m.a < m.b
  {
    if cuts != [] {
      var next := Onward(cuts[0]);
      SolidInOrder(cuts[1..], next, to);
      if cuts[0].b == cuts[0].a {
        FromEarlier(Solid(cuts[1..]), from, next, to);
      } else {
        assert Solid(cuts)[1..] == Solid(cuts[1..]);
      }
    }
  }

  method FindAll(p: Prog, chars: string, cap: nat) returns (out: seq<string>)
    requires FromPattern(p)
    ensures var cuts := Cuts(p, chars, 0, cap); InOrder(cuts, 0, |chars|) && out == Texts(chars, cuts, 0)
  {
    out := [];
    var at: nat := 0;
    CutsInOrder(p, chars, 0, cap);
    ghost var cuts := Cuts(p, chars, 0, cap);
    ghost var goal := Texts(chars, cuts, 0);
    while at <= |chars|
      invariant cuts == Cuts(p, chars, at, cap) && InOrder(cuts, at, |chars|)
      invariant out + Texts(chars, cuts, at) == goal
      decreases |chars| + 1 - at
    {
      CutsStep(p, chars, at, cap);
      var s := SearchFrom(p, chars, at, cap);
      if s.None? { break; }
      var a, b := s.value[0], s.value[1];
      TextsStep(out, chars, cuts, at);
      out := out + [chars[a..b]];
      at := if b > a then b else b + 1;
      cuts := cuts[1..];
    }
    assert cuts == [];
  }

  lemma TextsStep(out: seq<string>, chars: string, cuts: seq<Span>, at: nat)
    requires InOrder(cuts, at, |chars|) && cuts != []
    ensures out + [Text(chars, cuts[0])] + Texts(chars, cuts[1..], Onward(cuts[0])) == out + Texts(chars, cuts, at)
  {
  }

  /** What `replace` still has to write. */
  function Woven(chars: string, cuts: seq<Span>, last: nat, from: nat, repl: string): string
    requires last <= |chars| && last <= from && InOrder(cuts, from, |chars|)
  {
    Weave(Gaps(chars, cuts, last, from), Copies(repl, |cuts|))
  }

  /** One turn of `replace`: what it writes for the first cut is what was still to be written first. */
  lemma WovenStep(out: string, chars: string, cuts: seq<Span>, last: nat, from: nat, repl: string)
    requires last <= |chars| && last <= from && InOrder(cuts, from, |chars|) && cuts != []
    ensures out + chars[last..cuts[0].a] + repl + Woven(chars, cuts[1..], cuts[0].b, Onward(cuts[0]), repl) ==
            out + Woven(chars, cuts, last, from, repl)
  {
    WovenCons(chars, cuts, last, from, repl);
    Regroup(out, chars[last..cuts[0].a], repl, Woven(chars, cuts[1..], cuts[0].b, Onward(cuts[0]), repl));
  }

  lemma WovenCons(chars: string, cuts: seq<Span>, last: nat, from: nat, repl: string)
    requires last <= |chars| && last <= from && InOrder(cuts, from, |chars|) && cuts != []
    ensures Woven(chars, cuts, last, from, repl) ==
      chars[last..cuts[0].a] + repl + Woven(chars, cuts[1..], cuts[0].b, Onward(cuts[0]), repl)
  {
    var rest := Gaps(chars, cuts[1..], cuts[0].b, Onward(cuts[0]));
    WeaveStep([chars[last..cuts[0].a]], rest, repl, Copies(repl, |cuts| - 1));
  }

  lemma Regroup(a: string, b: string, c: string, d: string)
    ensures a + b + c + d == a + (b + c + d)
  {
  }

  method Replace(p: Prog, chars: string, repl: string, cap: nat) returns (out: string)
    requires FromPattern(p)
    ensures var cuts := Cuts(p, chars, 0, cap);
            InOrder(cuts, 0, |chars|) && out == Weave(Gaps(chars, cuts, 0, 0), Copies(repl, |cuts|))
  {
    out := "";
    var at: nat, last: nat := 0, 0;
    CutsInOrder(p, chars, 0, cap);
    ghost var cuts := Cuts(p, chars, 0, cap);
    ghost var goal := Woven(chars, cuts, 0, 0, repl);
    while at <= |chars|
      invariant last <= at && last <= |chars|
      invariant cuts == Cuts(p, chars, at, cap) && InOrder(cuts, at, |chars|)
      invariant out + Woven(chars, cuts, last, at, repl) == goal
      decreases |chars| + 1 - at
    {
      CutsStep(p, chars, at, cap);
      var s := SearchFrom(p, chars, at, cap);
      if s.None? { break; }
      var a, b := s.value[0], s.value[1];
      WovenStep(out, chars, cuts, last, at, repl);
      out := out + chars[last..a];
      out := out + repl;
      last := b;
      at := if b > a then b else b + 1;
      cuts := cuts[1..];
    }
    assert cuts == [];
    out := out + chars[(if last < |chars| then last else |chars|)..];
  }

  method SplitRe(p: Prog, chars: string, cap: nat) returns (out: seq<string>)
    requires FromPattern(p)
    ensures var cuts := Solid(Cuts(p, chars, 0, cap)); InOrder(cuts, 0, |chars|) && out == Gaps(chars, cuts, 0, 0)
  {
    out := [];
    var at: nat, last: nat := 0, 0;
    CutsInOrder(p, chars, 0, cap);
    SolidInOrder(Cuts(p, chars, 0, cap), 0, |chars|);
    ghost var goal := Gaps(chars, Solid(Cuts(p, chars, 0, cap)), 0, 0);
    while at <= |chars|
      invariant Splitting(p, chars, cap, at, last, out, goal)
      decreases |chars| + 1 - at
    {
      SplitMoves(p, chars, cap, at, last, out, goal);
      var s := SearchFrom(p, chars, at, cap);
      if s.None? { break; }
      var a, b := s.value[0], s.value[1];
      if b == a {
        at := a + 1;
        continue;
      }
      out := out + [chars[last..a]];
      last := b;
      at := b;
    }
    assert Cuts(p, chars, at, cap) == [];
    out := out + [chars[last..]];
  }

  /** What `out` still lacks are the gaps from `last` on, between the matches from `at` on. */
  ghost predicate Splitting(p: Prog, chars: string, cap: nat, at: nat, last: nat, out: seq<string>, goal: seq<string>)
    requires FromPattern(p)
  {
    last <= at && last <= |chars| &&
    var cuts := Solid(Cuts(p, chars, at, cap));
    InOrder(cuts, at, |chars|) && out + Gaps(chars, cuts, last, at) == goal
  }

  lemma SplitMoves(p: Prog, chars: string, cap: nat, at: nat, last: nat, out: seq<string>, goal: seq<string>)
    requires FromPattern(p) && at <= |chars| && Splitting(p, chars, cap, at, last, out, goal)
    ensures var f := Found(p, chars, at, cap);
      if f.None? then Cuts(p, chars, at, cap) == []
      else
        var a, b := f.value[0], f.value[1];
        at <= a <= b <= |chars| &&
        if a == b then Splitting(p, chars, cap, a + 1, last, out, goal)
        else Splitting(p, chars, cap, b, b, out + [chars[last..a]], goal)
  {
    CutsStep(p, chars, at, cap);
    var cuts := Cuts(p, chars, at, cap);
    if cuts != [] {
      SolidStep(chars, cuts, last, at);
      var rest := Solid(cuts[1..]);
      if cuts[0].a != cuts[0].b {
        var gap := chars[last..cuts[0].a];
        assert out + ([gap] + Gaps(chars, rest, cuts[0].b, Onward(cuts[0]))) == (out + [gap]) + Gaps(chars, rest, cuts[0].b, Onward(cuts[0]));
      }
    }
  }

  lemma SolidStep(chars: string, cuts: seq<Span>, last: nat, from: nat)
    requires last <= |chars| && last <= from && InOrder(cuts, from, |chars|) && cuts != []
    requires InOrder(Solid(cuts), from, |chars|)
    ensures var c, next, rest := cuts[0], Onward(cuts[0]), Solid(cuts[1..]);
            && InOrder(rest, next, |chars|)
            && Gaps(chars, Solid(cuts), last, from) ==
               if c.b == c.a then Gaps(chars, rest, last, next) else [chars[last..c.a]] + Gaps(chars, rest, c.b, next)
  {
    SolidInOrder(cuts[1..], Onward(cuts[0]), |chars|);
    if cuts[0].b != cuts[0].a {
      assert Solid(cuts)[1..] == Solid(cuts[1..]);
    }
  }

  /** `split_re` cuts only at matches that are not empty, and its pieces with those matches between them are the input. */
  lemma SplitConserves(p: Prog, chars: string, cap: nat)
    requires FromPattern(p)
    ensures var cuts := Solid(Cuts(p, chars, 0, cap));
            && InOrder(cuts, 0, |chars|)
            && (forall m :: m in cuts <==> m in Cuts(p, chars, 0, cap) && m.a < m.b)
            && Weave(Gaps(chars, cuts, 0, 0), Texts(chars, cuts, 0)) == chars
  {
    CutsInOrder(p, chars, 0, cap);
    SolidInOrder(Cuts(p, chars, 0, cap), 0, |chars|);
    Conserved(chars, Solid(Cuts(p, chars, 0, cap)), 0, 0);
    assert chars[0..] == chars;
  }

  /** `replace` keeps what is between the matches: with the matched texts instead of the replacement it is the input. */
  lemma ReplaceConserves(p: Prog, chars: string, cap: nat)
    requires FromPattern(p)
    ensures var cuts := Cuts(p, chars, 0, cap);
            InOrder(cuts, 0, |chars|) && Weave(Gaps(chars, cuts, 0, 0), Texts(chars, cuts, 0)) == chars
  {
    CutsInOrder(p, chars, 0, cap);
    Conserved(chars, Cuts(p, chars, 0, cap), 0, 0);
    assert chars[0..] == chars;
  }

  /** The starts that are passed over on the way from `from` to the first of the cuts. */
  function FirstStart(inp: string, cuts: seq<Span>): int {
    if cuts == [] then |inp| + 1 else cuts[0].a
  }

  /** Each cut is a match, and a match is passed over on the way only where the search from its start was cut off. */
  ghost predicate PassesOverBusy(t: Re, p: Prog, inp: string, cuts: seq<Span>, from: nat, cap: nat)
    requires Runnable(p)
    decreases |cuts|
  {
    MissesNone(t, p, inp, from, FirstStart(inp, cuts), cap) &&
    (cuts != [] ==> Matches(t, inp, cuts[0].a, cuts[0].b) && PassesOverBusy(t, p, inp, cuts[1..], Onward(cuts[0]), cap))
  }

  /** For every pattern and every cap, the drivers miss a match only where the cap cut the search off. */
  lemma {:induction false} CutsExhaustive(src: string, t: Re, p: Prog, inp: string, at: nat, cap: nat)
    requires FromPattern(p) && Compiles(src, t, p)
    ensures Runnable(p) && PassesOverBusy(t, p, inp, Cuts(p, inp, at, cap), at, cap)
    decreases |inp| + 1 - at
  {
    SearchIsLeftmost(src, t, p, inp, at, cap);
    if at <= |inp| {
      var f := Found(p, inp, at, cap);
      CutsStep(p, inp, at, cap);
      if f.Some? {
        BestIsMatch(src, t, p, inp, f.value[0], f.value);
        CutsExhaustive(src, t, p, inp, Onward(Cuts(p, inp, at, cap)[0]), cap);
      }
    }
  }

  ghost predicate InTimeFrom(t: Re, inp: string, start: nat)
    requires SlotsOk(t)
  {
    exists w, s :: ReadsInTime(t, inp, start, w, s)
  }

  /** Each cut begins at the first start from which the pattern is read in time. */
  ghost predicate CutsInTime(t: Re, inp: string, cuts: seq<Span>, from: nat)
    requires SlotsOk(t)
    decreases |cuts|
  {
    (forall a: nat :: from <= a < FirstStart(inp, cuts) ==> !InTimeFrom(t, inp, a)) &&
    (cuts != [] ==> InTimeFrom(t, inp, cuts[0].a) && CutsInTime(t, inp, cuts[1..], Onward(cuts[0])))
  }

  lemma EnoughFromLater(t: Re, inp: string, start: nat)
    ensures EnoughSteps(t, inp, start) <= EnoughSteps(t, inp, 0)
  {
    var b, b0 := Bound(Whole(t), Left(inp, start)), Bound(Whole(t), Left(inp, 0));
    BoundMonotone(Whole(t), Left(inp, start), Left(inp, 0));
    Pow2Monotone(b + 1, b0 + 1);
  }

  /** With steps enough for the pattern and the input, the cuts are exactly at the first starts that are read in time. */
  lemma {:induction false} CutsExact(src: string, t: Re, p: Prog, inp: string, at: nat, cap: nat)
    requires FromPattern(p) && Compiles(src, t, p) && cap >= EnoughSteps(t, inp, 0)
    ensures SlotsOk(t) && CutsInTime(t, inp, Cuts(p, inp, at, cap), at)
    decreases |inp| + 1 - at
  {
    CompiledIsLoaded(src, t, p);
    forall a: nat ensures Matched(p, inp, a, cap).Some? <==> InTimeFrom(t, inp, a) {
      EnoughFromLater(t, inp, a);
      PatternFoundIff(src, t, p, inp, a, cap);
    }
    var first := FoundIsFirst(p, inp, at, cap);
    MatchAtIsRight(src, t, p, inp, first, cap);
    if at <= |inp| {
      var f := Found(p, inp, at, cap);
      CutsStep(p, inp, at, cap);
      if f.Some? {
        BestIsMatch(src, t, p, inp, first, f.value);
        CutsExact(src, t, p, inp, Onward(Cuts(p, inp, at, cap)[0]), cap);
      }
    }
  }

  /** `cuts` are all matches a reader finds from `from` on: none starts before the first cut, and so on behind it. */
  ghost predicate Exhaustive(t: Re, inp: string, cuts: seq<Span>, from: nat)
    decreases |cuts|
  {
    (forall a: nat, j: nat :: from <= a < FirstStart(inp, cuts) ==> !Matches(t, inp, a, j)) &&
    (cuts != [] ==> Matches(t, inp, cuts[0].a, cuts[0].b) && Exhaustive(t, inp, cuts[1..], Onward(cuts[0])))
  }

  lemma {:induction false} NoneBusyIsExhaustive(t: Re, p: Prog, inp: string, cuts: seq<Span>, from: nat, cap: nat)
    requires Loaded(p, t) && Safe(t) && cap >= EnoughSteps(t, inp, 0)
    requires PassesOverBusy(t, p, inp, cuts, from, cap)
    ensures Exhaustive(t, inp, cuts, from)
    decreases |cuts|
  {
    forall a: nat, j: nat | from <= a < FirstStart(inp, cuts) ensures !Matches(t, inp, a, j) {
      SafeSearchEnds(t, p, inp, a, cap);
    }
    if cuts != [] { NoneBusyIsExhaustive(t, p, inp, cuts[1..], Onward(cuts[0]), cap); }
  }

  /** With enough steps, the drivers see every match of a safe pattern that does not overlap an earlier one. */
  lemma SafeCutsExhaustive(src: string, t: Re, p: Prog, inp: string, at: nat, cap: nat)
    requires FromPattern(p) && Compiles(src, t, p) && Safe(t)
    requires cap >= EnoughSteps(t, inp, 0)
    ensures Exhaustive(t, inp, Cuts(p, inp, at, cap), at)
  {
    CompiledIsLoaded(src, t, p);
    CutsExhaustive(src, t, p, inp, at, cap);
    NoneBusyIsExhaustive(t, p, inp, Cuts(p, inp, at, cap), at, cap);
  }
}
