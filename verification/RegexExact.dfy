/** Exactly when a match is found (micai/src/regex.rs): no run ahead of it comes back to where it was. */
module RegexExact {
  import opened RegexSyntax
  import opened RegexMeaning
  import opened RegexCompiler
  import opened RegexMachine
  import opened RegexSearch
  import opened RegexCorrect
  import opened RegexTheorems
  import opened RegexSpin

  /** `q` is tried no later than `w`. */
  ghost predicate Ahead(q: seq<bool>, w: seq<bool>) {
    q <= w || Before(q, w)
  }

  /** Captures apart, one thread is like the other. */
  predicate SamePlace(a: Thread, b: Thread) {
    a.pc == b.pc && a.sp == b.sp
  }

  /** After the choices `u`, the choices `v` lead back to the same instruction at the same position of the input. */
  ghost predicate Loops(p: Prog, inp: string, root: Thread, u: seq<bool>, v: seq<bool>)
    requires Runnable(p) && root.pc < |p.insts|
  {
    exists n: nat, a, m: nat, b :: LoopsAt(p, inp, root, u, v, n, a, m, b)
  }

  ghost predicate LoopsAt(p: Prog, inp: string, root: Thread, u: seq<bool>, v: seq<bool>, n: nat, a: Thread, m: nat, b: Thread)
    requires Runnable(p) && root.pc < |p.insts|
  {
    Leads(p, inp, root, u, n, a) && m > 0 && a.pc < |p.insts| && Leads(p, inp, a, v, m, b) && SamePlace(a, b)
  }

  ghost predicate NoLoopAhead(p: Prog, inp: string, root: Thread, w: seq<bool>)
    requires Runnable(p) && root.pc < |p.insts|
  {
    forall u, v :: Ahead(u + v, w) ==> !Loops(p, inp, root, u, v)
  }

  // ---- runs

  /** Captures do not steer a run. */
  lemma {:induction false} SameSteer(p: Prog, inp: string, a: Thread, b: Thread, w: seq<bool>, n: nat)
    requires Runnable(p) && a.pc < |p.insts| && SamePlace(a, b)
    requires Drive(p, inp, a, w, n).At?
    ensures var x, y := Drive(p, inp, a, w, n), Drive(p, inp, b, w, n);
      y.At? && SamePlace(x.th, y.th) && x.rest == y.rest
    decreases n
  {
    if n > 0 {
      match StepOf(p, inp, a)
      case Goes(t) => SameSteer(p, inp, t, StepOf(p, inp, b).next, w, n - 1);
      case Forks(s, t) =>
        var f := StepOf(p, inp, b);
        SameSteer(p, inp, if w[0] then t else s, if w[0] then f.second else f.first, w[1..], n - 1);
    }
  }

  /** A run does not look at choices behind those it uses. */
  lemma {:induction false} DriveUses(p: Prog, inp: string, th: Thread, w: seq<bool>, n: nat)
    requires Runnable(p) && th.pc < |p.insts| && Drive(p, inp, th, w, n).At?
    ensures var a := Drive(p, inp, th, w, n);
      w == Used(w, a.rest) + a.rest && Leads(p, inp, th, Used(w, a.rest), n, a.th)
    decreases n
  {
    if n > 0 {
      match StepOf(p, inp, th)
      case Goes(t) => DriveUses(p, inp, t, w, n - 1);
      case Forks(s, t) =>
        var next := if w[0] then t else s;
        DriveUses(p, inp, next, w[1..], n - 1);
        var rest := Drive(p, inp, next, w[1..], n - 1).rest;
        UsedFirst(w, rest, []);
        assert Used(w, rest) + [] == Used(w, rest) && Used(w[1..], rest) + [] == Used(w[1..], rest);
    }
  }

  /** One run after another. */
  lemma LeadsOn(p: Prog, inp: string, root: Thread, u: seq<bool>, n: nat, a: Thread, v: seq<bool>, m: nat, b: Thread)
    requires Runnable(p) && root.pc < |p.insts| && Leads(p, inp, root, u, n, a)
    requires a.pc < |p.insts| && Leads(p, inp, a, v, m, b)
    ensures Leads(p, inp, root, u + v, n + m, b)
  {
    DriveExtends(p, inp, root, u, v, n);
    assert [] + v == v;
    DriveOn(p, inp, root, u + v, n, m);
  }

  /** What a run does after one that its choices begin with. */
  lemma LeadsPast(p: Prog, inp: string, root: Thread, u: seq<bool>, n: nat, a: Thread, z: seq<bool>, d: nat, th: Thread)
    requires Runnable(p) && root.pc < |p.insts| && Leads(p, inp, root, u, n, a)
    requires u <= z && n <= d && Leads(p, inp, root, z, d, th)
    ensures a.pc < |p.insts| && Leads(p, inp, a, z[|u|..], d - n, th)
  {
    var x := z[|u|..];
    assert u + x == z && [] + x == x;
    DriveExtends(p, inp, root, u, x, n);
    DriveOn(p, inp, root, z, n, d - n);
  }

  // ---- a found match is ahead of every long run

  /** Every run longer than `t` steps is tried after `w`. */
  ghost predicate LongRunsLater(p: Prog, inp: string, root: Thread, w: seq<bool>, t: nat)
    requires Runnable(p) && root.pc < |p.insts|
  {
    forall z, d: nat, th :: Leads(p, inp, root, z, d, th) && d > t ==> Before(w, z)
  }

  /** After `t` steps of the search: no node is deeper, and each longer run goes through one of them. */
  ghost predicate OnLongRuns(p: Prog, inp: string, root: Thread, ns: seq<Node>, t: nat)
    requires Runnable(p) && root.pc < |p.insts|
  {
    (forall k :: 0 <= k < |ns| ==> ns[k].depth <= t) &&
    (forall z, d: nat, th :: Leads(p, inp, root, z, d, th) && d > t ==> SomeBegins(ns, z))
  }

  /** A longer run through a node goes on through one of the node's children. */
  lemma LongThroughChild(p: Prog, inp: string, root: Thread, nd: Node, z: seq<bool>, d: nat, th: Thread)
    requires Runnable(p) && root.pc < |p.insts| && Leads(p, inp, root, nd.word, nd.depth, nd.th)
    requires Leads(p, inp, root, z, d, th) && nd.word <= z && nd.depth < d
    ensures var s := StepOf(p, inp, nd.th); s.Goes? || (s.Forks? && (nd.word + [true] <= z || nd.word + [false] <= z))
  {
    LeadsPast(p, inp, root, nd.word, nd.depth, nd.th, z, d, th);
    var x := z[|nd.word|..];
    if StepOf(p, inp, nd.th).Forks? {
      assert x != [] && z[..|nd.word| + 1] == nd.word + [x[0]];
    }
  }

  ghost predicate SomeBegins(ns: seq<Node>, z: seq<bool>) {
    exists k :: 0 <= k < |ns| && ns[k].word <= z
  }

  lemma NextOnLongRun(p: Prog, inp: string, root: Thread, ns: seq<Node>, z: seq<bool>, d: nat, th: Thread)
    requires Runnable(p) && root.pc < |p.insts| && ns != []
    requires var nd := ns[|ns| - 1]; Leads(p, inp, root, nd.word, nd.depth, nd.th) && nd.depth < d
    requires Leads(p, inp, root, z, d, th) && SomeBegins(ns, z)
    ensures SomeBegins(NextNodes(p, inp, ns), z)
  {
    var ns', last := NextNodes(p, inp, ns), |ns| - 1;
    var k :| 0 <= k < |ns| && ns[k].word <= z;
    if k == last {
      LongThroughChild(p, inp, root, ns[last], z, d, th);
      if StepOf(p, inp, ns[last].th).Forks? && ns[last].word + [false] <= z { k := last + 1; }
    }
    assert ns'[k].word <= z;
  }

  lemma NextOnLongRuns(p: Prog, inp: string, root: Thread, ns: seq<Node>, t: nat)
    requires Runnable(p) && root.pc < |p.insts| && ns != [] && OnLongRuns(p, inp, root, ns, t)
    requires var nd := ns[|ns| - 1]; Leads(p, inp, root, nd.word, nd.depth, nd.th)
    ensures OnLongRuns(p, inp, root, NextNodes(p, inp, ns), t + 1)
  {
    assert ns[|ns| - 1].depth <= t;
    forall z, d: nat, th | Leads(p, inp, root, z, d, th) && d > t + 1 ensures SomeBegins(NextNodes(p, inp, ns), z) {
      NextOnLongRun(p, inp, root, ns, z, d, th);
    }
  }

  lemma AcceptedBeforeLongRuns(p: Prog, inp: string, root: Thread, ns: seq<Node>, t: nat)
    requires Runnable(p) && root.pc < |p.insts| && ns != [] && Frontier(p, inp, root, ns)
    requires OnLongRuns(p, inp, root, ns, t) && StepOf(p, inp, ns[|ns| - 1].th).Accepts?
    ensures LongRunsLater(p, inp, root, ns[|ns| - 1].word, t)
  {
    var last := |ns| - 1;
    forall z, d: nat, th | Leads(p, inp, root, z, d, th) && d > t ensures Before(ns[last].word, z) {
      var k :| 0 <= k < |ns| && ns[k].word <= z;
      if k == last {
        LongThroughChild(p, inp, root, ns[last], z, d, th);
        assert false;
      } else {
        BeforeLonger(ns[last].word, ns[k].word, z);
      }
    }
  }

  /** `s` are the captures of a run that is preferred to all that accept and to all that are too long. */
  ghost predicate BeforeLong(p: Prog, inp: string, root: Thread, s: Saves)
    requires Runnable(p) && root.pc < |p.insts|
  {
    exists w, t: nat :: Preferred(p, inp, root, w, s) && LongRunsLater(p, inp, root, w, t)
  }

  /** What holds of the open nodes after `t` steps of the search. */
  ghost predicate Tracked(p: Prog, inp: string, root: Thread, ns: seq<Node>, t: nat)
    requires Runnable(p) && root.pc < |p.insts|
  {
    Frontier(p, inp, root, ns) && OnLongRuns(p, inp, root, ns, t)
  }

  lemma NextTracked(p: Prog, inp: string, root: Thread, ns: seq<Node>, t: nat)
    requires Runnable(p) && root.pc < |p.insts| && ns != [] && Tracked(p, inp, root, ns, t)
    ensures Tracked(p, inp, root, NextNodes(p, inp, ns), t + 1)
  {
    NextFrontier(p, inp, root, ns);
    NextOnLongRuns(p, inp, root, ns, t);
  }

  lemma WonIsBeforeLong(p: Prog, inp: string, root: Thread, ns: seq<Node>, t: nat, fuel: nat)
    requires Runnable(p) && root.pc < |p.insts| && ns != [] && Tracked(p, inp, root, ns, t)
    requires InProgram(p, SearchOf(ns)) && StepOf(p, inp, ns[|ns| - 1].th).Accepts? && fuel > 0
    ensures Run(p, inp, SearchOf(ns), fuel) == Won(ns[|ns| - 1].th.saves) && BeforeLong(p, inp, root, ns[|ns| - 1].th.saves)
  {
    AcceptedIsPreferred(p, inp, root, ns);
    AcceptedBeforeLongRuns(p, inp, root, ns, t);
    assert Run(p, inp, SearchOf(ns), fuel) == Run(p, inp, Won(ns[|ns| - 1].th.saves), fuel - 1);
  }

  lemma {:induction false} RunTracked(p: Prog, inp: string, root: Thread, ns: seq<Node>, t: nat, fuel: nat, s: Saves)
    requires Runnable(p) && root.pc < |p.insts| && InProgram(p, SearchOf(ns)) && Tracked(p, inp, root, ns, t)
    requires Run(p, inp, SearchOf(ns), fuel) == Won(s)
    ensures BeforeLong(p, inp, root, s)
    decreases fuel
  {
    if ns == [] || fuel == 0 {
      NotWonYet(p, inp, ns, fuel);
    } else if StepOf(p, inp, ns[|ns| - 1].th).Accepts? {
      WonIsBeforeLong(p, inp, root, ns, t, fuel);
    } else {
      StepTracked(p, inp, root, ns, t, fuel);
      RunTracked(p, inp, root, NextNodes(p, inp, ns), t + 1, fuel - 1, s);
    }
  }

  lemma NotWonYet(p: Prog, inp: string, ns: seq<Node>, fuel: nat)
    requires Runnable(p) && InProgram(p, SearchOf(ns)) && (ns == [] || fuel == 0)
    ensures !Run(p, inp, SearchOf(ns), fuel).Won?
  {
  }

  lemma StepTracked(p: Prog, inp: string, root: Thread, ns: seq<Node>, t: nat, fuel: nat)
    requires Runnable(p) && root.pc < |p.insts| && ns != [] && fuel > 0 && InProgram(p, SearchOf(ns))
    requires Tracked(p, inp, root, ns, t) && !StepOf(p, inp, ns[|ns| - 1].th).Accepts?
    ensures InProgram(p, SearchOf(NextNodes(p, inp, ns))) && Tracked(p, inp, root, NextNodes(p, inp, ns), t + 1)
    ensures Run(p, inp, SearchOf(ns), fuel) == Run(p, inp, SearchOf(NextNodes(p, inp, ns)), fuel - 1)
  {
    RunNext(p, inp, ns, fuel);
    NextTracked(p, inp, root, ns, t);
  }

  lemma StartTracked(p: Prog, inp: string, start: nat)
    requires Runnable(p)
    ensures var root := Thread(0, start, NoSaves);
      Tracked(p, inp, root, [Node(root, [], 0)], 0) && StartAt(start) == SearchOf([Node(root, [], 0)])
  {
    var root := Thread(0, start, NoSaves);
    var ns := [Node(root, [], 0)];
    StartFrontier(p, inp, root);
    assert ns[0].word == [];
    assert forall z, d: nat, th :: Leads(p, inp, root, z, d, th) ==> ns[0].word <= z;
    assert ns[..0] == [];
  }

  // ---- so no loop is ahead of it

  function Rounds(v: seq<bool>, i: nat): seq<bool> {
    if i == 0 then [] else v + Rounds(v, i - 1)
  }

  /** Going round a loop again and again. */
  lemma {:induction false} Pump(p: Prog, inp: string, a: Thread, v: seq<bool>, m: nat, b: Thread, i: nat) returns (e: Thread)
    requires Runnable(p) && a.pc < |p.insts| && Leads(p, inp, a, v, m, b) && SamePlace(a, b)
    ensures Leads(p, inp, a, Rounds(v, i), i * m, e)
    decreases i
  {
    if i == 0 {
      e := a;
    } else {
      var c := Pump(p, inp, a, v, m, b, i - 1);
      var z := Rounds(v, i - 1);
      SameSteer(p, inp, a, b, z, (i - 1) * m);
      e := Drive(p, inp, b, z, (i - 1) * m).th;
      LeadsOn(p, inp, a, v, m, b, z, (i - 1) * m, e);
      assert m + (i - 1) * m == i * m;
    }
  }

  lemma {:induction false} RoundsRepeat(v: seq<bool>, i: nat, j: nat)
    requires |v| <= j < |Rounds(v, i)|
    ensures Rounds(v, i)[j] == Rounds(v, i)[j - |v|]
    decreases i
  {
    var y := Rounds(v, i - 1);
    if j >= 2 * |v| {
      RoundsRepeat(v, i - 1, j - |v|);
    } else if i > 1 {
      assert Rounds(v, i)[j] == y[j - |v|];
    }
  }

  /** If `x` is tried before many rounds of `v`, it is tried before one round of `v` and then `x`. */
  lemma BeforeRound(x: seq<bool>, v: seq<bool>, i: nat)
    requires Before(x, Rounds(v, i))
    ensures Before(x, v + x)
  {
    var y, z := Rounds(v, i), v + x;
    var k :| 0 <= k < |x| && k < |y| && x[..k] == y[..k] && !x[k] && y[k];
    assert i > 0 && y == v + Rounds(v, i - 1) && |v| > 0;
    forall j | 0 <= j <= k ensures z[j] == y[j] {
      if j >= |v| {
        RoundsRepeat(v, i, j);
        assert x[..k][j - |v|] == y[..k][j - |v|];
      }
    }
    forall j | 0 <= j < k ensures x[j] == z[j] { assert x[..k][j] == y[..k][j]; }
    assert x[..k] == z[..k];
  }

  /** An accepting run through a loop accepts without going round it, too. */
  lemma WithoutRound(p: Prog, inp: string, root: Thread, u: seq<bool>, v: seq<bool>, x: seq<bool>, s: Saves) returns (s': Saves)
    requires Runnable(p) && root.pc < |p.insts| && Loops(p, inp, root, u, v)
    requires Accepting(p, inp, root, (u + v) + x, s)
    ensures Accepting(p, inp, root, u + x, s')
  {
    var n: nat, a, m: nat, b :| LoopsAt(p, inp, root, u, v, n, a, m, b);
    LeadsOn(p, inp, root, u, n, a, v, m, b);
    var nd := Node(b, u + v, n + m);
    assert u + v <= (u + v) + x && ((u + v) + x)[|u + v|..] == x;
    var x', d, end := PastNode(p, inp, root, nd, (u + v) + x, s);
    assert x' == ((u + v) + x')[|u + v|..] == x;
    SameSteer(p, inp, b, a, x, d);
    var e := Drive(p, inp, a, x, d).th;
    LeadsOn(p, inp, root, u, n, a, x, d, e);
    s' := e.saves;
  }

  lemma BeforeStrip(u: seq<bool>, a: seq<bool>, b: seq<bool>)
    requires Before(u + a, u + b)
    ensures Before(a, b)
  {
    var c, d := u + a, u + b;
    var k :| 0 <= k < |c| && k < |d| && c[..k] == d[..k] && !c[k] && d[k];
    var h := k - |u|;
    assert h >= 0;
    assert a[..h] == c[..k][|u|..] && b[..h] == d[..k][|u|..];
  }

  lemma NoLoopBeforeWon(p: Prog, inp: string, root: Thread, w: seq<bool>, s: Saves, t: nat, u: seq<bool>, v: seq<bool>)
    requires Runnable(p) && root.pc < |p.insts|
    requires Preferred(p, inp, root, w, s) && LongRunsLater(p, inp, root, w, t) && Loops(p, inp, root, u, v)
    ensures !Ahead(u + v, w)
  {
    var i := LoopIsLater(p, inp, root, w, t, u, v);
    if Before(u + v, w) {
      BeforeExtends(u + v, w, Rounds(v, i), []);
      assert w + [] == w;
      BeforeOneWay((u + v) + Rounds(v, i), w);
    }
    if u + v <= w {
      assert w == (u + v) + w[|u + v|..];
      NoLoopInWon(p, inp, root, u, v, w[|u + v|..], s, i);
    }
  }

  /** Gone round often enough, a loop is tried after `w`. */
  lemma LoopIsLater(p: Prog, inp: string, root: Thread, w: seq<bool>, t: nat, u: seq<bool>, v: seq<bool>) returns (i: nat)
    requires Runnable(p) && root.pc < |p.insts| && LongRunsLater(p, inp, root, w, t) && Loops(p, inp, root, u, v)
    ensures Before(w, (u + v) + Rounds(v, i))
  {
    var n: nat, a, m: nat, b :| LoopsAt(p, inp, root, u, v, n, a, m, b);
    i := t + 1;
    var e := Pump(p, inp, a, v, m, b, i + 1);
    LeadsOn(p, inp, root, u, n, a, Rounds(v, i + 1), (i + 1) * m, e);
    LongEnough(i + 1, m, n, t);
    assert u + Rounds(v, i + 1) == (u + v) + Rounds(v, i);
  }

  /** The preferred run does not go round a loop that it could leave out. */
  lemma NoLoopInWon(p: Prog, inp: string, root: Thread, u: seq<bool>, v: seq<bool>, x: seq<bool>, s: Saves, i: nat)
    requires Runnable(p) && root.pc < |p.insts| && Loops(p, inp, root, u, v)
    requires Before((u + v) + x, (u + v) + Rounds(v, i))
    ensures !Preferred(p, inp, root, (u + v) + x, s)
  {
    if Preferred(p, inp, root, (u + v) + x, s) {
      BeforeStrip(u + v, x, Rounds(v, i));
      BeforeRound(x, v, i);
      var s' := WithoutRound(p, inp, root, u, v, x, s);
      BeforeBehind(u, x, v + x);
      assert u + (v + x) == (u + v) + x;
      BeforeOneWay(u + x, (u + v) + x);
    }
  }

  lemma LongEnough(i: nat, m: nat, n: nat, t: nat)
    requires i > t && m > 0
    ensures n + i * m > t
  {
    assert i * m >= i * 1;
  }

  // ---- runs that never come back are short

  /** How far the input can be read to. */
  function Reach(inp: string, start: nat): nat {
    if start > |inp| then start else |inp|
  }

  lemma {:induction false} StaysInReach(p: Prog, inp: string, th: Thread, w: seq<bool>, n: nat, r: nat)
    requires Runnable(p) && th.pc < |p.insts| && th.sp <= r && |inp| <= r && Drive(p, inp, th, w, n).At?
    ensures Drive(p, inp, th, w, n).th.sp <= r
    decreases n
  {
    if n > 0 {
      match StepOf(p, inp, th)
      case Goes(t) => StaysInReach(p, inp, t, w, n - 1, r);
      case Forks(s, t) => StaysInReach(p, inp, if w[0] then t else s, w[1..], n - 1, r);
    }
  }

  /** Numbers below `n`, all different, are no more than `n`. */
  lemma {:induction false} Pigeons(xs: seq<nat>, n: nat)
    requires forall i :: 0 <= i < |xs| ==> xs[i] < n
    requires forall i, j :: 0 <= i < j < |xs| ==> xs[i] != xs[j]
    ensures |xs| <= n
    decreases n
  {
    if xs != [] {
      assert xs[0] < n;
      if k :| 0 <= k < |xs| && xs[k] == n - 1 {
        var ys := xs[..k] + xs[k + 1..];
        Pigeons(ys, n - 1);
      } else {
        Pigeons(xs, n - 1);
      }
    }
  }

  /** A place as one number. */
  function PlaceOf(d: Driven, r: nat): nat {
    if d.At? then d.th.pc * (r + 1) + d.th.sp else 0
  }

  function MostSteps(p: Prog, r: nat): nat {
    |p.insts| * (r + 1)
  }

  lemma PlaceIsBelow(pc: nat, sp: nat, n: nat, r: nat)
    requires pc < n && sp <= r
    ensures pc * (r + 1) + sp < n * (r + 1)
  {
    assert (pc + 1) * (r + 1) <= n * (r + 1);
  }

  lemma PlaceIsPlace(a: Thread, b: Thread, r: nat)
    requires a.sp <= r && b.sp <= r && a.pc * (r + 1) + a.sp == b.pc * (r + 1) + b.sp
    ensures SamePlace(a, b)
  {
    if a.pc < b.pc { NotFurther(a, b, r); }
    if b.pc < a.pc { NotFurther(b, a, r); }
  }

  lemma NotFurther(a: Thread, b: Thread, r: nat)
    requires a.sp <= r && b.sp <= r && a.pc < b.pc
    ensures a.pc * (r + 1) + a.sp < b.pc * (r + 1) + b.sp
  {
    assert (a.pc + 1) * (r + 1) <= b.pc * (r + 1);
  }

  lemma DriveBegins(p: Prog, inp: string, th: Thread, w: seq<bool>, n: nat, i: nat)
    requires Runnable(p) && th.pc < |p.insts| && i <= n && Drive(p, inp, th, w, n).At?
    ensures Drive(p, inp, th, w, i).At?
  {
    DriveEndsEarlier(p, inp, th, w, i, n - i);
  }

  lemma {:induction false} DriveEndsEarlier(p: Prog, inp: string, th: Thread, w: seq<bool>, i: nat, m: nat)
    requires Runnable(p) && th.pc < |p.insts| && Drive(p, inp, th, w, i + m).At?
    ensures Drive(p, inp, th, w, i).At?
    decreases i
  {
    if i > 0 {
      match StepOf(p, inp, th)
      case Goes(t) => DriveEndsEarlier(p, inp, t, w, i - 1, m);
      case Forks(s, t) => DriveEndsEarlier(p, inp, if w[0] then t else s, w[1..], i - 1, m);
    }
  }

  /** A run that is at one place after `i` and after `j` steps has a loop in it. */
  lemma LoopBetween(p: Prog, inp: string, root: Thread, q: seq<bool>, i: nat, j: nat) returns (u: seq<bool>, v: seq<bool>)
    requires Runnable(p) && root.pc < |p.insts| && i < j
    requires Drive(p, inp, root, q, i).At? && Drive(p, inp, root, q, j).At?
    requires SamePlace(Drive(p, inp, root, q, i).th, Drive(p, inp, root, q, j).th)
    ensures Loops(p, inp, root, u, v) && u + v <= q
  {
    var a := Drive(p, inp, root, q, i);
    DriveOn(p, inp, root, q, i, j - i);
    var b := Drive(p, inp, a.th, a.rest, j - i);
    DriveUses(p, inp, root, q, i);
    DriveUses(p, inp, a.th, a.rest, j - i);
    u, v := Used(q, a.rest), Used(a.rest, b.rest);
    assert u + v + b.rest == q;
    assert LoopsAt(p, inp, root, u, v, i, a.th, j - i, b.th);
  }

  lemma LoopFreeIsShort(p: Prog, inp: string, start: nat, q: seq<bool>, n: nat)
    requires Runnable(p)
    requires var root := Thread(0, start, NoSaves);
      Drive(p, inp, root, q, n).At? && forall u, v :: u + v <= q ==> !Loops(p, inp, root, u, v)
    ensures n < MostSteps(p, Reach(inp, start))
  {
    var root, r := Thread(0, start, NoSaves), Reach(inp, start);
    var xs := seq(n + 1, (i: nat) => PlaceOf(Drive(p, inp, root, q, i), r));
    forall i | 0 <= i <= n
      ensures Drive(p, inp, root, q, i).At? && Drive(p, inp, root, q, i).th.sp <= r && xs[i] < MostSteps(p, r)
    {
      DriveBegins(p, inp, root, q, n, i);
      StaysInReach(p, inp, root, q, i, r);
      var th := Drive(p, inp, root, q, i).th;
      PlaceIsBelow(th.pc, th.sp, |p.insts|, r);
    }
    forall i, j | 0 <= i < j < |xs| ensures xs[i] != xs[j] {
      if xs[i] == xs[j] {
        PlaceIsPlace(Drive(p, inp, root, q, i).th, Drive(p, inp, root, q, j).th, r);
        var u, v := LoopBetween(p, inp, root, q, i, j);
        assert false;
      }
    }
    Pigeons(xs, MostSteps(p, r));
  }

  // ---- and a search with no loop ahead comes to the match

  lemma AheadOfPrefix(q: seq<bool>, z: seq<bool>, w: seq<bool>)
    requires q <= z && Ahead(z, w)
    ensures Ahead(q, w)
  {
    if Before(z, w) {
      var k :| 0 <= k < |z| && k < |w| && z[..k] == w[..k] && !z[k] && w[k];
      if |q| > k {
        assert q[..k] == z[..k] && q[k] == z[k];
      } else {
        assert q == z[..k][..|q|] == w[..k][..|q|];
      }
    }
  }

  /** The nodes from `k` on are on the way to `w` or ahead of it, and none is deeper than `depth`. */
  ghost predicate Above(p: Prog, inp: string, root: Thread, ns: seq<Node>, w: seq<bool>, depth: nat)
    requires Runnable(p) && root.pc < |p.insts|
  {
    AllLead(p, inp, root, ns, depth) && ns != [] && ns[0].word <= w &&
    forall k :: 0 < k < |ns| ==> Before(ns[k].word, w)
  }

  /** Every run ahead of `w` takes at most `depth` steps. */
  ghost predicate ShallowAhead(p: Prog, inp: string, root: Thread, w: seq<bool>, depth: nat)
    requires Runnable(p) && root.pc < |p.insts|
  {
    forall q, n: nat, th :: Leads(p, inp, root, q, n, th) && Ahead(q, w) ==> n <= depth
  }

  lemma FirstIsAhead(x: seq<bool>, w: seq<bool>)
    requires Ahead(x, w) && (x <= w ==> x + [false] <= w || x + [true] <= w)
    ensures Ahead(x + [false], w)
    ensures Before(x, w) ==> Before(x + [false], w) && Before(x + [true], w)
    ensures x <= w && !(x + [false] <= w) ==> Before(x + [false], w)
  {
    assert w + [] == w;
    if Before(x, w) {
      BeforeExtends(x, w, [false], []);
      BeforeExtends(x, w, [true], []);
    } else if x + [true] <= w {
      var a := x + [false];
      assert a[..|x|] == x == w[..|x|] && w[|x|] == (x + [true])[|x|];
    }
  }

  /** The node that is expanded next is ahead of `w` or on the way to it, and then it goes on. */
  lemma TopIsAhead(p: Prog, inp: string, root: Thread, up: seq<Node>, w: seq<bool>, s: Saves, depth: nat)
    requires Runnable(p) && root.pc < |p.insts| && Accepting(p, inp, root, w, s) && Above(p, inp, root, up, w, depth)
    ensures var nd := up[|up| - 1];
      Ahead(nd.word, w) && (nd.word <= w ==> !StepOf(p, inp, nd.th).Fails?) &&
      (nd.word <= w && StepOf(p, inp, nd.th).Forks? ==> nd.word + [false] <= w || nd.word + [true] <= w)
  {
    var nd := up[|up| - 1];
    if nd.word <= w { ThroughChild(p, inp, root, nd, w, s); }
  }

  /** No child is too deep. */
  lemma NextNotDeep(p: Prog, inp: string, root: Thread, up: seq<Node>, w: seq<bool>, s: Saves, depth: nat)
    requires Runnable(p) && root.pc < |p.insts| && Accepting(p, inp, root, w, s) && ShallowAhead(p, inp, root, w, depth)
    requires Above(p, inp, root, up, w, depth) && !StepOf(p, inp, up[|up| - 1].th).Accepts?
    ensures AllLead(p, inp, root, NextNodes(p, inp, up), depth)
  {
    var nd := up[|up| - 1];
    TopIsAhead(p, inp, root, up, w, s, depth);
    match StepOf(p, inp, nd.th)
    case Goes(t) =>
      Child(p, inp, root, nd, t, []);
      assert nd.word + [] == nd.word;
    case Forks(a, b) =>
      FirstIsAhead(nd.word, w);
      Child(p, inp, root, nd, a, [false]);
      Child(p, inp, root, nd, b, [true]);
    case Fails =>
  }

  /** Where `w` takes the first branch the second one is not needed. */
  predicate Turns(p: Prog, inp: string, up: seq<Node>, w: seq<bool>)
    requires Runnable(p) && up != [] && up[|up| - 1].th.pc < |p.insts|
  {
    |up| == 1 && StepOf(p, inp, up[0].th).Forks? && up[0].word + [false] <= w
  }

  lemma AboveFirst(p: Prog, inp: string, root: Thread, up: seq<Node>, w: seq<bool>, depth: nat)
    requires Runnable(p) && root.pc < |p.insts| && Above(p, inp, root, up, w, depth) && Turns(p, inp, up, w)
    requires AllLead(p, inp, root, NextNodes(p, inp, up), depth)
    ensures var next := NextNodes(p, inp, up);
      |next| == 2 && next == next[..1] + next[1..] && Above(p, inp, root, next[1..], w, depth) &&
      Weight(p, inp, root, next[1..], depth) < Weight(p, inp, root, up, depth)
  {
    var next := NextNodes(p, inp, up);
    NextWeighsLess(p, inp, root, up, depth);
    var a, b := next[0], next[1];
    assert next == [a, b] && next[1..] == [b] && next[..1] == [a];
    WeightOfTwo(p, inp, root, a, b, depth);
  }

  lemma WeightOfTwo(p: Prog, inp: string, root: Thread, a: Node, b: Node, depth: nat)
    requires Runnable(p) && root.pc < |p.insts| && AllLead(p, inp, root, [a, b], depth)
    ensures AllLead(p, inp, root, [b], depth) && Weight(p, inp, root, [b], depth) < Weight(p, inp, root, [a, b], depth)
  {
    var ns := [a, b];
    assert ns[1] == b && ns[..1] == [a] && [a][..0] == [] && [b][..0] == [];
    assert Leads(p, inp, root, ns[1].word, ns[1].depth, ns[1].th) && ns[0] == a;
  }

  lemma AboveAll(p: Prog, inp: string, root: Thread, up: seq<Node>, w: seq<bool>, s: Saves, depth: nat)
    requires Runnable(p) && root.pc < |p.insts| && Accepting(p, inp, root, w, s)
    requires Above(p, inp, root, up, w, depth) && !StepOf(p, inp, up[|up| - 1].th).Accepts? && !Turns(p, inp, up, w)
    requires AllLead(p, inp, root, NextNodes(p, inp, up), depth)
    ensures Above(p, inp, root, NextNodes(p, inp, up), w, depth)
  {
    var next, nd := NextNodes(p, inp, up), up[|up| - 1];
    TopIsAhead(p, inp, root, up, w, s, depth);
    FirstBranch(p, inp, nd, w);
    if |up| == 1 {
      assert next[0].word <= w;
    } else {
      assert next[0] == up[0];
      assert Before(nd.word, w);
    }
    forall k | 0 < k < |next| ensures Before(next[k].word, w) {
      if k < |up| - 1 { assert next[k] == up[k]; }
    }
  }

  lemma FirstBranch(p: Prog, inp: string, nd: Node, w: seq<bool>)
    requires Runnable(p) && nd.th.pc < |p.insts| && Ahead(nd.word, w)
    requires nd.word <= w && StepOf(p, inp, nd.th).Forks? ==> nd.word + [false] <= w || nd.word + [true] <= w
    ensures StepOf(p, inp, nd.th).Forks? ==>
      (Before(nd.word, w) ==> Before(nd.word + [false], w) && Before(nd.word + [true], w)) &&
      (nd.word <= w && !(nd.word + [false] <= w) ==> Before(nd.word + [false], w) && nd.word + [true] <= w)
  {
    if StepOf(p, inp, nd.th).Forks? { FirstIsAhead(nd.word, w); }
  }

  lemma AboveNext(p: Prog, inp: string, root: Thread, up: seq<Node>, w: seq<bool>, s: Saves, depth: nat) returns (low: seq<Node>, up': seq<Node>)
    requires Runnable(p) && root.pc < |p.insts| && Accepting(p, inp, root, w, s) && ShallowAhead(p, inp, root, w, depth)
    requires Above(p, inp, root, up, w, depth) && !StepOf(p, inp, up[|up| - 1].th).Accepts?
    ensures NextNodes(p, inp, up) == low + up'
    ensures Above(p, inp, root, up', w, depth)
    ensures Weight(p, inp, root, up', depth) < Weight(p, inp, root, up, depth)
  {
    var next := NextNodes(p, inp, up);
    NextNotDeep(p, inp, root, up, w, s, depth);
    if Turns(p, inp, up, w) {
      AboveFirst(p, inp, root, up, w, depth);
      low, up' := next[..1], next[1..];
    } else {
      AboveAll(p, inp, root, up, w, s, depth);
      NextWeighsLess(p, inp, root, up, depth);
      low, up' := [], next;
    }
  }

  lemma NextAbove(p: Prog, inp: string, low: seq<Node>, up: seq<Node>)
    requires Runnable(p) && up != [] && up[|up| - 1].th.pc < |p.insts|
    ensures (low + up)[|low + up| - 1] == up[|up| - 1]
    ensures NextNodes(p, inp, low + up) == low + NextNodes(p, inp, up)
  {
    assert (low + up)[..|low + up| - 1] == low + up[..|up| - 1];
  }

  lemma RunNext(p: Prog, inp: string, ns: seq<Node>, fuel: nat)
    requires Runnable(p) && ns != [] && InProgram(p, SearchOf(ns)) && fuel > 0
    requires !StepOf(p, inp, ns[|ns| - 1].th).Accepts?
    ensures InProgram(p, SearchOf(NextNodes(p, inp, ns)))
    ensures Run(p, inp, SearchOf(ns), fuel) == Run(p, inp, SearchOf(NextNodes(p, inp, ns)), fuel - 1)
  {
    TickIsNext(p, inp, ns);
  }

  lemma RunAccepts(p: Prog, inp: string, ns: seq<Node>, fuel: nat)
    requires Runnable(p) && ns != [] && InProgram(p, SearchOf(ns)) && fuel > 0
    requires StepOf(p, inp, ns[|ns| - 1].th).Accepts?
    ensures Run(p, inp, SearchOf(ns), fuel).Won?
  {
    assert Run(p, inp, SearchOf(ns), fuel) == Run(p, inp, Won(ns[|ns| - 1].th.saves), fuel - 1);
  }

  lemma WeighsSomething(p: Prog, inp: string, root: Thread, ns: seq<Node>, depth: nat)
    requires Runnable(p) && root.pc < |p.insts| && AllLead(p, inp, root, ns, depth) && ns != []
    ensures Weight(p, inp, root, ns, depth) > 0
  {
  }

  /** The search wins with such nodes on top, if it wins with the next ones on top. */
  lemma AboveStep(p: Prog, inp: string, root: Thread, low: seq<Node>, up: seq<Node>, w: seq<bool>, s: Saves, depth: nat, fuel: nat)
    returns (low': seq<Node>, up': seq<Node>)
    requires Runnable(p) && root.pc < |p.insts| && Accepting(p, inp, root, w, s) && ShallowAhead(p, inp, root, w, depth)
    requires Above(p, inp, root, up, w, depth) && InProgram(p, SearchOf(low + up)) && fuel >= Weight(p, inp, root, up, depth)
    requires !StepOf(p, inp, up[|up| - 1].th).Accepts?
    ensures fuel > 0 && InProgram(p, SearchOf(low' + up'))
    ensures Above(p, inp, root, up', w, depth) && fuel - 1 >= Weight(p, inp, root, up', depth)
    ensures Run(p, inp, SearchOf(low + up), fuel) == Run(p, inp, SearchOf(low' + up'), fuel - 1)
  {
    WeighsSomething(p, inp, root, up, depth);
    NextAbove(p, inp, low, up);
    var more, top := AboveNext(p, inp, root, up, w, s, depth);
    RunNext(p, inp, low + up, fuel);
    low', up' := low + more, top;
    assert low + (more + top) == (low + more) + top;
  }

  /** A search with such nodes on top wins, whatever lies below them. */
  lemma {:induction false} AboveWins(p: Prog, inp: string, root: Thread, low: seq<Node>, up: seq<Node>, w: seq<bool>, s: Saves, depth: nat, fuel: nat)
    requires Runnable(p) && root.pc < |p.insts| && Accepting(p, inp, root, w, s) && ShallowAhead(p, inp, root, w, depth)
    requires Above(p, inp, root, up, w, depth) && InProgram(p, SearchOf(low + up))
    requires fuel >= Weight(p, inp, root, up, depth)
    ensures Run(p, inp, SearchOf(low + up), fuel).Won?
    decreases fuel
  {
    if StepOf(p, inp, up[|up| - 1].th).Accepts? {
      NextAbove(p, inp, low, up);
      WeighsSomething(p, inp, root, up, depth);
      RunAccepts(p, inp, low + up, fuel);
    } else {
      var low', up' := AboveStep(p, inp, root, low, up, w, s, depth, fuel);
      AboveWins(p, inp, root, low', up', w, s, depth, fuel - 1);
    }
  }

  // ---- the theorem

  /** Steps that are enough wherever a match can be found at all. */
  function StepsForAny(p: Prog, inp: string, start: nat): nat {
    Pow2(MostSteps(p, Reach(inp, start)) + 1)
  }

  lemma ShallowWins(p: Prog, inp: string, start: nat, w: seq<bool>, s: Saves, depth: nat, cap: nat)
    requires Runnable(p) && cap >= Pow2(depth + 1)
    requires var root := Thread(0, start, NoSaves); Accepting(p, inp, root, w, s) && ShallowAhead(p, inp, root, w, depth)
    ensures Matched(p, inp, start, cap).Some?
  {
    var root := Thread(0, start, NoSaves);
    var up := [Node(root, [], 0)];
    assert Leads(p, inp, root, [], 0, root);
    assert up[..0] == [] && [] + up == up && StartAt(start) == SearchOf(up);
    assert Weight(p, inp, root, up, depth) == TreeSize(depth, 0);
    AboveWins(p, inp, root, [], up, w, s, depth, cap);
  }

  lemma FoundInTime(p: Prog, inp: string, start: nat, w: seq<bool>, s: Saves, cap: nat)
    requires Runnable(p)
    requires var root := Thread(0, start, NoSaves); Accepting(p, inp, root, w, s) && NoLoopAhead(p, inp, root, w)
    requires cap >= StepsForAny(p, inp, start)
    ensures Matched(p, inp, start, cap).Some?
  {
    var root, depth := Thread(0, start, NoSaves), MostSteps(p, Reach(inp, start));
    forall q, n: nat, th | Leads(p, inp, root, q, n, th) && Ahead(q, w) ensures n <= depth {
      forall u, v | u + v <= q ensures !Loops(p, inp, root, u, v) { AheadOfPrefix(u + v, q, w); }
      LoopFreeIsShort(p, inp, start, q, n);
    }
    ShallowWins(p, inp, start, w, s, depth, cap);
  }

  /**
   * Exactly when a match is found from `start`: some run accepts and no run tried up to then comes
   * back to a place where it was. Then a cap computed from the program and the input is enough;
   * otherwise no cap is.
   */
  lemma FoundIff(p: Prog, inp: string, start: nat, cap: nat)
    requires Runnable(p) && cap >= StepsForAny(p, inp, start)
    ensures Matched(p, inp, start, cap).Some? <==>
      exists w, s :: Accepting(p, inp, Thread(0, start, NoSaves), w, s) && NoLoopAhead(p, inp, Thread(0, start, NoSaves), w)
  {
    if Matched(p, inp, start, cap).Some? {
      FoundHasNoLoop(p, inp, start, cap);
    }
    if w, s :| Accepting(p, inp, Thread(0, start, NoSaves), w, s) && NoLoopAhead(p, inp, Thread(0, start, NoSaves), w) {
      FoundInTime(p, inp, start, w, s, cap);
    }
  }

  /** One half of it under every cap. */
  lemma FoundHasNoLoop(p: Prog, inp: string, start: nat, cap: nat)
    requires Runnable(p) && Matched(p, inp, start, cap).Some?
    ensures var root := Thread(0, start, NoSaves);
      exists w :: NoLoopAhead(p, inp, root, w) && Accepting(p, inp, root, w, Matched(p, inp, start, cap).value)
  {
    var root := Thread(0, start, NoSaves);
    StartTracked(p, inp, start);
    RunTracked(p, inp, root, [Node(root, [], 0)], 0, cap, Matched(p, inp, start, cap).value);
    var w, t: nat :| Preferred(p, inp, root, w, Matched(p, inp, start, cap).value) && LongRunsLater(p, inp, root, w, t);
    forall u, v | Ahead(u + v, w) ensures !Loops(p, inp, root, u, v) {
      if Loops(p, inp, root, u, v) { NoLoopBeforeWon(p, inp, root, w, Matched(p, inp, start, cap).value, t, u, v); }
    }
  }

  // ---- the same for patterns: a walk that idles is a loop

  lemma LoopsBehind(p: Prog, inp: string, root: Thread, u0: seq<bool>, n0: nat, mid: Thread, u: seq<bool>, v: seq<bool>)
    requires Runnable(p) && root.pc < |p.insts| && Leads(p, inp, root, u0, n0, mid)
    requires mid.pc < |p.insts| && Loops(p, inp, mid, u, v)
    ensures Loops(p, inp, root, u0 + u, v)
  {
    var n: nat, a, m: nat, b :| LoopsAt(p, inp, mid, u, v, n, a, m, b);
    LeadsOn(p, inp, root, u0, n0, mid, u, n, a);
    assert LoopsAt(p, inp, root, u0 + u, v, n0 + n, a, m, b);
  }

  lemma LoopAtOnce(p: Prog, inp: string, root: Thread, v: seq<bool>, m: nat, b: Thread)
    requires Runnable(p) && root.pc < |p.insts| && m > 0 && Leads(p, inp, root, v, m, b) && SamePlace(root, b)
    ensures Loops(p, inp, root, [], v)
  {
    assert LoopsAt(p, inp, root, [], v, 0, root, m, b);
  }

  /** A walk through a fragment, with just the choices that it uses. */
  lemma WalkLeads(p: Prog, inp: string, t: Re, at: nat, cb: nat, i: nat, s: Saves, q: seq<bool>) returns (n: nat)
    requires Holds(p, t, at, cb) && Walk(t, inp, i, s, q).Went?
    ensures var a := Walk(t, inp, i, s, q);
      q == Used(q, a.rest) + a.rest &&
      Leads(p, inp, Thread(at, i, s), Used(q, a.rest), n, Thread(After(t, at), a.at, a.saves))
  {
    n := WalkRuns(p, inp, t, at, cb, i, s, q);
    DriveUses(p, inp, Thread(at, i, s), q, n);
  }

  lemma {:induction false} IdlingLoops(p: Prog, inp: string, t: Re, at: nat, cb: nat, i: nat, s: Saves, q: seq<bool>) returns (u: seq<bool>, v: seq<bool>)
    requires Holds(p, t, at, cb) && Idles(t, inp, i, s, q)
    ensures Loops(p, inp, Thread(at, i, s), u, v) && u + v <= q
    decreases |q|, t, 1
  {
    if t.Cat? {
      u, v := CatIdlingLoops(p, inp, t, at, cb, i, s, q);
    } else if t.Alt? {
      u, v := AltIdlingLoops(p, inp, t, at, cb, i, s, q);
    } else if t.Group? {
      u, v := GroupIdlingLoops(p, inp, t, at, cb, i, s, q);
    } else if t.op.Plus? {
      u, v := PlusIdlingLoops(p, inp, t, at, cb, i, s, q);
    } else {
      u, v := StarIdlingLoops(p, inp, t, at, cb, i, s, q);
    }
  }

  lemma {:induction false} CatIdlingLoops(p: Prog, inp: string, t: Re, at: nat, cb: nat, i: nat, s: Saves, q: seq<bool>) returns (u: seq<bool>, v: seq<bool>)
    requires Holds(p, t, at, cb) && t.Cat? && Idles(t, inp, i, s, q)
    ensures Loops(p, inp, Thread(at, i, s), u, v) && u + v <= q
    decreases |q|, t, 0
  {
    CatParts(p, t.left, t.right, at, cb);
    if Idles(t.left, inp, i, s, q) {
      u, v := IdlingLoops(p, inp, t.left, at, cb, i, s, q);
    } else {
      var a := Walk(t.left, inp, i, s, q);
      var n := WalkLeads(p, inp, t.left, at, cb, i, s, q);
      var mid := Thread(After(t.left, at), a.at, a.saves);
      var u1, v1 := IdlingLoops(p, inp, t.right, mid.pc, AfterSets(t.left, cb), a.at, a.saves, a.rest);
      u, v := Behind(p, inp, Thread(at, i, s), Used(q, a.rest), n, mid, u1, v1, a.rest);
    }
  }

  lemma {:induction false} AltIdlingLoops(p: Prog, inp: string, t: Re, at: nat, cb: nat, i: nat, s: Saves, q: seq<bool>) returns (u: seq<bool>, v: seq<bool>)
    requires Holds(p, t, at, cb) && t.Alt? && Idles(t, inp, i, s, q)
    ensures Loops(p, inp, Thread(at, i, s), u, v) && u + v <= q
    decreases |q|, t, 0
  {
    AltParts(p, t.left, t.right, at, cb);
    var next := if q[0] then RightAt(t.left, at) else Next(at);
    var u1, v1 := IdlingLoops(p, inp, if q[0] then t.right else t.left, next, if q[0] then AfterSets(t.left, cb) else cb, i, s, q[1..]);
    assert Leads(p, inp, Thread(at, i, s), [q[0]], 1, Thread(next, i, s));
    u, v := Behind(p, inp, Thread(at, i, s), [q[0]], 1, Thread(next, i, s), u1, v1, q[1..]);
    assert [q[0]] + q[1..] == q;
  }

  lemma {:induction false} GroupIdlingLoops(p: Prog, inp: string, t: Re, at: nat, cb: nat, i: nat, s: Saves, q: seq<bool>) returns (u: seq<bool>, v: seq<bool>)
    requires Holds(p, t, at, cb) && t.Group? && Idles(t, inp, i, s, q)
    ensures Loops(p, inp, Thread(at, i, s), u, v) && u + v <= q
    decreases |q|, t, 0
  {
    GroupParts(p, t.index, t.body, at, cb);
    var mid := Thread(Next(at), i, s[2 * t.index := i]);
    var u1, v1 := IdlingLoops(p, inp, t.body, mid.pc, cb, i, mid.saves, q);
    assert Leads(p, inp, Thread(at, i, s), [], 1, mid);
    u, v := Behind(p, inp, Thread(at, i, s), [], 1, mid, u1, v1, q);
    assert [] + q == q;
  }

  lemma Behind(p: Prog, inp: string, root: Thread, u0: seq<bool>, n0: nat, mid: Thread, u1: seq<bool>, v1: seq<bool>, rest: seq<bool>)
    returns (u: seq<bool>, v: seq<bool>)
    requires Runnable(p) && root.pc < |p.insts| && Leads(p, inp, root, u0, n0, mid)
    requires mid.pc < |p.insts| && Loops(p, inp, mid, u1, v1) && u1 + v1 <= rest
    ensures Loops(p, inp, root, u, v) && u + v <= u0 + rest
  {
    LoopsBehind(p, inp, root, u0, n0, mid, u1, v1);
    u, v := u0 + u1, v1;
    assert rest == (u1 + v1) + rest[|u1 + v1|..];
    assert u0 + rest == (u + v) + rest[|u1 + v1|..];
  }

  /** From the body of `*` back to its branch. */
  lemma StarRound(p: Prog, inp: string, t: Re, at: nat, cb: nat, i: nat, s: Saves, q: seq<bool>) returns (n: nat)
    requires Holds(p, t, at, cb) && t.Rep? && t.op.Star? && q != [] && Again(q[0], t.lazy)
    requires Walk(t.body, inp, i, s, q[1..]).Went?
    ensures var a := Walk(t.body, inp, i, s, q[1..]);
      q == Used(q, a.rest) + a.rest && n > 0 &&
      Leads(p, inp, Thread(at, i, s), Used(q, a.rest), n, Thread(at, a.at, a.saves))
  {
    var a := Walk(t.body, inp, i, s, q[1..]);
    RepParts(p, t.op, t.body, t.lazy, at, cb);
    BranchStep(p, inp, t, at, cb, i, s, [q[0]]);
    var n1 := WalkLeads(p, inp, t.body, Next(at), cb, i, s, q[1..]);
    var x := Used(q[1..], a.rest);
    var end := Thread(After(t.body, Next(at)), a.at, a.saves);
    assert Leads(p, inp, end, [], 1, Thread(at, a.at, a.saves));
    LeadsOn(p, inp, Thread(at, i, s), [q[0]], 1, Thread(Next(at), i, s), x, n1, end);
    LeadsOn(p, inp, Thread(at, i, s), [q[0]] + x, 1 + n1, end, [], 1, Thread(at, a.at, a.saves));
    assert ([q[0]] + x) + [] == Used(q, a.rest);
    n := 2 + n1;
  }

  lemma {:induction false} StarIdlingLoops(p: Prog, inp: string, t: Re, at: nat, cb: nat, i: nat, s: Saves, q: seq<bool>) returns (u: seq<bool>, v: seq<bool>)
    requires Holds(p, t, at, cb) && t.Rep? && !t.op.Plus? && Idles(t, inp, i, s, q)
    ensures Loops(p, inp, Thread(at, i, s), u, v) && u + v <= q
    decreases |q|, t, 0
  {
    RepParts(p, t.op, t.body, t.lazy, at, cb);
    assert q != [] && Again(q[0], t.lazy);
    StarIdles(t, inp, i, s, q);
    if Idles(t.body, inp, i, s, q[1..]) {
      BranchStep(p, inp, t, at, cb, i, s, [q[0]]);
      var u1, v1 := IdlingLoops(p, inp, t.body, Next(at), cb, i, s, q[1..]);
      u, v := Behind(p, inp, Thread(at, i, s), [q[0]], 1, Thread(Next(at), i, s), u1, v1, q[1..]);
      assert [q[0]] + q[1..] == q;
    } else {
      var a := Walk(t.body, inp, i, s, q[1..]);
      var n := StarRound(p, inp, t, at, cb, i, s, q);
      u, v := RoundLoops(p, inp, t, at, cb, i, s, q, Used(q, a.rest), n, a.at, a.saves, a.rest);
    }
  }

  /** After a round that read nothing there is a loop; after another one, look further. */
  lemma {:induction false} RoundLoops(p: Prog, inp: string, t: Re, at: nat, cb: nat, i: nat, s: Saves, q: seq<bool>,
    x: seq<bool>, n: nat, j: nat, s1: Saves, rest: seq<bool>) returns (u: seq<bool>, v: seq<bool>)
    requires Holds(p, t, at, cb) && t.Rep? && |rest| < |q| && q == x + rest && n > 0
    requires Leads(p, inp, Thread(at, i, s), x, n, Thread(at, j, s1)) && (j == i || Idles(t, inp, j, s1, rest))
    ensures Loops(p, inp, Thread(at, i, s), u, v) && u + v <= q
    decreases |rest|, t, 2
  {
    if j == i {
      LoopAtOnce(p, inp, Thread(at, i, s), x, n, Thread(at, j, s1));
      u, v := [], x;
      assert u + v == x;
    } else {
      var u1, v1 := IdlingLoops(p, inp, t, at, cb, j, s1, rest);
      u, v := Behind(p, inp, Thread(at, i, s), x, n, Thread(at, j, s1), u1, v1, rest);
    }
  }

  /** From the body of `+` through its branch back to the body. */
  lemma PlusRound(p: Prog, inp: string, t: Re, at: nat, cb: nat, i: nat, s: Saves, q: seq<bool>) returns (n: nat)
    requires Holds(p, t, at, cb) && t.Rep? && t.op.Plus? && Walk(t.body, inp, i, s, q).Went?
    requires var a := Walk(t.body, inp, i, s, q); a.rest != [] && Again(a.rest[0], t.lazy)
    ensures var a := Walk(t.body, inp, i, s, q);
      q == Used(q, a.rest[1..]) + a.rest[1..] && n > 0 &&
      Leads(p, inp, Thread(at, i, s), Used(q, a.rest[1..]), n, Thread(at, a.at, a.saves))
  {
    var a := Walk(t.body, inp, i, s, q);
    RepParts(p, t.op, t.body, t.lazy, at, cb);
    var n1 := WalkLeads(p, inp, t.body, at, cb, i, s, q);
    BranchStep(p, inp, t, at, cb, a.at, a.saves, [a.rest[0]]);
    var x, end := Used(q, a.rest), Thread(After(t.body, at), a.at, a.saves);
    LeadsOn(p, inp, Thread(at, i, s), x, n1, end, [a.rest[0]], 1, Thread(at, a.at, a.saves));
    assert q == (x + [a.rest[0]]) + a.rest[1..];
    assert x + [a.rest[0]] == Used(q, a.rest[1..]);
    n := n1 + 1;
  }

  lemma {:induction false} PlusIdlingLoops(p: Prog, inp: string, t: Re, at: nat, cb: nat, i: nat, s: Saves, q: seq<bool>) returns (u: seq<bool>, v: seq<bool>)
    requires Holds(p, t, at, cb) && t.Rep? && t.op.Plus? && Idles(t, inp, i, s, q)
    ensures Loops(p, inp, Thread(at, i, s), u, v) && u + v <= q
    decreases |q|, t, 0
  {
    RepParts(p, t.op, t.body, t.lazy, at, cb);
    PlusIdles(t, inp, i, s, q);
    if Idles(t.body, inp, i, s, q) {
      u, v := IdlingLoops(p, inp, t.body, at, cb, i, s, q);
    } else {
      var a := Walk(t.body, inp, i, s, q);
      var n := PlusRound(p, inp, t, at, cb, i, s, q);
      u, v := RoundLoops(p, inp, t, at, cb, i, s, q, Used(q, a.rest[1..]), n, a.at, a.saves, a.rest[1..]);
    }
  }

  /**
   * The choices `w` read the pattern, and no choices tried up to them idle: none comes round a `*` or
   * `+` without having read a character.
   */
  ghost predicate ReadsInTime(t: Re, inp: string, start: nat, w: seq<bool>, s: Saves)
    requires SlotsOk(t)
  {
    Reads(t, inp, start, w, s) && forall q :: Ahead(q, w) ==> !Idles(Whole(t), inp, start, NoSaves, q)
  }

  lemma FoundIsInTime(t: Re, p: Prog, inp: string, start: nat, cap: nat)
    requires Loaded(p, t) && Matched(p, inp, start, cap).Some?
    ensures exists w :: ReadsInTime(t, inp, start, w, Matched(p, inp, start, cap).value)
  {
    var root, s := Thread(0, start, NoSaves), Matched(p, inp, start, cap).value;
    FoundHasNoLoop(p, inp, start, cap);
    var w :| NoLoopAhead(p, inp, root, w) && Accepting(p, inp, root, w, s);
    AcceptsIffReads(p, t, inp, start, w, s);
    forall q | Ahead(q, w) ensures !Idles(Whole(t), inp, start, NoSaves, q) {
      if Idles(Whole(t), inp, start, NoSaves, q) {
        var u, v := IdlingLoops(p, inp, Whole(t), 0, 0, start, NoSaves, q);
        AheadOfPrefix(u + v, q, w);
      }
    }
    assert ReadsInTime(t, inp, start, w, s);
  }

  lemma InTimeIsFound(t: Re, p: Prog, inp: string, start: nat, w: seq<bool>, s: Saves, cap: nat)
    requires Loaded(p, t) && ReadsInTime(t, inp, start, w, s) && cap >= EnoughSteps(t, inp, start)
    ensures Matched(p, inp, start, cap).Some?
  {
    var root, depth := Thread(0, start, NoSaves), Bound(Whole(t), Left(inp, start));
    AcceptsIffReads(p, t, inp, start, w, s);
    forall q, n: nat, th | Leads(p, inp, root, q, n, th) && Ahead(q, w) ensures n <= depth {
      BusyRunIsShort(p, t, inp, start, q, n);
    }
    ShallowWins(p, inp, start, w, s, depth, cap);
  }

  /**
   * Exactly when a pattern is found from `start`: some reading of it is in time. Then a cap computed
   * from the pattern and the input is enough; otherwise no cap is.
   */
  lemma PatternFoundIff(src: string, t: Re, p: Prog, inp: string, start: nat, cap: nat)
    requires Compiles(src, t, p) && cap >= EnoughSteps(t, inp, start)
    ensures SlotsOk(t) && Runnable(p)
    ensures Matched(p, inp, start, cap).Some? <==> exists w, s :: ReadsInTime(t, inp, start, w, s)
    ensures forall c: nat :: Matched(p, inp, start, c).Some? ==> Matched(p, inp, start, cap).Some?
  {
    CompiledIsLoaded(src, t, p);
    forall c: nat | Matched(p, inp, start, c).Some? ensures exists w, s :: ReadsInTime(t, inp, start, w, s) {
      FoundIsInTime(t, p, inp, start, c);
    }
    if w, s :| ReadsInTime(t, inp, start, w, s) {
      InTimeIsFound(t, p, inp, start, w, s, cap);
    }
  }

  // ---- a lazy repetition that is never left in time

  /** The tree of `(?:a*?)*?b`. */
  const LazyTree: Re := Cat(Cat(Empty, LazyRounds), One(Lit('b')))

  const LazyRounds: Re := Rep(Star, LazyRound, true)

  const LazyRound: Re := Cat(Empty, Rep(Star, One(Lit('a')), true))

  lemma LazyTreeIsRead()
    ensures ParsePattern("(?:a*?)*?b") == Ok(LazyTree, 10, 0)
  {
    var src := "(?:a*?)*?b";
    var inner := Rep(Star, One(Lit('a')), true);
    var rounds := Cat(Empty, LazyRounds);
    assert ParseAtom(src, 3, 0) == Ok(One(Lit('a')), 4, 0);
    assert ParseSuffixes(src, 6, 0, inner) == Ok(inner, 6, 0);
    assert ParseRepeat(src, 3, 0) == Ok(inner, 6, 0);
    assert ParseConcatRest(src, 6, 0, LazyRound) == Ok(LazyRound, 6, 0);
    assert ParseConcat(src, 3, 0) == Ok(LazyRound, 6, 0);
    assert ParseAlt(src, 3, 0) == Ok(LazyRound, 6, 0);
    assert ParseAtom(src, 0, 0) == Ok(LazyRound, 7, 0);
    assert ParseSuffixes(src, 9, 0, LazyRounds) == Ok(LazyRounds, 9, 0);
    assert ParseRepeat(src, 0, 0) == Ok(LazyRounds, 9, 0);
    assert ParseAtom(src, 9, 0) == Ok(One(Lit('b')), 10, 0);
    assert ParseRepeat(src, 9, 0) == Ok(One(Lit('b')), 10, 0);
    assert ParseConcatRest(src, 10, 0, LazyTree) == Ok(LazyTree, 10, 0);
    assert ParseConcatRest(src, 9, 0, rounds) == Ok(LazyTree, 10, 0);
    assert ParseConcat(src, 0, 0) == Ok(LazyTree, 10, 0);
  }

  lemma LazyLeaves(s0: Saves, w: seq<bool>)
    requires w != [] && !w[0]
    ensures Walk(LazyTree, "ab", 0, s0, w).Stuck?
  {
    assert Walk(LazyRounds, "ab", 0, s0, w) == Went(0, s0, w[1..]);
    assert Walk(Cat(Empty, LazyRounds), "ab", 0, s0, w) == Went(0, s0, w[1..]);
    assert !OneMatches(Lit('b'), "ab", 0);
  }

  /** Leaving at once fails, and going round at once reads nothing. */
  lemma LazyIdlesFirst(w: seq<bool>, s: Saves)
    requires Reads(LazyTree, "ab", 0, w, s)
    ensures Ahead([true, false], w) && Idles(Whole(LazyTree), "ab", 0, NoSaves, [true, false])
  {
    var s0: Saves := NoSaves[0 := 0];
    var q := [true, false];
    assert Walk(Whole(LazyTree), "ab", 0, NoSaves, w).Went? ==> Walk(LazyTree, "ab", 0, s0, w).Went?;
    assert Walk(Cat(Empty, LazyRounds), "ab", 0, s0, w) == Walk(LazyRounds, "ab", 0, s0, w);
    assert w != [];
    if !w[0] { LazyLeaves(s0, w); }
    assert Walk(LazyRound, "ab", 0, s0, w[1..]) == Walk(Rep(Star, One(Lit('a')), true), "ab", 0, s0, w[1..]);
    assert w[1..] != [];
    if !w[1] {
      assert q == w[..2];
    } else {
      assert q[..1] == w[..1] && !q[1] && w[1];
    }
    LazyIdles(s0);
  }

  lemma LazyIdles(s0: Saves)
    requires s0 == NoSaves[0 := 0]
    ensures Idles(Whole(LazyTree), "ab", 0, NoSaves, [true, false])
  {
    var q := [true, false];
    assert q[1..] == [false] && [false][1..] == [];
    var a := Rep(Star, One(Lit('a')), true);
    assert Walk(a, "ab", 0, s0, [false]) == Went(0, s0, []);
    assert Walk(LazyRound, "ab", 0, s0, [false]) == Went(0, s0, []);
    StarIdles(LazyRounds, "ab", 0, s0, q);
    assert Walk(Empty, "ab", 0, s0, q) == Went(0, s0, q);
    assert Idles(Cat(Empty, LazyRounds), "ab", 0, s0, q);
    assert Idles(LazyTree, "ab", 0, s0, q);
  }

  lemma LazyMatches()
    ensures Matches(LazyTree, "ab", 0, 2)
  {
    var a := Rep(Star, One(Lit('a')), true);
    assert Matches(One(Lit('a')), "ab", 0, 1) && RegexMeaning.Times(One(Lit('a')), "ab", 0, 1, 1);
    assert RegexMeaning.Times(One(Lit('a')), "ab", 1, 0, 1) && Allows(Star, 1);
    assert Matches(Empty, "ab", 0, 0) && Matches(a, "ab", 0, 1) && Matches(LazyRound, "ab", 0, 1);
    assert RegexMeaning.Times(LazyRound, "ab", 0, 1, 1) && RegexMeaning.Times(LazyRound, "ab", 1, 0, 1);
    assert Matches(LazyRounds, "ab", 0, 1) && Matches(Cat(Empty, LazyRounds), "ab", 0, 1);
  }

  /** `(?:a*?)*?b` matches all of "ab", but under no cap is that found. */
  lemma LazySpinsForever(p: Prog, cap: nat)
    requires Compiles("(?:a*?)*?b", LazyTree, p)
    ensures Runnable(p) && ParsePattern("(?:a*?)*?b") == Ok(LazyTree, 10, 0)
    ensures Matches(LazyTree, "ab", 0, 2) && Matched(p, "ab", 0, cap) == None
  {
    LazyTreeIsRead();
    LazyMatches();
    CompiledIsLoaded("(?:a*?)*?b", LazyTree, p);
    if Matched(p, "ab", 0, cap).Some? {
      FoundIsInTime(LazyTree, p, "ab", 0, cap);
      var w :| ReadsInTime(LazyTree, "ab", 0, w, Matched(p, "ab", 0, cap).value);
      LazyIdlesFirst(w, Matched(p, "ab", 0, cap).value);
    }
  }
}
