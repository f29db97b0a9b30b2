/** Backtracking finds the preferred accepting run of any program, and misses none. */
module RegexSearch {
  import opened RegexMeaning
  import opened RegexCompiler
  import opened RegexMachine

  datatype Driven = Halted | At(th: Thread, rest: seq<bool>)

  /** `n` steps from `th` on, taking the branches of `w` one by one (true is the second branch). */
  function Drive(p: Prog, inp: string, th: Thread, w: seq<bool>, n: nat): (r: Driven)
    requires Runnable(p) && th.pc < |p.insts|
    ensures r.At? ==> r.th.pc < |p.insts| && |r.rest| <= |w|
    decreases n
  {
    if n == 0 then At(th, w)
    else match StepOf(p, inp, th)
      case Goes(t) => Drive(p, inp, t, w, n - 1)
      case Forks(a, b) =>
        if w == [] then Halted else Drive(p, inp, if w[0] then b else a, w[1..], n - 1)
      case Fails => Halted
      case Accepts => Halted
  }

  lemma {:induction false} DriveOn(p: Prog, inp: string, th: Thread, w: seq<bool>, n: nat, m: nat)
    requires Runnable(p) && th.pc < |p.insts|
    requires Drive(p, inp, th, w, n).At?
    ensures var a := Drive(p, inp, th, w, n); Drive(p, inp, th, w, n + m) == Drive(p, inp, a.th, a.rest, m)
    decreases n
  {
    if n > 0 {
      match StepOf(p, inp, th)
      case Goes(t) => DriveOn(p, inp, t, w, n - 1, m);
      case Forks(a, b) => DriveOn(p, inp, if w[0] then b else a, w[1..], n - 1, m);
    }
  }

  lemma {:induction false} DriveExtends(p: Prog, inp: string, th: Thread, w: seq<bool>, x: seq<bool>, n: nat)
    requires Runnable(p) && th.pc < |p.insts|
    requires Drive(p, inp, th, w, n).At?
    ensures var a := Drive(p, inp, th, w, n); Drive(p, inp, th, w + x, n) == At(a.th, a.rest + x)
    decreases n
  {
    if n > 0 {
      match StepOf(p, inp, th)
      case Goes(t) => DriveExtends(p, inp, t, w, x, n - 1);
      case Forks(a, b) =>
        assert (w + x)[1..] == w[1..] + x;
        DriveExtends(p, inp, if w[0] then b else a, w[1..], x, n - 1);
    }
  }

  /** The choices `w` lead from `root` to `th` in `n` steps. */
  ghost predicate Leads(p: Prog, inp: string, root: Thread, w: seq<bool>, n: nat, th: Thread)
    requires Runnable(p) && root.pc < |p.insts|
  {
    Drive(p, inp, root, w, n) == At(th, [])
  }

  /** The choices `w` lead from `root` to acceptance with captures `s`. */
  ghost predicate Accepting(p: Prog, inp: string, root: Thread, w: seq<bool>, s: Saves)
    requires Runnable(p) && root.pc < |p.insts|
  {
    exists n: nat, th :: Leads(p, inp, root, w, n, th) && p.insts[th.pc] == Match && th.saves == s
  }

  // ---- the frontier of the search

  /** A thread of the search with the choices and the number of steps that led to it. */
  datatype Node = Node(th: Thread, word: seq<bool>, depth: nat)

  /** The nodes still open (the current one last): each is reached by its word, later ones are preferred, and every accepting run goes through one of them. */
  ghost predicate Frontier(p: Prog, inp: string, root: Thread, ns: seq<Node>)
    requires Runnable(p) && root.pc < |p.insts|
  {
    && (forall k :: 0 <= k < |ns| ==> Leads(p, inp, root, ns[k].word, ns[k].depth, ns[k].th))
    && (forall k, l :: 0 <= k < l < |ns| ==> Before(ns[l].word, ns[k].word))
    && (forall q, s :: Accepting(p, inp, root, q, s) ==> exists k :: 0 <= k < |ns| && ns[k].word <= q)
  }

  function Threads(ns: seq<Node>): (r: seq<Thread>)
    ensures |r| == |ns|
    ensures forall k :: 0 <= k < |ns| ==> r[k] == ns[k].th
  {
    if ns == [] then [] else Threads(ns[..|ns| - 1]) + [ns[|ns| - 1].th]
  }

  function SearchOf(ns: seq<Node>): Search {
    if ns == [] then Lost else Busy(ns[|ns| - 1].th, Threads(ns[..|ns| - 1]))
  }

  lemma BeforeExtends(a: seq<bool>, b: seq<bool>, x: seq<bool>, y: seq<bool>)
    requires Before(a, b)
    ensures Before(a + x, b + y)
  {
    var k :| 0 <= k < |a| && k < |b| && a[..k] == b[..k] && !a[k] && b[k];
    assert (a + x)[..k] == a[..k] && (b + y)[..k] == b[..k];
  }

  lemma BeforeLonger(a: seq<bool>, b: seq<bool>, q: seq<bool>)
    requires Before(a, b) && b <= q
    ensures Before(a, q)
  {
    BeforeExtends(a, b, [], q[|b|..]);
    assert a + [] == a && b + q[|b|..] == q;
  }

  /** What an accepting run does after the first `n` of its steps. */
  lemma PastNode(p: Prog, inp: string, root: Thread, nd: Node, q: seq<bool>, s: Saves) returns (x: seq<bool>, m: nat, end: Thread)
    requires Runnable(p) && root.pc < |p.insts|
    requires Leads(p, inp, root, nd.word, nd.depth, nd.th)
    requires Accepting(p, inp, root, q, s) && nd.word <= q
    ensures q == nd.word + x && Drive(p, inp, nd.th, x, m) == At(end, [])
    ensures p.insts[end.pc] == Match && end.saves == s
  {
    x := q[|nd.word|..];
    assert q == nd.word + x;
    var n: nat, th :| Leads(p, inp, root, q, n, th) && p.insts[th.pc] == Match && th.saves == s;
    DriveExtends(p, inp, root, nd.word, x, nd.depth);
    assert [] + x == x;
    if n < nd.depth {
      DriveOn(p, inp, root, q, n, nd.depth - n);
      assert false;
    }
    m, end := n - nd.depth, th;
    DriveOn(p, inp, root, q, nd.depth, m);
  }

  /** Nodes after one tick of the search. */
  function NextNodes(p: Prog, inp: string, ns: seq<Node>): seq<Node>
    requires Runnable(p) && ns != [] && ns[|ns| - 1].th.pc < |p.insts|
  {
    var rest, nd := ns[..|ns| - 1], ns[|ns| - 1];
    match StepOf(p, inp, nd.th)
    case Goes(t) => rest + [Node(t, nd.word, nd.depth + 1)]
    case Forks(a, b) => rest + [Node(b, nd.word + [true], nd.depth + 1), Node(a, nd.word + [false], nd.depth + 1)]
    case Fails => rest
    case Accepts => ns
  }

  lemma TickIsNext(p: Prog, inp: string, ns: seq<Node>)
    requires Runnable(p) && ns != [] && InProgram(p, SearchOf(ns))
    requires !StepOf(p, inp, ns[|ns| - 1].th).Accepts?
    ensures Tick(p, inp, SearchOf(ns)) == SearchOf(NextNodes(p, inp, ns))
  {
    var rest, nd, ns' := ns[..|ns| - 1], ns[|ns| - 1], NextNodes(p, inp, ns);
    match StepOf(p, inp, nd.th)
    case Goes(t) => assert ns'[..|ns'| - 1] == rest;
    case Forks(a, b) => assert ns'[..|ns'| - 1] == rest + [ns'[|ns'| - 2]];
    case Fails =>
  }

  lemma Child(p: Prog, inp: string, root: Thread, nd: Node, next: Thread, b: seq<bool>)
    requires Runnable(p) && root.pc < |p.insts|
    requires Leads(p, inp, root, nd.word, nd.depth, nd.th)
    requires Drive(p, inp, nd.th, b, 1) == At(next, [])
    ensures Leads(p, inp, root, nd.word + b, nd.depth + 1, next)
  {
    DriveExtends(p, inp, root, nd.word, b, nd.depth);
    assert [] + b == b;
    DriveOn(p, inp, root, nd.word + b, nd.depth, 1);
  }

  lemma NextLeads(p: Prog, inp: string, root: Thread, ns: seq<Node>, k: nat)
    requires Runnable(p) && root.pc < |p.insts|
    requires ns != [] && Frontier(p, inp, root, ns)
    requires k < |NextNodes(p, inp, ns)|
    ensures var nd := NextNodes(p, inp, ns)[k]; Leads(p, inp, root, nd.word, nd.depth, nd.th)
  {
    var nd := ns[|ns| - 1];
    match StepOf(p, inp, nd.th)
    case Goes(t) =>
      Child(p, inp, root, nd, t, []);
      assert nd.word + [] == nd.word;
    case Forks(a, b) =>
      Child(p, inp, root, nd, a, [false]);
      Child(p, inp, root, nd, b, [true]);
    case Fails =>
    case Accepts =>
  }

  lemma NextOrdered(p: Prog, inp: string, root: Thread, ns: seq<Node>, k: nat, l: nat)
    requires Runnable(p) && root.pc < |p.insts|
    requires ns != [] && Frontier(p, inp, root, ns)
    requires k < l < |NextNodes(p, inp, ns)|
    ensures Before(NextNodes(p, inp, ns)[l].word, NextNodes(p, inp, ns)[k].word)
  {
    var nd, last := ns[|ns| - 1], |ns| - 1;
    if l >= last && k < last {
      assert Before(nd.word, ns[k].word);
      assert ns[k].word + [] == ns[k].word && nd.word + [] == nd.word;
      BeforeExtends(nd.word, ns[k].word, [false], []);
      BeforeExtends(nd.word, ns[k].word, [true], []);
    } else if k == last {
      var a, b := nd.word + [false], nd.word + [true];
      assert a[..|nd.word|] == b[..|nd.word|];
    }
  }

  /** An accepting run through a node goes on through one of the node's children. */
  lemma ThroughChild(p: Prog, inp: string, root: Thread, nd: Node, q: seq<bool>, s: Saves)
    requires Runnable(p) && root.pc < |p.insts|
    requires Leads(p, inp, root, nd.word, nd.depth, nd.th)
    requires Accepting(p, inp, root, q, s) && nd.word <= q
    ensures !StepOf(p, inp, nd.th).Fails?
    ensures StepOf(p, inp, nd.th).Forks? ==> nd.word + [true] <= q || nd.word + [false] <= q
  {
    var x, m, end := PastNode(p, inp, root, nd, q, s);
    if StepOf(p, inp, nd.th).Forks? {
      assert m > 0 && x != [];
      assert q[..|nd.word| + 1] == nd.word + [x[0]];
    }
  }

  lemma NextCovers(p: Prog, inp: string, root: Thread, ns: seq<Node>, q: seq<bool>, s: Saves)
    requires Runnable(p) && root.pc < |p.insts|
    requires ns != [] && Frontier(p, inp, root, ns)
    requires Accepting(p, inp, root, q, s)
    ensures exists k :: 0 <= k < |NextNodes(p, inp, ns)| && NextNodes(p, inp, ns)[k].word <= q
  {
    var ns', last := NextNodes(p, inp, ns), |ns| - 1;
    var k :| 0 <= k < |ns| && ns[k].word <= q;
    if k == last {
      ThroughChild(p, inp, root, ns[last], q, s);
      if StepOf(p, inp, ns[last].th).Forks? && ns[last].word + [false] <= q {
        k := last + 1;
      }
    }
    assert ns'[k].word <= q;
  }

  lemma NextFrontier(p: Prog, inp: string, root: Thread, ns: seq<Node>)
    requires Runnable(p) && root.pc < |p.insts|
    requires ns != [] && Frontier(p, inp, root, ns)
    ensures Frontier(p, inp, root, NextNodes(p, inp, ns))
  {
    var ns' := NextNodes(p, inp, ns);
    forall k | 0 <= k < |ns'| ensures Leads(p, inp, root, ns'[k].word, ns'[k].depth, ns'[k].th) {
      NextLeads(p, inp, root, ns, k);
    }
    forall k, l | 0 <= k < l < |ns'| ensures Before(ns'[l].word, ns'[k].word) {
      NextOrdered(p, inp, root, ns, k, l);
    }
    forall q, s | Accepting(p, inp, root, q, s) ensures exists k :: 0 <= k < |ns'| && ns'[k].word <= q {
      NextCovers(p, inp, root, ns, q, s);
    }
  }

  /** `w` accepts with captures `s`, and is preferred to every other accepting run. */
  ghost predicate Preferred(p: Prog, inp: string, root: Thread, w: seq<bool>, s: Saves)
    requires Runnable(p) && root.pc < |p.insts|
  {
    && Accepting(p, inp, root, w, s)
    && forall q, s' :: Accepting(p, inp, root, q, s') ==> q == w || Before(w, q)
  }

  lemma AcceptedIsPreferred(p: Prog, inp: string, root: Thread, ns: seq<Node>)
    requires Runnable(p) && root.pc < |p.insts|
    requires ns != [] && Frontier(p, inp, root, ns)
    requires StepOf(p, inp, ns[|ns| - 1].th).Accepts?
    ensures Preferred(p, inp, root, ns[|ns| - 1].word, ns[|ns| - 1].th.saves)
  {
    var nd := ns[|ns| - 1];
    assert Leads(p, inp, root, nd.word, nd.depth, nd.th);
    forall q, s' | Accepting(p, inp, root, q, s')
      ensures q == nd.word || Before(nd.word, q)
    {
      var k :| 0 <= k < |ns| && ns[k].word <= q;
      if k == |ns| - 1 {
        var x, m, end := PastNode(p, inp, root, nd, q, s');
        assert m == 0;
      } else {
        BeforeLonger(nd.word, ns[k].word, q);
      }
    }
  }

  /** A won search has the preferred accepting run, a lost one none at all; a busy one says nothing. */
  ghost predicate RightAnswer(p: Prog, inp: string, root: Thread, r: Search)
    requires Runnable(p) && root.pc < |p.insts|
  {
    match r
    case Won(s) => exists w :: Preferred(p, inp, root, w, s)
    case Lost => forall q, s :: !Accepting(p, inp, root, q, s)
    case Busy(_, _) => true
  }

  /** What holds of the search after every step. */
  ghost predicate Sound(p: Prog, inp: string, root: Thread, m: Search)
    requires Runnable(p) && root.pc < |p.insts|
  {
    RightAnswer(p, inp, root, m) && (m.Busy? ==> exists ns :: Frontier(p, inp, root, ns) && m == SearchOf(ns))
  }

  lemma TickSound(p: Prog, inp: string, root: Thread, m: Search)
    requires Runnable(p) && root.pc < |p.insts|
    requires InProgram(p, m) && Sound(p, inp, root, m)
    ensures Sound(p, inp, root, Tick(p, inp, m))
  {
    if m.Busy? {
      var ns :| Frontier(p, inp, root, ns) && m == SearchOf(ns);
      if StepOf(p, inp, m.th).Accepts? {
        AcceptedIsPreferred(p, inp, root, ns);
      } else {
        NextFrontier(p, inp, root, ns);
        TickIsNext(p, inp, ns);
        if NextNodes(p, inp, ns) == [] {
          NoneLeft(p, inp, root);
        }
      }
    }
  }

  lemma NoneLeft(p: Prog, inp: string, root: Thread)
    requires Runnable(p) && root.pc < |p.insts|
    requires Frontier(p, inp, root, [])
    ensures RightAnswer(p, inp, root, Lost)
  {
  }

  lemma {:induction false} RunSound(p: Prog, inp: string, root: Thread, m: Search, fuel: nat)
    requires Runnable(p) && root.pc < |p.insts|
    requires InProgram(p, m) && Sound(p, inp, root, m)
    ensures Sound(p, inp, root, Run(p, inp, m, fuel))
    decreases fuel
  {
    if fuel > 0 && m.Busy? {
      TickSound(p, inp, root, m);
      RunSound(p, inp, root, Tick(p, inp, m), fuel - 1);
    }
  }

  lemma StartFrontier(p: Prog, inp: string, root: Thread)
    requires Runnable(p) && root.pc < |p.insts|
    ensures Frontier(p, inp, root, [Node(root, [], 0)])
  {
    forall q, s | Accepting(p, inp, root, q, s)
      ensures exists k :: 0 <= k < |[Node(root, [], 0)]| && [Node(root, [], 0)][k].word <= q
    {
      assert [Node(root, [], 0)][0].word <= q;
    }
  }

  /** What a search from `start` may answer, for any program: no fuel bound is assumed. */
  lemma SearchIsRight(p: Prog, inp: string, start: nat, fuel: nat)
    requires Runnable(p)
    ensures RightAnswer(p, inp, Thread(0, start, NoSaves), Run(p, inp, StartAt(start), fuel))
  {
    var root := Thread(0, start, NoSaves);
    StartFrontier(p, inp, root);
    assert StartAt(start) == SearchOf([Node(root, [], 0)]);
    RunSound(p, inp, root, StartAt(start), fuel);
  }

  // ---- a bound on the depth of every run bounds the search

  function Pow2(n: nat): nat {
    if n == 0 then 1 else 2 * Pow2(n - 1)
  }

  /** Nodes of a binary tree whose root is at depth `d` and whose leaves are at depth `depth` at most. */
  function TreeSize(depth: nat, d: nat): nat
    requires d <= depth
    ensures TreeSize(depth, d) == Pow2(depth - d + 1) - 1 >= 1
    decreases depth - d
  {
    if d == depth then 1 else 2 * TreeSize(depth, d + 1) + 1
  }

  ghost predicate Shallow(p: Prog, inp: string, root: Thread, depth: nat)
    requires Runnable(p) && root.pc < |p.insts|
  {
    forall w, n: nat, th :: Leads(p, inp, root, w, n, th) ==> n <= depth
  }

  ghost predicate AllLead(p: Prog, inp: string, root: Thread, ns: seq<Node>, depth: nat)
    requires Runnable(p) && root.pc < |p.insts|
  {
    forall k :: 0 <= k < |ns| ==> Leads(p, inp, root, ns[k].word, ns[k].depth, ns[k].th) && ns[k].depth <= depth
  }

  ghost function Weight(p: Prog, inp: string, root: Thread, ns: seq<Node>, depth: nat): nat
    requires Runnable(p) && root.pc < |p.insts| && AllLead(p, inp, root, ns, depth)
  {
    if ns == [] then 0
    else Weight(p, inp, root, ns[..|ns| - 1], depth) + TreeSize(depth, ns[|ns| - 1].depth)
  }

  lemma NextLead(p: Prog, inp: string, root: Thread, ns: seq<Node>, depth: nat)
    requires Runnable(p) && root.pc < |p.insts| && Shallow(p, inp, root, depth)
    requires ns != [] && AllLead(p, inp, root, ns, depth)
    requires !StepOf(p, inp, ns[|ns| - 1].th).Accepts?
    ensures AllLead(p, inp, root, NextNodes(p, inp, ns), depth)
  {
    var nd := ns[|ns| - 1];
    match StepOf(p, inp, nd.th)
    case Goes(t) =>
      Child(p, inp, root, nd, t, []);
      assert nd.word + [] == nd.word;
    case Forks(a, b) =>
      Child(p, inp, root, nd, a, [false]);
      Child(p, inp, root, nd, b, [true]);
    case Fails =>
  }

  lemma NextWeighsLess(p: Prog, inp: string, root: Thread, ns: seq<Node>, depth: nat)
    requires Runnable(p) && root.pc < |p.insts|
    requires ns != [] && AllLead(p, inp, root, ns, depth)
    requires !StepOf(p, inp, ns[|ns| - 1].th).Accepts?
    requires AllLead(p, inp, root, NextNodes(p, inp, ns), depth)
    ensures Weight(p, inp, root, NextNodes(p, inp, ns), depth) < Weight(p, inp, root, ns, depth)
  {
    var rest, nd, ns' := ns[..|ns| - 1], ns[|ns| - 1], NextNodes(p, inp, ns);
    match StepOf(p, inp, nd.th)
    case Goes(t) =>
      assert ns'[..|ns'| - 1] == rest;
      assert ns'[|ns'| - 1].depth == nd.depth + 1;
    case Forks(a, b) =>
      assert ns'[|ns'| - 1].depth == nd.depth + 1;
      var mid := rest + [ns'[|ns'| - 2]];
      assert ns'[..|ns'| - 1] == mid && mid[..|mid| - 1] == rest;
      assert AllLead(p, inp, root, mid, depth);
    case Fails =>
  }

  lemma {:induction false} RunEnds(p: Prog, inp: string, root: Thread, ns: seq<Node>, depth: nat, fuel: nat)
    requires Runnable(p) && root.pc < |p.insts| && Shallow(p, inp, root, depth)
    requires AllLead(p, inp, root, ns, depth) && InProgram(p, SearchOf(ns))
    requires fuel >= Weight(p, inp, root, ns, depth)
    ensures !Run(p, inp, SearchOf(ns), fuel).Busy?
    decreases fuel
  {
    if ns != [] {
      if StepOf(p, inp, ns[|ns| - 1].th).Accepts? {
        assert Run(p, inp, SearchOf(ns), fuel) == Run(p, inp, Won(ns[|ns| - 1].th.saves), fuel - 1);
      } else {
        NextLead(p, inp, root, ns, depth);
        NextWeighsLess(p, inp, root, ns, depth);
        TickIsNext(p, inp, ns);
        RunEnds(p, inp, root, NextNodes(p, inp, ns), depth, fuel - 1);
      }
    }
  }

  /** If no run from the root takes more than `depth` steps, the search ends within 2^(depth+1) - 1 steps. */
  lemma SearchEnds(p: Prog, inp: string, start: nat, depth: nat, fuel: nat)
    requires Runnable(p) && Shallow(p, inp, Thread(0, start, NoSaves), depth)
    requires fuel >= Pow2(depth + 1) - 1
    ensures !Run(p, inp, StartAt(start), fuel).Busy?
  {
    var root := Thread(0, start, NoSaves);
    var ns := [Node(root, [], 0)];
    assert Leads(p, inp, root, [], 0, root);
    assert ns[..0] == [] && StartAt(start) == SearchOf(ns);
    assert Weight(p, inp, root, ns, depth) == TreeSize(depth, 0);
    RunEnds(p, inp, root, ns, depth, fuel);
  }
}
