/** The backtracking machine that runs a compiled pattern. */
module RegexMachine {
  import opened RegexSyntax
  import opened RegexMeaning
  import opened RegexCompiler

  /** One way the match may be going on: program counter, input position, captures. */
  datatype Thread = Thread(pc: nat, sp: nat, saves: Saves)

  datatype Step = Fails | Goes(next: Thread) | Forks(first: Thread, second: Thread) | Accepts

  /** Instruction `k` stays inside the program and its tables. */
  predicate InstOk(p: Prog, k: nat)
    requires k < |p.insts|
  {
    match p.insts[k]
    case Match => true
    case Jmp(a) => a < |p.insts|
    case Split(a, b) => a < |p.insts| && b < |p.insts|
    case InClass(ci) => ci < |p.classes| && k + 1 < |p.insts|
    case Save(slot) => slot < NSLOTS && k + 1 < |p.insts|
    case _ => k + 1 < |p.insts|
  }

  ghost predicate Runnable(p: Prog) {
    |p.insts| > 0 && forall k :: 0 <= k < |p.insts| ==> InstOk(p, k)
  }

  function Advance(th: Thread, chars: nat): Thread {
    Thread(th.pc + 1, th.sp + chars, th.saves)
  }

  function StepOf(p: Prog, inp: string, th: Thread): (r: Step)
    requires Runnable(p) && th.pc < |p.insts|
    ensures r.Goes? ==> r.next.pc < |p.insts|
    ensures r.Forks? ==> r.first.pc < |p.insts| && r.second.pc < |p.insts|
    ensures r.Accepts? <==> p.insts[th.pc] == Match
  {
    assert InstOk(p, th.pc);
    match p.insts[th.pc]
    case Char(c) => if th.sp < |inp| && inp[th.sp] == c then Goes(Advance(th, 1)) else Fails
    case Any => if th.sp < |inp| then Goes(Advance(th, 1)) else Fails
    case InClass(ci) => if th.sp < |inp| && p.classes[ci].Has(inp[th.sp]) then Goes(Advance(th, 1)) else Fails
    case AtBol => if th.sp == 0 then Goes(Advance(th, 0)) else Fails
    case AtEol => if th.sp == |inp| then Goes(Advance(th, 0)) else Fails
    case Save(slot) => Goes(Thread(th.pc + 1, th.sp, th.saves[slot := th.sp]))
    case Jmp(a) => Goes(Thread(a, th.sp, th.saves))
    case Split(a, b) => Forks(Thread(a, th.sp, th.saves), Thread(b, th.sp, th.saves))
    case Match => Accepts
  }

  /** A running search (the threads still to be tried, the next one last), or its result. */
  datatype Search = Busy(th: Thread, stack: seq<Thread>) | Won(saves: Saves) | Lost

  ghost predicate InProgram(p: Prog, m: Search) {
    m.Busy? ==> m.th.pc < |p.insts| && forall k :: 0 <= k < |m.stack| ==> m.stack[k].pc < |p.insts|
  }

  function Tick(p: Prog, inp: string, m: Search): (r: Search)
    requires Runnable(p) && InProgram(p, m)
    ensures InProgram(p, r)
  {
    if !m.Busy? then m
    else match StepOf(p, inp, m.th)
      case Fails => if m.stack == [] then Lost else Busy(m.stack[|m.stack| - 1], m.stack[..|m.stack| - 1])
      case Goes(t) => Busy(t, m.stack)
      case Forks(a, b) => Busy(a, m.stack + [b])
      case Accepts => Won(m.th.saves)
  }

  /** The search after at most `fuel` steps. */
  function Run(p: Prog, inp: string, m: Search, fuel: nat): (r: Search)
    requires Runnable(p) && InProgram(p, m)
    ensures InProgram(p, r)
    decreases fuel
  {
    if fuel == 0 || !m.Busy? then m else Run(p, inp, Tick(p, inp, m), fuel - 1)
  }

  function StartAt(start: nat): Search {
    Busy(Thread(0, start, NoSaves), [])
  }

  function Outcome(m: Search): Option<Saves> {
    if m.Won? then Some(m.saves) else None
  }

  /** What `MatchAt` answers with the step cap `cap` (2 000 000 in the program; any number here). `None` also stands for a search that ran out of steps. */
  function Matched(p: Prog, inp: string, start: nat, cap: nat): Option<Saves>
    requires Runnable(p)
  {
    Outcome(Run(p, inp, StartAt(start), cap))
  }

  /** Finds a match starting at position `start`. */
  method MatchAt(p: Prog, inp: string, start: nat, cap: nat) returns (r: Option<Saves>)
    requires Runnable(p)
    ensures r == Matched(p, inp, start, cap)
  {
    var saves := NoSaves;
    var stack: seq<Thread> := [];
    var pc: nat, sp: nat := 0, start;
    var steps := 0;
    while true
      invariant 0 <= steps <= cap
      invariant InProgram(p, Busy(Thread(pc, sp, saves), stack))
      invariant Run(p, inp, Busy(Thread(pc, sp, saves), stack), cap - steps) == Run(p, inp, StartAt(start), cap)
      decreases cap - steps
    {
      steps := steps + 1;
      if steps > cap { return None; }
      ghost var m := Busy(Thread(pc, sp, saves), stack);
      assert InstOk(p, pc);
      var ok := true;
      match p.insts[pc] {
        case Char(c) =>
          if sp < |inp| && inp[sp] == c { sp := sp + 1; pc := pc + 1; } else { ok := false; }
        case Any =>
          if sp < |inp| { sp := sp + 1; pc := pc + 1; } else { ok := false; }
        case InClass(ci) =>
          if sp < |inp| && p.classes[ci].Has(inp[sp]) { sp := sp + 1; pc := pc + 1; } else { ok := false; }
        case AtBol =>
          if sp == 0 { pc := pc + 1; } else { ok := false; }
        case AtEol =>
          if sp == |inp| { pc := pc + 1; } else { ok := false; }
        case Save(slot) =>
          // On backtracking the copy kept by Split comes back, so it is recorded in place.
          saves := saves[slot := sp];
          pc := pc + 1;
        case Jmp(a) =>
          pc := a;
        case Split(a, b) =>
          stack := stack + [Thread(b, sp, saves)];
          pc := a;
        case Match =>
          return Some(saves);
      }
      if !ok {
        if stack == [] { return None; }
        var back := stack[|stack| - 1];
        stack := stack[..|stack| - 1];
        pc, sp, saves := back.pc, back.sp, back.saves;
      }
      assert Tick(p, inp, m) == Busy(Thread(pc, sp, saves), stack);
    }
    assert false;
    r := None;
  }

  /** The first start from `from` on where `MatchAt` answers. */
  function Found(p: Prog, inp: string, from: nat, cap: nat): (r: Option<Saves>)
    requires Runnable(p)
    decreases |inp| - from
  {
    if Matched(p, inp, from, cap).Some? then Matched(p, inp, from, cap)
    else if from >= |inp| then None
    else Found(p, inp, from + 1, cap)
  }

  /** Finds the first match anywhere in the input. */
  method SearchFrom(p: Prog, inp: string, from: nat, cap: nat) returns (r: Option<Saves>)
    requires Runnable(p)
    ensures r == Found(p, inp, from, cap)
  {
    var at := from;
    while true
      invariant from <= at
      invariant Found(p, inp, at, cap) == Found(p, inp, from, cap)
      decreases |inp| - at
    {
      var s := MatchAt(p, inp, at, cap);
      if s.Some? { return s; }
      if at >= |inp| { return None; }
      at := at + 1;
    }
    assert false;
    r := None;
  }
}
