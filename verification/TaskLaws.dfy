/**
 * What a task that sends, receives or waits finds, said of the channels and marks themselves
 * (micai/src/rt_conc.c, micai/src/interp.rs).
 */
module TaskLaws {
  import opened TaskModel
  import opened TaskSafety

  /** A receiver waits on a channel that is empty and open, a sender on one that is open, sized and full. */
  predicate MustWait(s: State, op: Op) {
    match op
    case Recv(c) => c < |s.chans| && |s.chans[c].queue| == 0 && !s.chans[c].closed
    case Send(c, _) => c < |s.chans| && !s.chans[c].closed && s.chans[c].cap > 0 && |s.chans[c].queue| >= s.chans[c].cap
    case Join(t) => t < |s.tasks| && !s.tasks[t].done
    case JoinAll => s.k.live > 1
  }

  ghost predicate Goes(s: State, t: nat) {
    s.halt.On? && t < |s.tasks| && s.tasks[t].status.Running?
  }

  lemma MustWaitIff(s: State, op: Op)
    requires Valid(s, op)
    ensures MustWait(s, op) <==> !Ready(s, op)
  {
  }

  // ------------------------------------------------------------------ one attempt

  /** Waiting changes nothing but the waiter, or is reported when nobody else is up. */
  lemma WaitIs(rt: Runtime, s: State, t: nat, op: Op)
    requires t < |s.tasks| && Valid(s, op) && MustWait(s, op)
    ensures var r := Attempt(rt, true, s, t, op);
      r.chans == s.chans && r.tasks == s.tasks[t := Task(Waiting(op, s.k.epoch, false), s.tasks[t].done)] &&
      (if s.k.blocked + 1 >= s.k.live then r.halt == Deadlock(t) else r.halt == s.halt && r.k == s.k.(blocked := s.k.blocked + 1))
  {
    MustWaitIff(s, op);
  }

  /** The waiters are woken, and the counters say so. */
  ghost predicate WokenFrom(s: State, r: State) {
    r.k == Counters(s.k.live, 0, s.k.epoch + 1) && |r.tasks| == |s.tasks| &&
    forall i :: 0 <= i < |s.tasks| ==>
      r.tasks[i] == if s.tasks[i].status.Waiting? then s.tasks[i].(status := s.tasks[i].status.(signaled := true)) else s.tasks[i]
  }

  /** A send that need not wait: refused on a closed channel, else its value is last in the queue. */
  lemma SendIs(rt: Runtime, s: State, t: nat, c: nat, v: Value)
    requires t < |s.tasks| && c < |s.chans| && !MustWait(s, Send(c, v))
    ensures var r, ch := Attempt(rt, true, s, t, Send(c, v)), s.chans[c];
      if ch.closed then r.halt == SentOnClosed(t) && r.chans == s.chans
      else r.halt == s.halt && WokenFrom(s, r) && r.chans == s.chans[c := ch.(queue := ch.queue + [v], sent := ch.sent + [v])]
  {
    MustWaitIff(s, Send(c, v));
  }

  /** A receive that need not wait: the first value, or the end of a channel that is closed and empty. */
  lemma RecvIs(rt: Runtime, s: State, t: nat, c: nat)
    requires t < |s.tasks| && c < |s.chans| && !MustWait(s, Recv(c))
    ensures var r, ch := Attempt(rt, true, s, t, Recv(c)), s.chans[c];
      r.halt == s.halt &&
      if |ch.queue| > 0 then
        WokenFrom(s, r) && r.chans == s.chans[c := ch.(queue := ch.queue[1..], received := ch.received + [ch.queue[0]])]
      else
        r.chans == s.chans[c := ch.(ended := true)] && if rt.Interpreter? then WokenFrom(s, r) else r.k == s.k && r.tasks == s.tasks
  {
    MustWaitIff(s, Recv(c));
  }

  /** Waiting for a task that is done, or for all when no other is live, goes on at once. */
  lemma JoinIs(rt: Runtime, s: State, t: nat, op: Op)
    requires t < |s.tasks| && Valid(s, op) && (op.Join? || op.JoinAll?) && !MustWait(s, op)
    ensures var r := Attempt(rt, true, s, t, op);
      r.chans == s.chans && r.halt == (if op.JoinAll? then Exited else s.halt) &&
      if rt.Interpreter? then WokenFrom(s, r) else r.k == s.k && r.tasks == s.tasks
  {
    MustWaitIff(s, op);
  }

  // ------------------------------------------------------------------ who may go, and what else tasks do

  /** A running task may start, send, receive, open, close, wait for or end anything; a waiter may wake up at any time. */
  lemma AnyoneMayGo(rt: Runtime, s: State, t: nat, c: nat, u: nat, v: Value, cap: nat)
    requires s.halt.On? && t < |s.tasks|
    ensures s.tasks[t].status.Running? ==>
      Enabled(rt, s, t, Spawn) && Enabled(rt, s, t, Open(cap)) && (t != 0 ==> Enabled(rt, s, t, Finish)) &&
      (c < |s.chans| ==> Enabled(rt, s, t, Close(c)) && Enabled(rt, s, t, Begin(Send(c, v))) && Enabled(rt, s, t, Begin(Recv(c)))) &&
      (u < |s.tasks| ==> Enabled(rt, s, t, Begin(Join(u)))) && (t == 0 ==> Enabled(rt, s, t, Begin(JoinAll)))
    ensures s.tasks[t].status.Waiting? && Base(s) ==> Enabled(rt, s, t, WakeUp)
    ensures s.tasks[t].status.Leaving? ==> Enabled(rt, s, t, Leave)
  {
    if s.tasks[t].status.Waiting? && Base(s) { assert TaskOk(s, t); }
  }

  /** Starting a task or opening a channel adds one and changes nothing else; closing a channel wakes everyone. */
  lemma StartsAre(rt: Runtime, s: State, t: nat, cap: nat, c: nat)
    requires Goes(s, t)
    ensures Step(rt, true, s, t, Spawn) == s.(k := s.k.(live := s.k.live + 1), tasks := s.tasks + [Task(Running, false)])
    ensures Step(rt, true, s, t, Open(cap)) == s.(chans := s.chans + [Chan(cap, [], false, [], [], false)])
    ensures c < |s.chans| ==>
      var r := Step(rt, true, s, t, Close(c));
      WokenFrom(s, r) && r.halt.On? && r.chans == s.chans[c := s.chans[c].(closed := true)]
  {
  }

  /** A task that ends is done, counts no more and wakes everyone; the interpreter marks it done one step before. */
  lemma EndingIs(rt: Runtime, s: State, t: nat)
    requires s.halt.On? && t < |s.tasks| && if s.tasks[t].status.Running? then t != 0 else s.tasks[t].status.Leaving?
    ensures var r := Step(rt, true, s, t, if s.tasks[t].status.Running? then Finish else Leave);
      r.halt.On? && r.chans == s.chans &&
      if rt.Interpreter? && s.tasks[t].status.Running? then WokenFrom(s.(tasks := s.tasks[t := Task(Leaving, true)]), r)
      else WokenFrom(s.(tasks := s.tasks[t := Task(Gone, true)], k := s.k.(live := s.k.live - 1)), r)
  {
  }

  /** A waiter that wakes up counts as waiting no more, unless everyone was woken since, and tries again. */
  lemma WakingUpIs(rt: Runtime, s: State, t: nat)
    requires Enabled(rt, s, t, WakeUp)
    ensures var w := s.tasks[t].status;
      var back := s.(tasks := s.tasks[t := Task(Running, s.tasks[t].done)],
        k := if s.k.epoch == w.epoch then s.k.(blocked := s.k.blocked - 1) else s.k);
      Step(rt, true, s, t, WakeUp) == Attempt(rt, true, back, t, w.op)
  {
  }

  // ------------------------------------------------------------------ over schedules

  /** One task sends the values one after the other. */
  function Sends(t: nat, c: nat, vs: seq<Value>): (r: seq<Pick>)
    ensures |r| == |vs|
  {
    if vs == [] then [] else [Pick(t, Begin(Send(c, vs[0])))] + Sends(t, c, vs[1..])
  }

  /** The channel with `vs` sent onto it. */
  function WithSent(ch: Chan, vs: seq<Value>): Chan {
    ch.(queue := ch.queue + vs, sent := ch.sent + vs)
  }

  lemma SentOn(ch: Chan, v: Value, vs: seq<Value>)
    ensures WithSent(WithSent(ch, [v]), vs) == WithSent(ch, [v] + vs)
    ensures WithSent(ch, []) == ch
  {
    assert (ch.queue + [v]) + vs == ch.queue + ([v] + vs) && (ch.sent + [v]) + vs == ch.sent + ([v] + vs);
    assert ch.queue + [] == ch.queue && ch.sent + [] == ch.sent;
  }

  /** The first of several sends, when there is room. */
  lemma SendOne(rt: Runtime, s: State, t: nat, c: nat, vs: seq<Value>)
    requires Goes(s, t) && c < |s.chans| && !s.chans[c].closed && vs != []
    requires s.chans[c].cap == 0 || |s.chans[c].queue| < s.chans[c].cap
    ensures var next := Attempt(rt, true, s, t, Send(c, vs[0]));
      Goes(next, t) && next.chans == s.chans[c := WithSent(s.chans[c], [vs[0]])] &&
      After(rt, true, s, Sends(t, c, vs)) == After(rt, true, next, Sends(t, c, vs[1..]))
  {
    SendIs(rt, s, t, c, vs[0]);
    assert Sends(t, c, vs)[1..] == Sends(t, c, vs[1..]);
  }

  /** Any number of values goes onto an open channel without a size, and as many as fit onto a sized one. */
  lemma {:induction false} SendsNeverWait(rt: Runtime, s: State, t: nat, c: nat, vs: seq<Value>)
    requires Goes(s, t) && c < |s.chans| && !s.chans[c].closed
    requires s.chans[c].cap == 0 || |s.chans[c].queue| + |vs| <= s.chans[c].cap
    ensures var r, ch := After(rt, true, s, Sends(t, c, vs)), s.chans[c];
      Goes(r, t) && r.chans == s.chans[c := ch.(queue := ch.queue + vs, sent := ch.sent + vs)]
    decreases |vs|
  {
    if vs == [] {
      SentOn(s.chans[c], 0, []);
    } else {
      SendOne(rt, s, t, c, vs);
      SendsNeverWait(rt, Attempt(rt, true, s, t, Send(c, vs[0])), t, c, vs[1..]);
      SentOn(s.chans[c], vs[0], vs[1..]);
      assert vs == [vs[0]] + vs[1..];
    }
  }

  lemma {:induction false} AfterTwo(rt: Runtime, report: bool, s: State, a: seq<Pick>, b: seq<Pick>)
    ensures After(rt, report, s, a + b) == After(rt, report, After(rt, report, s, a), b)
    decreases |a|
  {
    if a == [] {
      assert a + b == b;
    } else {
      assert (a + b)[0] == a[0] && (a + b)[1..] == a[1..] + b;
      AfterTwo(rt, report, if Enabled(rt, s, a[0].t, a[0].a) then Step(rt, report, s, a[0].t, a[0].a) else s, a[1..], b);
    }
  }

  lemma {:induction false} SendsSplit(t: nat, c: nat, vs: seq<Value>, n: nat)
    requires n < |vs|
    ensures Sends(t, c, vs) == Sends(t, c, vs[..n]) + ([Pick(t, Begin(Send(c, vs[n])))] + Sends(t, c, vs[n + 1..]))
    decreases n
  {
    if n == 0 {
      assert vs[..0] == [];
    } else {
      SendsSplit(t, c, vs[1..], n - 1);
      assert vs[1..][..n - 1] == vs[..n][1..] && vs[1..][n..] == vs[n + 1..];
    }
  }

  lemma {:induction false} NothingMore(rt: Runtime, s: State, t: nat, c: nat, vs: seq<Value>)
    requires t < |s.tasks| && !s.tasks[t].status.Running?
    ensures After(rt, true, s, Sends(t, c, vs)) == s
    decreases |vs|
  {
    if vs != [] {
      assert Sends(t, c, vs)[1..] == Sends(t, c, vs[1..]);
      NothingMore(rt, s, t, c, vs[1..]);
    }
  }

  /** Onto a sized channel go exactly as many values as there is room for; then the sender waits with the next one. */
  lemma SendsFillUp(rt: Runtime, s: State, t: nat, c: nat, vs: seq<Value>)
    requires Goes(s, t) && c < |s.chans| && !s.chans[c].closed && s.chans[c].cap > 0
    requires |s.chans[c].queue| <= s.chans[c].cap < |s.chans[c].queue| + |vs|
    ensures var r, ch := After(rt, true, s, Sends(t, c, vs)), s.chans[c];
      var room := ch.cap - |ch.queue|;
      t < |r.tasks| && r.tasks[t].status.Waiting? && r.tasks[t].status.op == Send(c, vs[room]) &&
      r.chans == s.chans[c := ch.(queue := ch.queue + vs[..room], sent := ch.sent + vs[..room])] &&
      (r.halt == On || r.halt == Deadlock(t))
  {
    var room := s.chans[c].cap - |s.chans[c].queue|;
    var full := After(rt, true, s, Sends(t, c, vs[..room]));
    SendsNeverWait(rt, s, t, c, vs[..room]);
    SendsSplit(t, c, vs, room);
    var p := Pick(t, Begin(Send(c, vs[room])));
    AfterTwo(rt, true, s, Sends(t, c, vs[..room]), [p] + Sends(t, c, vs[room + 1..]));
    WaitIs(rt, full, t, Send(c, vs[room]));
    var stop := Attempt(rt, true, full, t, Send(c, vs[room]));
    assert ([p] + Sends(t, c, vs[room + 1..]))[1..] == Sends(t, c, vs[room + 1..]);
    assert After(rt, true, full, [p] + Sends(t, c, vs[room + 1..])) == After(rt, true, stop, Sends(t, c, vs[room + 1..]));
    NothingMore(rt, stop, t, c, vs[room + 1..]);
  }

  /** One task receives `n` times. */
  function Recvs(t: nat, c: nat, n: nat): (r: seq<Pick>)
    ensures |r| == n
  {
    if n == 0 then [] else [Pick(t, Begin(Recv(c)))] + Recvs(t, c, n - 1)
  }

  /** The channel with its first `n` values received. */
  function WithTaken(ch: Chan, n: nat): Chan
    requires n <= |ch.queue|
  {
    ch.(queue := ch.queue[n..], received := ch.received + ch.queue[..n])
  }

  lemma TakenOn(ch: Chan, n: nat)
    requires n <= |ch.queue|
    ensures if n == 0 then WithTaken(ch, 0) == ch else WithTaken(WithTaken(ch, 1), n - 1) == WithTaken(ch, n)
  {
    var q := ch.queue;
    if n == 0 {
      assert q[0..] == q && ch.received + q[..0] == ch.received;
    } else {
      assert q[1..][n - 1..] == q[n..] && (ch.received + q[..1]) + q[1..][..n - 1] == ch.received + q[..n];
    }
  }

  /** The first of several receives, when there is a value. */
  lemma RecvOne(rt: Runtime, s: State, t: nat, c: nat, n: nat)
    requires Goes(s, t) && c < |s.chans| && 0 < n <= |s.chans[c].queue|
    ensures var next := Attempt(rt, true, s, t, Recv(c));
      Goes(next, t) && next.chans == s.chans[c := WithTaken(s.chans[c], 1)] &&
      After(rt, true, s, Recvs(t, c, n)) == After(rt, true, next, Recvs(t, c, n - 1))
  {
    RecvIs(rt, s, t, c);
    assert [s.chans[c].queue[0]] == s.chans[c].queue[..1];
    assert Recvs(t, c, n)[1..] == Recvs(t, c, n - 1);
  }

  /** As many values as are queued are received in order without waiting, open channel or closed. */
  lemma {:induction false} RecvsTakeInOrder(rt: Runtime, s: State, t: nat, c: nat, n: nat)
    requires Goes(s, t) && c < |s.chans| && n <= |s.chans[c].queue|
    ensures var r, ch := After(rt, true, s, Recvs(t, c, n)), s.chans[c];
      Goes(r, t) && r.chans == s.chans[c := ch.(queue := ch.queue[n..], received := ch.received + ch.queue[..n])]
    decreases n
  {
    TakenOn(s.chans[c], n);
    if n > 0 {
      RecvOne(rt, s, t, c, n);
      RecvsTakeInOrder(rt, Attempt(rt, true, s, t, Recv(c)), t, c, n - 1);
    }
  }

  // ------------------------------------------------------------------ reports

  /** All live tasks but `t` are asleep: waiting, each for something that is not there, and none woken. */
  ghost predicate AllOthersWait(s: State, t: nat) {
    forall i :: 0 <= i < |s.tasks| && i != t && !s.tasks[i].status.Gone? ==>
      s.tasks[i].status.Waiting? && !s.tasks[i].status.signaled && MustWait(s, s.tasks[i].status.op)
  }

  /** After any schedule: an attempt reports a deadlock exactly when it must wait and so must every other live task. */
  lemma DeadlockIff(rt: Runtime, picks: seq<Pick>, t: nat, op: Op)
    requires var s := After(rt, true, Init, picks); Enabled(rt, s, t, Begin(op))
    ensures var s := After(rt, true, Init, picks);
      Step(rt, true, s, t, Begin(op)).halt.Deadlock? <==> MustWait(s, op) && AllOthersWait(s, t)
  {
    var s := After(rt, true, Init, picks);
    ReachableGood(rt, picks);
    MustWaitIff(s, op);
    if MustWait(s, op) {
      ReportIffAllAsleep(rt, s, t, op);
      AsleepAreWaiting(s, t);
    } else {
      NoReport(rt, s, t, op);
    }
  }

  lemma NoReport(rt: Runtime, s: State, t: nat, op: Op)
    requires t < |s.tasks| && Valid(s, op) && !MustWait(s, op) && s.halt.On?
    ensures !Attempt(rt, true, s, t, op).halt.Deadlock?
  {
    match op
    case Recv(c) => RecvIs(rt, s, t, c);
    case Send(c, v) => SendIs(rt, s, t, c, v);
    case Join(_) => JoinIs(rt, s, t, op);
    case JoinAll => JoinIs(rt, s, t, op);
  }

  lemma AsleepAreWaiting(s: State, t: nat)
    requires Inv(s)
    ensures OthersAsleep(s, t) <==> AllOthersWait(s, t)
  {
    forall i | 0 <= i < |s.tasks| && s.tasks[i].status.Waiting? && !s.tasks[i].status.signaled
      ensures MustWait(s, s.tasks[i].status.op)
    {
      assert TaskOk(s, i) && IsCurrent(s.tasks[i], s.k.epoch);
      MustWaitIff(s, s.tasks[i].status.op);
    }
  }

  /** When a deadlock has been reported, every live task waits for something that is not there. */
  lemma ReportedMustWait(rt: Runtime, picks: seq<Pick>, i: nat)
    requires var s := After(rt, true, Init, picks); s.halt.Deadlock? && i < |s.tasks| && !s.tasks[i].status.Gone?
    ensures var s := After(rt, true, Init, picks); s.tasks[i].status.Waiting? && MustWait(s, s.tasks[i].status.op)
  {
    var s := After(rt, true, Init, picks);
    ReportsAreSound(rt, picks, []);
    MustWaitIff(s, s.tasks[i].status.op);
  }
}
