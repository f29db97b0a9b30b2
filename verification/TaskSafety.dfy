/** Over every schedule: deadlock reports are exact, no wake-up is lost, and channels are queues. */
module TaskSafety {
  import opened TaskModel

  // ---- counting tasks

  predicate IsLive(t: Task) {
    !t.status.Gone?
  }

  /** Waiting, and counted as waiting: not woken since. */
  predicate IsCurrent(t: Task, epoch: nat) {
    t.status.Waiting? && t.status.epoch == epoch
  }

  function One(b: bool): nat {
    if b then 1 else 0
  }

  function LiveCount(ts: seq<Task>): nat {
    if ts == [] then 0 else One(IsLive(ts[0])) + LiveCount(ts[1..])
  }

  function CurrentCount(ts: seq<Task>, epoch: nat): nat {
    if ts == [] then 0 else One(IsCurrent(ts[0], epoch)) + CurrentCount(ts[1..], epoch)
  }

  lemma {:induction false} CountUpdate(ts: seq<Task>, i: nat, x: Task, epoch: nat)
    requires i < |ts|
    ensures LiveCount(ts[i := x]) == LiveCount(ts) - One(IsLive(ts[i])) + One(IsLive(x))
    ensures CurrentCount(ts[i := x], epoch) == CurrentCount(ts, epoch) - One(IsCurrent(ts[i], epoch)) + One(IsCurrent(x, epoch))
  {
    var us := ts[i := x];
    if i == 0 {
      assert us[1..] == ts[1..];
    } else {
      assert us[1..] == ts[1..][i - 1 := x];
      CountUpdate(ts[1..], i - 1, x, epoch);
    }
  }

  lemma {:induction false} CountAppend(ts: seq<Task>, x: Task, epoch: nat)
    ensures LiveCount(ts + [x]) == LiveCount(ts) + One(IsLive(x))
    ensures CurrentCount(ts + [x], epoch) == CurrentCount(ts, epoch) + One(IsCurrent(x, epoch))
  {
    if ts == [] {
      assert ts + [x] == [x];
    } else {
      assert (ts + [x])[1..] == ts[1..] + [x];
      CountAppend(ts[1..], x, epoch);
    }
  }

  lemma {:induction false} CountSignal(ts: seq<Task>, epoch: nat)
    requires forall i :: 0 <= i < |ts| && ts[i].status.Waiting? ==> ts[i].status.epoch < epoch
    ensures LiveCount(Signal(ts)) == LiveCount(ts) && CurrentCount(Signal(ts), epoch) == 0
  {
    if ts != [] {
      CountSignal(ts[1..], epoch);
      assert Signal(ts)[1..] == Signal(ts[1..]);
    }
  }

  lemma {:induction false} CurrentAreLive(ts: seq<Task>, epoch: nat)
    ensures CurrentCount(ts, epoch) <= LiveCount(ts)
    ensures CurrentCount(ts, epoch) == LiveCount(ts) ==> forall i :: 0 <= i < |ts| && IsLive(ts[i]) ==> IsCurrent(ts[i], epoch)
  {
    if ts != [] {
      CurrentAreLive(ts[1..], epoch);
      if CurrentCount(ts, epoch) == LiveCount(ts) {
        forall i | 0 <= i < |ts| && IsLive(ts[i]) ensures IsCurrent(ts[i], epoch) {
          if i > 0 { assert ts[i] == ts[1..][i - 1]; }
        }
      }
    }
  }

  lemma {:induction false} AllCurrent(ts: seq<Task>, epoch: nat)
    requires forall i :: 0 <= i < |ts| && IsLive(ts[i]) ==> IsCurrent(ts[i], epoch)
    ensures CurrentCount(ts, epoch) == LiveCount(ts)
  {
    if ts != [] {
      AllCurrent(ts[1..], epoch);
    }
  }

  // ---- the invariant

  /** A channel is a queue: what was sent is what was received and then what is still queued. */
  predicate ChanOk(c: Chan) {
    && c.sent == c.received + c.queue
    && (c.cap > 0 ==> |c.queue| <= c.cap)
    && (c.ended ==> c.closed && c.received == c.sent)
  }

  predicate TaskOk(s: State, i: nat)
    requires i < |s.tasks|
  {
    var x := s.tasks[i];
    && (x.done <==> x.status.Leaving? || x.status.Gone?)
    && (i == 0 ==> x.status.Running? || x.status.Waiting?)
    && (x.status.Waiting? ==>
          && Valid(s, x.status.op) && (x.status.op.JoinAll? ==> i == 0)
          && x.status.epoch <= s.k.epoch && (x.status.signaled <==> x.status.epoch < s.k.epoch))
  }

  /** What holds also in the middle of a critical section that will wake everybody. */
  ghost predicate Base(s: State) {
    && |s.tasks| > 0 && s.k.live == LiveCount(s.tasks)
    && (forall i :: 0 <= i < |s.tasks| ==> TaskOk(s, i))
    && (forall c :: 0 <= c < |s.chans| ==> ChanOk(s.chans[c]))
  }

  /** The conditions of all waiters that have not been woken are false. */
  ghost predicate NoneMissed(s: State)
    requires Base(s)
  {
    forall i :: 0 <= i < |s.tasks| && IsCurrent(s.tasks[i], s.k.epoch) ==>
      TaskOk(s, i) && !Ready(s, s.tasks[i].status.op)
  }

  ghost predicate Inv(s: State) {
    && Base(s) && NoneMissed(s)
    && s.k.blocked == CurrentCount(s.tasks, s.k.epoch)
    && s.k.blocked < s.k.live
  }

  lemma {:induction false} LiveAt(ts: seq<Task>, i: nat)
    requires i < |ts| && IsLive(ts[i])
    ensures LiveCount(ts) > 0
  {
    if i > 0 { LiveAt(ts[1..], i - 1); }
  }

  /** Waking everybody re-establishes the invariant, whatever the critical section changed before. */
  lemma WakeAllInv(s: State)
    requires Base(s)
    ensures Inv(WakeAll(s))
  {
    var s' := WakeAll(s);
    forall i | 0 <= i < |s.tasks| && s.tasks[i].status.Waiting?
      ensures s.tasks[i].status.epoch < s.k.epoch + 1
    {
      assert TaskOk(s, i);
    }
    CountSignal(s.tasks, s.k.epoch + 1);
    forall i | 0 <= i < |s'.tasks|
      ensures TaskOk(s', i) && !IsCurrent(s'.tasks[i], s'.k.epoch)
    {
      assert TaskOk(s, i) && s'.tasks[i] == SignalOne(s.tasks[i]);
    }
    assert TaskOk(s, 0);
    LiveAt(s.tasks, 0);
  }

  // ---- every critical section keeps it

  lemma ReacquireInv(s: State, t: nat)
    requires Inv(s) && t < |s.tasks| && s.tasks[t].status.Waiting?
    ensures Inv(Reacquire(s, t))
    ensures Reacquire(s, t).chans == s.chans && Reacquire(s, t).tasks == s.tasks[t := Task(Running, s.tasks[t].done)]
  {
    var s' := Reacquire(s, t);
    assert TaskOk(s, t);
    CountUpdate(s.tasks, t, Task(Running, s.tasks[t].done), s.k.epoch);
    forall i | 0 <= i < |s'.tasks| ensures TaskOk(s', i) {
      assert TaskOk(s, i);
    }
    forall i | 0 <= i < |s'.tasks| && IsCurrent(s'.tasks[i], s'.k.epoch)
      ensures !Ready(s', s'.tasks[i].status.op)
    {
      assert IsCurrent(s.tasks[i], s.k.epoch);
      SameReady(s, s', s.tasks[i].status.op);
    }
  }

  /** A condition depends on the channels, on who is done, and on how many are live. */
  lemma SameReady(s: State, s': State, op: Op)
    requires Valid(s, op) && |s'.tasks| == |s.tasks| && s'.chans == s.chans && s'.k.live == s.k.live
    requires forall i :: 0 <= i < |s.tasks| ==> s'.tasks[i].done == s.tasks[i].done
    ensures Valid(s', op) && Ready(s', op) == Ready(s, op)
  {
  }

  lemma SetChanBase(s: State, c: nat, x: Chan)
    requires Base(s) && c < |s.chans| && ChanOk(x)
    ensures Base(SetChan(s, c, x))
  {
    var s' := SetChan(s, c, x);
    forall i | 0 <= i < |s'.tasks| ensures TaskOk(s', i) {
      assert TaskOk(s, i);
    }
  }

  /** The channel after a successful receive is still a queue. */
  lemma PopOk(ch: Chan)
    requires ChanOk(ch) && ch.queue != []
    ensures ChanOk(ch.(queue := ch.queue[1..], received := ch.received + [ch.queue[0]]))
  {
    assert ch.queue == [ch.queue[0]] + ch.queue[1..];
    assert ch.received + ch.queue == ch.received + [ch.queue[0]] + ch.queue[1..];
  }

  lemma PushOk(ch: Chan, v: Value)
    requires ChanOk(ch) && !ch.closed && (ch.cap == 0 || |ch.queue| < ch.cap)
    ensures ChanOk(ch.(queue := ch.queue + [v], sent := ch.sent + [v]))
  {
    assert ch.received + (ch.queue + [v]) == ch.received + ch.queue + [v];
  }

  /** Marking the end of a channel wakes nobody, and nobody waits for it. */
  lemma EndInv(s: State, c: nat)
    requires Inv(s) && c < |s.chans| && s.chans[c].queue == [] && s.chans[c].closed
    ensures Inv(SetChan(s, c, s.chans[c].(ended := true)))
  {
    var ch := s.chans[c];
    assert ch.sent == ch.received + [];
    SetChanBase(s, c, ch.(ended := true));
    var s' := SetChan(s, c, ch.(ended := true));
    forall i | 0 <= i < |s'.tasks| && IsCurrent(s'.tasks[i], s'.k.epoch)
      ensures !Ready(s', s'.tasks[i].status.op)
    {
      assert !Ready(s, s.tasks[i].status.op);
    }
  }

  /** The program goes on after `Act` with the invariant, or it has ended. */
  lemma ActInv(rt: Runtime, s: State, t: nat, op: Op)
    requires Inv(s) && s.halt.On? && t < |s.tasks| && Valid(s, op) && Ready(s, op)
    ensures var s' := Act(rt, s, t, op);
            Inv(s') && !s'.halt.Deadlock?
  {
    match op
    case Recv(c) =>
      if s.chans[c].queue == [] {
        EndInv(s, c);
        WakeAllInv(SetChan(s, c, s.chans[c].(ended := true)));
      } else {
        var x := s.chans[c].(queue := s.chans[c].queue[1..], received := s.chans[c].received + [s.chans[c].queue[0]]);
        PopOk(s.chans[c]);
        SetChanBase(s, c, x);
        WakeAllInv(SetChan(s, c, x));
      }
    case Send(c, v) =>
      WakeAllInv(s);
      if !s.chans[c].closed {
        var x := s.chans[c].(queue := s.chans[c].queue + [v], sent := s.chans[c].sent + [v]);
        PushOk(s.chans[c], v);
        SetChanBase(s, c, x);
        WakeAllInv(SetChan(s, c, x));
      } else {
        HaltInv(s, SentOnClosed(t));
        HaltInv(WakeAll(s), SentOnClosed(t));
      }
    case Join(_) =>
      WakeAllInv(s);
    case JoinAll =>
      WakeAllInv(s);
      HaltInv(s, Exited);
      HaltInv(WakeAll(s), Exited);
  }

  lemma HaltInv(s: State, h: Halt)
    requires Inv(s)
    ensures Inv(s.(halt := h))
  {
    var s' := s.(halt := h);
    forall i | 0 <= i < |s'.tasks| ensures TaskOk(s', i) {
      assert TaskOk(s, i);
    }
    forall i | 0 <= i < |s'.tasks| && IsCurrent(s'.tasks[i], s'.k.epoch)
      ensures !Ready(s', s'.tasks[i].status.op)
    {
      assert !Ready(s, s.tasks[i].status.op);
    }
  }

  /** Every live task waits for something that is not there. */
  ghost predicate Stuck(s: State) {
    forall i :: 0 <= i < |s.tasks| && IsLive(s.tasks[i]) ==>
      var x := s.tasks[i].status; x.Waiting? && Valid(s, x.op) && !Ready(s, x.op)
  }

  /** The waiters before task `t` joins them, and after. */
  lemma WaitInv(s: State, t: nat, op: Op)
    requires Inv(s) && t < |s.tasks| && s.tasks[t].status.Running?
    requires Valid(s, op) && !Ready(s, op) && (op.JoinAll? ==> t == 0)
    ensures var s' := SetStatus(s, t, Waiting(op, s.k.epoch, false)).(k := s.k.(blocked := s.k.blocked + 1));
            && Base(s') && NoneMissed(s') && s'.k.blocked == CurrentCount(s'.tasks, s'.k.epoch)
            && (s'.k.blocked >= s'.k.live ==> Stuck(s'))
  {
    var s' := SetStatus(s, t, Waiting(op, s.k.epoch, false)).(k := s.k.(blocked := s.k.blocked + 1));
    CountUpdate(s.tasks, t, s'.tasks[t], s.k.epoch);
    assert TaskOk(s, t);
    forall i | 0 <= i < |s'.tasks| ensures TaskOk(s', i) {
      assert TaskOk(s, i);
    }
    forall i | 0 <= i < |s'.tasks| && IsCurrent(s'.tasks[i], s'.k.epoch)
      ensures !Ready(s', s'.tasks[i].status.op)
    {
      if i == t {
        SameReady(s, s', op);
      } else {
        assert IsCurrent(s.tasks[i], s.k.epoch);
        SameReady(s, s', s.tasks[i].status.op);
      }
    }
    if s'.k.blocked >= s'.k.live {
      CurrentAreLive(s'.tasks, s'.k.epoch);
      forall i | 0 <= i < |s'.tasks| && IsLive(s'.tasks[i])
        ensures s'.tasks[i].status.Waiting? && !Ready(s', s'.tasks[i].status.op)
      {
        assert IsCurrent(s'.tasks[i], s'.k.epoch) && TaskOk(s', i);
      }
    }
  }

  /** What holds of every state a schedule can lead to. */
  ghost predicate Good(s: State) {
    Base(s) && if s.halt.Deadlock? then Stuck(s) else Inv(s)
  }

  lemma AttemptGood(rt: Runtime, s: State, t: nat, op: Op)
    requires Inv(s) && s.halt.On? && t < |s.tasks| && s.tasks[t].status.Running?
    requires Valid(s, op) && (op.JoinAll? ==> t == 0)
    ensures Good(Attempt(rt, true, s, t, op))
  {
    if Ready(s, op) {
      ActInv(rt, s, t, op);
    } else {
      WaitInv(s, t, op);
      var k := s.k.(blocked := s.k.blocked + 1);
      var w := SetStatus(s, t, Waiting(op, s.k.epoch, false)).(k := k);
      if k.blocked >= k.live {
        var r := Attempt(rt, true, s, t, op);
        forall i | 0 <= i < |r.tasks| ensures TaskOk(r, i) {
          assert TaskOk(w, i);
        }
        forall i | 0 <= i < |r.tasks| && IsLive(r.tasks[i])
          ensures r.tasks[i].status.Waiting? && Valid(r, r.tasks[i].status.op) && !Ready(r, r.tasks[i].status.op)
        {
          assert w.tasks[i] == r.tasks[i];
          SameReady(w, r, w.tasks[i].status.op);
        }
      } else {
        assert Attempt(rt, true, s, t, op) == w;
      }
    }
  }

  lemma SpawnInv(s: State)
    requires Inv(s)
    ensures Inv(State(s.k.(live := s.k.live + 1), s.tasks + [Task(Running, false)], s.chans, s.halt))
  {
    var s' := State(s.k.(live := s.k.live + 1), s.tasks + [Task(Running, false)], s.chans, s.halt);
    CountAppend(s.tasks, Task(Running, false), s.k.epoch);
    forall i | 0 <= i < |s'.tasks| ensures TaskOk(s', i) {
      if i < |s.tasks| { assert TaskOk(s, i); }
    }
    forall i | 0 <= i < |s'.tasks| && IsCurrent(s'.tasks[i], s'.k.epoch)
      ensures !Ready(s', s'.tasks[i].status.op)
    {
      assert i < |s.tasks| && IsCurrent(s.tasks[i], s.k.epoch) && !Ready(s, s.tasks[i].status.op);
    }
  }

  lemma OpenInv(s: State, cap: nat)
    requires Inv(s)
    ensures Inv(s.(chans := s.chans + [Chan(cap, [], false, [], [], false)]))
  {
    var s' := s.(chans := s.chans + [Chan(cap, [], false, [], [], false)]);
    forall i | 0 <= i < |s'.tasks| ensures TaskOk(s', i) {
      assert TaskOk(s, i);
    }
    forall i | 0 <= i < |s'.tasks| && IsCurrent(s'.tasks[i], s'.k.epoch)
      ensures !Ready(s', s'.tasks[i].status.op)
    {
      assert !Ready(s, s.tasks[i].status.op);
    }
  }

  /** A task that has finished, or is about to leave: only its own mark and the live count change. */
  lemma LeavingBase(s: State, t: nat, x: Status)
    requires Base(s) && 0 < t < |s.tasks| && IsLive(s.tasks[t]) && (x.Leaving? || x.Gone?)
    ensures Base(State(s.k.(live := s.k.live - One(x.Gone?)), s.tasks[t := Task(x, true)], s.chans, s.halt))
  {
    CountUpdate(s.tasks, t, Task(x, true), s.k.epoch);
    var s' := State(s.k.(live := s.k.live - One(x.Gone?)), s.tasks[t := Task(x, true)], s.chans, s.halt);
    forall i | 0 <= i < |s'.tasks| ensures TaskOk(s', i) {
      assert TaskOk(s, i);
    }
  }

  lemma StepGood(rt: Runtime, s: State, t: nat, a: Action)
    requires Inv(s) && Enabled(rt, s, t, a)
    ensures Good(Step(rt, true, s, t, a))
  {
    assert TaskOk(s, t);
    match a
    case Spawn => SpawnInv(s);
    case Open(cap) => OpenInv(s, cap);
    case Close(c) =>
      SetChanBase(s, c, s.chans[c].(closed := true));
      WakeAllInv(SetChan(s, c, s.chans[c].(closed := true)));
    case Begin(op) => AttemptGood(rt, s, t, op);
    case WakeUp =>
      ReacquireInv(s, t);
      AttemptGood(rt, Reacquire(s, t), t, s.tasks[t].status.op);
    case Finish =>
      LeavingBase(s, t, if rt.Native? then Gone else Leaving);
      if rt.Native? {
        WakeAllInv(State(s.k.(live := s.k.live - 1), s.tasks[t := Task(Gone, true)], s.chans, s.halt));
      } else {
        WakeAllInv(s.(tasks := s.tasks[t := Task(Leaving, true)]));
      }
    case Leave =>
      LeavingBase(s, t, Gone);
      WakeAllInv(State(s.k.(live := s.k.live - 1), s.tasks[t := Task(Gone, true)], s.chans, s.halt));
  }

  /** Every schedule, of any number of tasks and channels, leads to a good state. */
  lemma {:induction false} ScheduleGood(rt: Runtime, s: State, picks: seq<Pick>)
    requires Good(s)
    ensures Good(After(rt, true, s, picks))
    decreases |picks|
  {
    if picks != [] {
      var p := picks[0];
      if Enabled(rt, s, p.t, p.a) {
        StepGood(rt, s, p.t, p.a);
        ScheduleGood(rt, Step(rt, true, s, p.t, p.a), picks[1..]);
      } else {
        ScheduleGood(rt, s, picks[1..]);
      }
    }
  }

  lemma ReachableGood(rt: Runtime, picks: seq<Pick>)
    ensures Good(After(rt, true, Init, picks))
  {
    assert LiveCount(Init.tasks) == 1 && CurrentCount(Init.tasks, 0) == 0;
    ScheduleGood(rt, Init, picks);
  }

  // ---- deadlock reports are exact

  /** All other live tasks wait, and none of them has been woken since it looked. */
  ghost predicate OthersAsleep(s: State, t: nat) {
    forall i :: 0 <= i < |s.tasks| && i != t && IsLive(s.tasks[i]) ==> s.tasks[i].status.Waiting? && !s.tasks[i].status.signaled
  }

  /** A task whose condition is false reports a deadlock if and only if everybody else is asleep; then the whole program is stuck. */
  lemma ReportIffAllAsleep(rt: Runtime, s: State, t: nat, op: Op)
    requires Inv(s) && s.halt.On? && t < |s.tasks| && s.tasks[t].status.Running?
    requires Valid(s, op) && (op.JoinAll? ==> t == 0) && !Ready(s, op)
    ensures Attempt(rt, true, s, t, op).halt.Deadlock? <==> OthersAsleep(s, t)
    ensures OthersAsleep(s, t) ==> Stuck(Attempt(rt, true, s, t, op))
  {
    AttemptGood(rt, s, t, op);
    var ts := s.tasks[t := Task(Waiting(op, s.k.epoch, false), s.tasks[t].done)];
    CountUpdate(s.tasks, t, ts[t], s.k.epoch);
    if OthersAsleep(s, t) {
      forall i | 0 <= i < |ts| && IsLive(ts[i]) ensures IsCurrent(ts[i], s.k.epoch) {
        assert TaskOk(s, i);
      }
      AllCurrent(ts, s.k.epoch);
    } else {
      var i :| 0 <= i < |s.tasks| && i != t && IsLive(s.tasks[i]) && !(s.tasks[i].status.Waiting? && !s.tasks[i].status.signaled);
      assert TaskOk(s, i) && !IsCurrent(ts[i], s.k.epoch);
      CurrentAreLive(ts, s.k.epoch);
    }
  }

  /** In a stuck program only waking up is possible, and whoever wakes up goes on waiting. */
  lemma StuckStep(rt: Runtime, s: State, t: nat, a: Action)
    requires Stuck(s) && Enabled(rt, s, t, a)
    ensures var s' := Step(rt, false, s, t, a);
            Stuck(s') && s'.chans == s.chans && s'.halt.On? && SameWaits(s, s')
  {
    assert IsLive(s.tasks[t]);
    assert a.WakeUp?;
    var op, m := s.tasks[t].status.op, Reacquire(s, t);
    SameReady(s, m, op);
    var s' := Step(rt, false, s, t, a);
    forall i | 0 <= i < |s'.tasks| && IsLive(s'.tasks[i])
      ensures s'.tasks[i].status.Waiting? && Valid(s', s'.tasks[i].status.op) && !Ready(s', s'.tasks[i].status.op)
    {
      assert IsLive(s.tasks[i]) && s'.tasks[i].status.op == s.tasks[i].status.op;
      SameReady(s, s', s.tasks[i].status.op);
    }
  }

  /** The same tasks wait for the same things. */
  ghost predicate SameWaits(s: State, s': State) {
    && |s'.tasks| == |s.tasks|
    && forall i :: 0 <= i < |s.tasks| ==>
         && (IsLive(s'.tasks[i]) <==> IsLive(s.tasks[i]))
         && (s.tasks[i].status.Waiting? ==> s'.tasks[i].status.Waiting? && s'.tasks[i].status.op == s.tasks[i].status.op)
  }

  /** A reported deadlock was one: had the program gone on, no schedule would ever have got any task further. */
  lemma {:induction false} StuckForever(rt: Runtime, s: State, picks: seq<Pick>)
    requires Stuck(s) && s.halt.On?
    ensures var s' := After(rt, false, s, picks);
            Stuck(s') && s'.chans == s.chans && SameWaits(s, s')
    decreases |picks|
  {
    if picks != [] {
      var p := picks[0];
      if Enabled(rt, s, p.t, p.a) {
        StuckStep(rt, s, p.t, p.a);
        StuckForever(rt, Step(rt, false, s, p.t, p.a), picks[1..]);
      } else {
        StuckForever(rt, s, picks[1..]);
      }
    }
  }

  /** On every schedule that ends in a report, going on would have been pointless. */
  lemma ReportsAreSound(rt: Runtime, picks: seq<Pick>, more: seq<Pick>)
    ensures var s := After(rt, true, Init, picks);
            s.halt.Deadlock? ==>
              && Stuck(s)
              && var s' := After(rt, false, s.(halt := On), more); Stuck(s') && s'.chans == s.chans && SameWaits(s, s')
  {
    ReachableGood(rt, picks);
    var s := After(rt, true, Init, picks);
    if s.halt.Deadlock? {
      var on := s.(halt := On);
      forall i | 0 <= i < |on.tasks| && IsLive(on.tasks[i])
        ensures on.tasks[i].status.Waiting? && !Ready(on, on.tasks[i].status.op)
      {
        SameReady(s, on, s.tasks[i].status.op);
      }
      StuckForever(rt, on, more);
    }
  }

  // ---- nothing hangs silently

  /** After any schedule: a waiter whose condition has become true was woken. */
  lemma NoLostWakeUp(rt: Runtime, picks: seq<Pick>, i: nat)
    ensures var s := After(rt, true, Init, picks);
      s.halt.On? && i < |s.tasks| && s.tasks[i].status.Waiting? ==>
        Valid(s, s.tasks[i].status.op) && (Ready(s, s.tasks[i].status.op) ==> s.tasks[i].status.signaled)
  {
    ReachableGood(rt, picks);
    var s := After(rt, true, Init, picks);
    if s.halt.On? && i < |s.tasks| { assert TaskOk(s, i); }
  }

  /** Some live task can go on without a spurious wake-up: it is not waiting, or it has been woken. */
  lemma SomeoneCanGo(s: State) returns (i: nat)
    requires Inv(s)
    ensures i < |s.tasks| && IsLive(s.tasks[i])
    ensures s.tasks[i].status.Waiting? ==> s.tasks[i].status.signaled
  {
    if forall i :: 0 <= i < |s.tasks| && IsLive(s.tasks[i]) ==> IsCurrent(s.tasks[i], s.k.epoch) {
      AllCurrent(s.tasks, s.k.epoch);
      assert false;
    }
    i :| 0 <= i < |s.tasks| && IsLive(s.tasks[i]) && !IsCurrent(s.tasks[i], s.k.epoch);
    assert TaskOk(s, i);
  }

  /** Once the program is stuck, each wake-up of a woken task brings the report nearer, and a spurious one changes nothing. */
  lemma StuckWakeUp(rt: Runtime, s: State, t: nat)
    requires Inv(s) && s.halt.On? && Stuck(s) && t < |s.tasks| && Enabled(rt, s, t, WakeUp)
    ensures var s' := Step(rt, true, s, t, WakeUp);
            if !s.tasks[t].status.signaled then s' == s
            else if s.k.live - s.k.blocked == 1 then s'.halt.Deadlock?
            else (s'.halt.On? && Inv(s') && Stuck(s') && s'.k.live - s'.k.blocked == s.k.live - s.k.blocked - 1 &&
                  s'.tasks == s.tasks[t := s'.tasks[t]] && s'.tasks[t].status.Waiting? && !s'.tasks[t].status.signaled)
  {
    StepGood(rt, s, t, WakeUp);
    StuckStep(rt, s, t, WakeUp);
    assert TaskOk(s, t);
    var op, m, s' := s.tasks[t].status.op, Reacquire(s, t), Step(rt, true, s, t, WakeUp);
    SameReady(s, m, op);
    if !s.tasks[t].status.signaled {
      assert s'.tasks == s.tasks;
    }
  }

  /** Every task that has been signalled is woken up at some time in the schedule. */
  ghost predicate WakesSignalled(s: State, picks: seq<Pick>) {
    forall i: nat :: i < |s.tasks| && s.tasks[i].status.Waiting? && s.tasks[i].status.signaled ==> Pick(i, WakeUp) in picks
  }

  lemma {:induction false} HaltedStays(rt: Runtime, s: State, picks: seq<Pick>)
    requires !s.halt.On?
    ensures After(rt, true, s, picks) == s
    decreases |picks|
  {
    if picks != [] { HaltedStays(rt, s, picks[1..]); }
  }

  /** A stuck program reports a deadlock on every schedule that wakes up those who were signalled. */
  lemma {:induction false} StuckIsReported(rt: Runtime, s: State, picks: seq<Pick>)
    requires Inv(s) && s.halt.On? && Stuck(s) && WakesSignalled(s, picks)
    ensures After(rt, true, s, picks).halt.Deadlock?
    decreases |picks|
  {
    var i := SomeoneCanGo(s);
    assert Pick(i, WakeUp) in picks;
    var p := picks[0];
    if Enabled(rt, s, p.t, p.a) {
      StuckStep(rt, s, p.t, p.a);
      StuckWakeUp(rt, s, p.t);
      var s' := Step(rt, true, s, p.t, p.a);
      if s'.halt.On? {
        forall j: nat | j < |s'.tasks| && s'.tasks[j].status.Waiting? && s'.tasks[j].status.signaled
          ensures Pick(j, WakeUp) in picks[1..]
        {
          assert Pick(j, WakeUp) in picks && p != Pick(j, WakeUp);
        }
        StuckIsReported(rt, s', picks[1..]);
      } else {
        HaltedStays(rt, s', picks[1..]);
      }
    } else {
      forall j: nat | j < |s.tasks| && s.tasks[j].status.Waiting? && s.tasks[j].status.signaled
        ensures Pick(j, WakeUp) in picks[1..]
      {
        assert TaskOk(s, j);
        assert Pick(j, WakeUp) in picks && p != Pick(j, WakeUp);
      }
      StuckIsReported(rt, s, picks[1..]);
    }
  }

  // ---- channels over time

  /** Nothing sent or received is ever taken back; a closed channel takes nothing more; an announced end is final. */
  predicate ChanLater(c: Chan, c': Chan) {
    && c'.cap == c.cap && c.sent <= c'.sent && c.received <= c'.received
    && (c.closed ==> c'.closed && c'.sent == c.sent)
    && (c.ended ==> c'.ended && c'.received == c.received)
  }

  ghost predicate Later(s: State, s': State) {
    && |s.chans| <= |s'.chans|
    && forall c :: 0 <= c < |s.chans| ==> ChanLater(s.chans[c], s'.chans[c])
  }

  lemma ActLater(rt: Runtime, s: State, t: nat, op: Op)
    requires Base(s) && t < |s.tasks| && Valid(s, op) && Ready(s, op)
    ensures Later(s, Act(rt, s, t, op))
  {
    var s' := Act(rt, s, t, op);
    match op
    case Recv(c) =>
      var ch := s.chans[c];
      assert ChanOk(ch) && ch.sent == ch.received + ch.queue;
      if ch.ended {
        assert |ch.queue| == |ch.sent| - |ch.received|;
      }
      assert ChanLater(ch, s'.chans[c]);
    case Send(c, v) =>
      assert ChanLater(s.chans[c], s'.chans[c]);
    case Join(_) =>
    case JoinAll =>
  }

  lemma StepLater(rt: Runtime, s: State, t: nat, a: Action)
    requires Base(s) && Enabled(rt, s, t, a)
    ensures Later(s, Step(rt, true, s, t, a))
  {
    match a
    case Begin(op) =>
      if Ready(s, op) { ActLater(rt, s, t, op); }
    case WakeUp =>
      var m, op := Reacquire(s, t), s.tasks[t].status.op;
      if Ready(m, op) {
        forall i | 0 <= i < |m.chans| ensures ChanLater(m.chans[i], Act(rt, m, t, op).chans[i]) {
          WakeLater(rt, s, m, t, op, i);
        }
      }
    case Spawn =>
    case Open(_) =>
    case Close(_) =>
    case Finish =>
    case Leave =>
  }

  lemma WakeLater(rt: Runtime, s: State, m: State, t: nat, op: Op, i: nat)
    requires Base(s) && m.chans == s.chans && t < |m.tasks| && Valid(m, op) && Ready(m, op)
    requires i < |m.chans|
    ensures |Act(rt, m, t, op).chans| == |m.chans| && ChanLater(m.chans[i], Act(rt, m, t, op).chans[i])
  {
    assert ChanOk(s.chans[i]);
  }

  /** FIFO over time: from any reachable state on, on every schedule. */
  lemma {:induction false} ChannelsOverTime(rt: Runtime, s: State, picks: seq<Pick>)
    requires Good(s)
    ensures Later(s, After(rt, true, s, picks)) && Good(After(rt, true, s, picks))
    decreases |picks|
  {
    if picks != [] {
      var p := picks[0];
      if Enabled(rt, s, p.t, p.a) {
        var m := Step(rt, true, s, p.t, p.a);
        StepGood(rt, s, p.t, p.a);
        StepLater(rt, s, p.t, p.a);
        ChannelsOverTime(rt, m, picks[1..]);
        var e := After(rt, true, s, picks);
        forall c | 0 <= c < |s.chans| ensures ChanLater(s.chans[c], e.chans[c]) {
          assert ChanLater(s.chans[c], m.chans[c]) && ChanLater(m.chans[c], e.chans[c]);
        }
      } else {
        ChannelsOverTime(rt, s, picks[1..]);
      }
    }
  }
}
