/**
 * Both runtimes as they run (micai/src/rt_conc.c, micai/src/conc.rs and micai/src/interp.rs): counters,
 * channels and marks updated in place, one method for each critical section. Each of them does to the
 * state what one step of `TaskModel` does, so every schedule of them is a schedule of that model.
 */
module TaskRuntime {
  import opened TaskModel
  import opened TaskChannel

  /** How a critical section ends for its task. */
  datatype Turn = Goes | Gets(v: Value) | Ends | Waits(epoch: nat) | Stops

  // ---- what the native runtime and the model have to do with each other

  ghost predicate Shows(c: Channel<Value>, x: Chan)
    requires c.Sound()
    reads c, c.buf
  {
    x.cap == c.cap && x.queue == c.Contents() && x.closed == c.closed
  }

  ghost predicate SameMarks(done: seq<bool>, tasks: seq<Task>) {
    |done| == |tasks| && forall i :: 0 <= i < |done| ==> tasks[i].done == done[i]
  }

  lemma SignalKeepsMarks(done: seq<bool>, tasks: seq<Task>)
    requires SameMarks(done, tasks)
    ensures SameMarks(done, Signal(tasks))
  {
  }

  class NativeRuntime {
    var live: int
    var blocked: int
    var epoch: nat
    var done: seq<bool>
    var chans: seq<Channel<Value>>
    /** The state of the model, with what only the threads themselves know: where each of them is. */
    ghost var s: State
    ghost var Repr: set<object>

    ghost predicate Owned()
      reads this, Repr
    {
      this in Repr &&
      (forall i :: 0 <= i < |chans| ==> chans[i] in Repr && chans[i].buf in Repr && chans[i].Sound()) &&
      (forall i, j :: 0 <= i < j < |chans| ==> chans[i] != chans[j] && chans[i].buf != chans[j].buf)
    }

    ghost predicate Valid()
      reads this, Repr
    {
      Owned() && s.k == Counters(live, blocked, epoch) && SameMarks(done, s.tasks) &&
      |chans| == |s.chans| && forall i :: 0 <= i < |chans| ==> Shows(chans[i], s.chans[i])
    }

    constructor ()
      ensures Valid() && fresh(Repr) && s == Init
    {
      live, blocked, epoch := 1, 0, 0;
      done, chans := [false], [];
      s, Repr := Init, {this};
    }

    /** `mi_wake_all`, with the lock held. */
    method WakeEveryone()
      requires Valid()
      modifies this
      ensures Valid() && s == WakeAll(old(s)) && Repr == old(Repr) && chans == old(chans) && done == old(done)
    {
      blocked := 0;
      epoch := epoch + 1;
      SignalKeepsMarks(done, s.tasks);
      s := WakeAll(s);
    }

    /** `mi_block` up to the wait on the condition variable; the lock is given up there. */
    method Block(t: nat, op: Op) returns (r: Turn)
      requires Valid() && t < |done| && TaskModel.Valid(s, op) && !Ready(s, op)
      modifies this
      ensures Valid() && s == Attempt(Native, true, old(s), t, op) && Repr == old(Repr)
      ensures r == if old(blocked) + 1 >= old(live) then Stops else Waits(old(epoch))
    {
      s := Attempt(Native, true, s, t, op);
      r := Waits(epoch);
      blocked := blocked + 1;
      if blocked >= live {
        r := Stops;
      }
    }

    /** `mi_block` from there on: the lock is held again. */
    method Unblock(t: nat, e: nat)
      requires Valid() && t < |done| && s.tasks[t].status.Waiting? && s.tasks[t].status.epoch == e
      modifies this
      ensures Valid() && s == Reacquire(old(s), t) && Repr == old(Repr) && chans == old(chans) && done == old(done)
    {
      s := Reacquire(s, t);
      if epoch == e {
        blocked := blocked - 1;
      }
    }

    /** The body of `mi_chan_send`, from its test on. */
    method ChanSend(t: nat, c: nat, v: Value) returns (r: Turn)
      requires Valid() && t < |done| && c < |chans|
      modifies Repr
      ensures Valid() && fresh(Repr - old(Repr)) && s == Attempt(Native, true, old(s), t, Send(c, v))
      ensures var x := old(s).chans[c];
        (r.Goes? <==> !x.closed && (x.cap == 0 || |x.queue| < x.cap)) &&
        (r.Goes? ==> s.chans == old(s).chans[c := x.(queue := x.queue + [v], sent := x.sent + [v])]) &&
        (x.closed ==> r.Stops? && s.halt == SentOnClosed(t) && s.chans == old(s).chans)
      ensures r.Waits? ==> s.tasks[t].status == Waiting(Send(c, v), r.epoch, false) && s.chans == old(s).chans
    {
      var ch := chans[c];
      assert Shows(ch, s.chans[c]);
      if !ch.closed && ch.cap > 0 && ch.len >= ch.cap {
        r := Block(t, Send(c, v));
        return;
      }
      if ch.closed {
        s := s.(halt := SentOnClosed(t));
        return Stops;
      }
      PutLast(c, v);
      WakeEveryone();
      r := Goes;
    }

    method PutLast(c: nat, v: Value)
      requires Valid() && c < |chans| && !chans[c].closed && (chans[c].cap == 0 || chans[c].len < chans[c].cap)
      modifies Repr
      ensures Valid() && fresh(Repr - old(Repr)) && done == old(done)
      ensures var x := old(s).chans[c]; s == SetChan(old(s), c, x.(queue := x.queue + [v], sent := x.sent + [v]))
    {
      ghost var x := s.chans[c];
      assert Shows(chans[c], x);
      chans[c].Push(v);
      Repr := Repr + {chans[c].buf};
      s := SetChan(s, c, x.(queue := x.queue + [v], sent := x.sent + [v]));
    }

    method TakeFirst(c: nat) returns (v: Value)
      requires Valid() && c < |chans| && chans[c].len > 0
      modifies Repr
      ensures Valid() && Repr == old(Repr) && done == old(done) && old(s).chans[c].queue != []
      ensures var x := old(s).chans[c];
        v == x.queue[0] && s == SetChan(old(s), c, x.(queue := x.queue[1..], received := x.received + [x.queue[0]]))
    {
      ghost var x := s.chans[c];
      assert Shows(chans[c], x);
      v := chans[c].Pop();
      s := SetChan(s, c, x.(queue := x.queue[1..], received := x.received + [x.queue[0]]));
    }

    /** The body of `mi_chan_recv`, from its test on. */
    method ChanRecv(t: nat, c: nat) returns (r: Turn)
      requires Valid() && t < |done| && c < |chans|
      modifies Repr
      ensures Valid() && fresh(Repr - old(Repr)) && s == Attempt(Native, true, old(s), t, Recv(c))
      ensures r.Gets? <==> old(s).chans[c].queue != []
      ensures r.Gets? ==> r.v == old(s).chans[c].queue[0]
      ensures r.Ends? <==> old(s).chans[c].queue == [] && old(s).chans[c].closed
      ensures r.Waits? ==> s.tasks[t].status == Waiting(Recv(c), r.epoch, false)
    {
      var ch := chans[c];
      assert Shows(ch, s.chans[c]);
      if ch.len == 0 && !ch.closed {
        r := Block(t, Recv(c));
        return;
      }
      if ch.len == 0 {
        s := SetChan(s, c, s.chans[c].(ended := true));
        return Ends;
      }
      var v := TakeFirst(c);
      WakeEveryone();
      r := Gets(v);
    }

    /** The body of `mi_task_wait`, from its test on. */
    method TaskWait(t: nat, u: nat) returns (r: Turn)
      requires Valid() && t < |done| && u < |done|
      modifies this
      ensures Valid() && Repr == old(Repr) && s == Attempt(Native, true, old(s), t, Join(u))
      ensures r.Goes? <==> old(s).tasks[u].done
      ensures r.Waits? ==> s.tasks[t].status == Waiting(Join(u), r.epoch, false)
    {
      if !done[u] {
        r := Block(t, Join(u));
        return;
      }
      r := Goes;
    }

    /** The body of `mi_tasks_finish`, from its test on: then the program ends. */
    method TasksFinish(t: nat) returns (r: Turn)
      requires Valid() && t < |done|
      modifies this
      ensures Valid() && Repr == old(Repr) && s == Attempt(Native, true, old(s), t, JoinAll)
      ensures r.Goes? <==> old(s).k.live <= 1
      ensures r.Waits? ==> s.tasks[t].status == Waiting(JoinAll, r.epoch, false)
    {
      if live > 1 {
        r := Block(t, JoinAll);
        return;
      }
      s := s.(halt := Exited);
      r := Goes;
    }

    /** What the four do, whichever it is. */
    method Try(t: nat, op: Op) returns (r: Turn)
      requires Valid() && t < |done| && TaskModel.Valid(s, op)
      modifies Repr
      ensures Valid() && fresh(Repr - old(Repr)) && s == Attempt(Native, true, old(s), t, op)
    {
      match op
      case Recv(c) => r := ChanRecv(t, c);
      case Send(c, v) => r := ChanSend(t, c, v);
      case Join(u) => r := TaskWait(t, u);
      case JoinAll => r := TasksFinish(t);
    }

    method Begin(t: nat, op: Op) returns (r: Turn)
      requires Valid() && Enabled(Native, s, t, Action.Begin(op))
      modifies Repr
      ensures Valid() && fresh(Repr - old(Repr)) && s == Step(Native, true, old(s), t, Action.Begin(op))
    {
      r := Try(t, op);
    }

    /** A waiter is back, woken or not: it takes itself off the count and goes round its loop. */
    method WakeUp(t: nat, op: Op, e: nat) returns (r: Turn)
      requires Valid() && Enabled(Native, s, t, Action.WakeUp) && s.tasks[t].status.op == op && s.tasks[t].status.epoch == e
      modifies Repr
      ensures Valid() && fresh(Repr - old(Repr)) && s == Step(Native, true, old(s), t, Action.WakeUp)
    {
      Unblock(t, e);
      r := Try(t, op);
    }

    /** `mi_task_spawn`: nobody is woken. */
    method Spawn(ghost t: nat)
      requires Valid() && Enabled(Native, s, t, Action.Spawn)
      modifies this
      ensures Valid() && Repr == old(Repr) && s == Step(Native, true, old(s), t, Action.Spawn)
    {
      live := live + 1;
      done := done + [false];
      s := Step(Native, true, s, t, Action.Spawn);
    }

    /** The end of `mi_task_main`. */
    method Finish(t: nat)
      requires Valid() && Enabled(Native, s, t, Action.Finish)
      modifies this
      ensures Valid() && Repr == old(Repr) && s == Step(Native, true, old(s), t, Action.Finish)
    {
      done := done[t := true];
      live := live - 1;
      s := State(s.k.(live := s.k.live - 1), s.tasks[t := Task(Gone, true)], s.chans, s.halt);
      WakeEveryone();
    }

    method Open(ghost t: nat, cap: nat)
      requires Valid() && Enabled(Native, s, t, Action.Open(cap))
      modifies this
      ensures Valid() && fresh(Repr - old(Repr)) && s == Step(Native, true, old(s), t, Action.Open(cap))
    {
      var ch := new Channel<Value>(cap);
      chans := chans + [ch];
      Repr := Repr + {ch, ch.buf};
      s := Step(Native, true, s, t, Action.Open(cap));
    }

    /** `mi_chan_close` */
    method Close(ghost t: nat, c: nat)
      requires Valid() && Enabled(Native, s, t, Action.Close(c))
      modifies Repr
      ensures Valid() && Repr == old(Repr) && s == Step(Native, true, old(s), t, Action.Close(c))
    {
      var ch := chans[c];
      assert Shows(ch, s.chans[c]);
      ch.Close();
      s := SetChan(s, c, s.chans[c].(closed := true));
      WakeEveryone();
    }
  }

  // ---- the interpreter

  /** A channel of the interpreter: a double-ended queue. */
  class QueueChannel {
    const cap: nat
    var q: seq<Value>
    var closed: bool

    constructor (cap: nat)
      ensures this.cap == cap && q == [] && !closed
    {
      this.cap, q, closed := cap, [], false;
    }
  }

  ghost predicate ShowsQueue(c: QueueChannel, x: Chan)
    reads c
  {
    x.cap == c.cap && x.queue == c.q && x.closed == c.closed
  }

  class InterpreterRuntime {
    var live: int
    var blocked: int
    var epoch: nat
    var done: seq<bool>
    var chans: seq<QueueChannel>
    ghost var s: State

    ghost predicate Valid()
      reads this, chans
    {
      (forall i, j :: 0 <= i < j < |chans| ==> chans[i] != chans[j]) &&
      s.k == Counters(live, blocked, epoch) && SameMarks(done, s.tasks) &&
      |chans| == |s.chans| && forall i :: 0 <= i < |chans| ==> ShowsQueue(chans[i], s.chans[i])
    }

    constructor ()
      ensures Valid() && s == Init && chans == []
    {
      live, blocked, epoch := 1, 0, 0;
      done, chans, s := [false], [], Init;
    }

    /** `wake`, with the lock held. */
    method Wake()
      requires Valid()
      modifies this
      ensures Valid() && s == WakeAll(old(s)) && chans == old(chans) && done == old(done)
    {
      blocked := 0;
      epoch := epoch + 1;
      SignalKeepsMarks(done, s.tasks);
      s := WakeAll(s);
    }

    /** The condition that `wait_then` is given. */
    function IsReady(op: Op): (r: bool)
      requires Valid() && TaskModel.Valid(s, op)
      reads this, chans
      ensures r == Ready(s, op)
    {
      match op
      case Recv(c) => assert ShowsQueue(chans[c], s.chans[c]); chans[c].q != [] || chans[c].closed
      case Send(c, _) =>
        assert ShowsQueue(chans[c], s.chans[c]);
        chans[c].closed || chans[c].cap == 0 || |chans[c].q| < chans[c].cap
      case Join(u) => done[u]
      case JoinAll => live <= 1
    }

    /** The action that `wait_then` is given, and the wake-up that always follows it. */
    method ActAndWake(t: nat, op: Op) returns (r: Turn)
      requires Valid() && t < |done| && TaskModel.Valid(s, op) && Ready(s, op)
      modifies this, chans
      ensures Valid() && chans == old(chans) && s == Act(Interpreter, old(s), t, op)
      ensures !r.Waits?
      ensures op.Recv? ==> r == if old(s).chans[op.c].queue != [] then Gets(old(s).chans[op.c].queue[0]) else Ends
      ensures op.Send? ==> r == if old(s).chans[op.c].closed then Stops else Goes
      ensures op.Join? || op.JoinAll? ==> r == Goes
    {
      r := Goes;
      ghost var halt := s.halt;
      match op {
        case Recv(c) => r := TakeFirst(c);
        case Send(c, v) =>
          var ok := PutLast(c, v);
          if !ok {
            r := Stops;
            halt := SentOnClosed(t);
          }
        case Join(_) =>
        case JoinAll => halt := Exited;
      }
      Wake();
      s := s.(halt := halt);
    }

    method TakeFirst(c: nat) returns (r: Turn)
      requires Valid() && c < |chans|
      modifies this`s, chans
      ensures Valid()
      ensures var x := old(s).chans[c];
        if x.queue == [] then r == Ends && s == SetChan(old(s), c, x.(ended := true))
        else r == Gets(x.queue[0]) && s == SetChan(old(s), c, x.(queue := x.queue[1..], received := x.received + [x.queue[0]]))
    {
      var ch := chans[c];
      ghost var x := s.chans[c];
      assert ShowsQueue(ch, x);
      if ch.q == [] {
        s := SetChan(s, c, x.(ended := true));
        return Ends;
      }
      r := Gets(ch.q[0]);
      ch.q := ch.q[1..];
      s := SetChan(s, c, x.(queue := x.queue[1..], received := x.received + [x.queue[0]]));
    }

    method PutLast(c: nat, v: Value) returns (ok: bool)
      requires Valid() && c < |chans|
      modifies this`s, chans
      ensures Valid() && ok == !old(s).chans[c].closed
      ensures var x := old(s).chans[c];
        s == if ok then SetChan(old(s), c, x.(queue := x.queue + [v], sent := x.sent + [v])) else old(s)
    {
      var ch := chans[c];
      ghost var x := s.chans[c];
      assert ShowsQueue(ch, x);
      if ch.closed {
        return false;
      }
      ch.q := ch.q + [v];
      s := SetChan(s, c, x.(queue := x.queue + [v], sent := x.sent + [v]));
      ok := true;
    }

    /** `wait_then` from its test on, up to the wait or the end. */
    method WaitThen(t: nat, op: Op) returns (r: Turn)
      requires Valid() && t < |done| && TaskModel.Valid(s, op)
      modifies this, chans
      ensures Valid() && chans == old(chans) && s == Attempt(Interpreter, true, old(s), t, op)
      ensures op.Send? ==>
        var x := old(s).chans[op.c];
        (r.Goes? <==> !x.closed && (x.cap == 0 || |x.queue| < x.cap)) &&
        (r.Goes? ==> s.chans == old(s).chans[op.c := x.(queue := x.queue + [op.v], sent := x.sent + [op.v])]) &&
        (x.closed ==> r.Stops? && s.halt == SentOnClosed(t))
      ensures op.Recv? ==>
        var x := old(s).chans[op.c];
        (r.Gets? <==> |x.queue| > 0) && (r.Gets? ==> r.v == x.queue[0]) && (r.Ends? <==> |x.queue| == 0 && x.closed)
      ensures op.Join? ==> (r.Goes? <==> old(s).tasks[op.t].done)
      ensures op.JoinAll? ==> (r.Goes? <==> old(s).k.live <= 1)
      ensures r.Waits? ==> s.tasks[t].status == Waiting(op, r.epoch, false)
    {
      if IsReady(op) {
        r := ActAndWake(t, op);
        return;
      }
      s := Attempt(Interpreter, true, s, t, op);
      r := Waits(epoch);
      blocked := blocked + 1;
      if blocked >= live {
        blocked := blocked - 1;
        r := Stops;
      }
    }

    method Begin(t: nat, op: Op) returns (r: Turn)
      requires Valid() && Enabled(Interpreter, s, t, Action.Begin(op))
      modifies this, chans
      ensures Valid() && chans == old(chans) && s == Step(Interpreter, true, old(s), t, Action.Begin(op))
    {
      r := WaitThen(t, op);
    }

    /** A waiter is back, woken or not: it takes itself off the count and goes round its loop. */
    method WakeUp(t: nat, op: Op, e: nat) returns (r: Turn)
      requires Valid() && Enabled(Interpreter, s, t, Action.WakeUp) && s.tasks[t].status.op == op && s.tasks[t].status.epoch == e
      modifies this, chans
      ensures Valid() && chans == old(chans) && s == Step(Interpreter, true, old(s), t, Action.WakeUp)
    {
      s := Reacquire(s, t);
      if epoch == e {
        blocked := blocked - 1;
      }
      r := WaitThen(t, op);
    }

    /** `start` */
    method Spawn(ghost t: nat)
      requires Valid() && Enabled(Interpreter, s, t, Action.Spawn)
      modifies this
      ensures Valid() && chans == old(chans) && s == Step(Interpreter, true, old(s), t, Action.Spawn)
    {
      live := live + 1;
      done := done + [false];
      s := Step(Interpreter, true, s, t, Action.Spawn);
    }

    /** What a task does last itself: it marks itself done, in one critical section of its own. */
    method Finish(t: nat)
      requires Valid() && Enabled(Interpreter, s, t, Action.Finish)
      modifies this
      ensures Valid() && chans == old(chans) && s == Step(Interpreter, true, old(s), t, Action.Finish)
    {
      done := done[t := true];
      s := s.(tasks := s.tasks[t := Task(Leaving, true)]);
      Wake();
    }

    /** `finish`, in the next critical section. */
    method Leave(t: nat)
      requires Valid() && Enabled(Interpreter, s, t, Action.Leave) && s.tasks[t].done
      modifies this
      ensures Valid() && chans == old(chans) && s == Step(Interpreter, true, old(s), t, Action.Leave)
    {
      live := live - 1;
      s := State(s.k.(live := s.k.live - 1), s.tasks[t := Task(Gone, true)], s.chans, s.halt);
      Wake();
    }

    method Open(ghost t: nat, cap: nat)
      requires Valid() && Enabled(Interpreter, s, t, Action.Open(cap))
      modifies this
      ensures Valid() && |chans| == |old(chans)| + 1 && old(chans) <= chans && fresh(chans[|old(chans)|])
      ensures s == Step(Interpreter, true, old(s), t, Action.Open(cap))
    {
      var ch := new QueueChannel(cap);
      chans := chans + [ch];
      s := Step(Interpreter, true, s, t, Action.Open(cap));
    }

    method Close(ghost t: nat, c: nat)
      requires Valid() && Enabled(Interpreter, s, t, Action.Close(c))
      modifies this, chans
      ensures Valid() && chans == old(chans) && s == Step(Interpreter, true, old(s), t, Action.Close(c))
    {
      assert ShowsQueue(chans[c], s.chans[c]);
      chans[c].closed := true;
      s := SetChan(s, c, s.chans[c].(closed := true));
      Wake();
    }
  }
}
