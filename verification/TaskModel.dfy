/**
 * Tasks and channels (micai/src/rt_conc.c and micai/src/conc.rs): one lock, one condition variable,
 * and three counters that tell a deadlock from a pause. Every action is one critical section;
 * waiting on the condition variable ends one critical section, and waking up starts another.
 */
module TaskModel {

  type Value = int

  datatype Runtime = Native | Interpreter

  // ---- the counters

  datatype Counters = Counters(live: int, blocked: int, epoch: nat)

  /** Everybody is woken: nobody counts as waiting any more. */
  function Woken(k: Counters): Counters {
    Counters(k.live, 0, k.epoch + 1)
  }

  /** The waiter of epoch `e` is back: it stops counting unless it was woken, which uncounted it already. */
  function Returned(k: Counters, e: nat): Counters {
    if k.epoch == e then Counters(k.live, k.blocked - 1, k.epoch) else k
  }

  // ---- the state

  /** What a task can wait for. Sending carries the value. */
  datatype Op = Recv(c: nat) | Send(c: nat, v: Value) | Join(t: nat) | JoinAll

  /** `signaled` is the condition variable's own mark: the waiter was among those woken. */
  datatype Status = Running | Waiting(op: Op, epoch: nat, signaled: bool) | Leaving | Gone

  datatype Task = Task(status: Status, done: bool)

  /** `sent`, `received` and `ended` record what happened on the channel so far. */
  datatype Chan = Chan(cap: nat, queue: seq<Value>, closed: bool, sent: seq<Value>, received: seq<Value>, ended: bool)

  datatype Halt = On | Deadlock(who: nat) | SentOnClosed(who: nat) | Exited

  /** Task 0 is the main program. */
  datatype State = State(k: Counters, tasks: seq<Task>, chans: seq<Chan>, halt: Halt)

  const Init := State(Counters(1, 0, 0), [Task(Running, false)], [], On)

  predicate Valid(s: State, op: Op) {
    match op
    case Recv(c) => c < |s.chans|
    case Send(c, _) => c < |s.chans|
    case Join(t) => t < |s.tasks|
    case JoinAll => true
  }

  /** The wait condition of `op` is met. */
  predicate Ready(s: State, op: Op)
    requires Valid(s, op)
  {
    match op
    case Recv(c) => s.chans[c].queue != [] || s.chans[c].closed
    case Send(c, _) => s.chans[c].closed || s.chans[c].cap == 0 || |s.chans[c].queue| < s.chans[c].cap
    case Join(t) => s.tasks[t].done
    case JoinAll => s.k.live <= 1
  }

  // ---- the critical sections

  function Signal(ts: seq<Task>): (r: seq<Task>)
    ensures |r| == |ts|
    ensures forall i :: 0 <= i < |ts| ==> r[i] == SignalOne(ts[i])
  {
    if ts == [] then [] else [SignalOne(ts[0])] + Signal(ts[1..])
  }

  function SignalOne(t: Task): Task {
    match t.status
    case Waiting(op, e, _) => Task(Waiting(op, e, true), t.done)
    case _ => t
  }

  function WakeAll(s: State): State {
    s.(k := Woken(s.k), tasks := Signal(s.tasks))
  }

  function SetStatus(s: State, t: nat, x: Status): State
    requires t < |s.tasks|
  {
    s.(tasks := s.tasks[t := Task(x, s.tasks[t].done)])
  }

  function SetChan(s: State, c: nat, x: Chan): State
    requires c < |s.chans|
  {
    s.(chans := s.chans[c := x])
  }

  /** `op` by task `t` goes through: what it changes, and whom it wakes. */
  function Act(rt: Runtime, s: State, t: nat, op: Op): State
    requires t < |s.tasks| && Valid(s, op) && Ready(s, op)
  {
    match op
    case Recv(c) =>
      var ch := s.chans[c];
      if ch.queue == [] then
        var s' := SetChan(s, c, ch.(ended := true));
        if rt.Native? then s' else WakeAll(s')
      else
        WakeAll(SetChan(s, c, ch.(queue := ch.queue[1..], received := ch.received + [ch.queue[0]])))
    case Send(c, v) =>
      var ch := s.chans[c];
      if ch.closed then
        (if rt.Native? then s else WakeAll(s)).(halt := SentOnClosed(t))
      else
        WakeAll(SetChan(s, c, ch.(queue := ch.queue + [v], sent := ch.sent + [v])))
    case Join(_) =>
      if rt.Native? then s else WakeAll(s)
    case JoinAll =>
      (if rt.Native? then s else WakeAll(s)).(halt := Exited)
  }

  /** Task `t` has the lock and tries `op`: it goes through, or `t` waits, or this is a deadlock. */
  function Attempt(rt: Runtime, report: bool, s: State, t: nat, op: Op): State
    requires t < |s.tasks| && Valid(s, op)
  {
    if Ready(s, op) then Act(rt, s, t, op)
    else
      var k := s.k.(blocked := s.k.blocked + 1);
      var s' := SetStatus(s, t, Waiting(op, s.k.epoch, false));
      if report && k.blocked >= k.live then
        (if rt.Native? then s'.(k := k) else s').(halt := Deadlock(t))
      else
        s'.(k := k)
  }

  /** Task `t` is back from waiting, woken or not, and has the lock again. */
  function Reacquire(s: State, t: nat): State
    requires t < |s.tasks| && s.tasks[t].status.Waiting?
  {
    SetStatus(s, t, Running).(k := Returned(s.k, s.tasks[t].status.epoch))
  }

  datatype Action =
    | Spawn
    | Open(cap: nat)
    | Close(c: nat)
    | Begin(op: Op)
    | WakeUp
    | Finish
    | Leave

  /** May task `t` do `a` now? A waiter may wake up at any time, also without having been woken. */
  predicate Enabled(rt: Runtime, s: State, t: nat, a: Action) {
    && s.halt.On? && t < |s.tasks|
    && match a
       case Spawn => s.tasks[t].status.Running?
       case Open(_) => s.tasks[t].status.Running?
       case Close(c) => s.tasks[t].status.Running? && c < |s.chans|
       case Begin(op) => s.tasks[t].status.Running? && Valid(s, op) && (op.JoinAll? ==> t == 0)
       case WakeUp => s.tasks[t].status.Waiting? && Valid(s, s.tasks[t].status.op)
       case Finish => s.tasks[t].status.Running? && t != 0
       case Leave => s.tasks[t].status.Leaving?
  }

  /** One critical section of task `t`. With `report` off, deadlocks are not looked for. */
  function Step(rt: Runtime, report: bool, s: State, t: nat, a: Action): State
    requires Enabled(rt, s, t, a)
  {
    match a
    case Spawn =>
      State(s.k.(live := s.k.live + 1), s.tasks + [Task(Running, false)], s.chans, s.halt)
    case Open(cap) =>
      s.(chans := s.chans + [Chan(cap, [], false, [], [], false)])
    case Close(c) =>
      WakeAll(SetChan(s, c, s.chans[c].(closed := true)))
    case Begin(op) =>
      Attempt(rt, report, s, t, op)
    case WakeUp =>
      Attempt(rt, report, Reacquire(s, t), t, s.tasks[t].status.op)
    case Finish =>
      // The interpreter marks a task done first and lowers the live count in a second step.
      if rt.Native? then Depart(s, t) else WakeAll(s.(tasks := s.tasks[t := Task(Leaving, true)]))
    case Leave =>
      Depart(s, t)
  }

  function Depart(s: State, t: nat): State
    requires t < |s.tasks|
  {
    WakeAll(State(s.k.(live := s.k.live - 1), s.tasks[t := Task(Gone, true)], s.chans, s.halt))
  }

  /** The scheduler's choice: which task goes next, and what it does. */
  datatype Pick = Pick(t: nat, a: Action)

  /** The state after a schedule; picks that are not possible are passed over. */
  function After(rt: Runtime, report: bool, s: State, picks: seq<Pick>): State
    decreases |picks|
  {
    if picks == [] then s
    else
      var p := picks[0];
      After(rt, report, if Enabled(rt, s, p.t, p.a) then Step(rt, report, s, p.t, p.a) else s, picks[1..])
  }
}
