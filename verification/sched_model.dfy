/** The scheduler: four ready lists, a timing wheel and one running task, changed by atomic steps. */
module SchedModel {
  type Tid = nat

  const IDLE: Tid := 1
  const PRIOS: nat := 4
  const SLOTS: nat := 1024

  datatype TState = Running | Ready | Timer | Io

  /** A task: its state, its priority (0 first), whether its time slice is marked as used, a wakeup that
      came while it was running, and the tic it sleeps to, 0 for none. */
  datatype Task = Task(state: TState, prio: nat, tmark: bool, wake: bool, wakeup: nat)

  type Queues = map<nat, seq<Tid>>

  datatype State = State(task: map<Tid, Task>, ready: Queues, wheel: Queues, current: Tid, pending: bool, tic: nat)

  /** List number `k`. */
  function Q(q: Queues, k: nat): seq<Tid> { if k in q then q[k] else [] }

  function TaskOf(task: map<Tid, Task>, t: Tid): Task { if t in task then task[t] else Task(Io, 0, false, false, 0) }

  function Prio(task: map<Tid, Task>, t: Tid): nat { TaskOf(task, t).prio }

  function Append(q: Queues, k: nat, t: Tid): Queues { q[k := Q(q, k) + [t]] }

  /** A list without a task. */
  function Minus(l: seq<Tid>, t: Tid): seq<Tid>
  {
    if l == [] then [] else if l[0] == t then l[1..] else [l[0]] + Minus(l[1..], t)
  }

  /** A task becomes ready at the end of its list. */
  function MakeReady(s: State, t: Tid): State
  {
    s.(task := s.task[t := TaskOf(s.task, t).(state := Ready)], ready := Append(s.ready, Prio(s.task, t), t))
  }

  /** switch_on_return, when the condition asks for it. */
  function Ask(s: State, c: bool): State { s.(pending := s.pending || c) }

  // ----- handle_switch

  /** The first list that is not empty. */
  function Best(q: Queues, i: nat): (p: nat)
    requires i <= PRIOS
    ensures i <= p <= PRIOS
    ensures forall k :: i <= k < p ==> Q(q, k) == []
    ensures p < PRIOS ==> Q(q, p) != []
    decreases PRIOS - i
  {
    if i == PRIOS then PRIOS else if Q(q, i) != [] then i else Best(q, i + 1)
  }

  /** Who runs next, and the lists without it. */
  function Next(q: Queues): (Tid, Queues)
  {
    var p := Best(q, 0);
    if p < PRIOS then (Q(q, p)[0], q[p := Q(q, p)[1..]]) else (IDLE, q)
  }

  /** The outgoing task: a wakeup that came too early makes it running again, and if it still runs it
      goes to the end of its list. */
  function PutBack(task: map<Tid, Task>, ready: Queues, current: Tid): (map<Tid, Task>, Queues)
  {
    var c0 := TaskOf(task, current);
    var c := if c0.wake then c0.(wake := false, state := Running) else c0;
    if c.state == Running then
      (task[current := c.(tmark := false, state := Ready)], if current != IDLE then Append(ready, c.prio, current) else ready)
    else (task[current := c], ready)
  }

  function Dispatch(s: State): State
  {
    var (t, ready) := Next(s.ready);
    var (task, ready2) := PutBack(s.task, ready, s.current);
    s.(task := task[t := TaskOf(task, t).(state := Running)], ready := ready2, current := t, pending := false)
  }

  // ----- SysTick_Handler

  /** The sleepers of a slot become ready one by one; `p` is the best priority so far. */
  function WakeAll(s: State, l: seq<Tid>, p: nat): State
    decreases |l|
  {
    if l == [] then s else
    var prio := Prio(s.task, l[0]);
    var p1 := if prio < p then prio else p;
    var s1 := Ask(MakeReady(s, l[0]), p1 < Prio(s.task, s.current) || s.current == IDLE);
    WakeAll(s1, l[1..], p1)
  }

  /** The running task's time slice. */
  function Slice(s: State): State
  {
    if s.current == IDLE then s
    else if TaskOf(s.task, s.current).tmark && Q(s.ready, Prio(s.task, s.current)) != [] then s.(pending := true)
    else s.(task := s.task[s.current := TaskOf(s.task, s.current).(tmark := true)])
  }

  /** A slot of the wheel is emptied. */
  function Empty(s: State, slot: nat): State
  {
    var s1 := WakeAll(s, Q(s.wheel, slot), 5);
    s1.(wheel := s1.wheel[slot := []])
  }

  function Turn(s: State): State { Empty(s.(tic := s.tic + 1), (s.tic + 1) % SLOTS) }

  function Tick(s: State): State { Slice(Turn(s)) }

  // ----- Sleeping and waking

  /** sys_timer. */
  function SetTimer(s: State, t: Tid, ms: nat): State
  {
    var wtic := ms / 10 + s.tic;
    s.(task := s.task[t := TaskOf(s.task, t).(wakeup := wtic)], wheel := Append(s.wheel, wtic % SLOTS, t))
  }

  /** sys_timer_remove. */
  function RemoveTimer(s: State, t: Tid): State
  {
    var slot := TaskOf(s.task, t).wakeup % SLOTS;
    s.(wheel := s.wheel[slot := Minus(Q(s.wheel, slot), t)])
  }

  /** sys_sleepon by the running task; `ms` is 0 without a timeout, `able` when its device is ready. */
  function Sleep(s: State, ms: nat, able: bool): State
  {
    var t, c := s.current, TaskOf(s.task, s.current);
    if c.wake then s.(task := s.task[t := c.(wake := false)])
    else if able || c.state != Running then s
    else Dispatch(Settle(s, ms))
  }

  /** The running task is asleep, but not yet switched out. */
  function Settle(s: State, ms: nat): State
  {
    var t, c := s.current, TaskOf(s.task, s.current);
    var s1 := s.(task := s.task[t := c.(state := if ms != 0 then Timer else Io, tmark := false, wakeup := 0)]);
    if ms != 0 then SetTimer(s1, t, ms) else s1
  }

  /** sys_wakeup. */
  function Wakeup(s: State, n: Tid): State
  {
    var c := TaskOf(s.task, n);
    if n == s.current || c.state == Running then
      var s1 := s.(task := s.task[n := c.(wake := true)]);
      if c.wakeup != 0 then RemoveTimer(s1, n) else s1
    else if c.state == Ready then s
    else
      var s1 := if c.wakeup != 0 then RemoveTimer(s, n) else s;
      Ask(MakeReady(s1, n), s.current == IDLE || c.prio < Prio(s.task, s.current))
  }

  // ----- Steps

  /** Resume is the end of sys_sleepon in a task that was woken; a new task's number is its own. */
  datatype Op = CreateOp(t: Tid, prio: nat) | ForkOp(t: Tid) | SleepOp(ms: nat, able: bool) | WakeupOp(n: Tid)
              | TickOp | SwitchOp | ResumeOp

  function Create(s: State, t: Tid, prio: nat): State
  {
    if prio >= PRIOS then s else
    var s1 := s.(task := s.task[t := Task(Ready, prio, false, false, 0)]);
    Ask(MakeReady(s1, t), prio < Prio(s.task, s.current))
  }

  /** The child gets the parent's priority and its mark. */
  function Fork(s: State, t: Tid): State
  {
    var c := TaskOf(s.task, s.current);
    MakeReady(s.(task := s.task[t := Task(Ready, c.prio, c.tmark, false, 0)]), t)
  }

  function Step(s: State, op: Op): State
  {
    match op
    case CreateOp(t, prio) => Create(s, t, prio)
    case ForkOp(t) => Fork(s, t)
    case SleepOp(ms, able) => Sleep(s, ms, able)
    case WakeupOp(n) => Wakeup(s, n)
    case TickOp => Tick(s)
    case SwitchOp => if s.pending then Dispatch(s) else s
    case ResumeOp => s.(task := s.task[s.current := TaskOf(s.task, s.current).(wakeup := 0)])
  }

  /** What a caller may do: system calls come from a task, not from idle; new tasks are new; tasks that
      are woken exist; a sleep never computes tic 0. */
  predicate Enabled(s: State, op: Op)
  {
    match op
    case CreateOp(t, _) => s.current != IDLE && t !in s.task && t != 0
    case ForkOp(t) => s.current != IDLE && t !in s.task && t != 0
    case SleepOp(ms, _) => s.current != IDLE && (ms != 0 ==> ms / 10 + s.tic > 0)
    case WakeupOp(n) => n in s.task
    case _ => true
  }
}
