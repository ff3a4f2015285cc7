/** What every step of the scheduler keeps. */
module SchedInvariant {
  import opened SchedModel

  predicate NoDup(l: seq<Tid>) { forall i, j :: 0 <= i < j < |l| ==> l[i] != l[j] }

  /** The ready lists hold exactly the tasks that are ready, each once, in the list of its priority. */
  ghost predicate QueuesOk(task: map<Tid, Task>, ready: Queues)
  {
    && (forall p: nat, t: Tid {:trigger t in Q(ready, p)} :: t in Q(ready, p) ==> p < PRIOS && t in task && task[t].state == Ready && task[t].prio == p && t != IDLE && t != 0)
    && (forall p: nat :: NoDup(Q(ready, p)))
    && (forall t: Tid :: t in task && t != IDLE && task[t].state == Ready ==> t in Q(ready, task[t].prio))
  }

  /** The wheel holds exactly the sleepers with a timeout, each once, in the slot of its tic. */
  ghost predicate WheelOk(task: map<Tid, Task>, wheel: Queues)
  {
    && (forall k: nat, t: Tid {:trigger t in Q(wheel, k)} :: t in Q(wheel, k) ==> t in task && task[t].state == Timer && task[t].wakeup % SLOTS == k && task[t].wakeup != 0 && t != IDLE && t != 0)
    && (forall k: nat :: NoDup(Q(wheel, k)))
    && (forall t: Tid :: t in task && task[t].state == Timer ==> t in Q(wheel, task[t].wakeup % SLOTS))
  }

  ghost predicate Sane(task: map<Tid, Task>)
  {
    && IDLE in task && 0 !in task && (task[IDLE].state == Running || task[IDLE].state == Ready)
    && (forall t: Tid :: t in task ==> task[t].prio < PRIOS)
  }

  /** Exactly the current task is running. */
  ghost predicate TasksOk(task: map<Tid, Task>, current: Tid)
  {
    && Sane(task) && current in task && task[current].state == Running
    && (forall t: Tid :: t in task && t != current ==> task[t].state != Running)
  }

  /** Without a pending switch no ready task outranks the running one; with one, some ready task may run. */
  ghost predicate RankOk(prio: nat, ready: Queues, current: Tid, pending: bool)
  {
    if pending then exists p: nat :: p < PRIOS && Q(ready, p) != [] && (current == IDLE || p <= prio)
    else forall p: nat :: p < PRIOS && Q(ready, p) != [] ==> current != IDLE && prio <= p
  }

  ghost predicate Inv(s: State)
  {
    && QueuesOk(s.task, s.ready) && WheelOk(s.task, s.wheel) && TasksOk(s.task, s.current)
    && RankOk(Prio(s.task, s.current), s.ready, s.current, s.pending)
  }

  // ----- The lists

  lemma InAppend(q: Queues, k: nat, t: Tid)
    requires t !in Q(q, k) && forall j: nat :: NoDup(Q(q, j))
    ensures forall j: nat, x: Tid {:trigger x in Q(Append(q, k, t), j)} :: x in Q(Append(q, k, t), j) <==> x in Q(q, j) || (j == k && x == t)
    ensures forall j: nat :: NoDup(Q(Append(q, k, t), j))
  {
    var q2 := Append(q, k, t);
    forall j: nat ensures NoDup(Q(q2, j)) { assert NoDup(Q(q, j)); }
  }

  lemma InMinus(q: Queues, k: nat, t: Tid)
    requires forall j: nat :: NoDup(Q(q, j))
    ensures var q2 := q[k := Minus(Q(q, k), t)];
      && (forall j: nat, x: Tid {:trigger x in Q(q2, j)} :: x in Q(q2, j) <==> x in Q(q, j) && (j == k ==> x != t))
      && (forall j: nat :: NoDup(Q(q2, j)))
  {
    assert NoDup(Q(q, k));
    MinusMembers(Q(q, k), t);
    var q2 := q[k := Minus(Q(q, k), t)];
    forall j: nat ensures NoDup(Q(q2, j)) { assert NoDup(Q(q, j)); }
    hide Minus, NoDup;
  }

  lemma InTail(q: Queues, k: nat)
    requires Q(q, k) != [] && forall j: nat :: NoDup(Q(q, j))
    ensures var q2 := q[k := Q(q, k)[1..]];
      && (forall j: nat, x: Tid {:trigger x in Q(q2, j)} :: x in Q(q2, j) <==> x in Q(q, j) && (j == k ==> x != Q(q, k)[0]))
      && (forall j: nat :: NoDup(Q(q2, j)))
  {
    var l, q2 := Q(q, k), q[k := Q(q, k)[1..]];
    assert NoDup(l);
    assert forall x: Tid :: x in l <==> x == l[0] || x in l[1..];
    forall i | 0 <= i < |l[1..]| ensures l[1..][i] != l[0] { assert l[1..][i] == l[i + 1]; }
    forall j: nat ensures NoDup(Q(q2, j)) { assert NoDup(Q(q, j)); }
  }

  /** A task that was not ready joins the list of its priority. */
  lemma AppendQueues(task: map<Tid, Task>, ready: Queues, t: Tid, c: Task)
    requires QueuesOk(task, ready) && t != IDLE && t != 0 && (t in task ==> task[t].state != Ready)
    requires c.state == Ready && c.prio < PRIOS
    ensures QueuesOk(task[t := c], Append(ready, c.prio, t))
  {
    assert t !in Q(ready, c.prio);
    InAppend(ready, c.prio, t);
    hide NoDup, Q, Append;
  }

  /** A change of a task that is in no list. */
  lemma KeepQueues(task: map<Tid, Task>, ready: Queues, t: Tid, c: Task)
    requires QueuesOk(task, ready) && (t != IDLE ==> c.state != Ready && (t in task ==> task[t].state != Ready))
    ensures QueuesOk(task[t := c], ready)
  {
    hide NoDup;
  }

  /** The first of a list starts to run. */
  lemma PopQueues(task: map<Tid, Task>, ready: Queues, p: nat, c: Task)
    requires QueuesOk(task, ready) && Q(ready, p) != [] && c.state != Ready
    ensures QueuesOk(task[Q(ready, p)[0] := c], ready[p := Q(ready, p)[1..]])
  {
    assert Q(ready, p)[0] in Q(ready, p);
    InTail(ready, p);
    hide NoDup, Q;
  }

  lemma AppendWheel(task: map<Tid, Task>, wheel: Queues, t: Tid, c: Task)
    requires WheelOk(task, wheel) && t != IDLE && t != 0 && (t in task ==> task[t].state != Timer)
    requires c.state == Timer && c.wakeup != 0
    ensures WheelOk(task[t := c], Append(wheel, c.wakeup % SLOTS, t))
  {
    assert t !in Q(wheel, c.wakeup % SLOTS);
    InAppend(wheel, c.wakeup % SLOTS, t);
    hide NoDup, Q, Append;
  }

  lemma KeepWheel(task: map<Tid, Task>, wheel: Queues, t: Tid, c: Task)
    requires WheelOk(task, wheel) && c.state != Timer && (t in task ==> task[t].state != Timer)
    ensures WheelOk(task[t := c], wheel)
  {
    hide NoDup;
  }

  lemma {:induction false} MinusMembers(l: seq<Tid>, t: Tid)
    requires NoDup(l)
    ensures NoDup(Minus(l, t)) && (forall x: Tid :: x in Minus(l, t) <==> x in l && x != t)
  {
    if l != [] {
      var rest := l[1..];
      assert forall i :: 0 <= i < |rest| ==> rest[i] == l[i + 1];
      MinusMembers(rest, t);
      assert l == [l[0]] + rest;
      assert forall x: Tid :: x in l <==> x == l[0] || x in rest;
      assert l[0] !in rest;
      if l[0] != t { ConsNoDup(l[0], Minus(rest, t)); }
    }
  }

  lemma ConsNoDup(x: Tid, l: seq<Tid>)
    requires NoDup(l) && x !in l
    ensures NoDup([x] + l)
  {}

  /** A sleeper that is taken out of its slot. */
  lemma RemoveWheel(task: map<Tid, Task>, wheel: Queues, t: Tid, c: Task)
    requires WheelOk(task, wheel) && t in task && task[t].state == Timer && c.state != Timer
    ensures var k := task[t].wakeup % SLOTS; WheelOk(task[t := c], wheel[k := Minus(Q(wheel, k), t)])
  {
    InMinus(wheel, task[t].wakeup % SLOTS, t);
    hide NoDup, Q, Minus;
  }

  /** Removing what is not there. */
  lemma RemoveNothing(task: map<Tid, Task>, wheel: Queues, t: Tid, k: nat)
    requires WheelOk(task, wheel) && (t in task ==> task[t].state != Timer)
    ensures WheelOk(task, wheel[k := Minus(Q(wheel, k), t)])
  {
    InMinus(wheel, k, t);
    assert t !in Q(wheel, k);
    hide NoDup, Minus, Q;
  }

  /** Another task joins a list: the ranks, with a switch asked for when the new task may run. */
  lemma RankAppend(prio: nat, ready: Queues, current: Tid, pending: bool, p: nat, t: Tid, ask: bool)
    requires RankOk(prio, ready, current, pending) && p < PRIOS
    requires current == IDLE || p < prio ==> pending || ask
    requires ask ==> pending || current == IDLE || p <= prio
    ensures RankOk(prio, Append(ready, p, t), current, pending || ask)
  {
    var ready2 := Append(ready, p, t);
    assert forall k: nat :: Q(ready, k) != [] ==> Q(ready2, k) != [];
    assert Q(ready2, p) != [];
    assert forall k: nat :: k != p ==> Q(ready2, k) == Q(ready, k);
    if pending {
      var k: nat :| k < PRIOS && Q(ready, k) != [] && (current == IDLE || k <= prio);
      assert Q(ready2, k) != [];
    }
  }

  lemma KeepTasks(task: map<Tid, Task>, current: Tid, t: Tid, c: Task)
    requires TasksOk(task, current) && t != 0 && t != IDLE && c.prio < PRIOS
    requires if t == current then c.state == Running else c.state != Running
    ensures TasksOk(task[t := c], current)
  {}

  // ----- Becoming ready

  /** A task that is neither ready nor running, or is new, becomes ready. */
  lemma ReadyInv(s: State, t: Tid, c: Task, ask: bool)
    requires QueuesOk(s.task, s.ready) && TasksOk(s.task, s.current)
    requires RankOk(Prio(s.task, s.current), s.ready, s.current, s.pending)
    requires t != IDLE && t != 0 && t != s.current && (t in s.task ==> s.task[t].state != Ready)
    requires c.state == Ready && c.prio < PRIOS
    requires s.current == IDLE || c.prio < Prio(s.task, s.current) ==> s.pending || ask
    requires ask ==> s.pending || s.current == IDLE || c.prio <= Prio(s.task, s.current)
    ensures var task, ready := s.task[t := c], Append(s.ready, c.prio, t);
      && QueuesOk(task, ready) && TasksOk(task, s.current) && Prio(task, s.current) == Prio(s.task, s.current)
      && RankOk(Prio(task, s.current), ready, s.current, s.pending || ask)
  {
    AppendQueues(s.task, s.ready, t, c);
    KeepTasks(s.task, s.current, t, c);
    RankAppend(Prio(s.task, s.current), s.ready, s.current, s.pending, c.prio, t, ask);
    hide QueuesOk, TasksOk, RankOk, Append;
  }

  lemma CreateInv(s: State, t: Tid, prio: nat)
    requires Inv(s) && Enabled(s, CreateOp(t, prio))
    ensures Inv(Create(s, t, prio))
  {
    if prio < PRIOS {
      var c := Task(Ready, prio, false, false, 0);
      assert t != s.current && t != IDLE;
      ReadyInv(s, t, c, prio < Prio(s.task, s.current));
      KeepWheel(s.task, s.wheel, t, c);
      assert s.task[t := c][t := c] == s.task[t := c];
      hide QueuesOk, TasksOk, RankOk, WheelOk, Append;
    }
  }

  lemma ForkInv(s: State, t: Tid)
    requires Inv(s) && Enabled(s, ForkOp(t))
    ensures Inv(Fork(s, t))
  {
    var p := TaskOf(s.task, s.current);
    var c := Task(Ready, p.prio, p.tmark, false, 0);
    assert t != s.current && t != IDLE && p.prio < PRIOS;
    ReadyInv(s, t, c, false);
    KeepWheel(s.task, s.wheel, t, c);
    assert s.task[t := c][t := c] == s.task[t := c];
    hide QueuesOk, TasksOk, RankOk, WheelOk, Append;
  }

  // ----- Waking up

  lemma Sleeper(s: State, n: Tid)
    requires Inv(s) && n in s.task && n != s.current && s.task[n].state != Ready
    ensures n != IDLE && n != 0 && s.task[n].state != Running && s.task[n].prio < PRIOS
    ensures s.task[n].state == Timer ==> s.task[n].wakeup != 0
  {
    hide NoDup;
  }

  lemma WokenWheel(s: State, n: Tid, c: Task)
    requires WheelOk(s.task, s.wheel) && n in s.task && c.state != Timer && (s.task[n].state == Timer ==> s.task[n].wakeup != 0)
    ensures WheelOk(s.task[n := c], if s.task[n].wakeup != 0 then RemoveTimer(s, n).wheel else s.wheel)
  {
    if s.task[n].state == Timer {
      RemoveWheel(s.task, s.wheel, n, c);
    } else {
      KeepWheel(s.task, s.wheel, n, c);
      RemoveNothing(s.task[n := c], s.wheel, n, s.task[n].wakeup % SLOTS);
    }
    hide WheelOk;
  }

  lemma WakeupInv(s: State, n: Tid)
    requires Inv(s) && n in s.task
    ensures Inv(Wakeup(s, n))
  {
    var c := s.task[n];
    if n == s.current {
      var c2 := c.(wake := true);
      Reflag(s, c2);
      WokenWheel(s, n, c2);
      hide QueuesOk, TasksOk, RankOk, WheelOk;
    } else if c.state != Ready {
      var c2, ask := c.(state := Ready), s.current == IDLE || c.prio < Prio(s.task, s.current);
      Sleeper(s, n);
      ReadyInv(s, n, c2, ask);
      WokenWheel(s, n, c2);
      hide QueuesOk, TasksOk, RankOk, WheelOk, Append;
    }
  }

  /** Flags of the running task may change. */
  lemma Reflag(s: State, c: Task)
    requires Inv(s) && c.state == Running && c.prio == s.task[s.current].prio
    ensures var task := s.task[s.current := c];
      && QueuesOk(task, s.ready) && WheelOk(task, s.wheel) && TasksOk(task, s.current)
      && Prio(task, s.current) == Prio(s.task, s.current) && RankOk(Prio(task, s.current), s.ready, s.current, s.pending)
  {
    KeepQueues(s.task, s.ready, s.current, c);
    KeepWheel(s.task, s.wheel, s.current, c);
    hide QueuesOk, RankOk, WheelOk;
  }

  // ----- Dispatching

  /** The head of the best list, and what remains. */
  lemma NextInv(task: map<Tid, Task>, ready: Queues)
    requires QueuesOk(task, ready) && Sane(task)
    ensures var (t, ready2) := Next(ready); var c := TaskOf(task, t).(state := Running);
      && t in task && QueuesOk(task[t := c], ready2)
      && (Best(ready, 0) < PRIOS ==> t != IDLE && t != 0 && task[t].prio == Best(ready, 0) && task[t].state == Ready)
      && (Best(ready, 0) == PRIOS ==> t == IDLE && ready2 == ready)
  {
    var p := Best(ready, 0);
    if p < PRIOS {
      var t := Q(ready, p)[0];
      assert t in Q(ready, p);
      PopQueues(task, ready, p, task[t].(state := Running));
    } else {
      KeepQueues(task, ready, IDLE, TaskOf(task, IDLE).(state := Running));
    }
    hide QueuesOk;
  }

  /** The ranks after the best of the lists was taken out, and the outgoing task put back. */
  lemma NextRank(ready: Queues, t: Tid, prio: nat, back: bool, current: Tid)
    requires t == Next(ready).0 && (Best(ready, 0) == PRIOS <==> t == IDLE)
    requires back ==> Best(ready, 0) <= prio && Best(ready, 0) < PRIOS
    ensures var r1 := Next(ready).1;
      RankOk(Best(ready, 0), if back then Append(r1, prio, current) else r1, t, false)
  {
    var b, r1 := Best(ready, 0), Next(ready).1;
    assert forall k: nat :: k != b ==> Q(r1, k) == Q(ready, k);
    var r2 := Append(r1, prio, current);
    assert forall k: nat :: k != prio ==> Q(r2, k) == Q(r1, k);
  }

  /** What a dispatch starts from: the current task still runs and some ready task may replace it, or it
      has gone to sleep. */
  ghost predicate Leaving(s: State)
  {
    && QueuesOk(s.task, s.ready) && WheelOk(s.task, s.wheel) && Sane(s.task) && s.current in s.task
    && (forall t: Tid :: t in s.task && t != s.current ==> s.task[t].state != Running)
    && (if s.task[s.current].state == Running
        then exists p: nat :: p < PRIOS && Q(s.ready, p) != [] && (s.current == IDLE || p <= s.task[s.current].prio)
        else s.current != IDLE && !s.task[s.current].wake && s.task[s.current].state != Ready)
  }

  lemma DispatchQueues(s: State)
    requires Leaving(s)
    ensures QueuesOk(Dispatch(s).task, Dispatch(s).ready)
  {
    var (t, r1) := Next(s.ready);
    var cur := s.task[s.current];
    var run := TaskOf(s.task, t).(state := Running);
    NextInv(s.task, s.ready);
    if cur.state == Running {
      var back := cur.(wake := false, tmark := false, state := Ready);
      LeavingBest(s);
      hide QueuesOk;
      assert s.task[t := run][s.current := back] == s.task[s.current := back][t := run];
      if s.current == IDLE {
        KeepQueues(s.task[t := run], r1, IDLE, back);
      } else {
        AppendQueues(s.task[t := run], r1, s.current, back);
      }
    } else {
      hide QueuesOk;
      assert s.task[s.current := cur] == s.task;
    }
  }

  /** A task that still runs may be replaced by the best. */
  lemma LeavingBest(s: State)
    requires Leaving(s) && s.task[s.current].state == Running
    ensures Best(s.ready, 0) < PRIOS && Next(s.ready).0 != s.current && s.current != 0
    ensures s.current != IDLE ==> Best(s.ready, 0) <= s.task[s.current].prio < PRIOS
  {
    var p: nat :| p < PRIOS && Q(s.ready, p) != [] && (s.current == IDLE || p <= s.task[s.current].prio);
    BestRanks(s.ready, p);
    NextInv(s.task, s.ready);
    hide QueuesOk;
  }

  lemma DispatchWheel(s: State)
    requires Leaving(s)
    ensures WheelOk(Dispatch(s).task, Dispatch(s).wheel)
  {
    var (t, r1) := Next(s.ready);
    var cur := s.task[s.current];
    NextInv(s.task, s.ready);
    var back := PutBack(s.task, r1, s.current).0;
    hide WheelOk, QueuesOk, Next;
    if cur.state == Running {
      KeepWheel(s.task, s.wheel, s.current, back[s.current]);
    } else {
      assert back == s.task;
    }
    assert t in s.task ==> s.task[t].state != Timer;
    KeepWheel(back, s.wheel, t, TaskOf(back, t).(state := Running));
  }

  lemma HandOver(task: map<Tid, Task>, current: Tid, back: Task, t: Tid, run: Task)
    requires Sane(task) && current in task && t in task && current != t && current != 0
    requires forall x: Tid :: x in task && x != current ==> task[x].state != Running
    requires back.state != Running && back.prio == task[current].prio && (current == IDLE ==> back.state == Ready)
    requires run.state == Running && run.prio == task[t].prio
    ensures TasksOk(task[current := back][t := run], t)
  {}

  lemma DispatchTasks(s: State)
    requires Leaving(s)
    ensures TasksOk(Dispatch(s).task, Dispatch(s).current)
    ensures Prio(Dispatch(s).task, Dispatch(s).current) == Prio(s.task, Next(s.ready).0)
  {
    var (t, r1) := Next(s.ready);
    NextInv(s.task, s.ready);
    if s.task[s.current].state == Running { LeavingBest(s); }
    var back := PutBack(s.task, r1, s.current).0;
    HandOver(s.task, s.current, back[s.current], t, TaskOf(back, t).(state := Running));
    hide WheelOk, QueuesOk, Next, Best, Append, TasksOk, Sane;
    assert s.task[s.current := back[s.current]] == back;
  }

  lemma DispatchRank(s: State)
    requires Leaving(s)
    ensures RankOk(Prio(s.task, Next(s.ready).0), Dispatch(s).ready, Dispatch(s).current, false)
  {
    var t, cur := Next(s.ready).0, s.task[s.current];
    NextInv(s.task, s.ready);
    if cur.state == Running { LeavingBest(s); }
    NextRank(s.ready, t, cur.prio, cur.state == Running && s.current != IDLE, s.current);
    hide WheelOk, QueuesOk, Next, RankOk, Append, Best;
    if t == IDLE { IdleRank(Best(s.ready, 0), Dispatch(s).ready, Prio(s.task, IDLE)); }
  }

  /** With every list empty the rank of idle does not matter. */
  lemma IdleRank(p: nat, ready: Queues, q: nat)
    requires RankOk(p, ready, IDLE, false)
    ensures RankOk(q, ready, IDLE, false)
  {}

  /** Dispatching keeps everything in order; idle runs only if all the lists are empty. */
  lemma DispatchInv(s: State)
    requires Leaving(s)
    ensures Inv(Dispatch(s)) && !Dispatch(s).pending
    ensures Dispatch(s).current == IDLE <==> forall p: nat :: p < PRIOS ==> Q(s.ready, p) == []
    ensures Dispatch(s).current != s.current
  {
    DispatchQueues(s);
    DispatchWheel(s);
    DispatchTasks(s);
    DispatchRank(s);
    NextInv(s.task, s.ready);
    hide QueuesOk, WheelOk;
    if s.task[s.current].state == Running { LeavingBest(s); }
    if Best(s.ready, 0) < PRIOS { assert Q(s.ready, Best(s.ready, 0)) != []; }
    hide TasksOk, RankOk;
  }

  lemma {:induction false} BestRanks(ready: Queues, p: nat)
    requires p < PRIOS && Q(ready, p) != []
    ensures Best(ready, 0) <= p
  {}

  lemma SwitchInv(s: State)
    requires Inv(s)
    ensures Inv(Step(s, SwitchOp))
  {
    if s.pending {
      assert Leaving(s);
      hide Leaving, Dispatch;
      DispatchInv(s);
    }
    hide QueuesOk, WheelOk, TasksOk, RankOk;
  }

  // ----- Sleeping

  /** The running task goes to sleep, with a timer when it has a timeout. */
  lemma Asleep(s: State, c: Task, wheel: Queues)
    requires Inv(s) && s.current != IDLE && c.prio == s.task[s.current].prio && !c.wake
    requires if c.state == Timer then c.wakeup != 0 && wheel == Append(s.wheel, c.wakeup % SLOTS, s.current)
             else c.state == Io && wheel == s.wheel
    ensures Leaving(s.(task := s.task[s.current := c], wheel := wheel))
  {
    KeepQueues(s.task, s.ready, s.current, c);
    if c.state == Timer { AppendWheel(s.task, s.wheel, s.current, c); } else { KeepWheel(s.task, s.wheel, s.current, c); }
    hide QueuesOk, WheelOk, RankOk, Append;
  }

  lemma SleepInv(s: State, ms: nat, able: bool)
    requires Inv(s) && Enabled(s, SleepOp(ms, able))
    ensures Inv(Sleep(s, ms, able))
  {
    var t, c := s.current, s.task[s.current];
    if c.wake {
      Reflag(s, c.(wake := false));
      hide QueuesOk, WheelOk, TasksOk, RankOk;
    } else if !able {
      SettleLeaving(s, ms);
      hide Leaving, Dispatch, Settle, Inv;
      DispatchInv(Settle(s, ms));
    }
  }

  lemma SettleLeaving(s: State, ms: nat)
    requires Inv(s) && s.current != IDLE && (ms != 0 ==> ms / 10 + s.tic > 0) && !s.task[s.current].wake
    ensures Leaving(Settle(s, ms))
  {
    hide QueuesOk, WheelOk, RankOk, Append, Leaving;
    var t, c := s.current, s.task[s.current];
    var c1 := c.(state := if ms != 0 then Timer else Io, tmark := false, wakeup := 0);
    var c2 := if ms != 0 then c1.(wakeup := ms / 10 + s.tic) else c1;
    Asleep(s, c2, if ms != 0 then Append(s.wheel, c2.wakeup % SLOTS, t) else s.wheel);
    assert s.task[t := c1][t := c2] == s.task[t := c2];
  }

  // ----- Ticking

  /** The state while the sleepers of a slot become ready: `l` are still to come. */
  ghost predicate Waking(s: State, slot: nat, l: seq<Tid>, p: nat)
  {
    && QueuesOk(s.task, s.ready) && WheelOk(s.task, s.wheel[slot := l]) && TasksOk(s.task, s.current)
    && RankOk(Prio(s.task, s.current), s.ready, s.current, s.pending)
    && (p < Prio(s.task, s.current) ==> s.pending)
  }

  lemma WakeOne(s: State, slot: nat, l: seq<Tid>, p: nat)
    requires Waking(s, slot, l, p) && l != []
    ensures var prio := Prio(s.task, l[0]); var p1 := if prio < p then prio else p;
      Waking(Ask(MakeReady(s, l[0]), p1 < Prio(s.task, s.current) || s.current == IDLE), slot, l[1..], p1)
  {
    hide QueuesOk, WheelOk, TasksOk, RankOk, Append;
    var t := l[0];
    WakingHead(s, slot, l, p);
    var c := s.task[t].(state := Ready);
    var p1 := if c.prio < p then c.prio else p;
    var ask := p1 < Prio(s.task, s.current) || s.current == IDLE;
    ReadyInv(s, t, c, ask);
    PopWheel(s.task, s.wheel[slot := l], slot, c);
    assert s.wheel[slot := l][slot := l[1..]] == s.wheel[slot := l[1..]];
  }

  lemma WakingHead(s: State, slot: nat, l: seq<Tid>, p: nat)
    requires Waking(s, slot, l, p) && l != []
    ensures l[0] in s.task && l[0] != IDLE && l[0] != 0 && l[0] != s.current && s.task[l[0]].state == Timer && s.task[l[0]].prio < PRIOS
  {
    assert l[0] in Q(s.wheel[slot := l], slot);
    hide QueuesOk, RankOk, NoDup;
  }

  lemma PopWheel(task: map<Tid, Task>, wheel: Queues, k: nat, c: Task)
    requires WheelOk(task, wheel) && Q(wheel, k) != [] && c.state != Timer
    ensures WheelOk(task[Q(wheel, k)[0] := c], wheel[k := Q(wheel, k)[1..]])
  {
    assert Q(wheel, k)[0] in Q(wheel, k);
    InTail(wheel, k);
    hide NoDup, Q;
  }

  lemma {:induction false} WakeAllInv(s: State, slot: nat, l: seq<Tid>, p: nat)
    requires Waking(s, slot, l, p)
    ensures var e := WakeAll(s, l, p);
      && QueuesOk(e.task, e.ready) && WheelOk(e.task, e.wheel[slot := []]) && TasksOk(e.task, e.current)
      && RankOk(Prio(e.task, e.current), e.ready, e.current, e.pending)
    ensures WakeAll(s, l, p).tic == s.tic && WakeAll(s, l, p).current == s.current && WakeAll(s, l, p).wheel == s.wheel
    decreases |l|
  {
    hide QueuesOk, WheelOk, TasksOk, RankOk, MakeReady, Prio;
    if l != [] {
      WakeOne(s, slot, l, p);
      hide Waking;
      var prio := Prio(s.task, l[0]);
      var p1 := if prio < p then prio else p;
      var s1 := Ask(MakeReady(s, l[0]), p1 < Prio(s.task, s.current) || s.current == IDLE);
      ReadyKeeps(s, l[0]);
      WakeAllInv(s1, slot, l[1..], p1);
    }
  }

  lemma ReadyKeeps(s: State, t: Tid)
    ensures var e := MakeReady(s, t); e.tic == s.tic && e.current == s.current && e.wheel == s.wheel
  {}

  lemma SliceInv(s: State)
    requires Inv(s)
    ensures Inv(Slice(s))
  {
    if s.current != IDLE {
      var c := s.task[s.current];
      if c.tmark && Q(s.ready, c.prio) != [] {
        SliceRank(c.prio, s.ready, s.current, s.pending);
        hide QueuesOk, WheelOk, RankOk;
      } else {
        Reflag(s, c.(tmark := true));
        hide QueuesOk, WheelOk, TasksOk, RankOk;
      }
    }
  }

  lemma SliceRank(prio: nat, ready: Queues, current: Tid, pending: bool)
    requires Q(ready, prio) != [] && prio < PRIOS
    ensures RankOk(prio, ready, current, true)
  {}

  lemma SlotInv(s: State, slot: nat)
    requires Inv(s)
    ensures Inv(Empty(s, slot))
  {
    StartWaking(s, slot);
    WakeAllInv(s, slot, Q(s.wheel, slot), 5);
    hide QueuesOk, WheelOk, TasksOk, RankOk, WakeAll, Waking, Q, Prio;
  }

  lemma TurnInv(s: State)
    requires Inv(s)
    ensures Inv(Turn(s))
  {
    hide Inv, Empty;
    TicInv(s);
    SlotInv(s.(tic := s.tic + 1), (s.tic + 1) % SLOTS);
  }

  lemma TicInv(s: State)
    requires Inv(s)
    ensures Inv(s.(tic := s.tic + 1))
  {
    hide QueuesOk, WheelOk, TasksOk, RankOk, Prio;
  }

  lemma TickInv(s: State)
    requires Inv(s)
    ensures Inv(Tick(s))
  {
    hide Inv, Turn, Slice;
    TurnInv(s);
    SliceInv(Turn(s));
  }

  lemma StartWaking(s: State, slot: nat)
    requires Inv(s)
    ensures Waking(s, slot, Q(s.wheel, slot), 5)
  {
    SameWheel(s.task, s.wheel, slot);
    hide QueuesOk, WheelOk, RankOk;
  }

  lemma SameWheel(task: map<Tid, Task>, wheel: Queues, slot: nat)
    requires WheelOk(task, wheel)
    ensures WheelOk(task, wheel[slot := Q(wheel, slot)])
  {
    var wheel2 := wheel[slot := Q(wheel, slot)];
    forall k: nat ensures Q(wheel2, k) == Q(wheel, k) && NoDup(Q(wheel2, k)) {
      assert NoDup(Q(wheel, k));
    }
    forall k: nat, t: Tid | t in Q(wheel2, k) ensures t in Q(wheel, k) {}
    forall t: Tid | t in task && task[t].state == Timer ensures t in Q(wheel2, task[t].wakeup % SLOTS) {
      assert t in Q(wheel, task[t].wakeup % SLOTS);
    }
  }

  // ----- Runs

  /** Every step keeps the lists, the wheel and the ranks in order. */
  lemma StepInv(s: State, op: Op)
    requires Inv(s) && Enabled(s, op)
    ensures Inv(Step(s, op))
  {
    match op
    case CreateOp(t, prio) => CreateInv(s, t, prio);
    case ForkOp(t) => ForkInv(s, t);
    case SleepOp(ms, able) => SleepInv(s, ms, able);
    case WakeupOp(n) => WakeupInv(s, n);
    case TickOp => TickInv(s);
    case SwitchOp => SwitchInv(s);
    case ResumeOp =>
      Reflag(s, s.task[s.current].(wakeup := 0));
      hide QueuesOk, WheelOk, TasksOk, RankOk;
  }

  function Run(s: State, ops: seq<Op>): State
    decreases |ops|
  {
    if ops == [] then s else Run(Step(s, ops[0]), ops[1..])
  }

  predicate Legal(s: State, ops: seq<Op>)
    decreases |ops|
  {
    ops == [] || (Enabled(s, ops[0]) && Legal(Step(s, ops[0]), ops[1..]))
  }

  lemma {:induction false} RunInv(s: State, ops: seq<Op>)
    requires Inv(s) && Legal(s, ops)
    ensures Inv(Run(s, ops))
    decreases |ops|
  {
    if ops != [] {
      StepInv(s, ops[0]);
      hide Inv, Step, Enabled;
      RunInv(Step(s, ops[0]), ops[1..]);
    }
  }

  /** Just after start only the first task and idle exist. */
  lemma BootInv(t: Tid, prio: nat, idle: nat)
    requires t != 0 && t != IDLE && prio < PRIOS && idle < PRIOS
    ensures Inv(State(map[t := Task(Running, prio, false, false, 0), IDLE := Task(Ready, idle, false, false, 0)], map[], map[], t, false, 0))
  {}
}
