/** The scheduler in place: linked lists of tasks and of sleeping blockers, changed by the kernel's
    routines. The ghost lists say what the links spell out. */
module SchedKernel {
  import opened SchedModel
  import opened SchedInvariant
  import opened SchedLinks

  lemma NowhereReady(task: map<Tid, Task>, ready: Queues, t: Tid)
    requires QueuesOk(task, ready) && (t == IDLE || t !in task || task[t].state != Ready)
    ensures Nowhere(ready, t)
  {
    hide NoDup, Q;
  }

  lemma NowhereWheel(task: map<Tid, Task>, wheel: Queues, t: Tid)
    requires WheelOk(task, wheel) && (t !in task || task[t].state != Timer)
    ensures Nowhere(wheel, t)
  {
    hide NoDup, Q;
  }

  class Kernel {
    var run: Links
    var timer: Links
    var task: map<Tid, Task>
    var current: Tid
    var pending: bool
    var tic: nat
    ghost var ready: Queues
    ghost var wheel: Queues

    ghost function Value(): State
      reads this
    {
      State(task, ready, wheel, current, pending, tic)
    }

    ghost predicate Valid()
      reads this
    {
      Linked(run, ready) && Linked(timer, wheel) && Inv(Value())
    }

    /** The first task, and idle in no list. */
    constructor (t: Tid, prio: nat, idle: nat)
      requires t != 0 && t != IDLE && prio < PRIOS && idle < PRIOS
      ensures Valid() && current == t && tic == 0 && !pending
    {
      run, timer := Links(map[], map[], map[]), Links(map[], map[], map[]);
      task := map[t := Task(Running, prio, false, false, 0), IDLE := Task(Ready, idle, false, false, 0)];
      current, pending, tic := t, false, 0;
      ready, wheel := map[], map[];
      new;
      BootInv(t, prio, idle);
    }

    /** switch_on_return. */
    method AskSwitch()
      modifies this`pending
      ensures pending
    {
      pending := true;
    }

    /** A task joins the end of a ready list. */
    method PutLast(t: Tid, prio: nat)
      requires Linked(run, ready) && Nowhere(ready, t) && t != 0
      modifies this`run, this`ready
      ensures Linked(run, ready) && ready == Append(old(ready), prio, t)
    {
      JoinedLinked(run, ready, prio, t);
      ghost var l := run;
      hide Linked, Nowhere, Append;
      run := run.(next := run.next[t := 0]);
      if P(run.head, prio) == 0 {
        run := run.(head := run.head[prio := t]);
      } else {
        run := run.(next := run.next[P(run.last, prio) := t]);
      }
      run := run.(last := run.last[prio := t]);
      ready := Append(ready, prio, t);
      assert run == Joined(l, prio, t);
    }

    /** A task that sleeps, or is new, becomes ready. */
    method EnqueueTask(t: Tid)
      requires Linked(run, ready) && Nowhere(ready, t) && t != 0 && t in task
      modifies this`run, this`ready, this`task
      ensures Linked(run, ready) && Value() == MakeReady(old(Value()), t)
    {
      hide Linked, Nowhere, Append;
      var prio := task[t].prio;
      task := task[t := task[t].(state := Ready)];
      PutLast(t, prio);
    }

    // ----- Timers

    /** sys_timer. */
    method SetTimer(t: Tid, ms: nat)
      requires Linked(timer, wheel) && Nowhere(wheel, t) && t != 0 && t in task
      modifies this`timer, this`wheel, this`task
      ensures Linked(timer, wheel) && Value() == SchedModel.SetTimer(old(Value()), t, ms)
    {
      var wtic := ms / 10 + tic;
      var slot := wtic % 1024;
      JoinedLinked(timer, wheel, slot, t);
      ghost var l := timer;
      hide Linked, Nowhere, Append;
      task := task[t := task[t].(wakeup := wtic)];
      timer := timer.(next := timer.next[t := 0]);
      if P(timer.head, slot) == 0 {
        timer := timer.(head := timer.head[slot := t], last := timer.last[slot := t]);
      } else {
        timer := timer.(next := timer.next[P(timer.last, slot) := t]);
        timer := timer.(last := timer.last[slot := t]);
      }
      wheel := Append(wheel, slot, t);
      assert timer == Joined(l, slot, t);
    }

    /** sys_timer_remove: the blocker is bridged over in its slot, when it is there. */
    method RemoveTimer(t: Tid)
      requires Linked(timer, wheel) && t in task
      requires forall k: nat :: t in Q(wheel, k) ==> k == task[t].wakeup % SLOTS
      modifies this`timer, this`wheel
      ensures Linked(timer, wheel) && Value() == SchedModel.RemoveTimer(old(Value()), t)
    {
      var slot := task[t].wakeup % 1024;
      ghost var q := Q(wheel, slot);
      hide Linked, Minus, Q;
      var found, bprev := FindLink(slot, t);
      if found {
        Unlink(slot, t, bprev);
      } else {
        Absent(timer, wheel, slot, t) by { Elsewhere(wheel, t, slot); }
        timer := timer.(next := timer.next[t := 0]);
        wheel := wheel[slot := Minus(q, t)];
      }
    }

    /** The walk along a slot, with the blocker before. */
    method FindLink(slot: nat, t: Tid) returns (found: bool, bprev: Tid)
      requires Linked(timer, wheel)
      ensures found <==> t in Q(wheel, slot)
      ensures found ==> bprev == Before(Q(wheel, slot), t)
    {
      ghost var q := Q(wheel, slot);
      assert ListOk(timer, slot, q);
      hide Linked, ListOk, Chain, Q;
      WalkLink(timer, slot, q, 0);
      var bp := P(timer.head, slot);
      bprev := 0;
      ghost var i := 0;
      while bp != 0
        invariant 0 <= i <= |q| && bp == Nth(q, i) && bprev == (if i == 0 then 0 else q[i - 1])
        invariant forall j :: 0 <= j < i ==> q[j] != t
        decreases |q| - i
      {
        WalkLink(timer, slot, q, i);
        if bp == t {
          BeforeAt(timer, slot, q, i);
          return true, bprev;
        }
        bprev := bp;
        bp := P(timer.next, bp);
        i := i + 1;
      }
      WalkLink(timer, slot, q, i);
      found := false;
    }

    method Unlink(slot: nat, bp: Tid, bprev: Tid)
      requires Linked(timer, wheel) && bp in Q(wheel, slot) && bprev == Before(Q(wheel, slot), bp)
      modifies this`timer, this`wheel
      ensures Linked(timer, wheel) && wheel == old(wheel)[slot := Minus(Q(old(wheel), slot), bp)]
    {
      ghost var q, l := Q(wheel, slot), timer;
      hide Linked, Q, Minus, ListOk, Chain;
      ghost var i := PlaceOf(timer, wheel, slot, bp);
      BridgedLinked(timer, wheel, slot, i);
      var n := P(timer.next, bp);
      if bprev == 0 {
        timer := timer.(head := timer.head[slot := n]);
      } else {
        timer := timer.(next := timer.next[bprev := n]);
      }
      timer := timer.(next := timer.next[bp := 0]);
      if bp == P(timer.last, slot) { timer := timer.(last := timer.last[slot := bprev]); }
      wheel := wheel[slot := Minus(q, bp)];
      assert timer == Bridged(l, slot, q, i);
    }

    // ----- Switching

    /** The search of handle_switch: the head of the first list that is not empty, taken out. */
    method TakeBest() returns (t: Tid)
      requires Linked(run, ready)
      modifies this`run, this`ready
      ensures Linked(run, ready) && (t, ready) == Next(old(ready))
    {
      var i: nat := 0;
      t := 0;
      while i <= 3
        invariant i <= 4 && run == old(run) && ready == old(ready)
        invariant Best(ready, 0) == Best(ready, i)
      {
        assert ListOk(run, i, Q(ready, i));
        t := P(run.head, i);
        if t != 0 {
          PopLinked(run, ready, i);
          run := run.(head := run.head[i := P(run.next, t)], next := run.next[t := 0]);
          ready := ready[i := Q(ready, i)[1..]];
          return;
        }
        i := i + 1;
      }
      t := IDLE;
    }

    /** handle_switch, and the context switch behind it. */
    method HandleSwitch()
      requires Linked(run, ready) && Leaving(Value()) && current != 0
      modifies this`run, this`ready, this`task, this`current, this`pending
      ensures Linked(run, ready) && Value() == Dispatch(old(Value()))
    {
      hide Linked, Leaving, Next, Append, Nowhere;
      ghost var v := Value();
      var t := TakeBest();
      Vacant(v);
      var c := task[current];
      if c.wake {
        c := c.(wake := false, state := Running);
      }
      if c.state == Running {
        c := c.(tmark := false);
        if current != IDLE { PutLast(current, c.prio); }
        c := c.(state := Ready);
      }
      task := task[current := c];
      task := task[t := TaskOf(task, t).(state := Running)];
      current := t;
      pending := false;
    }

    // ----- The system calls and interrupts

    /** do_switch on the way back from a trap. */
    method Switch()
      requires Valid()
      modifies this`run, this`ready, this`task, this`current, this`pending
      ensures Valid() && Value() == Step(old(Value()), SwitchOp)
    {
      hide Inv, Linked, Dispatch, Leaving, Enabled;
      ghost var v := Value();
      SwitchInv(v);
      RunningTask(v);
      if pending { HandleSwitch(); }
    }

    /** create_task. */
    method CreateTask(t: Tid, prio: nat) returns (rc: int)
      requires Valid() && Enabled(Value(), CreateOp(t, prio))
      modifies this`run, this`ready, this`task, this`pending
      ensures Valid() && Value() == Create(old(Value()), t, prio)
      ensures rc == if prio < PRIOS then 0 else -1
    {
      hide Inv, Linked, Nowhere, Append, Leaving;
      ghost var v := Value();
      if prio > 3 { return -1; }
      CreateInv(v, t, prio);
      NewTask(v, t);
      RunningTask(v);
      var asking := prio < task[current].prio;
      task := task[t := Task(Ready, prio, false, false, 0)];
      EnqueueTask(t);
      if asking { AskSwitch(); }
      rc := 0;
    }

    /** The queue part of fork. */
    method ForkTask(t: Tid)
      requires Valid() && Enabled(Value(), ForkOp(t))
      modifies this`run, this`ready, this`task
      ensures Valid() && Value() == Fork(old(Value()), t)
    {
      hide Inv, Linked, Nowhere, Append, Leaving;
      ghost var v := Value();
      ForkInv(v, t);
      NewTask(v, t);
      RunningTask(v);
      task := task[t := Task(Ready, task[current].prio, task[current].tmark, false, 0)];
      EnqueueTask(t);
    }

    /** sys_sleepon. */
    method SleepOn(ms: nat, able: bool)
      requires Valid() && Enabled(Value(), SleepOp(ms, able))
      modifies this`run, this`timer, this`ready, this`wheel, this`task, this`current, this`pending
      ensures Valid() && Value() == Sleep(old(Value()), ms, able)
    {
      hide Inv, Linked, Nowhere, Append, Leaving, Dispatch;
      ghost var v := Value();
      SleepInv(v, ms, able);
      RunningTask(v);
      NotSleeping(v, current);
      var c := task[current];
      if c.wake {
        task := task[current := c.(wake := false)];
        return;
      }
      if able { return; }
      SettleLeaving(v, ms);
      task := task[current := c.(state := if ms != 0 then Timer else Io, tmark := false, wakeup := 0)];
      if ms != 0 { SetTimer(current, ms); }
      assert Value() == Settle(v, ms);
      HandleSwitch();
    }

    /** sys_wakeup. */
    method WakeUp(n: Tid)
      requires Valid() && n in task
      modifies this`run, this`timer, this`ready, this`wheel, this`task, this`pending
      ensures Valid() && Value() == Wakeup(old(Value()), n)
    {
      hide Inv, Linked, Append, Minus, Q, Nowhere, Leaving;
      ghost var v := Value();
      WakeupInv(v, n);
      RunningTask(v);
      InOneSlot(v, n);
      var c := task[n];
      if n == current || c.state == Running {
        task := task[n := c.(wake := true)];
        if c.wakeup != 0 { RemoveTimer(n); }
        return;
      }
      if c.state == Ready { return; }
      NotReady(v, n);
      Sleeper(v, n);
      if c.wakeup != 0 { RemoveTimer(n); }
      EnqueueTask(n);
      if current == IDLE || c.prio < task[current].prio { AskSwitch(); }
    }

    /** The sleepers of a slot become ready, from the head on. */
    method WakeSlot(slot: nat)
      requires Valid()
      modifies this`run, this`timer, this`ready, this`wheel, this`task, this`pending
      ensures Valid() && Value() == Empty(old(Value()), slot)
    {
      hide Inv, Linked, Waking, Emptying, WakeAll, Append, Nowhere, Q;
      ghost var v, l := Value(), Q(wheel, slot);
      SlotInv(v, slot);
      RunningTask(v);
      StartWaking(v, slot);
      EmptyStart(timer, wheel, slot);
      if P(timer.head, slot) == 0 {
        NothingEmptied(timer, wheel, slot);
        NoneLeft(v, 5);
        wheel := wheel[slot := []];
        return;
      }
      var b, p := P(timer.head, slot), 5;
      ghost var rest := l;
      while b != 0
        invariant Linked(run, ready) && Emptying(timer, wheel, slot, b, rest) && Waking(Value(), slot, rest, p)
        invariant WakeAll(Value(), rest, p) == WakeAll(v, l, 5)
        invariant wheel == v.wheel && current == v.current && tic == v.tic
        invariant current in task
        decreases |rest|
      {
        EmptyNext(timer, wheel, slot, b, rest);
        b, p := WakeNext(slot, b, p, rest);
        rest := rest[1..];
      }
      EmptyDone(timer, wheel, slot, b, rest);
      timer := timer.(head := timer.head[slot := 0], last := timer.last[slot := 0]);
      NoneLeft(Value(), p);
      wheel := wheel[slot := []];
    }

    /** One turn of the loop. */
    method WakeNext(slot: nat, b: Tid, p: nat, ghost rest: seq<Tid>) returns (bnext: Tid, p1: nat)
      requires Linked(run, ready) && Emptying(timer, wheel, slot, b, rest) && Waking(Value(), slot, rest, p)
      requires rest != [] && b == rest[0] && current in task
      modifies this`run, this`timer, this`ready, this`task, this`pending
      ensures Linked(run, ready) && Emptying(timer, wheel, slot, bnext, rest[1..]) && Waking(Value(), slot, rest[1..], p1)
      ensures WakeAll(Value(), rest[1..], p1) == WakeAll(old(Value()), rest, p) && current in task
    {
      hide Inv, Linked, Waking, Emptying, Append, Nowhere, Q;
      ghost var v := Value();
      WakingHead(v, slot, rest, p);
      WakingNowhere(v, slot, rest, p);
      WakeOne(v, slot, rest, p);
      EmptyStep(timer, wheel, slot, b, rest);
      WakeUnfold(v, rest, p);
      hide WakeAll;
      bnext, p1 := P(timer.next, b), p;
      var prio := task[b].prio;
      timer := timer.(next := timer.next[b := 0]);
      if prio < p1 { p1 := prio; }
      var asking := p1 < task[current].prio || current == IDLE;
      EnqueueTask(b);
      if asking { AskSwitch(); }
    }

    /** SysTick_Handler. */
    method SysTick()
      requires Valid()
      modifies this`run, this`timer, this`ready, this`wheel, this`task, this`pending, this`tic
      ensures Valid() && Value() == Tick(old(Value()))
    {
      hide Inv, Linked, Empty, Q;
      ghost var v := Value();
      TickInv(v);
      TicInv(v);
      tic := tic + 1;
      WakeSlot(tic % 1024);
      ghost var d := Value();
      RunningTask(d);
      if current != IDLE {
        HeadIs(run, ready, task[current].prio);
        if task[current].tmark && P(run.head, task[current].prio) != 0 {
          AskSwitch();
          return;
        }
        task := task[current := task[current].(tmark := true)];
      }
    }

    /** The woken task comes back from sys_sleepon. */
    method Resume()
      requires Valid()
      modifies this`task
      ensures Valid() && Value() == Step(old(Value()), ResumeOp)
    {
      hide Inv, Linked, Leaving;
      ghost var v := Value();
      StepInv(v, ResumeOp);
      RunningTask(v);
      task := task[current := task[current].(wakeup := 0)];
    }
  }

  lemma RunningTask(s: State)
    requires Inv(s)
    ensures s.current in s.task && s.current != 0 && s.task[s.current].state == Running
    ensures s.pending ==> Leaving(s)
    ensures forall t: Tid :: t in s.task && t != s.current ==> s.task[t].state != Running
  {}

  /** A task that is put back is in no list. */
  lemma Vacant(s: State)
    requires Leaving(s)
    ensures s.current in s.task && (s.task[s.current].state == Running ==> Nowhere(Next(s.ready).1, s.current))
    ensures Next(s.ready).0 in s.task && Next(s.ready).0 != s.current
    ensures s.task[s.current].wake ==> s.task[s.current].state == Running
  {
    NextInv(s.task, s.ready);
    if s.task[s.current].state == Running {
      LeavingBest(s);
      var (t, r1) := Next(s.ready);
      NowhereReady(s.task[t := TaskOf(s.task, t).(state := Running)], r1, s.current);
    }
    hide QueuesOk, WheelOk;
  }

  /** A list is empty when its head is null. */
  lemma HeadIs(l: Links, q: Queues, k: nat)
    requires Linked(l, q)
    ensures P(l.head, k) == 0 <==> Q(q, k) == []
  {
    assert ListOk(l, k, Q(q, k));
  }

  lemma NoneLeft(s: State, p: nat)
    ensures WakeAll(s, [], p) == s
  {}

  lemma EmptyNext(l: Links, q: Queues, k: nat, b: Tid, rest: seq<Tid>)
    requires Emptying(l, q, k, b, rest) && b != 0
    ensures rest != [] && b == rest[0]
  {}

  lemma EmptyDone(l: Links, q: Queues, k: nat, b: Tid, rest: seq<Tid>)
    requires Emptying(l, q, k, b, rest) && b == 0
    ensures rest == [] && Linked(l.(head := l.head[k := 0], last := l.last[k := 0]), q[k := []])
  {
    EmptyEnd(l, q, k, b);
  }

  lemma WakingNowhere(s: State, slot: nat, l: seq<Tid>, p: nat)
    requires Waking(s, slot, l, p) && l != []
    ensures Nowhere(s.ready, l[0])
  {
    WakingHead(s, slot, l, p);
    NowhereReady(s.task, s.ready, l[0]);
    hide QueuesOk, WheelOk, RankOk;
  }

  lemma WakeUnfold(s: State, l: seq<Tid>, p: nat)
    requires l != []
    ensures var prio := Prio(s.task, l[0]); var p1 := if prio < p then prio else p;
      WakeAll(s, l, p) == WakeAll(Ask(MakeReady(s, l[0]), p1 < Prio(s.task, s.current) || s.current == IDLE), l[1..], p1)
  {
    hide MakeReady, Prio, Ask;
  }

  lemma NewTask(s: State, t: Tid)
    requires Inv(s) && t !in s.task
    ensures Nowhere(s.ready, t) && t != s.current
  {
    NowhereReady(s.task, s.ready, t);
    hide QueuesOk, WheelOk, RankOk;
  }

  lemma NotReady(s: State, t: Tid)
    requires Inv(s) && t in s.task && s.task[t].state != Ready
    ensures Nowhere(s.ready, t)
  {
    NowhereReady(s.task, s.ready, t);
    hide QueuesOk, WheelOk, RankOk;
  }

  lemma NotSleeping(s: State, t: Tid)
    requires Inv(s) && t in s.task && s.task[t].state != Timer
    ensures Nowhere(s.wheel, t)
  {
    NowhereWheel(s.task, s.wheel, t);
    hide QueuesOk, WheelOk, RankOk;
  }

  lemma InOneSlot(s: State, t: Tid)
    requires Inv(s) && t in s.task
    ensures forall k: nat :: t in Q(s.wheel, k) ==> k == s.task[t].wakeup % SLOTS
  {
    hide NoDup, Q, QueuesOk, RankOk;
  }

  /** A link of a blocker that is in no list may be cleared. */
  lemma Absent(l: Links, q: Queues, k: nat, t: Tid)
    requires Linked(l, q) && Nowhere(q, t)
    ensures Linked(l.(next := l.next[t := 0]), q[k := Minus(Q(q, k), t)])
  {
    forall j: nat ensures NoDup(Q(q, j)) { assert ListOk(l, j, Q(q, j)); }
    NotThere(Q(q, k), t);
    var q2 := q[k := Minus(Q(q, k), t)];
    forall j: nat ensures Q(q2, j) == Q(q, j) {}
    forall j: nat ensures ListOk(l.(next := l.next[t := 0]), j, Q(q2, j)) {
      OtherLink(l, j, Q(q, j), t, 0);
    }
    hide ListOk, Q, Minus;
  }

  lemma Elsewhere(q: Queues, t: Tid, slot: nat)
    requires t !in Q(q, slot) && forall k: nat :: t in Q(q, k) ==> k == slot
    ensures Nowhere(q, t)
  {
    hide Q;
  }

  lemma PlaceOf(l: Links, q: Queues, k: nat, t: Tid) returns (i: nat)
    requires Linked(l, q) && t in Q(q, k)
    ensures i < |Q(q, k)| && Q(q, k)[i] == t && Before(Q(q, k), t) == if i == 0 then 0 else Q(q, k)[i - 1]
    ensures i > 0 ==> Q(q, k)[i - 1] != 0
  {
    assert ListOk(l, k, Q(q, k));
    i :| 0 <= i < |Q(q, k)| && Q(q, k)[i] == t;
    if i > 0 { WalkLink(l, k, Q(q, k), i - 1); }
    BeforeAt(l, k, Q(q, k), i);
    hide Q;
  }

  lemma NotThere(l: seq<Tid>, t: Tid)
    requires t !in l
    ensures Minus(l, t) == l
  {}
}
