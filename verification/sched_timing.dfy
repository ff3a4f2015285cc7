/** When sleepers wake and how long a ready task waits. */
module SchedTiming {
  import opened SchedModel
  import opened SchedInvariant

  // ----- What a step does to a task and to a list

  lemma {:induction false} WakeAllTask(s: State, l: seq<Tid>, p: nat, t: Tid)
    requires t in s.task
    ensures var e := WakeAll(s, l, p);
      t in e.task && e.task[t] == if t in l then s.task[t].(state := Ready) else s.task[t]
    ensures WakeAll(s, l, p).current == s.current && WakeAll(s, l, p).tic == s.tic && (s.pending ==> WakeAll(s, l, p).pending)
    decreases |l|
  {
    if l != [] {
      var prio := Prio(s.task, l[0]);
      var p1 := if prio < p then prio else p;
      var s1 := Ask(MakeReady(s, l[0]), p1 < Prio(s.task, s.current) || s.current == IDLE);
      assert t in s1.task && s1.task[t] == if t == l[0] then s.task[t].(state := Ready) else s.task[t];
      assert l == [l[0]] + l[1..];
      hide MakeReady, Prio;
      WakeAllTask(s1, l[1..], p1, t);
    }
  }

  lemma {:induction false} WakeAllQueue(s: State, l: seq<Tid>, p: nat, k: nat)
    ensures Q(s.ready, k) <= Q(WakeAll(s, l, p).ready, k)
    decreases |l|
  {
    if l != [] {
      var prio := Prio(s.task, l[0]);
      var p1 := if prio < p then prio else p;
      var s1 := Ask(MakeReady(s, l[0]), p1 < Prio(s.task, s.current) || s.current == IDLE);
      assert Q(s.ready, k) <= Q(s1.ready, k);
      hide Q, MakeReady, Prio;
      WakeAllQueue(s1, l[1..], p1, k);
    }
  }

  // ----- The timing wheel

  /** The tic at which the wheel reaches a sleeper. */
  function Due(tic: nat, wakeup: nat): nat { tic + 1 + (wakeup - tic - 1) % SLOTS }

  /** The tic at which a sleep of `ms` milliseconds begun at tic `tic` ends: the wheel has no round counter. */
  function Wakes(tic: nat, ms: nat): nat { tic + (ms / 10 - 1) % SLOTS + 1 }

  lemma DueWakes(tic: nat, ms: nat)
    ensures Due(tic, ms / 10 + tic) == Wakes(tic, ms) && (Wakes(tic, ms) == ms / 10 + tic <==> 1 <= ms / 10 <= SLOTS)
  {
    var n := ms / 10;
    assert n + tic - tic - 1 == n - 1;
    Remainder(n);
  }

  lemma Remainder(n: nat)
    ensures (n - 1) % SLOTS + 1 == n <==> 1 <= n <= SLOTS
  {}

  /** A tic that does not reach the slot leaves the due tic as it is. */
  lemma DueStays(tic: nat, wakeup: nat)
    ensures wakeup % SLOTS == (tic + 1) % SLOTS <==> Due(tic, wakeup) == tic + 1
    ensures Due(tic, wakeup) != tic + 1 ==> Due(tic + 1, wakeup) == Due(tic, wakeup)
  {
    Congruent(wakeup, tic + 1);
    Follows(wakeup - tic - 1);
    assert wakeup - (tic + 1) - 1 == wakeup - tic - 1 - 1;
  }

  lemma Congruent(a: int, b: int)
    ensures a % 1024 == b % 1024 <==> (a - b) % 1024 == 0
  {}

  lemma Follows(d: int)
    ensures d % 1024 != 0 ==> (d - 1) % 1024 == d % 1024 - 1
  {}

  /** A task goes to sleep with its due tic set. */
  lemma SleepSets(s: State, ms: nat)
    requires Inv(s) && s.current != IDLE && ms != 0 && ms / 10 + s.tic > 0 && !s.task[s.current].wake
    ensures var e := Step(s, SleepOp(ms, false));
      && s.current in e.task && e.task[s.current].state == Timer && e.task[s.current].wakeup == ms / 10 + s.tic && e.tic == s.tic
  {
    SettleLeaving(s, ms);
    var d := Settle(s, ms);
    NextInv(d.task, d.ready);
    hide Leaving, QueuesOk, WheelOk, Next, Append, RankOk;
  }

  /** Emptying a slot. */
  lemma SlotWakes(s: State, slot: nat, t: Tid)
    requires Inv(s) && t in s.task && s.task[t].state == Timer
    ensures var e := Empty(s, slot);
      && t in e.task && e.task[t] == (if s.task[t].wakeup % SLOTS == slot then s.task[t].(state := Ready) else s.task[t])
      && e.tic == s.tic && e.current == s.current
  {
    InSlot(s.task, s.wheel, t, slot);
    WakeAllTask(s, Q(s.wheel, slot), 5, t);
    hide QueuesOk, WheelOk, RankOk, WakeAll, Q, TasksOk;
  }

  lemma SliceKeeps(s: State, t: Tid)
    requires t in s.task && t != s.current
    ensures t in Slice(s).task && Slice(s).task[t] == s.task[t] && Slice(s).tic == s.tic
  {
    hide Q, Prio;
  }

  /** A tic wakes the sleepers that are due, and those only. */
  lemma TickWakes(s: State, t: Tid)
    requires Inv(s) && t in s.task && s.task[t].state == Timer
    ensures t in Tick(s).task && Tick(s).tic == s.tic + 1
    ensures Tick(s).task[t] == if Due(s.tic, s.task[t].wakeup) == s.tic + 1 then s.task[t].(state := Ready) else s.task[t]
  {
    assert t != s.current;
    hide Inv, Empty, Slice, Due;
    TicInv(s);
    SlotWakes(s.(tic := s.tic + 1), (s.tic + 1) % SLOTS, t);
    SliceKeeps(Turn(s), t);
    DueStays(s.tic, s.task[t].wakeup);
  }

  lemma InSlot(task: map<Tid, Task>, wheel: Queues, t: Tid, slot: nat)
    requires WheelOk(task, wheel) && t in task && task[t].state == Timer
    ensures t in Q(wheel, slot) <==> task[t].wakeup % SLOTS == slot
  {
    hide NoDup, Q;
  }

  lemma DispatchKeeps(s: State, t: Tid)
    requires QueuesOk(s.task, s.ready) && Sane(s.task) && t in s.task && s.task[t].state == Timer && t != s.current
    ensures t in Dispatch(s).task && Dispatch(s).task[t] == s.task[t] && Dispatch(s).tic == s.tic
  {
    NextInv(s.task, s.ready);
    hide QueuesOk, Next, Append;
  }

  lemma SleepKeeps(s: State, ms: nat, able: bool, t: Tid)
    requires Inv(s) && s.current != IDLE && t in s.task && s.task[t].state == Timer
    ensures var e := Sleep(s, ms, able); t in e.task && e.task[t] == s.task[t] && e.tic == s.tic
  {
    SleepSane(s, ms, able);
    DispatchKeeps(Settle(s, ms), t);
    hide QueuesOk, WheelOk, RankOk, Append, Dispatch, Sane;
  }

  /** No other step touches a sleeper, but its own wakeup. */
  lemma OthersKeep(s: State, op: Op, t: Tid)
    requires Inv(s) && Enabled(s, op) && t in s.task && s.task[t].state == Timer && op != TickOp && op != WakeupOp(t)
    ensures t in Step(s, op).task && Step(s, op).task[t] == s.task[t] && Step(s, op).tic == s.tic
  {
    match op
    case SleepOp(ms, able) => SleepKeeps(s, ms, able, t);
    case SwitchOp => DispatchKeeps(s, t);
    case _ =>
    hide QueuesOk, WheelOk, RankOk, Append, Q, Minus, Dispatch, Sleep, Sane;
  }

  lemma SleepSane(s: State, ms: nat, able: bool)
    requires Inv(s) && s.current != IDLE
    ensures var d := Settle(s, ms); d.ready == s.ready && Sane(d.task) && QueuesOk(d.task, d.ready)
  {
    var c := Settle(s, ms).task[s.current];
    KeepQueues(s.task, s.ready, s.current, c);
    hide QueuesOk, WheelOk, RankOk, Append;
    assert Settle(s, ms).task == s.task[s.current := c];
  }

  /** Over every run without a wakeup of it a sleeper sleeps until its due tic, and that tic makes it ready. */
  lemma {:induction false} SleepsUntilDue(s: State, ops: seq<Op>, t: Tid)
    requires Inv(s) && Legal(s, ops) && t in s.task && s.task[t].state == Timer
    requires WakeupOp(t) !in ops && Run(s, ops).tic < Due(s.tic, s.task[t].wakeup)
    ensures var e := Run(s, ops); t in e.task && e.task[t] == s.task[t] && Due(e.tic, e.task[t].wakeup) == Due(s.tic, s.task[t].wakeup)
    ensures var e := Run(s, ops); Tick(e).tic == Due(s.tic, s.task[t].wakeup) ==> t in Tick(e).task && Tick(e).task[t].state == Ready
    decreases |ops|
  {
    if ops == [] {
      TickWakes(s, t);
      hide Tick, Due, Inv;
    } else {
      SleepStep(s, ops[0], ops[1..], t);
      hide *;
      SleepsUntilDue(Step(s, ops[0]), ops[1..], t);
    }
  }

  lemma {:induction false} LegalPrefix(s: State, ops: seq<Op>, k: nat)
    requires Legal(s, ops) && k <= |ops|
    ensures Legal(s, ops[..k])
    decreases |ops|
  {
    hide Step, Enabled;
    if k > 0 {
      assert ops[..k][0] == ops[0] && ops[..k][1..] == ops[1..][..k - 1];
      LegalPrefix(Step(s, ops[0]), ops[1..], k - 1);
    }
  }

  /** A run that reaches a tic has a last step before it. */
  lemma {:induction false} Reach(s: State, ops: seq<Op>, due: nat) returns (k: nat)
    requires s.tic < due <= Run(s, ops).tic
    ensures k < |ops| && ops[k] == TickOp && Run(s, ops[..k]).tic == due - 1
    ensures Run(s, ops[..k + 1]) == Step(Run(s, ops[..k]), TickOp) && Run(s, ops[..k + 1]).tic == due
    decreases |ops|
  {
    k := 0;
    if ops != [] {
      StepTic(s, ops[0]);
      hide Step;
      if Step(s, ops[0]).tic == due {
        assert ops[..1][0] == ops[0] && ops[..1][1..] == [] && ops[..0] == [];
        assert Run(s, ops[..1]) == Run(Step(s, ops[0]), []);
      } else {
        var j := Reach(Step(s, ops[0]), ops[1..], due);
        k := j + 1;
        assert ops[..k][0] == ops[0] && ops[..k][1..] == ops[1..][..j];
        assert ops[..k + 1][0] == ops[0] && ops[..k + 1][1..] == ops[1..][..j + 1];
      }
    }
  }

  lemma {:induction false} RunJoin(s: State, x: seq<Op>, y: seq<Op>)
    ensures Run(s, x + y) == Run(Run(s, x), y)
    decreases |x|
  {
    hide Step;
    if x == [] {
      assert x + y == y;
    } else {
      assert (x + y)[0] == x[0] && (x + y)[1..] == x[1..] + y;
      RunJoin(Step(s, x[0]), x[1..], y);
    }
  }

  lemma Before(s: State, ops: seq<Op>, j: nat, k: nat)
    requires j <= k <= |ops|
    ensures Run(s, ops[..j]).tic <= Run(s, ops[..k]).tic
  {
    assert ops[..k] == ops[..j] + ops[j..k];
    RunJoin(s, ops[..j], ops[j..k]);
    TicsGrow(Run(s, ops[..j]), ops[j..k]);
    hide Run;
  }

  predicate Asleep(s: State, t: Tid) { t in s.task && s.task[t].state == Timer }

  /** A task that sleeps for `ms` milliseconds, in every run in which nobody wakes it: it is asleep after
      each step before the tic at which the wheel reaches it, and that tic makes it ready. The tic is
      the one asked for if and only if the sleep is one of 1 to 1024 tics. */
  lemma SleepWakes(s: State, ms: nat, ops: seq<Op>) returns (k: nat)
    requires Inv(s) && s.current != IDLE && ms != 0 && ms / 10 + s.tic > 0 && !s.task[s.current].wake
    requires Legal(s, [SleepOp(ms, false)] + ops) && WakeupOp(s.current) !in ops
    ensures var e, t := Step(s, SleepOp(ms, false)), s.current;
      if Run(e, ops).tic < Wakes(s.tic, ms) then k == |ops| && forall j :: 0 <= j <= k ==> Asleep(Run(e, ops[..j]), t)
      else
        && k < |ops| && ops[k] == TickOp && Run(e, ops[..k + 1]).tic == Wakes(s.tic, ms)
        && (forall j :: 0 <= j <= k ==> Asleep(Run(e, ops[..j]), t))
        && t in Run(e, ops[..k + 1]).task && Run(e, ops[..k + 1]).task[t].state == Ready
    ensures Wakes(s.tic, ms) == s.tic + ms / 10 <==> 1 <= ms / 10 <= SLOTS
  {
    hide Inv, Step, Run, Enabled;
    var e, t := Step(s, SleepOp(ms, false)), s.current;
    SleepBegins(s, ms, ops);
    DueWakes(s.tic, ms);
    hide Due, Wakes;
    if Run(e, ops).tic < Wakes(s.tic, ms) {
      k := |ops|;
      assert ops[..|ops|] == ops;
    } else {
      k := Reach(e, ops, Wakes(s.tic, ms));
      StillAsleep(e, ops, k, k, t);
      DueTick(e, ops, k, t);
    }
    forall j | 0 <= j <= k ensures Asleep(Run(e, ops[..j]), t) {
      StillAsleep(e, ops, j, k, t);
    }
  }

  lemma SleepBegins(s: State, ms: nat, ops: seq<Op>)
    requires Inv(s) && s.current != IDLE && ms != 0 && ms / 10 + s.tic > 0 && !s.task[s.current].wake
    requires Legal(s, [SleepOp(ms, false)] + ops)
    ensures var e := Step(s, SleepOp(ms, false));
      && Inv(e) && Legal(e, ops) && Asleep(e, s.current) && e.task[s.current].wakeup == ms / 10 + s.tic && e.tic == s.tic
      && e.tic < Due(e.tic, e.task[s.current].wakeup)
  {
    SleepSets(s, ms);
    assert ([SleepOp(ms, false)] + ops)[1..] == ops;
    hide Inv, Step;
    StepInv(s, SleepOp(ms, false));
  }

  lemma StillAsleep(e: State, ops: seq<Op>, j: nat, k: nat, t: Tid)
    requires Inv(e) && Legal(e, ops) && Asleep(e, t) && WakeupOp(t) !in ops && j <= k <= |ops|
    requires Run(e, ops[..k]).tic < Due(e.tic, e.task[t].wakeup)
    ensures Asleep(Run(e, ops[..j]), t) && Run(e, ops[..j]).task[t] == e.task[t]
  {
    hide Inv, Run, Legal, Due;
    LegalPrefix(e, ops, j);
    Before(e, ops, j, k);
    SleepsUntilDue(e, ops[..j], t);
  }

  lemma DueTick(e: State, ops: seq<Op>, k: nat, t: Tid)
    requires Inv(e) && Legal(e, ops) && Asleep(e, t) && WakeupOp(t) !in ops && k < |ops|
    requires Run(e, ops[..k]).tic + 1 == Due(e.tic, e.task[t].wakeup) && Run(e, ops[..k + 1]) == Step(Run(e, ops[..k]), TickOp)
    ensures t in Run(e, ops[..k + 1]).task && Run(e, ops[..k + 1]).task[t].state == Ready
  {
    hide Inv, Run, Legal, Due, Tick;
    LegalPrefix(e, ops, k);
    SleepsUntilDue(e, ops[..k], t);
    StepTic(Run(e, ops[..k]), TickOp);
  }

  lemma SleepStep(s: State, op: Op, rest: seq<Op>, t: Tid)
    requires Inv(s) && Enabled(s, op) && t in s.task && s.task[t].state == Timer && op != WakeupOp(t)
    requires Run(Step(s, op), rest).tic < Due(s.tic, s.task[t].wakeup)
    ensures var s1 := Step(s, op);
      && Inv(s1) && t in s1.task && s1.task[t] == s.task[t] && Due(s1.tic, s.task[t].wakeup) == Due(s.tic, s.task[t].wakeup)
  {
    hide *;
    StepInv(s, op);
    TicsGrow(Step(s, op), rest);
    DueStays(s.tic, s.task[t].wakeup);
    StepSleeper(s, op, t);
  }

  lemma StepSleeper(s: State, op: Op, t: Tid)
    requires Inv(s) && Enabled(s, op) && t in s.task && s.task[t].state == Timer && op != WakeupOp(t)
    ensures var s1 := Step(s, op);
      && t in s1.task && s1.tic == (if op == TickOp then s.tic + 1 else s.tic)
      && ((op == TickOp && Due(s.tic, s.task[t].wakeup) == s.tic + 1) || s1.task[t] == s.task[t])
  {
    hide Inv, Tick, Due, Enabled, Run;
    if op == TickOp { TickWakes(s, t); } else { OthersKeep(s, op, t); }
  }

  lemma {:induction false} TicsGrow(s: State, ops: seq<Op>)
    ensures Run(s, ops).tic >= s.tic
    decreases |ops|
  {
    if ops != [] {
      StepTic(s, ops[0]);
      hide Step;
      TicsGrow(Step(s, ops[0]), ops[1..]);
    }
  }

  lemma StepTic(s: State, op: Op)
    ensures Step(s, op).tic == if op == TickOp then s.tic + 1 else s.tic
  {
    if op == TickOp { WakeAllTic(s.(tic := s.tic + 1), Q(s.wheel, (s.tic + 1) % SLOTS), 5); }
    hide WakeAll, Next, PutBack, Append, Minus, Q;
  }

  lemma {:induction false} WakeAllTic(s: State, l: seq<Tid>, p: nat)
    ensures WakeAll(s, l, p).tic == s.tic
    decreases |l|
  {
    if l != [] {
      var prio := Prio(s.task, l[0]);
      var p1 := if prio < p then prio else p;
      WakeAllTic(Ask(MakeReady(s, l[0]), p1 < Prio(s.task, s.current) || s.current == IDLE), l[1..], p1);
    }
  }

  // ----- Round robin

  /** Where a task stands in its list. */
  function Place(l: seq<Tid>, x: Tid): nat
    ensures x in l ==> Place(l, x) < |l| && l[Place(l, x)] == x
  {
    if l == [] || l[0] == x then 0 else 1 + Place(l[1..], x)
  }

  lemma {:induction false} PlacePrefix(l: seq<Tid>, m: seq<Tid>, x: Tid)
    requires l <= m && x in l
    ensures x in m && Place(m, x) == Place(l, x)
  {
    if l[0] != x { PlacePrefix(l[1..], m[1..], x); }
  }

  lemma PlaceTail(l: seq<Tid>, x: Tid)
    requires x in l && l[0] != x
    ensures x in l[1..] && Place(l[1..], x) == Place(l, x) - 1
  {}

  /** Nothing above priority `p` is ready. */
  predicate Calm(ready: Queues, p: nat) { forall k: nat :: k < p ==> Q(ready, k) == [] }

  /** `x` waits behind a task of its own priority, and nothing above is ready. */
  predicate Waits(s: State, x: Tid, p: nat)
  {
    && p < PRIOS && x in Q(s.ready, p) && Calm(s.ready, p)
    && s.current != IDLE && s.current in s.task && s.task[s.current].prio == p
  }

  function One(b: bool): nat { if b then 1 else 0 }

  /** The tics `x` may still have to wait: two for each task before it, less what is already used. */
  function Left(s: State, x: Tid, p: nat): int
  {
    2 * (Place(Q(s.ready, p), x) + 1) - One(TaskOf(s.task, s.current).tmark) - One(s.pending)
  }

  /** The running task stays, and the list only grows at its end. */
  predicate Onward(s: State, e: State, p: nat)
  {
    && e.current == s.current && e.current in e.task && e.task[e.current].prio == Prio(s.task, s.current)
    && (TaskOf(s.task, s.current).tmark ==> e.task[e.current].tmark) && (s.pending ==> e.pending)
    && Q(s.ready, p) <= Q(e.ready, p)
  }

  lemma OnwardLeft(s: State, e: State, x: Tid, p: nat)
    requires Waits(s, x, p) && s.current in s.task && Onward(s, e, p) && Calm(e.ready, p)
    ensures Waits(e, x, p)
    ensures Left(e, x, p) == Left(s, x, p) + One(s.task[s.current].tmark) - One(e.task[e.current].tmark) + One(s.pending) - One(e.pending)
  {
    PlacePrefix(Q(s.ready, p), Q(e.ready, p), x);
    hide Q, Place, Calm;
  }

  /** A switch serves the head of the list, so `x` moves up or runs. */
  lemma DispatchLeft(s: State, x: Tid, p: nat)
    requires QueuesOk(s.task, s.ready) && Sane(s.task) && p < PRIOS && x in Q(s.ready, p) && Calm(s.ready, p)
    requires s.current in s.task && s.task[s.current].prio == p && s.current !in Q(s.ready, p)
    ensures var e := Dispatch(s);
      if Q(s.ready, p)[0] == x then e.current == x
      else Waits(e, x, p) && Left(e, x, p) <= 2 * (Place(Q(s.ready, p), x) + 1) - 2
  {
    var l := Q(s.ready, p);
    CalmBest(s.ready, p);
    NextInv(s.task, s.ready);
    hide QueuesOk;
    var (t, r1) := Next(s.ready);
    assert t == l[0] && Q(r1, p) == l[1..];
    var e := Dispatch(s);
    assert Q(r1, p) <= Q(e.ready, p);
    if l[0] != x {
      PlaceTail(l, x);
      PlacePrefix(l[1..], Q(e.ready, p), x);
      CalmDispatch(s, p);
      hide Place, Calm, Next, Best, Sane;
    }
  }

  lemma CalmBest(ready: Queues, p: nat)
    requires Calm(ready, p) && p < PRIOS && Q(ready, p) != []
    ensures Best(ready, 0) == p
  {
    BestRanks(ready, p);
    hide Q;
  }

  lemma CalmDispatch(s: State, p: nat)
    requires Calm(s.ready, p) && p < PRIOS && Q(s.ready, p) != [] && TaskOf(s.task, s.current).prio == p
    ensures Calm(Dispatch(s).ready, p)
  {
    CalmBest(s.ready, p);
    var r1 := Next(s.ready).1;
    assert forall k: nat :: k != p ==> Q(r1, k) == Q(s.ready, k);
    assert forall k: nat :: k != p ==> Q(Append(r1, p, s.current), k) == Q(r1, k);
    hide Best;
  }

  /** What a step brings: `x` runs, or it still waits and a tic has used up one of those left. */
  predicate Progress(s: State, e: State, x: Tid, p: nat, ticked: bool)
  {
    e.current == x || (Waits(e, x, p) && Left(e, x, p) <= Left(s, x, p) - One(ticked))
  }

  lemma NotListed(s: State, p: nat)
    requires Inv(s)
    ensures s.current !in Q(s.ready, p)
  {
    hide WheelOk, RankOk, Q, NoDup;
  }

  lemma SwitchProgress(s: State, d: State, x: Tid, p: nat)
    requires Waits(s, x, p) && QueuesOk(d.task, d.ready) && Sane(d.task) && d.ready == s.ready && d.current == s.current
    requires d.current in d.task && d.task[d.current].prio == p && d.current !in Q(s.ready, p)
    ensures Progress(s, Dispatch(d), x, p, false)
  {
    hide QueuesOk, Sane, Dispatch, Place, Calm, Q;
    DispatchLeft(d, x, p);
  }

  lemma SleepProgress(s: State, ms: nat, able: bool, x: Tid, p: nat)
    requires Inv(s) && Waits(s, x, p)
    ensures Progress(s, Sleep(s, ms, able), x, p, false)
  {
    SleepSane(s, ms, able);
    NotListed(s, p);
    hide Inv, QueuesOk, Sane, Dispatch, Place, Calm, Q, Append;
    var c := s.task[s.current];
    if c.wake || able || c.state != Running {
      var e := Sleep(s, ms, able);
      assert e.ready == s.ready;
    } else {
      SwitchProgress(s, Settle(s, ms), x, p);
    }
  }

  lemma TurnOnward(s: State, x: Tid, p: nat)
    requires Inv(s) && Waits(s, x, p)
    ensures Onward(s, Turn(s), p) && Turn(s).task[s.current].tmark == s.task[s.current].tmark
  {
    var slot := (s.tic + 1) % SLOTS;
    var s0 := s.(tic := s.tic + 1);
    TurnCurrent(s0, slot);
    WakeAllQueue(s0, Q(s.wheel, slot), 5, p);
    hide Inv, WakeAll, Q, Place, Calm;
  }

  lemma TurnCurrent(s: State, slot: nat)
    requires s.current in s.task
    ensures var e := WakeAll(s, Q(s.wheel, slot), 5);
      && e.current == s.current && e.current in e.task && e.task[e.current].prio == s.task[s.current].prio
      && e.task[e.current].tmark == s.task[s.current].tmark && (s.pending ==> e.pending)
  {
    WakeAllTask(s, Q(s.wheel, slot), 5, s.current);
    hide WakeAll, Q;
  }

  lemma SliceOnward(s: State, x: Tid, p: nat)
    requires s.current in s.task && s.current != IDLE && s.task[s.current].prio == p && Q(s.ready, p) != []
    ensures var e := Slice(s);
      && Onward(s, e, p) && e.ready == s.ready
      && (if s.task[s.current].tmark then e.pending && e.task[e.current].tmark else e.task[e.current].tmark)
  {
    hide Q;
  }

  lemma TickProgress(s: State, x: Tid, p: nat)
    requires Inv(s) && Waits(s, x, p) && !s.pending && Calm(Tick(s).ready, p)
    ensures Progress(s, Tick(s), x, p, true)
  {
    TurnOnward(s, x, p);
    var d := Turn(s);
    NonEmpty(Q(s.ready, p), Q(d.ready, p), x);
    SliceOnward(d, x, p);
    hide Inv, Turn, Slice, Q, Calm, Place;
    OnwardLeft(s, d, x, p);
    OnwardLeft(d, Slice(d), x, p);
  }

  lemma NonEmpty(l: seq<Tid>, m: seq<Tid>, x: Tid)
    requires x in l && l <= m
    ensures m != []
  {}

  lemma OtherOnward(s: State, op: Op, x: Tid, p: nat)
    requires Inv(s) && Enabled(s, op) && Waits(s, x, p) && (op.CreateOp? || op.ForkOp? || op.WakeupOp? || op.ResumeOp?)
    ensures Onward(s, Step(s, op), p)
  {
    hide QueuesOk, WheelOk, RankOk, Minus, Calm;
  }

  /** Every step brings `x` closer to running, or leaves it where it is. */
  lemma StepProgress(s: State, op: Op, x: Tid, p: nat)
    requires Inv(s) && Enabled(s, op) && Waits(s, x, p) && (op == TickOp ==> !s.pending) && Calm(Step(s, op).ready, p)
    ensures Progress(s, Step(s, op), x, p, op == TickOp)
  {
    match op
    case TickOp => TickProgress(s, x, p);
    case SleepOp(ms, able) => SleepProgress(s, ms, able, x, p);
    case SwitchOp => NotListed(s, p); if s.pending { SwitchProgress(s, s, x, p); }
    case _ => OtherOnward(s, op, x, p); OnwardLeft(s, Step(s, op), x, p);
    hide QueuesOk, WheelOk, RankOk, Tick, Sleep, Dispatch, Q, Place, Calm, Append, Minus;
  }

  /** A run in which every requested switch is served before the next tic, nothing above `p` becomes
      ready and `x` does not run. */
  ghost predicate Passed(s: State, ops: seq<Op>, x: Tid, p: nat)
    decreases |ops|
  {
    ops == [] ||
    (var e := Step(s, ops[0]);
     Enabled(s, ops[0]) && (ops[0] == TickOp ==> !s.pending) && Calm(e.ready, p) && e.current != x && Passed(e, ops[1..], x, p))
  }

  function Tics(ops: seq<Op>): nat { if ops == [] then 0 else One(ops[0] == TickOp) + Tics(ops[1..]) }

  /** Round robin: a task at place `i` of the list of the running task's priority is passed over for
      at most 2 * (i + 1) tics, and after that many it is at the head with a switch requested. */
  lemma {:induction false} RoundRobin(s: State, ops: seq<Op>, x: Tid, p: nat)
    requires Inv(s) && Waits(s, x, p) && Passed(s, ops, x, p)
    ensures Waits(Run(s, ops), x, p) && Tics(ops) + Left(Run(s, ops), x, p) <= Left(s, x, p)
    decreases |ops|
  {
    if ops != [] {
      StepInv(s, ops[0]);
      StepProgress(s, ops[0], x, p);
      hide Inv, Step, Enabled, Calm, Waits, Left;
      RoundRobin(Step(s, ops[0]), ops[1..], x, p);
    }
  }

  lemma RoundRobinBound(s: State, ops: seq<Op>, x: Tid, p: nat)
    requires Inv(s) && Waits(s, x, p) && Passed(s, ops, x, p)
    ensures Tics(ops) <= 2 * (Place(Q(s.ready, p), x) + 1)
    ensures Tics(ops) == 2 * (Place(Q(s.ready, p), x) + 1) ==>
      Run(s, ops).pending && Dispatch(Run(s, ops)).current == x
  {
    RoundRobin(s, ops, x, p);
    var e := Run(s, ops);
    if Tics(ops) == 2 * (Place(Q(s.ready, p), x) + 1) {
      assert Place(Q(e.ready, p), x) == 0;
      CalmBest(e.ready, p);
    }
    hide Inv, Run, Calm, Passed, Best;
  }
}
