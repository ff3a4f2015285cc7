/** What each call of the scheduler does, in terms of who is where afterwards, and when a wakeup is lost. */
module SchedEffects {
  import opened SchedModel
  import opened SchedInvariant
  import opened SchedTiming

  /** List `k` has `t` at its end, and the others are as they were. */
  ghost predicate Gains(q: Queues, q2: Queues, k: nat, t: Tid)
  {
    Q(q2, k) == Q(q, k) + [t] && forall j: nat :: j != k ==> Q(q2, j) == Q(q, j)
  }

  ghost predicate SameLists(q: Queues, q2: Queues) { forall j: nat :: Q(q2, j) == Q(q, j) }

  /** Nothing has changed but the task `t`. */
  ghost predicate OnlyTask(task: map<Tid, Task>, task2: map<Tid, Task>, t: Tid)
  {
    t in task2 && forall x: Tid :: x != t ==> (x in task <==> x in task2) && (x in task ==> task2[x] == task[x])
  }

  /** `t` has left the wheel, and the order of the others is the same. */
  ghost predicate Unlinked(q: Queues, q2: Queues, t: Tid)
  {
    forall k: nat :: t !in Q(q2, k) && (t !in Q(q, k) ==> Q(q2, k) == Q(q, k)) && LeftOut(Q(q, k), Q(q2, k), t)
  }

  predicate LeftOut(l: seq<Tid>, l2: seq<Tid>, t: Tid) { forall i :: 0 <= i < |l| && l[i] == t ==> l2 == l[..i] + l[i + 1..] }

  /** The first task of the best list runs now, or idle if all are empty. */
  ghost predicate Takes(ready: Queues, ready2: Queues, t: Tid)
  {
    || (t == IDLE && (forall p: nat :: p < PRIOS ==> Q(ready, p) == []) && SameLists(ready, ready2))
    || (exists p: nat :: p < PRIOS && Q(ready, p) != [] && TakesFrom(ready, ready2, t, p))
  }

  ghost predicate TakesFrom(ready: Queues, ready2: Queues, t: Tid, p: nat)
  {
    && Q(ready, p) == [t] + Q(ready2, p) && (forall k: nat :: k < p ==> Q(ready, k) == [])
    && forall k: nat :: k != p ==> Q(ready2, k) == Q(ready, k)
  }

  // ----- New tasks

  /** A new task is ready at the end of its list, and a switch is asked for if it outranks its creator; a
      priority that does not exist changes nothing. */
  lemma CreateDoes(s: State, t: Tid, prio: nat)
    requires Inv(s) && Enabled(s, CreateOp(t, prio))
    ensures var e := Step(s, CreateOp(t, prio));
      if prio >= PRIOS then e == s else
      && OnlyTask(s.task, e.task, t) && e.task[t] == Task(Ready, prio, false, false, 0) && Gains(s.ready, e.ready, prio, t)
      && e.wheel == s.wheel && e.current == s.current && e.tic == s.tic
      && (e.pending <==> s.pending || prio < s.task[s.current].prio)
  {
    hide QueuesOk, WheelOk, RankOk;
  }

  /** The child has the rank of its parent, waits at the end of that list, and is asked to run by nobody. */
  lemma ForkDoes(s: State, t: Tid)
    requires Inv(s) && Enabled(s, ForkOp(t))
    ensures var e, c := Step(s, ForkOp(t)), s.task[s.current];
      && OnlyTask(s.task, e.task, t) && e.task[t] == Task(Ready, c.prio, c.tmark, false, 0) && Gains(s.ready, e.ready, c.prio, t)
      && e.wheel == s.wheel && e.current == s.current && e.tic == s.tic && e.pending == s.pending
  {
    hide QueuesOk, WheelOk, RankOk;
  }

  // ----- Waking

  lemma {:induction false} MinusOut(l: seq<Tid>, t: Tid)
    requires NoDup(l)
    ensures LeftOut(l, Minus(l, t), t) && t !in Minus(l, t) && (t !in l ==> Minus(l, t) == l)
  {
    if l != [] {
      RestNoDup(l);
      MinusOut(l[1..], t);
      assert l == [l[0]] + l[1..];
      hide NoDup, LeftOut;
      if l[0] == t { HeadOut(l); } else { TailOut(l, Minus(l[1..], t), t); }
    }
  }

  lemma RestNoDup(l: seq<Tid>)
    requires NoDup(l) && l != []
    ensures NoDup(l[1..]) && l[0] !in l[1..]
  {
    assert forall i :: 0 <= i < |l[1..]| ==> l[1..][i] == l[i + 1];
  }

  lemma HeadOut(l: seq<Tid>)
    requires l != [] && l[0] !in l[1..]
    ensures LeftOut(l, l[1..], l[0])
  {
    assert forall i :: 0 < i < |l| ==> l[i] == l[1..][i - 1];
  }

  lemma TailOut(l: seq<Tid>, m: seq<Tid>, t: Tid)
    requires l != [] && l[0] != t && LeftOut(l[1..], m, t)
    ensures LeftOut(l, [l[0]] + m, t)
  {
    var rest := l[1..];
    forall i | 0 <= i < |l| && l[i] == t ensures [l[0]] + m == l[..i] + l[i + 1..] {
      assert rest[i - 1] == t;
      assert m == rest[..i - 1] + rest[i..];
      assert l[..i] == [l[0]] + rest[..i - 1] && l[i + 1..] == rest[i..];
    }
  }

  lemma RemoveUnlinks(s: State, n: Tid)
    requires WheelOk(s.task, s.wheel) && n in s.task && (s.task[n].state == Timer ==> s.task[n].wakeup != 0)
    ensures Unlinked(s.wheel, if s.task[n].wakeup != 0 then RemoveTimer(s, n).wheel else s.wheel, n)
  {
    var slot := s.task[n].wakeup % SLOTS;
    var wheel2 := if s.task[n].wakeup != 0 then RemoveTimer(s, n).wheel else s.wheel;
    forall k: nat
      ensures n !in Q(wheel2, k) && (n !in Q(s.wheel, k) ==> Q(wheel2, k) == Q(s.wheel, k)) && LeftOut(Q(s.wheel, k), Q(wheel2, k), n)
    {
      assert NoDup(Q(s.wheel, k));
      MinusOut(Q(s.wheel, k), n);
      hide NoDup, LeftOut, Minus;
      if n in Q(s.wheel, k) { assert k == slot; } else { Absent(Q(s.wheel, k), n); }
    }
  }

  lemma Absent(l: seq<Tid>, t: Tid)
    requires t !in l
    ensures forall l2 :: LeftOut(l, l2, t)
  {}

  lemma ReadyDoes(s: State, t: Tid)
    requires t in s.task
    ensures var e := MakeReady(s, t);
      && OnlyTask(s.task, e.task, t) && e.task[t] == s.task[t].(state := Ready) && Gains(s.ready, e.ready, s.task[t].prio, t)
      && e.wheel == s.wheel && e.current == s.current && e.tic == s.tic && e.pending == s.pending
  {}

  lemma Unwheeled(s: State, n: Tid)
    requires n in s.task
    ensures RemoveTimer(s, n) == s.(wheel := RemoveTimer(s, n).wheel)
  {
    hide Minus, Q;
  }

  /** A wakeup makes a sleeper ready: last in the list of its priority, in no slot of the wheel, with a switch
      asked for if it outranks the running task or idle runs. */
  lemma WakeupReadies(s: State, n: Tid)
    requires Inv(s) && n in s.task && (s.task[n].state == Timer || s.task[n].state == Io)
    ensures var e := Step(s, WakeupOp(n));
      && OnlyTask(s.task, e.task, n) && e.task[n] == s.task[n].(state := Ready)
      && Gains(s.ready, e.ready, s.task[n].prio, n) && Unlinked(s.wheel, e.wheel, n)
      && e.current == s.current && e.tic == s.tic
      && (e.pending <==> s.pending || s.current == IDLE || s.task[n].prio < s.task[s.current].prio)
  {
    Sleeper(s, n);
    RemoveUnlinks(s, n);
    Unwheeled(s, n);
    var s1 := if s.task[n].wakeup != 0 then RemoveTimer(s, n) else s;
    ReadyDoes(s1, n);
    hide QueuesOk, WheelOk, RankOk, Unlinked, RemoveTimer, MakeReady, OnlyTask, Gains, Sane;
  }

  /** A wakeup of the running task is noted; one of a ready task changes nothing. */
  lemma WakeupNoted(s: State, n: Tid)
    requires Inv(s) && n in s.task && (s.task[n].state == Running || s.task[n].state == Ready)
    ensures var e := Step(s, WakeupOp(n));
      if n != s.current then e == s
      else e == s.(task := s.task[n := s.task[n].(wake := true)], wheel := e.wheel) && SameLists(s.wheel, e.wheel)
  {
    if n == s.current {
      RemoveUnlinks(s, n);
      forall k: nat ensures n !in Q(s.wheel, k) {}
    }
    hide QueuesOk, RankOk, Minus, LeftOut, NoDup;
  }

  // ----- Switching

  lemma NextTakes(ready: Queues)
    ensures Takes(ready, Next(ready).1, Next(ready).0)
  {
    var p := Best(ready, 0);
    if p < PRIOS {
      var (t, r) := Next(ready);
      assert Q(ready, p) == [t] + Q(r, p);
      assert TakesFrom(ready, r, t, p);
    }
  }

  /** A switch that was asked for: the task that ran goes to the end of its list with a fresh time slice, and what
      was noted for it is forgotten; the first of the best list runs. */
  lemma SwitchDoes(s: State) returns (rest: Queues)
    requires Inv(s)
    ensures !s.pending ==> Step(s, SwitchOp) == s
    ensures s.pending ==>
      var e, c := Step(s, SwitchOp), s.task[s.current];
      && Takes(s.ready, rest, e.current) && e.current != s.current
      && (if s.current == IDLE then e.ready == rest else Gains(rest, e.ready, c.prio, s.current))
      && s.current in e.task && e.task[s.current] == c.(state := Ready, tmark := false, wake := false)
      && e.current in s.task && e.current in e.task && e.task[e.current] == s.task[e.current].(state := Running)
      && (forall x: Tid :: x != s.current && x != e.current ==> (x in s.task <==> x in e.task) && (x in s.task ==> e.task[x] == s.task[x]))
      && e.wheel == s.wheel && e.tic == s.tic && !e.pending
  {
    rest := Next(s.ready).1;
    if s.pending {
      assert Leaving(s);
      DispatchInv(s);
      hide *;
      NextTakes(s.ready);
      Handed(s);
    }
  }

  /** The two tasks that change places, and the list of the one that ran. */
  lemma Handed(s: State)
    requires Leaving(s)
    ensures var e, c, rest := Dispatch(s), s.task[s.current], Next(s.ready).1;
      && e.current == Next(s.ready).0 && e.current in s.task && e.current in e.task && s.current in e.task
      && (e.current != s.current ==> e.task[e.current] == s.task[e.current].(state := Running))
      && (e.current != s.current && c.state == Running ==> e.task[s.current] == c.(state := Ready, tmark := false, wake := false))
      && (e.current != s.current && c.state != Running ==> e.task[s.current] == c)
      && (forall x: Tid :: x != s.current && x != e.current ==> (x in s.task <==> x in e.task) && (x in s.task ==> e.task[x] == s.task[x]))
      && (if c.state == Running && s.current != IDLE then Gains(rest, e.ready, c.prio, s.current) else e.ready == rest)
      && e.wheel == s.wheel && e.tic == s.tic && !e.pending
  {
    NextInv(s.task, s.ready);
    hide QueuesOk, WheelOk, Next, Best;
  }

  // ----- Sleeping

  /** A sleep returns at once, with the caller still running, if a wakeup was noted, which is used up, or its device
      is ready. */
  lemma SleepReturns(s: State, ms: nat, able: bool)
    requires Inv(s) && s.current != IDLE && (able || s.task[s.current].wake)
    ensures var e, c := Step(s, SleepOp(ms, able)), s.task[s.current];
      if c.wake then e == s.(task := s.task[s.current := c.(wake := false)]) else e == s
  {
    hide QueuesOk, WheelOk, RankOk;
  }

  /** Otherwise the caller sleeps, at the end of the slot of its tic if there is a timeout, and the first of the best
      list runs. */
  lemma SleepLeaves(s: State, ms: nat)
    requires Inv(s) && s.current != IDLE && !s.task[s.current].wake && (ms != 0 ==> ms / 10 + s.tic > 0)
    ensures var e, c, t := Step(s, SleepOp(ms, false)), s.task[s.current], s.current;
      && Takes(s.ready, e.ready, e.current) && e.current != t
      && t in e.task && e.task[t] == c.(state := if ms != 0 then Timer else Io, tmark := false, wakeup := if ms != 0 then ms / 10 + s.tic else 0)
      && (if ms != 0 then Gains(s.wheel, e.wheel, (ms / 10 + s.tic) % SLOTS, t) else e.wheel == s.wheel)
      && e.current in s.task && e.current in e.task && e.task[e.current] == s.task[e.current].(state := Running)
      && (forall x: Tid :: x != t && x != e.current ==> (x in s.task <==> x in e.task) && (x in s.task ==> e.task[x] == s.task[x]))
      && e.tic == s.tic && !e.pending
  {
    hide *;
    SettleLeaving(s, ms);
    SettleDoes(s, ms);
    DispatchInv(Settle(s, ms));
    NextTakes(s.ready);
    Handed(Settle(s, ms));
  }

  lemma SettleDoes(s: State, ms: nat)
    requires Inv(s) && s.current != IDLE && !s.task[s.current].wake
    ensures var d, c, t := Settle(s, ms), s.task[s.current], s.current;
      && Step(s, SleepOp(ms, false)) == Dispatch(d) && d == s.(task := d.task, wheel := d.wheel) && OnlyTask(s.task, d.task, t)
      && d.task[t] == c.(state := if ms != 0 then Timer else Io, tmark := false, wakeup := if ms != 0 then ms / 10 + s.tic else 0)
      && d.task[t].state != Running
      && (if ms != 0 then Gains(s.wheel, d.wheel, (ms / 10 + s.tic) % SLOTS, t) else d.wheel == s.wheel)
      && forall x: Tid :: x != t ==> (x in s.task <==> x in d.task) && (x in s.task ==> d.task[x] == s.task[x])
  {
    hide QueuesOk, WheelOk, RankOk, Dispatch;
  }

  // ----- Ticking

  /** Those of `l` with priority `p`, in order. */
  function Of(task: map<Tid, Task>, l: seq<Tid>, p: nat): seq<Tid>
  {
    if l == [] then [] else (if Prio(task, l[0]) == p then [l[0]] else []) + Of(task, l[1..], p)
  }

  predicate Outranks(task: map<Tid, Task>, l: seq<Tid>, prio: nat) { exists x :: x in l && Prio(task, x) < prio }

  lemma {:induction false} OfSame(task: map<Tid, Task>, task2: map<Tid, Task>, l: seq<Tid>, p: nat)
    requires forall x: Tid :: x in l ==> Prio(task2, x) == Prio(task, x)
    ensures Of(task2, l, p) == Of(task, l, p)
  {
    if l != [] {
      assert forall x: Tid :: x in l[1..] ==> x in l;
      OfSame(task, task2, l[1..], p);
    }
  }

  /** One of them becomes ready. */
  function Woken(s: State, l: seq<Tid>, p: nat): State
    requires l != []
  {
    Ask(MakeReady(s, l[0]), Lower(s, l, p) < Prio(s.task, s.current) || s.current == IDLE)
  }

  function Lower(s: State, l: seq<Tid>, p: nat): nat
    requires l != []
  {
    if Prio(s.task, l[0]) < p then Prio(s.task, l[0]) else p
  }

  lemma WakeStep(s: State, l: seq<Tid>, p: nat)
    requires l != []
    ensures WakeAll(s, l, p) == WakeAll(Woken(s, l, p), l[1..], Lower(s, l, p))
  {
    hide MakeReady, Prio;
  }

  lemma WokenDoes(s: State, l: seq<Tid>, p: nat, k: nat)
    requires l != []
    ensures var e := Woken(s, l, p);
      && Q(e.ready, k) == Q(s.ready, k) + (if Prio(s.task, l[0]) == k then [l[0]] else []) && e.current == s.current
      && (forall x: Tid :: Prio(e.task, x) == Prio(s.task, x))
      && (e.pending <==> s.pending || Lower(s, l, p) < Prio(s.task, s.current) || s.current == IDLE)
  {}

  /** The sleepers of a slot join the ends of their lists, in the order of the slot. */
  lemma {:induction false} WakeAllLists(s: State, l: seq<Tid>, p: nat, k: nat)
    ensures Q(WakeAll(s, l, p).ready, k) == Q(s.ready, k) + Of(s.task, l, k)
    decreases |l|
  {
    hide *;
    if l == [] {
      NoneWoken(s, p, k);
    } else {
      WakeStep(s, l, p);
      WokenDoes(s, l, p, k);
      WakeAllLists(Woken(s, l, p), l[1..], Lower(s, l, p), k);
      OfSame(s.task, Woken(s, l, p).task, l[1..], k);
      OfStep(s.task, l, k);
    }
  }

  lemma NoneWoken(s: State, p: nat, k: nat)
    ensures WakeAll(s, [], p) == s && Of(s.task, [], k) == []
  {}

  lemma OfStep(task: map<Tid, Task>, l: seq<Tid>, p: nat)
    requires l != []
    ensures Of(task, l, p) == (if Prio(task, l[0]) == p then [l[0]] else []) + Of(task, l[1..], p)
  {
    hide Prio;
  }

  /** A switch is asked for exactly if one of them outranks the running task, or idle runs. */
  lemma {:induction false} WakeAllAsks(s: State, l: seq<Tid>, p: nat)
    requires s.current != IDLE && p < Prio(s.task, s.current) ==> s.pending
    ensures WakeAll(s, l, p).pending <==>
      s.pending || (l != [] && s.current == IDLE) || Outranks(s.task, l, Prio(s.task, s.current))
    decreases |l|
  {
    if l != [] {
      WakeStep(s, l, p);
      WokenDoes(s, l, p, 0);
      hide WakeAll, Woken, Q, Prio;
      WakeAllAsks(Woken(s, l, p), l[1..], Lower(s, l, p));
      assert l == [l[0]] + l[1..];
      assert forall x: Tid :: x in l <==> x == l[0] || x in l[1..];
    }
  }

  /** The sleepers of the slot that is due. */
  function DueNow(s: State): seq<Tid> { Q(s.wheel, (s.tic + 1) % SLOTS) }

  /** A tic: the sleepers of the due slot, which is empty afterwards, join the ends of their lists in the order of
      the slot; the running task keeps running, with its slice used up at its second tic if others of its rank
      wait; a switch is asked for exactly then, or if a woken task outranks it, or if idle runs and any is woken. */
  lemma TickDoes(s: State, k: nat)
    requires Inv(s)
    ensures var e, due, c := Step(s, TickOp), DueNow(s), TaskOf(s.task, s.current);
      var spent := s.current != IDLE && c.tmark && Q(s.ready, c.prio) + Of(s.task, due, c.prio) != [];
      && e.tic == s.tic + 1 && e.current == s.current
      && Q(e.ready, k) == Q(s.ready, k) + Of(s.task, due, k)
      && Q(e.wheel, k) == (if k == (s.tic + 1) % SLOTS then [] else Q(s.wheel, k))
      && (e.pending <==> s.pending || spent || (due != [] && s.current == IDLE) || Outranks(s.task, due, c.prio))
      && s.current in e.task && e.task[s.current] == (if s.current == IDLE || spent then c else c.(tmark := true))
  {
    hide *;
    TickIs(s);
    TurnLists(s, k);
    TurnLists(s, TaskOf(s.task, s.current).prio);
    TurnAsks(s);
    SliceDoes(Turn(s));
  }

  lemma TickIs(s: State)
    requires Inv(s)
    ensures Step(s, TickOp) == Slice(Turn(s)) && s.current in s.task && TaskOf(s.task, s.current) == s.task[s.current]
  {
    hide Slice, Turn;
  }

  lemma TurnLists(s: State, k: nat)
    requires Inv(s)
    ensures var e, due := Turn(s), DueNow(s);
      && e.tic == s.tic + 1 && e.current == s.current
      && Q(e.ready, k) == Q(s.ready, k) + Of(s.task, due, k)
      && Q(e.wheel, k) == (if k == (s.tic + 1) % SLOTS then [] else Q(s.wheel, k))
  {
    hide Inv, WakeAll, Waking, Of;
    var s1, due := s.(tic := s.tic + 1), DueNow(s);
    NoneOfThem(s);
    WakeAllLists(s1, due, 5, k);
    StartWaking(s1, (s.tic + 1) % SLOTS);
    WakeAllInv(s1, (s.tic + 1) % SLOTS, due, 5);
  }

  lemma TurnAsks(s: State)
    requires Inv(s)
    ensures var e, due, c := Turn(s), DueNow(s), TaskOf(s.task, s.current);
      && s.current in e.task && e.task[s.current] == c
      && (e.pending <==> s.pending || (due != [] && s.current == IDLE) || Outranks(s.task, due, c.prio))
  {
    TickIs(s);
    hide Inv, WakeAll, Outranks, Q;
    var s1, due := s.(tic := s.tic + 1), DueNow(s);
    NoneOfThem(s);
    WakeAllAsks(s1, due, 5);
    WakeAllTask(s1, due, 5, s.current);
  }

  /** What a tic does to the other tasks: those in the due slot are ready, and nothing else has changed. */
  lemma TickOthers(s: State, x: Tid)
    requires Inv(s) && x in s.task && x != s.current
    ensures var e := Step(s, TickOp);
      x in e.task && e.task[x] == if x in DueNow(s) then s.task[x].(state := Ready) else s.task[x]
  {
    hide *;
    TickIs(s);
    TurnOthers(s, x);
    SliceKeeps(Turn(s), x);
  }

  lemma TurnOthers(s: State, x: Tid)
    requires Inv(s) && x in s.task && x != s.current
    ensures var e := Turn(s);
      e.current == s.current && x in e.task && e.task[x] == if x in DueNow(s) then s.task[x].(state := Ready) else s.task[x]
  {
    TickIs(s);
    TurnTasks(s);
    hide *;
    var s1 := s.(tic := s.tic + 1);
    WakeAllTask(s1, DueNow(s), 5, x);
    WakeAllTask(s1, DueNow(s), 5, s.current);
  }

  lemma TurnTasks(s: State)
    ensures var e, w := Turn(s), WakeAll(s.(tic := s.tic + 1), DueNow(s), 5); e.task == w.task && e.current == w.current
  {
    hide WakeAll;
  }

  /** The running task is in no slot. */
  lemma NoneOfThem(s: State)
    requires Inv(s)
    ensures s.current !in DueNow(s) && Prio(s.task, s.current) < PRIOS && Inv(s.(tic := s.tic + 1))
  {
    TicInv(s);
    hide QueuesOk, RankOk;
  }

  lemma SliceDoes(s: State)
    requires s.current in s.task
    ensures var e, c := Slice(s), s.task[s.current];
      var spent := s.current != IDLE && c.tmark && Q(s.ready, c.prio) != [];
      && e.ready == s.ready && e.wheel == s.wheel && e.current == s.current && e.tic == s.tic
      && (e.pending <==> s.pending || spent)
      && s.current in e.task && e.task[s.current] == if s.current == IDLE || spent then c else c.(tmark := true)
  {
    hide Q;
  }

  // ----- Wakeups of the running task

  /** `n` runs before each of the calls and after the last. */
  predicate Stays(s: State, n: Tid, ops: seq<Op>)
    decreases |ops|
  {
    s.current == n && (ops == [] || Stays(Step(s, ops[0]), n, ops[1..]))
  }

  /** Nobody wakes `n` again, and it does not sleep. */
  predicate Unasked(s: State, n: Tid, ops: seq<Op>)
    decreases |ops|
  {
    ops == [] || (ops[0] != WakeupOp(n) && !(s.current == n && ops[0].SleepOp?) && Unasked(Step(s, ops[0]), n, ops[1..]))
  }

  /** Only a switch, or a sleep of its own, forgets what was noted for a task. */
  lemma NoteKept(s: State, op: Op, n: Tid)
    requires Inv(s) && Enabled(s, op) && n in s.task && (s.task[n].state == Running || s.task[n].state == Ready)
    requires op != WakeupOp(n) && !(s.current == n && op.SleepOp?)
    ensures var e := Step(s, op);
      && n in e.task && (e.task[n].state == Running || e.task[n].state == Ready)
      && (e.task[n].wake <==> s.task[n].wake && (s.current == n ==> e.current == n))
  {
    match op
    case CreateOp(t, prio) => CreateDoes(s, t, prio); hide *;
    case ForkOp(t) => ForkDoes(s, t); hide *;
    case WakeupOp(t) => WokenOther(s, t, n);
    case TickOp => TickNote(s, n);
    case SwitchOp => SwitchNote(s, n);
    case SleepOp(ms, able) => SleepNote(s, ms, able, n);
    case ResumeOp => hide Inv;
  }

  lemma WokenOther(s: State, t: Tid, n: Tid)
    requires Inv(s) && t in s.task && n in s.task && n != t
    ensures var e := Step(s, WakeupOp(t)); n in e.task && e.task[n] == s.task[n] && e.current == s.current
  {
    hide Inv, Step;
    if s.task[t].state == Timer || s.task[t].state == Io { WakeupReadies(s, t); } else { WakeupNoted(s, t); }
  }

  lemma TickNote(s: State, n: Tid)
    requires Inv(s) && n in s.task && (s.task[n].state == Running || s.task[n].state == Ready)
    ensures var e := Step(s, TickOp);
      && n in e.task && (e.task[n].state == Running || e.task[n].state == Ready)
      && e.task[n].wake == s.task[n].wake && e.current == s.current
  {
    hide Step, Inv;
    TickDoes(s, 0);
    TickIs(s);
    if n != s.current { TickOthers(s, n); }
  }

  lemma SwitchNote(s: State, n: Tid)
    requires Inv(s) && n in s.task && (s.task[n].state == Running || s.task[n].state == Ready)
    ensures var e := Step(s, SwitchOp);
      && n in e.task && (e.task[n].state == Running || e.task[n].state == Ready)
      && (e.task[n].wake <==> s.task[n].wake && (s.current == n ==> e.current == n))
  {
    hide Step, Inv;
    var _ := SwitchDoes(s);
  }

  lemma SleepNote(s: State, ms: nat, able: bool, n: Tid)
    requires Inv(s) && Enabled(s, SleepOp(ms, able)) && n in s.task && s.current != n && (s.task[n].state == Running || s.task[n].state == Ready)
    ensures var e := Step(s, SleepOp(ms, able));
      && n in e.task && (e.task[n].state == Running || e.task[n].state == Ready)
      && e.task[n].wake == s.task[n].wake
  {
    CurrentIn(s);
    hide Step, Inv;
    if able || s.task[s.current].wake { SleepReturns(s, ms, able); } else { SleepLeaves(s, ms); }
  }

  lemma CurrentIn(s: State)
    requires Inv(s)
    ensures s.current in s.task && s.task[s.current].state == Running
  {
    hide QueuesOk, WheelOk, RankOk;
  }

  /** What is noted for the running task lasts, over every run in which nobody wakes it again and it does not sleep,
      exactly as long as it is not switched out. */
  lemma {:induction false} NoteLasts(s: State, n: Tid, ops: seq<Op>)
    requires Inv(s) && Legal(s, ops) && Unasked(s, n, ops) && n in s.task && (s.task[n].state == Running || s.task[n].state == Ready)
    requires s.task[n].wake ==> s.current == n
    ensures var r := Run(s, ops);
      && Inv(r) && n in r.task && (r.task[n].state == Running || r.task[n].state == Ready)
      && (r.task[n].wake <==> s.task[n].wake && Stays(s, n, ops))
    decreases |ops|
  {
    if ops != [] {
      hide Inv, Step, Enabled;
      StepInv(s, ops[0]);
      NoteKept(s, ops[0], n);
      NoteLasts(Step(s, ops[0]), n, ops[1..]);
    }
  }

  /** A wakeup of the running task is not lost, that is its next sleep returns at once, if and only if it has not been
      switched out in between: a switch forgets the wakeup, and then the task sleeps although it was woken. */
  lemma WakeupLasts(s: State, ops: seq<Op>, ms: nat)
    requires Inv(s) && s.current != IDLE && Legal(s, [WakeupOp(s.current)] + ops)
    requires var s1 := Step(s, WakeupOp(s.current));
      Unasked(s1, s.current, ops) && Run(s1, ops).current == s.current && (ms != 0 ==> ms / 10 + Run(s1, ops).tic > 0)
    ensures var s1, n := Step(s, WakeupOp(s.current)), s.current; var e := Step(Run(s1, ops), SleepOp(ms, false));
      && n in e.task
      && (if Stays(s1, n, ops) then e.current == n && e.task[n].state == Running && !e.task[n].wake
          else e.current != n && e.task[n].state == if ms != 0 then Timer else Io)
  {
    var s1, n := Step(s, WakeupOp(s.current)), s.current;
    assert ([WakeupOp(n)] + ops)[1..] == ops;
    CurrentIn(s);
    hide Inv, Step;
    StepInv(s, WakeupOp(n));
    WakeupNoted(s, n);
    NoteLasts(s1, n, ops);
    var r := Run(s1, ops);
    CurrentIn(r);
    hide Run, Stays;
    if r.task[n].wake { SleepReturns(r, ms, false); } else { SleepLeaves(r, ms); }
  }

  function Of3(a: Task, b: Task, idle: TState): map<Tid, Task> { map[2 := a, 3 := b, IDLE := Task(idle, 3, false, false, 0)] }

  function First(state: TState, tmark: bool, wake: bool): Task { Task(state, 0, tmark, wake, 0) }

  /** The states of a run of two tasks of one rank. */
  function Booted(): State { State(map[2 := First(Running, false, false), IDLE := Task(Ready, 3, false, false, 0)], map[], map[], 2, false, 0) }

  function Created(): State { State(Of3(First(Running, false, false), First(Ready, false, false), Ready), map[0 := [3]], map[], 2, false, 0) }

  function Ticked(): State { State(Of3(First(Running, true, false), First(Ready, false, false), Ready), map[0 := [3]], map[1 := []], 2, false, 1) }

  function Spent(): State
  {
    State(Of3(First(Running, true, false), First(Ready, false, false), Ready), map[0 := [3]], map[1 := [], 2 := []], 2, true, 2)
  }

  function Woken2(): State { Spent().(task := Of3(First(Running, true, true), First(Ready, false, false), Ready)) }

  function Switched(): State
  {
    State(Of3(First(Ready, false, false), First(Running, false, false), Ready), map[0 := [2]], map[1 := [], 2 := []], 3, false, 2)
  }

  function Returned(): State
  {
    State(Of3(First(Running, false, false), First(Io, false, false), Ready), map[0 := []], map[1 := [], 2 := []], 2, false, 2)
  }

  lemma CreatedIs()
    ensures Step(Booted(), CreateOp(3, 0)) == Created() && Enabled(Booted(), CreateOp(3, 0))
  {
    assert Q(map[], 0) + [3] == [3];
  }

  lemma TickedIs()
    ensures Step(Created(), TickOp) == Ticked() && Step(Ticked(), TickOp) == Spent()
  {
    assert Turn(Created()) == Created().(tic := 1, wheel := map[1 := []]);
    assert Turn(Ticked()) == Ticked().(tic := 2, wheel := map[1 := [], 2 := []]);
  }

  lemma SwitchedIs()
    ensures Step(Spent(), WakeupOp(2)) == Woken2() && Step(Woken2(), SwitchOp) == Switched()
    ensures Enabled(Spent(), WakeupOp(2)) && Enabled(Switched(), SleepOp(0, false))
  {
    var s := Woken2();
    assert Q(s.ready, 0)[1..] == [];
    assert Q(s.ready[0 := []], 0) + [2] == [2];
    assert Next(s.ready) == (3, s.ready[0 := []]);
  }

  lemma ReturnedIs()
    ensures Step(Switched(), SleepOp(0, false)) == Returned()
    ensures var e := Step(Returned(), SleepOp(0, false)); e.current == IDLE && 2 in e.task && e.task[2].state == Io
  {
    var s := Settle(Switched(), 0);
    assert Q(s.ready, 0)[1..] == [];
    assert Next(s.ready) == (2, s.ready[0 := []]);
    var r := Settle(Returned(), 0);
    assert Best(r.ready, 0) == PRIOS;
    assert Next(r.ready) == (IDLE, r.ready);
  }

  /** A run that loses a wakeup: two tasks of one rank, the slice of the first one is used up, it is woken, switched
      out, and sleeps when it runs again. */
  lemma LostWakeup()
    ensures var ops := [CreateOp(3, 0), TickOp, TickOp, WakeupOp(2), SwitchOp, SleepOp(0, false)];
      var r := Run(Booted(), ops);
      var e := Step(r, SleepOp(0, false));
      Inv(Booted()) && Legal(Booted(), ops) && r.current == 2 && e.current == IDLE && 2 in e.task && e.task[2].state == Io
  {
    BootInv(2, 0, 3);
    SwitchedIs();
    ReturnedIs();
    hide *;
    var o4 := [SwitchOp] + ([SleepOp(0, false)] + []);
    assert [CreateOp(3, 0), TickOp, TickOp, WakeupOp(2)] + o4 == [CreateOp(3, 0), TickOp, TickOp, WakeupOp(2), SwitchOp, SleepOp(0, false)];
    WokenRun(o4);
    Stepped(Woken2(), SwitchOp, [SleepOp(0, false)] + []);
    Stepped(Switched(), SleepOp(0, false), []);
    NoMore(Returned());
  }

  lemma WokenRun(o: seq<Op>)
    ensures Run(Booted(), [CreateOp(3, 0), TickOp, TickOp, WakeupOp(2)] + o) == Run(Woken2(), o)
    ensures Legal(Woken2(), o) ==> Legal(Booted(), [CreateOp(3, 0), TickOp, TickOp, WakeupOp(2)] + o)
  {
    CreatedIs();
    TickedIs();
    SwitchedIs();
    hide *;
    var o3 := [WakeupOp(2)] + o;
    var o2 := [TickOp] + o3;
    var o1 := [TickOp] + o2;
    assert [CreateOp(3, 0)] + o1 == [CreateOp(3, 0), TickOp, TickOp, WakeupOp(2)] + o;
    Stepped(Booted(), CreateOp(3, 0), o1);
    Stepped(Created(), TickOp, o2);
    Stepped(Ticked(), TickOp, o3);
    Stepped(Spent(), WakeupOp(2), o);
  }

  lemma Stepped(s: State, op: Op, rest: seq<Op>)
    ensures Run(s, [op] + rest) == Run(Step(s, op), rest)
    ensures Enabled(s, op) && Legal(Step(s, op), rest) ==> Legal(s, [op] + rest)
    ensures op == TickOp || op == SwitchOp ==> Enabled(s, op)
  {
    assert ([op] + rest)[1..] == rest;
    hide Step;
  }

  lemma NoMore(s: State)
    ensures Run(s, []) == s && Legal(s, [])
  {}
}
