/** Two stations on one open-drain line: the line is low while either pulls it low, timers are
    exact, and every level change interrupts each station that has the pin interrupt enabled. */
module CecBus {
  import opened CecModel

  datatype Bus = Bus(a: Station, b: Station)

  predicate Level(s: Bus) { !s.a.sink && !s.b.sink }

  function Elapse(t: Timer, d: nat): Timer
  {
    match t
    case Off => Off
    case In(u) => In(if u >= d then u - d else 0)
  }

  /** The line as both stations see it after a handler ran at line level `before`. */
  function Edges(s: Bus, before: bool): Bus
  {
    if Level(s) == before then s
    else Bus(if s.a.irq then PinIrq(s.a, Level(s)) else s.a, if s.b.irq then PinIrq(s.b, Level(s)) else s.b)
  }

  function FireA(s: Bus): Bus
  {
    if s.a.timer == In(0) then Edges(s.(a := Timeout(s.a, Level(s))), Level(s)) else s
  }

  function FireB(s: Bus): Bus
  {
    if s.b.timer == In(0) then Edges(s.(b := Timeout(s.b, Level(s))), Level(s)) else s
  }

  function Until(s: Bus): nat
  {
    match (s.a.timer, s.b.timer)
    case (Off, Off) => 0
    case (In(u), Off) => u
    case (Off, In(v)) => v
    case (In(u), In(v)) => if u <= v then u else v
  }

  /** Time passes to the next expiry; when both expire at once either may be served first. */
  function Step(s: Bus, bFirst: bool): Bus
  {
    var d := Until(s);
    var s1 := Bus(s.a.(timer := Elapse(s.a.timer, d)), s.b.(timer := Elapse(s.b.timer, d)));
    if bFirst then FireA(FireB(s1)) else FireB(FireA(s1))
  }

  /** For every step whether the timer of `b` is served first. */
  type Choices = seq<bool>

  function Pick(order: Choices, at: nat): bool { at < |order| && order[at] }

  /** `n` steps, with the choices from number `t` on. */
  function Run(s: Bus, n: nat, order: Choices, at: nat): Bus
  {
    if n == 0 then s else Step(Run(s, n - 1, order, at), Pick(order, at + n - 1))
  }

  lemma {:induction false} RunSplit(s: Bus, m: nat, n: nat, order: Choices, at: nat)
    ensures Run(s, m + n, order, at) == Run(Run(s, m, order, at), n, order, at + m)
  {
    hide Step, Pick;
    if n > 0 {
      RunSplit(s, m, n - 1, order, at);
    }
  }

  lemma Next(s: Bus, n: nat, order: Choices, at: nat)
    ensures Run(s, 0, order, at) == s && Run(s, n + 1, order, at) == Step(Run(s, n, order, at), Pick(order, at + n))
  {
    hide Step, Pick;
  }

  /** A pin interrupt never leaves a timer at zero that was not there before. */
  lemma PinArms(s: Station, level: bool)
    ensures PinIrq(s, level).timer == In(0) ==> s.timer == In(0)
  {
  }

  /** The effect of a step in which only the timer of `a`, or only that of `b`, expires. */
  function AfterA(s: Bus): Bus
    requires s.a.timer.In?
  {
    Edges(Bus(Timeout(s.a, Level(s)), s.b.(timer := Elapse(s.b.timer, s.a.timer.usec))), Level(s))
  }

  function AfterB(s: Bus): Bus
    requires s.b.timer.In?
  {
    Edges(Bus(s.a.(timer := Elapse(s.a.timer, s.b.timer.usec)), Timeout(s.b, Level(s))), Level(s))
  }

  lemma OnlyA(s: Bus)
    requires s.a.timer.In? && (s.b.timer.Off? || s.b.timer.usec > s.a.timer.usec)
    ensures forall bFirst :: Step(s, bFirst) == AfterA(s)
  {
    hide TxTimeout, RecTimeout, RInitTimeout, PinIrq;
    var b := s.b.(timer := Elapse(s.b.timer, s.a.timer.usec));
    assert Timeout(s.a.(timer := In(0)), Level(s)) == Timeout(s.a, Level(s));
    PinArms(b, Level(Bus(Timeout(s.a, Level(s)), b)));
  }

  lemma OnlyB(s: Bus)
    requires s.b.timer.In? && (s.a.timer.Off? || s.a.timer.usec > s.b.timer.usec)
    ensures forall bFirst :: Step(s, bFirst) == AfterB(s)
  {
    hide TxTimeout, RecTimeout, RInitTimeout, PinIrq;
    var a := s.a.(timer := Elapse(s.a.timer, s.b.timer.usec));
    assert Timeout(s.b.(timer := In(0)), Level(s)) == Timeout(s.b, Level(s));
    PinArms(a, Level(Bus(a, Timeout(s.b, Level(s)))));
  }

  // ----- One bit cell

  predicate Receiving(r: Station) { r.mode == Rec || r.mode == RecA || r.mode == RecP }

  /** The gap before a cell: the sender will pull the line low in `t` microseconds, while the
      receiver waits for that edge. */
  predicate Gap(s: Bus, t: nat, slack: nat)
  {
    && s.a.mode == Tx && s.a.sub == TX_OUT_NEXT && !s.a.sink && !s.a.irq && s.a.timer == In(t)
    && Receiving(s.b) && s.b.sub == REC_PLB_N && !s.b.sink && s.b.irq && s.b.pin == 1
    && s.b.timer == In(t + slack) && 0 < slack
  }

  /** The bit the sender has at the top of its shift register. */
  predicate TopBit(s: Station) { (s.tx.byteOut / 128) % 2 == 1 }

  function Shifted(a: Station): Station
    requires a.tx.bi > 0
  {
    a.(tx := a.tx.(bi := a.tx.bi - 1, byteOut := (a.tx.byteOut * 2) % WRAP))
  }

  /** The receiver after one more bit, waiting for the next cell. */
  function BitIn(b: Station, bit: bool): Station
  {
    var (m, r) := ShiftIn(b.rx, bit, b.mode, b.ackMask, b.promisc);
    Arm(b.(mode := m, rx := r), REC_PLB_N, 1000)
  }

  lemma StillReceiving(r: Receiver, level: bool, mode: Mode, ackMask: set<nat>, promisc: bool)
    requires mode == Rec || mode == RecA || mode == RecP
    ensures var m := ShiftIn(r, level, mode, ackMask, promisc).0; m == Rec || m == RecA || m == RecP
  {
  }

  /** A cell after its falling edge: the sender holds the line low for a time that depends on
      the bit, and the receiver has its sample timer running. */
  predicate Pulled(s: Bus, bit: bool)
  {
    && s.a.mode == Tx && s.a.sink && !s.a.irq
    && s.a.sub == (if bit then TX_OUT_LO_1 else TX_OUT_LO_0) && s.a.timer == In(if bit then 600 else 1500)
    && Receiving(s.b) && s.b.sub == REC_PLB_I && !s.b.sink && s.b.irq && s.b.pin == 0 && s.b.timer == In(1050)
  }

  /** The cell from its falling edge on. A one is released before the receiver samples. */
  lemma OneTail(s: Bus, order: Choices, at: nat)
    requires Pulled(s, true)
    ensures Run(s, 3, order, at) ==
      Bus(s.a.(sub := TX_OUT_NEXT, sink := false, timer := In(600)), BitIn(s.b, true).(pin := 1))
  {
    hide Step, ShiftIn, Run, Pick;
    Next(s, 0, order, at);
    Next(s, 1, order, at);
    Next(s, 2, order, at);
    StillReceiving(s.b.rx, true, s.b.mode, s.b.ackMask, s.b.promisc);
    OnlyA(s);
    var s1 := Bus(Release(s.a, TX_OUT_NEXT, 1800), s.b.(pin := 1, timer := In(450)));
    assert AfterA(s) == s1;
    OnlyB(s1);
    var s2 := Bus(s1.a.(timer := In(1350)), GetBit(s1.b, true));
    assert AfterB(s1) == s2;
    OnlyB(s2);
  }

  /** A zero is released after the receiver has sampled. */
  lemma ZeroTail(s: Bus, order: Choices, at: nat)
    requires Pulled(s, false)
    ensures Run(s, 3, order, at) ==
      Bus(s.a.(sub := TX_OUT_NEXT, sink := false, timer := In(600)), BitIn(s.b, false).(pin := 1))
  {
    hide Step, ShiftIn, Run, Pick;
    Next(s, 0, order, at);
    Next(s, 1, order, at);
    Next(s, 2, order, at);
    StillReceiving(s.b.rx, false, s.b.mode, s.b.ackMask, s.b.promisc);
    OnlyB(s);
    var s1 := Bus(s.a.(timer := In(450)), GetBit(s.b, false));
    assert AfterB(s) == s1;
    OnlyA(s1);
    var s2 := Bus(Release(s1.a, TX_OUT_NEXT, 900), s1.b.(pin := 1, timer := In(300)));
    assert AfterA(s1) == s2;
    OnlyB(s2);
  }

  lemma CellTail(s: Bus, bit: bool, order: Choices, at: nat)
    requires Pulled(s, bit)
    ensures Run(s, 3, order, at) ==
      Bus(s.a.(sub := TX_OUT_NEXT, sink := false, timer := In(600)), BitIn(s.b, bit).(pin := 1))
  {
    hide *;
    if bit { OneTail(s, order, at); } else { ZeroTail(s, order, at); }
  }

  /** One data cell moves the sender's top bit into the receiver. */
  lemma DataCell(s: Bus, usec: nat, slack: nat, order: Choices, at: nat)
    requires Gap(s, usec, slack) && s.a.tx.bi > 0 && s.b.rx.rbi > 0
    ensures Run(s, 4, order, at) == Bus(Shifted(s.a).(timer := In(600)), BitIn(s.b, TopBit(s.a)))
  {
    hide Step, Run, Pick, ShiftIn;
    RunSplit(s, 1, 3, order, at);
    Next(s, 0, order, at);
    OnlyA(s);
    var bit := TopBit(s.a);
    var s1 := Bus(Sink(Shifted(s.a), if bit then TX_OUT_LO_1 else TX_OUT_LO_0, if bit then 600 else 1500),
                  Arm(s.b.(pin := 0), REC_PLB_I, 1050));
    assert AfterA(s) == s1;
    CellTail(s1, bit, order, at + 1);
  }

  /** The cell that ends the message. */
  lemma LastCell(s: Bus, usec: nat, slack: nat, order: Choices, at: nat)
    requires Gap(s, usec, slack) && s.a.tx.bi == 0 && s.b.rx.rbi == 0 && s.a.tx.olen == s.a.tx.oix + 1
    ensures Run(s, 4, order, at) == Bus(s.a.(sub := TX_ACK_NEXT, timer := In(650)), Arm(GetEom(s.b, true), REC_EOM_N, 1000))
  {
    hide Step, Run, Pick;
    Next(s, 0, order, at);
    Next(s, 1, order, at);
    Next(s, 2, order, at);
    Next(s, 3, order, at);
    OnlyA(s);
    var s1 := Bus(Sink(s.a, TX_EOM_LO_1, 600), Arm(s.b.(pin := 0), REC_EOM_I, 1050));
    assert AfterA(s) == s1;
    OnlyA(s1);
    var s2 := Bus(Release(s1.a, TX_ACK_NEXT, 1800), s1.b.(pin := 1, timer := In(450)));
    assert AfterA(s1) == s2;
    OnlyB(s2);
    var s3 := Bus(s2.a.(timer := In(1350)), GetEom(s2.b, true));
    assert AfterB(s2) == s3;
    OnlyB(s3);
  }

  /** The cell that asks for eight more bits. */
  lemma MoreCell(s: Bus, usec: nat, slack: nat, order: Choices, at: nat)
    requires Gap(s, usec, slack) && s.a.tx.bi == 0 && s.b.rx.rbi == 0 && s.a.tx.olen != s.a.tx.oix + 1
    ensures Run(s, 4, order, at) == Bus(s.a.(sub := TX_ACK_NEXT, timer := In(650)), Arm(GetEom(s.b, false), REC_EOM_N, 1000))
  {
    hide Step, Run, Pick;
    Next(s, 0, order, at);
    Next(s, 1, order, at);
    Next(s, 2, order, at);
    Next(s, 3, order, at);
    OnlyA(s);
    var s1 := Bus(Sink(s.a, TX_EOM_LO_0, 1500), Arm(s.b.(pin := 0), REC_EOM_I, 1050));
    assert AfterA(s) == s1;
    OnlyB(s1);
    var s2 := Bus(s1.a.(timer := In(450)), GetEom(s1.b, false));
    assert AfterB(s1) == s2;
    OnlyA(s2);
    var s3 := Bus(Release(s2.a, TX_ACK_NEXT, 900), s2.b.(pin := 1, timer := In(250)));
    assert AfterA(s2) == s3;
    OnlyB(s3);
  }

  /** The end-of-message cell is a one after the last byte only. */
  lemma EomCell(s: Bus, usec: nat, slack: nat, order: Choices, at: nat)
    requires Gap(s, usec, slack) && s.a.tx.bi == 0 && s.b.rx.rbi == 0
    ensures var last := s.a.tx.olen == s.a.tx.oix + 1;
      Run(s, 4, order, at) ==
        Bus(s.a.(sub := TX_ACK_NEXT, timer := In(650)), Arm(GetEom(s.b, last), REC_EOM_N, 1000))
  {
    hide *;
    if s.a.tx.olen == s.a.tx.oix + 1 { LastCell(s, usec, slack, order, at); } else { MoreCell(s, usec, slack, order, at); }
  }

  /** Before the acknowledge cell. */
  predicate BeforeAck(s: Bus)
  {
    && s.a.mode == Tx && s.a.sub == TX_ACK_NEXT && !s.a.sink && !s.a.irq && s.a.timer == In(650)
    && (s.b.mode == RecA || s.b.mode == RecP) && s.b.sub == REC_EOM_N && !s.b.sink && s.b.irq && s.b.pin == 1
    && s.b.timer == In(1000)
  }

  lemma AckBegins(s: Bus, r: Receiver, s1: Bus, order: Choices, at: nat)
    requires BeforeAck(s) && s.b.mode == RecA && r == Publish(s.b.rx.(flags := s.b.rx.flags.(byteReady := true)), s.b.promisc)
    requires s1 == Bus(Sink(s.a, TX_ACK_1, 600), Arm(s.b.(pin := 0, sink := true, rx := r), REC_ACK_E, 1500))
    ensures Step(s, Pick(order, at)) == s1
  {
    hide Step, Pick, Publish, AckSample;
    OnlyA(s);
    assert AfterA(s) == s1;
  }

  /** The addressed receiver holds the line low past the sender's sample. */
  lemma ActiveAck(s: Bus, order: Choices, at: nat)
    requires BeforeAck(s) && s.b.mode == RecA
    ensures var r := Publish(s.b.rx.(flags := s.b.rx.flags.(byteReady := true)), s.b.promisc);
      Run(s, 4, order, at) == Bus(AckSample(s.a, false).(timer := In(900)), AckEnd(s.b.(rx := r)))
  {
    hide Step, Run, Pick, Publish, AckSample;
    Next(s, 0, order, at);
    Next(s, 1, order, at);
    Next(s, 2, order, at);
    Next(s, 3, order, at);
    var r := Publish(s.b.rx.(flags := s.b.rx.flags.(byteReady := true)), s.b.promisc);
    var s1 := Bus(Sink(s.a, TX_ACK_1, 600), Arm(s.b.(pin := 0, sink := true, rx := r), REC_ACK_E, 1500));
    AckBegins(s, r, s1, order, at);
    OnlyA(s1);
    var s2 := Bus(Release(s1.a, TX_ACK_2, 450), s1.b.(timer := In(900)));
    assert AfterA(s1) == s2;
    OnlyA(s2);
    AckSampleApart(s.a, false, TX_ACK_2, Off);
    var s3 := Bus(AckSample(s.a, false), s2.b.(timer := In(450)));
    assert AfterA(s2) == s3;
    OnlyB(s3);
  }

  /** The sample looks at neither the substate nor the timer, and sets both. */
  lemma AckSampleApart(s: Station, level: bool, sub: nat, timer: Timer)
    ensures AckSample(s.(sub := sub, timer := timer), level) == AckSample(s, level)
    ensures var r := AckSample(s, level);
      r == s.(tx := r.tx, sub := r.sub, timer := In(1350)) && (r.sub == TX_DONE || r.sub == TX_OUT_NEXT)
  {
  }

  /** Both timers expire at once and neither handler drives the line. */
  lemma Both(s: Bus)
    requires s.a.timer.In? && s.b.timer == s.a.timer
    requires var a, b := Timeout(s.a, Level(s)), Timeout(s.b, Level(s));
      a.sink == s.a.sink && b.sink == s.b.sink && a.timer != In(0) && b.timer != In(0)
    ensures forall bFirst :: Step(s, bFirst) == Bus(Timeout(s.a, Level(s)), Timeout(s.b, Level(s)))
  {
    hide TxTimeout, RecTimeout, RInitTimeout, PinIrq;
    assert Timeout(s.a.(timer := In(0)), Level(s)) == Timeout(s.a, Level(s));
    assert Timeout(s.b.(timer := In(0)), Level(s)) == Timeout(s.b, Level(s));
  }

  /** The line is low for 600 microseconds only. */
  lemma ListenAck(s: Bus, order: Choices, at: nat)
    requires BeforeAck(s) && s.b.mode == RecP
    ensures Run(s, 2, order, at) == Bus(Release(s.a, TX_ACK_2, 450), Arm(s.b, REC_ACK_I, 450))
  {
    hide Step, Run, Pick, Publish, AckSample;
    Next(s, 0, order, at);
    Next(s, 1, order, at);
    OnlyA(s);
    var s1 := Bus(Sink(s.a, TX_ACK_1, 600), Arm(s.b.(pin := 0), REC_ACK_I, 1050));
    assert AfterA(s) == s1;
    OnlyA(s1);
  }

  /** A receiver that is not addressed only listens; nobody pulls the line at the sample. */
  lemma PassiveAck(s: Bus, order: Choices, at: nat)
    requires BeforeAck(s) && s.b.mode == RecP
    ensures var r := Publish(s.b.rx.(flags := s.b.rx.flags.(ack := false, byteReady := true)), s.b.promisc);
      Run(s, 4, order, at) == Bus(AckSample(s.a, true).(timer := In(650)), AckEnd(s.b.(rx := r)))
  {
    hide Step, Run, Pick, Publish, AckSample;
    Next(s, 2, order, at);
    Next(s, 3, order, at);
    ListenAck(s, order, at);
    var r := Publish(s.b.rx.(flags := s.b.rx.flags.(ack := false, byteReady := true)), s.b.promisc);
    var s2 := Bus(Release(s.a, TX_ACK_2, 450), Arm(s.b, REC_ACK_I, 450));
    AckSampleApart(s.a, true, TX_ACK_2, Off);
    var s3 := Bus(AckSample(s.a, true), Arm(s.b.(rx := r), REC_ACK_E, 700));
    assert Timeout(s2.a, true) == s3.a && Timeout(s2.b, true) == s3.b;
    Both(s2);
    OnlyB(s3);
  }

  // ----- The start bit

  /** A station that can start to send, and one that can receive. */
  predicate CanSend(a: Station) { a.mode == Idle && !TxBusy(a) && !a.sink && |a.tx.buf| == 16 }

  predicate CanReceive(b: Station) { b.mode == Idle && !b.sink && b.irq && b.pin != 0 && b.timer == Off }

  /** The line right after the send call, with the falling edge delivered. */
  function Begin(s: Bus, data: seq<nat>): Bus
    requires |data| > 0
  {
    Edges(s.(a := SendCec(s.a, data).0), Level(s))
  }

  /** The sender when its message is loaded. */
  function Loaded(a: Station, data: seq<nat>): Station
    requires |data| > 0
  {
    SendCec(a, data).0.(sink := false, timer := Off)
  }

  /** The receiver when it has seen the start bit. */
  function Synced(b: Station): Station
  {
    b.(mode := Rec, rx := b.rx.(flags := NO_FLAGS, rbi := 8, tmp := 0))
  }

  /** The receiver follows the start bit up to the line's last high part. */
  lemma Sync(s: Bus, data: seq<nat>, order: Choices, at: nat)
    requires CanSend(s.a) && CanReceive(s.b) && 1 <= |data| <= 16
    ensures Run(Begin(s, data), 4, order, at) ==
      Bus(Arm(Loaded(s.a, data), TX_INIT_HI, 100),
          Arm(s.b.(mode := RInit, rx := s.b.rx.(flags := NO_FLAGS), pin := 1), RSYNC_TOL, 500))
  {
    hide Step, Run, Pick;
    var s0 := Begin(s, data);
    Next(s0, 0, order, at);
    Next(s0, 1, order, at);
    Next(s0, 2, order, at);
    Next(s0, 3, order, at);
    var a := Loaded(s.a, data);
    var b := s.b.(mode := RInit, rx := s.b.rx.(flags := NO_FLAGS));
    assert s0 == Bus(Sink(a, TX_INIT_LO, 3700), Arm(b.(pin := 0), RSYNC_LOW, 3500));
    OnlyB(s0);
    var s1 := Bus(s0.a.(timer := In(200)), Arm(b.(pin := 0), RSYNC_TOH, 500));
    assert AfterB(s0) == s1;
    OnlyA(s1);
    var s2 := Bus(Release(a, TX_INIT_HI, 800), Arm(b.(pin := 1), RSYNC_HI1, 300));
    assert AfterA(s1) == s2;
    OnlyB(s2);
    var s3 := Bus(s2.a.(timer := In(500)), Arm(b.(pin := 1), RSYNC_HI2, 400));
    assert AfterB(s2) == s3;
    OnlyB(s3);
  }

  /** The start bit and the falling edge of the first cell. */
  lemma StartBit(s: Bus, data: seq<nat>, order: Choices, at: nat)
    requires CanSend(s.a) && CanReceive(s.b) && 1 <= |data| <= 16
    ensures Loaded(s.a, data).tx.bi == 8
    ensures var a := Loaded(s.a, data); var bit := TopBit(a);
      Run(Begin(s, data), 5, order, at) == Bus(
        Sink(Shifted(a), if bit then TX_OUT_LO_1 else TX_OUT_LO_0, if bit then 600 else 1500),
        Arm(Synced(s.b).(pin := 0), REC_PLB_I, 1050))
  {
    hide Step, Run, Pick, Begin;
    Sync(s, data, order, at);
    Next(Begin(s, data), 4, order, at);
    OnlyA(Run(Begin(s, data), 4, order, at));
  }
}
