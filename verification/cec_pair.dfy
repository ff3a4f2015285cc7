/** Two CEC drivers on one line, step by step as CecBus describes it: what one is told to send, the other
    hands to its reader. */
module CecPair {
  import opened CecModel
  import opened CecBus
  import opened CecLoopback
  import opened CecDriver

  /** Two working drivers that share nothing but the line. */
  ghost predicate Apart(a: Driver, b: Driver)
    reads a, b, a.txbuf, b.txbuf
  {
    && a.Valid() && b.Valid() && a != b
    && a.rxbufs != b.rxbufs && a.rxbufs != b.txbuf && a.txbuf != b.rxbufs && a.txbuf != b.txbuf
  }

  ghost function Pair(a: Driver, b: Driver): Bus
    requires Apart(a, b)
    reads a, b, a.rxbufs, a.txbuf, b.rxbufs, b.txbuf
  {
    Bus(a.St(), b.St())
  }

  /** Both drivers see the line change, if it has. */
  method Deliver(a: Driver, b: Driver, before: bool)
    requires Apart(a, b)
    modifies a, b, a.rxbufs, b.rxbufs
    ensures Apart(a, b) && Pair(a, b) == Edges(old(Pair(a, b)), before)
  {
    hide PinIrq;
    var level := !a.sink && !b.sink;
    if level != before {
      if a.irq { a.PinIrq(level); }
      if b.irq { b.PinIrq(level); }
    }
  }

  method FireFirst(a: Driver, b: Driver)
    requires Apart(a, b)
    modifies a, b, a.rxbufs, b.rxbufs
    ensures Apart(a, b) && Pair(a, b) == FireA(old(Pair(a, b)))
  {
    hide Timeout, Edges;
    if a.timer == In(0) {
      var before := !a.sink && !b.sink;
      a.CecTimeout(before);
      Deliver(a, b, before);
    }
  }

  method FireSecond(a: Driver, b: Driver)
    requires Apart(a, b)
    modifies a, b, a.rxbufs, b.rxbufs
    ensures Apart(a, b) && Pair(a, b) == FireB(old(Pair(a, b)))
  {
    hide Timeout, Edges;
    if b.timer == In(0) {
      var before := !a.sink && !b.sink;
      b.CecTimeout(before);
      Deliver(a, b, before);
    }
  }

  /** The next expiry. */
  method StepPair(a: Driver, b: Driver, bFirst: bool)
    requires Apart(a, b)
    modifies a, b, a.rxbufs, b.rxbufs
    ensures Apart(a, b) && Pair(a, b) == Step(old(Pair(a, b)), bFirst)
  {
    hide FireA, FireB, MaskOf, RxOf, TxOf, Bytes, TxWord;
    var d: nat := match (a.timer, b.timer)
      case (Off, Off) => 0
      case (In(u), Off) => u
      case (Off, In(v)) => v
      case (In(u), In(v)) => if u <= v then u else v;
    a.timer, b.timer := Elapse(a.timer, d), Elapse(b.timer, d);
    if bFirst {
      FireSecond(a, b);
      FireFirst(a, b);
    } else {
      FireFirst(a, b);
      FireSecond(a, b);
    }
  }

  method RunPair(a: Driver, b: Driver, n: nat, order: Choices, at: nat)
    requires Apart(a, b)
    modifies a, b, a.rxbufs, b.rxbufs
    ensures Apart(a, b) && Pair(a, b) == Run(old(Pair(a, b)), n, order, at)
  {
    hide Step, Pick, Pair, Apart;
    ghost var s := Pair(a, b);
    var i := 0;
    Next(s, 0, order, at);
    while i < n
      invariant 0 <= i <= n && Apart(a, b) && Pair(a, b) == Run(s, i, order, at)
    {
      StepPair(a, b, Pick(order, at + i));
      Next(s, i, order, at);
      i := i + 1;
    }
  }

  /** The send call, with the falling edge delivered. */
  method StartPair(a: Driver, b: Driver, data: seq<nat>)
    requires Apart(a, b) && 1 <= |data| <= 16 && Bytes(data)
    modifies a, b, a.rxbufs, a.txbuf, b.rxbufs
    ensures Apart(a, b) && Pair(a, b) == Begin(old(Pair(a, b)), data)
  {
    hide SendCec, Edges, RxOf, TxOf, MaskOf, TxWord, Bytes;
    var before := !a.sink && !b.sink;
    var _ := a.SendCec(data);
    Deliver(a, b, before);
  }

  /** Sender and reader after the message. */
  method FinishPair(a: Driver, b: Driver) returns (sent: int, got: ReadResult)
    requires Apart(a, b)
    modifies a, b
    ensures Apart(a, b)
    ensures var s := old(Pair(a, b));
      && Pair(a, b) == Bus(GetResult(s.a).0, ReadFrame(s.b, 16).0) && sent == GetResult(s.a).1 && got == ReadFrame(s.b, 16).1
  {
    hide GetResult, ReadFrame, RxOf, TxOf, MaskOf, TxWord, Bytes;
    sent := a.GetResult();
    got := b.ReadFrame(16);
  }

  /** One driver is told to send `data`, and the line is followed until the message is over: the sender's
      result is its length, and the other driver hands its reader the first message that was not read
      yet, which is this one when there was none. */
  method Transfer(a: Driver, b: Driver, data: seq<nat>, order: Choices, ghost unread: seq<seq<nat>>)
    returns (sent: int, got: ReadResult)
    requires Apart(a, b) && Ready(Pair(a, b), data, unread)
    modifies a, b, a.rxbufs, a.txbuf, b.rxbufs
    ensures Apart(a, b) && sent == |data|
    ensures got == Got((unread + [data])[0]) && Unread(Pair(a, b).b.rx, (unread + [data])[1..])
  {
    ghost var s := Pair(a, b);
    hide *;
    ReadyParts(s, data, unread);
    StartPair(a, b, data);
    RunPair(a, b, 40 * |data| + 5, order, 0);
    ghost var r := Pair(a, b);
    Outcome(s, r, data, order, unread);
    sent, got := FinishPair(a, b);
  }

  /** The sender is idle, the receiver as well, and it has a free line and answers the message. */
  predicate Ready(s: Bus, data: seq<nat>, unread: seq<seq<nat>>)
  {
    && CanSend(s.a) && CanReceive(s.b) && Message(data) && (data[0] % 16 == 15 || data[0] % 16 in s.b.ackMask)
    && Unread(s.b.rx, unread) && |unread| < RXB_LINES
  }

  lemma ReadyParts(s: Bus, data: seq<nat>, unread: seq<seq<nat>>)
    requires Ready(s, data, unread)
    ensures 1 <= |data| <= 16 && Bytes(data)
  {}

  lemma Outcome(s: Bus, r: Bus, data: seq<nat>, order: Choices, unread: seq<seq<nat>>)
    requires Ready(s, data, unread) && |data| > 0 && r == Run(Begin(s, data), 40 * |data| + 5, order, 0)
    ensures GetResult(r.a).1 == |data|
    ensures ReadFrame(r.b, 16).1 == Got((unread + [data])[0]) && Unread(ReadFrame(r.b, 16).0.rx, (unread + [data])[1..])
  {
    hide Run, Begin, Delivered, Guarded, GetResult, ReadFrame;
    var n := Loopback(s, data, order, 0);
    AfterTransfer(r.b, s.b, unread, data);
  }

  /** The first unread message when a further one has been delivered. */
  lemma AfterTransfer(b: Station, b0: Station, fs: seq<seq<nat>>, data: seq<nat>)
    requires Unread(b0.rx, fs) && |fs| < RXB_LINES && Message(data) && Delivered(b, b0, data)
    ensures ReadFrame(b, 16).1 == Got((fs + [data])[0]) && Unread(ReadFrame(b, 16).0.rx, (fs + [data])[1..])
  {
    DeliveredUnread(b, b0, fs, data);
    ReadFirst(b, fs + [data], 16);
    var f := (fs + [data])[0];
    ShortMessage(b.rx, fs + [data]);
    assert f[..|f|] == f;
    hide Unread, ReadFrame, Delivered;
  }

  lemma ShortMessage(r: Receiver, fs: seq<seq<nat>>)
    requires Unread(r, fs) && fs != []
    ensures |fs[0]| <= 16
  {
    assert LineHolds(r.ring[(r.out + 0) % RXB_LINES], fs[0]);
  }
}
