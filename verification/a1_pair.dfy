/** Two A1 drivers on one line, step by step as A1Loopback describes it: the frame written on one is handed
    to the reader of the other. */
module A1Pair {
  import opened A1Model
  import opened A1Loopback
  import opened A1Unread
  import opened A1Driver

  /** Two working drivers that share nothing but the line. */
  ghost predicate Apart(a: Driver, b: Driver)
    reads a, b, a.rxbuf, a.txbuf, b.rxbuf, b.txbuf
  {
    && a.Valid() && b.Valid() && a != b
    && a.rxbuf != b.rxbuf && a.rxbuf != b.txbuf && a.txbuf != b.rxbuf && a.txbuf != b.txbuf
  }

  ghost function Pair(a: Driver, b: Driver): Bus
    requires Apart(a, b)
    reads a, b, a.rxbuf, a.txbuf, b.rxbuf, b.txbuf
  {
    Bus(a.St(), b.St())
  }

  /** Both drivers see the line change, if it has. */
  method Deliver(a: Driver, b: Driver, before: bool)
    requires Apart(a, b)
    modifies a, b, a.rxbuf, b.rxbuf
    ensures Apart(a, b) && Pair(a, b) == Edges(old(Pair(a, b)), before)
  {
    hide PinIrq, RxOf, TxOf, Bytes, Counting;
    var level := !a.sink && !b.sink;
    if level != before {
      if a.irq { a.PinInterrupt(level); }
      if b.irq { b.PinInterrupt(level); }
    }
  }

  method FireFirst(a: Driver, b: Driver)
    requires Apart(a, b)
    modifies a, b, a.rxbuf, b.rxbuf
    ensures Apart(a, b) && Pair(a, b) == FireA(old(Pair(a, b)))
  {
    hide Timeout, Edges, RxOf, TxOf, Bytes, Counting;
    if a.timer == In(0) {
      var before := !a.sink && !b.sink;
      a.A1Timeout(before);
      Deliver(a, b, before);
    }
  }

  method FireSecond(a: Driver, b: Driver)
    requires Apart(a, b)
    modifies a, b, a.rxbuf, b.rxbuf
    ensures Apart(a, b) && Pair(a, b) == FireB(old(Pair(a, b)))
  {
    hide Timeout, Edges, RxOf, TxOf, Bytes, Counting;
    if b.timer == In(0) {
      var before := !a.sink && !b.sink;
      b.A1Timeout(before);
      Deliver(a, b, before);
    }
  }

  /** The next expiry. */
  method StepPair(a: Driver, b: Driver, bFirst: bool)
    requires Apart(a, b)
    modifies a, b, a.rxbuf, b.rxbuf
    ensures Apart(a, b) && Pair(a, b) == Step(old(Pair(a, b)), bFirst)
  {
    hide FireA, FireB, RxOf, TxOf, Bytes, Counting;
    var d: nat := match (a.timer, b.timer)
      case (Off, Off) => 0
      case (In(u), Off) => u
      case (Off, In(v)) => v
      case (In(u), In(v)) => if u <= v then u else v;
    a.timer, b.timer := Elapse(a.timer, d), Elapse(b.timer, d);
    if bFirst {
      FireSecond(a, b);
      FireFirst(a, b);
    } else {
      FireFirst(a, b);
      FireSecond(a, b);
    }
  }

  method RunPair(a: Driver, b: Driver, n: nat, order: Choices, at: nat)
    requires Apart(a, b)
    modifies a, b, a.rxbuf, b.rxbuf
    ensures Apart(a, b) && Pair(a, b) == Run(old(Pair(a, b)), n, order, at)
  {
    hide Step, Pick, Pair, Apart;
    ghost var s := Pair(a, b);
    var i := 0;
    Next(s, 0, order, at);
    while i < n
      invariant 0 <= i <= n && Apart(a, b) && Pair(a, b) == Run(s, i, order, at)
    {
      StepPair(a, b, Pick(order, at + i));
      Next(s, i, order, at);
      i := i + 1;
    }
  }

  /** The write call, with the falling edge delivered. */
  method StartPair(a: Driver, b: Driver, data: seq<nat>)
    requires Apart(a, b)
    modifies a, b, a.rxbuf, a.txbuf, b.rxbuf
    ensures Apart(a, b) && Pair(a, b) == Begin(old(Pair(a, b)), data)
  {
    hide Write, Edges, RxOf, TxOf, Bytes, Counting;
    var before := !a.sink && !b.sink;
    var _ := a.WriteFrame(data);
    Deliver(a, b, before);
  }

  method ReadPair(a: Driver, b: Driver) returns (got: ReadResult)
    requires Apart(a, b)
    modifies b, b.rxbuf
    ensures Apart(a, b)
    ensures var s := old(Pair(a, b)); Pair(a, b) == s.(b := Read(s.b, SIZE).0) && got == Read(s.b, SIZE).1
  {
    hide Read, RxOf, TxOf, Bytes, Counting;
    got := b.ReadFrame(SIZE);
  }

  /** The sender is idle, the receiver as well, and the frame fits behind the unread ones. */
  predicate Ready(s: Bus, data: seq<nat>, unread: seq<seq<nat>>)
  {
    CanSend(s.a) && CanReceive(s.b) && Frame(data) && Room(s.b.rx, |data|) && Unread(s.b.rx, unread)
  }

  /** A frame is written on one driver and the line is followed until it is over: the other driver hands its
      reader the first frame that was not read yet, which is this one when there was none. */
  method Transfer(a: Driver, b: Driver, data: seq<nat>, order: Choices, ghost unread: seq<seq<nat>>) returns (got: ReadResult)
    requires Apart(a, b) && Ready(Pair(a, b), data, unread)
    modifies a, b, a.rxbuf, a.txbuf, b.rxbuf
    ensures Apart(a, b) && got == Got((unread + [data])[0]) && Unread(Pair(a, b).b.rx, (unread + [data])[1..])
  {
    ghost var s := Pair(a, b);
    ReadyFrame(s, data, unread);
    var n := Cells(data, 0, 8) + 7;
    hide *;
    StartPair(a, b, data);
    RunPair(a, b, n, order, 0);
    Outcome(s, Pair(a, b), data, n, order, unread);
    got := ReadPair(a, b);
  }

  lemma ReadyFrame(s: Bus, data: seq<nat>, unread: seq<seq<nat>>)
    requires Ready(s, data, unread)
    ensures |data| > 0
  {}

  lemma Outcome(s: Bus, r: Bus, data: seq<nat>, n: nat, order: Choices, unread: seq<seq<nat>>)
    requires Ready(s, data, unread) && |data| > 0 && n == Cells(data, 0, 8) + 7 && r == Run(Begin(s, data), n, order, 0)
    ensures Read(r.b, SIZE).1 == Got((unread + [data])[0]) && Unread(Read(r.b, SIZE).0.rx, (unread + [data])[1..])
  {
    hide Run, Begin, Delivered, Read, Unread, Cells, CanSend, CanReceive;
    var m := Loopback(s, data, order, 0);
    DeliveredUnread(r.b, s.b, unread, data);
    ShortFrame(r.b.rx, unread + [data]);
    ReadFirst(r.b, unread + [data], SIZE);
  }

  lemma ShortFrame(r: Rx, fs: seq<seq<nat>>)
    requires Unread(r, fs) && fs != []
    ensures |fs[0]| < SIZE
  {}
}
