/** Frames that follow each other without idle line. The receiver takes the start bit of the second
    for a data bit of the first and drops that frame; it is idle again while the second one's bits go
    by, which it takes for bad start bits, and hears the third one's start bit. */
module A1Burst {
  import opened ShiftBits
  import opened A1Model
  import opened A1Loopback
  import opened A1Ring
  import opened A1Writes

  // ----- The two ends

  /** The sender has the frames `fs` in its ring and is inside the first of them. */
  predicate OnAir(a: Station, fs: seq<seq<nat>>)
  {
    Queue(a.tx, fs) && fs != [] && Inside(a.tx, fs[0])
  }

  /** The last bit of a frame is out, and `fs` are left. */
  predicate FrameOut(a: Station, fs: seq<seq<nat>>) { Queue(a.tx, fs) && a.tx.bi == 0 }

  /** Nothing has been added to the ring of `b0`, and what is unread there is still the same. */
  predicate NothingNew(b: Station, b0: Station)
  {
    && b.rx.inn == b0.rx.inn && b.rx.out == b0.rx.out && |b.rx.buf| == SIZE && b.tx == b0.tx
    && Kept(b.rx.buf, b0.rx.buf, b0.rx.out, b0.rx.inn)
  }

  /** The receiver is idle while the sender is between two bits of a frame. */
  predicate Deaf(s: Bus)
  {
    && s.a.mode == TxData0 && !s.a.sink && !s.a.irq && s.a.timer == In(HIGH)
    && s.b.mode == Idle && !s.b.sink && s.b.irq && s.b.pin == 1 && s.b.timer == Off
  }

  /** Bits of the frame that are still to go out. */
  function BitsLeft(tx: Tx): nat
  {
    if tx.bi == 0 then 0 else if tx.oix + 1 < tx.len then 8 * (tx.len - tx.oix - 1) + tx.bi else tx.bi
  }

  /** A bit of the frame goes out. */
  lemma SenderBit(a: Station, a1: Station, fs: seq<seq<nat>>)
    requires OnAir(a, fs) && Frames(fs) && a1.tx == NextBit(a.tx)
    ensures if BitsLeft(a.tx) == 1 then FrameOut(a1, fs[1..]) else OnAir(a1, fs) && BitsLeft(a1.tx) == BitsLeft(a.tx) - 1
    ensures BitsLeft(a.tx) >= 1 && a.tx.bi > 0
  {
    BitOk(a.tx, fs);
    assert Frame(fs[0]);
    hide Queue, ToGo, Frame, Get;
  }

  lemma HasBits(a: Station, fs: seq<seq<nat>>)
    requires OnAir(a, fs) && Frames(fs)
    ensures a.tx.bi > 0 && fs != [] && BitsLeft(a.tx) >= 1 && HasHead(a.tx)
  {
    assert Frame(fs[0]);
    assert Total(fs) == 1 + |fs[0]| + Total(fs[1..]);
    hide Total, LieAll, ToGo;
  }

  lemma TakeKeeps(r: Rx, bit: bool, b0: Station)
    requires r.inn == b0.rx.inn && r.out == b0.rx.out && |r.buf| == SIZE && Kept(r.buf, b0.rx.buf, b0.rx.out, b0.rx.inn)
    ensures var r2 := TakeBit(r, bit);
      r2.inn == r.inn && r2.out == r.out && |r2.buf| == SIZE && Kept(r2.buf, b0.rx.buf, b0.rx.out, b0.rx.inn)
  {
    var byte := if bit && r.byte % 2 == 0 then r.byte + 1 else r.byte;
    var len := r.len + 1;
    if r.bi == 1 && len + (r.inn - r.out) < SIZE {
      forall k | b0.rx.out <= k < b0.rx.inn ensures Get(Put(r.buf, r.inn + len, byte), k) == Get(b0.rx.buf, k) {
        PutOther(r.buf, r.inn + len, byte, k);
        assert Get(r.buf, k) == Get(b0.rx.buf, k);
      }
    }
    hide Get;
  }

  lemma PutOther(buf: seq<nat>, i: nat, v: nat, k: nat)
    requires |buf| == SIZE && k < i < k + SIZE
    ensures Get(Put(buf, i, v), k) == Get(buf, k)
  {
    ModApart(k, i);
  }

  // ----- A frame that is heard

  /** The rest of a frame that the receiver follows. */
  lemma {:induction false} HeardBits(s: Bus, b0: Station, fs: seq<seq<nat>>, order: Choices, at: nat) returns (n: nat)
    requires Gap(s) && OnAir(s.a, fs) && Frames(fs) && NothingNew(s.b, b0)
    ensures var r := Run(s, n, order, at);
      Gap(r) && r.b.mode == RxData1 && FrameOut(r.a, fs[1..]) && NothingNew(r.b, b0)
    ensures n >= 1 && AllBusy(s, n, order, at)
    decreases BitsLeft(s.a.tx)
  {
    hide AllBusy, HasHead, Frames, Run, Gap, OnAir, FrameOut, NextBit, TakeBit, BitsLeft, Kept;
    HasBits(s.a, fs);
    SenderBit(s.a, s.a.(tx := NextBit(s.a.tx)), fs);
    n := Cell(s, order, at);
    var s1 := Run(s, n, order, at);
    SameTx(s1.a, s.a.(tx := NextBit(s.a.tx)), fs);
    TakeKeeps(s.b.rx, TopBit(s.a.tx), b0);
    if BitsLeft(s.a.tx) > 1 {
      var m := HeardBits(s1, b0, fs, order, at + n);
      RunSplit(s, n, m, order, at);
      BusySplit(s, n, m, order, at);
      n := n + m;
    }
  }

  lemma SameTx(a: Station, a2: Station, fs: seq<seq<nat>>)
    requires a.tx == a2.tx
    ensures OnAir(a, fs) == OnAir(a2, fs)
    ensures fs != [] ==> FrameOut(a, fs[1..]) == FrameOut(a2, fs[1..])
  {}

  /** A start bit has just begun while the receiver waits for a data bit. */
  predicate Misheard(s: Bus)
  {
    && s.a.mode == TxInit0 && s.a.sink && !s.a.irq && s.a.timer == In(START)
    && s.b.mode == RxData0 && !s.b.sink && s.b.irq && s.b.pin == 0 && s.b.timer == In(300) && s.b.rx.cnt == 0
  }

  /** Four periods are no data bit. */
  lemma GivesUp(s: Bus, order: Choices, at: nat)
    requires Misheard(s)
    ensures Run(s, 5, order, at) ==
      Bus(s.a.(mode := TxData0, sink := false, timer := In(HIGH)),
          s.b.(mode := Idle, pin := 1, timer := Off, rx := s.b.rx.(cnt := 4)))
    ensures Busy(s.a) ==> AllBusy(s, 5, order, at)
  {
    hide Step, Busy, AllBusy;
    var a, b, r := s.a, s.b, s.b.rx;
    Next(s, 0, order, at);
    OnlyB(s);
    var s1 := Bus(a.(timer := In(2100)), b.(timer := In(600), rx := r.(cnt := 1)));
    assert AfterB(s) == s1;
    Next(s, 1, order, at);
    OnlyB(s1);
    var s2 := Bus(a.(timer := In(1500)), b.(timer := In(600), rx := r.(cnt := 2)));
    assert AfterB(s1) == s2;
    Next(s, 2, order, at);
    OnlyB(s2);
    var s3 := Bus(a.(timer := In(900)), b.(timer := In(600), rx := r.(cnt := 3)));
    assert AfterB(s2) == s3;
    Next(s, 3, order, at);
    OnlyB(s3);
    var s4 := Bus(a.(timer := In(300)), b.(timer := In(600), rx := r.(cnt := 4)));
    assert AfterB(s3) == s4;
    Next(s, 4, order, at);
    OnlyA(s4);
    if Busy(s.a) { WaitBusy(s, 5, order, at); }
  }

  /** The start bit of the next frame finds the receiver inside the last, and the receiver gives up. */
  lemma Dropped(s: Bus, b0: Station, fs: seq<seq<nat>>, order: Choices, at: nat)
    requires Misheard(s) && OnAir(s.a, fs) && Frames(fs) && NothingNew(s.b, b0)
    ensures var r := Run(s, 5, order, at); Deaf(r) && OnAir(r.a, fs) && NothingNew(r.b, b0)
    ensures AllBusy(s, 5, order, at)
  {
    HasBits(s.a, fs);
    StartIsBusy(s.a);
    hide *;
    GivesUp(s, order, at);
    GivenUp(s, Run(s, 5, order, at), b0, fs);
  }

  lemma StartIsBusy(a: Station)
    ensures a.mode == TxInit0 && !a.irq && a.tx.bi > 0 && HasHead(a.tx) ==> Busy(a)
  {}

  lemma NextEdge(s: Bus, fs: seq<seq<nat>>, order: Choices, at: nat)
    requires Gap(s) && FrameOut(s.a, fs) && fs != []
    ensures var r := Run(s, 1, order, at);
      Misheard(r) && OnAir(r.a, fs) && r.b == s.b.(mode := RxData0, pin := 0, timer := In(300), rx := s.b.rx.(cnt := 0))
  {
    var a := s.a.(timer := Off);
    EndOk(a, fs);
    EmptyRing(s.a.tx, fs);
    EndQueue(a, fs);
    StartAims(a);
    hide Step, Run, Queue, Inside, StartTx, EndTx;
    Next(s, 0, order, at);
    OnlyA(s);
    assert Timeout(s.a, Level(s)) == EndTx(a);
    hide Timeout;
  }

  lemma GivenUp(s: Bus, r: Bus, b0: Station, fs: seq<seq<nat>>)
    requires Misheard(s) && OnAir(s.a, fs) && NothingNew(s.b, b0)
    requires r == Bus(s.a.(mode := TxData0, sink := false, timer := In(HIGH)),
                      s.b.(mode := Idle, pin := 1, timer := Off, rx := s.b.rx.(cnt := 4)))
    ensures Deaf(r) && OnAir(r.a, fs) && NothingNew(r.b, b0)
  {
    hide Queue, Inside, Kept;
  }

  lemma StartAims(a: Station)
    requires a.tx.inn != a.tx.out
    ensures var e := EndTx(a); e.mode == TxInit0 && e.sink && !e.irq && e.timer == In(START)
  {}

  lemma EndQueue(a: Station, fs: seq<seq<nat>>)
    requires Queue(a.tx, fs) && fs != []
    ensures Queue(EndTx(a).tx, fs)
  {
    EndOk(a, fs);
  }

  // ----- A frame that goes by

  /** A data bit is no start bit for an idle receiver: it counts one or two periods. */
  lemma DeafCell(s: Bus, order: Choices, at: nat) returns (n: nat)
    requires Deaf(s) && s.a.tx.bi > 0
    ensures var r := Run(s, n, order, at);
      Deaf(r) && r.a.tx == NextBit(s.a.tx) && r.b.tx == s.b.tx && r.b.rx == s.b.rx.(cnt := r.b.rx.cnt, len := 0)
    ensures n == 3 || n == 4
    ensures forall i: nat :: 1 <= i < n ==> InBit(Run(s, i, order, at), s)
  {
    hide Step, NextBit, TopBit;
    var bit := TopBit(s.a.tx);
    var low := if bit then LOW1 else LOW0;
    Next(s, 0, order, at);
    OnlyA(s);
    var rx := s.b.rx.(len := 0);
    var s1 := Bus(s.a.(mode := TxData1, timer := In(low), sink := true, tx := NextBit(s.a.tx)),
                  s.b.(pin := 0, mode := RxInit0, timer := In(300), rx := rx.(cnt := 0)));
    assert AfterA(s) == s1;
    Next(s, 1, order, at);
    OnlyB(s1);
    var s2 := Bus(s1.a.(timer := In(low - 300)), s1.b.(timer := In(600), rx := rx.(cnt := 1)));
    assert AfterB(s1) == s2;
    Next(s, 2, order, at);
    if bit {
      OnlyB(s2);
      var s3 := Bus(s2.a.(timer := In(300)), s2.b.(timer := In(600), rx := rx.(cnt := 2)));
      assert AfterB(s2) == s3;
      Next(s, 3, order, at);
      OnlyA(s3);
      n := 4;
    } else {
      OnlyA(s2);
      n := 3;
    }
  }

  predicate InBit(s1: Bus, s: Bus)
    requires s.a.tx.bi > 0
  {
    s1.a.mode == TxData1 && !s1.a.irq && s1.a.tx == NextBit(s.a.tx)
  }

  lemma {:induction false} DeafBusy(s: Bus, n: nat, order: Choices, at: nat)
    requires Deaf(s) && s.a.tx.bi > 0 && HasHead(s.a.tx) && n >= 1
    requires forall i: nat :: 1 <= i < n ==> InBit(Run(s, i, order, at), s)
    ensures AllBusy(s, n, order, at)
  {
    HeadStays(s.a.tx);
    hide Run, NextBit, HasHead;
    Next(s, 0, order, at);
    if n == 1 {
      BusyMore(s, 0, order, at);
    } else {
      DeafBusy(s, n - 1, order, at);
      assert InBit(Run(s, n - 1, order, at), s);
      BusyMore(s, n - 1, order, at);
    }
  }

  /** The rest of a frame that the receiver does not follow. */
  lemma {:induction false} DeafBits(s: Bus, b0: Station, fs: seq<seq<nat>>, order: Choices, at: nat) returns (n: nat)
    requires Deaf(s) && OnAir(s.a, fs) && Frames(fs) && NothingNew(s.b, b0)
    ensures var r := Run(s, n, order, at); Deaf(r) && FrameOut(r.a, fs[1..]) && NothingNew(r.b, b0)
    ensures n >= 1 && AllBusy(s, n, order, at)
    decreases BitsLeft(s.a.tx)
  {
    hide AllBusy, HasHead, Frames, InBit, Run, Deaf, OnAir, FrameOut, NextBit, BitsLeft, Kept;
    HasBits(s.a, fs);
    SenderBit(s.a, s.a.(tx := NextBit(s.a.tx)), fs);
    n := DeafCell(s, order, at);
    DeafBusy(s, n, order, at);
    var s1 := Run(s, n, order, at);
    SameTx(s1.a, s.a.(tx := NextBit(s.a.tx)), fs);
    if BitsLeft(s.a.tx) > 1 {
      var m := DeafBits(s1, b0, fs, order, at + n);
      RunSplit(s, n, m, order, at);
      BusySplit(s, n, m, order, at);
      n := n + m;
    }
  }

  /** A frame whose start bit finds the receiver inside another frame is lost, whatever follows, and so
      is the one that the receiver was in. */
  lemma LostInside(s: Bus, b0: Station, fs: seq<seq<nat>>, order: Choices, at: nat) returns (n: nat)
    requires Misheard(s) && OnAir(s.a, fs) && Frames(fs) && NothingNew(s.b, b0)
    ensures var r := Run(s, n, order, at); Deaf(r) && FrameOut(r.a, fs[1..]) && NothingNew(r.b, b0)
    ensures n >= 1 && AllBusy(s, n, order, at)
  {
    hide *;
    Dropped(s, b0, fs, order, at);
    var m := DeafBits(Run(s, 5, order, at), b0, fs, order, at + 5);
    RunSplit(s, 5, m, order, at);
    BusySplit(s, 5, m, order, at);
    n := 5 + m;
  }

  /** The start bit after a frame that went by is heard. */
  lemma HeardAgain(s: Bus, b0: Station, fs: seq<seq<nat>>, order: Choices, at: nat)
    requires Deaf(s) && FrameOut(s.a, fs) && fs != [] && NothingNew(s.b, b0)
    ensures var r := Run(s, 1, order, at);
      Starting(r) && OnAir(r.a, fs) && AtFirst(r.a) && NothingNew(r.b, b0)
  {
    EndOk(s.a.(timer := Off), fs);
    EmptyRing(s.a.tx, fs);
    EndQueue(s.a.(timer := Off), fs);
    StartAims(s.a.(timer := Off));
    hide Step, Get, Kept, Queue, Inside, StartTx, EndTx;
    Next(s, 0, order, at);
    OnlyA(s);
  }

  /** The first bit of the frame is next. */
  predicate AtFirst(a: Station) { a.tx.bi == 8 && a.tx.oix == 0 }

  /** Nothing is left to send after a frame that went by. */
  lemma DeafEnd(s: Bus, b0: Station, order: Choices, at: nat)
    requires Deaf(s) && FrameOut(s.a, []) && NothingNew(s.b, b0)
    ensures var r := Run(s, 1, order, at); Quiet(r) && NothingNew(r.b, b0)
  {
    EmptyRing(s.a.tx, []);
    hide Step, Get, Kept, Queue;
    Next(s, 0, order, at);
    OnlyA(s);
  }

  /** The line is high, both stations are idle and `a` has nothing to send. */
  predicate Quiet(s: Bus)
  {
    && s.a.mode == Idle && s.b.mode == Idle && s.a.tx.inn == s.a.tx.out && Level(s)
    && s.a.timer == Off && s.b.timer == Off
  }

  lemma StaysQuiet(s: Bus, order: Choices, at: nat)
    requires Quiet(s)
    ensures Run(s, 1, order, at) == s
  {
    Next(s, 0, order, at);
  }

  // ----- One frame, whatever is written behind it

  /** A frame that the receiver follows from its start bit on; when it fits, all of it is in the ring and only
      its length is missing. */
  lemma HeardFrame(s: Bus, b0: Station, fs: seq<seq<nat>>, order: Choices, at: nat) returns (n: nat)
    requires Starting(s) && OnAir(s.a, fs) && AtFirst(s.a) && Frames(fs) && NothingNew(s.b, b0)
    ensures var r := Run(s, n, order, at);
      && Gap(r) && r.b.mode == RxData1 && FrameOut(r.a, fs[1..]) && NothingNew(r.b, b0)
      && (Room(b0.rx, |fs[0]|) ==> Over(r, s.b.rx, s.b.tx, fs[0]))
    ensures n >= 1 && AllBusy(s, n, order, at)
  {
    hide *;
    HeardStart(s, b0, fs, order, at);
    var m := HeardRest(s, Run(s, 5, order, at), b0, fs, order, at + 5);
    RunSplit(s, 5, m, order, at);
    BusySplit(s, 5, m, order, at);
    n := 5 + m;
  }

  lemma HeardRest(s: Bus, s1: Bus, b0: Station, fs: seq<seq<nat>>, order: Choices, at: nat) returns (n: nat)
    requires OnAir(s.a, fs) && AtFirst(s.a) && Frames(fs) && NothingNew(s.b, b0)
    requires Gap(s1) && OnAir(s1.a, fs) && NothingNew(s1.b, b0) && s1.a.tx == s.a.tx && s1.b.tx == s.b.tx
    requires s1.b.rx == s.b.rx.(cnt := 4, bi := 8, byte := 0) && s.b.rx.len == 0
    ensures var r := Run(s1, n, order, at);
      && Gap(r) && r.b.mode == RxData1 && FrameOut(r.a, fs[1..]) && NothingNew(r.b, b0)
      && (Room(b0.rx, |fs[0]|) ==> Over(r, s.b.rx, s.b.tx, fs[0]))
    ensures n >= 1 && AllBusy(s1, n, order, at)
  {
    HasBits(s.a, fs);
    hide *;
    if Room(b0.rx, |fs[0]|) {
      FirstBits(s, s1, b0, fs);
      n := Bits(s1, s.b.rx, s.b.tx, fs[0], 0, 8, order, at);
      SomeCells(fs[0]);
      AllOver(s1.a, Run(s1, n, order, at), s.b, b0, fs);
    } else {
      n := HeardBits(s1, b0, fs, order, at);
    }
  }

  lemma SomeCells(f: seq<nat>)
    requires |f| > 0
    ensures Cells(f, 0, 8) >= 1
  {}

  lemma HeardStart(s: Bus, b0: Station, fs: seq<seq<nat>>, order: Choices, at: nat)
    requires Starting(s) && OnAir(s.a, fs) && Frames(fs) && NothingNew(s.b, b0)
    ensures var r := Run(s, 5, order, at);
      && Gap(r) && OnAir(r.a, fs) && NothingNew(r.b, b0) && r.a.tx == s.a.tx && r.b.tx == s.b.tx
      && r.b.rx == s.b.rx.(cnt := 4, bi := 8, byte := 0) && s.b.rx.len == 0
    ensures AllBusy(s, 5, order, at)
  {
    HasBits(s.a, fs);
    StartIsBusy(s.a);
    hide Run, Queue, Inside, Kept, AllBusy, Busy, HasHead;
    StartBit(s, order, at);
  }

  lemma FirstBits(s: Bus, s1: Bus, b0: Station, fs: seq<seq<nat>>)
    requires OnAir(s.a, fs) && AtFirst(s.a) && Frames(fs) && NothingNew(s.b, b0) && Room(b0.rx, |fs[0]|)
    requires Gap(s1) && s1.a.tx == s.a.tx && s1.b.tx == s.b.tx && s1.b.rx == s.b.rx.(cnt := 4, bi := 8, byte := 0) && s.b.rx.len == 0
    ensures Underway(s1, s.b.rx, s.b.tx, fs[0], 0, 8) && Room(s.b.rx, |fs[0]|) && Frame(fs[0]) && HasHead(s1.a.tx)
  {
    HasBits(s.a, fs);
    assert Frame(fs[0]);
    SendingFrame(s.a, fs);
    ReceivingNone(s1.b.rx, s.b.rx, fs[0]);
    hide Gap, Sending, Receiving, HasHead, OnAir, Frame, Kept;
  }

  lemma SendingFrame(a: Station, fs: seq<seq<nat>>)
    requires OnAir(a, fs) && AtFirst(a) && Frame(fs[0])
    ensures Sending(a.tx, fs[0], 0, 8)
  {
    assert Total(fs) == 1 + |fs[0]| + Total(fs[1..]);
    hide Get, ToGo, Lies;
  }

  lemma ReceivingNone(r: Rx, r0: Rx, f: seq<nat>)
    requires Frame(f) && |r0.buf| == SIZE && r == r0.(cnt := 4, bi := 8, byte := 0) && r0.len == 0
    ensures Receiving(r.(cnt := 0), r0, f, 0, 8)
  {
    PrefixStep(f[0], 8);
  }

  /** The whole frame has gone over. */
  lemma AllOver(a: Station, r: Bus, b: Station, b0: Station, fs: seq<seq<nat>>)
    requires OnAir(a, fs) && NothingNew(b, b0) && Over(r, b.rx, b.tx, fs[0])
    requires r.a.tx.inn == a.tx.inn && r.a.tx.out == a.tx.out + |fs[0]| + 1 && r.a.tx.buf == a.tx.buf
    ensures Gap(r) && r.b.mode == RxData1 && FrameOut(r.a, fs[1..]) && NothingNew(r.b, b0)
  {
    assert Total(fs) == 1 + |fs[0]| + Total(fs[1..]);
    hide Get, Lies, Total, ToGo, Gap;
    forall k | b0.rx.out <= k < b0.rx.inn ensures Get(r.b.rx.buf, k) == Get(b0.rx.buf, k) {
      assert Get(r.b.rx.buf, k) == Get(b.rx.buf, k);
    }
  }

  lemma DeliveredSince(b: Station, b1: Station, b0: Station, f: seq<nat>)
    requires Delivered(b, b1, f) && NothingNew(b1, b0)
    ensures Delivered(b, b0, f)
  {
    forall k | b0.rx.out <= k < b0.rx.inn ensures Get(b.rx.buf, k) == Get(b0.rx.buf, k) {
      assert Get(b.rx.buf, k) == Get(b1.rx.buf, k);
    }
    hide Get, Lies;
  }

  /** Between two frames: the receiver still waits for a bit of the last one, or has not followed it. */
  predicate Between(s: Bus, b0: Station, fs: seq<seq<nat>>, heard: bool)
  {
    && (if heard then Gap(s) && s.b.mode == RxData1 else Deaf(s))
    && FrameOut(s.a, fs) && NothingNew(s.b, b0) && Transmitting(s.a.mode)
  }

  /** A frame is about to go out, and the receiver hears its start bit or is inside the frame before. */
  predicate Begins(s: Bus, b0: Station, fs: seq<seq<nat>>, heard: bool)
  {
    && (if heard then Starting(s) && AtFirst(s.a) else Misheard(s))
    && OnAir(s.a, fs) && Frames(fs) && NothingNew(s.b, b0)
  }

  lemma OneFrame(s: Bus, b0: Station, fs: seq<seq<nat>>, heard: bool, order: Choices, at: nat) returns (n: nat)
    requires Begins(s, b0, fs, heard)
    ensures Between(Run(s, n, order, at), b0, fs[1..], heard)
    ensures heard && Room(b0.rx, |fs[0]|) ==> Over(Run(s, n, order, at), s.b.rx, s.b.tx, fs[0])
    ensures n >= 1 && AllBusy(s, n, order, at)
  {
    hide Run, OnAir, AtFirst, Misheard, Starting, FrameOut, NothingNew, AllBusy, Room, Over, Frames;
    if heard { n := HeardFrame(s, b0, fs, order, at); } else { n := LostInside(s, b0, fs, order, at); }
  }

  /** Writes change nothing but the queue. */
  lemma BetweenGrown(s2: Bus, s: Bus, b0: Station, fs: seq<seq<nat>>, gs: seq<seq<nat>>, heard: bool)
    requires Between(s, b0, fs, heard) && Grown(s2, s, gs)
    ensures Between(s2, b0, fs + gs, heard)
  {
    ExtendedQueue(s2.a.tx, s.a.tx, fs, gs);
    assert s2.a.tx.bi == s.a.tx.bi by { hide Queue, Kept, LieAll; }
    hide Queue, Extended, NothingNew, Receiving;
  }

  lemma OverGrown(s2: Bus, s: Bus, gs: seq<seq<nat>>, r0: Rx, tx: Tx, f: seq<nat>)
    requires Grown(s2, s, gs) && Over(s, r0, tx, f)
    ensures Over(s2, r0, tx, f)
  {
    hide Receiving, Kept, LieAll;
  }

  lemma QueueFits(a: Station, fs: seq<seq<nat>>)
    requires OnAir(a, fs)
    ensures |a.tx.buf| == SIZE && a.tx.out <= a.tx.inn <= a.tx.out + SIZE
  {}

  lemma QueueShort(a: Station, fs: seq<seq<nat>>)
    requires FrameOut(a, fs)
    ensures |a.tx.buf| == SIZE && a.tx.out <= a.tx.inn <= a.tx.out + SIZE
    ensures a.tx.inn == a.tx.out <==> fs == []
    ensures a.tx.bi == 0
  {}

  /** The frames that are left behind the first one, with those that were written meanwhile. */
  function Behind(fs: seq<seq<nat>>, gs: seq<seq<nat>>): seq<seq<nat>>
    requires fs != []
  {
    fs[1..] + gs
  }

  /** The sender is at the end of its frame, with `fs` behind it, and the receiver has the frame if it was heard
      and fits. */
  predicate AtEnd(s2: Bus, s: Bus, b0: Station, f: seq<nat>, fs: seq<seq<nat>>, heard: bool)
  {
    Between(s2, b0, fs, heard) && (heard && Room(b0.rx, |f|) ==> Over(s2, s.b.rx, s.b.tx, f))
  }

  lemma AtEndGrown(s2: Bus, s1: Bus, s: Bus, b0: Station, f: seq<nat>, fs: seq<seq<nat>>, gs: seq<seq<nat>>, heard: bool)
    requires AtEnd(s1, s, b0, f, fs, heard) && Grown(s2, s1, gs)
    ensures AtEnd(s2, s, b0, f, fs + gs, heard)
  {
    BetweenGrown(s2, s1, b0, fs, gs, heard);
    if heard && Room(b0.rx, |f|) { OverGrown(s2, s1, gs, s.b.rx, s.b.tx, f); }
    hide Between, Grown, Room, Over;
  }

  /** The frame goes out while more are written behind it. */
  lemma FrameGrown(s: Bus, b0: Station, fs: seq<seq<nat>>, heard: bool, order: Choices, at: nat, ws: Writes)
    returns (n: nat, s1: Bus)
    requires Begins(s, b0, fs, heard) && AllFrames(ws) && fs != []
    ensures n >= 1 && AtEnd(s1, s, b0, fs[0], fs[1..], heard) && Transmitting(s1.a.mode)
    ensures OnLine(s, n, order, at, ws) && Grown(RunW(s, n, order, at, ws), s1, TakenIn(s, n, order, at, ws))
  {
    BeginsFacts(s, b0, fs, heard);
    hide *;
    n := OneFrame(s, b0, fs, heard, order, at);
    s1 := Run(s, n, order, at);
    RunGrown(s, n, order, at, ws);
    OnAirEnd(s1, b0, fs[1..], heard);
    IsAtEnd(s1, s, b0, fs[0], fs[1..], heard);
  }

  lemma IsAtEnd(s2: Bus, s: Bus, b0: Station, f: seq<nat>, fs: seq<seq<nat>>, heard: bool)
    requires Between(s2, b0, fs, heard) && (heard && Room(b0.rx, |f|) ==> Over(s2, s.b.rx, s.b.tx, f))
    ensures AtEnd(s2, s, b0, f, fs, heard)
  {
    hide Between, Room, Over;
  }

  /** Up to the end of the frame, the writes before its last step included. */
  lemma FrameAndWrites(s: Bus, b0: Station, fs: seq<seq<nat>>, heard: bool, order: Choices, at: nat, ws: Writes)
    returns (n: nat, s2: Bus, gs: seq<seq<nat>>)
    requires Begins(s, b0, fs, heard) && AllFrames(ws) && fs != []
    ensures AtEnd(s2, s, b0, fs[0], Behind(fs, gs), heard) && Frames(gs)
    ensures TakenIn(s, n + 1, order, at, ws) == gs && OnLine(s, n + 1, order, at, ws)
    ensures RunW(s, n + 1, order, at, ws) == Step(s2, Pick(order, at + n))
  {
    hide *;
    var s1;
    n, s1 := FrameGrown(s, b0, fs, heard, order, at, ws);
    var r, w, fs2 := RunW(s, n, order, at, ws), WrittenAt(ws, at + n), TakenIn(s, n, order, at, ws);
    gs, s2 := TakenIn(s, n + 1, order, at, ws), WriteAll(r, w);
    TakenInFrames(s, n + 1, order, at, ws);
    WrittenFrames(ws, at + n);
    NextW(s, n, order, at, ws);
    GrownMode(r, s1, fs2);
    WritesGrown(r, s1, fs2, w);
    AtEndGrown(s2, s1, s, b0, fs[0], fs[1..], gs, heard);
    BehindIs(fs, gs);
  }

  lemma BehindIs(fs: seq<seq<nat>>, gs: seq<seq<nat>>)
    requires fs != []
    ensures Behind(fs, gs) == fs[1..] + gs && (gs == [] ==> |Behind(fs, gs)| < |fs|)
  {}

  lemma WrittenFrames(ws: Writes, at: nat)
    requires AllFrames(ws)
    ensures Frames(WrittenAt(ws, at))
  {}

  lemma NextW(s: Bus, n: nat, order: Choices, at: nat, ws: Writes)
    ensures var r, w := RunW(s, n, order, at, ws), WrittenAt(ws, at + n);
      && RunW(s, n + 1, order, at, ws) == Step(WriteAll(r, w), Pick(order, at + n))
      && TakenIn(s, n + 1, order, at, ws) == TakenIn(s, n, order, at, ws) + Taken(r, w)
      && (OnLine(s, n, order, at, ws) && Transmitting(r.a.mode) ==> OnLine(s, n + 1, order, at, ws))
  {
    hide Step, WriteAll, Taken, Pick, Transmitting;
  }

  lemma OnAirEnd(s: Bus, b0: Station, fs: seq<seq<nat>>, heard: bool)
    requires Between(s, b0, fs, heard)
    ensures Transmitting(s.a.mode)
  {}

  lemma GrownMode(s2: Bus, s: Bus, gs: seq<seq<nat>>)
    requires Grown(s2, s, gs)
    ensures s2.a.mode == s.a.mode
  {}

  lemma JoinFrames(fs: seq<seq<nat>>, gs: seq<seq<nat>>)
    requires fs != [] && Frames(fs) && Frames(gs)
    ensures Frames(Behind(fs, gs))
  {}

  // ----- Bursts

  /** What has become of the frames `all` when the sender is idle again: the last of them has been delivered, if
      it was heard and fits, and otherwise nothing. The receiver hears every other frame. */
  predicate Gained(r: Bus, b0: Station, all: seq<seq<nat>>, heard: bool)
    requires all != []
  {
    if (|all| % 2 == 1) == heard then
      Room(b0.rx, |all[|all| - 1]|) ==> Delivered(r.b, b0, all[|all| - 1]) && Settled(r, b0)
    else Quiet(r) && NothingNew(r.b, b0)
  }

  /** The line one step after the sender has become idle. */
  function End(s: Bus, n: nat, order: Choices, at: nat, ws: Writes): Bus
  {
    Run(RunW(s, n, order, at, ws), 1, order, at + n)
  }

  /** Nothing was written behind the last frame. */
  lemma LastFrame(s: Bus, s2: Bus, b0: Station, f: seq<nat>, heard: bool, order: Choices, at: nat)
    requires AtEnd(s2, s, b0, f, [], heard) && NothingNew(s.b, b0) && Frame(f)
    ensures var r := Run(s2, 1, order, at); r.a.mode == Idle && Gained(Run(r, 1, order, at + 1), b0, [f], heard)
  {
    QueueShort(s2.a, []);
    var r := Run(s2, 1, order, at);
    if heard {
      hide Run, Gap, FrameOut, Over, Kept, Delivered, Settled;
      Stops(s2, order, at);
      if Room(b0.rx, |f|) {
        Finish(s2, r, s.b, f, order, at + 1);
        DeliveredSince(Run(r, 1, order, at + 1).b, s.b, b0, f);
        SettledSince(Run(r, 1, order, at + 1), s.b, b0);
      }
    } else {
      hide Run, FrameOut, Deaf, NothingNew;
      DeafEnd(s2, b0, order, at);
      StaysQuiet(r, order, at + 1);
    }
  }

  lemma SettledSince(s: Bus, b1: Station, b0: Station)
    requires Settled(s, b1) && b1.tx == b0.tx
    ensures Settled(s, b0)
  {}

  /** The next frame begins. */
  lemma NextFrame(s: Bus, b0: Station, fs: seq<seq<nat>>, heard: bool, order: Choices, at: nat)
    requires Between(s, b0, fs, heard) && fs != [] && Frames(fs)
    ensures Begins(Run(s, 1, order, at), b0, fs, !heard)
  {
    hide Run, OnAir, FrameOut, AtFirst, NothingNew, Misheard, Starting, Gap, Deaf, Frames;
    if heard {
      NextEdge(s, fs, order, at);
      SinceEdge(s.b, Run(s, 1, order, at).b, b0);
    } else {
      HeardAgain(s, b0, fs, order, at);
    }
  }

  lemma SinceEdge(b: Station, b1: Station, b0: Station)
    requires NothingNew(b, b0) && b1 == b.(mode := RxData0, pin := 0, timer := In(300), rx := b.rx.(cnt := 0))
    ensures NothingNew(b1, b0)
  {}

  function Ahead(ws: Writes, at: nat): nat { if at < |ws| then |ws| - at else 0 }

  /** How it ends when the frames `fs` are still to go out and `gs` are written on the way. */
  predicate Outcome(s: Bus, b0: Station, fs: seq<seq<nat>>, heard: bool, n: nat, order: Choices, at: nat, ws: Writes)
  {
    && n >= 1 && OnLine(s, n, order, at, ws) && RunW(s, n, order, at, ws).a.mode == Idle
    && fs + TakenIn(s, n, order, at, ws) != [] && Gained(End(s, n, order, at, ws), b0, fs + TakenIn(s, n, order, at, ws), heard)
  }

  /** From the start of any frame on, whatever is written while the sender is transmitting. */
  lemma {:induction false} FromFrame(s: Bus, b0: Station, fs: seq<seq<nat>>, heard: bool, order: Choices, at: nat, ws: Writes)
    returns (n: nat)
    requires Begins(s, b0, fs, heard) && AllFrames(ws)
    ensures Outcome(s, b0, fs, heard, n, order, at, ws)
    decreases Ahead(ws, at), |fs|
  {
    hide *;
    BeginsFacts(s, b0, fs, heard);
    var k, s2, gs := FrameAndWrites(s, b0, fs, heard, order, at, ws);
    if Behind(fs, gs) == [] {
      n := k + 1;
      LastOutcome(s, s2, b0, fs, gs, heard, k, order, at, ws);
    } else {
      Following(s2, s, b0, fs, gs, heard, order, at + k);
      Fewer(s, fs, gs, k, order, at, ws);
      var m := FromFrame(RunW(s, k + 1, order, at, ws), b0, Behind(fs, gs), !heard, order, at + (k + 1), ws);
      MoreOutcome(s, b0, fs, gs, heard, k + 1, m, order, at, ws);
      n := k + 1 + m;
    }
  }

  lemma Following(s2: Bus, s: Bus, b0: Station, fs: seq<seq<nat>>, gs: seq<seq<nat>>, heard: bool, order: Choices, at: nat)
    requires fs != [] && AtEnd(s2, s, b0, fs[0], Behind(fs, gs), heard) && Frames(fs) && Frames(gs) && Behind(fs, gs) != []
    ensures Begins(Step(s2, Pick(order, at)), b0, Behind(fs, gs), !heard)
  {
    assert Between(s2, b0, Behind(fs, gs), heard);
    hide *;
    JoinFrames(fs, gs);
    Next(s2, 0, order, at);
    NextFrame(s2, b0, Behind(fs, gs), heard, order, at);
  }

  lemma LastOutcome(s: Bus, s2: Bus, b0: Station, fs: seq<seq<nat>>, gs: seq<seq<nat>>, heard: bool, k: nat, order: Choices, at: nat, ws: Writes)
    requires fs != [] && Behind(fs, gs) == [] && AtEnd(s2, s, b0, fs[0], [], heard) && NothingNew(s.b, b0) && Frame(fs[0])
    requires TakenIn(s, k + 1, order, at, ws) == gs && OnLine(s, k + 1, order, at, ws)
    requires RunW(s, k + 1, order, at, ws) == Step(s2, Pick(order, at + k))
    ensures Outcome(s, b0, fs, heard, k + 1, order, at, ws)
  {
    hide *;
    Next(s2, 0, order, at + k);
    OnlyOne(fs, gs);
    LastFrame(s, s2, b0, fs[0], heard, order, at + k);
    ToOutcome(s, Run(s2, 1, order, at + k), b0, fs, [fs[0]], heard, k + 1, order, at, ws);
  }

  lemma ToOutcome(s: Bus, r: Bus, b0: Station, fs: seq<seq<nat>>, all: seq<seq<nat>>, heard: bool, n: nat, order: Choices, at: nat, ws: Writes)
    requires all != [] && all == fs + TakenIn(s, n, order, at, ws) && Gained(Run(r, 1, order, at + n), b0, all, heard)
    requires n >= 1 && OnLine(s, n, order, at, ws) && r == RunW(s, n, order, at, ws) && r.a.mode == Idle
    ensures Outcome(s, b0, fs, heard, n, order, at, ws)
  {
    hide TakenIn, OnLine, RunW, Run, Gained;
  }

  lemma OnlyOne(fs: seq<seq<nat>>, gs: seq<seq<nat>>)
    requires fs != [] && Behind(fs, gs) == []
    ensures fs + gs == [fs[0]]
  {
    assert |fs[1..] + gs| == 0;
    assert fs[1..] == [] && gs == [];
  }

  lemma MoreOutcome(s: Bus, b0: Station, fs: seq<seq<nat>>, gs: seq<seq<nat>>, heard: bool, k: nat, m: nat, order: Choices, at: nat, ws: Writes)
    requires fs != [] && TakenIn(s, k, order, at, ws) == gs && OnLine(s, k, order, at, ws)
    requires Outcome(RunW(s, k, order, at, ws), b0, Behind(fs, gs), !heard, m, order, at + k, ws)
    ensures Outcome(s, b0, fs, heard, k + m, order, at, ws)
  {
    var s3 := RunW(s, k, order, at, ws);
    RunWSplit(s, k, m, order, at, ws);
    OneMore(End(s3, m, order, at + k, ws), b0, fs, gs, TakenIn(s3, m, order, at + k, ws), heard);
    hide TakenIn, OnLine, RunW, Gained, Run;
  }

  /** Nothing more is written from some step on, and then the frames get fewer. */
  lemma Fewer(s: Bus, fs: seq<seq<nat>>, gs: seq<seq<nat>>, k: nat, order: Choices, at: nat, ws: Writes)
    requires fs != [] && gs == TakenIn(s, k + 1, order, at, ws)
    ensures Ahead(ws, at + (k + 1)) < Ahead(ws, at) || (Ahead(ws, at + (k + 1)) == Ahead(ws, at) && |Behind(fs, gs)| < |fs|)
  {
    hide TakenIn;
    if at >= |ws| { NothingTaken(s, k + 1, order, at, ws); }
  }

  lemma BeginsFacts(s: Bus, b0: Station, fs: seq<seq<nat>>, heard: bool)
    requires Begins(s, b0, fs, heard)
    ensures fs != [] && Frame(fs[0]) && Frames(fs) && NothingNew(s.b, b0)
    ensures |s.a.tx.buf| == SIZE && s.a.tx.out <= s.a.tx.inn <= s.a.tx.out + SIZE
  {
    QueueFits(s.a, fs);
    hide Frame, NothingNew, OnAir;
  }

  lemma OneMore(r: Bus, b0: Station, fs: seq<seq<nat>>, gs: seq<seq<nat>>, hs: seq<seq<nat>>, heard: bool)
    requires fs != [] && Behind(fs, gs) + hs != [] && Gained(r, b0, Behind(fs, gs) + hs, !heard)
    ensures Gained(r, b0, fs + (gs + hs), heard)
  {
    assert fs + (gs + hs) == [fs[0]] + (Behind(fs, gs) + hs);
    hide Room, Delivered, Settled, Quiet, NothingNew;
  }

  /** A burst: frames are written in any number, at any steps at which the sender is transmitting, behind one
      that was written on an idle line. An odd number of them delivers the last one and nothing else, an even
      number delivers nothing. */
  lemma Burst(s: Bus, f: seq<nat>, order: Choices, at: nat, ws: Writes) returns (n: nat)
    requires CanSend(s.a) && CanReceive(s.b) && Frame(f) && AllFrames(ws)
    ensures var s0 := Begin(s, f);
      && n >= 1 && OnLine(s0, n, order, at, ws) && RunW(s0, n, order, at, ws).a.mode == Idle
      && Gained(End(s0, n, order, at, ws), s.b, [f] + TakenIn(s0, n, order, at, ws), true)
  {
    BurstBegins(s, f);
    n := FromFrame(Begin(s, f), s.b, [f], true, order, at, ws);
    hide Begin, OnLine, RunW, Gained, Run, TakenIn;
  }

  lemma BurstBegins(s: Bus, f: seq<nat>)
    requires CanSend(s.a) && CanReceive(s.b) && Frame(f)
    ensures Begins(Begin(s, f), s.b, [f], true)
  {
    BeginStarts(s, f);
    WrittenOnAir(s.a, f);
    hide Loaded, Begin, Frame, OnAir;
  }

  lemma WrittenOnAir(a: Station, f: seq<nat>)
    requires CanSend(a) && Frame(f)
    ensures OnAir(Loaded(a, f).(mode := TxInit0, timer := In(START), sink := true), [f])
    ensures AtFirst(Loaded(a, f).(mode := TxInit0, timer := In(START), sink := true))
  {
    assert Queue(a.tx, []);
    WriteQueue(a.tx, [], f);
    assert [] + [f] == [f];
    var buf := PutAll(Put(a.tx.buf, a.tx.inn, |f|), a.tx.inn + 1, f);
    var w := a.(tx := a.tx.(buf := buf, inn := a.tx.inn + 1 + |f|));
    StartInside(w, [f]);
    hide Queue, PutAll, Put, ToGo, Get;
  }

  // ----- A receiver with frames of its own

  /** The same line seen from the other end. */
  function Mirror(s: Bus): Bus { Bus(s.b, s.a) }

  /** It makes the same steps. */
  lemma MirrorStep(s: Bus, bFirst: bool)
    ensures Step(Mirror(s), bFirst) == Mirror(Step(s, !bFirst))
  {
    hide Timeout, PinIrq;
  }

  /** A receiver that has frames of its own waiting takes the frame of the other station, and then sends them:
      what they bring to the other station is what any burst brings. */
  lemma Reply(s: Bus, f: seq<nat>, qs: seq<seq<nat>>, order: Choices, at: nat, order2: Choices, at2: nat, ws: Writes)
    returns (n: nat, m: nat)
    requires CanSend(s.a) && CanReceive(s.b) && Frame(f) && Room(s.b.rx, |f|) && |s.a.rx.buf| == SIZE
    requires Queue(s.b.tx, qs) && qs != [] && Frames(qs) && AllFrames(ws)
    ensures var r := Run(Begin(s, f), n, order, at);
      && Delivered(r.b, s.b, f) && r.a.rx == s.a.rx.(cnt := r.a.rx.cnt, len := r.a.rx.len)
      && Outcome(Mirror(r), r.a, qs, true, m, order2, at2, ws)
  {
    hide *;
    n := Loopback(s, f, order, at);
    var r := Run(Begin(s, f), n, order, at);
    ReplyBegins(r, s, qs);
    m := FromFrame(Mirror(r), r.a, qs, true, order2, at2, ws);
  }

  lemma ReplyBegins(r: Bus, s: Bus, qs: seq<seq<nat>>)
    requires Settled(r, s.b) && Queue(s.b.tx, qs) && qs != [] && Frames(qs)
    requires |s.a.rx.buf| == SIZE && r.a.rx == s.a.rx.(cnt := r.a.rx.cnt, len := r.a.rx.len)
    ensures Begins(Mirror(r), r.a, qs, true)
  {
    EmptyRing(s.b.tx, qs);
    StartInside(s.b, qs);
    hide Queue, Frame, Get, ToGo;
  }

  function Fresh(): Station
  {
    Station(Idle, Rx(0, 0, 0, 0, 0, 0, seq(SIZE, _ => 0)), Tx(0, 0, 0, 0, 0, 0, seq(SIZE, _ => 0)), Off, false, true, 2)
  }

  /** Two frames written behind each other on stations that have just been started: the receiver's ring
      is still empty when both are sent. */
  lemma TwoLost(x: seq<nat>, y: seq<nat>, order: Choices) returns (n: nat)
    requires Frame(x) && Frame(y) && |x| + |y| + 2 <= SIZE
    ensures var s0 := Begin(Bus(Fresh(), Fresh()), x);
      TakenIn(s0, n, order, 0, [[y]]) == [y] && Quiet(End(s0, n, order, 0, [[y]])) && Read(End(s0, n, order, 0, [[y]]).b, SIZE).1 == Empty
  {
    var s := Bus(Fresh(), Fresh());
    n := Burst(s, x, order, 0, [[y]]);
    BothTaken(s, x, y, n, order);
    var r := End(Begin(s, x), n, order, 0, [[y]]);
    hide *;
    NoneOfTwo(r, Fresh(), x, y);
    FreshEmpty(r.b);
  }

  lemma NoneOfTwo(r: Bus, b0: Station, x: seq<nat>, y: seq<nat>)
    requires Gained(r, b0, [x] + [y], true)
    ensures Quiet(r) && NothingNew(r.b, b0)
  {
    hide Quiet, NothingNew, Room, Delivered, Settled;
  }

  lemma FreshEmpty(b: Station)
    requires NothingNew(b, Fresh())
    ensures Read(b, SIZE).1 == Empty
  {
    hide Kept;
  }

  lemma BothTaken(s: Bus, x: seq<nat>, y: seq<nat>, n: nat, order: Choices)
    requires CanSend(s.a) && CanReceive(s.b) && Frame(x) && Frame(y) && |x| + |y| + 2 <= SIZE && n >= 1
    ensures TakenIn(Begin(s, x), n, order, 0, [[y]]) == [y]
  {
    BeginStarts(s, x);
    LoadedSending(s.a, x);
    hide Begin, Loaded, Starting, Sending, Step;
    var s0 := Begin(s, x);
    RunWSplit(s0, 1, n - 1, order, 0, [[y]]);
    NothingTaken(RunW(s0, 1, order, 0, [[y]]), n - 1, order, 1, [[y]]);
    assert [[y]][0] == [y] && [y][..0] == [];
    assert TakenIn(s0, 0, order, 0, [[y]]) == [];
    assert TakenIn(s0, 1, order, 0, [[y]]) == Taken(s0, [y]);
  }
}
