/** What one CEC station sends, another receives: bit cells make bytes, bytes with their end-of-
    message and acknowledge cells make the frame that the receiver's ring holds at the end. */
module CecLoopback {
  import opened CecModel
  import opened CecBus
  import opened ShiftBits

  // ----- Bytes

  predicate AtGap(s: Bus)
  {
    && s.a.timer.In? && s.b.timer.In? && s.b.timer.usec > s.a.timer.usec
    && Gap(s, s.a.timer.usec, s.b.timer.usec - s.a.timer.usec)
  }

  /** The receiver when the last bit of byte `v` is in. */
  function ByteIn(b: Station, v: nat): Station
  {
    var (m, r) := GotByte(b.rx.(tmp := v, rbi := 0), b.mode, b.ackMask, b.promisc);
    Arm(b.(mode := m, rx := r), REC_PLB_N, 1000)
  }

  /** `n` cells move the low `n` bits of byte `c` over. */
  lemma {:induction false} Cells(s: Bus, c: nat, n: nat, order: Choices, at: nat)
    requires AtGap(s) && 1 <= n <= 8 && c < 256
    requires s.a.tx.bi == n && s.b.rx.rbi == n && s.a.tx.byteOut == ToGo(c, n) && Value(s.b.rx.tmp, c, n) < WRAP
    ensures Run(s, 4 * n, order, at) ==
      Bus(s.a.(tx := s.a.tx.(bi := 0, byteOut := ToGo(c, 0)), timer := In(600)), ByteIn(s.b, Value(s.b.rx.tmp, c, n)))
    decreases n
  {
    hide Step, Run, GotByte, ToGo, Value, Bit;
    DataCell(s, s.a.timer.usec, s.b.timer.usec - s.a.timer.usec, order, at);
    RunSplit(s, 4, 4 * (n - 1), order, at);
    TopIsBit(c, n);
    ValueStep(s.b.rx.tmp, c, n);
    ValueBound(2 * s.b.rx.tmp + Bit(c, n), c, n - 1);
    if n == 1 {
      RunNone(Run(s, 4, order, at), order, at + 4);
    } else {
      Cells(Run(s, 4, order, at), c, n - 1, order, at + 4);
    }
  }

  lemma RunNone(s: Bus, order: Choices, at: nat)
    ensures Run(s, 0, order, at) == s
  {
  }

  lemma ValueBound(tmp: nat, c: nat, n: nat)
    requires n <= 8
    ensures tmp <= Value(tmp, c, n)
    ensures n == 0 ==> Value(tmp, c, 0) == tmp
  {
    var p := P2(n);
    assert tmp * p >= tmp;
  }

  // ----- Frames

  predicate Message(data: seq<nat>)
  {
    1 <= |data| <= 16 && forall i :: 0 <= i < |data| ==> data[i] < 256
  }

  predicate RingShape(ring: seq<seq<nat>>)
  {
    |ring| == RXB_LINES && forall l :: 0 <= l < |ring| ==> |ring[l]| == 17
  }

  /** Ring line `line` holds the first `n` bytes of `data`; the other lines are those of `ring0`. */
  predicate Holds(ring: seq<seq<nat>>, ring0: seq<seq<nat>>, line: nat, data: seq<nat>, n: nat)
  {
    && RingShape(ring) && RingShape(ring0) && line < RXB_LINES && n <= |data| <= 16
    && (forall l :: 0 <= l < RXB_LINES && l != line ==> ring[l] == ring0[l])
    && (forall i :: 0 <= i < n ==> ring[line][i + 1] == data[i])
  }

  lemma StoreByte(ring: seq<seq<nat>>, ring0: seq<seq<nat>>, line: nat, data: seq<nat>, n: nat)
    requires Holds(ring, ring0, line, data, n) && n < |data|
    ensures Holds(PutRing(ring, line, n + 1, data[n]), ring0, line, data, n + 1)
  {
  }

  /** The sender is on byte `j`, with `bits` of it to go; the message is loaded and nothing failed. */
  predicate Sending(a: Station, data: seq<nat>, j: nat, bits: nat)
  {
    && j < |data| <= 16 && a.tx.oix == j && a.tx.olen == |data| && a.tx.bi == bits
    && |a.tx.buf| == 16 && a.tx.buf[..|data|] == data
    && !a.tx.flags.noAck && (a.tx.flags.checkAck <==> data[0] % 16 != 15) && (a.tx.flags.checkNack <==> data[0] % 16 == 15)
  }

  /** How a receiver takes the frame: it acknowledges what is sent to one of its addresses and listens to the rest. */
  function Answer(b0: Station, data: seq<nat>): Mode
    requires |data| > 0
  {
    if data[0] % 16 != 15 && data[0] % 16 in b0.ackMask then RecA else RecP
  }

  /** The receiver has `n` bytes of the frame and accepts it. */
  predicate Accepting(b: Station, b0: Station, data: seq<nat>, n: nat)
  {
    && 1 <= n <= |data| <= 16 && b.mode == Answer(b0, data) && b.rx.ix == n && !b.rx.flags.eom
    && Wanted(b.rx, b.promisc) && b.rx.inn == b0.rx.inn && b.rx.out == b0.rx.out
    && Holds(b.rx.ring, b0.rx.ring, b0.rx.inn % RXB_LINES, data, n)
  }

  /** All bits of byte `j` are over. */
  predicate ByteOver(s: Bus, b0: Station, data: seq<nat>, j: nat)
  {
    AtGap(s) && Sending(s.a, data, j, 0) && s.b.rx.rbi == 0 && s.b.rx.tmp < 256 && Accepting(s.b, b0, data, j + 1)
    && (Answer(b0, data) == RecP ==> data[0] % 16 == 15)
  }

  /** Byte `j`, not the first, is about to begin. */
  predicate ByteNext(s: Bus, b0: Station, data: seq<nat>, j: nat)
  {
    && AtGap(s) && Sending(s.a, data, j, 8) && s.a.tx.byteOut == data[j]
    && s.b.rx.rbi == 8 && s.b.rx.tmp < 256 && Accepting(s.b, b0, data, j)
    && (Answer(b0, data) == RecP ==> data[0] % 16 == 15)
  }

  /** The last byte is acknowledged: the frame is in the ring and the sender has seen no failure. */
  predicate Finished(s: Bus, b0: Station, data: seq<nat>)
  {
    && |data| > 0 && s.a.mode == Tx && s.a.sub == TX_DONE && !s.a.sink && !s.a.irq && s.a.timer.In? && 0 < s.a.timer.usec < 1000
    && s.a.tx.oix == s.a.tx.olen == |data| && !s.a.tx.flags.noAck && (s.a.tx.flags.checkAck || s.a.tx.flags.checkNack)
    && s.b.mode == TxGuard && !s.b.sink && s.b.irq && s.b.pin == 1 && s.b.timer == In(12000) && Delivered(s.b, b0, data)
  }

  /** The ring of `b` has one more entry than that of `b0`: exactly `data` with its length. */
  predicate Delivered(b: Station, b0: Station, data: seq<nat>)
  {
    var line := b0.rx.inn % RXB_LINES;
    && b.rx.inn == b0.rx.inn + 1 && b.rx.out == b0.rx.out
    && Holds(b.rx.ring, b0.rx.ring, line, data, |data|) && b.rx.ring[line][0] == |data|
  }

  /** The header bits left in the shift register are shifted out of the byte that follows. */
  lemma LaterByte(s: Bus, b0: Station, data: seq<nat>, j: nat, order: Choices, at: nat)
    requires Message(data) && ByteNext(s, b0, data, j)
    ensures ByteOver(Run(s, 32, order, at), b0, data, j)
  {
    hide Step, Run, Holds;
    var c := data[j];
    assert ToGo(c, 8) == c && Value(s.b.rx.tmp, c, 8) == s.b.rx.tmp * 256 + c;
    Cells(s, c, 8, order, at);
    assert (s.b.rx.tmp * 256 + c) % 256 == c;
    StoreByte(s.b.rx.ring, b0.rx.ring, b0.rx.inn % RXB_LINES, data, j);
  }

  /** The start bit and the first data cell. */
  lemma FirstCell(s: Bus, data: seq<nat>, order: Choices, at: nat)
    requires CanSend(s.a) && CanReceive(s.b) && Message(data)
    ensures var a := Loaded(s.a, data);
      Run(Begin(s, data), 8, order, at) == Bus(
        a.(sub := TX_OUT_NEXT, tx := a.tx.(bi := 7, byteOut := ToGo(data[0], 7)), timer := In(600)),
        BitIn(Synced(s.b), Bit(data[0], 8) == 1).(pin := 1))
  {
    hide Step, Run, GotByte, Begin;
    StartBit(s, data, order, at);
    RunSplit(Begin(s, data), 5, 3, order, at);
    var a := Loaded(s.a, data);
    assert a.tx.byteOut == data[0] == ToGo(data[0], 8);
    TopIsBit(data[0], 8);
    CellTail(Run(Begin(s, data), 5, order, at), TopBit(a), order, at + 5);
  }

  /** The start bit and the header's cells, whatever the receiver makes of the header. */
  lemma HeaderCells(s: Bus, data: seq<nat>, order: Choices, at: nat)
    requires CanSend(s.a) && CanReceive(s.b) && Message(data)
    ensures var r := Run(Begin(s, data), 36, order, at); var a := Loaded(s.a, data);
      && r.a == a.(sub := TX_OUT_NEXT, tx := a.tx.(bi := 0, byteOut := ToGo(data[0], 0)), timer := In(600))
      && r.b == ByteIn(Synced(s.b).(pin := 1), data[0])
  {
    hide Step, Run, GotByte, Begin, ToGo, Value, Bit;
    FirstCell(s, data, order, at);
    var c := data[0];
    HeaderValue(c);
    RunSplit(Begin(s, data), 8, 28, order, at);
    Cells(Run(Begin(s, data), 8, order, at), c, 7, order, at + 8);
  }

  lemma HeaderValue(c: nat)
    requires c < 256
    ensures Value(if Bit(c, 8) == 1 then 1 else 0, c, 7) == c
  {
    ValueStep(0, c, 8);
    assert Value(0, c, 8) == c;
  }

  /** The sender and the receiver after an accepted header. */
  lemma FirstByte(s: Bus, data: seq<nat>, order: Choices, at: nat)
    requires CanSend(s.a) && CanReceive(s.b) && Message(data) && RingShape(s.b.rx.ring)
    requires data[0] % 16 == 15 || data[0] % 16 in s.b.ackMask
    ensures ByteOver(Run(Begin(s, data), 36, order, at), s.b, data, 0)
  {
    hide Step, Run, Holds, Begin;
    HeaderCells(s, data, order, at);
    HoldsNone(s.b.rx.ring, s.b.rx.inn % RXB_LINES, data);
    StoreByte(s.b.rx.ring, s.b.rx.ring, s.b.rx.inn % RXB_LINES, data, 0);
  }

  lemma HoldsNone(ring: seq<seq<nat>>, line: nat, data: seq<nat>)
    requires RingShape(ring) && line < RXB_LINES && |data| <= 16
    ensures Holds(ring, ring, line, data, 0)
  {
  }

  lemma StoreLength(ring: seq<seq<nat>>, ring0: seq<seq<nat>>, line: nat, data: seq<nat>)
    requires Holds(ring, ring0, line, data, |data|)
    ensures var ring1 := PutRing(ring, line, 0, |data| % 256);
      Holds(ring1, ring0, line, data, |data|) && ring1[line][0] == |data|
  {
  }

  /** The end-of-message and acknowledge cells lead to the next byte or end the frame. */
  lemma EndOfByte(s: Bus, b0: Station, data: seq<nat>, j: nat, order: Choices, at: nat)
    requires Message(data) && ByteOver(s, b0, data, j)
    ensures var r := Run(s, 8, order, at);
      if j + 1 < |data| then ByteNext(r, b0, data, j + 1) else Finished(r, b0, data)
  {
    hide Step, Run, Holds;
    EomCell(s, s.a.timer.usec, s.b.timer.usec - s.a.timer.usec, order, at);
    RunSplit(s, 4, 4, order, at);
    var s1 := Run(s, 4, order, at);
    assert s.a.tx.buf[..|data|][if j + 1 < |data| then j + 1 else 0] == data[if j + 1 < |data| then j + 1 else 0];
    if j + 1 == |data| {
      StoreLength(s.b.rx.ring, b0.rx.ring, b0.rx.inn % RXB_LINES, data);
    }
    if s.b.mode == RecA {
      ActiveAck(s1, order, at + 4);
    } else {
      PassiveAck(s1, order, at + 4);
    }
  }

  /** From the end of byte `j`'s data cells on, the rest of the frame goes through. */
  lemma {:induction false} Remaining(s: Bus, b0: Station, data: seq<nat>, j: nat, order: Choices, at: nat) returns (n: nat)
    requires Message(data) && j < |data| && ByteOver(s, b0, data, j)
    ensures n == 40 * (|data| - j) - 32 && Finished(Run(s, n, order, at), b0, data)
    decreases |data| - j
  {
    hide ByteOver, ByteNext, Finished, Step, Run;
    EndOfByte(s, b0, data, j, order, at);
    if j + 1 == |data| {
      n := 8;
    } else {
      var s1 := Run(s, 8, order, at);
      LaterByte(s1, b0, data, j + 1, order, at + 8);
      var m := Remaining(Run(s1, 32, order, at + 8), b0, data, j + 1, order, at + 8 + 32);
      RunSplit(s1, 32, m, order, at + 8);
      RunSplit(s, 8, 32 + m, order, at);
      n := 8 + (32 + m);
    }
  }

  /** The line is high and both stations are in their guard times, which end at different times. */
  predicate Guarded(s: Bus)
  {
    && Level(s) && s.a.mode == TxGuard && s.a.irq && s.a.timer == In(16800)
    && s.b.mode == TxGuard && s.b.irq && s.b.pin == 1 && s.b.timer.In? && 0 < s.b.timer.usec < 16800
  }

  /** The sender's last timer. */
  lemma Closing(s: Bus, b0: Station, data: seq<nat>, order: Choices, at: nat)
    requires Finished(s, b0, data)
    ensures var r := Run(s, 1, order, at); Guarded(r) && Delivered(r.b, b0, data) && GetResult(r.a).1 == |data|
  {
    hide Step, Holds;
    Next(s, 0, order, at);
    OnlyA(s);
  }

  /** Loopback: whatever message is sent, to an address the receiver answers or to all, the
      receiver's ring gains exactly that message, and the sender reports success. */
  lemma Loopback(s: Bus, data: seq<nat>, order: Choices, at: nat) returns (n: nat)
    requires CanSend(s.a) && CanReceive(s.b) && Message(data) && RingShape(s.b.rx.ring)
    requires data[0] % 16 == 15 || data[0] % 16 in s.b.ackMask
    ensures n == 40 * |data| + 5
    ensures var r := Run(Begin(s, data), n, order, at);
      Guarded(r) && Delivered(r.b, s.b, data) && GetResult(r.a).1 == |data|
  {
    hide Step, Run, ByteOver, Finished, Begin, Guarded, Delivered, GetResult;
    var s0 := Begin(s, data);
    FirstByte(s, data, order, at);
    var m := Remaining(Run(s0, 36, order, at), s.b, data, 0, order, at + 36);
    RunSplit(s0, 36, m, order, at);
    RunSplit(s0, 36 + m, 1, order, at);
    Closing(Run(s0, 36 + m, order, at), s.b, data, order, at + (36 + m));
    n := 36 + m + 1;
  }

  /** After both guard times the stations are idle, with what was delivered untouched; the receiver can
      receive again, and the sender can send again once its result has been fetched. */
  lemma GuardOver(s: Bus, order: Choices, at: nat)
    requires Guarded(s) && |s.a.tx.buf| == 16
    ensures var r := Run(s, 2, order, at);
      && r.a.mode == Idle && CanReceive(r.b) && r.b.rx == s.b.rx && r.a.tx == s.a.tx
      && CanSend(GetResult(r.a).0) && GetResult(r.a).1 == GetResult(s.a).1
  {
    hide Step;
    Next(s, 0, order, at);
    Next(s, 1, order, at);
    OnlyB(s);
    var s1 := Bus(s.a.(timer := In(16800 - s.b.timer.usec)), s.b.(mode := Idle, timer := Off));
    assert AfterB(s) == s1;
    OnlyA(s1);
  }

  /** The messages that are to be read, one to a line. */
  predicate Unread(r: Receiver, fs: seq<seq<nat>>)
  {
    && RingShape(r.ring) && r.out <= r.inn && r.inn - r.out == |fs| <= RXB_LINES
    && forall i {:trigger fs[i]} :: 0 <= i < |fs| ==> LineHolds(r.ring[(r.out + i) % RXB_LINES], fs[i])
  }

  predicate LineHolds(line: seq<nat>, f: seq<nat>) { |line| == 17 && |f| <= 16 && line[0] == |f| && line[1..|f| + 1] == f }

  lemma LineNext(out: nat, i: nat, n: nat)
    requires i < n <= RXB_LINES
    ensures (out + i) % RXB_LINES == (out + n) % RXB_LINES <==> n == RXB_LINES && i == 0
  {
  }

  /** A delivered message joins those that are still to be read if and only if a line was free; on a full
      ring it is written over the first of them. */
  lemma DeliveredUnread(b: Station, b0: Station, fs: seq<seq<nat>>, data: seq<nat>)
    requires Unread(b0.rx, fs) && Message(data) && Delivered(b, b0, data)
    ensures Unread(b.rx, fs + [data]) <==> |fs| < RXB_LINES
    ensures |fs| == RXB_LINES ==> LineHolds(b.rx.ring[b.rx.out % RXB_LINES], data)
  {
    var line := b0.rx.inn % RXB_LINES;
    var row := b.rx.ring[line];
    assert row[1..|data| + 1] == data;
    assert b0.rx.inn == b0.rx.out + |fs|;
    if |fs| < RXB_LINES {
      forall i {:trigger fs[i]} | 0 <= i < |fs| ensures LineHolds(b.rx.ring[(b.rx.out + i) % RXB_LINES], fs[i]) {
        LineNext(b0.rx.out, i, |fs|);
        assert LineHolds(b0.rx.ring[(b0.rx.out + i) % RXB_LINES], fs[i]);
      }
    } else {
      LineNext(b0.rx.out, 0, |fs|);
    }
  }

  /** A reader gets the first of them, cut to its buffer, which then is gone. */
  lemma ReadFirst(b: Station, fs: seq<seq<nat>>, size: nat)
    requires Unread(b.rx, fs)
    ensures fs == [] ==> ReadFrame(b, size) == (b, ReadAgain)
    ensures fs != [] ==> ReadFrame(b, size).1 == Got(fs[0][..if size < |fs[0]| then size else |fs[0]|])
    ensures fs != [] ==> Unread(ReadFrame(b, size).0.rx, fs[1..])
  {
    if fs != [] {
      var line, f := b.rx.ring[(b.rx.out + 0) % RXB_LINES], fs[0];
      assert LineHolds(line, f);
      var len := if size < |f| then size else |f|;
      assert line[1..len + 1] == line[1..|f| + 1][..len];
      forall i {:trigger fs[1..][i]} | 0 <= i < |fs| - 1
        ensures LineHolds(b.rx.ring[(b.rx.out + 1 + i) % RXB_LINES], fs[1..][i])
      {
        assert fs[1..][i] == fs[i + 1] && LineHolds(b.rx.ring[(b.rx.out + (i + 1)) % RXB_LINES], fs[i + 1]);
      }
    }
  }

  /** Behind what a station still had to read comes the message that was delivered, byte for byte. */
  lemma {:induction false} ReadBack(b: Station, fs: seq<seq<nat>>, data: seq<nat>)
    requires Unread(b.rx, fs + [data])
    ensures ReadFrame(ReadAll(b, |fs|), 16).1 == Got(data)
    decreases |fs|
  {
    hide *;
    WholeFirst(b, fs + [data]);
    NextReads(b, |fs|);
    if fs != [] {
      assert (fs + [data])[1..] == fs[1..] + [data];
      ReadBack(ReadFrame(b, 16).0, fs[1..], data);
    }
  }

  lemma WholeFirst(b: Station, fs: seq<seq<nat>>)
    requires Unread(b.rx, fs) && fs != []
    ensures ReadFrame(b, 16).1 == Got(fs[0]) && Unread(ReadFrame(b, 16).0.rx, fs[1..])
  {
    ReadFirst(b, fs, 16);
    ShortLine(b.rx, fs);
    hide *;
    assert fs[0][..|fs[0]|] == fs[0];
  }

  lemma ShortLine(r: Receiver, fs: seq<seq<nat>>)
    requires Unread(r, fs) && fs != []
    ensures |fs[0]| <= 16
  {
    assert LineHolds(r.ring[(r.out + 0) % RXB_LINES], fs[0]);
  }

  lemma NextReads(b: Station, n: nat)
    ensures ReadAll(b, n) == if n == 0 then b else ReadAll(ReadFrame(b, 16).0, n - 1)
  {
    hide ReadFrame;
  }

  /** `n` reads. */
  function ReadAll(b: Station, n: nat): Station
    decreases n
  {
    if n == 0 then b else ReadAll(ReadFrame(b, 16).0, n - 1)
  }

  /** Nobody answers the header: the sender stops after it and reports the missing acknowledge,
      and a receiver that is not promiscuous stores nothing. */
  lemma Unanswered(s: Bus, data: seq<nat>, order: Choices, at: nat)
    requires CanSend(s.a) && CanReceive(s.b) && Message(data)
    requires data[0] % 16 != 15 && data[0] % 16 !in s.b.ackMask
    ensures var r := Run(Begin(s, data), 44, order, at);
      && r.a.sub == TX_DONE && GetResult(r.a).1 == -2
      && (!s.b.promisc ==> r.b.rx.inn == s.b.rx.inn && r.b.rx.ring == s.b.rx.ring)
  {
    hide Step, Run, Begin, PutRing;
    var s0 := Begin(s, data);
    HeaderCells(s, data, order, at);
    var s1 := Run(s0, 36, order, at);
    EomCell(s1, 600, 400, order, at + 36);
    RunSplit(s0, 36, 4, order, at);
    PassiveAck(Run(s0, 40, order, at), order, at + 40);
    RunSplit(s0, 40, 4, order, at);
  }
}
