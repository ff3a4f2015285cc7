/** The receiver alone, on any waveform: as long as each edge falls inside the window that the
    receiver's timers leave for it, the frame is received, whatever the exact timing. */
module CecReceiver {
  import opened CecModel
  import opened CecBus
  import opened CecLoopback
  import opened ShiftBits

  /** The other stations hold the line low for `lo` microseconds, then leave it for `hi`. */
  datatype Cell = Cell(lo: nat, hi: nat)

  /** `d` microseconds pass with the others' level unchanged. */
  function Hold(b: Station, level: bool, d: nat): Station
    decreases d
  {
    match b.timer
    case Off => b
    case In(u) =>
      if 0 < u < d then Hold(Settle(b, Timeout(b, level && !b.sink), level), level, d - u)
      else b.(timer := Elapse(b.timer, d))
  }

  /** The edge that the station's own release makes, if any. */
  function Settle(b: Station, b1: Station, level: bool): Station
  {
    if (level && !b.sink) != (level && !b1.sink) && b1.irq then PinIrq(b1, level && !b1.sink) else b1
  }

  function Rise(b: Station): Station { if b.irq && !b.sink then PinIrq(b, true) else b }

  function Through(b: Station, c: Cell): Station
  {
    var b1 := if b.irq && !b.sink then PinIrq(b, false) else b;
    Hold(Rise(Hold(b1, false, c.lo)), true, c.hi)
  }

  function Wave(b: Station, cells: seq<Cell>): Station
  {
    if cells == [] then b else Through(Wave(b, cells[..|cells| - 1]), cells[|cells| - 1])
  }

  // ----- Windows

  predicate BitWindow(c: Cell, bit: bool)
  {
    && (if bit then 0 < c.lo < 1050 else 1050 < c.lo < 1800)
    && 1800 < c.lo + c.hi < 2800
  }

  predicate EomWindow(c: Cell, last: bool)
  {
    && (if last then 0 < c.lo < 1050 else 1050 < c.lo < 1750)
    && 1750 < c.lo + c.hi < 2750
  }

  predicate AckWindow(c: Cell, mode: Mode)
  {
    && 0 < c.lo && 0 < c.hi
    && if mode == RecA then c.lo != 1500 && 1500 < c.lo + c.hi < 2700
       else c.lo != 1050 && c.lo != 1750 && 1750 < c.lo + c.hi < 2950
  }

  predicate StartWindow(c: Cell) { 3500 < c.lo < 4000 && 4400 < c.lo + c.hi < 4900 }

  /** Between cells. */
  predicate Ready(b: Station)
  {
    Receiving(b) && b.sub == REC_PLB_N && !b.sink && b.irq && b.pin == 1 && b.timer.In? && b.timer.usec > 0
  }

  lemma HoldQuiet(b: Station, level: bool, d: nat)
    requires b.timer.In? && d <= b.timer.usec
    ensures Hold(b, level, d) == b.(timer := In(b.timer.usec - d))
  {
  }

  lemma HoldFire(b: Station, level: bool, d: nat)
    requires b.timer.In? && 0 < b.timer.usec < d
    ensures Hold(b, level, d) == Hold(Settle(b, Timeout(b, level && !b.sink), level), level, d - b.timer.usec)
  {
  }

  /** A data cell of any permitted shape delivers its bit. */
  lemma AnyBit(b: Station, c: Cell, bit: bool)
    requires Ready(b) && b.rx.rbi > 0 && BitWindow(c, bit)
    ensures Through(b, c) == BitIn(b, bit).(timer := In(2800 - c.lo - c.hi))
  {
    hide ShiftIn, Hold;
    var b0 := Arm(b.(pin := 0), REC_PLB_I, 1050);
    StillReceiving(b.rx, bit, b.mode, b.ackMask, b.promisc);
    if bit {
      HoldQuiet(b0, false, c.lo);
      var b1 := b0.(timer := In(1050 - c.lo), pin := 1);
      HoldFire(b1, true, c.hi);
      var b2 := GetBit(b1, true);
      HoldFire(b2, true, c.lo + c.hi - 1050);
      HoldQuiet(Arm(b2, REC_PLB_N, 1000), true, c.lo + c.hi - 1800);
    } else {
      HoldFire(b0, false, c.lo);
      var b1 := GetBit(b0, false);
      HoldQuiet(b1, false, c.lo - 1050);
      var b2 := b1.(timer := In(1800 - c.lo), pin := 1);
      HoldFire(b2, true, c.hi);
      HoldQuiet(Arm(b2, REC_PLB_N, 1000), true, c.lo + c.hi - 1800);
    }
  }

  lemma AnyEom(b: Station, c: Cell, last: bool)
    requires Ready(b) && b.rx.rbi == 0 && EomWindow(c, last)
    ensures Through(b, c) == Arm(GetEom(b, last), REC_EOM_N, 2750 - c.lo - c.hi)
  {
    hide Hold;
    var b0 := Arm(b.(pin := 0), REC_EOM_I, 1050);
    if last {
      HoldQuiet(b0, false, c.lo);
      var b1 := b0.(timer := In(1050 - c.lo), pin := 1);
      HoldFire(b1, true, c.hi);
      var b2 := GetEom(b1, true);
      HoldFire(b2, true, c.lo + c.hi - 1050);
      HoldQuiet(Arm(b2, REC_EOM_N, 1000), true, c.lo + c.hi - 1750);
    } else {
      HoldFire(b0, false, c.lo);
      var b1 := GetEom(b0, false);
      HoldQuiet(b1, false, c.lo - 1050);
      var b2 := b1.(timer := In(1750 - c.lo), pin := 1);
      HoldFire(b2, true, c.hi);
      HoldQuiet(Arm(b2, REC_EOM_N, 1000), true, c.lo + c.hi - 1750);
    }
  }

  /** Waiting for the acknowledge cell. */
  predicate ReadyAck(b: Station)
  {
    (b.mode == RecA || b.mode == RecP) && b.sub == REC_EOM_N && !b.sink && b.irq && b.pin == 1 && b.timer.In? && b.timer.usec > 0
  }

  /** The acknowledge cell of an addressed receiver, which holds the line itself for 1500
      microseconds, so that the sender's release may come before or after its own. */
  lemma AnyActiveAck(b: Station, c: Cell)
    requires ReadyAck(b) && b.mode == RecA && AckWindow(c, RecA)
    ensures var r := Publish(b.rx.(flags := b.rx.flags.(byteReady := true)), b.promisc);
      var e := AckEnd(b.(rx := r));
      Through(b, c) == e.(timer := In(e.timer.usec + 1500 - c.lo - c.hi))
  {
    hide Hold, Publish;
    var r := Publish(b.rx.(flags := b.rx.flags.(byteReady := true)), b.promisc);
    PublishFlags(b.rx.(flags := b.rx.flags.(byteReady := true)), b.promisc);
    var b0 := Arm(b.(pin := 0, sink := true, rx := r), REC_ACK_E, 1500);
    assert PinIrq(b, false) == b0;
    var e := AckEnd(b.(rx := r));
    if c.lo < 1500 {
      HoldQuiet(b0, false, c.lo);
      var b1 := b0.(timer := In(1500 - c.lo));
      assert Rise(b1) == b1;
      HoldFire(b1, true, c.hi);
      assert Settle(b1, Timeout(b1, false), true) == e;
      HoldQuiet(e, true, c.lo + c.hi - 1500);
    } else {
      HoldFire(b0, false, c.lo);
      assert Settle(b0, Timeout(b0, false), false) == e;
      HoldQuiet(e, false, c.lo - 1500);
      var b1 := e.(timer := In(e.timer.usec + 1500 - c.lo));
      assert Rise(b1) == b1;
      HoldQuiet(b1, true, c.hi);
    }
  }

  lemma PublishFlags(r: Receiver, promisc: bool)
    ensures Publish(r, promisc).flags == r.flags
  {
    hide PutRing;
  }

  /** The rising edge of a line that others have held low beyond the end of the frame stops the
      listener's guard timer. */
  predicate Stops(eom: bool, c: Cell) { eom && c.lo > 1750 }

  function PassiveEnd(b: Station, c: Cell): Station
  {
    var r := Publish(b.rx.(flags := b.rx.flags.(ack := c.lo > 1050, byteReady := true)), b.promisc);
    var e := AckEnd(b.(rx := r, pin := 1));
    if !e.timer.In? || e.timer.usec + 1750 < c.lo + c.hi then e
    else e.(timer := if Stops(b.rx.flags.eom, c) then Off else In(e.timer.usec + 1750 - c.lo - c.hi))
  }

  lemma ShortPassiveAck(b: Station, c: Cell)
    requires ReadyAck(b) && b.mode == RecP && AckWindow(c, RecP) && c.lo < 1050
    ensures Through(b, c) == PassiveEnd(b, c)
  {
    hide Hold, Publish;
    var f := b.rx.(flags := b.rx.flags.(ack := false, byteReady := true));
    var r := Publish(f, b.promisc);
    PublishFlags(f, b.promisc);
    var b0 := Arm(b.(pin := 0), REC_ACK_I, 1050);
    assert PinIrq(b, false) == b0;
    var e := AckEnd(b.(rx := r, pin := 1));
    HoldQuiet(b0, false, c.lo);
    var b1 := b0.(timer := In(1050 - c.lo), pin := 1);
    HoldFire(b1, true, c.hi);
    var b2 := GetAck(b1, true);
    HoldFire(b2, true, c.lo + c.hi - 1050);
    HoldQuiet(e, true, c.lo + c.hi - 1750);
  }

  lemma LongPassiveAck(b: Station, c: Cell)
    requires ReadyAck(b) && b.mode == RecP && AckWindow(c, RecP) && 1050 < c.lo < 1750
    ensures Through(b, c) == PassiveEnd(b, c)
  {
    hide Hold, Publish;
    var f := b.rx.(flags := b.rx.flags.(ack := true, byteReady := true));
    var r := Publish(f, b.promisc);
    PublishFlags(f, b.promisc);
    var b0 := Arm(b.(pin := 0), REC_ACK_I, 1050);
    assert PinIrq(b, false) == b0;
    var e := AckEnd(b.(rx := r, pin := 1));
    HoldFire(b0, false, c.lo);
    var b1 := GetAck(b0, false);
    HoldQuiet(b1, false, c.lo - 1050);
    var b2 := b1.(timer := In(1750 - c.lo), pin := 1);
    HoldFire(b2, true, c.hi);
    HoldQuiet(e, true, c.lo + c.hi - 1750);
  }

  lemma LatePassiveAck(b: Station, c: Cell)
    requires ReadyAck(b) && b.mode == RecP && AckWindow(c, RecP) && c.lo > 1750
    ensures Through(b, c) == PassiveEnd(b, c)
  {
    hide Hold, Publish;
    var f := b.rx.(flags := b.rx.flags.(ack := true, byteReady := true));
    var r := Publish(f, b.promisc);
    PublishFlags(f, b.promisc);
    var b0 := Arm(b.(pin := 0), REC_ACK_I, 1050);
    assert PinIrq(b, false) == b0;
    HoldFire(b0, false, c.lo);
    var b1 := GetAck(b0, false);
    HoldFire(b1, false, c.lo - 1050);
    var e := AckEnd(b.(rx := r, pin := 0));
    assert Settle(b1, Timeout(b1, false), false) == e;
    HoldQuiet(e, false, c.lo - 1750);
    var b2 := e.(timer := In(e.timer.usec + 1750 - c.lo));
    if b.rx.flags.eom {
      assert Rise(b2) == b2.(pin := 1, timer := Off);
      HoldOff(b2.(pin := 1, timer := Off), true, c.hi);
    } else {
      assert Rise(b2) == b2.(pin := 1);
      HoldQuiet(b2.(pin := 1), true, c.hi);
    }
  }

  lemma HoldOff(b: Station, level: bool, d: nat)
    requires b.timer.Off?
    ensures Hold(b, level, d) == b
  {}

  /** The acknowledge cell of a listener, however long the others hold the line low: it notes whether
      someone answered. */
  lemma AnyPassiveAck(b: Station, c: Cell)
    requires ReadyAck(b) && b.mode == RecP && AckWindow(c, RecP)
    ensures Through(b, c) == PassiveEnd(b, c)
  {
    hide Through, PassiveEnd;
    if c.lo < 1050 { ShortPassiveAck(b, c); } else if c.lo < 1750 { LongPassiveAck(b, c); } else { LatePassiveAck(b, c); }
  }

  // ----- Bytes and frames

  /** The last `n` data cells of byte `c`. */
  predicate ByteWindows(cells: seq<Cell>, c: nat, n: nat)
  {
    |cells| == n <= 8 && forall i :: 0 <= i < n ==> BitWindow(cells[i], Bit(c, n - i) == 1)
  }

  lemma {:induction false} WaveSplit(b: Station, x: seq<Cell>, y: seq<Cell>)
    ensures Wave(b, x + y) == Wave(Wave(b, x), y)
  {
    hide Through;
    if y == [] {
      assert x + y == x;
    } else {
      WaveSplit(b, x, y[..|y| - 1]);
      assert (x + y)[..|x + y| - 1] == x + y[..|y| - 1];
    }
  }

  lemma WaveOne(b: Station, c: Cell)
    ensures Wave(b, [c]) == Through(b, c)
  {
    hide Through;
    assert Wave(b, []) == b;
  }

  /** The receiver when the last bit is in, its timer aside. */
  predicate Same(b: Station, b1: Station)
  {
    b == b1.(timer := b.timer) && b.timer.In? && b.timer.usec > 0
  }

  lemma {:induction false} AnyByte(b: Station, cells: seq<Cell>, c: nat, n: nat)
    requires Ready(b) && 1 <= n <= 8 && c < 256 && ByteWindows(cells, c, n) && b.rx.rbi == n && Value(b.rx.tmp, c, n) < WRAP
    ensures Same(Wave(b, cells), ByteIn(b, Value(b.rx.tmp, c, n)))
    decreases n
  {
    hide Through, GotByte, Value, Bit, BitWindow;
    var bit := Bit(c, n) == 1;
    AnyBit(b, cells[0], bit);
    var b1 := Through(b, cells[0]);
    WaveOne(b, cells[0]);
    WaveSplit(b, [cells[0]], cells[1..]);
    assert [cells[0]] + cells[1..] == cells;
    BitValue(c, n);
    ValueStep(b.rx.tmp, c, n);
    ValueBound(2 * b.rx.tmp + Bit(c, n), c, n - 1);
    WindowSum(cells[0], bit);
    if n == 1 {
      assert cells[1..] == [];
    } else {
      StillReceiving(b.rx, bit, b.mode, b.ackMask, b.promisc);
      AnyByte(b1, cells[1..], c, n - 1);
    }
  }

  lemma BitValue(c: nat, n: nat)
    requires 1 <= n <= 8
    ensures Bit(c, n) == 0 || Bit(c, n) == 1
  {
  }

  lemma WindowSum(c: Cell, bit: bool)
    requires BitWindow(c, bit)
    ensures c.lo + c.hi < 2800
  {
  }

  /** Ten cells per byte, each edge inside its window. */
  predicate FrameWindows(b0: Station, cells: seq<seq<Cell>>, data: seq<nat>)
    requires |data| > 0
  {
    && |cells| == |data|
    && forall j :: 0 <= j < |data| ==>
      && |cells[j]| == 10 && ByteWindows(cells[j][..8], data[j], 8)
      && EomWindow(cells[j][8], j == |data| - 1) && AckWindow(cells[j][9], Answer(b0, data))
  }

  /** The receiver after the first `n` bytes of the waveform. */
  function Frame(b: Station, cells: seq<seq<Cell>>, n: nat): Station
    requires n <= |cells|
  {
    if n == 0 then b else Wave(Frame(b, cells, n - 1), cells[n - 1])
  }

  /** Byte `j` is about to begin; the first one finds the receiver just synchronised. */
  predicate Expecting(b: Station, b0: Station, data: seq<nat>, j: nat)
  {
    && Ready(b) && b.rx.rbi == 8 && b.rx.tmp < 256 && |data| > 0 && b.ackMask == b0.ackMask && b.promisc == b0.promisc
    && if j == 0 then b.mode == Rec && b.rx == b0.rx.(flags := NO_FLAGS, rbi := 8, tmp := 0)
       else Accepting(b, b0, data, j)
  }

  /** A station stores a broadcast, a message to one of its addresses and, if it is promiscuous, any other. */
  predicate Stores(b0: Station, data: seq<nat>)
    requires |data| > 0
  {
    data[0] % 16 == 15 || data[0] % 16 in b0.ackMask || b0.promisc
  }

  /** The receiver once all data bits of byte `j` are in. */
  predicate HasByte(b: Station, b0: Station, data: seq<nat>, j: nat)
  {
    && Ready(b) && b.rx.rbi == 0 && b.rx.tmp < 256 && Accepting(b, b0, data, j + 1)
    && b.ackMask == b0.ackMask && b.promisc == b0.promisc
  }

  lemma TakesByte(b: Station, b0: Station, data: seq<nat>, j: nat)
    requires Message(data) && j < |data| && Stores(b0, data) && RingShape(b0.rx.ring) && Expecting(b, b0, data, j)
    ensures forall r: Station :: Same(r, ByteIn(b, b.rx.tmp * 256 + data[j])) ==> HasByte(r, b0, data, j)
  {
    hide Holds;
    var line := b0.rx.inn % RXB_LINES;
    assert (b.rx.tmp * 256 + data[j]) % 256 == data[j];
    if j == 0 {
      HoldsNone(b0.rx.ring, line, data);
    }
    StoreByte(b.rx.ring, b0.rx.ring, line, data, j);
  }

  /** The frame is in the ring, and the guard time runs unless the last acknowledge cell has stopped it. */
  predicate Ended(r: Station, b0: Station, data: seq<nat>, last: Cell)
    requires |data| > 0
  {
    && r.mode == TxGuard && !r.sink && r.irq && r.pin == 1 && Delivered(r, b0, data)
    && if Answer(b0, data) == RecP && last.lo > 1750 then r.timer == Off else r.timer.In? && 0 < r.timer.usec <= 12000
  }

  /** The ten cells of byte `j`. */
  lemma AnyTen(b: Station, b0: Station, data: seq<nat>, j: nat, ten: seq<Cell>)
    requires Message(data) && j < |data| && Stores(b0, data) && RingShape(b0.rx.ring) && Expecting(b, b0, data, j)
    requires |ten| == 10 && ByteWindows(ten[..8], data[j], 8)
    requires EomWindow(ten[8], j == |data| - 1) && AckWindow(ten[9], Answer(b0, data))
    ensures var r := Wave(b, ten);
      if j + 1 < |data| then Expecting(r, b0, data, j + 1) else Ended(r, b0, data, ten[9])
  {
    hide Through, Wave, ByteIn, ByteWindows, EomWindow, AckWindow, Expecting, HasByte;
    var b1 := Wave(b, ten[..8]);
    TakesByte(b, b0, data, j);
    ExpectingByte(b, b0, data, j, ten[..8]);
    WaveSplit(b, ten[..8], [ten[8]]);
    WaveSplit(b, ten[..9], [ten[9]]);
    assert ten[..8] + [ten[8]] == ten[..9] && ten[..9] + [ten[9]] == ten;
    WaveOne(b1, ten[8]);
    WaveOne(Wave(b, ten[..9]), ten[9]);
    EndOfTen(b1, b0, data, j, ten[8], ten[9]);
  }

  lemma ExpectingByte(b: Station, b0: Station, data: seq<nat>, j: nat, cells: seq<Cell>)
    requires Message(data) && j < |data| && Expecting(b, b0, data, j) && ByteWindows(cells, data[j], 8)
    ensures Same(Wave(b, cells), ByteIn(b, b.rx.tmp * 256 + data[j]))
  {
    hide Wave, ByteIn;
    assert Value(b.rx.tmp, data[j], 8) == b.rx.tmp * 256 + data[j];
    AnyByte(b, cells, data[j], 8);
  }

  /** The end-of-message and acknowledge cells of byte `j`. */
  lemma EndOfTen(b: Station, b0: Station, data: seq<nat>, j: nat, eom: Cell, ack: Cell)
    requires Message(data) && j < |data| && HasByte(b, b0, data, j)
    requires EomWindow(eom, j == |data| - 1) && AckWindow(ack, Answer(b0, data))
    ensures var r := Through(Through(b, eom), ack);
      if j + 1 < |data| then Expecting(r, b0, data, j + 1) else Ended(r, b0, data, ack)
  {
    hide Through, Holds;
    AnyEom(b, eom, j == |data| - 1);
    var b1 := Through(b, eom);
    if j == |data| - 1 {
      StoreLength(b.rx.ring, b0.rx.ring, b0.rx.inn % RXB_LINES, data);
    }
    if b.mode == RecA {
      AnyActiveAck(b1, ack);
    } else {
      AnyPassiveAck(b1, ack);
    }
  }

  /** A start bit inside its window leaves the receiver waiting for the first cell. */
  function Started(b: Station): Station { Arm(Synced(b).(pin := 1), REC_PLB_N, 1) }

  lemma AnyStart(b: Station, start: Cell, c: Cell)
    requires CanReceive(b) && StartWindow(start)
    ensures Through(Through(b, start), c) == Through(Started(b), c)
  {
    hide Hold;
    var b0 := Arm(b.(mode := RInit, rx := b.rx.(flags := NO_FLAGS), pin := 0), RSYNC_LOW, 3500);
    assert PinIrq(b, false) == b0;
    HoldFire(b0, false, start.lo);
    var b1 := Arm(b0, RSYNC_TOH, 500);
    HoldQuiet(b1, false, start.lo - 3500);
    var b2 := Arm(b1.(pin := 1), RSYNC_HI1, 4000 - start.lo);
    HoldFire(b2, true, start.hi);
    var b3 := Arm(b2, RSYNC_HI2, 400);
    HoldFire(b3, true, start.lo + start.hi - 4000);
    HoldQuiet(Arm(b3, RSYNC_TOL, 500), true, start.lo + start.hi - 4400);
    var b4 := Arm(b3, RSYNC_TOL, 4900 - start.lo - start.hi);
    assert Through(b, start) == b4;
    assert PinIrq(b4, false) == PinIrq(Started(b), false);
  }

  lemma {:induction false} StartedWave(b: Station, start: Cell, cells: seq<Cell>)
    requires CanReceive(b) && StartWindow(start) && |cells| >= 1
    ensures Wave(Through(b, start), cells) == Wave(Started(b), cells)
  {
    hide Through;
    if |cells| == 1 {
      AnyStart(b, start, cells[0]);
      assert cells == [cells[0]];
      WaveOne(Through(b, start), cells[0]);
      WaveOne(Started(b), cells[0]);
    } else {
      StartedWave(b, start, cells[..|cells| - 1]);
    }
  }

  lemma {:induction false} FrameReceived(b: Station, start: Cell, cells: seq<seq<Cell>>, data: seq<nat>, n: nat)
    requires CanReceive(b) && StartWindow(start) && Message(data) && Stores(b, data) && RingShape(b.rx.ring)
    requires FrameWindows(b, cells, data) && 1 <= n <= |data|
    ensures var r := Frame(Through(b, start), cells, n);
      if n < |data| then Expecting(r, b, data, n) else Ended(r, b, data, cells[n - 1][9])
  {
    hide Through, Wave, ByteWindows, EomWindow, AckWindow, Ended;
    if n == 1 {
      StartedWave(b, start, cells[0]);
      AnyTen(Started(b), b, data, 0, cells[0]);
    } else {
      FrameReceived(b, start, cells, data, n - 1);
      AnyTen(Frame(Through(b, start), cells, n - 1), b, data, n - 1, cells[n - 1]);
    }
  }

  /** An idle station that is to store the message receives it from every waveform whose
      edges fall into its windows: its ring gains exactly the message. Its guard timer runs, unless it
      only listened and someone held the line low beyond the end of the frame. */
  lemma AnyWaveform(b: Station, start: Cell, cells: seq<seq<Cell>>, data: seq<nat>)
    requires CanReceive(b) && StartWindow(start) && Message(data) && Stores(b, data) && RingShape(b.rx.ring)
    requires FrameWindows(b, cells, data)
    ensures Ended(Frame(Through(b, start), cells, |data|), b, data, cells[|data| - 1][9])
  {
    FrameReceived(b, start, cells, data, |data|);
    hide Through, Wave, ByteWindows, EomWindow, AckWindow, Ended;
  }

  /** While the line stays high the station becomes idle if and only if that did not happen; otherwise
      it refuses to send for as long as the line stays high. */
  lemma IdleAgain(r: Station, b0: Station, data: seq<nat>, last: Cell, d: nat, msg: seq<nat>)
    requires |data| > 0 && Ended(r, b0, data, last) && d > 12000 && 1 <= |msg| <= 16
    ensures var e := Hold(r, true, d);
      && (e.mode == Idle <==> !(Answer(b0, data) == RecP && last.lo > 1750))
      && e.rx == r.rx && (e.mode != Idle ==> SendCec(e, msg) == (e, Again))
  {
    hide Holds, Delivered, Hold;
    if r.timer.In? {
      HoldFire(r, true, d);
      HoldOff(r.(mode := Idle, timer := Off), true, d - r.timer.usec);
    } else {
      HoldOff(r, true, d);
    }
  }
}
