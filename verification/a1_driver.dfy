/** The A1 driver as it runs: shift registers, counters and the two rings of 64 bytes, changed by the pin
    interrupt, the timer and the driver calls. What a driver holds stands for a station of A1Model and
    every handler moves it as the function there does; two drivers on one line move a frame. */
module A1Driver {
  import opened BitWords
  import opened M = A1Model
  import opened A1Loopback

  /** The receive variables; `byte` is rxbyte, `bi` rbi. */
  datatype RxVars = RxVars(cnt: nat, bi: nat, byte: bv32, len: nat, inn: nat, out: nat)

  /** The transmit variables. */
  datatype TxVars = TxVars(bi: nat, byte: bv32, len: nat, oix: nat, inn: nat, out: nat)

  function RxOf(r: RxVars, b: seq<nat>): Rx { Rx(r.cnt, r.bi, Num(r.byte), r.len, r.inn, r.out, b) }

  function TxOf(t: TxVars, b: seq<nat>): Tx { Tx(t.bi, Num(t.byte), t.len, t.oix, t.inn, t.out, b) }

  predicate Bytes(b: seq<nat>) { forall i :: 0 <= i < |b| ==> b[i] < 256 }

  /** While bits come in, some of the byte are to go. */
  predicate Counting(m: Mode, bi: nat) { m == RxInit1 || m == RxData0 || m == RxData1 ==> bi > 0 }

  class Driver {
    var mode: Mode
    var rx: RxVars
    var tx: TxVars
    var timer: Timer
    var sink: bool
    var irq: bool
    var pin: nat
    const rxbuf: array<nat>
    const txbuf: array<nat>

    ghost predicate Shape()
      reads rxbuf, txbuf
    {
      rxbuf.Length == SIZE && txbuf.Length == SIZE && rxbuf != txbuf && Bytes(rxbuf[..]) && Bytes(txbuf[..])
    }

    ghost predicate Valid()
      reads this, rxbuf, txbuf
    {
      Shape() && Counting(mode, rx.bi)
    }

    /** The station that the driver is. */
    ghost function St(): Station
      requires Valid()
      reads this, rxbuf, txbuf
    {
      Station(mode, RxOf(rx, rxbuf[..]), TxOf(tx, txbuf[..]), timer, sink, irq, pin)
    }

    constructor ()
      ensures Valid() && fresh(rxbuf) && fresh(txbuf)
      ensures CanSend(St()) && CanReceive(St()) && St().rx.inn == St().rx.out
    {
      mode, timer, sink, irq, pin := Idle, Off, false, true, 2;
      rx := RxVars(0, 0, 0, 0, 0, 0);
      tx := TxVars(0, 0, 0, 0, 0, 0);
      rxbuf := new nat[64](_ => 0);
      txbuf := new nat[64](_ => 0);
      new;
      hide Num;
    }

    // ----- Transmit

    method ReadTx(i: nat) returns (v: nat)
      requires Valid()
      ensures v == Get(txbuf[..], i) && v < 256
    {
      v := txbuf[i % SIZE];
      assert v == txbuf[..][i % SIZE];
    }

    /** a1_start_tx. */
    method StartTx()
      requires Valid()
      modifies this
      ensures Valid() && St() == M.StartTx(old(St()))
    {
      hide Num, WordOf, Get, Bytes;
      irq := false;
      mode := TxInit0;
      var len := ReadTx(tx.out);
      var byte := ReadTx(tx.out + 1);
      WordNum(byte);
      tx := tx.(len := len, oix := 0, byte := WordOf(byte), bi := 8);
      timer, sink := In(START), true;
    }

    method EndTx()
      requires Valid()
      modifies this
      ensures Valid() && St() == M.EndTx(old(St()))
    {
      hide Num, Bytes, M.StartTx;
      mode, pin, irq := Idle, 1, true;
      if tx.inn != tx.out { StartTx(); }
    }

    /** The counters and the shift register behind a bit. */
    method NextBit()
      requires Valid() && tx.bi > 0
      modifies this`tx
      ensures Valid() && TxOf(tx, txbuf[..]) == M.NextBit(old(TxOf(tx, txbuf[..])))
    {
      hide Num, WordOf, Get, Bytes, Twice;
      TwiceNum(tx.byte, false);
      tx := tx.(bi := tx.bi - 1);
      if tx.bi != 0 {
        tx := tx.(byte := Twice(tx.byte, false));
      } else {
        tx := tx.(oix := tx.oix + 1);
        if tx.oix < tx.len {
          var byte := ReadTx(tx.oix + tx.out + 1);
          WordNum(byte);
          tx := tx.(byte := WordOf(byte), bi := 8);
        } else {
          tx := tx.(out := tx.out + tx.len + 1);
        }
      }
    }

    /** a1_send_bit. */
    method SendBit()
      requires Valid()
      modifies this
      ensures Valid() && St() == M.SendBit(old(St()))
    {
      hide Num, Bytes, Test, M.NextBit, M.EndTx;
      TestTop(tx.byte);
      var bit1 := Test(tx.byte, 0x80);
      if tx.bi == 0 {
        EndTx();
        return;
      }
      mode := TxData1;
      timer := In(if bit1 then LOW1 else LOW0);
      sink := true;
      NextBit();
    }

    // ----- Receive

    method HandleRxStart(level: bool)
      requires Valid() && mode == Idle
      modifies this
      ensures Valid() && St() == M.PinHandler(old(St()), level)
    {
      hide Num, Bytes;
      if level { return; }
      rx := rx.(cnt := 0, len := 0);
      mode, timer := RxInit0, In(BASIC / 2);
    }

    method HandleRxInit0(level: bool)
      requires Valid() && mode == RxInit0
      modifies this
      ensures Valid() && St() == M.PinHandler(old(St()), level)
    {
      hide Num, Bytes;
      Unfold(0);
      timer := Off;
      if !level || rx.cnt != 4 {
        mode := Idle;
        return;
      }
      mode, timer := RxInit1, In(START);
      rx := rx.(bi := 8, byte := 0);
    }

    /** handle_rx_init1 and handle_rx_data1. */
    method HandleRxHigh(level: bool)
      requires Valid() && (mode == RxInit1 || mode == RxData1)
      modifies this
      ensures Valid() && St() == M.PinHandler(old(St()), level)
    {
      hide Num, Bytes;
      timer := Off;
      if level {
        mode := Idle;
        return;
      }
      mode, timer := RxData0, In(BASIC / 2);
      rx := rx.(cnt := 0);
    }

    method WriteRx(i: nat, v: nat)
      requires Shape()
      modifies rxbuf
      ensures Shape() && rxbuf[..] == Put(old(rxbuf[..]), i, v)
    {
      rxbuf[i % SIZE] := v % 256;
      assert rxbuf[..] == old(rxbuf[..])[i % SIZE := v % 256];
    }

    /** A bit goes into the shift register, and the eighth completes the byte. */
    method TakeBit(bit: bool)
      requires Valid() && rx.bi > 0
      modifies this`rx, rxbuf
      ensures Valid() && RxOf(rx, rxbuf[..]) == M.TakeBit(old(RxOf(rx, rxbuf[..])), bit)
    {
      hide Num, Bytes, Put, Octet, Or, Twice;
      if bit {
        SetLast(rx.byte);
        rx := rx.(byte := Or(rx.byte, 1));
      }
      LowByte(rx.byte);
      TwiceNum(rx.byte, false);
      Unfold(0);
      rx := rx.(bi := rx.bi - 1);
      if rx.bi == 0 {
        var len := rx.len + 1;
        if len < SIZE - (rx.inn - rx.out) {
          PutOctet(rxbuf[..], rx.inn + len, Num(rx.byte), Octet(rx.byte));
          WriteRx(rx.inn + len, Octet(rx.byte));
          rx := rx.(len := len);
        }
        rx := rx.(bi := 8, byte := 0);
      } else {
        rx := rx.(byte := Twice(rx.byte, false));
      }
    }

    method HandleRxData0(level: bool)
      requires Valid() && mode == RxData0
      modifies this, rxbuf
      ensures Valid() && St() == M.PinHandler(old(St()), level)
    {
      hide RxOf, TxOf, Bytes, M.TakeBit;
      CntOf(rx, rxbuf[..]);
      BiAfter(RxOf(rx, rxbuf[..]));
      timer := Off;
      if !level || (rx.cnt != 2 && rx.cnt != 1) {
        mode := Idle;
        return;
      }
      TakeBit(rx.cnt == 2);
      CntOf(rx, rxbuf[..]);
      mode, timer := RxData1, In(START);
    }

    method PinInterrupt(level: bool)
      requires Valid()
      modifies this, rxbuf
      ensures Valid() && St() == M.PinIrq(old(St()), level)
    {
      hide RxOf, TxOf, Bytes, M.PinHandler;
      var p := if level then 1 else 0;
      if p == pin { return; }
      pin := p;
      if mode == Idle { HandleRxStart(level); }
      else if mode == RxInit0 { HandleRxInit0(level); }
      else if mode == RxInit1 || mode == RxData1 { HandleRxHigh(level); }
      else if mode == RxData0 { HandleRxData0(level); }
      else { Unmoved(St(), level); }
    }

    /** The end of a frame: its length goes in front and the ring moves on. */
    method Publish()
      requires Valid()
      modifies this`rx, rxbuf
      ensures Valid() && RxOf(rx, rxbuf[..]) == M.Publish(old(RxOf(rx, rxbuf[..])))
    {
      hide Num, Bytes, Put;
      WriteRx(rx.inn, rx.len);
      rx := rx.(inn := rx.inn + rx.len + 1);
    }

    /** a1_timeout while receiving. */
    method RxTimeout()
      requires Valid() && (mode == RxInit0 || mode == RxInit1 || mode == RxData0 || mode == RxData1)
      modifies this, rxbuf
      ensures Valid() && St() == M.Timeout(old(St()), true) == M.Timeout(old(St()), false)
    {
      hide Num, Bytes, Put, M.StartTx, M.Publish;
      timer := Off;
      if mode == RxInit0 || mode == RxData0 {
        rx := rx.(cnt := rx.cnt + 1);
        timer := In(BASIC);
      } else if mode == RxInit1 {
        mode := Idle;
      } else {
        mode := Idle;
        if rx.bi == 8 { Publish(); }
        if tx.inn != tx.out { StartTx(); }
      }
    }

    /** a1_timeout. */
    method A1Timeout(level: bool)
      requires Valid()
      modifies this, rxbuf
      ensures Valid() && St() == M.Timeout(old(St()), level)
    {
      hide RxOf, TxOf, Bytes, M.StartTx, M.EndTx, M.SendBit, M.Publish;
      if mode == RxInit0 || mode == RxInit1 || mode == RxData0 || mode == RxData1 {
        RxTimeout();
        return;
      }
      timer := Off;
      if mode == TxInit0 || mode == TxData1 {
        mode, sink, timer := TxData0, false, In(HIGH);
      } else if mode == TxData0 {
        if !level { EndTx(); } else { SendBit(); }
      }
    }

    // ----- The driver calls

    method WriteTx(i: nat, v: nat)
      requires Valid()
      modifies txbuf
      ensures Valid() && txbuf[..] == Put(old(txbuf[..]), i, v)
    {
      txbuf[i % SIZE] := v % 256;
      assert txbuf[..] == old(txbuf[..])[i % SIZE := v % 256];
    }

    /** The frame behind those in the ring. */
    method Enqueue(data: seq<nat>)
      requires Valid()
      modifies this`tx, txbuf
      ensures Valid() && tx == old(tx).(inn := old(tx.inn) + 1 + |data|)
      ensures txbuf[..] == PutAll(Put(old(txbuf[..]), old(tx.inn), |data|), old(tx.inn) + 1, data)
    {
      hide Put, Bytes, Num;
      WriteTx(tx.inn, |data|);
      ghost var buf0, inn0 := txbuf[..], tx.inn + 1;
      tx := tx.(inn := tx.inn + 1);
      var i := 0;
      while i < |data|
        invariant 0 <= i <= |data| && Valid() && tx == old(tx).(inn := inn0 + i)
        invariant txbuf[..] == PutAll(buf0, inn0, data[..i])
      {
        assert data[..i + 1][..i] == data[..i];
        WriteTx(tx.inn, data[i]);
        tx := tx.(inn := tx.inn + 1);
        i := i + 1;
      }
      assert data[..i] == data;
    }

    /** WR_CHAR. */
    method WriteFrame(data: seq<nat>) returns (r: WriteResult)
      requires Valid()
      modifies this, txbuf
      ensures Valid() && (St(), r) == M.Write(old(St()), data)
    {
      hide Num, Bytes, Put, PutAll, M.StartTx;
      if tx.inn - tx.out >= SIZE - |data| { return Again; }
      Enqueue(data);
      if mode == Idle { StartTx(); }
      r := Written(|data|);
    }

    method ReadRx(i: nat) returns (v: nat)
      requires Valid()
      ensures v == Get(rxbuf[..], i)
    {
      v := rxbuf[i % SIZE];
      assert v == rxbuf[..][i % SIZE];
    }

    /** RD_CHAR. */
    method ReadFrame(size: nat) returns (r: ReadResult)
      requires Valid()
      modifies this`rx, rxbuf
      ensures Valid() && (St(), r) == M.Read(old(St()), size)
    {
      hide Num, Bytes, Put, Get;
      if rx.inn == rx.out { return Empty; }
      var len := ReadRx(rx.out);
      if size < len { return TooSmall; }
      WriteRx(rx.out, 0);
      rx := rx.(out := rx.out + 1);
      ghost var b, r0 := rxbuf[..], rx;
      var data: seq<nat> := [];
      var i := 0;
      while i < len
        invariant 0 <= i <= len && Valid() && rx == r0 && rxbuf[..] == b && data == GetAll(b, rx.out, i)
      {
        var v := ReadRx(rx.out + i);
        data := data + [v];
        i := i + 1;
      }
      rx := rx.(out := rx.out + len);
      r := Got(data);
    }
  }

  lemma PutOctet(b: seq<nat>, i: nat, v: nat, w: nat)
    requires w == v % 256
    ensures Put(b, i, w) == Put(b, i, v)
  {}

  lemma CntOf(r: RxVars, b: seq<nat>)
    ensures RxOf(r, b).cnt == r.cnt && RxOf(r, b).bi == r.bi
  {}

  lemma BiAfter(r: Rx)
    ensures r.bi > 0 ==> M.TakeBit(r, true).bi > 0 && M.TakeBit(r, false).bi > 0
  {}

  lemma Unmoved(s: Station, level: bool)
    requires s.mode == TxInit0 || s.mode == TxData0 || s.mode == TxData1
    ensures M.PinHandler(s, level) == s
  {}
}
