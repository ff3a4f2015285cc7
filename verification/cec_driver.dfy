/** The CEC driver as it runs: flag words, shift registers and byte buffers, changed by the pin
    interrupt, the timer and the driver calls. What a driver holds stands for a station of CecModel, every
    handler moves it as the function of the same name does, and two drivers on one line move a message. */
module CecDriver {
  import opened BitWords
  import opened M = CecModel
  import opened CecBus
  import opened CecLoopback

  // ----- What the words stand for

  const CECR_EOM: bv32 := 0x01
  const CECR_BYTE_READY: bv32 := 0x02
  const CECR_TO_ME: bv32 := 0x04
  const CECR_MC: bv32 := 0x08
  const CECR_ACK: bv32 := 0x10
  const CECR_START: bv32 := 0x20

  const CEC_TX_CHECK_ACK: bv32 := 1
  const CEC_TX_CHECK_NACK: bv32 := 2
  const CEC_TX_NO_ACK: bv32 := 4

  function RxFlagsOf(w: bv32): RxFlags
  {
    RxFlags(Test(w, CECR_EOM), Test(w, CECR_BYTE_READY), Test(w, CECR_TO_ME), Test(w, CECR_MC), Test(w, CECR_ACK),
            Test(w, CECR_START))
  }

  function TxFlagsOf(w: bv32): TxFlags
  {
    TxFlags(Test(w, CEC_TX_CHECK_ACK), Test(w, CEC_TX_CHECK_NACK), Test(w, CEC_TX_NO_ACK))
  }

  /** No other bit of the transmit flags is ever set. */
  predicate TxWord(w: bv32) { w & 7 == w }

  predicate Broadcast(header: bv32) { header & 0xf == 0xf }

  predicate Addressed(header: bv32, mask: bv32) { (1 << (header & 0xf)) & mask != 0 }

  function AddressBit(k: nat): bv32
  {
    if k == 0 then 0x1 else if k == 1 then 0x2 else if k == 2 then 0x4 else if k == 3 then 0x8
    else if k == 4 then 0x10 else if k == 5 then 0x20 else if k == 6 then 0x40 else if k == 7 then 0x80
    else if k == 8 then 0x100 else if k == 9 then 0x200 else if k == 10 then 0x400 else if k == 11 then 0x800
    else if k == 12 then 0x1000 else if k == 13 then 0x2000 else if k == 14 then 0x4000 else 0x8000
  }

  /** The logical addresses of an acknowledge mask. */
  function MaskOf(w: bv32): set<nat> { set k: nat | k < 16 && Test(w, AddressBit(k)) }

  lemma SetEom(w: bv32)
    ensures RxFlagsOf(Or(w, CECR_EOM)) == RxFlagsOf(w).(eom := true)
  {}

  lemma SetByteReady(w: bv32)
    ensures RxFlagsOf(Or(w, CECR_BYTE_READY)) == RxFlagsOf(w).(byteReady := true)
  {}

  lemma SetToMe(w: bv32)
    ensures RxFlagsOf(Or(w, CECR_TO_ME)) == RxFlagsOf(w).(toMe := true)
  {}

  lemma SetMc(w: bv32)
    ensures RxFlagsOf(Or(w, CECR_MC)) == RxFlagsOf(w).(mc := true)
  {}

  lemma SetAckFlag(w: bv32)
    ensures RxFlagsOf(Or(w, CECR_ACK)) == RxFlagsOf(w).(ack := true)
  {}

  lemma SetStart(w: bv32)
    ensures RxFlagsOf(Or(w, CECR_START)) == RxFlagsOf(w).(start := true)
  {}

  lemma DropAck(w: bv32)
    ensures RxFlagsOf(AndNot(w, CECR_ACK)) == RxFlagsOf(w).(ack := false)
  {}

  lemma DropStart(w: bv32)
    ensures RxFlagsOf(AndNot(w, CECR_START)) == RxFlagsOf(w).(start := false)
  {}

  lemma AckFlags(w: bv32, level: bool)
    ensures RxFlagsOf(Or(if level then AndNot(w, CECR_ACK) else Or(w, CECR_ACK), CECR_BYTE_READY)) ==
      RxFlagsOf(w).(ack := !level, byteReady := true)
  {
    hide *;
    DropAck(w);
    SetAckFlag(w);
    SetByteReady(if level then AndNot(w, CECR_ACK) else Or(w, CECR_ACK));
  }

  lemma NoFlags()
    ensures RxFlagsOf(0) == NO_FLAGS
  {}

  lemma RxTests(w: bv32)
    ensures Test(w, CECR_EOM) == RxFlagsOf(w).eom && Test(w, CECR_TO_ME) == RxFlagsOf(w).toMe
    ensures Test(w, CECR_MC) == RxFlagsOf(w).mc
  {}

  lemma StartFlags()
    ensures TxFlagsOf(0) == TxFlags(false, false, false) && TxWord(0)
    ensures TxFlagsOf(Or(0, CEC_TX_CHECK_ACK)) == TxFlags(true, false, false) && TxWord(Or(0, CEC_TX_CHECK_ACK))
    ensures TxFlagsOf(Or(0, CEC_TX_CHECK_NACK)) == TxFlags(false, true, false) && TxWord(Or(0, CEC_TX_CHECK_NACK))
  {}

  lemma SetNoAck(w: bv32)
    ensures TxFlagsOf(Or(w, CEC_TX_NO_ACK)) == TxFlagsOf(w).(noAck := true)
    ensures TxWord(w) ==> TxWord(Or(w, CEC_TX_NO_ACK))
  {}

  lemma TxTests(w: bv32)
    requires TxWord(w)
    ensures Test(w, CEC_TX_CHECK_ACK) == TxFlagsOf(w).checkAck && Test(w, CEC_TX_CHECK_NACK) == TxFlagsOf(w).checkNack
    ensures Test(w, CEC_TX_NO_ACK) == TxFlagsOf(w).noAck
    ensures w != 0 <==> TxFlagsOf(w).checkAck || TxFlagsOf(w).checkNack || TxFlagsOf(w).noAck
  {}

  lemma LowHalf(w: bv32)
    ensures w & 0xf == 0xf <==> Nibble(w) == 15
    ensures Nibble(w) < 15 ==> (1 << (w & 0xf)) == AddressBit(Nibble(w))
  {}

  lemma AndSwap(a: bv32, b: bv32)
    ensures a & b != 0 <==> Test(b, a)
  {}

  /** The tests of the header byte. */
  lemma HeaderTests(w: bv32, mask: bv32)
    ensures Broadcast(w) <==> Num(w) % 16 == 15
    ensures !Broadcast(w) ==> (Addressed(w, mask) <==> Num(w) % 16 in MaskOf(mask))
  {
    LowHalf(w);
    LowByte(w);
    AndSwap(AddressBit(Nibble(w)), mask);
    hide Num, Nibble, AddressBit, Octet, Test;
  }

  // ----- The driver

  /** The receive variables. */
  datatype RxVars = RxVars(flags: bv32, tmp: bv32, byte: bv32, rbi: nat, ix: nat, inn: nat, out: nat)

  /** The transmit variables. */
  datatype TxVars = TxVars(flags: bv32, bi: nat, olen: nat, oix: nat, byteOut: bv32)

  /** rxbufs[4][17] lies line by line in memory. */
  function Lines(b: seq<nat>): seq<seq<nat>>
    requires |b| == 68
  {
    [b[0..17], b[17..34], b[34..51], b[51..68]]
  }

  function RxOf(r: RxVars, b: seq<nat>): Receiver
    requires |b| == 68
  {
    Receiver(RxFlagsOf(r.flags), Num(r.tmp), Num(r.byte), r.rbi, r.ix, r.inn, r.out, Lines(b))
  }

  function TxOf(t: TxVars, b: seq<nat>): Sender
  {
    Sender(TxFlagsOf(t.flags), t.bi, t.olen, t.oix, Num(t.byteOut), b)
  }

  predicate Bytes(b: seq<nat>) { forall i :: 0 <= i < |b| ==> b[i] < 256 }

  lemma PutLine(b: seq<nat>, line: nat, col: nat, v: nat)
    requires |b| == 68 && line < RXB_LINES && col < 17
    ensures Lines(b[17 * line + col := v]) == PutRing(Lines(b), line, col, v)
  {
    var c := b[17 * line + col := v];
    assert forall l :: 0 <= l < 4 && l != line ==> Lines(c)[l] == Lines(b)[l];
    assert Lines(c)[line] == Lines(b)[line][col := v];
  }

  lemma NoLine(b: seq<nat>, line: nat, col: nat, v: nat)
    requires |b| == 68 && line < RXB_LINES && col >= 17
    ensures PutRing(Lines(b), line, col, v) == Lines(b)
  {}

  class Driver {
    var mode: Mode
    var sub: nat
    var rx: RxVars
    var tx: TxVars
    var timer: Timer
    var sink: bool
    var irq: bool
    var pin: nat
    var ackMask: bv32
    var promisc: bool
    const rxbufs: array<nat>
    const txbuf: array<nat>

    ghost predicate Valid()
      reads this, txbuf
    {
      && rxbufs.Length == 68 && txbuf.Length == 16 && rxbufs != txbuf
      && TxWord(tx.flags) && Bytes(txbuf[..])
    }

    /** The station that the driver is. */
    ghost function St(): Station
      requires Valid()
      reads this, rxbufs, txbuf
    {
      Station(mode, sub, RxOf(rx, rxbufs[..]), TxOf(tx, txbuf[..]), timer, sink, irq, pin, MaskOf(ackMask), promisc)
    }

    constructor (mask: bv32)
      ensures Valid() && fresh(rxbufs) && fresh(txbuf)
      ensures CanSend(St()) && CanReceive(St()) && Unread(St().rx, []) && St().ackMask == MaskOf(mask)
    {
      mode, sub := Idle, 0;
      rx := RxVars(0, 0, 0, 0, 0, 0, 0);
      tx := TxVars(0, 0, 0, 0, 0);
      timer, sink, irq, pin, ackMask, promisc := Off, false, true, 2, mask, false;
      rxbufs := new nat[68](_ => 0);
      txbuf := new nat[16](_ => 0);
      new;
      NoFlags();
      StartFlags();
      hide Num, MaskOf, Test, Or, AndNot, RxFlagsOf, TxFlagsOf, TxWord;
    }

    // ----- Receive

    method StartSync(level: bool)
      requires Valid()
      modifies this
      ensures Valid() && St() == M.StartSync(old(St()), level)
    {
      hide Num, MaskOf, Test, Or, AndNot, RxFlagsOf, TxFlagsOf, TxWord, Lines, Bytes;
      if level {
        return;
      }
      rx := rx.(flags := 0);
      NoFlags();
      mode, sub := RInit, RSYNC_LOW;
      timer := In(3500);
    }

    method HandleRInit(level: bool)
      requires Valid()
      modifies this
      ensures Valid() && St() == M.RInitPin(old(St()), level)
    {
      hide Num, MaskOf, Test, Or, AndNot, RxFlagsOf, TxFlagsOf, TxWord, Lines, Bytes;
      if sub == RSYNC_TOH && level {
        sub := RSYNC_HI1;
      } else if sub == RSYNC_TOL && !level {
        timer := In(1050);
        mode, sub := Rec, REC_PLB_I;
        rx := rx.(rbi := 8, tmp := 0);
        Unfold(0);
      } else if sub <= RSYNC_TOL {
        mode, sub := Idle, 0;
        timer := Off;
      }
    }

    method HandleRSyncTout()
      requires Valid()
      modifies this
      ensures Valid() && St() == M.RInitTimeout(old(St()))
    {
      hide Num, MaskOf, Test, Or, AndNot, RxFlagsOf, TxFlagsOf, TxWord, Lines, Bytes;
      if sub == RSYNC_LOW {
        sub, timer := RSYNC_TOH, In(500);
      } else if sub == RSYNC_HI1 {
        sub, timer := RSYNC_HI2, In(400);
      } else if sub == RSYNC_HI2 {
        sub, timer := RSYNC_TOL, In(500);
      } else if sub <= RSYNC_TOL {
        mode, sub := Idle, 0;
      }
    }

    method PutByte(col: nat, v: nat)
      requires Valid()
      modifies rxbufs
      ensures Valid() && RxOf(rx, rxbufs[..]) ==
        old(RxOf(rx, rxbufs[..])).(ring := PutRing(old(Lines(rxbufs[..])), rx.inn % RXB_LINES, col, v))
    {
      var line := rx.inn % RXB_LINES;
      if col < 17 {
        PutLine(rxbufs[..], line, col, v);
        ghost var b := rxbufs[..];
        rxbufs[17 * line + col] := v;
        assert rxbufs[..] == b[17 * line + col := v];
      } else {
        NoLine(rxbufs[..], line, col, v);
      }
      hide Test, Or, AndNot, Num, RxFlagsOf, TxFlagsOf, TxWord, Lines, Bytes, PutRing;
    }

    /** The end of a frame that is for us: its length goes in front and the ring moves on. */
    method Publish()
      requires Valid()
      modifies this`rx, rxbufs
      ensures Valid() && rx == old(rx).(inn := rx.inn)
      ensures RxOf(rx, rxbufs[..]) == M.Publish(old(RxOf(rx, rxbufs[..])), promisc)
    {
      hide Test, Or, AndNot, Num, RxFlagsOf, TxFlagsOf, TxWord, Lines, Bytes, M.PutRing;
      RxTests(rx.flags);
      if Test(rx.flags, CECR_EOM) && (promisc || Test(rx.flags, CECR_TO_ME) || Test(rx.flags, CECR_MC)) {
        PutByte(0, rx.ix % 256);
        rx := rx.(inn := rx.inn + 1);
      }
    }

    method SetAck()
      requires Valid()
      modifies this, rxbufs
      ensures Valid() && St() == M.SetAck(old(St()))
    {
      hide Num, MaskOf, Test, Or, AndNot, RxFlagsOf, TxFlagsOf, TxWord, Lines, Bytes, M.Publish;
      if mode == RecA {
        SetByteReady(rx.flags);
        rx := rx.(flags := Or(rx.flags, CECR_BYTE_READY));
        Publish();
        sink := true;
        sub, timer := REC_ACK_E, In(1500);
      } else {
        timer := In(1050);
        sub := REC_ACK_I;
      }
    }

    method HandleCecRec(level: bool)
      requires Valid()
      modifies this, rxbufs
      ensures Valid() && St() == M.RecPin(old(St()), level)
    {
      hide Num, MaskOf, Test, Or, AndNot, RxOf, TxOf, TxWord, Bytes, M.SetAck;
      if level {
        return;
      }
      if sub == REC_PLB_N {
        timer := In(1050);
        sub := if rx.rbi == 0 then REC_EOM_I else REC_PLB_I;
        SameRbi(rx, rxbufs[..]);
      } else if sub == REC_EOM_N {
        SetAck();
      } else if sub <= REC_ACK_E {
        mode, sub := Idle, 0;
      }
    }

    /** The header byte decides how the rest of the frame is handled. */
    method HeaderByte()
      requires Valid()
      modifies this`rx, this`mode
      ensures Valid() && (mode, RxOf(rx, rxbufs[..])) == M.Header(old(RxOf(rx, rxbufs[..])), MaskOf(ackMask))
    {
      hide Num, MaskOf, Test, Or, AndNot, RxFlagsOf, TxFlagsOf, TxWord, Lines, Bytes, Broadcast, Addressed;
      SetStart(rx.flags);
      rx := rx.(flags := Or(rx.flags, CECR_START), byte := rx.tmp, ix := 0);
      HeaderTests(rx.byte, ackMask);
      SetMc(rx.flags);
      SetToMe(rx.flags);
      if Broadcast(rx.byte) {
        rx := rx.(flags := Or(rx.flags, CECR_MC));
        mode := RecP;
      } else if Addressed(rx.byte, ackMask) {
        mode := RecA;
        rx := rx.(flags := Or(rx.flags, CECR_TO_ME));
      } else {
        mode := RecP;
      }
    }

    method GotByte()
      requires Valid()
      modifies this`rx, this`mode, rxbufs
      ensures Valid()
      ensures (mode, RxOf(rx, rxbufs[..])) == M.GotByte(old(RxOf(rx, rxbufs[..])), old(mode), MaskOf(ackMask), promisc)
    {
      hide Num, MaskOf, Test, Or, AndNot, RxFlagsOf, TxFlagsOf, TxWord, Lines, Bytes, M.Header, M.PutRing, Octet;
      if mode == Rec {
        HeaderByte();
      } else {
        DropStart(rx.flags);
        Unfold(0);
        rx := rx.(flags := AndNot(rx.flags, CECR_START), byte := rx.tmp, tmp := 0);
      }
      RxTests(rx.flags);
      LowByte(rx.byte);
      if promisc || Test(rx.flags, CECR_TO_ME) || Test(rx.flags, CECR_MC) {
        PutByte(rx.ix + 1, Octet(rx.byte));
        rx := rx.(ix := rx.ix + 1);
      }
    }

    method GetBit(level: bool)
      requires Valid()
      modifies this, rxbufs
      ensures Valid() && St() == M.GetBit(old(St()), level)
    {
      hide Num, MaskOf, Test, Or, AndNot, RxFlagsOf, TxFlagsOf, TxWord, Lines, Bytes, M.GotByte, Twice;
      TwiceNum(rx.tmp, level);
      rx := rx.(tmp := Twice(rx.tmp, level), rbi := (rx.rbi + M.WRAP - 1) % M.WRAP);
      if rx.rbi == 0 {
        GotByte();
      }
      sub, timer := REC_PLB_E, In(750);
    }

    method GetEom(level: bool)
      requires Valid()
      modifies this
      ensures Valid() && St() == M.GetEom(old(St()), level)
    {
      hide Num, MaskOf, Test, Or, AndNot, RxFlagsOf, TxFlagsOf, TxWord, Lines, Bytes;
      SetEom(rx.flags);
      if level {
        rx := rx.(flags := Or(rx.flags, CECR_EOM));
      } else {
        rx := rx.(rbi := 8);
      }
      sub, timer := REC_EOM_E, In(700);
    }

    method NoteAck(level: bool)
      requires Valid()
      modifies this`rx
      ensures Valid() && var r := old(RxOf(rx, rxbufs[..])); RxOf(rx, rxbufs[..]) == r.(flags := r.flags.(ack := !level, byteReady := true))
    {
      hide Test, Or, AndNot, Num, RxFlagsOf, TxFlagsOf, TxWord, Lines, Bytes;
      AckFlags(rx.flags, level);
      rx := rx.(flags := if level then AndNot(rx.flags, CECR_ACK) else Or(rx.flags, CECR_ACK));
      rx := rx.(flags := Or(rx.flags, CECR_BYTE_READY));
    }

    method GetAck(level: bool)
      requires Valid()
      modifies this, rxbufs
      ensures Valid() && St() == M.GetAck(old(St()), level)
    {
      hide Num, MaskOf, Test, Or, AndNot, RxOf, TxOf, TxWord, Bytes, M.Publish;
      NoteAck(level);
      Publish();
      if !level && mode == Rec {
        mode := RecP;
      }
      sub, timer := REC_ACK_E, In(700);
    }

    method AckEnd()
      requires Valid()
      modifies this
      ensures Valid() && St() == M.AckEnd(old(St()))
    {
      hide Num, MaskOf, Test, Or, AndNot, RxOf, TxOf, TxWord, Bytes;
      EomIs(rx, rxbufs[..]);
      if mode == RecA {
        pin := 1;
        sink := false;
      }
      if Test(rx.flags, CECR_EOM) {
        mode, sub := TxGuard, 0;
        timer := In(2400 * 5);
      } else {
        sub, timer := REC_PLB_N, In(1200);
      }
    }

    method HandleRecTout(level: bool)
      requires Valid()
      modifies this, rxbufs
      ensures Valid() && St() == M.RecTimeout(old(St()), level)
    {
      hide Num, MaskOf, Test, Or, AndNot, RxOf, TxOf, TxWord, Bytes, M.GetBit, M.GetEom, M.GetAck, M.AckEnd;
      if sub == REC_PLB_I {
        GetBit(level);
      } else if sub == REC_PLB_E && level {
        sub, timer := REC_PLB_N, In(1000);
      } else if sub == REC_EOM_I {
        GetEom(level);
      } else if sub == REC_EOM_E && level {
        sub, timer := REC_EOM_N, In(1000);
      } else if sub == REC_ACK_I {
        GetAck(level);
      } else if sub == REC_ACK_E {
        AckEnd();
      } else if sub <= REC_ACK_E {
        mode, sub := Idle, 0;
      }
    }

    // ----- Transmit

    method ShiftOut()
      requires Valid() && tx.bi > 0
      modifies this`tx
      ensures Valid()
      ensures var t := old(TxOf(tx, txbuf[..])); TxOf(tx, txbuf[..]) == t.(bi := t.bi - 1, byteOut := (t.byteOut * 2) % M.WRAP)
    {
      hide Num, TxFlagsOf, TxWord, Bytes, Twice;
      TwiceNum(tx.byteOut, false);
      tx := tx.(bi := tx.bi - 1, byteOut := Twice(tx.byteOut, false));
    }

    method SendBit()
      requires Valid()
      modifies this
      ensures Valid() && St() == M.SendBit(old(St()))
    {
      hide MaskOf, Test, RxOf, TxOf, TxWord, Bytes;
      TxParts(tx, txbuf[..]);
      sink := true;
      if tx.bi == 0 {
        if tx.olen == tx.oix + 1 {
          sub, timer := TX_EOM_LO_1, In(600);
        } else {
          sub, timer := TX_EOM_LO_0, In(1500);
        }
        return;
      }
      if Test(tx.byteOut, 0x80) {
        sub, timer := TX_OUT_LO_1, In(600);
      } else {
        sub, timer := TX_OUT_LO_0, In(1500);
      }
      ShiftOut();
    }

    method Release(next: nat, usec: nat)
      requires Valid()
      modifies this`sink, this`sub, this`timer
      ensures Valid() && St() == M.Release(old(St()), next, usec)
    {
      hide MaskOf, Test, Or, AndNot, RxOf, TxOf, TxWord, Bytes;
      sink := false;
      sub, timer := next, In(usec);
    }

    /** The next byte of the message goes into the shift register. */
    method LoadNext()
      requires Valid()
      modifies this`tx
      ensures Valid()
      ensures var t := old(TxOf(tx, txbuf[..]));
        TxOf(tx, txbuf[..]) == t.(byteOut := if t.oix < |t.buf| then t.buf[t.oix] else 0, bi := 8)
    {
      hide Num, TxFlagsOf, TxWord, WordOf;
      var byte := if tx.oix < 16 then txbuf[tx.oix] else 0;
      assert tx.oix < 16 ==> txbuf[..][tx.oix] == byte;
      WordNum(byte);
      tx := tx.(byteOut := WordOf(byte), bi := 8);
    }

    method AckSample(level: bool)
      requires Valid()
      modifies this
      ensures Valid() && St() == M.AckSample(old(St()), level)
    {
      hide Num, MaskOf, Test, Or, AndNot, RxOf, TxFlagsOf, TxWord, Bytes;
      TxTests(tx.flags);
      SetNoAck(tx.flags);
      timer := In(1350);
      if (Test(tx.flags, CEC_TX_CHECK_ACK) && level) ||
         (!Test(tx.flags, CEC_TX_CHECK_ACK) && Test(tx.flags, CEC_TX_CHECK_NACK) && !level) {
        tx := tx.(flags := Or(tx.flags, CEC_TX_NO_ACK));
        sub := TX_DONE;
        return;
      }
      tx := tx.(oix := tx.oix + 1);
      if tx.oix == tx.olen {
        sub := TX_DONE;
        return;
      }
      sub := TX_OUT_NEXT;
      LoadNext();
    }

    method HandleTxTout(level: bool)
      requires Valid()
      modifies this
      ensures Valid() && St() == M.TxTimeout(old(St()), level)
    {
      hide Num, MaskOf, Test, Or, AndNot, RxOf, TxOf, TxWord, Bytes, M.SendBit, M.AckSample;
      if sub == TX_INIT_LO {
        Release(TX_INIT_HI, 800);
      } else if sub == TX_INIT_HI || sub == TX_OUT_NEXT {
        SendBit();
      } else if sub == TX_OUT_LO_0 {
        Release(TX_OUT_NEXT, 900);
      } else if sub == TX_OUT_LO_1 {
        Release(TX_OUT_NEXT, 1800);
      } else if sub == TX_EOM_LO_0 {
        Release(TX_ACK_NEXT, 900);
      } else if sub == TX_EOM_LO_1 {
        Release(TX_ACK_NEXT, 1800);
      } else if sub == TX_ACK_NEXT {
        sink := true;
        sub, timer := TX_ACK_1, In(600);
      } else if sub == TX_ACK_1 {
        Release(TX_ACK_2, 450);
      } else if sub == TX_ACK_2 {
        AckSample(level);
      } else if sub == TX_DONE {
        mode, sub := TxGuard, 0;
        irq := true;
        timer := In(2400 * 7);
      }
    }

    /** memcpy of the message. */
    method CopyIn(data: seq<nat>)
      requires Valid() && |data| <= 16 && Bytes(data)
      modifies txbuf
      ensures Valid() && txbuf[..] == data + old(txbuf[..])[|data|..]
    {
      hide TxWord, Bytes;
      ghost var o := txbuf[..];
      var i := 0;
      while i < |data|
        invariant 0 <= i <= |data|
        invariant forall k :: 0 <= k < 16 ==> txbuf[k] == if k < i then data[k] else o[k]
      {
        txbuf[i] := data[i];
        i := i + 1;
      }
      assert txbuf[..] == data + o[|data|..];
      Over(data, o);
    }

    method SendCec(data: seq<nat>) returns (r: SendResult)
      requires Valid() && |data| > 0 && Bytes(data)
      modifies this, txbuf
      ensures Valid() && (St(), r) == M.SendCec(old(St()), data)
    {
      hide Num, MaskOf, Test, Or, AndNot, RxOf, TxFlagsOf, TxWord, WordOf, Bytes;
      TxTests(tx.flags);
      StartFlags();
      if |data| > 16 {
        return Error;
      }
      if mode != Idle || tx.flags != 0 {
        return Again;
      }
      irq := false;
      CopyIn(data);
      LoadByte(txbuf[..]);
      tx := TxVars(if data[0] % 16 == 15 then Or(0, CEC_TX_CHECK_NACK) else Or(0, CEC_TX_CHECK_ACK), 8, |data|, 0, WordOf(txbuf[0]));
      mode, sub := M.Tx, TX_INIT_LO;
      timer := In(3700);
      sink := true;
      r := InProgress;
    }

    // ----- Interrupts and reads

    method PinIrq(level: bool)
      requires Valid()
      modifies this, rxbufs
      ensures Valid() && St() == M.PinIrq(old(St()), level)
    {
      hide MaskOf, Test, Or, AndNot, RxOf, TxOf, TxWord, Bytes, M.StartSync, M.RInitPin, M.RecPin;
      var p := if level then 1 else 0;
      if p == pin {
        return;
      }
      pin := p;
      match mode {
        case TxGuard =>
          timer := Off;
          StartSync(level);
        case Idle => StartSync(level);
        case RInit => HandleRInit(level);
        case Rec => HandleCecRec(level);
        case RecA => HandleCecRec(level);
        case RecP => HandleCecRec(level);
        case Tx =>
      }
    }

    method CecTimeout(level: bool)
      requires Valid()
      modifies this, rxbufs
      ensures Valid() && St() == M.Timeout(old(St()), level)
    {
      hide MaskOf, Test, Or, AndNot, RxOf, TxOf, TxWord, Bytes, M.TxTimeout, M.RInitTimeout, M.RecTimeout;
      timer := Off;
      match mode {
        case Idle =>
        case Tx => HandleTxTout(level);
        case RInit => HandleRSyncTout();
        case Rec => HandleRecTout(level);
        case RecA => HandleRecTout(level);
        case RecP => HandleRecTout(level);
        case TxGuard => mode := Idle;
      }
    }

    method ReadFrame(size: nat) returns (r: ReadResult)
      requires Valid()
      modifies this`rx
      ensures Valid() && (St(), r) == M.ReadFrame(old(St()), size)
    {
      hide Num, MaskOf, Test, Or, AndNot, RxFlagsOf, TxOf, TxWord, Bytes, Lines;
      if rx.inn == rx.out {
        return ReadAgain;
      }
      var line := rx.out % RXB_LINES;
      var stored := rxbufs[17 * line];
      var len := if size < stored then size else stored;
      LinePart(rxbufs[..], line, len);
      rx := rx.(out := rx.out + 1);
      r := Got([]);
      if len + 1 <= 17 {
        assert rxbufs[17 * line + 1..17 * line + len + 1] == rxbufs[..][17 * line + 1..17 * line + len + 1];
        r := Got(rxbufs[17 * line + 1..17 * line + len + 1]);
      }
    }

    method GetResult() returns (r: int)
      requires Valid()
      modifies this`tx
      ensures Valid() && (St(), r) == M.GetResult(old(St()))
    {
      hide Num, MaskOf, Test, Or, AndNot, RxOf, TxFlagsOf, TxWord, Bytes;
      TxTests(tx.flags);
      StartFlags();
      if tx.flags == 0 {
        return -1;
      }
      r := if Test(tx.flags, CEC_TX_NO_ACK) then -2 else tx.olen;
      tx := tx.(flags := 0);
    }
  }

  lemma SameRbi(r: RxVars, b: seq<nat>)
    requires |b| == 68
    ensures RxOf(r, b).rbi == r.rbi
  {}

  lemma TxParts(t: TxVars, b: seq<nat>)
    ensures var x := TxOf(t, b);
      x.bi == t.bi && x.olen == t.olen && x.oix == t.oix && (Test(t.byteOut, 0x80) <==> (x.byteOut / 128) % 2 == 1)
  {
    TestTop(t.byteOut);
    hide Num, Test, TxFlagsOf;
  }

  lemma EomIs(r: RxVars, b: seq<nat>)
    requires |b| == 68
    ensures Test(r.flags, CECR_EOM) == RxOf(r, b).flags.eom
  {
    hide Test;
  }

  lemma OneLine(b: seq<nat>, line: nat)
    requires |b| == 68 && line < RXB_LINES
    ensures |Lines(b)| == RXB_LINES && Lines(b)[line] == b[17 * line..17 * line + 17]
  {
    assert line == 0 || line == 1 || line == 2 || line == 3;
  }

  lemma LinePart(b: seq<nat>, line: nat, len: nat)
    requires |b| == 68 && line < RXB_LINES
    ensures |Lines(b)| == RXB_LINES && |Lines(b)[line]| == 17 && Lines(b)[line][0] == b[17 * line]
    ensures len + 1 <= 17 ==> Lines(b)[line][1..len + 1] == b[17 * line + 1..17 * line + len + 1]
  {
    OneLine(b, line);
    hide Lines;
    if len + 1 <= 17 {
      Part(b, 17 * line, len);
    }
  }

  lemma Part(b: seq<nat>, i: nat, len: nat)
    requires i + 17 <= |b| && len < 17
    ensures b[i..i + 17][1..len + 1] == b[i + 1..i + len + 1]
  {
    var x, y := b[i..i + 17][1..len + 1], b[i + 1..i + len + 1];
    forall k | 0 <= k < len ensures x[k] == y[k] {
      assert b[i..i + 17][1 + k] == b[i + 1 + k];
    }
  }

  lemma Over(x: seq<nat>, y: seq<nat>)
    requires Bytes(x) && Bytes(y) && |x| <= |y|
    ensures Bytes(x + y[|x|..])
  {}

  lemma LoadByte(b: seq<nat>)
    requires |b| == 16 && Bytes(b)
    ensures Num(WordOf(b[0])) == b[0]
  {
    WordNum(b[0]);
  }
}
