/** The receiver on a waveform that is not one of a frame: each cell that misses its window ends the reception, and
    nothing is stored. */
module CecFaults {
  import opened CecModel
  import opened CecBus
  import opened CecLoopback
  import opened CecReceiver

  /** The falling edge after a cell. */
  function Fall(b: Station): Station { if b.irq && !b.sink then PinIrq(b, false) else b }

  /** No edge comes at the very moment at which a timer expires. */
  predicate Clear(c: Cell, times: set<nat>) { 0 < c.lo && 0 < c.hi && c.lo !in times && c.lo + c.hi !in times }

  /** The station has given up and has stored nothing. */
  predicate GivenUp(r: Station, b: Station) { !Receiving(r) && r.rx.inn == b.rx.inn && !r.sink }

  lemma BitKeeps(b: Station, bit: bool)
    ensures GetBit(b, bit).rx.inn == b.rx.inn
    ensures var r := GetBit(b, bit); r == Arm(b.(mode := r.mode, rx := r.rx), REC_PLB_E, 750)
    ensures Receiving(b) ==> Receiving(GetBit(b, bit))
  {
    hide PutRing;
  }

  /** The line is high after the probe of a data or end-of-message cell, and the next edge comes too early or too late. */
  lemma BadTail(x: Station, b: Station, sub: nat, t: nat, d: nat)
    requires Receiving(x) && x.sub == sub && (sub == REC_PLB_E || sub == REC_EOM_E) && x.pin == 1 && x.irq && !x.sink && x.timer == In(t)
    requires x.rx.inn == b.rx.inn && t > 0 && d > 0 && (d < t || d > t + 1000)
    ensures GivenUp(Fall(Hold(x, true, d)), b)
  {
    hide Hold;
    if d < t {
      HoldQuiet(x, true, d);
    } else {
      HoldFire(x, true, d);
      var y := Arm(x, if sub == REC_PLB_E then REC_PLB_N else REC_EOM_N, 1000);
      assert Settle(x, Timeout(x, true), true) == y;
      HoldFire(y, true, d - t);
      var f := Fail(y.(timer := Off));
      assert Settle(y, Timeout(y, true), true) == f;
      HoldOff(f, true, d - t - 1000);
    }
  }

  /** A data cell: after it and the next falling edge the station is still receiving if and only if the cell has the
      shape of a one or of a zero; otherwise it has given up. */
  lemma BitExact(b: Station, c: Cell)
    requires Ready(b) && b.rx.rbi > 0 && Clear(c, {1050, 1800, 2800})
    ensures var r := Fall(Through(b, c));
      if BitWindow(c, true) || BitWindow(c, false) then Receiving(r) else GivenUp(r, b)
  {
    if BitWindow(c, true) {
      AnyBit(b, c, true);
      StillReceiving(b.rx, true, b.mode, b.ackMask, b.promisc);
      hide ShiftIn, Through;
    } else if BitWindow(c, false) {
      AnyBit(b, c, false);
      StillReceiving(b.rx, false, b.mode, b.ackMask, b.promisc);
      hide ShiftIn, Through;
    } else {
      BadBit(b, c);
      hide Through;
    }
  }

  lemma BadBit(b: Station, c: Cell)
    requires Ready(b) && b.rx.rbi > 0 && Clear(c, {1050, 1800, 2800}) && !BitWindow(c, true) && !BitWindow(c, false)
    ensures GivenUp(Fall(Through(b, c)), b)
  {
    hide GetBit, Hold;
    var b0 := Arm(b.(pin := 0), REC_PLB_I, 1050);
    assert PinIrq(b, false) == b0;
    if c.lo < 1050 {
      HoldQuiet(b0, false, c.lo);
      var b1 := b0.(timer := In(1050 - c.lo), pin := 1);
      assert Rise(Hold(b0, false, c.lo)) == b1;
      if c.lo + c.hi < 1050 {
        HoldQuiet(b1, true, c.hi);
      } else {
        HoldFire(b1, true, c.hi);
        BitKeeps(b1.(timer := Off), true);
        var b2 := GetBit(b1.(timer := Off), true);
        BadTail(b2, b, REC_PLB_E, 750, c.lo + c.hi - 1050);
      }
    } else {
      HoldFire(b0, false, c.lo);
      BitKeeps(b0.(timer := Off), false);
      var b1 := GetBit(b0.(timer := Off), false);
      if c.lo < 1800 {
        HoldQuiet(b1, false, c.lo - 1050);
        var b2 := b1.(timer := In(1800 - c.lo), pin := 1);
        BadTail(b2, b, REC_PLB_E, 1800 - c.lo, c.hi);
      } else {
        HoldFire(b1, false, c.lo - 1050);
        var f := Fail(b1.(timer := Off));
        HoldOff(f, false, c.lo - 1800);
        HoldOff(f.(pin := 1), true, c.hi);
      }
    }
  }

  lemma EomKeeps(b: Station, level: bool)
    ensures var r := GetEom(b, level); r == Arm(b.(rx := r.rx), REC_EOM_E, 700) && r.rx.inn == b.rx.inn
  {}

  /** The same for an end-of-message cell. */
  lemma EomExact(b: Station, c: Cell)
    requires Ready(b) && b.rx.rbi == 0 && Clear(c, {1050, 1750, 2750})
    ensures var r := Fall(Through(b, c));
      if EomWindow(c, true) || EomWindow(c, false) then Receiving(r) else GivenUp(r, b)
  {
    if EomWindow(c, true) {
      AnyEom(b, c, true);
      hide Through;
    } else if EomWindow(c, false) {
      AnyEom(b, c, false);
      hide Through;
    } else {
      BadEom(b, c);
      hide Through;
    }
  }

  lemma BadEom(b: Station, c: Cell)
    requires Ready(b) && b.rx.rbi == 0 && Clear(c, {1050, 1750, 2750}) && !EomWindow(c, true) && !EomWindow(c, false)
    ensures GivenUp(Fall(Through(b, c)), b)
  {
    hide GetEom, Hold;
    var b0 := Arm(b.(pin := 0), REC_EOM_I, 1050);
    assert PinIrq(b, false) == b0;
    if c.lo < 1050 {
      HoldQuiet(b0, false, c.lo);
      var b1 := b0.(timer := In(1050 - c.lo), pin := 1);
      assert Rise(Hold(b0, false, c.lo)) == b1;
      if c.lo + c.hi < 1050 {
        HoldQuiet(b1, true, c.hi);
      } else {
        HoldFire(b1, true, c.hi);
        EomKeeps(b1.(timer := Off), true);
        BadTail(GetEom(b1.(timer := Off), true), b, REC_EOM_E, 700, c.lo + c.hi - 1050);
      }
    } else {
      HoldFire(b0, false, c.lo);
      EomKeeps(b0.(timer := Off), false);
      var b1 := GetEom(b0.(timer := Off), false);
      if c.lo < 1750 {
        HoldQuiet(b1, false, c.lo - 1050);
        BadTail(b1.(timer := In(1750 - c.lo), pin := 1), b, REC_EOM_E, 1750 - c.lo, c.hi);
      } else {
        HoldFire(b1, false, c.lo - 1050);
        var f := Fail(b1.(timer := Off));
        HoldOff(f, false, c.lo - 1750);
        HoldOff(f.(pin := 1), true, c.hi);
      }
    }
  }

  // ----- Acknowledge cells

  /** A listener between two bytes waits for the next cell exactly if the acknowledge cell has the right length. */
  lemma PassiveExact(b: Station, c: Cell)
    requires ReadyAck(b) && b.mode == RecP && !b.rx.flags.eom && Clear(c, {1050, 1750, 2950})
    ensures var r := Fall(Through(b, c));
      if AckWindow(c, RecP) then Receiving(r) else GivenUp(r, b)
  {
    if AckWindow(c, RecP) {
      AnyPassiveAck(b, c);
      PublishFlags(b.rx.(flags := b.rx.flags.(ack := c.lo > 1050, byteReady := true)), b.promisc);
      hide Through, Publish;
    } else {
      BadPassive(b, c);
      hide Through;
    }
  }

  lemma BadPassive(b: Station, c: Cell)
    requires ReadyAck(b) && b.mode == RecP && !b.rx.flags.eom && Clear(c, {1050, 1750, 2950}) && !AckWindow(c, RecP)
    ensures GivenUp(Fall(Through(b, c)), b)
  {
    hide Hold;
    var b0 := Arm(b.(pin := 0), REC_ACK_I, 1050);
    assert PinIrq(b, false) == b0;
    if c.lo < 1050 {
      HoldQuiet(b0, false, c.lo);
      var b1 := b0.(timer := In(1050 - c.lo), pin := 1);
      assert Rise(Hold(b0, false, c.lo)) == b1;
      if c.lo + c.hi < 1050 {
        HoldQuiet(b1, true, c.hi);
      } else {
        HoldFire(b1, true, c.hi);
        AckTail(GetAck(b1, true), b, true, 700, c.lo + c.hi - 1050);
      }
    } else {
      HeldPassive(b, b0, c);
    }
  }

  lemma HeldPassive(b: Station, b0: Station, c: Cell)
    requires ReadyAck(b) && b.mode == RecP && !b.rx.flags.eom && Clear(c, {1050, 1750, 2950}) && !AckWindow(c, RecP) && c.lo > 1050
    requires b0 == Arm(b.(pin := 0), REC_ACK_I, 1050) && PinIrq(b, false) == b0
    ensures GivenUp(Fall(Through(b, c)), b)
  {
    hide Hold;
    HoldFire(b0, false, c.lo);
    var b1 := GetAck(b0, false);
    if c.lo < 1750 {
      HoldQuiet(b1, false, c.lo - 1050);
      AckTail(b1.(timer := In(1750 - c.lo), pin := 1), b, true, 1750 - c.lo, c.hi);
    } else {
      LateTail(b1, b, c);
    }
  }

  /** The same for the rest of an acknowledge cell. */
  lemma AckTail(x: Station, b: Station, level: bool, t: nat, d: nat)
    requires x.mode == RecP && x.sub == REC_ACK_E && x.pin == 1 && x.irq && !x.sink && x.timer == In(t) && !x.rx.flags.eom && level
    requires x.rx.inn == b.rx.inn && t > 0 && d > 0 && (d < t || d > t + 1200)
    ensures GivenUp(Fall(Hold(x, level, d)), b)
  {
    hide Hold;
    if d < t {
      HoldQuiet(x, true, d);
    } else {
      HoldFire(x, true, d);
      var y := Arm(x, REC_PLB_N, 1200);
      assert Settle(x, Timeout(x, true), true) == y;
      HoldFire(y, true, d - t);
      var f := Fail(y.(timer := Off));
      assert Settle(y, Timeout(y, true), true) == f;
      HoldOff(f, true, d - t - 1200);
    }
  }

  /** The line is still low when the cell of the listener is over. */
  lemma LateTail(x: Station, b: Station, c: Cell)
    requires x.mode == RecP && x.sub == REC_ACK_E && x.pin == 0 && x.irq && !x.sink && x.timer == In(700) && !x.rx.flags.eom
    requires x.rx.inn == b.rx.inn && c.lo > 1750 && c.hi > 0 && c.lo != 2950 && c.lo + c.hi > 2950
    ensures GivenUp(Fall(Hold(Rise(Hold(x, false, c.lo - 1050)), true, c.hi)), b)
  {
    hide Hold;
    HoldFire(x, false, c.lo - 1050);
    var y := Arm(x, REC_PLB_N, 1200);
    assert Settle(x, Timeout(x, false), false) == y;
    var f := Fail(y.(timer := Off));
    if c.lo > 2950 {
      HoldFire(y, false, c.lo - 1750);
      assert Settle(y, Timeout(y, false), false) == f;
      HoldOff(f, false, c.lo - 2950);
      HoldOff(f.(pin := 1), true, c.hi);
    } else {
      HoldQuiet(y, false, c.lo - 1750);
      var z := y.(timer := In(2950 - c.lo), pin := 1);
      HoldFire(z, true, c.hi);
      assert Settle(z, Timeout(z, true), true) == f.(pin := 1);
      HoldOff(f.(pin := 1), true, c.lo + c.hi - 2950);
    }
  }

  /** An addressed station between two bytes, once it has let go of the line, waits for the next cell exactly if that
      comes in time. */
  lemma ActiveExact(b: Station, c: Cell)
    requires ReadyAck(b) && b.mode == RecA && !b.rx.flags.eom && Clear(c, {1500, 2700}) && c.lo + c.hi > 1500
    ensures var r := Fall(Through(b, c));
      if AckWindow(c, RecA) then Receiving(r) else GivenUp(r, b)
  {
    if AckWindow(c, RecA) {
      AnyActiveAck(b, c);
      PublishFlags(b.rx.(flags := b.rx.flags.(byteReady := true)), b.promisc);
      hide Through, Publish;
    } else {
      LateActive(b, c);
      hide Through;
    }
  }

  lemma LateActive(b: Station, c: Cell)
    requires ReadyAck(b) && b.mode == RecA && !b.rx.flags.eom && Clear(c, {1500, 2700}) && c.lo + c.hi > 2700
    ensures GivenUp(Fall(Through(b, c)), b)
  {
    hide Hold;
    var b0 := Arm(b.(pin := 0, sink := true, rx := b.rx.(flags := b.rx.flags.(byteReady := true))), REC_ACK_E, 1500);
    assert PinIrq(b, false) == b0;
    var e := Arm(b0.(pin := 1, sink := false), REC_PLB_N, 1200);
    var f := Fail(e.(timer := Off));
    if c.lo < 1500 {
      HoldQuiet(b0, false, c.lo);
      var b1 := b0.(timer := In(1500 - c.lo));
      assert Rise(Hold(b0, false, c.lo)) == b1;
      HoldFire(b1, true, c.hi);
      assert Settle(b1, Timeout(b1, false), true) == e;
      HoldFire(e, true, c.lo + c.hi - 1500);
      assert Settle(e, Timeout(e, true), true) == f;
      HoldOff(f, true, c.lo + c.hi - 2700);
    } else {
      HoldFire(b0, false, c.lo);
      assert Settle(b0, Timeout(b0, false), false) == e;
      LateHeld(e, b, c);
    }
  }

  /** The others hold the line longer than the station that acknowledges. */
  lemma LateHeld(e: Station, b: Station, c: Cell)
    requires e.mode == RecA && e.sub == REC_PLB_N && !e.sink && e.irq && e.pin == 1 && e.timer == In(1200) && e.rx.inn == b.rx.inn
    requires c.lo > 1500 && c.hi > 0 && c.lo != 2700 && c.lo + c.hi > 2700
    ensures GivenUp(Fall(Hold(Rise(Hold(e, false, c.lo - 1500)), true, c.hi)), b)
  {
    hide Hold;
    var f := Fail(e.(timer := Off));
    if c.lo > 2700 {
      HoldFire(e, false, c.lo - 1500);
      assert Settle(e, Timeout(e, false), false) == f;
      HoldOff(f, false, c.lo - 2700);
      assert Rise(f) == f;
      HoldOff(f, true, c.hi);
    } else {
      HoldQuiet(e, false, c.lo - 1500);
      var z := e.(timer := In(2700 - c.lo));
      assert Rise(z) == z;
      HoldFire(z, true, c.hi);
      assert Settle(z, Timeout(z, true), true) == f;
      HoldOff(f, true, c.lo + c.hi - 2700);
    }
  }

  // ----- The start bit

  /** An idle station takes a low and a high part for a start bit exactly if both are inside the windows: only then
      does the next falling edge begin a reception. */
  lemma StartExact(b: Station, c: Cell)
    requires CanReceive(b) && Clear(c, {3500, 4000, 4400, 4900})
    ensures var r := Fall(Through(b, c));
      if StartWindow(c) then r.mode == Rec && r.rx.rbi == 8 && r.rx.tmp == 0 else GivenUp(r, b)
  {
    hide Hold;
    var b0 := Arm(b.(mode := RInit, rx := b.rx.(flags := NO_FLAGS), pin := 0), RSYNC_LOW, 3500);
    assert PinIrq(b, false) == b0;
    if c.lo < 3500 {
      HoldQuiet(b0, false, c.lo);
      var f := Fail(b0.(pin := 1, timer := Off));
      assert Rise(Hold(b0, false, c.lo)) == f;
      HoldOff(f, true, c.hi);
    } else {
      HoldFire(b0, false, c.lo);
      var b1 := Arm(b0, RSYNC_TOH, 500);
      assert Settle(b0, Timeout(b0, false), false) == b1;
      if c.lo > 4000 {
        HoldFire(b1, false, c.lo - 3500);
        var f := Fail(b1.(timer := Off));
        assert Settle(b1, Timeout(b1, false), false) == f;
        HoldOff(f, false, c.lo - 4000);
        HoldOff(f.(pin := 1), true, c.hi);
      } else {
        HoldQuiet(b1, false, c.lo - 3500);
        StartHigh(Arm(b1.(pin := 1), RSYNC_HI1, 4000 - c.lo), b, c);
      }
    }
  }

  /** The high part of a start bit. */
  lemma StartHigh(x: Station, b: Station, c: Cell)
    requires 3500 < c.lo < 4000 && c.hi > 0 && c.lo + c.hi !in {4000, 4400, 4900}
    requires x.mode == RInit && x.sub == RSYNC_HI1 && x.timer == In(4000 - c.lo) && x.pin == 1 && x.irq && !x.sink && x.rx.inn == b.rx.inn
    ensures var r := Fall(Hold(x, true, c.hi));
      if StartWindow(c) then r.mode == Rec && r.rx.rbi == 8 && r.rx.tmp == 0 else GivenUp(r, b)
  {
    hide Hold;
    var sum := c.lo + c.hi;
    if sum < 4000 {
      HoldQuiet(x, true, c.hi);
    } else {
      HoldFire(x, true, c.hi);
      var y := Arm(x, RSYNC_HI2, 400);
      assert Settle(x, Timeout(x, true), true) == y;
      if sum < 4400 {
        HoldQuiet(y, true, sum - 4000);
      } else {
        HoldFire(y, true, sum - 4000);
        var z := Arm(y, RSYNC_TOL, 500);
        assert Settle(y, Timeout(y, true), true) == z;
        if sum < 4900 {
          HoldQuiet(z, true, sum - 4400);
        } else {
          HoldFire(z, true, sum - 4400);
          var f := Fail(z.(timer := Off));
          assert Settle(z, Timeout(z, true), true) == f;
          HoldOff(f, true, sum - 4900);
        }
      }
    }
  }

  // ----- Any place in a frame

  /** Cell `p` of the ten cells of a byte is next: eight bits, the end of message, the acknowledge. */
  predicate At(b: Station, p: nat)
  {
    if p < 8 then Ready(b) && b.rx.rbi == 8 - p else if p == 8 then Ready(b) && b.rx.rbi == 0 && b.mode != Rec else ReadyAck(b)
  }

  predicate InShape(b: Station, p: nat, c: Cell)
  {
    if p < 8 then BitWindow(c, true) || BitWindow(c, false)
    else if p == 8 then EomWindow(c, true) || EomWindow(c, false) else AckWindow(c, b.mode)
  }

  const EXPIRIES: set<nat> := {1050, 1500, 1750, 1800, 2700, 2750, 2800, 2950}

  lemma BitNext(b: Station, p: nat, bit: bool)
    requires p < 8 && Ready(b) && b.rx.rbi == 8 - p
    ensures var r := BitIn(b, bit); Receiving(r) && r.rx.rbi == 7 - p && (p == 7 ==> r.mode != Rec)
  {
    hide PutRing;
  }

  /** Every cell of a frame, but for the acknowledge that ends it: one of the right shape leads to the next cell, any
      other ends the reception at the edge after it, and nothing is stored. */
  lemma CellExact(b: Station, p: nat, c: Cell)
    requires p < 10 && At(b, p) && Clear(c, EXPIRIES) && (p == 9 ==> !b.rx.flags.eom && (b.mode == RecA ==> c.lo + c.hi > 1500))
    ensures if InShape(b, p, c) then Receiving(Fall(Through(b, c))) && (p == 9 ==> Ready(Through(b, c))) && (p < 9 ==> At(Through(b, c), p + 1))
            else GivenUp(Fall(Through(b, c)), b)
  {
    hide Through, ShiftIn, Publish;
    if p < 8 {
      BitExact(b, c);
      if InShape(b, p, c) { BitLeads(b, p, c); }
    } else if p == 8 {
      EomExact(b, c);
      if InShape(b, p, c) { EomLeads(b, c); }
    } else if b.mode == RecA {
      ActiveExact(b, c);
      if InShape(b, p, c) { AnyActiveAck(b, c); PublishFlags(b.rx.(flags := b.rx.flags.(byteReady := true)), b.promisc); }
    } else {
      PassiveExact(b, c);
      if InShape(b, p, c) {
        AnyPassiveAck(b, c);
        PublishFlags(b.rx.(flags := b.rx.flags.(ack := c.lo > 1050, byteReady := true)), b.promisc);
      }
    }
  }

  lemma BitLeads(b: Station, p: nat, c: Cell)
    requires p < 8 && At(b, p) && InShape(b, p, c)
    ensures At(Through(b, c), p + 1)
  {
    hide Through, BitIn;
    var bit := BitWindow(c, true);
    AnyBit(b, c, bit);
    BitNext(b, p, bit);
    BitStays(b, bit);
  }

  lemma BitStays(b: Station, bit: bool)
    ensures var r := BitIn(b, bit); r == b.(mode := r.mode, rx := r.rx, sub := REC_PLB_N, timer := In(1000))
  {
    hide ShiftIn;
  }

  lemma EomLeads(b: Station, c: Cell)
    requires At(b, 8) && InShape(b, 8, c)
    ensures At(Through(b, c), 9)
  {
    hide Through;
    AnyEom(b, c, EomWindow(c, true));
  }

  // ----- Whose messages are stored

  datatype Event = Pin(level: bool) | Timer(level: bool)

  function React(s: Station, e: Event): Station { if e.Pin? then PinIrq(s, e.level) else Timeout(s, e.level) }

  lemma ByteWanted(r: Receiver, mode: Mode, ackMask: set<nat>, promisc: bool)
    ensures var r1 := GotByte(r, mode, ackMask, promisc).1;
      && r1.inn == r.inn && r1.flags.eom == r.flags.eom && (!Wanted(r1, promisc) ==> r1.ring == r.ring)
      && (Wanted(r1, promisc) && !Wanted(r, promisc) ==> r1.byte % 16 == 15 || r1.byte % 16 in ackMask)
  {
    hide PutRing;
  }

  lemma ShiftWanted(r: Receiver, level: bool, mode: Mode, ackMask: set<nat>, promisc: bool)
    ensures var r1 := ShiftIn(r, level, mode, ackMask, promisc).1;
      && r1.inn == r.inn && (!Wanted(r1, promisc) ==> r1.ring == r.ring)
      && (Wanted(r1, promisc) && !Wanted(r, promisc) ==> r1.byte % 16 == 15 || r1.byte % 16 in ackMask)
  {
    hide GotByte;
    var v := r.(tmp := (r.tmp * 2 + (if level then 1 else 0)) % WRAP, rbi := (r.rbi + WRAP - 1) % WRAP);
    ByteWanted(v, mode, ackMask, promisc);
  }

  lemma PublishWanted(r: Receiver, promisc: bool)
    ensures var r1 := Publish(r, promisc);
      r1.flags == r.flags && r1.byte == r.byte && (!Wanted(r, promisc) ==> r1 == r)
  {
    hide PutRing;
  }

  /** No event stores anything of a message that the station does not want, and it starts to want one only when a
      header names all stations or one of its addresses. */
  lemma OnlyWanted(s: Station, e: Event)
    ensures var r := React(s, e);
      && r.ackMask == s.ackMask && r.promisc == s.promisc
      && (!Wanted(r.rx, s.promisc) ==> r.rx.ring == s.rx.ring && r.rx.inn == s.rx.inn)
      && (Wanted(r.rx, s.promisc) && !Wanted(s.rx, s.promisc) ==> r.rx.byte % 16 == 15 || r.rx.byte % 16 in s.ackMask)
  {
    hide PinIrq, Timeout;
    PinWanted(s, e.level);
    TimerWanted(s, e.level);
  }

  /** What a handler of the receiver may do to what is stored. */
  predicate Careful(s: Station, r: Station)
  {
    && r.ackMask == s.ackMask && r.promisc == s.promisc
    && (!Wanted(r.rx, s.promisc) ==> r.rx.ring == s.rx.ring && r.rx.inn == s.rx.inn)
    && (Wanted(r.rx, s.promisc) && !Wanted(s.rx, s.promisc) ==> r.rx.byte % 16 == 15 || r.rx.byte % 16 in s.ackMask)
  }

  lemma RecPinWanted(s: Station, level: bool)
    ensures var r := RecPin(s, level); Careful(s, r) && r.rx.flags.toMe == s.rx.flags.toMe && r.rx.flags.mc == s.rx.flags.mc
  {
    PublishWanted(s.rx.(flags := s.rx.flags.(byteReady := true)), s.promisc);
    hide Publish;
  }

  lemma PinWanted(s: Station, level: bool)
    ensures Careful(s, PinIrq(s, level))
  {
    var s1 := s.(pin := if level then 1 else 0);
    var s2 := s1.(timer := Off);
    PinTurns(s, level);
    RecPinWanted(s1, level);
    RInitWanted(s1, level);
    StartWanted(s1, level);
    StartWanted(s2, level);
    var r := PinIrq(s, level);
    hide *;
    if r != s && r != s1 { if Careful(s1, r) { SameCare(s, s1, r); } else { SameCare(s, s2, r); } }
  }

  lemma PinTurns(s: Station, level: bool)
    ensures var r, s1 := PinIrq(s, level), s.(pin := if level then 1 else 0);
      || r == s || r == s1 || r == StartSync(s1, level) || r == StartSync(s1.(timer := Off), level)
      || r == RInitPin(s1, level) || r == RecPin(s1, level)
    ensures Careful(s, s) && Careful(s, s.(pin := if level then 1 else 0))
  {
    hide StartSync, RInitPin, RecPin;
  }

  lemma SameCare(s: Station, s1: Station, r: Station)
    requires s1 == s.(pin := s1.pin, timer := s1.timer) && Careful(s1, r)
    ensures Careful(s, r)
  {}

  lemma StartWanted(s: Station, level: bool)
    ensures Careful(s, StartSync(s, level))
  {}

  lemma RInitWanted(s: Station, level: bool)
    ensures Careful(s, RInitPin(s, level)) && Careful(s, RInitTimeout(s))
  {}

  lemma RecWanted(s: Station, level: bool)
    ensures Careful(s, RecTimeout(s, level))
  {
    BitWanted(s, level);
    AckWanted(s, level);
    hide GetBit, GetAck;
  }

  lemma BitWanted(s: Station, level: bool)
    ensures Careful(s, GetBit(s, level))
  {
    ShiftWanted(s.rx, level, s.mode, s.ackMask, s.promisc);
    hide ShiftIn;
  }

  lemma AckWanted(s: Station, level: bool)
    ensures Careful(s, GetAck(s, level))
  {
    PublishWanted(s.rx.(flags := s.rx.flags.(ack := !level, byteReady := true)), s.promisc);
    hide Publish;
  }

  lemma TimerWanted(s: Station, level: bool)
    ensures Careful(s, Timeout(s, level))
  {
    var s0 := s.(timer := Off);
    RecWanted(s0, level);
    RInitWanted(s0, level);
    SendKeeps(s0, level);
    hide RecTimeout, RInitTimeout, TxTimeout;
  }

  lemma SendKeeps(s: Station, level: bool)
    ensures var r := TxTimeout(s, level); r.rx == s.rx && r.ackMask == s.ackMask && r.promisc == s.promisc
  {
    BitSent(s);
    AckSeen(s, level);
    hide SendBit, AckSample;
  }

  lemma BitSent(s: Station)
    ensures var r := SendBit(s); r.rx == s.rx && r.ackMask == s.ackMask && r.promisc == s.promisc
  {}

  lemma AckSeen(s: Station, level: bool)
    ensures var r := AckSample(s, level); r.rx == s.rx && r.ackMask == s.ackMask && r.promisc == s.promisc
  {}

  /** A station in its guard time hears a start bit as an idle one does. */
  lemma GuardHears(b: Station)
    requires b.mode == TxGuard
    ensures PinIrq(b, false) == if b.pin == 0 then b else PinIrq(b.(mode := Idle, timer := Off), false)
  {}
}
