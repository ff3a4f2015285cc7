/** One HDMI-CEC station: the receive and transmit state machines of the driver, as functions
    of the pin level at each pin interrupt and timer expiry. */
module CecModel {

  datatype Mode = Idle | RInit | Rec | RecA | RecP | Tx | TxGuard

  // Substates; the numbers are shared between modes, as in the driver's single variable.
  const RSYNC_IDLE: nat := 0
  const RSYNC_LOW: nat := 1
  const RSYNC_TOH: nat := 2
  const RSYNC_HI1: nat := 3
  const RSYNC_HI2: nat := 4
  const RSYNC_TOL: nat := 5

  const REC_IDLE: nat := 0
  const REC_PLB_I: nat := 1
  const REC_PLB_E: nat := 2
  const REC_PLB_N: nat := 3
  const REC_EOM_I: nat := 4
  const REC_EOM_E: nat := 5
  const REC_EOM_N: nat := 6
  const REC_ACK_I: nat := 7
  const REC_ACK_E: nat := 8

  const TX_INIT_LO: nat := 0
  const TX_INIT_HI: nat := 1
  const TX_OUT_NEXT: nat := 2
  const TX_OUT_LO_0: nat := 3
  const TX_OUT_LO_1: nat := 4
  const TX_EOM_LO_0: nat := 5
  const TX_EOM_LO_1: nat := 6
  const TX_ACK_NEXT: nat := 7
  const TX_ACK_1: nat := 8
  const TX_ACK_2: nat := 9
  const TX_DONE: nat := 10

  const WRAP: nat := 0x1_0000_0000
  const RXB_LINES: nat := 4

  datatype Timer = Off | In(usec: nat)

  /** cecr_flags. */
  datatype RxFlags = RxFlags(eom: bool, byteReady: bool, toMe: bool, mc: bool, ack: bool, start: bool)

  const NO_FLAGS: RxFlags := RxFlags(false, false, false, false, false, false)

  /** cect_flags. */
  datatype TxFlags = TxFlags(checkAck: bool, checkNack: bool, noAck: bool)

  /** The receive half: counters and the ring of four 17-byte lines. */
  datatype Receiver = Receiver(flags: RxFlags, tmp: nat, byte: nat, rbi: nat, ix: nat, inn: nat, out: nat, ring: seq<seq<nat>>)

  /** The transmit half. */
  datatype Sender = Sender(flags: TxFlags, bi: nat, olen: nat, oix: nat, byteOut: nat, buf: seq<nat>)

  /** A station. `pin` is prev_pin_stat (2 before the first interrupt), `sink` whether it pulls the
      line low, `ackMask` the logical addresses it answers to. */
  datatype Station = Station(
    mode: Mode, sub: nat, rx: Receiver, tx: Sender,
    timer: Timer, sink: bool, irq: bool, pin: nat,
    ackMask: set<nat>, promisc: bool)

  function Fail(s: Station): Station { s.(mode := Idle, sub := 0) }

  function Arm(s: Station, sub: nat, usec: nat): Station { s.(sub := sub, timer := In(usec)) }

  // ----- Receive

  function StartSync(s: Station, level: bool): Station
  {
    if level then s else Arm(s.(mode := RInit, rx := s.rx.(flags := NO_FLAGS)), RSYNC_LOW, 3500)
  }

  function RInitPin(s: Station, level: bool): Station
  {
    if s.sub == RSYNC_TOH then
      if level then s.(sub := RSYNC_HI1) else Fail(s).(timer := Off)
    else if s.sub == RSYNC_TOL then
      if !level then Arm(s.(mode := Rec, rx := s.rx.(rbi := 8, tmp := 0)), REC_PLB_I, 1050)
      else Fail(s).(timer := Off)
    else if s.sub <= RSYNC_TOL then Fail(s).(timer := Off)
    else s
  }

  function RInitTimeout(s: Station): Station
  {
    if s.sub == RSYNC_LOW then Arm(s, RSYNC_TOH, 500)
    else if s.sub == RSYNC_HI1 then Arm(s, RSYNC_HI2, 400)
    else if s.sub == RSYNC_HI2 then Arm(s, RSYNC_TOL, 500)
    else if s.sub <= RSYNC_TOL then Fail(s)
    else s
  }

  /** cec_set_probe. */
  function SetProbe(s: Station): Station
  {
    Arm(s, if s.rx.rbi == 0 then REC_EOM_I else REC_PLB_I, 1050)
  }

  predicate Wanted(r: Receiver, promisc: bool) { promisc || r.flags.toMe || r.flags.mc }

  /** Completes the ring line with its length. */
  function Publish(r: Receiver, promisc: bool): Receiver
  {
    if r.flags.eom && Wanted(r, promisc) then
      r.(ring := PutRing(r.ring, r.inn % RXB_LINES, 0, r.ix % 256), inn := r.inn + 1)
    else r
  }

  function PutRing(ring: seq<seq<nat>>, line: nat, col: nat, v: nat): seq<seq<nat>>
  {
    if line < |ring| && col < |ring[line]| then
      var row: seq<nat> := ring[line][col := v];
      ring[line := row]
    else ring
  }

  /** cec_set_ack. */
  function SetAck(s: Station): Station
  {
    if s.mode == RecA then
      Arm(s.(sink := true, rx := Publish(s.rx.(flags := s.rx.flags.(byteReady := true)), s.promisc)), REC_ACK_E, 1500)
    else Arm(s, REC_ACK_I, 1050)
  }

  function RecPin(s: Station, level: bool): Station
  {
    if level then s
    else if s.sub == REC_PLB_N then SetProbe(s)
    else if s.sub == REC_EOM_N then SetAck(s)
    else if s.sub <= REC_ACK_E then Fail(s)
    else s
  }

  /** The mode and flags chosen by a header byte. */
  function Header(r0: Receiver, ackMask: set<nat>): (Mode, Receiver)
  {
    var r := r0.(flags := r0.flags.(start := true), byte := r0.tmp, ix := 0);
    if r.byte % 16 == 15 then (RecP, r.(flags := r.flags.(mc := true)))
    else if r.byte % 16 in ackMask then (RecA, r.(flags := r.flags.(toMe := true)))
    else (RecP, r)
  }

  /** A whole byte is in; the header's bits stay in the shift register. */
  function GotByte(r: Receiver, mode: Mode, ackMask: set<nat>, promisc: bool): (Mode, Receiver)
  {
    var (m, r1) := if mode == Rec then Header(r, ackMask)
                   else (mode, r.(flags := r.flags.(start := false), byte := r.tmp, tmp := 0));
    if Wanted(r1, promisc) then
      (m, r1.(ring := PutRing(r1.ring, r1.inn % RXB_LINES, r1.ix + 1, r1.byte % 256), ix := r1.ix + 1))
    else (m, r1)
  }

  /** The next bit shifts in; the eighth completes a byte. */
  function ShiftIn(r: Receiver, level: bool, mode: Mode, ackMask: set<nat>, promisc: bool): (Mode, Receiver)
  {
    var r1 := r.(tmp := (r.tmp * 2 + (if level then 1 else 0)) % WRAP, rbi := (r.rbi + WRAP - 1) % WRAP);
    if r1.rbi == 0 then GotByte(r1, mode, ackMask, promisc) else (mode, r1)
  }

  function GetBit(s: Station, level: bool): Station
  {
    var (m, r) := ShiftIn(s.rx, level, s.mode, s.ackMask, s.promisc);
    Arm(s.(mode := m, rx := r), REC_PLB_E, 750)
  }

  function GetEom(s: Station, level: bool): Station
  {
    Arm(if level then s.(rx := s.rx.(flags := s.rx.flags.(eom := true))) else s.(rx := s.rx.(rbi := 8)), REC_EOM_E, 700)
  }

  function GetAck(s: Station, level: bool): Station
  {
    var r := s.rx.(flags := s.rx.flags.(ack := !level, byteReady := true));
    var mode := if !level && s.mode == Rec then RecP else s.mode;
    Arm(s.(mode := mode, rx := Publish(r, s.promisc)), REC_ACK_E, 700)
  }

  function AckEnd(s: Station): Station
  {
    var s1 := if s.mode == RecA then s.(pin := 1, sink := false) else s;
    if s1.rx.flags.eom then Arm(s1.(mode := TxGuard), 0, 2400 * 5) else Arm(s1, REC_PLB_N, 1200)
  }

  function RecTimeout(s: Station, level: bool): Station
  {
    if s.sub == REC_PLB_I then GetBit(s, level)
    else if s.sub == REC_PLB_E then (if level then Arm(s, REC_PLB_N, 1000) else Fail(s))
    else if s.sub == REC_EOM_I then GetEom(s, level)
    else if s.sub == REC_EOM_E then (if level then Arm(s, REC_EOM_N, 1000) else Fail(s))
    else if s.sub == REC_ACK_I then GetAck(s, level)
    else if s.sub == REC_ACK_E then AckEnd(s)
    else if s.sub <= REC_ACK_E then Fail(s)
    else s
  }

  // ----- Transmit

  function Sink(s: Station, sub: nat, usec: nat): Station { Arm(s, sub, usec).(sink := true) }

  function Release(s: Station, sub: nat, usec: nat): Station { Arm(s, sub, usec).(sink := false) }

  function SendBit(s: Station): Station
  {
    if s.tx.bi == 0 then
      if s.tx.olen == s.tx.oix + 1 then Sink(s, TX_EOM_LO_1, 600) else Sink(s, TX_EOM_LO_0, 1500)
    else
      var s1 := if (s.tx.byteOut / 128) % 2 == 1 then Sink(s, TX_OUT_LO_1, 600) else Sink(s, TX_OUT_LO_0, 1500);
      s1.(tx := s1.tx.(bi := s.tx.bi - 1, byteOut := (s.tx.byteOut * 2) % WRAP))
  }

  /** cec_tx_get_ack_3: the line is sampled; a missing ack or a nack ends the transmission. */
  function AckSample(s: Station, level: bool): Station
  {
    if (s.tx.flags.checkAck && level) || (!s.tx.flags.checkAck && s.tx.flags.checkNack && !level) then
      Arm(s.(tx := s.tx.(flags := s.tx.flags.(noAck := true))), TX_DONE, 1350)
    else if s.tx.oix + 1 == s.tx.olen then Arm(s.(tx := s.tx.(oix := s.tx.oix + 1)), TX_DONE, 1350)
    else
      var byte := if s.tx.oix + 1 < |s.tx.buf| then s.tx.buf[s.tx.oix + 1] else 0;
      Arm(s.(tx := s.tx.(oix := s.tx.oix + 1, byteOut := byte, bi := 8)), TX_OUT_NEXT, 1350)
  }

  function TxTimeout(s: Station, level: bool): Station
  {
    if s.sub == TX_INIT_LO then Release(s, TX_INIT_HI, 800)
    else if s.sub == TX_INIT_HI || s.sub == TX_OUT_NEXT then SendBit(s)
    else if s.sub == TX_OUT_LO_0 then Release(s, TX_OUT_NEXT, 900)
    else if s.sub == TX_OUT_LO_1 then Release(s, TX_OUT_NEXT, 1800)
    else if s.sub == TX_EOM_LO_0 then Release(s, TX_ACK_NEXT, 900)
    else if s.sub == TX_EOM_LO_1 then Release(s, TX_ACK_NEXT, 1800)
    else if s.sub == TX_ACK_NEXT then Sink(s, TX_ACK_1, 600)
    else if s.sub == TX_ACK_1 then Release(s, TX_ACK_2, 450)
    else if s.sub == TX_ACK_2 then AckSample(s, level)
    else if s.sub == TX_DONE then Arm(s.(mode := TxGuard, irq := true), 0, 2400 * 7)
    else s
  }

  predicate TxBusy(s: Station) { s.tx.flags.checkAck || s.tx.flags.checkNack || s.tx.flags.noAck }

  datatype SendResult = InProgress | Again | Error

  function SendCec(s: Station, data: seq<nat>): (Station, SendResult)
    requires |data| > 0
  {
    if |data| > 16 then (s, Error)
    else if s.mode != Idle || TxBusy(s) then (s, Again)
    else
      var bcast := data[0] % 16 == 15;
      var buf := data + (if |data| <= |s.tx.buf| then s.tx.buf[|data|..] else []);
      var tx := Sender(TxFlags(!bcast, bcast, false), 8, |data|, 0, data[0], buf);
      (Sink(s.(mode := Tx, tx := tx, irq := false), TX_INIT_LO, 3700), InProgress)
  }

  // ----- Interrupts

  function PinIrq(s: Station, level: bool): Station
  {
    var p := if level then 1 else 0;
    if p == s.pin then s else
    var s1 := s.(pin := p);
    match s1.mode
    case TxGuard => StartSync(s1.(timer := Off), level)
    case Idle => StartSync(s1, level)
    case RInit => RInitPin(s1, level)
    case Rec => RecPin(s1, level)
    case RecA => RecPin(s1, level)
    case RecP => RecPin(s1, level)
    case Tx => s1
  }

  /** A one-shot timer has expired. */
  function Timeout(s0: Station, level: bool): Station
  {
    var s := s0.(timer := Off);
    match s.mode
    case Idle => s
    case Tx => TxTimeout(s, level)
    case RInit => RInitTimeout(s)
    case Rec => RecTimeout(s, level)
    case RecA => RecTimeout(s, level)
    case RecP => RecTimeout(s, level)
    case TxGuard => s.(mode := Idle)
  }

  datatype ReadResult = ReadAgain | Got(data: seq<nat>)

  /** RD_CHAR with a buffer of `size` bytes. */
  function ReadFrame(s: Station, size: nat): (Station, ReadResult)
  {
    if s.rx.inn == s.rx.out then (s, ReadAgain) else
    var line := if s.rx.out % RXB_LINES < |s.rx.ring| then s.rx.ring[s.rx.out % RXB_LINES] else [];
    var stored := if |line| > 0 then line[0] else 0;
    var len := if size < stored then size else stored;
    (s.(rx := s.rx.(out := s.rx.out + 1)), Got(if len + 1 <= |line| then line[1..len + 1] else []))
  }

  /** WR_GET_RESULT: the outcome of the last transmission, which then stops blocking the next. */
  function GetResult(s: Station): (Station, int)
  {
    if TxBusy(s) then
      (s.(tx := s.tx.(flags := TxFlags(false, false, false))), if s.tx.flags.noAck then -2 else s.tx.olen)
    else (s, -1)
  }
}
