/** One station on the Sony A1 bus: the receive and transmit state machines as functions of the pin
    level at each pin interrupt and timer expiry, and the two rings of length-prefixed frames. */
module A1Model {
  datatype Mode = Idle | RxInit0 | RxInit1 | RxData0 | RxData1 | TxInit0 | TxData0 | TxData1

  const START: nat := 2400
  const BASIC: nat := 600
  const LOW0: nat := 600
  const LOW1: nat := 1200
  const HIGH: nat := 600
  const SIZE: nat := 64
  const WRAP: nat := 0x1_0000_0000

  datatype Timer = Off | In(usec: nat)

  /** The receive half: periods counted, bits to go, the byte, and the frame so far in the ring. */
  datatype Rx = Rx(cnt: nat, bi: nat, byte: nat, len: nat, inn: nat, out: nat, buf: seq<nat>)

  /** The transmit half: bits to go, the byte, the frame at the head of the ring. */
  datatype Tx = Tx(bi: nat, byte: nat, len: nat, oix: nat, inn: nat, out: nat, buf: seq<nat>)

  /** `pin` is prev_pin_stat (2 before the first interrupt), `sink` whether the line is pulled low. */
  datatype Station = Station(mode: Mode, rx: Rx, tx: Tx, timer: Timer, sink: bool, irq: bool, pin: nat)

  function Get(buf: seq<nat>, i: nat): nat { if i % SIZE < |buf| then buf[i % SIZE] else 0 }

  function Put(buf: seq<nat>, i: nat, v: nat): seq<nat> { if i % SIZE < |buf| then buf[i % SIZE := v % 256] else buf }

  // ----- Transmit

  /** a1_start_tx. */
  function StartTx(s: Station): Station
  {
    var tx := s.tx.(len := Get(s.tx.buf, s.tx.out), oix := 0, byte := Get(s.tx.buf, s.tx.out + 1), bi := 8);
    s.(irq := false, mode := TxInit0, tx := tx, timer := In(START), sink := true)
  }

  /** Idle again, with the interrupt on; the next frame is started if there is one. */
  function EndTx(s: Station): Station
  {
    var s1 := s.(mode := Idle, pin := 1, irq := true);
    if s1.tx.inn != s1.tx.out then StartTx(s1) else s1
  }

  /** The shift register and the ring after the top bit has been sent. */
  function NextBit(tx: Tx): Tx
    requires tx.bi > 0
  {
    if tx.bi > 1 then tx.(bi := tx.bi - 1, byte := (tx.byte * 2) % WRAP)
    else if tx.oix + 1 < tx.len then tx.(oix := tx.oix + 1, byte := Get(tx.buf, tx.oix + tx.out + 2), bi := 8)
    else tx.(bi := 0, oix := tx.oix + 1, out := tx.out + tx.len + 1)
  }

  predicate TopBit(tx: Tx) { (tx.byte / 128) % 2 == 1 }

  /** a1_send_bit. */
  function SendBit(s: Station): Station
  {
    if s.tx.bi == 0 then EndTx(s)
    else s.(mode := TxData1, timer := In(if TopBit(s.tx) then LOW1 else LOW0), sink := true, tx := NextBit(s.tx))
  }

  // ----- Receive

  function Lost(s: Station): Station { s.(mode := Idle, timer := Off) }

  /** A bit has come in; the eighth puts the byte into the ring, when it fits. */
  function TakeBit(r: Rx, bit: bool): Rx
  {
    var byte := if bit && r.byte % 2 == 0 then r.byte + 1 else r.byte;
    if r.bi == 1 then
      var len := r.len + 1;
      var r1 := if len + (r.inn - r.out) < SIZE then r.(buf := Put(r.buf, r.inn + len, byte), len := len) else r;
      r1.(bi := 8, byte := 0)
    else r.(bi := if r.bi > 0 then r.bi - 1 else 0, byte := (byte * 2) % WRAP)
  }

  /** handle_rx_data0. */
  function Data0(s: Station, level: bool): Station
  {
    if !level then Lost(s)
    else if s.rx.cnt == 2 then s.(mode := RxData1, timer := In(START), rx := TakeBit(s.rx, true))
    else if s.rx.cnt == 1 then s.(mode := RxData1, timer := In(START), rx := TakeBit(s.rx, false))
    else Lost(s)
  }

  /** handle_rx_start, handle_rx_init0, handle_rx_init1 and handle_rx_data1. */
  function PinHandler(s: Station, level: bool): Station
  {
    match s.mode
    case Idle =>
      if level then s else s.(mode := RxInit0, timer := In(BASIC / 2), rx := s.rx.(cnt := 0, len := 0))
    case RxInit0 =>
      if !level || s.rx.cnt != 4 then Lost(s)
      else s.(mode := RxInit1, timer := In(START), rx := s.rx.(bi := 8, byte := 0))
    case RxInit1 => if level then Lost(s) else s.(mode := RxData0, timer := In(BASIC / 2), rx := s.rx.(cnt := 0))
    case RxData0 => Data0(s, level)
    case RxData1 => if level then Lost(s) else s.(mode := RxData0, timer := In(BASIC / 2), rx := s.rx.(cnt := 0))
    case _ => s
  }

  function PinIrq(s: Station, level: bool): Station
  {
    var p := if level then 1 else 0;
    if p == s.pin then s else PinHandler(s.(pin := p), level)
  }

  /** The frame is complete: its length goes before it. */
  function Publish(r: Rx): Rx { r.(buf := Put(r.buf, r.inn, r.len), inn := r.inn + r.len + 1) }

  /** a1_timeout: a one-shot timer has expired. */
  function Timeout(s0: Station, level: bool): Station
  {
    var s := s0.(timer := Off);
    match s.mode
    case RxInit0 => s.(timer := In(BASIC), rx := s.rx.(cnt := s.rx.cnt + 1))
    case RxData0 => s.(timer := In(BASIC), rx := s.rx.(cnt := s.rx.cnt + 1))
    case RxInit1 => s.(mode := Idle)
    case RxData1 =>
      var s1 := s.(mode := Idle, rx := if s.rx.bi == 8 then Publish(s.rx) else s.rx);
      if s1.tx.inn != s1.tx.out then StartTx(s1) else s1
    case TxInit0 => s.(mode := TxData0, sink := false, timer := In(HIGH))
    case TxData0 => if !level then EndTx(s) else SendBit(s)
    case TxData1 => s.(mode := TxData0, sink := false, timer := In(HIGH))
    case Idle => s
  }

  // ----- The driver calls

  /** The bytes of `data` behind each other from index `i` on. */
  function PutAll(buf: seq<nat>, i: nat, data: seq<nat>): seq<nat>
  {
    if data == [] then buf else Put(PutAll(buf, i, data[..|data| - 1]), i + |data| - 1, data[|data| - 1])
  }

  datatype WriteResult = Again | Written(n: nat)

  /** WR_CHAR. */
  function Write(s: Station, data: seq<nat>): (Station, WriteResult)
  {
    if s.tx.inn - s.tx.out + |data| >= SIZE then (s, Again) else
    var buf := PutAll(Put(s.tx.buf, s.tx.inn, |data|), s.tx.inn + 1, data);
    var s1 := s.(tx := s.tx.(buf := buf, inn := s.tx.inn + 1 + |data|));
    (if s1.mode == Idle then StartTx(s1) else s1, Written(|data|))
  }

  function GetAll(buf: seq<nat>, i: nat, n: nat): (r: seq<nat>)
    ensures |r| == n
  {
    if n == 0 then [] else GetAll(buf, i, n - 1) + [Get(buf, i + n - 1)]
  }

  datatype ReadResult = Empty | TooSmall | Got(data: seq<nat>)

  /** RD_CHAR with a buffer of `size` bytes. */
  function Read(s: Station, size: nat): (Station, ReadResult)
  {
    if s.rx.inn == s.rx.out then (s, Empty) else
    var len := Get(s.rx.buf, s.rx.out);
    if size < len then (s, TooSmall) else
    (s.(rx := s.rx.(buf := Put(s.rx.buf, s.rx.out, 0), out := s.rx.out + 1 + len)),
     Got(GetAll(Put(s.rx.buf, s.rx.out, 0), s.rx.out + 1, len)))
  }
}
