/** The transmit ring over every run: whole frames, in the order in which they were written, each sent
    from its first bit until its last bit is out. */
module A1Ring {
  import opened ShiftBits
  import opened A1Model
  import opened A1Loopback

  /** Bytes that frames take, each behind its length. */
  function Total(fs: seq<seq<nat>>): nat { if fs == [] then 0 else 1 + |fs[0]| + Total(fs[1..]) }

  predicate Bytes(f: seq<nat>) { |f| < SIZE && forall i :: 0 <= i < |f| ==> f[i] < 256 }

  /** The frames lie behind each other in the ring from index `i` on. */
  predicate LieAll(buf: seq<nat>, i: nat, fs: seq<seq<nat>>)
    decreases |fs|
  {
    fs == [] || (Bytes(fs[0]) && Get(buf, i) == |fs[0]| && Lies(buf, i + 1, fs[0], |fs[0]|) && LieAll(buf, i + 1 + |fs[0]|, fs[1..]))
  }

  /** The ring holds exactly `fs`, in at most 64 bytes. */
  predicate Queue(tx: Tx, fs: seq<seq<nat>>)
  {
    |tx.buf| == SIZE && tx.out <= tx.inn && tx.inn - tx.out == Total(fs) <= SIZE && LieAll(tx.buf, tx.out, fs)
  }

  /** The sender is inside frame `f`. */
  predicate Inside(tx: Tx, f: seq<nat>)
  {
    && tx.len == |f| && 1 <= tx.bi <= 8 && (tx.oix < |f| || (|f| == 0 && tx.oix == 0))
    && (tx.oix < |f| ==> tx.byte == ToGo(f[tx.oix], tx.bi))
  }

  predicate Transmitting(m: Mode) { m == TxInit0 || m == TxData0 || m == TxData1 }

  /** While transmitting, the sender is inside the frame at the head, or its last bit is out and the
      ring has moved on. */
  predicate RingOk(s: Station, fs: seq<seq<nat>>)
  {
    && Queue(s.tx, fs)
    && (Transmitting(s.mode) ==> (s.tx.bi == 0 && s.mode != TxInit0) || (fs != [] && Inside(s.tx, fs[0])))
  }

  datatype Event = WriteEv(data: seq<nat>) | ReadEv(size: nat) | PinEv(level: bool) | TimerEv(level: bool)

  function React(s: Station, e: Event): Station
  {
    match e
    case WriteEv(data) => Write(s, data).0
    case ReadEv(size) => Read(s, size).0
    case PinEv(level) => PinIrq(s, level)
    case TimerEv(level) => Timeout(s, level)
  }

  /** The bit that goes out next is the last of its frame. */
  predicate LastBit(s: Station) { s.tx.bi == 1 && s.tx.oix + 1 >= s.tx.len }

  /** The frames in the ring after an event: a written frame joins, and the head leaves with its last bit. */
  function After(fs: seq<seq<nat>>, s: Station, e: Event): seq<seq<nat>>
  {
    if e.WriteEv? && Write(s, e.data).1.Written? then fs + [e.data]
    else if e.TimerEv? && e.level && s.mode == TxData0 && LastBit(s) && fs != [] then fs[1..]
    else fs
  }

  // ----- The ring

  lemma {:induction false} KeptAll(buf: seq<nat>, buf2: seq<nat>, i: nat, fs: seq<seq<nat>>)
    requires LieAll(buf, i, fs) && Kept(buf2, buf, i, i + Total(fs))
    ensures LieAll(buf2, i, fs)
    decreases |fs|
  {
    if fs != [] {
      assert Get(buf2, i) == Get(buf, i);
      forall k | 0 <= k < |fs[0]| ensures Get(buf2, i + 1 + k) == fs[0][k] { assert Get(buf2, i + 1 + k) == Get(buf, i + 1 + k); }
      KeptAll(buf, buf2, i + 1 + |fs[0]|, fs[1..]);
    }
    hide Get;
  }

  lemma {:induction false} LieAppend(buf: seq<nat>, i: nat, fs: seq<seq<nat>>, f: seq<nat>)
    requires LieAll(buf, i, fs) && Bytes(f) && Get(buf, i + Total(fs)) == |f| && Lies(buf, i + Total(fs) + 1, f, |f|)
    ensures LieAll(buf, i, fs + [f]) && Total(fs + [f]) == Total(fs) + 1 + |f|
    decreases |fs|
  {
    hide Get;
    if fs == [] {
      assert [f][1..] == [] && fs + [f] == [f];
    } else {
      assert (fs + [f])[1..] == fs[1..] + [f] && (fs + [f])[0] == fs[0];
      LieAppend(buf, i + 1 + |fs[0]|, fs[1..], f);
    }
  }

  lemma {:induction false} PutAllKept(buf: seq<nat>, i: nat, data: seq<nat>, out: nat)
    requires |buf| == SIZE && out <= i && i - out + |data| <= SIZE && forall k :: 0 <= k < |data| ==> data[k] < 256
    ensures |PutAll(buf, i, data)| == SIZE && Kept(PutAll(buf, i, data), buf, out, i)
    decreases |data|
  {
    if data != [] {
      var n := |data| - 1;
      PutAllKept(buf, i, data[..n], out);
      var b := PutAll(buf, i, data[..n]);
      forall k | out <= k < i ensures Get(Put(b, i + n, data[n]), k) == Get(buf, k) {
        PutGet(b, i + n, data[n], k);
        assert Get(b, k) == Get(buf, k);
      }
      hide Get;
    }
  }

  /** The bytes of a written frame. */
  lemma WriteBytes(tx: Tx, data: seq<nat>)
    requires |tx.buf| == SIZE && Bytes(data) && tx.out <= tx.inn && tx.inn - tx.out + |data| < SIZE
    ensures var buf := PutAll(Put(tx.buf, tx.inn, |data|), tx.inn + 1, data);
      && |buf| == SIZE && Get(buf, tx.inn) == |data| && Lies(buf, tx.inn + 1, data, |data|) && Kept(buf, tx.buf, tx.out, tx.inn)
  {
    hide Get, PutAll, Put, Lies, Kept;
    var b1 := Put(tx.buf, tx.inn, |data|);
    PutGet(tx.buf, tx.inn, |data|, tx.inn);
    PutSize(tx.buf, tx.inn, |data|);
    PutAllLies(b1, tx.inn + 1, data, data);
    PutAllKept(b1, tx.inn + 1, data, tx.out);
    PutKept(tx.buf, b1, PutAll(b1, tx.inn + 1, data), tx.out, tx.inn, |data|);
  }

  lemma PutSize(buf: seq<nat>, i: nat, v: nat)
    ensures |Put(buf, i, v)| == |buf|
  {}

  /** A written frame joins the ring. */
  lemma WriteQueue(tx: Tx, fs: seq<seq<nat>>, data: seq<nat>)
    requires Queue(tx, fs) && Bytes(data) && tx.inn - tx.out + |data| < SIZE
    ensures var buf := PutAll(Put(tx.buf, tx.inn, |data|), tx.inn + 1, data);
      Queue(tx.(buf := buf, inn := tx.inn + 1 + |data|), fs + [data])
  {
    hide Get, PutAll, Put, LieAll, Lies, Kept, Bytes, Total;
    var buf := PutAll(Put(tx.buf, tx.inn, |data|), tx.inn + 1, data);
    WriteBytes(tx, data);
    KeptAll(tx.buf, buf, tx.out, fs);
    LieAppend(buf, tx.out, fs, data);
  }

  lemma PutKept(buf: seq<nat>, b1: seq<nat>, b2: seq<nat>, out: nat, inn: nat, v: nat)
    requires |buf| == SIZE && v < 256 && out <= inn < out + SIZE && b1 == Put(buf, inn, v)
    requires Kept(b2, b1, out, inn + 1)
    ensures Kept(b2, buf, out, inn) && |b1| == SIZE
  {
    forall k | out <= k < inn ensures Get(b2, k) == Get(buf, k) {
      PutGet(buf, inn, v, k);
      assert Get(b2, k) == Get(b1, k);
    }
    hide Get;
  }

  /** The head of the ring is loaded from its first bit. */
  lemma StartInside(s: Station, fs: seq<seq<nat>>)
    requires Queue(s.tx, fs) && fs != []
    ensures RingOk(StartTx(s), fs) && StartTx(s).tx.bi == 8 && StartTx(s).tx.oix == 0 && StartTx(s).mode == TxInit0
  {
    var f := fs[0];
    if |f| > 0 {
      assert Get(s.tx.buf, s.tx.out + 1 + 0) == f[0];
      SmallByte(f[0], 8);
    }
    hide Get, P2;
  }

  lemma EmptyRing(tx: Tx, fs: seq<seq<nat>>)
    requires Queue(tx, fs)
    ensures tx.inn == tx.out <==> fs == []
  {}

  lemma EndOk(s: Station, fs: seq<seq<nat>>)
    requires Queue(s.tx, fs)
    ensures RingOk(EndTx(s), fs)
    ensures fs != [] ==> EndTx(s).mode == TxInit0 && EndTx(s).tx.bi == 8 && EndTx(s).tx.oix == 0 && Inside(EndTx(s).tx, fs[0])
  {
    EmptyRing(s.tx, fs);
    if fs != [] { StartInside(s.(mode := Idle, pin := 1, irq := true), fs); }
    hide Queue, StartTx, ToGo;
  }

  /** One bit further in the frame, or past its end. */
  lemma BitOk(tx: Tx, fs: seq<seq<nat>>)
    requires Queue(tx, fs) && fs != [] && Inside(tx, fs[0])
    ensures var tx2 := NextBit(tx);
      if tx.bi == 1 && tx.oix + 1 >= tx.len then tx2.bi == 0 && Queue(tx2, fs[1..]) else Queue(tx2, fs) && Inside(tx2, fs[0])
  {
    var f := fs[0];
    if tx.oix < |f| {
      assert f[tx.oix] < 256;
      SmallByte(f[tx.oix], tx.bi);
      if tx.oix + 1 < |f| {
        SmallByte(f[tx.oix + 1], 8);
        assert Get(tx.buf, tx.out + 1 + (tx.oix + 1)) == f[tx.oix + 1];
      }
    }
    hide Get, P2, ToGo;
  }

  /** Every event keeps the ring in order. */
  lemma ReactOk(s: Station, fs: seq<seq<nat>>, e: Event)
    requires RingOk(s, fs) && (e.WriteEv? ==> Bytes(e.data))
    ensures RingOk(React(s, e), After(fs, s, e))
  {
    match e
    case WriteEv(data) => WriteOk(s, fs, data);
    case ReadEv(size) =>
    case PinEv(level) => PinOk(s, level);
    case TimerEv(level) => TimerOk(s, fs, level);
    hide Queue, Inside, Write, PinIrq, Timeout, Get, Put, GetAll;
  }

  lemma WriteOk(s: Station, fs: seq<seq<nat>>, data: seq<nat>)
    requires RingOk(s, fs) && Bytes(data)
    ensures RingOk(Write(s, data).0, After(fs, s, WriteEv(data)))
  {
    if Write(s, data).1.Written? {
      WriteQueue(s.tx, fs, data);
      var buf := PutAll(Put(s.tx.buf, s.tx.inn, |data|), s.tx.inn + 1, data);
      var s1 := s.(tx := s.tx.(buf := buf, inn := s.tx.inn + 1 + |data|));
      assert fs != [] ==> (fs + [data])[0] == fs[0];
      hide Queue, ToGo, PutAll, Put, StartTx;
      if s.mode == Idle { StartInside(s1, fs + [data]); }
    }
  }

  lemma PinOk(s: Station, level: bool)
    ensures PinIrq(s, level).tx == s.tx
    ensures Transmitting(PinIrq(s, level).mode) ==> PinIrq(s, level).mode == s.mode
  {}

  lemma TimerOk(s: Station, fs: seq<seq<nat>>, level: bool)
    requires RingOk(s, fs)
    ensures RingOk(Timeout(s, level), After(fs, s, TimerEv(level)))
  {
    EndOk(s.(timer := Off), fs);
    if s.mode == TxData0 && level && s.tx.bi > 0 { BitOk(s.tx, fs); }
    if s.mode == RxData1 {
      EmptyRing(s.tx, fs);
      if fs != [] {
        var s1 := s.(timer := Off, mode := Idle, rx := if s.rx.bi == 8 then Publish(s.rx) else s.rx);
        StartInside(s1, fs);
      }
    }
    hide Queue, Inside, NextBit, EndTx, StartTx, Publish;
  }

  // ----- Runs

  function RunAll(s: Station, es: seq<Event>): Station
    decreases |es|
  {
    if es == [] then s else RunAll(React(s, es[0]), es[1..])
  }

  function Left(fs: seq<seq<nat>>, s: Station, es: seq<Event>): seq<seq<nat>>
    decreases |es|
  {
    if es == [] then fs else Left(After(fs, s, es[0]), React(s, es[0]), es[1..])
  }

  /** The frames accepted for sending, in order. */
  function Accepted(s: Station, es: seq<Event>): seq<seq<nat>>
    decreases |es|
  {
    if es == [] then []
    else (if es[0].WriteEv? && Write(s, es[0].data).1.Written? then [es[0].data] else []) + Accepted(React(s, es[0]), es[1..])
  }

  /** Over every run the ring holds whole frames and they are the last of those accepted, in order. */
  lemma {:induction false} RunRing(s: Station, fs: seq<seq<nat>>, es: seq<Event>) returns (sent: nat)
    requires RingOk(s, fs) && forall i :: 0 <= i < |es| && es[i].WriteEv? ==> Bytes(es[i].data)
    ensures RingOk(RunAll(s, es), Left(fs, s, es))
    ensures sent <= |fs + Accepted(s, es)| && Left(fs, s, es) == (fs + Accepted(s, es))[sent..]
    decreases |es|
  {
    sent := 0;
    if es == [] {
      assert fs + [] == fs;
    } else {
      ReactOk(s, fs, es[0]);
      var s1, fs1, rest := React(s, es[0]), After(fs, s, es[0]), es[1..];
      var written := if es[0].WriteEv? && Write(s, es[0].data).1.Written? then [es[0].data] else [];
      hide RingOk, React, Write, LastBit;
      var m := RunRing(s1, fs1, rest);
      Shorter(fs, fs1, written, Accepted(s1, rest), m);
      sent := if fs1 == fs + written then m else m + 1;
    }
  }

  lemma Shorter(fs: seq<seq<nat>>, fs1: seq<seq<nat>>, w: seq<seq<nat>>, acc: seq<seq<nat>>, m: nat)
    requires m <= |fs1 + acc| && (fs1 == fs + w || (w == [] && fs != [] && fs1 == fs[1..]))
    ensures var n := if fs1 == fs + w then m else m + 1;
      n <= |fs + (w + acc)| && (fs1 + acc)[m..] == (fs + (w + acc))[n..]
  {
    if fs1 == fs + w {
      assert fs1 + acc == fs + (w + acc);
    } else {
      assert fs + (w + acc) == [fs[0]] + (fs1 + acc);
    }
  }

  /** A collision before the last bit of a frame starts the same frame again from its first bit; after
      the last bit it starts the next. */
  lemma CollisionResends(s: Station, fs: seq<seq<nat>>)
    requires RingOk(s, fs) && s.mode == TxData0
    ensures var e := Timeout(s, false);
      if fs == [] then e.mode == Idle && s.tx.bi == 0
      else e.mode == TxInit0 && e.tx.oix == 0 && e.tx.bi == 8 && e.tx.out == s.tx.out && RingOk(e, fs) && Inside(e.tx, fs[0])
    ensures s.tx.bi > 0 ==> fs != [] && Inside(s.tx, fs[0])
  {
    EndOk(s.(timer := Off), fs);
    EmptyRing(s.tx, fs);
    hide Queue, Inside;
  }
}
