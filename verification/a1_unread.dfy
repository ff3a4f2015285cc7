/** The receive ring over every run: whole frames, read in the order in which they came in, as long as
    no frame ends while the ring is full. */
module A1Unread {
  import opened A1Model
  import opened A1Loopback
  import opened A1Ring

  /** The frames that are to be read, in at most 64 bytes with their lengths. */
  predicate Unread(r: Rx, fs: seq<seq<nat>>)
  {
    |r.buf| == SIZE && r.out <= r.inn && r.inn - r.out == Total(fs) <= SIZE && LieAll(r.buf, r.out, fs)
  }

  predicate Following(m: Mode) { m == RxInit0 || m == RxInit1 || m == RxData0 || m == RxData1 }

  predicate Small(buf: seq<nat>) { forall i :: 0 <= i < |buf| ==> buf[i] < 256 }

  /** While a frame comes in, the bytes that have been kept of it fit behind the unread ones. */
  predicate RxOk(s: Station, fs: seq<seq<nat>>)
  {
    && Unread(s.rx, fs) && Small(s.rx.buf)
    && (Following(s.mode) ==> s.rx.len == 0 || s.rx.len + (s.rx.inn - s.rx.out) < SIZE)
  }

  /** The frame that ends is put before its length. */
  predicate Publishes(s: Station, e: Event) { e.TimerEv? && s.mode == RxData1 && s.rx.bi == 8 }

  function Partial(r: Rx): seq<nat> { GetAll(r.buf, r.inn + 1, r.len) }

  predicate Fetches(s: Station, fs: seq<seq<nat>>, e: Event) { e.ReadEv? && fs != [] && e.size >= |fs[0]| }

  function ReadAnswer(fs: seq<seq<nat>>, size: nat): ReadResult
  {
    if fs == [] then Empty else if size < |fs[0]| then TooSmall else Got(fs[0])
  }

  function RxAfter(fs: seq<seq<nat>>, s: Station, e: Event): seq<seq<nat>>
  {
    if Publishes(s, e) then fs + [Partial(s.rx)] else if Fetches(s, fs, e) then fs[1..] else fs
  }

  // ----- The ring

  lemma {:induction false} GetAllBytes(buf: seq<nat>, i: nat, n: nat)
    requires Small(buf)
    ensures forall k :: 0 <= k < n ==> GetAll(buf, i, n)[k] < 256 && GetAll(buf, i, n)[k] == Get(buf, i + k)
  {
    if n > 0 {
      GetAllBytes(buf, i, n - 1);
    }
  }

  lemma PutSmall(buf: seq<nat>, i: nat, v: nat)
    requires Small(buf)
    ensures Small(Put(buf, i, v)) && |Put(buf, i, v)| == |buf|
  {}

  /** A byte written outside the unread part disturbs none of it. */
  lemma PutUnread(r: Rx, fs: seq<seq<nat>>, i: nat, v: nat)
    requires Unread(r, fs) && r.inn <= i < r.out + SIZE
    ensures Unread(r.(buf := Put(r.buf, i, v)), fs)
  {
    var b := Put(r.buf, i, v);
    forall k | r.out <= k < r.inn ensures Get(b, k) == Get(r.buf, k) { PutElse(r.buf, i, v, k); }
    KeptAll(r.buf, b, r.out, fs);
    hide Get, LieAll, Total;
  }

  lemma PutElse(buf: seq<nat>, i: nat, v: nat, k: nat)
    requires |buf| == SIZE && k < i < k + SIZE
    ensures Get(Put(buf, i, v), k) == Get(buf, k)
  {
    ModApart(k, i);
  }

  /** A frame joins the unread ones if and only if a byte is left for its length. */
  lemma PublishExact(r: Rx, fs: seq<seq<nat>>)
    requires Unread(r, fs) && Small(r.buf) && (r.len == 0 || r.len + (r.inn - r.out) < SIZE)
    ensures Unread(Publish(r), fs + [Partial(r)]) <==> r.inn - r.out < SIZE
    ensures Total(fs + [Partial(r)]) == Total(fs) + 1 + r.len
  {
    var f := Partial(r);
    TotalJoin(fs, f);
    if r.inn - r.out < SIZE {
      PutUnread(r, fs, r.inn, r.len);
      var b := Put(r.buf, r.inn, r.len);
      PartialLies(r, b);
      assert LieAll(b, r.out, fs);
      hide Get, LieAll, Lies, Total, Put, GetAll, Small;
      LieAppend(b, r.out, fs, f);
    }
    hide Get, LieAll, Lies, Total, Put, GetAll, Small;
  }

  lemma {:induction false} TotalJoin(fs: seq<seq<nat>>, f: seq<nat>)
    ensures Total(fs + [f]) == Total(fs) + 1 + |f|
    decreases |fs|
  {
    if fs == [] {
      assert fs + [f] == [f] && [f][1..] == [];
    } else {
      assert (fs + [f])[1..] == fs[1..] + [f];
      TotalJoin(fs[1..], f);
    }
  }

  lemma PartialLies(r: Rx, b: seq<nat>)
    requires |r.buf| == SIZE && Small(r.buf) && r.len < SIZE && b == Put(r.buf, r.inn, r.len)
    ensures Bytes(Partial(r)) && Get(b, r.inn) == r.len && Lies(b, r.inn + 1, Partial(r), r.len)
  {
    var f := Partial(r);
    GetAllBytes(r.buf, r.inn + 1, r.len);
    PutGet(r.buf, r.inn, r.len, r.inn);
    forall k | 0 <= k < r.len ensures Get(b, r.inn + 1 + k) == f[k] {
      PutGet(r.buf, r.inn, r.len, r.inn + 1 + k);
      assert GetAll(r.buf, r.inn + 1, r.len)[k] == Get(r.buf, r.inn + 1 + k);
    }
    hide Get, GetAll, Small;
  }

  /** A reader with room gets the first unread frame, which then is gone. */
  lemma ReadFirst(s: Station, fs: seq<seq<nat>>, size: nat)
    requires Unread(s.rx, fs)
    ensures Read(s, size).1 == ReadAnswer(fs, size) && Read(s, size).0 == s.(rx := Read(s, size).0.rx)
    ensures if ReadAnswer(fs, size).Got? then Unread(Read(s, size).0.rx, fs[1..]) else Read(s, size).0 == s
  {
    if fs != [] && size >= |fs[0]| {
      var r, f := s.rx, fs[0];
      var b := Put(r.buf, r.out, 0);
      forall k | r.out < k < r.inn ensures Get(b, k) == Get(r.buf, k) { PutGet(r.buf, r.out, 0, k); }
      forall k | 0 <= k < |f| ensures Get(b, r.out + 1 + k) == f[k] { assert Get(b, r.out + 1 + k) == Get(r.buf, r.out + 1 + k); }
      GetAllLies(b, r.out + 1, f, |f|);
      assert f[..|f|] == f;
      KeptAll(r.buf, b, r.out + 1 + |f|, fs[1..]);
    }
    hide Get;
  }

  /** A delivered frame joins those that are still to be read. */
  lemma DeliveredUnread(b: Station, b0: Station, fs: seq<seq<nat>>, data: seq<nat>)
    requires Unread(b0.rx, fs) && Frame(data) && Room(b0.rx, |data|) && Delivered(b, b0, data)
    ensures Unread(b.rx, fs + [data])
  {
    KeptAll(b0.rx.buf, b.rx.buf, b0.rx.out, fs);
    hide Get, LieAll, Lies, Total, Kept;
    LieAppend(b.rx.buf, b0.rx.out, fs, data);
  }

  // ----- Events

  lemma TakeBitOk(s: Station, fs: seq<seq<nat>>, bit: bool)
    requires RxOk(s, fs) && Following(s.mode)
    ensures RxOk(s.(mode := RxData1, timer := In(START), rx := TakeBit(s.rx, bit)), fs)
  {
    var r := s.rx;
    var byte := if bit && r.byte % 2 == 0 then r.byte + 1 else r.byte;
    if r.bi == 1 && r.len + 1 + (r.inn - r.out) < SIZE {
      PutUnread(r, fs, r.inn + r.len + 1, byte);
      PutSmall(r.buf, r.inn + r.len + 1, byte);
    }
    hide LieAll, Total, Small, Put;
  }

  lemma PinOkRx(s: Station, fs: seq<seq<nat>>, level: bool)
    requires RxOk(s, fs)
    ensures RxOk(PinIrq(s, level), fs)
  {
    hide TakeBit, LieAll, Total, Small;
    var s1 := s.(pin := if level then 1 else 0);
    if s1.mode == RxData0 {
      TakeBitOk(s1, fs, true);
      TakeBitOk(s1, fs, false);
    }
  }

  lemma OthersKeepRx(s: Station, data: seq<nat>, level: bool)
    ensures Write(s, data).0.rx == s.rx && EndTx(s).rx == s.rx && SendBit(s).rx == s.rx && StartTx(s).rx == s.rx
    ensures !Following(StartTx(s).mode) && !Following(EndTx(s).mode) && !Following(SendBit(s).mode)
    ensures Following(Write(s, data).0.mode) ==> Write(s, data).0.mode == s.mode
  {}

  lemma PublishOk(s: Station, fs: seq<seq<nat>>, level: bool)
    requires RxOk(s, fs) && Publishes(s, TimerEv(level)) && s.rx.inn - s.rx.out < SIZE
    ensures RxOk(Timeout(s, level), fs + [Partial(s.rx)])
  {
    PublishExact(s.rx, fs);
    PutSmall(s.rx.buf, s.rx.inn, s.rx.len);
    OthersKeepRx(s.(timer := Off, mode := Idle, rx := Publish(s.rx)), [], level);
    hide Unread, Small, StartTx, Partial, Put;
  }

  lemma QuietOk(s: Station, fs: seq<seq<nat>>, level: bool)
    requires RxOk(s, fs) && !Publishes(s, TimerEv(level))
    ensures RxOk(Timeout(s, level), fs)
  {
    OthersKeepRx(s.(timer := Off), [], level);
    OthersKeepRx(s.(timer := Off, mode := Idle), [], level);
    hide LieAll, Total, Small, StartTx, EndTx, SendBit, Publish;
  }

  lemma TimerOkRx(s: Station, fs: seq<seq<nat>>, level: bool)
    requires RxOk(s, fs) && (Publishes(s, TimerEv(level)) ==> s.rx.inn - s.rx.out < SIZE)
    ensures RxOk(Timeout(s, level), RxAfter(fs, s, TimerEv(level)))
  {
    hide Timeout, RxOk, Partial;
    if Publishes(s, TimerEv(level)) { PublishOk(s, fs, level); } else { QuietOk(s, fs, level); }
  }

  /** Every event keeps the ring in order, unless a frame ends on a full ring. */
  lemma ReactRx(s: Station, fs: seq<seq<nat>>, e: Event)
    requires RxOk(s, fs) && (Publishes(s, e) ==> s.rx.inn - s.rx.out < SIZE)
    ensures RxOk(React(s, e), RxAfter(fs, s, e))
    ensures e.ReadEv? ==> Read(s, e.size).1 == ReadAnswer(fs, e.size)
  {
    match e
    case WriteEv(data) =>
      OthersKeepRx(s, data, true);
      hide Write, Unread, Small;
    case ReadEv(size) =>
      ReadFirst(s, fs, size);
      if fs != [] { PutSmall(s.rx.buf, s.rx.out, 0); }
      hide Unread, Small, Put, GetAll, Get;
    case PinEv(level) =>
      PinOkRx(s, fs, level);
      hide PinIrq, RxOk;
    case TimerEv(level) =>
      TimerOkRx(s, fs, level);
      hide Timeout, RxOk;
  }

  // ----- Runs

  /** No frame ends while the ring is full. */
  predicate NeverFull(s: Station, es: seq<Event>)
    decreases |es|
  {
    es == [] || ((Publishes(s, es[0]) ==> s.rx.inn - s.rx.out < SIZE) && NeverFull(React(s, es[0]), es[1..]))
  }

  /** The ring is in order after every event of the run. */
  predicate AlwaysOk(s: Station, fs: seq<seq<nat>>, es: seq<Event>)
    decreases |es|
  {
    RxOk(s, fs) && (es == [] || AlwaysOk(React(s, es[0]), RxAfter(fs, s, es[0]), es[1..]))
  }

  function RxLeft(fs: seq<seq<nat>>, s: Station, es: seq<Event>): seq<seq<nat>>
    decreases |es|
  {
    if es == [] then fs else RxLeft(RxAfter(fs, s, es[0]), React(s, es[0]), es[1..])
  }

  /** The frames that have come in, in order. */
  function Received(s: Station, es: seq<Event>): seq<seq<nat>>
    decreases |es|
  {
    if es == [] then [] else InNow(s, es[0]) + Received(React(s, es[0]), es[1..])
  }

  /** The frames that readers have got, in order. */
  function Fetched(s: Station, es: seq<Event>): seq<seq<nat>>
    decreases |es|
  {
    if es == [] then [] else GotNow(s, es[0]) + Fetched(React(s, es[0]), es[1..])
  }

  lemma FullBreaks(s: Station, fs: seq<seq<nat>>, e: Event)
    requires RxOk(s, fs) && Publishes(s, e) && s.rx.inn - s.rx.out >= SIZE
    ensures !RxOk(React(s, e), RxAfter(fs, s, e))
  {
    PublishExact(s.rx, fs);
    OthersKeepRx(s.(timer := Off, mode := Idle, rx := Publish(s.rx)), [], true);
    hide Unread, Small, StartTx, EndTx, SendBit, Partial, Put;
  }

  /** What goes wrong: the empty frame's length is written over that of the first unread frame, and the
      next reader gets no bytes. */
  lemma FirstLost(s: Station, fs: seq<seq<nat>>, e: Event, size: nat)
    requires RxOk(s, fs) && Publishes(s, e) && s.rx.inn - s.rx.out >= SIZE
    ensures fs != [] && Read(React(s, e), size).1 == Got([])
  {
    var r := s.rx;
    assert r.len == 0 && r.inn == r.out + SIZE;
    SameSlot(r.out);
    assert Get(Put(r.buf, r.inn, 0), r.out) == 0;
    OthersKeepRx(s.(timer := Off, mode := Idle, rx := Publish(r)), [], e.level);
    hide Get, Put, LieAll, StartTx, Small;
  }

  lemma SameSlot(i: nat)
    ensures (i + SIZE) % SIZE == i % SIZE
  {}

  /** Over every run the ring stays in order exactly if no frame ends while it is full. */
  lemma {:induction false} RunExact(s: Station, fs: seq<seq<nat>>, es: seq<Event>)
    requires RxOk(s, fs)
    ensures AlwaysOk(s, fs, es) <==> NeverFull(s, es)
    decreases |es|
  {
    if es != [] {
      var e, s1, fs1 := es[0], React(s, es[0]), RxAfter(fs, s, es[0]);
      if Publishes(s, e) && s.rx.inn - s.rx.out >= SIZE {
        FullBreaks(s, fs, e);
      } else {
        ReactRx(s, fs, e);
        hide RxOk, React, RxAfter, Publishes;
        RunExact(s1, fs1, es[1..]);
      }
    }
  }

  function GotNow(s: Station, e: Event): seq<seq<nat>>
  {
    if e.ReadEv? && Read(s, e.size).1.Got? then [Read(s, e.size).1.data] else []
  }

  function InNow(s: Station, e: Event): seq<seq<nat>> { if Publishes(s, e) then [Partial(s.rx)] else [] }

  /** Then readers get the frames that came in, each once and in order, and the rest is still there. */
  lemma {:induction false} RunFifo(s: Station, fs: seq<seq<nat>>, es: seq<Event>)
    requires RxOk(s, fs) && NeverFull(s, es)
    ensures RxOk(RunAll(s, es), RxLeft(fs, s, es))
    ensures Fetched(s, es) + RxLeft(fs, s, es) == fs + Received(s, es)
    decreases |es|
  {
    if es != [] {
      var e, s1, fs1, rest := es[0], React(s, es[0]), RxAfter(fs, s, es[0]), es[1..];
      ReactRx(s, fs, e);
      NowFifo(s, fs, e);
      RunFifo(s1, fs1, rest);
      Regroup(fs, fs1, GotNow(s, e), InNow(s, e), Fetched(s1, rest), RxLeft(fs1, s1, rest), Received(s1, rest));
      hide RxOk, React, RxAfter, Publishes, Read, Partial;
    }
  }

  lemma NowFifo(s: Station, fs: seq<seq<nat>>, e: Event)
    requires e.ReadEv? ==> Read(s, e.size).1 == ReadAnswer(fs, e.size)
    ensures GotNow(s, e) + RxAfter(fs, s, e) == fs + InNow(s, e)
  {
    hide Read, Partial;
  }

  lemma Regroup(fs: seq<seq<nat>>, fs1: seq<seq<nat>>, g: seq<seq<nat>>, w: seq<seq<nat>>,
                got: seq<seq<nat>>, left: seq<seq<nat>>, more: seq<seq<nat>>)
    requires got + left == fs1 + more && g + fs1 == fs + w
    ensures (g + got) + left == fs + (w + more)
  {
    assert (g + got) + left == g + (got + left) == (g + fs1) + more;
  }
}
