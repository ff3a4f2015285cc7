/** Frames that are written while another one is going out. Up to the end of that frame they only join the
    ring: the line and the other station are the same as without them. */
module A1Writes {
  import opened ShiftBits
  import opened A1Model
  import opened A1Loopback
  import opened A1Ring

  /** For every step the frames that are written on `a` before it. */
  type Writes = seq<seq<seq<nat>>>

  function WrittenAt(ws: Writes, at: nat): seq<seq<nat>> { if at < |ws| then ws[at] else [] }

  predicate Frames(fs: seq<seq<nat>>) { forall i :: 0 <= i < |fs| ==> Frame(fs[i]) }

  predicate AllFrames(ws: Writes) { forall i :: 0 <= i < |ws| ==> Frames(ws[i]) }

  /** One write call after the other, and those that were not refused for lack of room. */
  function WriteAll(s: Bus, fs: seq<seq<nat>>): Bus
    decreases |fs|
  {
    if fs == [] then s else Begin(WriteAll(s, fs[..|fs| - 1]), fs[|fs| - 1])
  }

  function Fitting(a: Station, f: seq<nat>): seq<seq<nat>> { if Write(a, f).1.Written? then [f] else [] }

  function Taken(s: Bus, fs: seq<seq<nat>>): seq<seq<nat>>
    decreases |fs|
  {
    if fs == [] then [] else Taken(s, fs[..|fs| - 1]) + Fitting(WriteAll(s, fs[..|fs| - 1]).a, fs[|fs| - 1])
  }

  /** `n` steps with the writes before each of them. */
  function RunW(s: Bus, n: nat, order: Choices, at: nat, ws: Writes): Bus
  {
    if n == 0 then s else Step(WriteAll(RunW(s, n - 1, order, at, ws), WrittenAt(ws, at + n - 1)), Pick(order, at + n - 1))
  }

  /** The frames that were accepted on the way. */
  function TakenIn(s: Bus, n: nat, order: Choices, at: nat, ws: Writes): seq<seq<nat>>
  {
    if n == 0 then [] else TakenIn(s, n - 1, order, at, ws) + Taken(RunW(s, n - 1, order, at, ws), WrittenAt(ws, at + n - 1))
  }

  /** `a` is transmitting before each of the next `n` steps. */
  predicate OnLine(s: Bus, n: nat, order: Choices, at: nat, ws: Writes)
  {
    n == 0 || (OnLine(s, n - 1, order, at, ws) && Transmitting(RunW(s, n - 1, order, at, ws).a.mode))
  }

  lemma {:induction false} RunWSplit(s: Bus, m: nat, n: nat, order: Choices, at: nat, ws: Writes)
    ensures var r := RunW(s, m, order, at, ws);
      && RunW(s, m + n, order, at, ws) == RunW(r, n, order, at + m, ws)
      && TakenIn(s, m + n, order, at, ws) == TakenIn(s, m, order, at, ws) + TakenIn(r, n, order, at + m, ws)
      && (OnLine(s, m, order, at, ws) && OnLine(r, n, order, at + m, ws) ==> OnLine(s, m + n, order, at, ws))
  {
    hide Step, Pick, WriteAll, Taken, Transmitting, WrittenAt;
    if n > 0 {
      RunWSplit(s, m, n - 1, order, at, ws);
    } else {
      assert TakenIn(s, m, order, at, ws) + [] == TakenIn(s, m, order, at, ws);
    }
  }

  lemma {:induction false} TakenFrames(s: Bus, fs: seq<seq<nat>>)
    requires Frames(fs)
    ensures Frames(Taken(s, fs))
    decreases |fs|
  {
    if fs != [] { TakenFrames(s, fs[..|fs| - 1]); }
    hide Frame, Write, WriteAll;
  }

  lemma {:induction false} TakenInFrames(s: Bus, n: nat, order: Choices, at: nat, ws: Writes)
    requires AllFrames(ws)
    ensures Frames(TakenIn(s, n, order, at, ws))
  {
    hide Frame, Taken, RunW;
    if n > 0 {
      TakenInFrames(s, n - 1, order, at, ws);
      TakenFrames(RunW(s, n - 1, order, at, ws), WrittenAt(ws, at + n - 1));
    }
  }

  /** Nothing is written after the last entry of the schedule. */
  lemma {:induction false} NothingTaken(s: Bus, n: nat, order: Choices, at: nat, ws: Writes)
    requires at >= |ws|
    ensures TakenIn(s, n, order, at, ws) == []
  {
    hide RunW, WriteAll;
    if n > 0 {
      NothingTaken(s, n - 1, order, at, ws);
      assert WrittenAt(ws, at + n - 1) == [];
    }
  }

  // ----- A ring that has gained frames

  /** `tx2` is `tx` with the frames `gs` behind what was in its ring. */
  predicate Extended(tx2: Tx, tx: Tx, gs: seq<seq<nat>>)
  {
    && tx2 == tx.(buf := tx2.buf, inn := tx.inn + Total(gs)) && |tx2.buf| == SIZE
    && tx.out <= tx.inn && tx2.inn - tx.out <= SIZE && Kept(tx2.buf, tx.buf, tx.out, tx.inn) && LieAll(tx2.buf, tx.inn, gs)
  }

  predicate Grown(s2: Bus, s: Bus, gs: seq<seq<nat>>) { s2 == s.(a := s.a.(tx := s2.a.tx)) && Extended(s2.a.tx, s.a.tx, gs) }

  lemma ExtendedNone(tx: Tx)
    requires |tx.buf| == SIZE && tx.out <= tx.inn <= tx.out + SIZE
    ensures Extended(tx, tx, [])
  {}

  /** One more frame. */
  lemma ExtendedOne(tx2: Tx, tx: Tx, gs: seq<seq<nat>>, f: seq<nat>)
    requires Extended(tx2, tx, gs) && Bytes(f) && tx2.inn - tx.out + |f| < SIZE
    ensures var buf := PutAll(Put(tx2.buf, tx2.inn, |f|), tx2.inn + 1, f);
      Extended(tx2.(buf := buf, inn := tx2.inn + 1 + |f|), tx, gs + [f])
  {
    hide *;
    var buf := PutAll(Put(tx2.buf, tx2.inn, |f|), tx2.inn + 1, f);
    ExtendedFacts(tx2, tx, gs);
    ByteLength(f);
    WriteBytes(tx2, f);
    ExtendedBuf(tx2, tx, gs, f, buf);
  }

  lemma ByteLength(f: seq<nat>)
    requires Bytes(f)
    ensures |f| < SIZE
  {}

  lemma ExtendedFacts(tx2: Tx, tx: Tx, gs: seq<seq<nat>>)
    requires Extended(tx2, tx, gs)
    ensures |tx2.buf| == SIZE && tx2.out == tx.out <= tx.inn <= tx2.inn == tx.inn + Total(gs)
  {
    hide Total, LieAll, Kept;
  }

  lemma ExtendedBuf(tx2: Tx, tx: Tx, gs: seq<seq<nat>>, f: seq<nat>, buf: seq<nat>)
    requires Extended(tx2, tx, gs) && Bytes(f) && tx2.inn - tx.out + |f| < SIZE && |buf| == SIZE
    requires Get(buf, tx2.inn) == |f| && Lies(buf, tx2.inn + 1, f, |f|) && Kept(buf, tx2.buf, tx2.out, tx2.inn)
    ensures Extended(tx2.(buf := buf, inn := tx2.inn + 1 + |f|), tx, gs + [f])
  {
    hide LieAll, Lies, Bytes, Total, Kept, Get;
    KeptTwice(buf, tx2.buf, tx.buf, tx.out, tx.inn, tx2.inn);
    KeptAll(tx2.buf, buf, tx.inn, gs);
    LieAppend(buf, tx.inn, gs, f);
  }

  lemma KeptTwice(b: seq<nat>, b2: seq<nat>, b0: seq<nat>, out: nat, inn: nat, inn2: nat)
    requires Kept(b, b2, out, inn2) && Kept(b2, b0, out, inn) && out <= inn <= inn2
    ensures Kept(b, b0, out, inn) && Kept(b, b2, inn, inn2)
  {
    hide Get;
    forall k | out <= k < inn ensures Get(b, k) == Get(b0, k) {
      assert Get(b, k) == Get(b2, k);
    }
  }

  /** The sender has moved on in its ring. */
  lemma ExtendedOn(tx2: Tx, tx: Tx, gs: seq<seq<nat>>, u2: Tx, u: Tx)
    requires Extended(tx2, tx, gs) && tx.out <= u.out <= tx.inn && u.buf == tx.buf && u.inn == tx.inn
    requires u2 == u.(buf := tx2.buf, inn := tx2.inn)
    ensures Extended(u2, u, gs)
  {
    hide Get, Total, LieAll;
  }

  /** The queue is the one without the writes and the frames written. */
  lemma {:induction false} ExtendedQueue(tx2: Tx, tx: Tx, fs: seq<seq<nat>>, gs: seq<seq<nat>>)
    requires Extended(tx2, tx, gs) && Queue(tx, fs)
    ensures Queue(tx2, fs + gs)
  {
    hide Get, Total, LieAll, Kept;
    KeptAll(tx.buf, tx2.buf, tx.out, fs);
    LieBoth(tx2.buf, tx.out, fs, gs);
  }

  lemma {:induction false} LieBoth(buf: seq<nat>, i: nat, fs: seq<seq<nat>>, gs: seq<seq<nat>>)
    requires LieAll(buf, i, fs) && LieAll(buf, i + Total(fs), gs)
    ensures LieAll(buf, i, fs + gs) && Total(fs + gs) == Total(fs) + Total(gs)
    decreases |fs|
  {
    hide Get, Lies, Bytes;
    if fs == [] {
      assert fs + gs == gs;
    } else {
      assert (fs + gs)[1..] == fs[1..] + gs && (fs + gs)[0] == fs[0];
      LieBoth(buf, i + 1 + |fs[0]|, fs[1..], gs);
    }
  }

  // ----- Writes and steps

  /** A write during a transmission joins the ring or is refused, and is not seen on the line. */
  lemma WriteGrown(s2: Bus, s: Bus, gs: seq<seq<nat>>, f: seq<nat>)
    requires Grown(s2, s, gs) && Transmitting(s.a.mode) && Frame(f)
    ensures Grown(Begin(s2, f), s, gs + Fitting(s2.a, f))
  {
    if Write(s2.a, f).1.Written? {
      ExtendedOne(s2.a.tx, s.a.tx, gs, f);
    } else {
      assert gs + [] == gs;
    }
    hide Extended, PutAll, Put;
  }

  lemma {:induction false} WritesGrown(s2: Bus, s: Bus, gs: seq<seq<nat>>, fs: seq<seq<nat>>)
    requires Grown(s2, s, gs) && Transmitting(s.a.mode) && Frames(fs)
    ensures Grown(WriteAll(s2, fs), s, gs + Taken(s2, fs))
    decreases |fs|
  {
    hide Frame, Grown, Begin, Fitting, Transmitting;
    if fs == [] {
      assert gs + [] == gs;
    } else {
      var init, f := fs[..|fs| - 1], fs[|fs| - 1];
      WritesGrown(s2, s, gs, init);
      WriteGrown(WriteAll(s2, init), s, gs + Taken(s2, init), f);
      assert gs + Taken(s2, fs) == gs + Taken(s2, init) + Fitting(WriteAll(s2, init).a, f);
    }
  }

  /** The bit that goes out next does not depend on the frames that were written. */
  lemma BitGrown(tx2: Tx, tx: Tx, gs: seq<seq<nat>>)
    requires Extended(tx2, tx, gs) && tx.bi > 0 && HasHead(tx)
    ensures NextBit(tx2) == NextBit(tx).(buf := tx2.buf, inn := tx2.inn)
    ensures Extended(NextBit(tx2), NextBit(tx), gs)
  {
    if tx.bi == 1 && tx.oix + 1 < tx.len {
      var i := tx.oix + tx.out + 2;
      assert Get(tx2.buf, i) == Get(tx.buf, i);
    }
    ExtendedOn(tx2, tx, gs, NextBit(tx2), NextBit(tx));
    hide Get, Extended;
  }

  lemma StartGrown(a2: Station, a: Station, gs: seq<seq<nat>>)
    requires a2 == a.(tx := a2.tx) && Extended(a2.tx, a.tx, gs) && HasHead(a.tx)
    ensures EndTx(a2) == EndTx(a).(tx := EndTx(a2).tx) && Extended(EndTx(a2).tx, EndTx(a).tx, gs)
    ensures EndTx(a).irq == false
  {
    assert Get(a2.tx.buf, a.tx.out) == Get(a.tx.buf, a.tx.out);
    assert Get(a2.tx.buf, a.tx.out + 1) == Get(a.tx.buf, a.tx.out + 1);
    ExtendedOn(a2.tx, a.tx, gs, EndTx(a2).tx, EndTx(a).tx);
    hide Get, Extended;
  }

  lemma TimeoutGrown(a2: Station, a: Station, gs: seq<seq<nat>>, level: bool)
    requires a2 == a.(tx := a2.tx) && Extended(a2.tx, a.tx, gs) && Busy(a)
    ensures Timeout(a2, level) == Timeout(a, level).(tx := Timeout(a2, level).tx)
    ensures Extended(Timeout(a2, level).tx, Timeout(a, level).tx, gs) && !Timeout(a, level).irq
  {
    if a.mode == TxData0 {
      StartGrown(a2.(timer := Off), a.(timer := Off), gs);
      BitGrown(a2.tx, a.tx, gs);
      SameTop(a2.tx, a.tx, gs);
    }
    hide Extended, NextBit, EndTx, TopBit, HasHead;
  }

  lemma SameTop(tx2: Tx, tx: Tx, gs: seq<seq<nat>>)
    requires Extended(tx2, tx, gs)
    ensures TopBit(tx2) == TopBit(tx) && tx2.bi == tx.bi
  {}

  lemma FireAGrown(s2: Bus, s: Bus, gs: seq<seq<nat>>)
    requires Grown(s2, s, gs) && Busy(s.a)
    ensures Grown(FireA(s2), FireA(s), gs) && !FireA(s).a.irq
  {
    TimeoutGrown(s2.a, s.a, gs, Level(s));
    hide Timeout, Extended, HasHead, PinIrq;
  }

  lemma FireBGrown(s2: Bus, s: Bus, gs: seq<seq<nat>>)
    requires Grown(s2, s, gs) && !s.a.irq
    ensures Grown(FireB(s2), FireB(s), gs) && FireB(s).a == s.a
  {
    hide Timeout, Extended, PinIrq;
  }

  lemma StepGrown(s2: Bus, s: Bus, gs: seq<seq<nat>>, bFirst: bool)
    requires Grown(s2, s, gs) && Busy(s.a)
    ensures Grown(Step(s2, bFirst), Step(s, bFirst), gs)
  {
    var d := Until(s);
    var t := Bus(s.a.(timer := Elapse(s.a.timer, d)), s.b.(timer := Elapse(s.b.timer, d)));
    var t2 := Bus(s2.a.(timer := Elapse(s.a.timer, d)), s2.b.(timer := Elapse(s.b.timer, d)));
    if bFirst {
      FireBGrown(t2, t, gs);
      FireAGrown(FireB(t2), FireB(t), gs);
    } else {
      FireAGrown(t2, t, gs);
      FireBGrown(FireA(t2), FireA(t), gs);
    }
    hide FireA, FireB, Extended, HasHead;
  }

  /** As long as the sender is busy, the run with the writes is the run without them, with the frames that
      were accepted behind the others in the ring. */
  lemma {:induction false} RunGrown(s: Bus, n: nat, order: Choices, at: nat, ws: Writes)
    requires AllBusy(s, n, order, at) && AllFrames(ws)
    requires |s.a.tx.buf| == SIZE && s.a.tx.out <= s.a.tx.inn <= s.a.tx.out + SIZE
    ensures Grown(RunW(s, n, order, at, ws), Run(s, n, order, at), TakenIn(s, n, order, at, ws))
    ensures OnLine(s, n, order, at, ws)
  {
    hide Step, Pick, WriteAll, Taken, Extended, HasHead, Frame, Total;
    if n == 0 {
      ExtendedNone(s.a.tx);
    } else {
      RunGrown(s, n - 1, order, at, ws);
      var r, r2 := Run(s, n - 1, order, at), RunW(s, n - 1, order, at, ws);
      WritesGrown(r2, r, TakenIn(s, n - 1, order, at, ws), WrittenAt(ws, at + n - 1));
      StepGrown(WriteAll(r2, WrittenAt(ws, at + n - 1)), r, TakenIn(s, n, order, at, ws), Pick(order, at + n - 1));
    }
  }
}
