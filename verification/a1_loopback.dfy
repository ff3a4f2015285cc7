/** Two stations on one open-drain line: what one sends, the other puts into its ring. */
module A1Loopback {
  import opened A1Model
  import opened ShiftBits

  datatype Bus = Bus(a: Station, b: Station)

  predicate Level(s: Bus) { !s.a.sink && !s.b.sink }

  function Elapse(t: Timer, d: nat): Timer
  {
    match t
    case Off => Off
    case In(u) => In(if u >= d then u - d else 0)
  }

  /** The line as both stations see it after a handler ran at line level `before`. */
  function Edges(s: Bus, before: bool): Bus
  {
    if Level(s) == before then s
    else Bus(if s.a.irq then PinIrq(s.a, Level(s)) else s.a, if s.b.irq then PinIrq(s.b, Level(s)) else s.b)
  }

  function FireA(s: Bus): Bus
  {
    if s.a.timer == In(0) then Edges(s.(a := Timeout(s.a, Level(s))), Level(s)) else s
  }

  function FireB(s: Bus): Bus
  {
    if s.b.timer == In(0) then Edges(s.(b := Timeout(s.b, Level(s))), Level(s)) else s
  }

  function Until(s: Bus): nat
  {
    match (s.a.timer, s.b.timer)
    case (Off, Off) => 0
    case (In(u), Off) => u
    case (Off, In(v)) => v
    case (In(u), In(v)) => if u <= v then u else v
  }

  /** Time passes to the next expiry; when both expire at once either may be served first. */
  function Step(s: Bus, bFirst: bool): Bus
  {
    var d := Until(s);
    var s1 := Bus(s.a.(timer := Elapse(s.a.timer, d)), s.b.(timer := Elapse(s.b.timer, d)));
    if bFirst then FireA(FireB(s1)) else FireB(FireA(s1))
  }

  /** For every step whether the timer of `b` is served first. */
  type Choices = seq<bool>

  function Pick(order: Choices, at: nat): bool { at < |order| && order[at] }

  /** `n` steps, with the choices from number `t` on. */
  function Run(s: Bus, n: nat, order: Choices, at: nat): Bus
  {
    if n == 0 then s else Step(Run(s, n - 1, order, at), Pick(order, at + n - 1))
  }

  lemma {:induction false} RunSplit(s: Bus, m: nat, n: nat, order: Choices, at: nat)
    ensures Run(s, m + n, order, at) == Run(Run(s, m, order, at), n, order, at + m)
  {
    hide Step, Pick;
    if n > 0 {
      RunSplit(s, m, n - 1, order, at);
    }
  }

  lemma Next(s: Bus, n: nat, order: Choices, at: nat)
    ensures Run(s, 0, order, at) == s && Run(s, n + 1, order, at) == Step(Run(s, n, order, at), Pick(order, at + n))
  {
    hide Step;
  }

  /** The effect of a step in which only the timer of `a`, or only that of `b`, expires. */
  function AfterA(s: Bus): Bus
    requires s.a.timer.In?
  {
    Edges(Bus(Timeout(s.a, Level(s)), s.b.(timer := Elapse(s.b.timer, s.a.timer.usec))), Level(s))
  }

  function AfterB(s: Bus): Bus
    requires s.b.timer.In?
  {
    Edges(Bus(s.a.(timer := Elapse(s.a.timer, s.b.timer.usec)), Timeout(s.b, Level(s))), Level(s))
  }

  lemma PinArms(s: Station, level: bool)
    ensures PinIrq(s, level).timer == In(0) ==> s.timer == In(0)
  {
  }

  lemma OnlyA(s: Bus)
    requires s.a.timer.In? && (s.b.timer.Off? || s.b.timer.usec > s.a.timer.usec)
    ensures forall bFirst :: Step(s, bFirst) == AfterA(s)
  {
    hide SendBit, StartTx, EndTx, Publish, PinIrq;
    var b := s.b.(timer := Elapse(s.b.timer, s.a.timer.usec));
    assert Timeout(s.a.(timer := In(0)), Level(s)) == Timeout(s.a, Level(s));
    PinArms(b, Level(Bus(Timeout(s.a, Level(s)), b)));
  }

  lemma OnlyB(s: Bus)
    requires s.b.timer.In? && (s.a.timer.Off? || s.a.timer.usec > s.b.timer.usec)
    ensures forall bFirst :: Step(s, bFirst) == AfterB(s)
  {
    hide SendBit, StartTx, EndTx, Publish, PinIrq;
    var a := s.a.(timer := Elapse(s.a.timer, s.b.timer.usec));
    assert Timeout(s.b.(timer := In(0)), Level(s)) == Timeout(s.b, Level(s));
    PinArms(a, Level(Bus(a, Timeout(s.b, Level(s)))));
  }

  // ----- A sender that is busy

  /** The sender is transmitting and the end of its frame is not the next thing that it does; the frame that
      it is in lies in the ring. */
  predicate Busy(a: Station)
  {
    && (a.mode == TxInit0 || a.mode == TxData0 || a.mode == TxData1) && !a.irq
    && (a.mode == TxData1 || a.tx.bi > 0) && (a.tx.bi > 0 ==> HasHead(a.tx))
  }

  predicate HasHead(tx: Tx) { tx.len > 0 && tx.out + tx.len + 1 <= tx.inn }

  /** The sender is busy before each of the next `n` steps. */
  predicate AllBusy(s: Bus, n: nat, order: Choices, at: nat)
  {
    n == 0 || (AllBusy(s, n - 1, order, at) && Busy(Run(s, n - 1, order, at).a))
  }

  lemma {:induction false} BusySplit(s: Bus, m: nat, n: nat, order: Choices, at: nat)
    requires AllBusy(s, m, order, at) && AllBusy(Run(s, m, order, at), n, order, at + m)
    ensures AllBusy(s, m + n, order, at)
  {
    hide Run, Busy;
    if n > 0 {
      BusySplit(s, m, n - 1, order, at);
      RunSplit(s, m, n - 1, order, at);
    }
  }

  lemma BusyMore(s: Bus, n: nat, order: Choices, at: nat)
    requires AllBusy(s, n, order, at) && Busy(Run(s, n, order, at).a)
    ensures AllBusy(s, n + 1, order, at)
  {
    hide Run, Busy;
  }

  /** Nothing but its timer changes while the sender waits. */
  lemma {:induction false} WaitBusy(s: Bus, n: nat, order: Choices, at: nat)
    requires Busy(s.a) && forall i: nat :: i < n ==> Waits(Run(s, i, order, at), s)
    ensures AllBusy(s, n, order, at)
  {
    hide Run, Busy, Waits;
    if n > 0 {
      WaitBusy(s, n - 1, order, at);
      BusyWaits(Run(s, n - 1, order, at), s);
    }
  }

  lemma BusyWaits(s1: Bus, s: Bus)
    requires Busy(s.a) && Waits(s1, s)
    ensures Busy(s1.a)
  {
    hide HasHead;
  }

  predicate Waits(s1: Bus, s: Bus) { s1.a == s.a.(timer := s1.a.timer) }

  lemma HeadStays(tx: Tx)
    ensures tx.bi > 0 && HasHead(tx) && NextBit(tx).bi > 0 ==> HasHead(NextBit(tx))
  {}

  // ----- One bit

  /** The gap before a bit, or before the end of the frame: the sender acts in 600 microseconds. */
  predicate Gap(s: Bus)
  {
    && s.a.mode == TxData0 && !s.a.sink && !s.a.irq && s.a.timer == In(HIGH)
    && (s.b.mode == RxInit1 || s.b.mode == RxData1) && !s.b.sink && s.b.irq && s.b.pin == 1 && s.b.timer == In(START)
  }

  /** The pulse of a bit has lasted 300 microseconds, and the receiver has counted once. */
  function Pulse(s: Bus): Bus
    requires s.a.tx.bi > 0
  {
    Bus(s.a.(mode := TxData1, timer := In(if TopBit(s.a.tx) then LOW1 - 300 else LOW0 - 300), sink := true, tx := NextBit(s.a.tx)),
        s.b.(pin := 0, mode := RxData0, timer := In(600), rx := s.b.rx.(cnt := 1)))
  }

  lemma PulseBegins(s: Bus, order: Choices, at: nat)
    requires Gap(s) && s.a.tx.bi > 0
    ensures Run(s, 2, order, at) == Pulse(s)
    ensures Run(s, 1, order, at).a == Pulse(s).a.(timer := Run(s, 1, order, at).a.timer)
  {
    hide Step, NextBit, TopBit;
    var low := if TopBit(s.a.tx) then LOW1 else LOW0;
    Next(s, 0, order, at);
    OnlyA(s);
    var s1 := Bus(s.a.(mode := TxData1, timer := In(low), sink := true, tx := NextBit(s.a.tx)),
                  s.b.(pin := 0, mode := RxData0, timer := In(300), rx := s.b.rx.(cnt := 0)));
    assert AfterA(s) == s1;
    Next(s, 1, order, at);
    OnlyB(s1);
  }

  lemma BeginsBusy(s: Bus, order: Choices, at: nat)
    requires Gap(s) && s.a.tx.bi > 0 && HasHead(s.a.tx)
    requires Run(s, 1, order, at).a == Pulse(s).a.(timer := Run(s, 1, order, at).a.timer)
    ensures AllBusy(s, 2, order, at)
  {
    HeadStays(s.a.tx);
    Next(s, 0, order, at);
    hide Run, NextBit, TopBit, HasHead, Step;
    BusyMore(s, 0, order, at);
    BusyMore(s, 1, order, at);
  }

  /** The bit ends with a rising edge after one or two periods. */
  lemma PulseEnds(s: Bus, p: Bus, order: Choices, at: nat) returns (n: nat)
    requires Gap(s) && s.a.tx.bi > 0 && p == Pulse(s)
    ensures n == if TopBit(s.a.tx) then 2 else 1
    ensures HasHead(s.a.tx) ==> AllBusy(p, n, order, at)
    ensures Gap(Run(p, n, order, at)) && Run(p, n, order, at).a.tx == NextBit(s.a.tx) && Run(p, n, order, at).a.rx == s.a.rx
    ensures Run(p, n, order, at).b.rx.(cnt := 0) == TakeBit(s.b.rx, TopBit(s.a.tx)).(cnt := 0)
    ensures Run(p, n, order, at).b.tx == s.b.tx && Run(p, n, order, at).b.mode == RxData1
  {
    HeadStays(s.a.tx);
    hide Step, NextBit, TakeBit, TopBit, HasHead;
    Next(p, 0, order, at);
    if TopBit(s.a.tx) {
      OnlyB(p);
      var p1 := Bus(p.a.(timer := In(300)), p.b.(timer := In(600), rx := s.b.rx.(cnt := 2)));
      assert AfterB(p) == p1;
      Next(p, 1, order, at);
      OnlyA(p1);
      n := 2;
      CountApart(s.b.rx, 2, true);
    } else {
      OnlyA(p);
      n := 1;
      CountApart(s.b.rx, 1, false);
    }
    PulseBusy(s, p, n, order, at);
  }

  lemma PulseBusy(s: Bus, p: Bus, n: nat, order: Choices, at: nat)
    requires s.a.tx.bi > 0 && p == Pulse(s) && !s.a.irq && (n == 1 || n == 2)
    requires n == 2 ==> Run(p, 1, order, at).a == p.a.(timer := Run(p, 1, order, at).a.timer)
    ensures HasHead(s.a.tx) ==> AllBusy(p, n, order, at)
  {
    HeadStays(s.a.tx);
    Next(p, 0, order, at);
    hide Run, NextBit, TopBit, HasHead;
    if HasHead(s.a.tx) {
      BusyMore(p, 0, order, at);
      if n == 2 { BusyMore(p, 1, order, at); }
    }
  }

  /** One bit moves the sender's top bit into the receiver. */
  lemma Cell(s: Bus, order: Choices, at: nat) returns (n: nat)
    requires Gap(s) && s.a.tx.bi > 0
    ensures n == if TopBit(s.a.tx) then 4 else 3
    ensures Gap(Run(s, n, order, at)) && Run(s, n, order, at).a.tx == NextBit(s.a.tx) && Run(s, n, order, at).a.rx == s.a.rx
    ensures Run(s, n, order, at).b.rx.(cnt := 0) == TakeBit(s.b.rx, TopBit(s.a.tx)).(cnt := 0)
    ensures Run(s, n, order, at).b.tx == s.b.tx && Run(s, n, order, at).b.mode == RxData1
    ensures HasHead(s.a.tx) ==> AllBusy(s, n, order, at)
  {
    hide *;
    PulseBegins(s, order, at);
    n := PulseEnds(s, Pulse(s), order, at + 2);
    RunSplit(s, 2, n, order, at);
    if HasHead(s.a.tx) {
      BeginsBusy(s, order, at);
      BusySplit(s, 2, n, order, at);
    }
    n := 2 + n;
  }

  /** The period count does not matter for the bits. */
  lemma CountApart(r: Rx, cnt: nat, bit: bool)
    ensures TakeBit(r.(cnt := cnt), bit).(cnt := 0) == TakeBit(r, bit).(cnt := 0)
  {}

  // ----- Frames

  /** `data` lies in a ring from index `i` on. */
  predicate Lies(buf: seq<nat>, i: nat, data: seq<nat>, n: nat)
  {
    n <= |data| && forall k {:trigger data[k]} :: 0 <= k < n ==> Get(buf, i + k) == data[k]
  }

  predicate Frame(data: seq<nat>) { 1 <= |data| < SIZE && forall i :: 0 <= i < |data| ==> data[i] < 256 }

  /** The sender is on byte `j` of its frame, with `n` bits of it to go. */
  predicate Sending(tx: Tx, data: seq<nat>, j: nat, n: nat)
  {
    && j < |data| && tx.oix == j && tx.len == |data| && tx.bi == n && 1 <= n <= 8
    && tx.byte == ToGo(data[j], n) && Lies(tx.buf, tx.out + 1, data, |data|)
  }

  /** The receiver has `j` bytes of the frame, and of the next all bits but `n`; what was in the ring is
      as in `r0`. */
  predicate Receiving(r: Rx, r0: Rx, data: seq<nat>, j: nat, n: nat)
  {
    && j <= |data| && r.bi == n && 1 <= n <= 8 && r.byte == (if j < |data| then 2 * (data[j] / P2(n)) else 0)
    && r.len == j && r.inn == r0.inn && r.out == r0.out && |r.buf| == SIZE
    && Lies(r.buf, r.inn + 1, data, j) && Kept(r.buf, r0.buf, r0.out, r0.inn)
  }

  /** The unread part of the ring. */
  predicate Kept(buf: seq<nat>, buf0: seq<nat>, out: nat, inn: nat)
  {
    forall k {:trigger Get(buf, k)} :: out <= k < inn ==> Get(buf, k) == Get(buf0, k)
  }

  predicate Room(r: Rx, n: nat) { r.out <= r.inn && r.inn - r.out + n + 1 <= SIZE }

  lemma ModApart(x: nat, y: nat)
    requires x < y < x + 64
    ensures x % 64 != y % 64
  {}

  lemma PutGet(buf: seq<nat>, i: nat, v: nat, k: nat)
    requires |buf| == SIZE && v < 256 && (i == k || i < k < i + SIZE || k < i < k + SIZE)
    ensures Get(Put(buf, i, v), k) == if i == k then v else Get(buf, k)
  {
    if i < k { ModApart(i, k); }
    if k < i { ModApart(k, i); }
  }

  /** The eighth bit puts the byte behind those that are there. */
  lemma StoreByte(buf: seq<nat>, buf0: seq<nat>, out: nat, inn: nat, data: seq<nat>, j: nat)
    requires |buf| == SIZE && j < |data| && data[j] < 256 && out <= inn && inn - out + |data| + 1 <= SIZE
    requires Lies(buf, inn + 1, data, j) && Kept(buf, buf0, out, inn)
    ensures var b := Put(buf, inn + j + 1, data[j]); |b| == SIZE && Lies(b, inn + 1, data, j + 1) && Kept(b, buf0, out, inn)
  {
    var b := Put(buf, inn + j + 1, data[j]);
    forall k | 0 <= k < j + 1 ensures Get(b, inn + 1 + k) == data[k] { PutGet(buf, inn + j + 1, data[j], inn + 1 + k); }
    forall k | out <= k < inn ensures Get(b, k) == Get(buf0, k) { PutGet(buf, inn + j + 1, data[j], k); assert Get(buf, k) == Get(buf0, k); }
    hide Get;
  }

  /** What one bit does to both ends: within a byte, and at its end. */
  lemma BitMoves(tx: Tx, r: Rx, r0: Rx, data: seq<nat>, j: nat, n: nat)
    requires Frame(data) && Sending(tx, data, j, n) && Receiving(r, r0, data, j, n) && n > 1
    ensures Sending(NextBit(tx), data, j, n - 1) && Receiving(TakeBit(r, TopBit(tx)), r0, data, j, n - 1)
  {
    var c := data[j];
    TopIsBit(c, n);
    PrefixStep(c, n);
    SmallByte(c, n);
    hide Get, Put, Lies, Kept, P2, ToGo, Bit;
  }

  lemma ByteMoves(tx: Tx, r: Rx, r0: Rx, data: seq<nat>, j: nat)
    requires Frame(data) && Sending(tx, data, j, 1) && Receiving(r, r0, data, j, 1) && Room(r0, |data|)
    ensures Receiving(TakeBit(r, TopBit(tx)), r0, data, j + 1, 8)
    ensures var tx2 := NextBit(tx);
      if j + 1 < |data| then Sending(tx2, data, j + 1, 8) else tx2 == tx.(bi := 0, oix := tx2.oix, out := tx.out + |data| + 1)
  {
    var c := data[j];
    TopIsBit(c, 1);
    PrefixStep(c, 1);
    SmallByte(c, 1);
    StoreByte(r.buf, r0.buf, r0.out, r0.inn, data, j);
    if j + 1 < |data| {
      PrefixStep(data[j + 1], 8);
      SmallByte(data[j + 1], 8);
      assert Get(tx.buf, tx.out + 1 + (j + 1)) == data[j + 1];
    }
    hide Get, Put, Lies, Kept, P2, ToGo, Bit;
  }

  /** No bit is lost from the sender's shift register within a byte. */
  lemma SmallByte(c: nat, n: nat)
    requires c < 256 && 1 <= n <= 8
    ensures (ToGo(c, n) * 2) % WRAP == ToGo(c, n - 1) && c / P2(0) == c && 2 * (c / P2(n)) < 512
    ensures ToGo(c, 8) == c && (2 * (c / P2(n))) % 2 == 0
  {}

  /** The receiver's half of a state, whatever its period count. */
  predicate Underway(s: Bus, r0: Rx, tx: Tx, data: seq<nat>, j: nat, n: nat)
  {
    Gap(s) && Sending(s.a.tx, data, j, n) && Receiving(s.b.rx.(cnt := 0), r0, data, j, n) && s.b.tx == tx
  }

  /** The last bit is over: the sender will stop, and the whole frame is in the receiver's ring. */
  predicate Over(s: Bus, r0: Rx, tx: Tx, data: seq<nat>)
  {
    && Gap(s) && s.a.tx.bi == 0 && s.b.mode == RxData1 && Receiving(s.b.rx.(cnt := 0), r0, data, |data|, 8) && s.b.tx == tx
  }

  lemma CountFree(r: Rx, r2: Rx, r0: Rx, data: seq<nat>, j: nat, n: nat, bit: bool)
    requires r2.(cnt := 0) == TakeBit(r, bit).(cnt := 0) && Receiving(TakeBit(r.(cnt := 0), bit), r0, data, j, n)
    ensures Receiving(r2.(cnt := 0), r0, data, j, n)
  {
    CountApart(r, 0, bit);
    hide TakeBit, Lies, Kept;
  }

  /** The steps that the rest of a frame takes, from `n` bits of byte `j` on. */
  function Cells(data: seq<nat>, j: nat, n: nat): nat
    requires j < |data| && 1 <= n <= 8
    decreases |data| - j, n
  {
    (if Bit(data[j], n) == 1 then 4 else 3) +
    if n > 1 then Cells(data, j, n - 1) else if j + 1 < |data| then Cells(data, j + 1, 8) else 0
  }

  lemma TopOf(tx: Tx, data: seq<nat>, j: nat, n: nat)
    requires Frame(data) && Sending(tx, data, j, n)
    ensures TopBit(tx) <==> Bit(data[j], n) == 1
  {
    TopIsBit(data[j], n);
  }

  /** From any place in the frame on, the rest of its bits goes over. */
  lemma {:induction false} Bits(s: Bus, r0: Rx, tx: Tx, data: seq<nat>, j: nat, n: nat, order: Choices, at: nat) returns (m: nat)
    requires Frame(data) && Room(r0, |data|) && Underway(s, r0, tx, data, j, n)
    ensures m == Cells(data, j, n)
    ensures Over(Run(s, m, order, at), r0, tx, data)
    ensures Run(s, m, order, at).a.tx.inn == s.a.tx.inn && Run(s, m, order, at).a.tx.out == s.a.tx.out + |data| + 1
    ensures Run(s, m, order, at).a.tx.buf == s.a.tx.buf && Run(s, m, order, at).a.rx == s.a.rx
    ensures HasHead(s.a.tx) ==> AllBusy(s, m, order, at)
    decreases |data| - j, n
  {
    HeadStays(s.a.tx);
    hide HasHead, AllBusy, Run, NextBit, TakeBit, TopBit, Sending, Receiving, Gap, Bit;
    var bit := TopBit(s.a.tx);
    TopOf(s.a.tx, data, j, n);
    Ranges(s.a.tx, data, j, n);
    var k := Cell(s, order, at);
    var s1 := Run(s, k, order, at);
    NextKeeps(s.a.tx);
    if n > 1 {
      BitMoves(s.a.tx, s.b.rx.(cnt := 0), r0, data, j, n);
      CountFree(s.b.rx, s1.b.rx, r0, data, j, n - 1, bit);
    } else {
      ByteMoves(s.a.tx, s.b.rx.(cnt := 0), r0, data, j);
      CountFree(s.b.rx, s1.b.rx, r0, data, j + 1, 8, bit);
    }
    if n > 1 || j + 1 < |data| {
      Ranges(s1.a.tx, data, if n > 1 then j else j + 1, if n > 1 then n - 1 else 8);
      var i := Bits(s1, r0, tx, data, if n > 1 then j else j + 1, if n > 1 then n - 1 else 8, order, at + k);
      RunSplit(s, k, i, order, at);
      if HasHead(s.a.tx) { BusySplit(s, k, i, order, at); }
      m := k + i;
    } else {
      m := k;
    }
  }

  lemma Ranges(tx: Tx, data: seq<nat>, j: nat, n: nat)
    requires Sending(tx, data, j, n)
    ensures j < |data| && 1 <= n <= 8 && tx.bi == n
  {}

  lemma NextKeeps(tx: Tx)
    requires tx.bi > 0
    ensures NextBit(tx).inn == tx.inn && NextBit(tx).buf == tx.buf
    ensures NextBit(tx).bi > 0 ==> NextBit(tx).out == tx.out
  {}

  // ----- The frame as a whole

  predicate CanSend(a: Station) { a.mode == Idle && a.tx.inn == a.tx.out && !a.sink && |a.tx.buf| == SIZE }

  predicate CanReceive(b: Station)
  {
    b.mode == Idle && !b.sink && b.irq && b.pin != 0 && b.timer == Off && |b.rx.buf| == SIZE
  }

  /** The line right after the write call, with the falling edge delivered. */
  function Begin(s: Bus, data: seq<nat>): Bus { Edges(s.(a := Write(s.a, data).0), Level(s)) }

  lemma {:induction false} PutAllLies(buf: seq<nat>, i: nat, data: seq<nat>, all: seq<nat>)
    requires |buf| == SIZE && |data| < SIZE && data <= all && forall k :: 0 <= k < |all| ==> all[k] < 256
    ensures |PutAll(buf, i, data)| == SIZE && Lies(PutAll(buf, i, data), i, all, |data|)
    ensures i > 0 ==> Get(PutAll(buf, i, data), i - 1) == Get(buf, i - 1)
    decreases |data|
  {
    if data != [] {
      var n := |data| - 1;
      PutAllLies(buf, i, data[..n], all);
      var b := PutAll(buf, i, data[..n]);
      assert data[n] == all[n];
      hide Get, Put, Lies;
      PutLies(b, i, n, all);
    }
  }

  lemma PutLies(b: seq<nat>, i: nat, n: nat, all: seq<nat>)
    requires |b| == SIZE && n < |all| && n + 1 < SIZE && all[n] < 256 && Lies(b, i, all, n)
    ensures var b2 := Put(b, i + n, all[n]); |b2| == SIZE && Lies(b2, i, all, n + 1) && (i > 0 ==> Get(b2, i - 1) == Get(b, i - 1))
  {
    forall k | 0 <= k < n + 1 ensures Get(Put(b, i + n, all[n]), i + k) == all[k] { PutGet(b, i + n, all[n], i + k); }
    if i > 0 { PutGet(b, i + n, all[n], i - 1); }
    hide Get;
  }

  /** A frame that was written lies at the end of the ring behind its length. */
  lemma WrittenLies(tx: Tx, data: seq<nat>)
    requires Frame(data) && |tx.buf| == SIZE
    ensures var buf := PutAll(Put(tx.buf, tx.inn, |data|), tx.inn + 1, data);
      |buf| == SIZE && Get(buf, tx.inn) == |data| && Lies(buf, tx.inn + 1, data, |data|)
  {
    PutGet(tx.buf, tx.inn, |data|, tx.inn);
    PutAllLies(Put(tx.buf, tx.inn, |data|), tx.inn + 1, data, data);
    hide PutAll;
  }

  /** The sender at the start of its frame. */
  function Loaded(a: Station, data: seq<nat>): Station { Write(a, data).0.(mode := TxData0, sink := false, timer := In(HIGH)) }

  lemma LoadedSending(a: Station, data: seq<nat>)
    requires CanSend(a) && Frame(data)
    ensures Sending(Loaded(a, data).tx, data, 0, 8)
    ensures Write(a, data).0 == Loaded(a, data).(mode := TxInit0, timer := In(START), sink := true)
    ensures Loaded(a, data).tx.inn == a.tx.inn + 1 + |data| && Loaded(a, data).tx.out == a.tx.out
    ensures Write(a, data).1 == Written(|data|) && !Loaded(a, data).irq
  {
    WrittenLies(a.tx, data);
    SmallByte(data[0], 8);
    var buf := PutAll(Put(a.tx.buf, a.tx.inn, |data|), a.tx.inn + 1, data);
    assert Get(buf, a.tx.out + 1 + 0) == data[0];
    hide Get, Put, PutAll, Lies;
  }

  /** The falling edge of a start bit has just been delivered: the sender keeps the line low for 2400
      microseconds and the receiver, which was idle, counts periods. */
  predicate Starting(s: Bus)
  {
    && s.a.mode == TxInit0 && s.a.sink && !s.a.irq && s.a.timer == In(START)
    && s.b.mode == RxInit0 && !s.b.sink && s.b.irq && s.b.pin == 0 && s.b.timer == In(300) && s.b.rx.cnt == 0 && s.b.rx.len == 0
  }

  /** The start bit: the receiver counts four periods and waits for the first data bit. */
  lemma StartBit(s: Bus, order: Choices, at: nat)
    requires Starting(s)
    ensures Run(s, 5, order, at) ==
      Bus(s.a.(mode := TxData0, sink := false, timer := In(HIGH)),
          s.b.(mode := RxInit1, pin := 1, timer := In(START), rx := s.b.rx.(cnt := 4, bi := 8, byte := 0)))
    ensures Busy(s.a) ==> AllBusy(s, 5, order, at)
  {
    hide Step, Busy, AllBusy;
    var a, b, r := s.a, s.b, s.b.rx;
    Next(s, 0, order, at);
    OnlyB(s);
    var s1 := Bus(a.(timer := In(2100)), b.(timer := In(600), rx := r.(cnt := 1)));
    assert AfterB(s) == s1;
    Next(s, 1, order, at);
    OnlyB(s1);
    var s2 := Bus(a.(timer := In(1500)), b.(timer := In(600), rx := r.(cnt := 2)));
    assert AfterB(s1) == s2;
    Next(s, 2, order, at);
    OnlyB(s2);
    var s3 := Bus(a.(timer := In(900)), b.(timer := In(600), rx := r.(cnt := 3)));
    assert AfterB(s2) == s3;
    Next(s, 3, order, at);
    OnlyB(s3);
    var s4 := Bus(a.(timer := In(300)), b.(timer := In(600), rx := r.(cnt := 4)));
    assert AfterB(s3) == s4;
    Next(s, 4, order, at);
    OnlyA(s4);
    if Busy(s.a) { WaitBusy(s, 5, order, at); }
  }

  lemma BeginStarts(s: Bus, data: seq<nat>)
    requires CanSend(s.a) && CanReceive(s.b) && Frame(data)
    ensures Starting(Begin(s, data)) && Begin(s, data).a == Loaded(s.a, data).(mode := TxInit0, timer := In(START), sink := true)
    ensures Begin(s, data).b == s.b.(mode := RxInit0, pin := 0, timer := In(300), rx := s.b.rx.(cnt := 0, len := 0))
  {
    LoadedSending(s.a, data);
    Aimed(s.a, data);
    hide Write, Sending, Loaded;
  }

  lemma Aimed(a: Station, data: seq<nat>)
    ensures Loaded(a, data).mode == TxData0 && !Loaded(a, data).sink && Loaded(a, data).timer == In(HIGH)
  {}

  /** The ring of `b` has one more frame than that of `b0`: exactly `data`; the unread ones are untouched. */
  predicate Delivered(b: Station, b0: Station, data: seq<nat>)
  {
    && b.rx.inn == b0.rx.inn + |data| + 1 && b.rx.out == b0.rx.out && |b.rx.buf| == SIZE
    && Get(b.rx.buf, b0.rx.inn) == |data| && Lies(b.rx.buf, b0.rx.inn + 1, data, |data|)
    && Kept(b.rx.buf, b0.rx.buf, b0.rx.out, b0.rx.inn)
  }

  lemma Published(r: Rx, r0: Rx, data: seq<nat>)
    requires Frame(data) && Room(r0, |data|) && Receiving(r.(cnt := 0), r0, data, |data|, 8)
    ensures var buf := Put(r.buf, r.inn, r.len);
      && |buf| == SIZE && Get(buf, r0.inn) == |data| && Lies(buf, r0.inn + 1, data, |data|) && Kept(buf, r0.buf, r0.out, r0.inn)
      && r.len == |data| && r.bi == 8 && r.inn == r0.inn && r.out == r0.out
  {
    var buf := Put(r.buf, r.inn, r.len);
    PutGet(r.buf, r.inn, r.len, r.inn);
    forall k | 0 <= k < |data| ensures Get(buf, r0.inn + 1 + k) == data[k] { PutGet(r.buf, r.inn, r.len, r0.inn + 1 + k); }
    forall k | r0.out <= k < r0.inn ensures Get(buf, k) == Get(r0.buf, k) { PutGet(r.buf, r.inn, r.len, k); assert Get(r.buf, k) == Get(r0.buf, k); }
    hide Get;
  }

  /** The frame has been published. When the receiver had nothing of its own to send both stations are idle;
      otherwise its first frame goes out at once, and the other station hears the start bit. */
  predicate Settled(s: Bus, b0: Station)
  {
    if b0.tx.inn == b0.tx.out then s.a.mode == Idle && s.b.mode == Idle && Level(s) && s.b.tx == b0.tx
    else Starting(Bus(s.b, s.a)) && s.b.tx == StartTx(b0).tx
  }

  /** The sender has nothing more to send and stops. */
  lemma Stops(s: Bus, order: Choices, at: nat)
    requires Gap(s) && s.a.tx.bi == 0 && s.a.tx.inn == s.a.tx.out && s.b.mode == RxData1
    ensures Run(s, 1, order, at) == Bus(s.a.(mode := Idle, pin := 1, irq := true, timer := Off), s.b.(timer := In(1800)))
  {
    hide Step;
    Next(s, 0, order, at);
    OnlyA(s);
  }

  /** After the line has been idle for 2400 microseconds the frame is published. */
  lemma Finish(s: Bus, s1: Bus, b0: Station, data: seq<nat>, order: Choices, at: nat)
    requires Frame(data) && Room(b0.rx, |data|) && Over(s, b0.rx, b0.tx, data)
    requires s1 == Bus(s.a.(mode := Idle, pin := 1, irq := true, timer := Off), s.b.(timer := In(1800)))
    ensures var r := Run(s1, 1, order, at);
      Delivered(r.b, b0, data) && Settled(r, b0) && r.a.tx == s.a.tx && r.a.rx == s.a.rx.(cnt := r.a.rx.cnt, len := r.a.rx.len)
  {
    Published(s.b.rx, b0.rx, data);
    hide Step, Receiving, Get, Put, Lies, Kept;
    Next(s1, 0, order, at);
    OnlyB(s1);
  }

  /** Loopback: whatever frame is written on an idle station, the other station's ring gains exactly it,
      when it fits. */
  lemma Loopback(s: Bus, data: seq<nat>, order: Choices, at: nat) returns (n: nat)
    requires CanSend(s.a) && CanReceive(s.b) && Frame(data) && Room(s.b.rx, |data|)
    ensures n == Cells(data, 0, 8) + 7
    ensures var r := Run(Begin(s, data), n, order, at);
      && Delivered(r.b, s.b, data) && Settled(r, s.b) && r.a.tx.inn == r.a.tx.out
      && r.a.rx == s.a.rx.(cnt := r.a.rx.cnt, len := r.a.rx.len)
  {
    hide Step, Run, Over, Delivered, Begin, Cells, Busy, HasHead, AllBusy;
    var s0 := Begin(s, data);
    BeginStarts(s, data);
    StartBit(s0, order, at);
    LoadedSending(s.a, data);
    Aimed(s.a, data);
    var s1 := Run(s0, 5, order, at);
    assert s1.a == Loaded(s.a, data);
    NothingYet(s1.b.rx, s.b.rx, data);
    hide Sending, Receiving, Loaded;
    var m := Bits(s1, s.b.rx, s.b.tx, data, 0, 8, order, at + 5);
    RunSplit(s0, 5, m, order, at);
    var s2 := Run(s0, 5 + m, order, at);
    RunSplit(s0, 5 + m, 1, order, at);
    RunSplit(s0, 5 + m + 1, 1, order, at);
    OverGap(s2, s.b.rx, s.b.tx, data);
    Stops(s2, order, at + (5 + m));
    Finish(s2, Run(s2, 1, order, at + (5 + m)), s.b, data, order, at + (5 + m + 1));
    n := 5 + m + 2;
  }

  lemma OverGap(s: Bus, r0: Rx, tx: Tx, data: seq<nat>)
    requires Over(s, r0, tx, data)
    ensures Gap(s) && s.a.tx.bi == 0 && s.b.mode == RxData1
  {}

  lemma NothingYet(r: Rx, r0: Rx, data: seq<nat>)
    requires Frame(data) && |r0.buf| == SIZE && r == r0.(cnt := 4, len := 0, bi := 8, byte := 0)
    ensures Receiving(r.(cnt := 0), r0, data, 0, 8)
  {
    PrefixStep(data[0], 8);
  }

  lemma {:induction false} GetAllLies(buf: seq<nat>, i: nat, data: seq<nat>, n: nat)
    requires Lies(buf, i, data, n)
    ensures GetAll(buf, i, n) == data[..n]
  {
    if n > 0 {
      assert Get(buf, i + (n - 1)) == data[n - 1];
      GetAllLies(buf, i, data, n - 1);
      assert data[..n] == data[..n - 1] + [data[n - 1]];
    }
    hide Get;
  }
}
