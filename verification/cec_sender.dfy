/** A sender and whatever the line is: what its acknowledge samples find decides what it reports. */
module CecSender {
  import opened CecModel
  import opened CecBus

  /** Timer expiries of a sender, with the level of the line at each; the pin interrupt is off meanwhile. */
  function Expiries(s: Station, levels: seq<bool>): Station
    decreases |levels|
  {
    if levels == [] then s else Expiries(Timeout(s, levels[0]), levels[1..])
  }

  lemma {:induction false} Split(s: Station, x: seq<bool>, y: seq<bool>)
    ensures Expiries(s, x + y) == Expiries(Expiries(s, x), y)
    decreases |x|
  {
    hide Timeout;
    if x == [] {
      assert x + y == y;
    } else {
      assert (x + y)[1..] == x[1..] + y;
      Split(Timeout(s, x[0]), x[1..], y);
    }
  }

  lemma Two(s: Station, a: bool, b: bool)
    ensures Expiries(s, [a, b]) == Timeout(Timeout(s, a), b)
  {
    hide Timeout;
    assert [a, b][1..] == [b];
    One(Timeout(s, a), b);
  }

  lemma One(s: Station, a: bool)
    ensures Expiries(s, [a]) == Timeout(s, a)
  {
    hide Timeout;
    assert [a][1..] == [];
  }

  /** The sender is about to send the bit after the first `8 - n` of byte `j`. */
  predicate InByte(s: Station, bcast: bool, len: nat, j: nat, n: nat)
  {
    && s.mode == Tx && (s.sub == TX_OUT_NEXT || (s.sub == TX_INIT_HI && n == 8)) && !s.sink
    && s.tx.flags == TxFlags(!bcast, bcast, false) && s.tx.olen == len && s.tx.oix == j && s.tx.bi == n
  }

  /** A bit takes two expiries, at any level. */
  lemma BitOut(s: Station, bcast: bool, len: nat, j: nat, n: nat, a: bool, b: bool)
    requires InByte(s, bcast, len, j, n) && 1 <= n <= 8
    ensures InByte(Expiries(s, [a, b]), bcast, len, j, n - 1)
  {
    hide Expiries;
    Two(s, a, b);
    var s1 := Timeout(s, a);
    BitLow(s, bcast, len, j, n, a);
    BitHigh(s1, bcast, len, j, n, b);
    hide Timeout;
  }

  lemma BitLow(s: Station, bcast: bool, len: nat, j: nat, n: nat, level: bool)
    requires InByte(s, bcast, len, j, n) && 1 <= n <= 8
    ensures var r := Timeout(s, level);
      At(r, r.sub, true, bcast, len, j) && (r.sub == TX_OUT_LO_0 || r.sub == TX_OUT_LO_1) && r.tx.bi == n - 1
  {}

  lemma BitHigh(s: Station, bcast: bool, len: nat, j: nat, n: nat, level: bool)
    requires At(s, s.sub, true, bcast, len, j) && (s.sub == TX_OUT_LO_0 || s.sub == TX_OUT_LO_1) && s.tx.bi == n - 1
    ensures InByte(Timeout(s, level), bcast, len, j, n - 1)
  {}

  lemma {:induction false} BitsOut(s: Station, bcast: bool, len: nat, j: nat, n: nat, levels: seq<bool>)
    requires InByte(s, bcast, len, j, n) && n <= 8 && |levels| == 2 * n
    ensures InByte(Expiries(s, levels), bcast, len, j, 0)
    decreases n
  {
    if n > 0 {
      hide InByte, Expiries;
      BitOut(s, bcast, len, j, n, levels[0], levels[1]);
      var x := [levels[0], levels[1]];
      assert levels == x + levels[2..];
      Split(s, x, levels[2..]);
      BitsOut(Expiries(s, x), bcast, len, j, n - 1, levels[2..]);
    }
  }

  /** The acknowledge cell of byte `j` is about to be sampled. */
  predicate Sampling(s: Station, bcast: bool, len: nat, j: nat)
  {
    s.mode == Tx && s.sub == TX_ACK_2 && !s.sink && s.tx.flags == TxFlags(!bcast, bcast, false) && s.tx.olen == len && s.tx.oix == j
  }

  /** The end-of-message cell, and the acknowledge cell up to its sample. */
  lemma CellsOut(s: Station, bcast: bool, len: nat, j: nat, levels: seq<bool>)
    requires InByte(s, bcast, len, j, 0) && |levels| == 4
    ensures Sampling(Expiries(s, levels), bcast, len, j)
  {
    hide Timeout, Expiries;
    var x, y := levels[..2], levels[2..];
    assert levels == x + y && x == [levels[0], levels[1]] && y == [levels[2], levels[3]];
    Split(s, x, y);
    Two(s, levels[0], levels[1]);
    Two(Expiries(s, x), levels[2], levels[3]);
    FourCells(s, bcast, len, j, levels[0], levels[1], levels[2], levels[3]);
  }

  /** Anywhere in the frame. */
  predicate At(s: Station, sub: nat, sink: bool, bcast: bool, len: nat, j: nat)
  {
    s.mode == Tx && s.sub == sub && s.sink == sink && s.tx.flags == TxFlags(!bcast, bcast, false) && s.tx.olen == len && s.tx.oix == j
  }

  lemma FourCells(s: Station, bcast: bool, len: nat, j: nat, a: bool, b: bool, c: bool, d: bool)
    requires InByte(s, bcast, len, j, 0)
    ensures Sampling(Timeout(Timeout(Timeout(Timeout(s, a), b), c), d), bcast, len, j)
  {
    var s1 := Timeout(s, a);
    assert At(s1, s1.sub, true, bcast, len, j) && (s1.sub == TX_EOM_LO_0 || s1.sub == TX_EOM_LO_1);
    EomEnds(s1, bcast, len, j, b);
    AckBegins(Timeout(s1, b), bcast, len, j, c, d);
    hide Timeout;
  }

  lemma EomEnds(s: Station, bcast: bool, len: nat, j: nat, level: bool)
    requires At(s, s.sub, true, bcast, len, j) && (s.sub == TX_EOM_LO_0 || s.sub == TX_EOM_LO_1)
    ensures At(Timeout(s, level), TX_ACK_NEXT, false, bcast, len, j)
  {}

  lemma AckBegins(s: Station, bcast: bool, len: nat, j: nat, a: bool, b: bool)
    requires At(s, TX_ACK_NEXT, false, bcast, len, j)
    ensures Sampling(Timeout(Timeout(s, a), b), bcast, len, j)
  {
    assert At(Timeout(s, a), TX_ACK_1, true, bcast, len, j);
  }

  /** The sample: the transmission goes on with the next byte, or is over, for better or worse. */
  lemma Sampled(s: Station, bcast: bool, len: nat, j: nat, level: bool)
    requires Sampling(s, bcast, len, j) && j < len
    ensures var r := Expiries(s, [level]);
      if level != bcast then Over(r, bcast, len, true)
      else if j + 1 == len then Over(r, bcast, len, false) else InByte(r, bcast, len, j + 1, 8)
  {
    hide Expiries;
    One(s, level);
  }

  /** The transmission is over, without a right acknowledge or with all of them. */
  predicate Over(s: Station, bcast: bool, len: nat, failed: bool)
  {
    s.mode == Tx && s.sub == TX_DONE && !s.sink && s.tx.flags == TxFlags(!bcast, bcast, failed) && s.tx.olen == len
  }

  /** What is reported then and once the bus is free. */
  lemma OverReports(s: Station, bcast: bool, len: nat, failed: bool, level: bool)
    requires Over(s, bcast, len, failed)
    ensures GetResult(s).1 == (if failed then -2 else len)
    ensures var e := Timeout(s, level); e.mode == TxGuard && GetResult(e).1 == GetResult(s).1
  {}

  /** Number of the expiry, from 0, at which the acknowledge of byte `j` is sampled. */
  function Sample(j: nat): nat { 21 * j + 21 }

  /** Low for a message to one station, high for a broadcast. */
  predicate Right(data: seq<nat>, levels: seq<bool>, j: nat)
    requires data != [] && Sample(j) < |levels|
  {
    levels[Sample(j)] == (data[0] % 16 == 15)
  }

  /** One byte, from its first bit to the sample. */
  lemma ByteOut(s: Station, bcast: bool, len: nat, j: nat, levels: seq<bool>)
    requires InByte(s, bcast, len, j, 8) && j < len && |levels| == 21
    ensures var r := Expiries(s, levels);
      if levels[20] != bcast then Over(r, bcast, len, true)
      else if j + 1 == len then Over(r, bcast, len, false) else InByte(r, bcast, len, j + 1, 8)
  {
    hide *;
    var x, y, z := levels[..16], levels[16..20], levels[20..];
    assert levels == x + y + z && z == [levels[20]];
    Split(s, x + y, z);
    Split(s, x, y);
    BitsOut(s, bcast, len, j, 8, x);
    CellsOut(Expiries(s, x), bcast, len, j, y);
    Sampled(Expiries(s, x + y), bcast, len, j, levels[20]);
  }

  /** From byte `j` on: `k` is the first byte whose acknowledge is not right, or the number of bytes. */
  lemma {:induction false} FromByte(s: Station, data: seq<nat>, j: nat, levels: seq<bool>) returns (k: nat)
    requires data != [] && InByte(s, data[0] % 16 == 15, |data|, j, 8) && j < |data| && |levels| >= 21 * |data| + 1
    ensures j <= k <= |data| && (forall i :: j <= i < k ==> Right(data, levels, i)) && (k < |data| ==> !Right(data, levels, k))
    ensures var n := if k < |data| then k + 1 else k;
      Over(Expiries(s, levels[21 * j + 1..21 * n + 1]), data[0] % 16 == 15, |data|, k < |data|)
    decreases |data| - j
  {
    hide InByte, Over, Expiries;
    var bcast, here := data[0] % 16 == 15, levels[21 * j + 1..21 * j + 22];
    ByteOut(s, bcast, |data|, j, here);
    assert here[20] == levels[Sample(j)];
    if !Right(data, levels, j) {
      k := j;
    } else if j + 1 == |data| {
      k := j + 1;
    } else {
      k := FromByte(Expiries(s, here), data, j + 1, levels);
      var n := if k < |data| then k + 1 else k;
      var rest := levels[21 * (j + 1) + 1..21 * n + 1];
      assert levels[21 * j + 1..21 * n + 1] == here + rest;
      Split(s, here, rest);
    }
  }

  lemma Begins(s: Station, data: seq<nat>, level: bool)
    requires CanSend(s) && 1 <= |data| <= 16
    ensures InByte(Timeout(SendCec(s, data).0, level), data[0] % 16 == 15, |data|, 0, 8)
  {}

  /** What a sender reports, whatever the line does: the length of the message if and only if the acknowledge of
      every byte is right, low for one station and high for a broadcast; otherwise it stops after the first byte
      whose acknowledge is not, with the result -2. */
  lemma Reported(s: Station, data: seq<nat>, levels: seq<bool>) returns (k: nat)
    requires CanSend(s) && 1 <= |data| <= 16 && |levels| >= 21 * |data| + 1
    ensures k <= |data| && (forall i :: 0 <= i < k ==> Right(data, levels, i)) && (k < |data| ==> !Right(data, levels, k))
    ensures var n := if k < |data| then k + 1 else k;
      var r := Expiries(SendCec(s, data).0, levels[..21 * n + 1]);
      && r.mode == Tx && r.sub == TX_DONE && !r.sink && GetResult(r).1 == (if k < |data| then -2 else |data|)
      && forall level :: Timeout(r, level).mode == TxGuard && GetResult(Timeout(r, level)).1 == GetResult(r).1
  {
    var s0 := SendCec(s, data).0;
    var s1 := Expiries(s0, levels[..1]);
    assert levels[..1] == [levels[0]];
    One(s0, levels[0]);
    Begins(s, data, levels[0]);
    hide Timeout, GetResult, SendCec, Expiries, InByte, CanSend;
    k := FromByte(s1, data, 0, levels);
    var n := if k < |data| then k + 1 else k;
    assert levels[..21 * n + 1] == levels[..1] + levels[1..21 * n + 1];
    Split(s0, levels[..1], levels[1..21 * n + 1]);
    var r := Expiries(s0, levels[..21 * n + 1]);
    forall level ensures Timeout(r, level).mode == TxGuard && GetResult(Timeout(r, level)).1 == GetResult(r).1 {
      OverReports(r, data[0] % 16 == 15, |data|, k < |data|, level);
    }
    OverReports(r, data[0] % 16 == 15, |data|, k < |data|, false);
  }

  // ----- The calls

  /** A message is taken exactly if it has at most 16 bytes, the bus is idle and no result is waiting; then the line
      is low. A longer one is an error, and otherwise the caller is to try again; both change nothing. */
  lemma SendAnswers(s: Station, data: seq<nat>)
    requires |data| > 0
    ensures var (e, r) := SendCec(s, data);
      if |data| > 16 then e == s && r == Error
      else if s.mode == Idle && GetResult(s).1 == -1 then r == InProgress && e.mode == Tx && e.sink && !e.irq && e.rx == s.rx && e.timer == In(3700)
      else e == s && r == Again
  {}

  /** A result is handed out once. */
  lemma ResultOnce(s: Station)
    ensures GetResult(GetResult(s).0).1 == -1 && GetResult(s).0 == s.(tx := s.tx.(flags := GetResult(s).0.tx.flags))
    ensures GetResult(s).1 == -1 ==> GetResult(s).0 == s
  {}
}
