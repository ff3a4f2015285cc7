/** The receiver alone, on any waveform: how long the line is low or high decides what it takes. */
module A1Receiver {
  import opened A1Model
  import opened A1Loopback

  /** `d` microseconds pass and the level of the line does not change. */
  function Hold(b: Station, level: bool, d: nat): Station
    decreases d
  {
    match b.timer
    case Off => b
    case In(u) => if 0 < u < d then Hold(Timeout(b, level), level, d - u) else b.(timer := Elapse(b.timer, d))
  }

  /** The line goes low for `d` microseconds, or high. */
  function Low(b: Station, d: nat): Station { PinIrq(Hold(PinIrq(b, false), false, d), true) }

  function High(b: Station, d: nat): Station { Hold(b, true, d) }

  /** The expiries of the period timer in `d` microseconds of low line. */
  function Periods(d: nat): nat { if d < 300 then 0 else 1 + (d - 300) / 600 }

  /** No edge comes when the period timer expires. */
  predicate Clear(d: nat) { d > 0 && d % 600 != 300 }

  function More(u: nat, d: nat): nat { if d < u then 0 else 1 + (d - u) / 600 }

  lemma {:induction false} Counts(b: Station, u: nat, d: nat)
    requires (b.mode == RxInit0 || b.mode == RxData0) && b.timer == In(u) && 0 < u <= 600 && (d - u) % 600 != 0
    ensures var r := Hold(b, false, d);
      r.timer.In? && r == b.(timer := r.timer, rx := b.rx.(cnt := b.rx.cnt + More(u, d)))
    decreases d
  {
    if u < d {
      var b1 := b.(timer := In(600), rx := b.rx.(cnt := b.rx.cnt + 1));
      assert Timeout(b, false) == b1;
      Sixes(d - u);
      Counts(b1, 600, d - u);
    }
  }

  lemma Sixes(n: nat)
    requires n > 0 && n % 600 != 0
    ensures 1 + n / 600 == 1 + More(600, n) && (n - 600) % 600 != 0
  {}

  /** Between two bits, the line high. */
  predicate Listening(b: Station) { (b.mode == RxInit1 || b.mode == RxData1) && b.pin == 1 && b.timer.In? && b.timer.usec > 0 }

  /** A pulse of 300 to 900 microseconds is a zero, one of 900 to 1500 a one, and any other ends the reception with
      nothing stored. */
  lemma PulseExact(b: Station, d: nat)
    requires Listening(b) && Clear(d)
    ensures var r := Low(b, d);
      if 300 < d < 1500 then
        r == b.(mode := RxData1, pin := 1, timer := In(2400), rx := TakeBit(b.rx.(cnt := Periods(d)), d > 900))
      else r == b.(mode := Idle, pin := 1, timer := Off, rx := b.rx.(cnt := Periods(d)))
  {
    hide TakeBit, Hold;
    var b1 := b.(mode := RxData0, pin := 0, timer := In(300), rx := b.rx.(cnt := 0));
    assert PinIrq(b, false) == b1;
    Thirds(d);
    Counts(b1, 300, d);
  }

  lemma Thirds(d: nat)
    requires Clear(d)
    ensures (d - 300) % 600 != 0 && Periods(d) == More(300, d)
    ensures (Periods(d) == 1 <==> 300 < d < 900) && (Periods(d) == 2 <==> 900 < d < 1500) && (Periods(d) == 4 <==> 2100 < d < 2700)
  {}

  /** An idle station takes a pulse of 2100 to 2700 microseconds, and no other, for a start bit. */
  lemma StartExact(b: Station, d: nat)
    requires b.mode == Idle && b.pin != 0 && Clear(d)
    ensures var r := Low(b, d);
      if 2100 < d < 2700 then
        r == b.(mode := RxInit1, pin := 1, timer := In(2400), rx := b.rx.(cnt := Periods(d), len := 0, bi := 8, byte := 0))
      else r == b.(mode := Idle, pin := 1, timer := Off, rx := b.rx.(cnt := Periods(d), len := 0))
  {
    hide Hold;
    var b1 := b.(mode := RxInit0, pin := 0, timer := In(300), rx := b.rx.(cnt := 0, len := 0));
    assert PinIrq(b, false) == b1;
    Thirds(d);
    Counts(b1, 300, d);
  }

  /** The line is high for less than the idle time, and nothing happens; after it a station that has whole bytes
      publishes them, one inside a byte drops the frame, and one without any bit gives up. */
  lemma GapExact(b: Station, d: nat)
    requires Listening(b) && d > 0 && d != b.timer.usec && b.tx.inn == b.tx.out
    ensures var r := High(b, d);
      if d < b.timer.usec then r == b.(timer := In(b.timer.usec - d))
      else r == b.(mode := Idle, timer := Off, rx := if b.mode == RxData1 && b.rx.bi == 8 then Publish(b.rx) else b.rx)
  {
    hide Publish;
    if d > b.timer.usec {
      PublishKeeps(b.rx);
      var e := Timeout(b, true);
      assert e.timer == Off;
      assert Hold(e, true, d - b.timer.usec) == e;
    }
  }

  lemma PublishKeeps(r: Rx)
    ensures Publish(r).cnt == r.cnt
  {}

  /** An interrupt that reports the level seen before changes nothing, nor does the end of a pulse that an idle station
      has not followed, but for that level. */
  lemma NothingSeen(b: Station, level: bool)
    ensures b.pin == (if level then 1 else 0) ==> PinIrq(b, level) == b
    ensures b.mode == Idle ==> PinIrq(b, true) == b.(pin := 1)
  {}

  /** Published is a frame of `len` bytes, with its length before it. */
  lemma PublishIs(r: Rx)
    requires |r.buf| == 64 && r.len < 256
    ensures var e := Publish(r);
      && e.inn == r.inn + r.len + 1 && e.out == r.out && Get(e.buf, r.inn) == r.len
      && forall i: nat :: i % 64 != r.inn % 64 ==> Get(e.buf, i) == Get(r.buf, i)
  {}
}
