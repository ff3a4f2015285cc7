/** The code over blocks of 256 bytes, packed into three bytes. */
module Ecc {
  import opened WordBytes
  import opened EccTable
  import opened EccSums

  const SIZE: nat := 256

  datatype Code = Code(e0: bv8, e1: bv8, e2: bv8)

  /** The high and the low halves of the line parities, interleaved. */
  function High4(l: bv8, p: bv8): bv8
  {
    (l & 0x80) | ((p & 0x80) >> 1) | ((l & 0x40) >> 1) | ((p & 0x40) >> 2) |
    ((l & 0x20) >> 2) | ((p & 0x20) >> 3) | ((l & 0x10) >> 3) | ((p & 0x10) >> 4)
  }

  function Low4(l: bv8, p: bv8): bv8
  {
    ((l & 0x08) << 4) | ((p & 0x08) << 3) | ((l & 0x04) << 3) | ((p & 0x04) << 2) |
    ((l & 0x02) << 2) | ((p & 0x02) << 1) | ((l & 0x01) << 1) | (p & 0x01)
  }

  function Pack(col: bv8, l: bv8, p: bv8): Code { Code(!Low4(l, p), !High4(l, p), !col | 0x03) }

  /** The code of a block; the line sums of the block keep only their low byte. */
  function Calc(data: seq<bv8>): Code
  {
    var s := Fold(data);
    Pack(s.col, s.line.b0, s.prime.b0)
  }

  function Delta(a: Code, b: Code): Code { Code(X(a.e0, b.e0), X(a.e1, b.e1), X(a.e2, b.e2)) }

  predicate Paired(d: Code)
  {
    ((d.e0 ^ (d.e0 >> 1)) & 0x55) == 0x55 && ((d.e1 ^ (d.e1 >> 1)) & 0x55) == 0x55 && ((d.e2 ^ (d.e2 >> 1)) & 0x54) == 0x54
  }

  /** The wrong byte. */
  function Place(d: Code): bv8
  {
    (d.e1 & 0x80) | ((d.e1 & 0x20) << 1) | ((d.e1 & 0x08) << 2) | ((d.e1 & 0x02) << 3) |
    ((d.e0 & 0x80) >> 4) | ((d.e0 & 0x20) >> 3) | ((d.e0 & 0x08) >> 2) | ((d.e0 & 0x02) >> 1)
  }

  /** The wrong bit in it. */
  function Mask(d: bv8): bv8
  {
    if d & 0x80 != 0 then
      (if d & 0x20 != 0 then (if d & 0x08 != 0 then 0x80 else 0x40) else if d & 0x08 != 0 then 0x20 else 0x10)
    else
      (if d & 0x20 != 0 then (if d & 0x08 != 0 then 0x08 else 0x04) else if d & 0x08 != 0 then 0x02 else 0x01)
  }

  datatype Verdict = Clean | BadByte(k: nat, m: bv8) | BadCode | Hopeless

  function Judge(d: Code): Verdict
  {
    if d == Code(0, 0, 0) then Clean
    else if Paired(d) then BadByte(Number(Place(d)), Mask(d.e2))
    else if Weight(d.e0) + Weight(d.e1) + Weight(d.e2) == 1 then BadCode
    else Hopeless
  }

  /** The data and the stored code after the correction, and its result. */
  function Correct(data: seq<bv8>, read: Code, test: Code): (seq<bv8>, Code, int)
  {
    match Judge(Delta(read, test))
    case Clean => (data, read, 0)
    case BadByte(k, m) => (if k < |data| then Flip(data, k, m) else data, read, 1)
    case BadCode => (data, test, 1)
    case Hopeless => (data, read, -1)
  }

  // ----- Packing

  lemma PackX(c: bv8, l: bv8, p: bv8, c2: bv8, l2: bv8, p2: bv8)
    ensures Delta(Pack(c, l, p), Pack(c2, l2, p2)) == Code(Low4(X(l, l2), X(p, p2)), High4(X(l, l2), X(p, p2)), X(c, c2) & 0xfc)
  {
    LowX(l, p, l2, p2);
    HighX(l, p, l2, p2);
    assert (!c | 0x03) ^ (!c2 | 0x03) == (c ^ c2) & 0xfc;
    hide Low4, High4;
  }

  lemma LowX(l: bv8, p: bv8, l2: bv8, p2: bv8)
    ensures X(!Low4(l, p), !Low4(l2, p2)) == Low4(X(l, l2), X(p, p2))
  {}

  lemma HighX(l: bv8, p: bv8, l2: bv8, p2: bv8)
    ensures X(!High4(l, p), !High4(l2, p2)) == High4(X(l, l2), X(p, p2))
  {}

  lemma PlaceIs(l: bv8, p: bv8, c: bv8)
    ensures Place(Code(Low4(l, p), High4(l, p), c)) == l
  {}

  lemma PairedIs(l: bv8, p: bv8, c: bv8)
    ensures Paired(Code(Low4(l, p), High4(l, p), c)) <==> p == !l && (c ^ (c >> 1)) & 0x54 == 0x54
  {}

  /** Equal halves put two bits for each into the code. */
  lemma PackedTwice(l: bv8)
    ensures l == 0 ==> Low4(l, l) == 0 && High4(l, l) == 0
    ensures l != 0 ==> Weight(Low4(l, l)) + Weight(High4(l, l)) > 1
  {
    Twice(l);
    WeightZero(l);
    hide Weight;
  }

  lemma Twice(l: bv8)
    ensures Weight(Low4(l, l)) + Weight(High4(l, l)) == 2 * Weight(l)
  {}

  lemma DeltaOf(a: seq<bv8>, b: seq<bv8>, s: Sums)
    requires XorS(Fold(a), Fold(b)) == s
    ensures Delta(Calc(a), Calc(b)) == Code(Low4(s.line.b0, s.prime.b0), High4(s.line.b0, s.prime.b0), s.col & 0xfc)
  {
    var x, y := Fold(a), Fold(b);
    PackX(x.col, x.line.b0, x.prime.b0, y.col, y.line.b0, y.prime.b0);
    hide Low4, High4, X, Pack, Delta, Fold;
  }

  /** The column parities name the bit. */
  lemma MaskSingle(m: bv8)
    requires Single(m)
    ensures var c := Table(m) & 0xfc; (c ^ (c >> 1)) & 0x54 == 0x54 && Mask(c) == m && c != 0
  {
    TableSingle(m);
    hide Table, Columns;
  }

  lemma FlipBack(data: seq<bv8>, k: nat, m: bv8)
    requires k < |data|
    ensures Flip(Flip(data, k, m), k, m) == data
  {
    Twofold(data[k], m);
    hide X;
  }

  lemma Twofold(a: bv8, m: bv8)
    ensures X(X(a, m), m) == a
  {}

  lemma OneNamed(m: bv8, k: nat)
    requires Single(m) && k < SIZE
    ensures var l := Byte(k); Judge(Code(Low4(l, !l), High4(l, !l), Table(m) & 0xfc)) == BadByte(k, m)
  {
    var l, c := Byte(k), Table(m) & 0xfc;
    MaskSingle(m);
    PlaceIs(l, !l, c);
    PairedIs(l, !l, c);
    NumberByte(k);
    hide Low4, High4, Table, Mask, Place, Paired, Number, Byte, Weight, Columns, Single;
  }

  lemma TwoHopeless(k: nat, a: bv8, j: nat, b: bv8)
    requires k < SIZE && j < SIZE && Single(a) && Single(b) && (k != j || a != b)
    ensures var l := XorW(Of(k), Of(j)).b0; Judge(Code(Low4(l, l), High4(l, l), X(Table(a), Table(b)) & 0xfc)) == Hopeless
  {
    var l, c := XorW(Of(k), Of(j)).b0, X(Table(a), Table(b)) & 0xfc;
    NotsCancel(Of(k), Of(j));
    NotItself(l);
    PairedIs(l, l, c);
    PackedTwice(l);
    if l == 0 {
      LowInjective(k, j);
      DoubleColumns(a, b);
    }
    WeightZero(c);
    WeightZero(0);
    hide Low4, High4, Table, Paired, Of, XorW, Weight, Columns, Single, X, NotW;
  }

  lemma NotItself(l: bv8)
    ensures l != !l
  {}

  // ----- What is corrected and what is detected

  lemma NoError(data: seq<bv8>)
    ensures Correct(data, Calc(data), Calc(data)) == (data, Calc(data), 0)
  {
    DeltaOf(data, data, NOTHING) by { SumLaws(Fold(data), NOTHING, NOTHING); }
    PackedTwice(0);
    hide Calc, Delta, Fold, Weight, Low4, High4, Paired;
  }

  lemma OneJudged(data: seq<bv8>, k: nat, m: bv8)
    requires |data| == SIZE && k < SIZE && Single(m)
    ensures Judge(Delta(Calc(data), Calc(Flip(data, k, m)))) == BadByte(k, m)
  {
    OneError(data, k, m);
    SingleShare(m, k);
    LowNot(k);
    hide *;
    DeltaOf(data, Flip(data, k, m), Share(m, k));
    OneNamed(m, k);
  }

  lemma LowNot(k: nat)
    ensures Of(k).b0 == Byte(k) && NotW(Of(k)).b0 == !Byte(k)
  {
    hide Byte;
  }

  /** Every single wrong bit of the data is put right. */
  lemma SingleCorrected(data: seq<bv8>, k: nat, m: bv8)
    requires |data| == SIZE && k < SIZE && Single(m)
    ensures Correct(Flip(data, k, m), Calc(data), Calc(Flip(data, k, m))) == (data, Calc(data), 1)
  {
    hide Calc, Delta, Judge, Flip, Single;
    OneJudged(data, k, m);
    FlipBack(data, k, m);
  }

  lemma TwoJudged(data: seq<bv8>, k: nat, a: bv8, j: nat, b: bv8)
    requires |data| == SIZE && k < SIZE && j < SIZE && Single(a) && Single(b) && (k != j || a != b)
    ensures Judge(Delta(Calc(data), Calc(Flip(Flip(data, k, a), j, b)))) == Hopeless
  {
    hide *;
    TwoErrors(data, k, a, j, b);
    DoubleShare(a, k, b, j);
    DeltaOf(data, Flip(Flip(data, k, a), j, b), XorS(Share(a, k), Share(b, j)));
    TwoHopeless(k, a, j, b);
  }

  /** Two wrong bits, in one byte or in two, are detected and the data is not touched. */
  lemma DoubleDetected(data: seq<bv8>, k: nat, a: bv8, j: nat, b: bv8)
    requires |data| == SIZE && k < SIZE && j < SIZE && Single(a) && Single(b) && (k != j || a != b)
    ensures var e := Flip(Flip(data, k, a), j, b); Correct(e, Calc(data), Calc(e)) == (e, Calc(data), -1)
  {
    hide Calc, Delta, Judge, Flip, Single;
    TwoJudged(data, k, a, j, b);
  }

  /** The stored code with one bit wrong: bit `x` of byte `which`. */
  function Spoilt(c: Code, which: nat, x: bv8): Code
    requires which < 3
  {
    if which == 0 then c.(e0 := X(c.e0, x)) else if which == 1 then c.(e1 := X(c.e1, x)) else c.(e2 := X(c.e2, x))
  }

  lemma SpoiltDelta(c: Code, which: nat, x: bv8)
    requires which < 3
    ensures Delta(Spoilt(c, which, x), c) == Code(if which == 0 then x else 0, if which == 1 then x else 0, if which == 2 then x else 0)
  {
    Offset(c.e0, x);
    Offset(c.e1, x);
    Offset(c.e2, x);
    hide X;
  }

  lemma Offset(a: bv8, x: bv8)
    ensures X(X(a, x), a) == x && X(a, a) == 0
  {}

  lemma NotPaired(d: Code)
    requires d.e0 == 0 || d.e1 == 0
    ensures !Paired(d)
  {}

  /** A wrong bit of the stored code is recognised as such. */
  lemma CodeErrorIgnored(data: seq<bv8>, which: nat, x: bv8)
    requires which < 3 && Single(x)
    ensures Correct(data, Spoilt(Calc(data), which, x), Calc(data)) == (data, Calc(data), 1)
  {
    var d := Delta(Spoilt(Calc(data), which, x), Calc(data));
    SpoiltDelta(Calc(data), which, x);
    WeightSingle(x);
    WeightZero(x);
    WeightZero(0);
    NotPaired(d);
    hide Calc, Delta, Spoilt, Weight, Paired, Single;
  }

  // ----- In place

  lemma FoldStep(col: bv8, l: bv8, p: bv8, data: seq<bv8>)
    requires data != [] && var f := Fold(data[..|data| - 1]); f.col == col && f.line.b0 == l && f.prime.b0 == p
    ensures var t, b, f := Table(data[|data| - 1]), Byte(|data| - 1), Fold(data);
      f.col == X(col, t) && f.line.b0 == (if Odd(t) then X(l, b) else l) && f.prime.b0 == if Odd(t) then X(p, !b) else p
  {
    XLaws(l, 0, 0);
    XLaws(p, 0, 0);
    hide Table, X, Odd, Byte, Columns;
  }

  /** yaffs_ecc_calc. */
  method CalcBlock(data: array<bv8>, ecc: array<bv8>)
    requires data.Length == SIZE && ecc.Length == 3 && data != ecc
    modifies ecc
    ensures Code(ecc[0], ecc[1], ecc[2]) == Calc(data[..])
  {
    var col: bv8, line: bv8, prime: bv8 := 0, 0, 0;
    var i := 0;
    hide Table, X, Odd, Columns, Byte;
    while i < SIZE
      invariant 0 <= i <= SIZE
      invariant var f := Fold(data[..i]); f.col == col && f.line.b0 == line && f.prime.b0 == prime
    {
      var b := Table(data[i]);
      assert data[..i + 1][..i] == data[..i];
      FoldStep(col, line, prime, data[..i + 1]);
      col := X(col, b);
      if Odd(b) {
        line := X(line, Byte(i));
        prime := X(prime, !Byte(i));
      }
      i := i + 1;
    }
    assert data[..i] == data[..];
    var t1 := PackHigh(line, prime);
    var t0 := PackLow(line, prime);
    ecc[2] := !col | 0x03;
    ecc[1] := !t1;
    ecc[0] := !t0;
  }

  method PackHigh(line: bv8, prime: bv8) returns (t: bv8)
    ensures t == High4(line, prime)
  {
    t := 0;
    if line & 0x80 != 0 { t := t | 0x80; }
    if prime & 0x80 != 0 { t := t | 0x40; }
    if line & 0x40 != 0 { t := t | 0x20; }
    if prime & 0x40 != 0 { t := t | 0x10; }
    if line & 0x20 != 0 { t := t | 0x08; }
    if prime & 0x20 != 0 { t := t | 0x04; }
    if line & 0x10 != 0 { t := t | 0x02; }
    if prime & 0x10 != 0 { t := t | 0x01; }
  }

  method PackLow(line: bv8, prime: bv8) returns (t: bv8)
    ensures t == Low4(line, prime)
  {
    t := 0;
    if line & 0x08 != 0 { t := t | 0x80; }
    if prime & 0x08 != 0 { t := t | 0x40; }
    if line & 0x04 != 0 { t := t | 0x20; }
    if prime & 0x04 != 0 { t := t | 0x10; }
    if line & 0x02 != 0 { t := t | 0x08; }
    if prime & 0x02 != 0 { t := t | 0x04; }
    if line & 0x01 != 0 { t := t | 0x02; }
    if prime & 0x01 != 0 { t := t | 0x01; }
  }

  /** yaffs_ecc_correct. */
  method CorrectBlock(data: array<bv8>, read: array<bv8>, test: Code) returns (result: int)
    requires data.Length == SIZE && read.Length == 3 && data != read
    modifies data, read
    ensures (data[..], Code(read[0], read[1], read[2]), result) ==
      Correct(old(data[..]), Code(old(read[0]), old(read[1]), old(read[2])), test)
  {
    hide Paired, Place, Mask, Weight, X, Flip, Correct, Judge, Number;
    var stored := Code(read[0], read[1], read[2]);
    var d := Code(X(stored.e0, test.e0), X(stored.e1, test.e1), X(stored.e2, test.e2));
    Cases(data[..], stored, test, d);
    if d.e0 == 0 && d.e1 == 0 && d.e2 == 0 { return 0; }
    if Paired(d) {
      FlipBit(data, Number(Place(d)), Mask(d.e2));
      return 1;
    }
    if Weight(d.e0) + Weight(d.e1) + Weight(d.e2) == 1 {
      StoreCode(read, test);
      return 1;
    }
    result := -1;
  }

  method StoreCode(read: array<bv8>, test: Code)
    requires read.Length == 3
    modifies read
    ensures Code(read[0], read[1], read[2]) == test
  {
    read[0], read[1], read[2] := test.e0, test.e1, test.e2;
  }

  /** The branches of the correction. */
  lemma Cases(data: seq<bv8>, read: Code, test: Code, d: Code)
    requires |data| == SIZE && d == Code(X(read.e0, test.e0), X(read.e1, test.e1), X(read.e2, test.e2))
    ensures Number(Place(d)) < SIZE
    ensures Correct(data, read, test) ==
      if d.e0 == 0 && d.e1 == 0 && d.e2 == 0 then (data, read, 0)
      else if Paired(d) then (Flip(data, Number(Place(d)), Mask(d.e2)), read, 1)
      else if Weight(d.e0) + Weight(d.e1) + Weight(d.e2) == 1 then (data, test, 1)
      else (data, read, -1)
  {
    InByte(Place(d));
    hide Paired, Place, Mask, Weight, X, Flip, Number;
  }

  lemma InByte(b: bv8)
    ensures Number(b) < SIZE
  {}
}
