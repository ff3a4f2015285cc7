/** What the codes stand for: each stored parity bit in terms of the bits of the data. */
module EccCode {
  import opened WordBytes
  import opened EccTable
  import opened EccSums
  import Ecc
  import EccOther

  predicate Bit(b: bv8, i: nat)
  {
    match i
    case 0 => b & 0x01 != 0
    case 1 => b & 0x02 != 0
    case 2 => b & 0x04 != 0
    case 3 => b & 0x08 != 0
    case 4 => b & 0x10 != 0
    case 5 => b & 0x20 != 0
    case 6 => b & 0x40 != 0
    case 7 => b & 0x80 != 0
    case _ => false
  }

  /** Bit `m` of a word of four bytes. */
  predicate WordBit(w: Word, m: nat)
  {
    if m < 8 then Bit(w.b0, m) else if m < 16 then Bit(w.b1, m - 8) else if m < 24 then Bit(w.b2, m - 16) else Bit(w.b3, m - 24)
  }

  /** Bit `m` of a number. */
  predicate Digit(k: nat, m: nat) { if m == 0 then k % 2 == 1 else Digit(k / 2, m - 1) }

  /** A selection of the bits of a block, by the index of the byte and the place in it. */
  type Part = (nat, nat) -> bool

  /** All bits of the bytes whose index has bit `m` set, or clear. */
  function Rows(m: nat, on: bool): Part { (k: nat, i: nat) => Digit(k, m) == on }

  /** The places in every byte whose number has bit `m` set, or clear. */
  function Cols(m: nat, on: bool): Part { (k: nat, i: nat) => Digit(i, m) == on }

  function One(b: bool): nat { if b then 1 else 0 }

  /** How many of the bits of byte `k` from place `i` on are set and selected. */
  function OnesFrom(b: bv8, k: nat, part: Part, i: nat): nat
    requires i <= 8
    decreases 8 - i
  {
    if i == 8 then 0 else One(Bit(b, i) && part(k, i)) + OnesFrom(b, k, part, i + 1)
  }

  function Ones(data: seq<bv8>, part: Part): nat
  {
    if data == [] then 0 else Ones(data[..|data| - 1], part) + OnesFrom(data[|data| - 1], |data| - 1, part, 0)
  }

  predicate Even(data: seq<bv8>, part: Part) { Ones(data, part) % 2 == 0 }

  // ----- Numbers and their bits

  lemma Doubled(v: bv8)
    requires v < 128
    ensures (v + v) as int == 2 * (v as int) && (v + v + 1) as int == 2 * (v as int) + 1
  {}

  lemma BitDoubled(v: bv8, m: nat)
    requires v < 128
    ensures !Bit(v + v, 0) && Bit(v + v + 1, 0)
    ensures m < 7 ==> Bit(v + v, m + 1) == Bit(v, m) && Bit(v + v + 1, m + 1) == Bit(v, m)
  {}

  lemma Small(v: bv8)
    ensures v as int < 128 ==> v < 128
  {}

  /** A number below 256 is twice its half, as a byte. */
  lemma HalfByte(i: nat)
    requires i < 256
    ensures var v := (i / 2) as bv8; v < 128 && (i as bv8) == if i % 2 == 1 then v + v + 1 else v + v
  {
    var v := (i / 2) as bv8;
    EightBits(i / 2);
    Small(v);
    Doubled(v);
    Back(v + v);
    Back(v + v + 1);
  }

  lemma HalfBits(i: nat, m: nat)
    requires i < 256 && m < 8
    ensures if m == 0 then Bit(i as bv8, 0) <==> i % 2 == 1 else Bit(i as bv8, m) == Bit((i / 2) as bv8, m - 1)
  {
    HalfByte(i);
    BitDoubled((i / 2) as bv8, if m > 0 then m - 1 else 0);
    hide Bit;
  }

  lemma {:induction false} ByteDigit(i: nat, m: nat)
    requires i < 256 && m < 8
    ensures Bit(i as bv8, m) == Digit(i, m)
    decreases m
  {
    hide Bit;
    HalfBits(i, m);
    if m > 0 { ByteDigit(i / 2, m - 1); }
  }

  function P2(n: nat): nat { if n == 0 then 1 else 2 * P2(n - 1) }

  /** The low bits of a number are those of its remainder. */
  lemma {:induction false} LowDigit(q: nat, r: nat, j: nat, m: nat)
    requires m < j
    ensures Digit(P2(j) * q + r, m) == Digit(r, m)
    decreases m
  {
    var a := P2(j - 1) * q;
    assert P2(j) * q == 2 * a;
    Halved(a, r);
    if m > 0 { LowDigit(q, r / 2, j - 1, m - 1); }
  }

  lemma Halved(a: nat, r: nat)
    ensures (2 * a + r) / 2 == a + r / 2 && (2 * a + r) % 2 == r % 2
  {}

  lemma HighDigit(n: nat, m: nat)
    ensures Digit(n, m + 8) == Digit(n / 256, m)
  {
    FourDown(n, m + 4);
    FourDown(n / 16, m);
  }

  lemma FourDown(n: nat, m: nat)
    ensures Digit(n, m + 4) == Digit(n / 16, m)
  {
    assert Digit(n, m + 4) == Digit(n / 2, m + 3) == Digit(n / 2 / 2, m + 2) == Digit(n / 2 / 2 / 2, m + 1) == Digit(n / 2 / 2 / 2 / 2, m);
  }

  lemma ByteOf(n: nat, m: nat)
    requires m < 8
    ensures Bit(Byte(n), m) == Digit(n, m)
  {
    ByteDigit(n % 256, m);
    assert P2(8) == 256;
    LowDigit(n / 256, n % 256, 8, m);
    hide Bit, Digit, P2;
  }

  /** The loop counter, bit by bit. */
  lemma OfDigit(n: nat, m: nat)
    requires m < 32
    ensures WordBit(Of(n), m) == Digit(n, m)
  {
    hide Bit, Byte, Digit;
    if m < 8 {
      ByteOf(n, m);
    } else if m < 16 {
      ByteOf(n / 0x100, m - 8);
      HighDigit(n, m - 8);
    } else if m < 24 {
      ByteOf(n / 0x1_0000, m - 16);
      HighDigit(n, m - 8);
      HighDigit(n / 256, m - 16);
      assert n / 256 / 256 == n / 0x1_0000;
    } else {
      ByteOf(n / 0x100_0000, m - 24);
      HighDigit(n, m - 8);
      HighDigit(n / 256, m - 16);
      HighDigit(n / 256 / 256, m - 24);
      assert n / 256 / 256 / 256 == n / 0x100_0000;
    }
  }

  // ----- The bits of the sums

  lemma BitX(a: bv8, b: bv8, i: nat)
    ensures Bit(X(a, b), i) == (Bit(a, i) != Bit(b, i))
  {
    hide X;
    XorLow(a, b);
    XorHigh(a, b);
    var x := X(a, b);
    if i < 4 { LowBit(x, i); LowBit(a, i); LowBit(b, i); } else { HighBit(x, i); HighBit(a, i); HighBit(b, i); }
    hide Bit;
  }

  lemma LowBit(a: bv8, i: nat)
    requires i < 4
    ensures Bit(a, i) == if i == 0 then a & 0x01 != 0 else if i == 1 then a & 0x02 != 0 else if i == 2 then a & 0x04 != 0 else a & 0x08 != 0
  {}

  lemma HighBit(a: bv8, i: nat)
    requires 4 <= i
    ensures Bit(a, i) ==
      if i == 4 then a & 0x10 != 0 else if i == 5 then a & 0x20 != 0 else if i == 6 then a & 0x40 != 0 else i == 7 && a & 0x80 != 0
  {}

  lemma XorLow(a: bv8, b: bv8)
    ensures (X(a, b) & 0x01 != 0) == ((a & 0x01 != 0) != (b & 0x01 != 0)) && (X(a, b) & 0x02 != 0) == ((a & 0x02 != 0) != (b & 0x02 != 0))
    ensures (X(a, b) & 0x04 != 0) == ((a & 0x04 != 0) != (b & 0x04 != 0)) && (X(a, b) & 0x08 != 0) == ((a & 0x08 != 0) != (b & 0x08 != 0))
  {}

  lemma XorHigh(a: bv8, b: bv8)
    ensures (X(a, b) & 0x10 != 0) == ((a & 0x10 != 0) != (b & 0x10 != 0)) && (X(a, b) & 0x20 != 0) == ((a & 0x20 != 0) != (b & 0x20 != 0))
    ensures (X(a, b) & 0x40 != 0) == ((a & 0x40 != 0) != (b & 0x40 != 0)) && (X(a, b) & 0x80 != 0) == ((a & 0x80 != 0) != (b & 0x80 != 0))
  {}

  lemma BitNot(a: bv8, i: nat)
    ensures i < 8 ==> Bit(!a, i) == !Bit(a, i)
    ensures !Bit(0, i)
  {}

  lemma WordBitX(a: Word, b: Word, m: nat)
    requires m < 32
    ensures WordBit(XorW(a, b), m) == (WordBit(a, m) != WordBit(b, m))
  {
    hide Bit, X;
    if m < 8 { BitX(a.b0, b.b0, m); } else if m < 16 { BitX(a.b1, b.b1, m - 8); }
    else if m < 24 { BitX(a.b2, b.b2, m - 16); } else { BitX(a.b3, b.b3, m - 24); }
  }

  lemma WordBitNot(a: Word, m: nat)
    requires m < 32
    ensures WordBit(NotW(a), m) == !WordBit(a, m) && !WordBit(ZERO, m)
  {
    hide Bit;
    if m < 8 { BitNot(a.b0, m); } else if m < 16 { BitNot(a.b1, m - 8); }
    else if m < 24 { BitNot(a.b2, m - 16); } else { BitNot(a.b3, m - 24); }
  }

  lemma Unrolled(b: bv8, k: nat, part: Part)
    ensures OnesFrom(b, k, part, 0) ==
      One(Bit(b, 0) && part(k, 0)) + One(Bit(b, 1) && part(k, 1)) + One(Bit(b, 2) && part(k, 2)) + One(Bit(b, 3) && part(k, 3)) +
      One(Bit(b, 4) && part(k, 4)) + One(Bit(b, 5) && part(k, 5)) + One(Bit(b, 6) && part(k, 6)) + One(Bit(b, 7) && part(k, 7))
  {
    hide Bit, One;
    assert OnesFrom(b, k, part, 4) ==
      One(Bit(b, 4) && part(k, 4)) + One(Bit(b, 5) && part(k, 5)) + One(Bit(b, 6) && part(k, 6)) + One(Bit(b, 7) && part(k, 7));
  }

  /** The table entry: its bits 7 to 2 are parities of half of the bits each, its lowest that of all. */
  lemma ColumnBits(b: bv8)
    ensures Bit(Columns(b), 7) == (((Bit(b, 4) != Bit(b, 5)) != Bit(b, 6)) != Bit(b, 7))
    ensures Bit(Columns(b), 6) == (((Bit(b, 0) != Bit(b, 1)) != Bit(b, 2)) != Bit(b, 3))
    ensures Bit(Columns(b), 5) == (((Bit(b, 2) != Bit(b, 3)) != Bit(b, 6)) != Bit(b, 7))
    ensures Bit(Columns(b), 4) == (((Bit(b, 0) != Bit(b, 1)) != Bit(b, 4)) != Bit(b, 5))
    ensures Bit(Columns(b), 3) == (((Bit(b, 1) != Bit(b, 3)) != Bit(b, 5)) != Bit(b, 7))
    ensures Bit(Columns(b), 2) == (((Bit(b, 0) != Bit(b, 2)) != Bit(b, 4)) != Bit(b, 6))
    ensures Odd(Columns(b)) == ((((Bit(b, 0) != Bit(b, 1)) != Bit(b, 2)) != Bit(b, 3)) != (((Bit(b, 4) != Bit(b, 5)) != Bit(b, 6)) != Bit(b, 7)))
  {}

  lemma Places()
    ensures !Digit(0, 0) && Digit(1, 0) && !Digit(2, 0) && Digit(3, 0) && !Digit(4, 0) && Digit(5, 0) && !Digit(6, 0) && Digit(7, 0)
    ensures !Digit(0, 1) && !Digit(1, 1) && Digit(2, 1) && Digit(3, 1) && !Digit(4, 1) && !Digit(5, 1) && Digit(6, 1) && Digit(7, 1)
    ensures !Digit(0, 2) && !Digit(1, 2) && !Digit(2, 2) && !Digit(3, 2) && Digit(4, 2) && Digit(5, 2) && Digit(6, 2) && Digit(7, 2)
  {}

  lemma Odd4(a: bool, b: bool, c: bool, d: bool)
    ensures (One(a) + One(b) + One(c) + One(d)) % 2 == One(((a != b) != c) != d)
  {}

  lemma OddSum(n: nat, m: nat)
    ensures (n + m) % 2 == 1 <==> (n % 2 == 1) != (m % 2 == 1)
  {}

  /** Which of the bits 7 to 2 a selection of places has. */
  function Line(m: nat, on: bool): nat { 2 * m + if on then 3 else 2 }

  /** The four places that it takes. */
  function Four(m: nat, on: bool): (nat, nat, nat, nat)
  {
    if m == 0 then (if on then (1, 3, 5, 7) else (0, 2, 4, 6))
    else if m == 1 then (if on then (2, 3, 6, 7) else (0, 1, 4, 5))
    else if on then (4, 5, 6, 7) else (0, 1, 2, 3)
  }

  lemma FourBelow(m: nat, on: bool)
    requires m < 3
    ensures var (x, y, z, w) := Four(m, on); x < 8 && y < 8 && z < 8 && w < 8
  {}

  lemma ColUnrolled(b: bv8, k: nat, m: nat, on: bool)
    ensures OnesFrom(b, k, Cols(m, on), 0) ==
      One(Bit(b, 0) && Digit(0, m) == on) + One(Bit(b, 1) && Digit(1, m) == on) + One(Bit(b, 2) && Digit(2, m) == on) +
      One(Bit(b, 3) && Digit(3, m) == on) + One(Bit(b, 4) && Digit(4, m) == on) + One(Bit(b, 5) && Digit(5, m) == on) +
      One(Bit(b, 6) && Digit(6, m) == on) + One(Bit(b, 7) && Digit(7, m) == on)
  {
    Unrolled(b, k, Cols(m, on));
    hide Bit, Digit, One, OnesFrom;
  }

  lemma ColOnes(b: bv8, k: nat, m: nat, on: bool)
    requires m < 3 && var (x, y, z, w) := Four(m, on); x < 8 && y < 8 && z < 8 && w < 8
    ensures var (x, y, z, w) := Four(m, on);
      OnesFrom(b, k, Cols(m, on), 0) == One(Bit(b, x)) + One(Bit(b, y)) + One(Bit(b, z)) + One(Bit(b, w))
  {
    ColUnrolled(b, k, m, on);
    Places();
    OneNone();
    hide Bit, Digit, OnesFrom, Cols, One;
  }

  lemma OneNone()
    ensures One(false) == 0
  {}

  lemma ColStep(b: bv8, k: nat, m: nat, on: bool)
    requires m < 3
    ensures Bit(Table(b), Line(m, on)) <==> OnesFrom(b, k, Cols(m, on), 0) % 2 == 1
  {
    hide Bit, Columns, Table, Digit, OnesFrom, Cols, One;
    FourBelow(m, on);
    ColOnes(b, k, m, on);
    var (x, y, z, w) := Four(m, on);
    Odd4(Bit(b, x), Bit(b, y), Bit(b, z), Bit(b, w));
    TableBits(b);
    OneOdd(((Bit(b, x) != Bit(b, y)) != Bit(b, z)) != Bit(b, w));
  }

  lemma TableBits(b: bv8)
    ensures Table(b) == Columns(b)
    ensures Bit(Table(b), 7) == (((Bit(b, 4) != Bit(b, 5)) != Bit(b, 6)) != Bit(b, 7))
    ensures Bit(Table(b), 6) == (((Bit(b, 0) != Bit(b, 1)) != Bit(b, 2)) != Bit(b, 3))
    ensures Bit(Table(b), 5) == (((Bit(b, 2) != Bit(b, 3)) != Bit(b, 6)) != Bit(b, 7))
    ensures Bit(Table(b), 4) == (((Bit(b, 0) != Bit(b, 1)) != Bit(b, 4)) != Bit(b, 5))
    ensures Bit(Table(b), 3) == (((Bit(b, 1) != Bit(b, 3)) != Bit(b, 5)) != Bit(b, 7))
    ensures Bit(Table(b), 2) == (((Bit(b, 0) != Bit(b, 2)) != Bit(b, 4)) != Bit(b, 6))
  {
    hide Bit, Columns;
    ColumnBits(b);
  }

  lemma OneOdd(a: bool)
    ensures One(a) == 1 <==> a
  {}

  lemma RowStep(b: bv8, k: nat, m: nat, on: bool)
    ensures OnesFrom(b, k, Rows(m, on), 0) % 2 == 1 <==> Odd(Table(b)) && Digit(k, m) == on
  {
    hide Bit, Columns, Table, Digit, OnesFrom;
    assert Table(b) == Columns(b);
    ColumnBits(b);
    Unrolled(b, k, Rows(m, on));
    Odd4(Bit(b, 0), Bit(b, 1), Bit(b, 2), Bit(b, 3));
    Odd4(Bit(b, 4), Bit(b, 5), Bit(b, 6), Bit(b, 7));
    OddSum(One(Bit(b, 0)) + One(Bit(b, 1)) + One(Bit(b, 2)) + One(Bit(b, 3)), One(Bit(b, 4)) + One(Bit(b, 5)) + One(Bit(b, 6)) + One(Bit(b, 7)));
  }

  /** The column parities of a block. */
  lemma {:induction false} ColBits(data: seq<bv8>, m: nat, on: bool)
    requires m < 3
    ensures Bit(Fold(data).col, Line(m, on)) <==> !Even(data, Cols(m, on))
    decreases |data|
  {
    hide Bit, Table, OnesFrom, Cols, Of, Line, X;
    if data == [] {
      BitNot(0, Line(m, on));
    } else {
      var init, b, k := data[..|data| - 1], data[|data| - 1], |data| - 1;
      ColBits(init, m, on);
      ColStep(b, k, m, on);
      BitX(Fold(init).col, Table(b), Line(m, on));
      OddSum(Ones(init, Cols(m, on)), OnesFrom(b, k, Cols(m, on), 0));
    }
  }

  /** The line parities of a block: bytes whose index has a bit set, and those where it is clear. */
  lemma {:induction false} LineBits(data: seq<bv8>, m: nat)
    requires m < 32
    ensures WordBit(Fold(data).line, m) <==> !Even(data, Rows(m, true))
    ensures WordBit(Fold(data).prime, m) <==> !Even(data, Rows(m, false))
    decreases |data|
  {
    hide WordBit, Table, OnesFrom, Rows, Of, XorW, NotW;
    WordBitNot(ZERO, m);
    if data != [] {
      var init, b, k := data[..|data| - 1], data[|data| - 1], |data| - 1;
      LineBits(init, m);
      RowStep(b, k, m, true);
      RowStep(b, k, m, false);
      OfDigit(k, m);
      WordBitNot(Of(k), m);
      WordBitX(Fold(init).line, Share(b, k).line, m);
      WordBitX(Fold(init).prime, Share(b, k).prime, m);
      OddSum(Ones(init, Rows(m, true)), OnesFrom(b, k, Rows(m, true), 0));
      OddSum(Ones(init, Rows(m, false)), OnesFrom(b, k, Rows(m, false), 0));
      hide X;
    }
  }

  // ----- The codes

  lemma HighBits(l: bv8, p: bv8, m: nat)
    requires 4 <= m < 8
    ensures Bit(!Ecc.High4(l, p), 2 * m - 7) == !Bit(l, m) && Bit(!Ecc.High4(l, p), 2 * m - 8) == !Bit(p, m)
  {}

  lemma LowBits(l: bv8, p: bv8, m: nat)
    requires m < 4
    ensures Bit(!Ecc.Low4(l, p), 2 * m + 1) == !Bit(l, m) && Bit(!Ecc.Low4(l, p), 2 * m) == !Bit(p, m)
  {}

  lemma LastByte(c: bv8, i: nat)
    requires i < 8
    ensures Bit(!c | 0x03, i) == (i < 2 || !Bit(c, i))
  {}

  lemma CalcIs(data: seq<bv8>)
    ensures var c, s := Ecc.Calc(data), Fold(data);
      c.e0 == !Ecc.Low4(s.line.b0, s.prime.b0) && c.e1 == !Ecc.High4(s.line.b0, s.prime.b0) && c.e2 == !s.col | 0x03
  {
    hide Ecc.Low4, Ecc.High4, Fold;
  }

  lemma ByteLine(data: seq<bv8>, m: nat)
    requires m < 8
    ensures Bit(Fold(data).line.b0, m) == !Even(data, Rows(m, true)) && Bit(Fold(data).prime.b0, m) == !Even(data, Rows(m, false))
  {
    LineBits(data, m);
    hide Bit, Even, Fold;
  }

  /** The three bytes of the code of a block: each of the 22 stored bits is set if and only if its half of the
      data has an even number of ones, and the two low bits of the third byte are ones. */
  lemma CalcBits(data: seq<bv8>, m: nat)
    ensures var c := Ecc.Calc(data);
      && (m < 4 ==> Bit(c.e0, 2 * m + 1) == Even(data, Rows(m, true)) && Bit(c.e0, 2 * m) == Even(data, Rows(m, false)))
      && (4 <= m < 8 ==> Bit(c.e1, 2 * m - 7) == Even(data, Rows(m, true)) && Bit(c.e1, 2 * m - 8) == Even(data, Rows(m, false)))
      && (m < 3 ==> Bit(c.e2, 2 * m + 3) == Even(data, Cols(m, true)) && Bit(c.e2, 2 * m + 2) == Even(data, Cols(m, false)))
      && Bit(c.e2, 0) && Bit(c.e2, 1)
  {
    hide *;
    CalcIs(data);
    if m < 8 { CodeRows(data, m); }
    if m < 3 { CodeCols(data, m); }
    LastByte(Fold(data).col, 0);
    LastByte(Fold(data).col, 1);
  }

  lemma CodeRows(data: seq<bv8>, m: nat)
    requires m < 8
    ensures var l, p := Fold(data).line.b0, Fold(data).prime.b0;
      && (m < 4 ==> Bit(!Ecc.Low4(l, p), 2 * m + 1) == Even(data, Rows(m, true)) && Bit(!Ecc.Low4(l, p), 2 * m) == Even(data, Rows(m, false)))
      && (4 <= m ==> Bit(!Ecc.High4(l, p), 2 * m - 7) == Even(data, Rows(m, true)) && Bit(!Ecc.High4(l, p), 2 * m - 8) == Even(data, Rows(m, false)))
  {
    hide *;
    ByteLine(data, m);
    if m < 4 { LowBits(Fold(data).line.b0, Fold(data).prime.b0, m); } else { HighBits(Fold(data).line.b0, Fold(data).prime.b0, m); }
  }

  lemma CodeCols(data: seq<bv8>, m: nat)
    requires m < 3
    ensures var e := !Fold(data).col | 0x03;
      Bit(e, 2 * m + 3) == Even(data, Cols(m, true)) && Bit(e, 2 * m + 2) == Even(data, Cols(m, false))
  {
    ColBits(data, m, true);
    ColBits(data, m, false);
    hide Bit, Even, Fold, Cols;
    LastByte(Fold(data).col, 2 * m + 3);
    LastByte(Fold(data).col, 2 * m + 2);
  }

  lemma NarrowBits(c: bv8, i: nat)
    ensures Bit(EccOther.Narrow(c), i) == (i < 6 && Bit(c, i + 2))
  {}

  /** The fields of the code of a block of any length: the parities themselves. */
  lemma OtherBits(data: seq<bv8>, m: nat)
    ensures var c := EccOther.Calc(data);
      && (m < 32 ==> WordBit(c.line, m) == !Even(data, Rows(m, true)) && WordBit(c.prime, m) == !Even(data, Rows(m, false)))
      && (m < 3 ==> Bit(c.col, 2 * m + 1) == !Even(data, Cols(m, true)) && Bit(c.col, 2 * m) == !Even(data, Cols(m, false)))
      && !Bit(c.col, 6) && !Bit(c.col, 7)
  {
    var s := Fold(data);
    hide Bit, WordBit, Even, Rows, Cols, EccOther.Narrow, Fold;
    if m < 32 { LineBits(data, m); }
    NarrowBits(s.col, 6);
    NarrowBits(s.col, 7);
    if m < 3 {
      ColBits(data, m, true);
      ColBits(data, m, false);
      NarrowBits(s.col, 2 * m + 1);
      NarrowBits(s.col, 2 * m);
    }
  }
}
