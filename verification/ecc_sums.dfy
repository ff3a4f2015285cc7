/** The parity sums of a block of data, and what an error in the data does to them. */
module EccSums {
  import opened WordBytes
  import opened EccTable

  const LIMIT: nat := 0x1_0000_0000

  function Byte(i: nat): bv8 { (i % 256) as bv8 }

  /** The loop counter as a word. */
  function Of(i: nat): Word { Word(Byte(i / 0x100_0000), Byte(i / 0x1_0000), Byte(i / 0x100), Byte(i)) }

  function Value(w: Word): nat { Number(w.b3) * 0x100_0000 + Number(w.b2) * 0x1_0000 + Number(w.b1) * 0x100 + Number(w.b0) }

  function Number(b: bv8): nat { b as nat }

  lemma NumberByte(i: nat)
    ensures Number(Byte(i)) == i % 256
  {
    EightBits(i % 256);
  }

  /** A counter below 2^32 is its word. */
  lemma ValueOf(i: nat)
    requires i < LIMIT
    ensures Value(Of(i)) == i
  {
    NumberByte(i);
    NumberByte(i / 0x100);
    NumberByte(i / 0x1_0000);
    NumberByte(i / 0x100_0000);
    Digits(i);
    hide Number, Byte;
  }

  lemma Digits(n: nat)
    requires n < LIMIT
    ensures n / 0x100_0000 % 256 * 0x100_0000 + n / 0x1_0000 % 256 * 0x1_0000 + n / 0x100 % 256 * 0x100 + n % 256 == n
  {
    var q1, q2, q3 := n / 0x100, n / 0x1_0000, n / 0x100_0000;
    assert q2 == q1 / 0x100 && q3 == q2 / 0x100;
  }

  lemma OfInjective(i: nat, j: nat)
    requires i < LIMIT && j < LIMIT && Of(i) == Of(j)
    ensures i == j
  {
    ValueOf(i);
    ValueOf(j);
    hide Of, Value;
  }

  /** Below 256 the low byte is enough. */
  lemma LowInjective(i: nat, j: nat)
    requires i < 256 && j < 256 && Of(i).b0 == Of(j).b0
    ensures i == j
  {
    NumberByte(i);
    NumberByte(j);
    hide Number, Byte;
  }

  // ----- The sums

  datatype Sums = Sums(col: bv8, line: Word, prime: Word)

  const NOTHING := Sums(0, ZERO, ZERO)

  function XorS(a: Sums, b: Sums): Sums { Sums(X(a.col, b.col), XorW(a.line, b.line), XorW(a.prime, b.prime)) }

  predicate Odd(t: bv8) { t & 0x01 != 0 }

  /** What byte `b` at position `i` adds. */
  function Share(b: bv8, i: nat): Sums
  {
    var t := Table(b);
    if Odd(t) then Sums(t, Of(i), NotW(Of(i))) else Sums(t, ZERO, ZERO)
  }

  function Fold(data: seq<bv8>): Sums
  {
    if data == [] then NOTHING else XorS(Fold(data[..|data| - 1]), Share(data[|data| - 1], |data| - 1))
  }

  lemma OddXor(a: bv8, b: bv8)
    ensures Odd(X(a, b)) <==> Odd(a) != Odd(b)
  {}

  lemma XLaws(a: bv8, b: bv8, c: bv8)
    ensures X(X(a, b), c) == X(a, X(b, c)) && X(X(a, b), c) == X(X(a, c), b)
    ensures X(a, a) == 0 && X(a, 0) == a && X(0, a) == a && X(a, X(a, b)) == b
  {}

  lemma WordLaws(a: Word, b: Word, c: Word)
    ensures XorW(XorW(a, b), c) == XorW(a, XorW(b, c)) && XorW(XorW(a, b), c) == XorW(XorW(a, c), b)
    ensures XorW(a, a) == ZERO && XorW(a, ZERO) == a && XorW(ZERO, a) == a && XorW(a, XorW(a, b)) == b
  {
    XLaws(a.b3, b.b3, c.b3);
    XLaws(a.b2, b.b2, c.b2);
    XLaws(a.b1, b.b1, c.b1);
    XLaws(a.b0, b.b0, c.b0);
    hide X;
  }

  lemma SumLaws(a: Sums, b: Sums, c: Sums)
    ensures XorS(XorS(a, b), c) == XorS(a, XorS(b, c)) && XorS(XorS(a, b), c) == XorS(XorS(a, c), b)
    ensures XorS(a, a) == NOTHING && XorS(a, NOTHING) == a && XorS(a, XorS(a, b)) == b
  {
    XLaws(a.col, b.col, c.col);
    WordLaws(a.line, b.line, c.line);
    WordLaws(a.prime, b.prime, c.prime);
    hide X, XorW;
  }

  /** The share is linear in the byte. */
  lemma ShareLinear(a: bv8, b: bv8, i: nat)
    ensures Share(X(a, b), i) == XorS(Share(a, i), Share(b, i))
  {
    TableLinear(a, b);
    OddXor(Table(a), Table(b));
    Gated(Odd(Table(a)), Odd(Table(b)), Of(i));
    Gated(Odd(Table(a)), Odd(Table(b)), NotW(Of(i)));
    hide Table, Odd, Of, NotW, XorW, X, Columns;
  }

  lemma Gated(p: bool, q: bool, w: Word)
    ensures XorW(if p then w else ZERO, if q then w else ZERO) == if p != q then w else ZERO
  {
    WordLaws(w, ZERO, ZERO);
    WordLaws(ZERO, ZERO, ZERO);
    hide XorW;
  }

  function Flip(data: seq<bv8>, k: nat, m: bv8): (e: seq<bv8>)
    requires k < |data|
    ensures |e| == |data|
  {
    data[k := X(data[k], m)]
  }

  method FlipBit(data: array<bv8>, k: nat, m: bv8)
    requires k < data.Length
    modifies data
    ensures data[..] == Flip(old(data[..]), k, m)
  {
    hide X;
    data[k] := X(data[k], m);
  }

  /** Changing bits of one byte changes the sums by the share of those bits. */
  lemma {:induction false} FoldFlip(data: seq<bv8>, k: nat, m: bv8)
    requires k < |data|
    ensures Fold(Flip(data, k, m)) == XorS(Fold(data), Share(m, k))
    decreases |data|
  {
    hide *;
    var n := |data| - 1;
    FlipLast(data, k, m);
    FoldLast(data);
    FoldLast(Flip(data, k, m));
    SumLaws(Fold(data[..n]), Share(data[n], n), Share(m, k));
    if k == n { ShareLinear(data[n], m, n); } else { FoldFlip(data[..n], k, m); }
  }

  lemma FlipLast(data: seq<bv8>, k: nat, m: bv8)
    requires k < |data|
    ensures var n, e := |data| - 1, Flip(data, k, m);
      e[n] == (if k == n then X(data[n], m) else data[n]) && e[..n] == if k == n then data[..n] else Flip(data[..n], k, m)
  {
    hide X;
  }

  lemma FoldLast(data: seq<bv8>)
    requires data != []
    ensures Fold(data) == XorS(Fold(data[..|data| - 1]), Share(data[|data| - 1], |data| - 1))
  {
    hide Share, XorS;
  }

  /** The difference between the sums before and after an error in one byte, and in two. */
  lemma OneError(data: seq<bv8>, k: nat, m: bv8)
    requires k < |data|
    ensures XorS(Fold(data), Fold(Flip(data, k, m))) == Share(m, k)
  {
    FoldFlip(data, k, m);
    hide XorS, Share, Fold, Flip;
    SumLaws(Fold(data), Share(m, k), NOTHING);
  }

  lemma TwoErrors(data: seq<bv8>, k: nat, a: bv8, j: nat, b: bv8)
    requires k < |data| && j < |data|
    ensures XorS(Fold(data), Fold(Flip(Flip(data, k, a), j, b))) == XorS(Share(a, k), Share(b, j))
  {
    FoldFlip(data, k, a);
    FoldFlip(Flip(data, k, a), j, b);
    hide XorS, Share, Fold, Flip;
    SumLaws(Fold(data), Share(a, k), Share(b, j));
    SumLaws(Fold(data), XorS(Share(a, k), Share(b, j)), NOTHING);
  }

  // ----- Single bits

  /** 1 << 0 to 1 << 7. */
  predicate Single(m: bv8) { m == 0x01 || m == 0x02 || m == 0x04 || m == 0x08 || m == 0x10 || m == 0x20 || m == 0x40 || m == 0x80 }

  /** hweight8. */
  function Weight(b: bv8): nat
  {
    (if b & 0x01 != 0 then 1 else 0) + (if b & 0x02 != 0 then 1 else 0) + (if b & 0x04 != 0 then 1 else 0) +
    (if b & 0x08 != 0 then 1 else 0) + (if b & 0x10 != 0 then 1 else 0) + (if b & 0x20 != 0 then 1 else 0) +
    (if b & 0x40 != 0 then 1 else 0) + (if b & 0x80 != 0 then 1 else 0)
  }

  lemma WeightZero(b: bv8)
    ensures Weight(b) == 0 <==> b == 0
  {}

  lemma WeightSingle(b: bv8)
    requires Single(b)
    ensures Weight(b) == 1
  {}

  /** The table at single bits. */
  lemma TableSingle(m: bv8)
    requires Single(m)
    ensures Table(m) == if m == 0x01 then 0x55 else if m == 0x02 then 0x59 else if m == 0x04 then 0x65 else if m == 0x08 then 0x69
                        else if m == 0x10 then 0x95 else if m == 0x20 then 0x99 else if m == 0x40 then 0xa5 else 0xa9
    ensures Odd(Table(m))
  {}

  /** What one wrong bit and what two wrong bits leave in the lines. */
  lemma SingleShare(m: bv8, k: nat)
    requires Single(m)
    ensures Share(m, k) == Sums(Table(m), Of(k), NotW(Of(k)))
  {
    TableSingle(m);
    hide Table, Of, NotW;
  }

  lemma DoubleShare(a: bv8, k: nat, b: bv8, j: nat)
    requires Single(a) && Single(b)
    ensures var s := XorS(Share(a, k), Share(b, j));
      s == Sums(X(Table(a), Table(b)), XorW(Of(k), Of(j)), XorW(Of(k), Of(j)))
  {
    SingleShare(a, k);
    SingleShare(b, j);
    NotsCancel(Of(k), Of(j));
    hide Table, Of, NotW, XorW, Share, X;
  }

  lemma NotsCancel(a: Word, b: Word)
    ensures XorW(NotW(a), NotW(b)) == XorW(a, b)
    ensures XorW(a, b) == ZERO ==> a == b
    ensures XorW(a, b).b0 == 0 ==> a.b0 == b.b0
    ensures a != NotW(a) && a.b0 != NotW(a).b0
  {}

  /** Two wrong bits of one byte show in the column parities in more than one place. */
  lemma DoubleColumns(a: bv8, b: bv8)
    requires Single(a) && Single(b) && a != b
    ensures Weight(X(Table(a), Table(b)) & 0xfc) > 1
    ensures Weight((X(Table(a), Table(b)) >> 2) & 0x3f) > 1
  {
    TableSingle(a);
    TableSingle(b);
    hide Table;
  }
}
