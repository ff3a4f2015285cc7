/** The code over blocks of any length. */
module EccOther {
  import opened WordBytes
  import opened EccTable
  import opened EccSums

  datatype Other = Other(col: bv8, line: Word, prime: Word)

  function Narrow(col: bv8): bv8 { (col >> 2) & 0x3f }

  function Calc(data: seq<bv8>): Other
  {
    var s := Fold(data);
    Other(Narrow(s.col), s.line, s.prime)
  }

  /** One parity of each of the three pairs differs. */
  predicate Pairs(d: bv8) { ((d ^ (d >> 1)) & 0x15) == 0x15 }

  /** The wrong bit of the byte. */
  function Mask(d: bv8): bv8
  {
    if d & 0x20 != 0 then
      (if d & 0x08 != 0 then (if d & 0x02 != 0 then 0x80 else 0x40) else if d & 0x02 != 0 then 0x20 else 0x10)
    else
      (if d & 0x08 != 0 then (if d & 0x02 != 0 then 0x08 else 0x04) else if d & 0x02 != 0 then 0x02 else 0x01)
  }

  function WeightW(w: Word): nat { Weight(w.b3) + Weight(w.b2) + Weight(w.b1) + Weight(w.b0) }

  function Delta(read: Other, test: Other): Other
  {
    Other(X(read.col, test.col), XorW(read.line, test.line), XorW(read.prime, test.prime))
  }

  /** The verdict on a difference: no error, a byte to change, a wrong code, or hopeless. */
  datatype Verdict = Clean | BadByte(k: nat, m: bv8) | BadCode | Hopeless

  function Judge(d: Other, n: nat): Verdict
  {
    if d == Other(0, ZERO, ZERO) then Clean
    else if d.line == NotW(d.prime) && Pairs(d.col) then
      (if Value(d.line) >= n then Hopeless else BadByte(Value(d.line), Mask(d.col)))
    else if WeightW(d.line) + WeightW(d.prime) + Weight(d.col) == 1 then BadCode
    else Hopeless
  }

  /** The data and the stored code after the correction, and its result. */
  function Correct(data: seq<bv8>, read: Other, test: Other): (seq<bv8>, Other, int)
  {
    match Judge(Delta(read, test), |data|)
    case Clean => (data, read, 0)
    case BadByte(k, m) => (if k < |data| then Flip(data, k, m) else data, read, 1)
    case BadCode => (data, test, 1)
    case Hopeless => (data, read, -1)
  }

  // ----- Differences

  lemma NarrowX(a: bv8, b: bv8)
    ensures X(Narrow(a), Narrow(b)) == Narrow(X(a, b))
  {
    assert ((a >> 2) & 0x3f) ^ ((b >> 2) & 0x3f) == ((a ^ b) >> 2) & 0x3f;
  }

  lemma DeltaOf(a: seq<bv8>, b: seq<bv8>, s: Sums)
    requires XorS(Fold(a), Fold(b)) == s
    ensures Delta(Calc(a), Calc(b)) == Other(Narrow(s.col), s.line, s.prime)
  {
    NarrowX(Fold(a).col, Fold(b).col);
    hide Narrow, X, XorW, Fold;
  }

  /** The column parities name the bit. */
  lemma MaskSingle(m: bv8)
    requires Single(m)
    ensures Pairs(Narrow(Table(m))) && Mask(Narrow(Table(m))) == m && Narrow(Table(m)) != 0
  {
    TableSingle(m);
    hide Table, Columns;
  }

  lemma NotNot(w: Word)
    ensures NotW(NotW(w)) == w
  {}

  lemma FlipBack(data: seq<bv8>, k: nat, m: bv8)
    requires k < |data|
    ensures Flip(Flip(data, k, m), k, m) == data
  {
    XLaws(m, data[k], 0);
    Commutes(m, data[k]);
    Commutes(m, X(m, data[k]));
    hide X;
  }

  lemma Commutes(a: bv8, b: bv8)
    ensures X(a, b) == X(b, a)
  {}

  lemma WeightWZero(w: Word)
    ensures WeightW(w) == 0 <==> w == ZERO
  {
    WeightZero(w.b3);
    WeightZero(w.b2);
    WeightZero(w.b1);
    WeightZero(w.b0);
    hide Weight;
  }

  // ----- What is corrected and what is detected

  /** Data that was not changed is left alone. */
  lemma NoError(data: seq<bv8>)
    ensures Correct(data, Calc(data), Calc(data)) == (data, Calc(data), 0)
  {
    DeltaOf(data, data, NOTHING) by { SumLaws(Fold(data), NOTHING, NOTHING); }
    NarrowZero();
    hide Calc, Delta, Narrow, Fold;
  }

  lemma NarrowZero()
    ensures Narrow(0) == 0
  {}

  /** Every single wrong bit of the data is put right. */
  lemma SingleCorrected(data: seq<bv8>, k: nat, m: bv8)
    requires k < |data| <= LIMIT && Single(m)
    ensures Correct(Flip(data, k, m), Calc(data), Calc(Flip(data, k, m))) == (data, Calc(data), 1)
  {
    var e := Flip(data, k, m);
    OneError(data, k, m);
    SingleShare(m, k);
    DeltaOf(data, e, Share(m, k));
    OneNamed(m, k, |data|);
    FlipBack(data, k, m);
    hide Calc, Delta, Narrow, Fold, Share, Table, Of, NotW, Flip, Judge, Columns;
  }

  lemma OneNamed(m: bv8, k: nat, n: nat)
    requires Single(m) && k < n <= LIMIT
    ensures Judge(Other(Narrow(Table(m)), Of(k), NotW(Of(k))), n) == BadByte(k, m)
  {
    MaskSingle(m);
    NotNot(Of(k));
    ValueOf(k);
    hide Narrow, Table, Of, NotW, Value, Mask, Pairs, Weight, WeightW, Columns;
  }

  /** Two wrong bits, in one byte or in two, are detected and the data is not touched. */
  lemma DoubleDetected(data: seq<bv8>, k: nat, a: bv8, j: nat, b: bv8)
    requires k < |data| <= LIMIT && j < |data| && Single(a) && Single(b) && (k != j || a != b)
    ensures var e := Flip(Flip(data, k, a), j, b); Correct(e, Calc(data), Calc(e)) == (e, Calc(data), -1)
  {
    var e := Flip(Flip(data, k, a), j, b);
    TwoErrors(data, k, a, j, b);
    DoubleShare(a, k, b, j);
    DeltaOf(data, e, XorS(Share(a, k), Share(b, j)));
    TwoHopeless(k, a, j, b, |data|);
    hide Calc, Delta, Narrow, Fold, Share, Table, Of, NotW, Value, Mask, Pairs, Flip, XorS, XorW, Judge, X, Columns;
  }

  lemma TwoHopeless(k: nat, a: bv8, j: nat, b: bv8, n: nat)
    requires k < LIMIT && j < LIMIT && Single(a) && Single(b) && (k != j || a != b)
    ensures var w := XorW(Of(k), Of(j)); Judge(Other(Narrow(X(Table(a), Table(b))), w, w), n) == Hopeless
  {
    var w, c := XorW(Of(k), Of(j)), Narrow(X(Table(a), Table(b)));
    NotsCancel(Of(k), Of(j));
    NotsCancel(w, w);
    WeightWZero(w);
    if w == ZERO {
      OfInjective(k, j);
      SameByte(a, b);
    }
    hide NotW, Weight, WeightW, Table, Of, XorW, X, Narrow, Columns, Value, Pairs, Single;
  }

  lemma SameByte(a: bv8, b: bv8)
    requires Single(a) && Single(b) && a != b
    ensures var c := Narrow(X(Table(a), Table(b))); c != 0 && Weight(c) > 1
  {
    DoubleColumns(a, b);
    WeightZero(Narrow(X(Table(a), Table(b))));
    hide Weight, Table, Columns, X;
  }

  /** One bit of the stored code. */
  datatype CodeBit = InCol(x: bv8) | InLine(u: Word) | InPrime(u: Word)

  predicate SingleW(w: Word)
  {
    || (Single(w.b3) && w.b2 == 0 && w.b1 == 0 && w.b0 == 0) || (w.b3 == 0 && Single(w.b2) && w.b1 == 0 && w.b0 == 0)
    || (w.b3 == 0 && w.b2 == 0 && Single(w.b1) && w.b0 == 0) || (w.b3 == 0 && w.b2 == 0 && w.b1 == 0 && Single(w.b0))
  }

  predicate OneBit(c: CodeBit) { if c.InCol? then Single(c.x) else SingleW(c.u) }

  function Spoilt(e: Other, c: CodeBit): Other
  {
    match c
    case InCol(x) => e.(col := X(e.col, x))
    case InLine(u) => e.(line := XorW(e.line, u))
    case InPrime(u) => e.(prime := XorW(e.prime, u))
  }

  lemma SingleWeight(w: Word)
    requires SingleW(w)
    ensures WeightW(w) == 1 && w != ZERO && w != NotW(ZERO)
  {
    if Single(w.b3) { WeightSingle(w.b3); }
    if Single(w.b2) { WeightSingle(w.b2); }
    if Single(w.b1) { WeightSingle(w.b1); }
    if Single(w.b0) { WeightSingle(w.b0); }
    WeightZero(0);
    hide Weight;
  }

  lemma SpoiltDelta(e: Other, c: CodeBit)
    ensures Delta(Spoilt(e, c), e) == match c
      case InCol(x) => Other(x, ZERO, ZERO) case InLine(u) => Other(0, u, ZERO) case InPrime(u) => Other(0, ZERO, u)
  {
    XLaws(e.col, if c.InCol? then c.x else 0, 0);
    WordLaws(e.line, if c.InLine? then c.u else ZERO, ZERO);
    WordLaws(e.prime, if c.InPrime? then c.u else ZERO, ZERO);
    if c.InCol? { Commutes(e.col, X(e.col, c.x)); }
    if c.InLine? { WordCommutes(e.line, XorW(e.line, c.u)); }
    if c.InPrime? { WordCommutes(e.prime, XorW(e.prime, c.u)); }
    hide X, XorW;
  }

  lemma WordCommutes(a: Word, b: Word)
    ensures XorW(a, b) == XorW(b, a)
  {
    Commutes(a.b3, b.b3);
    Commutes(a.b2, b.b2);
    Commutes(a.b1, b.b1);
    Commutes(a.b0, b.b0);
    hide X;
  }

  /** A wrong bit of the stored code is recognised as such. */
  lemma CodeErrorIgnored(data: seq<bv8>, c: CodeBit)
    requires OneBit(c)
    ensures Correct(data, Spoilt(Calc(data), c), Calc(data)) == (data, Calc(data), 1)
  {
    SpoiltDelta(Calc(data), c);
    WeightWZero(ZERO);
    WeightZero(0);
    NotsCancel(ZERO, ZERO);
    if c.InCol? { WeightSingle(c.x); WeightZero(c.x); } else { SingleWeight(c.u); NotNot(c.u); NotNot(ZERO); }
    hide Calc, Delta, Spoilt, Weight, WeightW, NotW, SingleW, Single, Value, Pairs;
  }

  // ----- In place

  /** yaffs_ecc_calc_other. */
  method CalcBlock(data: array<bv8>, n: nat) returns (ecc: Other)
    requires n <= data.Length
    ensures ecc == Calc(data[..n])
  {
    var col: bv8, line, prime := 0, ZERO, ZERO;
    var i := 0;
    hide Table, X, XorW, NotW, Of, Odd, Columns;
    while i < n
      invariant 0 <= i <= n
      invariant Sums(col, line, prime) == Fold(data[..i])
    {
      var b := Table(data[i]);
      assert data[..i + 1][..i] == data[..i];
      FoldStep(col, line, prime, data[..i + 1]);
      col := X(col, b);
      if Odd(b) {
        line := XorW(line, Of(i));
        prime := XorW(prime, NotW(Of(i)));
      }
      i := i + 1;
    }
    ecc := Other((col >> 2) & 0x3f, line, prime);
  }

  lemma FoldStep(col: bv8, line: Word, prime: Word, data: seq<bv8>)
    requires data != [] && Sums(col, line, prime) == Fold(data[..|data| - 1])
    ensures var t, i := Table(data[|data| - 1]), |data| - 1;
      Fold(data) == if Odd(t) then Sums(X(col, t), XorW(line, Of(i)), XorW(prime, NotW(Of(i)))) else Sums(X(col, t), line, prime)
  {
    WordLaws(line, ZERO, ZERO);
    WordLaws(prime, ZERO, ZERO);
    hide Table, X, XorW, NotW, Of, Odd, Columns;
  }

  /** yaffs_ecc_correct_other. */
  method CorrectBlock(data: array<bv8>, read: Other, test: Other) returns (result: int, read2: Other)
    modifies data
    ensures (data[..], read2, result) == Correct(old(data[..]), read, test)
  {
    hide Value, Weight, Pairs, X, XorW, NotW, Mask, Flip;
    var d := Delta(read, test);
    read2 := read;
    if d.col == 0 && d.line == ZERO && d.prime == ZERO { return 0, read; }
    if d.line == NotW(d.prime) && Pairs(d.col) {
      var k := Value(d.line);
      if k >= data.Length { return -1, read; }
      FlipBit(data, k, Mask(d.col));
      return 1, read;
    }
    if WeightW(d.line) + WeightW(d.prime) + Weight(d.col) == 1 { return 1, test; }
    result := -1;
  }
}
