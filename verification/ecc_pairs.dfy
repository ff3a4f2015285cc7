/** Two wrong bits of which at least one is in the stored code. */
module EccPairs {
  import opened WordBytes
  import opened EccTable
  import opened EccSums
  import Ecc
  import EccOther

  // ----- Blocks of 256 bytes

  /** One of each of the four pairs of bits. */
  predicate Halves(d: bv8) { (d ^ (d >> 1)) & 0x55 == 0x55 }

  /** One of each of the three upper pairs. */
  predicate Columns3(d: bv8) { (d ^ (d >> 1)) & 0x54 == 0x54 }

  /** The two lowest bits of the third byte, which stand for nothing. */
  predicate Idle(x: bv8) { x == 0x01 || x == 0x02 }

  lemma Unpaired(d: bv8, x: bv8)
    requires Single(x) && Halves(d)
    ensures !Halves(X(d, x)) && Weight(X(d, x)) > 1
  {}

  lemma UnpairedColumn(d: bv8, x: bv8)
    requires Single(x) && Columns3(d)
    ensures if Idle(x) then Columns3(X(d, x)) && Ecc.Mask(X(d, x)) == Ecc.Mask(d) else !Columns3(X(d, x)) && Weight(X(d, x)) > 1
  {}

  lemma PairedIs(d: Ecc.Code)
    ensures Ecc.Paired(d) <==> Halves(d.e0) && Halves(d.e1) && Columns3(d.e2)
  {}

  function Bits(d: Ecc.Code): nat { Weight(d.e0) + Weight(d.e1) + Weight(d.e2) }

  lemma Dead(d: Ecc.Code)
    requires !Ecc.Paired(d) && Bits(d) > 1
    ensures Ecc.Judge(d) == Ecc.Hopeless
  {
    WeightZero(0);
    hide Weight, Ecc.Paired;
  }

  lemma Alive(d: Ecc.Code)
    requires Ecc.Paired(d)
    ensures Ecc.Judge(d) == Ecc.BadByte(Number(Ecc.Place(d)), Ecc.Mask(d.e2))
  {
    assert !Ecc.Paired(Ecc.Code(0, 0, 0));
    hide Weight, Ecc.Paired, Ecc.Mask, Ecc.Place, Number;
  }

  /** A difference of one wrong bit of the data, spoilt by one bit more. */
  lemma OffByOne(d: Ecc.Code, which: nat, x: bv8)
    requires which < 3 && Single(x) && Ecc.Paired(d)
    ensures Ecc.Judge(Ecc.Spoilt(d, which, x)) ==
      if which == 2 && Idle(x) then Ecc.BadByte(Number(Ecc.Place(d)), Ecc.Mask(d.e2)) else Ecc.Hopeless
  {
    hide *;
    var e := Ecc.Spoilt(d, which, x);
    PairedIs(d);
    PairedIs(e);
    SpoiltIs(d, which, x);
    if which == 0 { Unpaired(d.e0, x); } else if which == 1 { Unpaired(d.e1, x); } else { UnpairedColumn(d.e2, x); }
    BitsOf(e);
    if Ecc.Paired(e) { Alive(e); SamePlace(d, e); } else { Dead(e); }
  }

  lemma SpoiltIs(d: Ecc.Code, which: nat, x: bv8)
    requires which < 3
    ensures Ecc.Spoilt(d, which, x) ==
      Ecc.Code(if which == 0 then X(d.e0, x) else d.e0, if which == 1 then X(d.e1, x) else d.e1, if which == 2 then X(d.e2, x) else d.e2)
  {
    hide X;
  }

  lemma BitsOf(d: Ecc.Code)
    ensures Weight(d.e0) > 1 || Weight(d.e1) > 1 || Weight(d.e2) > 1 ==> Bits(d) > 1
    ensures Bits(d) == Weight(d.e0) + Weight(d.e1) + Weight(d.e2)
  {
    hide Weight;
  }

  lemma SamePlace(d: Ecc.Code, e: Ecc.Code)
    ensures d.e0 == e.e0 && d.e1 == e.e1 ==> Ecc.Place(e) == Ecc.Place(d)
  {}

  lemma SpoiltDelta(c: Ecc.Code, t: Ecc.Code, which: nat, x: bv8)
    requires which < 3
    ensures Ecc.Delta(Ecc.Spoilt(c, which, x), t) == Ecc.Spoilt(Ecc.Delta(c, t), which, x)
  {
    SpoiltIs(c, which, x);
    SpoiltIs(Ecc.Delta(c, t), which, x);
    Apart(c.e0, x, t.e0);
    Apart(c.e1, x, t.e1);
    Apart(c.e2, x, t.e2);
    hide X, Ecc.Spoilt;
  }

  lemma Apart(a: bv8, x: bv8, b: bv8)
    ensures X(X(a, x), b) == X(X(a, b), x)
  {}

  lemma OnePaired(data: seq<bv8>, k: nat, m: bv8)
    requires |data| == Ecc.SIZE && k < Ecc.SIZE && Single(m)
    ensures var d := Ecc.Delta(Ecc.Calc(data), Ecc.Calc(Flip(data, k, m))); Ecc.Paired(d) && Ecc.Place(d) == Byte(k) && Ecc.Mask(d.e2) == m
  {
    hide *;
    var l, c := Byte(k), Table(m) & 0xfc;
    OneError(data, k, m);
    SingleShare(m, k);
    Ecc.LowNot(k);
    Ecc.MaskSingle(m);
    Ecc.PlaceIs(l, !l, c);
    Ecc.PairedIs(l, !l, c);
    Ecc.DeltaOf(data, Flip(data, k, m), Share(m, k));
  }

  /** A wrong bit of the data together with a wrong bit of the stored code is detected, and nothing is touched; with
      one of the bits that stand for nothing the data is put right. */
  lemma MixedDetected(data: seq<bv8>, k: nat, m: bv8, which: nat, x: bv8)
    requires |data| == Ecc.SIZE && k < Ecc.SIZE && Single(m) && which < 3 && Single(x)
    ensures var e, read := Flip(data, k, m), Ecc.Spoilt(Ecc.Calc(data), which, x);
      Ecc.Correct(e, read, Ecc.Calc(e)) == if which == 2 && Idle(x) then (data, read, 1) else (e, read, -1)
  {
    hide Flip, Ecc.Calc, Ecc.Judge, Ecc.Delta, Ecc.Spoilt, Ecc.Paired, Ecc.Place, Ecc.Mask, Single;
    OnePaired(data, k, m);
    SpoiltDelta(Ecc.Calc(data), Ecc.Calc(Flip(data, k, m)), which, x);
    OffByOne(Ecc.Delta(Ecc.Calc(data), Ecc.Calc(Flip(data, k, m))), which, x);
    NumberByte(k);
    Ecc.FlipBack(data, k, m);
  }

  lemma TwoBits(x: bv8, y: bv8)
    requires Single(x) && Single(y) && x != y
    ensures Weight(X(x, y)) == 2
  {}

  lemma FewBits(d: bv8)
    requires Weight(d) <= 2
    ensures !Halves(d)
  {}

  lemma Shifted(x: bv8, y: bv8)
    ensures X(0, x) == x && X(x, 0) == x && X(0, 0) == 0
  {}

  /** Two wrong bits of the stored code are detected. */
  lemma CodeDetected(data: seq<bv8>, which: nat, x: bv8, other: nat, y: bv8)
    requires which < 3 && other < 3 && Single(x) && Single(y) && (which != other || x != y)
    ensures var read := Ecc.Spoilt(Ecc.Spoilt(Ecc.Calc(data), which, x), other, y);
      Ecc.Correct(data, read, Ecc.Calc(data)) == (data, read, -1)
  {
    var c, z := Ecc.Calc(data), Ecc.Code(0, 0, 0);
    SpoiltDelta(Ecc.Spoilt(c, which, x), c, other, y);
    SpoiltDelta(c, c, which, x);
    SelfDelta(c);
    TwoHopeless(which, x, other, y);
    hide Ecc.Calc, Ecc.Delta, Ecc.Spoilt, Ecc.Judge, Single;
  }

  lemma SelfDelta(c: Ecc.Code)
    ensures Ecc.Delta(c, c) == Ecc.Code(0, 0, 0)
  {}

  lemma TwoHopeless(which: nat, x: bv8, other: nat, y: bv8)
    requires which < 3 && other < 3 && Single(x) && Single(y) && (which != other || x != y)
    ensures Ecc.Judge(Ecc.Spoilt(Ecc.Spoilt(Ecc.Code(0, 0, 0), which, x), other, y)) == Ecc.Hopeless
  {
    hide *;
    var z := Ecc.Code(0, 0, 0);
    var d := Ecc.Spoilt(Ecc.Spoilt(z, which, x), other, y);
    SpoiltIs(z, which, x);
    SpoiltIs(Ecc.Spoilt(z, which, x), other, y);
    Shifted(x, y);
    Shifted(y, x);
    if which == other { TwoBits(x, y); OnBits(0, x, y); }
    WeightSingle(x);
    WeightSingle(y);
    WeightZero(0);
    FewBits(d.e0);
    PairedIs(d);
    BitsOf(d);
    Dead(d);
  }

  lemma OnBits(a: bv8, x: bv8, y: bv8)
    ensures X(X(0, x), y) == X(x, y)
  {}

  // ----- Blocks of any length

  function OtherBits(d: EccOther.Other): nat { EccOther.WeightW(d.line) + EccOther.WeightW(d.prime) + Weight(d.col) }

  predicate Named(d: EccOther.Other) { d.line == NotW(d.prime) && EccOther.Pairs(d.col) }

  /** The two highest bits of the columns, which stand for nothing. */
  predicate Spare(c: EccOther.CodeBit) { c.InCol? && (c.x == 0x40 || c.x == 0x80) }

  lemma Lost(d: EccOther.Other, n: nat)
    requires !Named(d) && OtherBits(d) > 1
    ensures EccOther.Judge(d, n) == EccOther.Hopeless
  {
    EccOther.WeightWZero(ZERO);
    WeightZero(0);
    hide Weight, EccOther.WeightW, EccOther.Pairs, NotW, Value, EccOther.Mask;
  }

  lemma Found(d: EccOther.Other, n: nat)
    requires Named(d) && Value(d.line) < n
    ensures EccOther.Judge(d, n) == EccOther.BadByte(Value(d.line), EccOther.Mask(d.col))
  {
    NotsCancel(ZERO, ZERO);
    assert ZERO != NotW(ZERO);
    hide Weight, EccOther.WeightW, EccOther.Pairs, NotW, Value, EccOther.Mask;
  }

  lemma Opposite(a: bv8)
    ensures Weight(a) + Weight(!a) == 8
  {}

  lemma OppositeW(w: Word)
    ensures EccOther.WeightW(w) + EccOther.WeightW(NotW(w)) == 32
  {
    Opposite(w.b3);
    Opposite(w.b2);
    Opposite(w.b1);
    Opposite(w.b0);
    hide Weight;
  }

  lemma OneMore(a: bv8, x: bv8)
    requires Single(x)
    ensures Weight(X(a, x)) + 1 >= Weight(a) && X(a, x) != a
  {}

  lemma OneMoreW(w: Word, u: Word)
    requires EccOther.SingleW(u)
    ensures EccOther.WeightW(XorW(w, u)) + 1 >= EccOther.WeightW(w) && XorW(w, u) != w
  {
    OneByte(w.b3, u.b3);
    OneByte(w.b2, u.b2);
    OneByte(w.b1, u.b1);
    OneByte(w.b0, u.b0);
    SingleNone();
    hide Weight, X, Single;
  }

  lemma OneByte(a: bv8, x: bv8)
    ensures x == 0 ==> X(a, x) == a
    ensures Single(x) ==> Weight(X(a, x)) + 1 >= Weight(a) && X(a, x) != a
  {
    if Single(x) { OneMore(a, x); }
    Same(a);
    hide Weight, X, Single;
  }

  lemma SingleNone()
    ensures !Single(0)
  {}

  lemma Same(a: bv8)
    ensures X(a, 0) == a
  {}

  lemma UnpairedOther(d: bv8, x: bv8)
    requires Single(x) && EccOther.Pairs(d)
    ensures if x == 0x40 || x == 0x80 then EccOther.Pairs(X(d, x)) && EccOther.Mask(X(d, x)) == EccOther.Mask(d) else !EccOther.Pairs(X(d, x))
  {}

  lemma SpoiltOther(d: EccOther.Other, c: EccOther.CodeBit)
    ensures EccOther.Spoilt(d, c) == match c
      case InCol(x) => EccOther.Other(X(d.col, x), d.line, d.prime)
      case InLine(u) => EccOther.Other(d.col, XorW(d.line, u), d.prime)
      case InPrime(u) => EccOther.Other(d.col, d.line, XorW(d.prime, u))
  {
    hide X, XorW;
  }

  lemma OneBitIs(c: EccOther.CodeBit)
    ensures EccOther.OneBit(c) <==> if c.InCol? then Single(c.x) else EccOther.SingleW(c.u)
  {
    hide Single, EccOther.SingleW;
  }

  lemma NotTwice(w: Word)
    ensures NotW(NotW(w)) == w
  {}

  /** A difference of one wrong bit of the data, spoilt by one bit more. */
  lemma OffByOneOther(d: EccOther.Other, c: EccOther.CodeBit, n: nat)
    requires EccOther.OneBit(c) && Named(d) && Value(d.line) < n
    ensures EccOther.Judge(EccOther.Spoilt(d, c), n) ==
      if Spare(c) then EccOther.BadByte(Value(d.line), EccOther.Mask(d.col)) else EccOther.Hopeless
  {
    OneBitIs(c);
    NotTwice(d.prime);
    OppositeW(d.prime);
    SpoiltOther(d, c);
    hide EccOther.OneBit, EccOther.Spoilt, EccOther.Judge, EccOther.Pairs, EccOther.Mask, EccOther.SingleW, EccOther.WeightW, NotW, XorW, X, Weight, Single, Value;
    var e := EccOther.Spoilt(d, c);
    match c
    case InCol(x) =>
      UnpairedOther(d.col, x);
      if Spare(c) { Found(e, n); } else { Lost(e, n); }
    case InLine(u) =>
      OneMoreW(d.line, u);
      Lost(e, n);
    case InPrime(u) =>
      OneMoreW(d.prime, u);
      NotTwice(XorW(d.prime, u));
      Lost(e, n);
  }

  lemma ApartW(a: Word, x: Word, b: Word)
    ensures XorW(XorW(a, x), b) == XorW(XorW(a, b), x)
  {
    Apart(a.b3, x.b3, b.b3);
    Apart(a.b2, x.b2, b.b2);
    Apart(a.b1, x.b1, b.b1);
    Apart(a.b0, x.b0, b.b0);
    hide X;
  }

  lemma SpoiltOtherDelta(e: EccOther.Other, t: EccOther.Other, c: EccOther.CodeBit)
    ensures EccOther.Delta(EccOther.Spoilt(e, c), t) == EccOther.Spoilt(EccOther.Delta(e, t), c)
  {
    SpoiltOther(e, c);
    SpoiltOther(EccOther.Delta(e, t), c);
    match c
    case InCol(x) => Apart(e.col, x, t.col); hide X, XorW, EccOther.Spoilt;
    case InLine(u) => ApartW(e.line, u, t.line); hide X, XorW, EccOther.Spoilt;
    case InPrime(u) => ApartW(e.prime, u, t.prime); hide X, XorW, EccOther.Spoilt;
  }

  lemma OneNamed(data: seq<bv8>, k: nat, m: bv8)
    requires k < |data| <= LIMIT && Single(m)
    ensures var d := EccOther.Delta(EccOther.Calc(data), EccOther.Calc(Flip(data, k, m)));
      Named(d) && Value(d.line) == k && EccOther.Mask(d.col) == m
  {
    OneError(data, k, m);
    SingleShare(m, k);
    EccOther.DeltaOf(data, Flip(data, k, m), Share(m, k));
    EccOther.MaskSingle(m);
    NotTwice(Of(k));
    ValueOf(k);
    hide EccOther.Calc, EccOther.Delta, EccOther.Narrow, Fold, Share, Table, Of, NotW, Flip, Columns, Value, EccOther.Mask, EccOther.Pairs;
  }

  /** The same over blocks of any length. */
  lemma OtherMixedDetected(data: seq<bv8>, k: nat, m: bv8, c: EccOther.CodeBit)
    requires k < |data| <= LIMIT && Single(m) && EccOther.OneBit(c)
    ensures var e, read := Flip(data, k, m), EccOther.Spoilt(EccOther.Calc(data), c);
      EccOther.Correct(e, read, EccOther.Calc(e)) == if Spare(c) then (data, read, 1) else (e, read, -1)
  {
    OneNamed(data, k, m);
    SpoiltOtherDelta(EccOther.Calc(data), EccOther.Calc(Flip(data, k, m)), c);
    OffByOneOther(EccOther.Delta(EccOther.Calc(data), EccOther.Calc(Flip(data, k, m))), c, |data|);
    EccOther.FlipBack(data, k, m);
    hide Flip, EccOther.Calc, EccOther.Judge, EccOther.Delta, EccOther.Spoilt, EccOther.Mask, EccOther.OneBit, Single, Value;
  }

  lemma TwoBitsW(u: Word, v: Word)
    requires EccOther.SingleW(u) && EccOther.SingleW(v) && u != v
    ensures EccOther.WeightW(XorW(u, v)) == 2
  {
    Both(u.b3, v.b3);
    Both(u.b2, v.b2);
    Both(u.b1, v.b1);
    Both(u.b0, v.b0);
    hide Weight, X, Single;
  }

  lemma Both(x: bv8, y: bv8)
    ensures !Single(0)
    ensures (x == 0 || Single(x)) && (y == 0 || Single(y)) ==>
      Weight(X(x, y)) == if x == y then 0 else if x == 0 || y == 0 then 1 else 2
  {}

  lemma ZeroesW(u: Word)
    ensures XorW(ZERO, u) == u && XorW(u, ZERO) == u && EccOther.WeightW(ZERO) == 0
  {
    WordLaws(u, ZERO, ZERO);
    EccOther.WeightWZero(ZERO);
    hide XorW, EccOther.WeightW;
  }

  lemma FewBitsOther(d: EccOther.Other)
    requires OtherBits(d) == 2
    ensures !Named(d)
  {
    OppositeW(d.prime);
    hide Weight, EccOther.WeightW, EccOther.Pairs, NotW;
  }

  lemma TwoHopelessOther(c: EccOther.CodeBit, o: EccOther.CodeBit, n: nat)
    requires EccOther.OneBit(c) && EccOther.OneBit(o) && c != o
    ensures EccOther.Judge(EccOther.Spoilt(EccOther.Spoilt(EccOther.Other(0, ZERO, ZERO), c), o), n) == EccOther.Hopeless
  {
    var z := EccOther.Other(0, ZERO, ZERO);
    var d := EccOther.Spoilt(EccOther.Spoilt(z, c), o);
    TwoOtherBits(c, o);
    hide *;
    FewBitsOther(d);
    Lost(d, n);
  }

  lemma TwoOtherBits(c: EccOther.CodeBit, o: EccOther.CodeBit)
    requires EccOther.OneBit(c) && EccOther.OneBit(o) && c != o
    ensures OtherBits(EccOther.Spoilt(EccOther.Spoilt(EccOther.Other(0, ZERO, ZERO), c), o)) == 2
  {
    var z := EccOther.Other(0, ZERO, ZERO);
    OneBitIs(c);
    OneBitIs(o);
    SpoiltOther(z, c);
    SpoiltOther(EccOther.Spoilt(z, c), o);
    WeightZero(0);
    ZeroesW(ZERO);
    hide EccOther.Spoilt, EccOther.OneBit, EccOther.SingleW, EccOther.WeightW, XorW, X, Weight, Single;
    if c.InCol? { Shifted(c.x, 0); WeightSingle(c.x); } else { ZeroesW(c.u); EccOther.SingleWeight(c.u); }
    if o.InCol? { Shifted(o.x, 0); WeightSingle(o.x); } else { ZeroesW(o.u); EccOther.SingleWeight(o.u); }
    if c.InCol? && o.InCol? { TwoBits(c.x, o.x); }
    if c.InLine? && o.InLine? { TwoBitsW(c.u, o.u); }
    if c.InPrime? && o.InPrime? { TwoBitsW(c.u, o.u); }
  }

  /** Two wrong bits of its stored code are detected. */
  lemma OtherCodeDetected(data: seq<bv8>, c: EccOther.CodeBit, o: EccOther.CodeBit)
    requires EccOther.OneBit(c) && EccOther.OneBit(o) && c != o
    ensures var read := EccOther.Spoilt(EccOther.Spoilt(EccOther.Calc(data), c), o);
      EccOther.Correct(data, read, EccOther.Calc(data)) == (data, read, -1)
  {
    var e := EccOther.Calc(data);
    SpoiltOtherDelta(EccOther.Spoilt(e, c), e, o);
    SpoiltOtherDelta(e, e, c);
    SelfOther(e);
    TwoHopelessOther(c, o, |data|);
    hide EccOther.Calc, EccOther.Delta, EccOther.Spoilt, EccOther.Judge, EccOther.OneBit;
  }

  lemma SelfOther(e: EccOther.Other)
    ensures EccOther.Delta(e, e) == EccOther.Other(0, ZERO, ZERO)
  {
    XLaws(e.col, 0, 0);
    WordLaws(e.line, ZERO, ZERO);
    WordLaws(e.prime, ZERO, ZERO);
    hide X, XorW;
  }

  lemma Refused(d: EccOther.Other, n: nat)
    requires Named(d) && Value(d.line) >= n
    ensures EccOther.Judge(d, n) == EccOther.Hopeless
  {
    NotsCancel(ZERO, ZERO);
    assert ZERO != NotW(ZERO);
    hide Weight, EccOther.WeightW, EccOther.Pairs, NotW, Value, EccOther.Mask;
  }

  /** A difference that names a byte behind the block is an error that is not put right. */
  lemma OutsideDetected(data: seq<bv8>, k: nat, m: bv8)
    requires |data| <= k < LIMIT && Single(m)
    ensures var c := EccOther.Calc(data);
      var read := EccOther.Other(X(EccOther.Narrow(Table(m)), c.col), XorW(Of(k), c.line), XorW(NotW(Of(k)), c.prime));
      EccOther.Correct(data, read, c) == (data, read, -1)
  {
    var c, d := EccOther.Calc(data), EccOther.Other(EccOther.Narrow(Table(m)), Of(k), NotW(Of(k)));
    Changed(c, d);
    OneNames(k, m);
    Refused(d, |data|);
    hide EccOther.Calc, EccOther.Narrow, EccOther.Judge, EccOther.Delta, Table, Of, NotW, X, XorW, Value, Named;
  }

  lemma OneNames(k: nat, m: bv8)
    requires k < LIMIT && Single(m)
    ensures var d := EccOther.Other(EccOther.Narrow(Table(m)), Of(k), NotW(Of(k))); Named(d) && Value(d.line) == k
  {
    EccOther.MaskSingle(m);
    ValueOf(k);
    NotTwice(Of(k));
    hide EccOther.Narrow, EccOther.Pairs, EccOther.Mask, Table, Of, NotW, Value, Columns;
  }

  lemma Changed(c: EccOther.Other, d: EccOther.Other)
    ensures EccOther.Delta(EccOther.Other(X(d.col, c.col), XorW(d.line, c.line), XorW(d.prime, c.prime)), c) == d
  {
    Back(d.col, c.col);
    BackW(d.line, c.line);
    BackW(d.prime, c.prime);
    hide X, XorW;
  }

  lemma Back(a: bv8, b: bv8)
    ensures X(X(a, b), b) == a
  {}

  lemma BackW(a: Word, b: Word)
    ensures XorW(XorW(a, b), b) == a
  {
    Back(a.b3, b.b3);
    Back(a.b2, b.b2);
    Back(a.b1, b.b1);
    Back(a.b0, b.b0);
    hide X;
  }
}
