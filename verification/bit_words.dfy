/** 32-bit words and the numbers they stand for. */
module BitWords {
  const WRAP: nat := 0x1_0000_0000

  function Odd(w: bv32): (b: nat)
    ensures b < 2
  {
    if w & 1 == 1 then 1 else 0
  }

  function Half(w: bv32): bv32 { w >> 1 }

  function High(w: bv32): bv32 { w >> 8 }

  function Twice(w: bv32, bit: bool): bv32 { if bit then (w << 1) | 1 else w << 1 }

  /** `|=`, `&= ~` and the test of a flag. */
  function Or(w: bv32, f: bv32): bv32 { w | f }

  function AndNot(w: bv32, f: bv32): bv32 { w & !f }

  predicate Test(w: bv32, f: bv32) { w & f != 0 }

  function Top(): bv32 { 0x8000_0000 }

  /** The number that a word stands for. */
  function Num(w: bv32): nat
    decreases w
  {
    if w == 0 then 0 else
    Halves(w);
    Odd(w) + 2 * Num(Half(w))
  }

  lemma Halves(w: bv32)
    requires w != 0
    ensures Half(w) < w
  {}

  lemma ZeroHalf()
    ensures Half(0) == 0 && Odd(0) == 0
  {}

  lemma Unfold(w: bv32)
    ensures Num(w) == Odd(w) + 2 * Num(Half(w)) && Num(0) == 0
  {
    ZeroHalf();
    hide Half, Odd;
  }

  /** The word of a number. */
  function WordOf(n: nat): bv32 { if n == 0 then 0 else Twice(WordOf(n / 2), n % 2 == 1) }

  /** The number in the low eight bits: what is left when a word is stored in a byte. */
  function Octet(w: bv32): (n: nat)
    ensures n < 256
  {
    Nibble(w) + 16 * Nibble(Half(Half(Half(Half(w)))))
  }

  function Nibble(w: bv32): (n: nat)
    ensures n < 16
  {
    Odd(w) + 2 * Odd(Half(w)) + 4 * Odd(Half(Half(w))) + 8 * Odd(Half(Half(Half(w))))
  }

  lemma FourBits(w: bv32)
    ensures Num(w) == Nibble(w) + 16 * Num(Half(Half(Half(Half(w)))))
  {
    Unfold(w);
    Unfold(Half(w));
    Unfold(Half(Half(w)));
    Unfold(Half(Half(Half(w))));
    hide Num, Odd, Half;
  }

  lemma EightHalves(w: bv32)
    ensures Half(Half(Half(Half(Half(Half(Half(Half(w)))))))) == High(w)
  {}

  /** Eight bits at a time. */
  lemma Bytewise(w: bv32)
    ensures Num(w) == Octet(w) + 256 * Num(High(w))
  {
    hide Num, Nibble, Half, High;
    var v := Half(Half(Half(Half(w))));
    FourBits(w);
    FourBits(v);
    EightHalves(w);
  }

  lemma FourBytes(w: bv32)
    ensures High(High(High(High(w)))) == 0
  {}

  lemma Octets(w: bv32)
    ensures Num(w) == Octet(w) + 256 * Octet(High(w)) + 0x1_0000 * Octet(High(High(w))) + 0x100_0000 * Octet(High(High(High(w))))
  {
    hide *;
    FourBytes(w);
    Bytewise(w);
    Bytewise(High(w));
    Bytewise(High(High(w)));
    Bytewise(High(High(High(w))));
    Unfold(0);
  }

  /** A word stands for a number of 32 bits. */
  lemma Bound(w: bv32)
    ensures Num(w) < WRAP
  {
    hide Num, Octet, High;
    Octets(w);
  }

  predicate OneBit(t: bv32) { t != 0 && t & (t - 1) == 0 }

  lemma NextBit(w: bv32, t: bv32)
    requires OneBit(t) && t != 1
    ensures OneBit(Half(t)) && Odd(t) == 0 && Half(t) < t
    ensures Odd(AndNot(w, t)) == Odd(w) && Half(AndNot(w, t)) == AndNot(Half(w), Half(t))
    ensures Test(w, t) == Test(Half(w), Half(t))
  {}

  lemma LastBit(w: bv32)
    requires Test(w, 1)
    ensures Odd(w) == 1 && Odd(AndNot(w, 1)) == 0 && Half(AndNot(w, 1)) == Half(w) && Half(1) == 0 && Odd(1) == 1
  {}

  /** Clearing a bit takes its value away. */
  lemma {:induction false} ClearBit(w: bv32, t: bv32)
    requires OneBit(t) && Test(w, t)
    ensures Num(w) == Num(AndNot(w, t)) + Num(t)
    decreases t
  {
    hide *;
    Unfold(w);
    Unfold(AndNot(w, t));
    Unfold(t);
    if t == 1 {
      LastBit(w);
    } else {
      NextBit(w, t);
      ClearBit(Half(w), Half(t));
    }
  }

  lemma TopOctets()
    ensures Octet(Top()) == 0 && Octet(High(Top())) == 0 && Octet(High(High(Top()))) == 0 && Octet(High(High(High(Top())))) == 128
    ensures OneBit(Top())
  {}

  lemma TopValue()
    ensures Num(Top()) == 0x8000_0000 && OneBit(Top())
  {
    hide *;
    Octets(Top());
    TopOctets();
  }

  lemma TwiceFacts(w: bv32, bit: bool)
    ensures Half(Twice(w, bit)) == AndNot(w, Top()) && Odd(Twice(w, bit)) == if bit then 1 else 0
    ensures !Test(w, Top()) ==> AndNot(w, Top()) == w
  {}

  /** Shifting a bit in doubles the number, and the top bit falls out. */
  lemma TwiceNum(w: bv32, bit: bool)
    ensures Num(Twice(w, bit)) == (2 * Num(w) + (if bit then 1 else 0)) % WRAP
  {
    hide Num, Twice, AndNot, Test, Top, Half, Odd, OneBit;
    TwiceFacts(w, bit);
    Unfold(Twice(w, bit));
    Bound(w);
    Bound(Twice(w, bit));
    TopValue();
    if Test(w, Top()) {
      ClearBit(w, Top());
    }
    Wrapped(2 * Num(w) + (if bit then 1 else 0), Num(Twice(w, bit)));
  }

  lemma Wrapped(x: nat, y: nat)
    ensures y < WRAP && (x == y || x == y + WRAP) ==> y == x % WRAP
  {}

  /** Setting the last bit. */
  lemma SetLast(w: bv32)
    ensures Num(Or(w, 1)) == if Num(w) % 2 == 0 then Num(w) + 1 else Num(w)
  {
    Unfold(w);
    Unfold(Or(w, 1));
    SetFacts(w);
    hide *;
  }

  lemma SetFacts(w: bv32)
    ensures Half(Or(w, 1)) == Half(w) && Odd(Or(w, 1)) == 1
  {}

  /** What is stored in a byte, and the low half of it. */
  lemma LowByte(w: bv32)
    ensures Octet(w) == Num(w) % 256 && Nibble(w) == Num(w) % 16 == Octet(w) % 16
  {
    hide *;
    Bytewise(w);
    FourBits(w);
    OctetNibble(w);
    LowPart(Num(w), Octet(w), Num(High(w)));
  }

  lemma OctetNibble(w: bv32)
    ensures Octet(w) % 16 == Nibble(w) && Octet(w) < 256
  {
    hide Nibble, Half;
  }

  lemma LowPart(n: nat, o: nat, h: nat)
    requires n == o + 256 * h && o < 256
    ensures o == n % 256 && n % 16 == o % 16
  {
    Rest256(n, h, o);
    Rest16(o, o / 16, o % 16);
    Rest16(n, o / 16 + 16 * h, o % 16);
  }

  lemma Rest256(n: nat, q: nat, r: nat)
    requires n == 256 * q + r && r < 256
    ensures n % 256 == r
  {}

  lemma Rest16(n: nat, q: nat, r: nat)
    requires n == 16 * q + r && r < 16
    ensures n % 16 == r
  {}

  lemma Bit7(w: bv32)
    ensures Test(w, 0x80) <==> Odd(Half(Half(Half(Half(Half(Half(Half(w)))))))) == 1
  {}

  lemma HighNibble(w: bv32)
    ensures Octet(w) / 128 == Odd(Half(Half(Half(Half(Half(Half(Half(w))))))))
  {
    hide Odd, Half;
  }

  /** The test of bit 7. */
  lemma TestTop(w: bv32)
    ensures Test(w, 0x80) <==> (Num(w) / 128) % 2 == 1
  {
    Bit7(w);
    HighNibble(w);
    LowByte(w);
    hide Num, Nibble, Half, High, Odd, Octet, Test;
  }

  lemma SameHalves(v: bv32, w: bv32)
    requires Half(v) == Half(w) && Odd(v) == Odd(w)
    ensures v == w
  {}

  /** A word is known by its number. */
  lemma {:induction false} SameNum(v: bv32, w: bv32)
    requires Num(v) == Num(w)
    ensures v == w
    decreases v
  {
    hide *;
    Unfold(v);
    Unfold(w);
    if v != 0 {
      Halves(v);
      SameNum(Half(v), Half(w));
      SameHalves(v, w);
    } else if w != 0 {
      NotZero(w);
    }
  }

  lemma {:induction false} NotZero(w: bv32)
    requires w != 0
    ensures Num(w) > 0
    decreases w
  {
    hide *;
    Unfold(w);
    if Half(w) != 0 {
      Halves(w);
      NotZero(Half(w));
    } else {
      OnlyOne(w);
    }
  }

  lemma OnlyOne(w: bv32)
    requires w != 0 && Half(w) == 0
    ensures Odd(w) == 1
  {}

  /** Numbers and words correspond. */
  lemma {:induction false} WordNum(n: nat)
    requires n < WRAP
    ensures Num(WordOf(n)) == n
  {
    hide Num, Twice, Half;
    if n > 0 {
      WordNum(n / 2);
      TwiceNum(WordOf(n / 2), n % 2 == 1);
    } else {
      Unfold(0);
    }
  }

  lemma NumWord(w: bv32)
    ensures WordOf(Num(w)) == w
  {
    hide *;
    Bound(w);
    WordNum(Num(w));
    SameNum(WordOf(Num(w)), w);
  }
}
