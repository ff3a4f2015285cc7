/** 32-bit words, byte by byte. */
module WordBytes {
  datatype Word = Word(b3: bv8, b2: bv8, b1: bv8, b0: bv8)

  const ZERO := Word(0, 0, 0, 0)

  /** Exclusive or, and, or. */
  function X(a: bv8, b: bv8): bv8 { a ^ b }

  function A(a: bv8, b: bv8): bv8 { a & b }

  function O(a: bv8, b: bv8): bv8 { a | b }

  function XorW(a: Word, b: Word): Word { Word(X(a.b3, b.b3), X(a.b2, b.b2), X(a.b1, b.b1), X(a.b0, b.b0)) }

  function AndW(a: Word, b: Word): Word { Word(A(a.b3, b.b3), A(a.b2, b.b2), A(a.b1, b.b1), A(a.b0, b.b0)) }

  function OrW(a: Word, b: Word): Word { Word(O(a.b3, b.b3), O(a.b2, b.b2), O(a.b1, b.b1), O(a.b0, b.b0)) }

  function NotW(a: Word): Word { Word(!a.b3, !a.b2, !a.b1, !a.b0) }

  /** A shift to the left by whole bytes. */
  function ShlBytes(a: Word, n: nat): Word
  {
    if n == 0 then a
    else if n == 1 then Word(a.b2, a.b1, a.b0, 0)
    else if n == 2 then Word(a.b1, a.b0, 0, 0)
    else if n == 3 then Word(a.b0, 0, 0, 0)
    else ZERO
  }

  /** A number below 256 is kept by a byte. */
  lemma {:induction false} EightBits(i: int)
    requires 0 <= i < 256
    ensures (i as bv8) as int == i
    decreases i
  {
    if i > 0 {
      EightBits(i - 1);
      Successor((i - 1) as bv8);
      Back((i - 1) as bv8 + 1);
    }
  }

  lemma Successor(w: bv8)
    requires w != 255
    ensures (w + 1) as int == w as int + 1
  {}

  lemma Back(w: bv8)
    ensures (w as int) as bv8 == w
  {}
}
