/** Bytes sent from the top bit down: what the two shift registers hold on the way. */
module ShiftBits {
  /** 2^n for the bits of a byte. */
  function P2(n: nat): (p: nat)
    ensures p > 0
  {
    if n == 0 then 1 else if n == 1 then 2 else if n == 2 then 4 else if n == 3 then 8 else if n == 4 then 16
    else if n == 5 then 32 else if n == 6 then 64 else if n == 7 then 128 else 256
  }

  /** The sender's shift register when `n` bits of byte `b` are still to go. */
  function ToGo(b: nat, n: nat): nat
    requires n <= 8
  {
    b * P2(8 - n)
  }

  /** What the receiver's shift register will hold once they have come in. */
  function Value(tmp: nat, b: nat, n: nat): nat
    requires n <= 8
  {
    tmp * P2(n) + b % P2(n)
  }

  function Bit(b: nat, n: nat): nat
    requires 1 <= n <= 8
  {
    (b / P2(n - 1)) % 2
  }

  lemma Tops0(b: nat)
    requires b < 256
    ensures (b * 128 / 128) % 2 == (b / 1) % 2 && (b * 128 * 2) % 0x1_0000_0000 == b * 256
    ensures (b * 64 / 128) % 2 == (b / 2) % 2 && (b * 64 * 2) % 0x1_0000_0000 == b * 128
  {}

  lemma Tops1(b: nat)
    requires b < 256
    ensures (b * 32 / 128) % 2 == (b / 4) % 2 && (b * 32 * 2) % 0x1_0000_0000 == b * 64
    ensures (b * 16 / 128) % 2 == (b / 8) % 2 && (b * 16 * 2) % 0x1_0000_0000 == b * 32
  {}

  lemma Tops2(b: nat)
    requires b < 256
    ensures (b * 8 / 128) % 2 == (b / 16) % 2 && (b * 8 * 2) % 0x1_0000_0000 == b * 16
    ensures (b * 4 / 128) % 2 == (b / 32) % 2 && (b * 4 * 2) % 0x1_0000_0000 == b * 8
  {}

  lemma Tops3(b: nat)
    requires b < 256
    ensures (b * 2 / 128) % 2 == (b / 64) % 2 && (b * 2 * 2) % 0x1_0000_0000 == b * 4
    ensures (b * 1 / 128) % 2 == (b / 128) % 2 && (b * 1 * 2) % 0x1_0000_0000 == b * 2
  {}

  lemma Divided(b: nat, k: nat, q: nat, r: nat)
    requires b == k * q + r && r < k
    ensures b / k == q && b % k == r
  {
    var d := b / k - q;
    assert b == k * (b / k) + b % k;
    assert k * d == r - b % k;
  }

  lemma Halved(b: nat, k: nat, kk: nat)
    requires k > 0 && kk == k + k
    ensures ((b / k) % 2) * k + b % k == b % kk
  {
    var q, r := b / kk, b % kk;
    assert b == kk * q + r;
    Doubled(k, kk, q);
    if r < k { Divided(b, k, 2 * q, r); } else { Divided(b, k, 2 * q + 1, r - k); }
    var bit := (b / k) % 2;
    assert bit == if r < k then 0 else 1;
    assert bit * k == if r < k then 0 else k;
  }

  lemma Doubled(k: nat, kk: nat, q: nat)
    requires kk == k + k
    ensures kk * q == k * (2 * q) && k * (2 * q + 1) == kk * q + k
  {
  }

  lemma TopIsBit(b: nat, n: nat)
    requires 1 <= n <= 8 && b < 256
    ensures (ToGo(b, n) / 128) % 2 == Bit(b, n)
    ensures (ToGo(b, n) * 2) % 0x1_0000_0000 == ToGo(b, n - 1)
  {
    Tops0(b);
    Tops1(b);
    Tops2(b);
    Tops3(b);
  }

  lemma Regroup(tmp: nat, bit: nat, k: nat, kk: nat)
    requires kk == k + k
    ensures (2 * tmp + bit) * k == tmp * kk + bit * k
  {
  }

  /** One bit moved over keeps the value. */
  lemma ValueStep(tmp: nat, b: nat, n: nat)
    requires 1 <= n <= 8 && b < 256
    ensures Value(2 * tmp + Bit(b, n), b, n - 1) == Value(tmp, b, n)
  {
    Halved(b, P2(n - 1), P2(n));
    Regroup(tmp, Bit(b, n), P2(n - 1), P2(n));
  }

  /** The bits of a byte that are in, one more of them. */
  lemma PrefixStep(b: nat, n: nat)
    requires 1 <= n <= 8 && b < 256
    ensures 2 * (b / P2(n)) + Bit(b, n) == b / P2(n - 1)
    ensures P2(0) == 1 && b / P2(8) == 0
  {}
}
