/** 32-bit words as four bytes in memory, in the device's own order or swapped. */
module Words {
  type Byte = x: int | 0 <= x < 256

  const WRAP: nat := 0x1_0000_0000

  /** memcpy of a little-endian word, after yaffs_do_endian when `swap` is set. */
  function Put(n: nat, swap: bool): (b: seq<Byte>)
    ensures |b| == 4
  {
    var b0: Byte, b1: Byte, b2: Byte, b3: Byte := n % 256, (n / 0x100) % 256, (n / 0x1_0000) % 256, (n / 0x100_0000) % 256;
    if swap then [b3, b2, b1, b0] else [b0, b1, b2, b3]
  }

  function Get(b: seq<Byte>, swap: bool): (n: nat)
    requires |b| == 4
    ensures n < WRAP
  {
    if swap then Join(b[3], b[2], b[1], b[0]) else Join(b[0], b[1], b[2], b[3])
  }

  function Join(a: Byte, b: Byte, c: Byte, d: Byte): (n: nat)
    ensures n < WRAP
  {
    a + 0x100 * b + 0x1_0000 * c + 0x100_0000 * d
  }

  lemma Digits(n: nat)
    requires n < WRAP
    ensures Join(n % 256, (n / 0x100) % 256, (n / 0x1_0000) % 256, (n / 0x100_0000) % 256) == n
  {
    var q1, q2, q3 := n / 0x100, n / 0x1_0000, n / 0x100_0000;
    assert q2 == q1 / 0x100 && q3 == q2 / 0x100;
  }

  /** A stored word is read back, whatever the byte order, as long as both sides agree on it. */
  lemma RoundTrip(n: nat, swap: bool)
    requires n < WRAP
    ensures Get(Put(n, swap), swap) == n
  {
    hide Join;
    Digits(n);
  }

  /** The lowest byte comes first, or last when the order is swapped. */
  lemma LowFirst(n: nat)
    requires n < WRAP
    ensures var b: seq<int> := Put(n, false); n == b[0] + 0x100 * b[1] + 0x1_0000 * b[2] + 0x100_0000 * b[3]
    ensures var b: seq<int> := Put(n, true); n == b[3] + 0x100 * b[2] + 0x1_0000 * b[1] + 0x100_0000 * b[0]
  {
    Digits(n);
  }

  function Zeros(n: nat): (z: seq<Byte>)
    ensures |z| == n
  {
    seq(n, _ => 0)
  }
}
