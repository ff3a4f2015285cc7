/** Drawing a one-bit image into a framebuffer of 32-bit words: the fast path, which takes whole words from
    tables. */
module ImageBlit {
  import opened WordBytes

  /** A bitmap, its rows padded to whole bytes, and the two colours. */
  datatype Image = Image(width: nat, height: nat, data: seq<bv8>, fg: Word, bg: Word)

  /** Bits of a pixel, and where the image goes: first word, and words of a line. */
  datatype Target = Target(bpp: nat, base: nat, pitch: nat)

  predicate Depth(bpp: nat) { bpp == 8 || bpp == 16 || bpp == 32 }

  /** Pixels of a word. */
  function Ppw(bpp: nat): (n: nat)
    requires Depth(bpp)
    ensures n == 4 || n == 2 || n == 1
  {
    32 / bpp
  }

  function Words(width: nat, bpp: nat): nat
    requires Depth(bpp)
  {
    width / Ppw(bpp)
  }

  function Spitch(width: nat): nat { (width + 7) / 8 }

  /** A colour below 2^bpp. */
  predicate InRange(c: Word, bpp: nat)
  {
    (bpp == 8 ==> c.b3 == 0 && c.b2 == 0 && c.b1 == 0) && (bpp == 16 ==> c.b3 == 0 && c.b2 == 0)
  }

  /** 1 << l and b >> s. */
  function OneBit(l: nat): bv8
    requires l < 8
  {
    (1 as bv8) << (l as bv8)
  }

  function Shr(b: bv8, s: nat): bv8
    requires s < 8
  {
    b >> (s as bv8)
  }

  // ----- What is to be written

  function At(row: seq<bv8>, i: nat): bv8 { if i < |row| then row[i] else 0 }

  /** Pixel `x` of a row of bytes is set; the first pixel is the highest bit. */
  predicate Set(row: seq<bv8>, x: nat) { On(At(row, x / 8), 7 - x % 8) }

  predicate On(b: bv8, l: nat)
    requires l < 8
  {
    b & OneBit(l) != 0
  }

  function Colour(b: bool, fg: Word, bg: Word): Word { if b then fg else bg }

  /** The first `n` pixels of word `k`, from the low bits up. */
  function Partial(row: seq<bv8>, bpp: nat, k: nat, n: nat, fg: Word, bg: Word): Word
    requires Depth(bpp)
  {
    if n == 0 then ZERO else
    OrW(Partial(row, bpp, k, n - 1, fg, bg), ShlBytes(Colour(Set(row, k * Ppw(bpp) + n - 1), fg, bg), (n - 1) * bpp / 8))
  }

  function Pixels(row: seq<bv8>, bpp: nat, k: nat, fg: Word, bg: Word): Word
    requires Depth(bpp)
  {
    Partial(row, bpp, k, Ppw(bpp), fg, bg)
  }

  /** The first `n` words of a row, written from `at` on. */
  function Line(fb: seq<Word>, at: nat, row: seq<bv8>, bpp: nat, n: nat, fg: Word, bg: Word): (r: seq<Word>)
    requires Depth(bpp) && at + n <= |fb|
    ensures |r| == |fb|
  {
    if n == 0 then fb else
    Line(fb, at, row, bpp, n - 1, fg, bg)[at + n - 1 := Pixels(row, bpp, n - 1, fg, bg)]
  }

  /** Whole words, all of them on the screen, as the fast path wants it. */
  predicate Fits(m: Image, t: Target, size: nat)
  {
    && Depth(t.bpp) && m.width % Ppw(t.bpp) == 0 && |m.data| == m.height * Spitch(m.width)
    && (m.height > 0 ==> t.base + (m.height - 1) * t.pitch + Words(m.width, t.bpp) <= size)
  }

  function Row(m: Image, y: nat): seq<bv8>
    requires y < m.height && |m.data| == m.height * Spitch(m.width)
  {
    RowFits(m, y);
    m.data[y * Spitch(m.width)..(y + 1) * Spitch(m.width)]
  }

  lemma RowFits(m: Image, y: nat)
    requires y < m.height
    ensures y * Spitch(m.width) <= (y + 1) * Spitch(m.width) == y * Spitch(m.width) + Spitch(m.width) <= m.height * Spitch(m.width)
  {
    Scaled(y + 1, m.height, Spitch(m.width));
    Scaled(y, y + 1, Spitch(m.width));
  }

  lemma LineFits(m: Image, t: Target, size: nat, y: nat)
    requires Fits(m, t, size) && y < m.height
    ensures t.base + y * t.pitch + Words(m.width, t.bpp) <= size && (y + 1) * t.pitch == y * t.pitch + t.pitch
  {
    Scaled(y, m.height - 1, t.pitch);
    hide Spitch, Words;
  }

  lemma Scaled(a: nat, b: nat, k: nat)
    requires a <= b
    ensures a * k <= b * k && (a + 1) * k == a * k + k
  {}

  /** The rows of the bitmap follow each other, and each has as few bytes as hold its bits. */
  lemma RowBytes(m: Image, y: nat)
    requires y < m.height && |m.data| == m.height * Spitch(m.width)
    ensures var n := |Row(m, y)|;
      && m.width <= 8 * n < m.width + 8 && |m.data| == m.height * n
      && y * n + n <= |m.data| && Row(m, y) == m.data[y * n..y * n + n]
  {
    RowFits(m, y);
    var n := Spitch(m.width);
    assert m.width <= 8 * n < m.width + 8;
    hide Spitch;
    assert (y + 1) * n == y * n + n;
  }

  /** Row `y` is written. */
  function RowOn(fb: seq<Word>, m: Image, t: Target, y: nat): (r: seq<Word>)
    requires Fits(m, t, |fb|) && y < m.height
    ensures |r| == |fb|
  {
    LineFits(m, t, |fb|, y);
    hide Spitch, Pixels, Words;
    Line(fb, t.base + y * t.pitch, Row(m, y), t.bpp, Words(m.width, t.bpp), m.fg, m.bg)
  }

  /** The framebuffer after the first `n` rows. */
  function Rows(fb: seq<Word>, m: Image, t: Target, n: nat): (r: seq<Word>)
    requires Fits(m, t, |fb|) && n <= m.height
    ensures |r| == |fb|
  {
    if n == 0 then fb else
    hide RowOn;
    RowOn(Rows(fb, m, t, n - 1), m, t, n - 1)
  }

  lemma RowOnIs(fb: seq<Word>, m: Image, t: Target, y: nat, at: nat, s: nat, k: nat)
    requires Fits(m, t, |fb|) && y < m.height && at == t.base + y * t.pitch && k == Words(m.width, t.bpp) && at + k <= |fb|
    requires s == y * Spitch(m.width) && s + Spitch(m.width) == (y + 1) * Spitch(m.width) <= |m.data|
    ensures RowOn(fb, m, t, y) == Line(fb, at, m.data[s..s + Spitch(m.width)], t.bpp, k, m.fg, m.bg)
  {
    hide Line, Spitch, Words;
  }

  // ----- The tables

  function Byte(b: bool): bv8 { if b then 0xff else 0x00 }

  /** The bytes of the pixels named by four bits, the first pixel in the low byte. */
  function Tab8(n: bv8): (w: Word)
    requires n < 16
    ensures w == Word(Byte(n & 1 != 0), Byte(n & 2 != 0), Byte(n & 4 != 0), Byte(n & 8 != 0))
  {
    match n
    case 0 => Word(0x00, 0x00, 0x00, 0x00)
    case 1 => Word(0xff, 0x00, 0x00, 0x00)
    case 2 => Word(0x00, 0xff, 0x00, 0x00)
    case 3 => Word(0xff, 0xff, 0x00, 0x00)
    case 4 => Word(0x00, 0x00, 0xff, 0x00)
    case 5 => Word(0xff, 0x00, 0xff, 0x00)
    case 6 => Word(0x00, 0xff, 0xff, 0x00)
    case 7 => Word(0xff, 0xff, 0xff, 0x00)
    case 8 => Word(0x00, 0x00, 0x00, 0xff)
    case 9 => Word(0xff, 0x00, 0x00, 0xff)
    case 10 => Word(0x00, 0xff, 0x00, 0xff)
    case 11 => Word(0xff, 0xff, 0x00, 0xff)
    case 12 => Word(0x00, 0x00, 0xff, 0xff)
    case 13 => Word(0xff, 0x00, 0xff, 0xff)
    case 14 => Word(0x00, 0xff, 0xff, 0xff)
    case _ => Word(0xff, 0xff, 0xff, 0xff)
  }

  function Tab16(n: bv8): (w: Word)
    requires n < 4
    ensures w == Word(Byte(n & 1 != 0), Byte(n & 1 != 0), Byte(n & 2 != 0), Byte(n & 2 != 0))
  {
    match n
    case 0 => Word(0x00, 0x00, 0x00, 0x00)
    case 1 => Word(0xff, 0xff, 0x00, 0x00)
    case 2 => Word(0x00, 0x00, 0xff, 0xff)
    case _ => Word(0xff, 0xff, 0xff, 0xff)
  }

  function Tab32(n: bv8): (w: Word)
    requires n < 2
    ensures w == Word(Byte(n & 1 != 0), Byte(n & 1 != 0), Byte(n & 1 != 0), Byte(n & 1 != 0))
  {
    if n == 0 then Word(0x00, 0x00, 0x00, 0x00) else Word(0xff, 0xff, 0xff, 0xff)
  }

  /** The entry for the pixels of `b` from bit `shift` on. */
  function Entry(bpp: nat, b: bv8, shift: nat): Word
    requires Depth(bpp) && shift < 8
  {
    Masked(Shr(b, shift));
    if bpp == 8 then Tab8(Shr(b, shift) & 15) else if bpp == 16 then Tab16(Shr(b, shift) & 3) else Tab32(Shr(b, shift) & 1)
  }

  lemma Masked(b: bv8)
    ensures b & 15 < 16 && b & 3 < 4 && b & 1 < 2
  {}

  /** A colour in every pixel of a word. */
  function Repeat(c: Word, bpp: nat, n: nat): Word { if n == 0 then c else OrW(ShlBytes(Repeat(c, bpp, n - 1), bpp / 8), c) }

  function Mix(mask: Word, fgx: Word, bgx: Word): Word { XorW(AndW(mask, XorW(fgx, bgx)), bgx) }

  // ----- One word of the fast path

  lemma MixByte(f: bv8, b: bv8, on: bool)
    ensures X(A(Byte(on), X(f, b)), b) == if on then f else b
  {
    assert (0xff & (f ^ b)) ^ b == f && (0x00 & (f ^ b)) ^ b == b;
  }

  lemma OrZero(a: bv8)
    ensures O(a, 0) == a && O(0, a) == a && O(0, 0) == 0
  {}

  /** Four pixels of one byte each. */
  lemma Mixed8(p0: bool, p1: bool, p2: bool, p3: bool, fg: Word, bg: Word)
    requires InRange(fg, 8) && InRange(bg, 8)
    ensures Mix(Word(Byte(p3), Byte(p2), Byte(p1), Byte(p0)), Repeat(fg, 8, 3), Repeat(bg, 8, 3)) ==
      Word(Colour(p3, fg, bg).b0, Colour(p2, fg, bg).b0, Colour(p1, fg, bg).b0, Colour(p0, fg, bg).b0)
  {
    Repeat8(fg);
    Repeat8(bg);
    MixByte(fg.b0, bg.b0, p0);
    MixByte(fg.b0, bg.b0, p1);
    MixByte(fg.b0, bg.b0, p2);
    MixByte(fg.b0, bg.b0, p3);
    hide X, A, Byte, Repeat;
  }

  lemma Repeat8(c: Word)
    requires InRange(c, 8)
    ensures Repeat(c, 8, 3) == Word(c.b0, c.b0, c.b0, c.b0)
  {
    OrZero(c.b0);
    hide O;
    assert Repeat(c, 8, 1) == Word(0, 0, c.b0, c.b0);
    assert Repeat(c, 8, 2) == Word(0, c.b0, c.b0, c.b0);
  }

  lemma Pixels8(row: seq<bv8>, k: nat, fg: Word, bg: Word)
    requires InRange(fg, 8) && InRange(bg, 8)
    ensures Pixels(row, 8, k, fg, bg) ==
      Word(Colour(Set(row, 4 * k + 3), fg, bg).b0, Colour(Set(row, 4 * k + 2), fg, bg).b0,
           Colour(Set(row, 4 * k + 1), fg, bg).b0, Colour(Set(row, 4 * k), fg, bg).b0)
  {
    var w := 4 * k;
    var c0, c1, c2, c3 := Colour(Set(row, w), fg, bg), Colour(Set(row, w + 1), fg, bg), Colour(Set(row, w + 2), fg, bg), Colour(Set(row, w + 3), fg, bg);
    Four(row, k, w, fg, bg);
    ColourIn(Set(row, w), fg, bg, 8);
    ColourIn(Set(row, w + 1), fg, bg, 8);
    ColourIn(Set(row, w + 2), fg, bg, 8);
    ColourIn(Set(row, w + 3), fg, bg, 8);
    hide *;
    Or8(c0, c1, c2, c3);
  }

  lemma ColourIn(p: bool, fg: Word, bg: Word, bpp: nat)
    requires InRange(fg, bpp) && InRange(bg, bpp)
    ensures InRange(Colour(p, fg, bg), bpp)
  {
    hide InRange;
  }

  lemma Four(row: seq<bv8>, k: nat, w: nat, fg: Word, bg: Word)
    requires w == 4 * k
    ensures Pixels(row, 8, k, fg, bg) ==
      OrW(OrW(OrW(OrW(ZERO, ShlBytes(Colour(Set(row, w), fg, bg), 0)), ShlBytes(Colour(Set(row, w + 1), fg, bg), 1)),
        ShlBytes(Colour(Set(row, w + 2), fg, bg), 2)), ShlBytes(Colour(Set(row, w + 3), fg, bg), 3))
  {
    hide OrW, ShlBytes, Set, Colour, Partial;
    PartialStep(row, 8, k, 0, w, 0, fg, bg);
    PartialStep(row, 8, k, 1, w + 1, 1, fg, bg);
    PartialStep(row, 8, k, 2, w + 2, 2, fg, bg);
    PartialStep(row, 8, k, 3, w + 3, 3, fg, bg);
  }

  /** One more pixel: number `x` of the row, `sh` bytes up. */
  lemma PartialStep(row: seq<bv8>, bpp: nat, k: nat, n: nat, x: nat, sh: nat, fg: Word, bg: Word)
    requires Depth(bpp) && x == k * Ppw(bpp) + n && sh == n * bpp / 8
    ensures Partial(row, bpp, k, 0, fg, bg) == ZERO
    ensures Partial(row, bpp, k, n + 1, fg, bg) == OrW(Partial(row, bpp, k, n, fg, bg), ShlBytes(Colour(Set(row, x), fg, bg), sh))
  {
    hide OrW, ShlBytes, Set, Colour;
  }

  lemma Or8(c0: Word, c1: Word, c2: Word, c3: Word)
    requires InRange(c0, 8) && InRange(c1, 8) && InRange(c2, 8) && InRange(c3, 8)
    ensures OrW(OrW(OrW(OrW(ZERO, ShlBytes(c0, 0)), ShlBytes(c1, 1)), ShlBytes(c2, 2)), ShlBytes(c3, 3)) == Word(c3.b0, c2.b0, c1.b0, c0.b0)
  {
    OrZero(c0.b0);
    OrZero(c1.b0);
    OrZero(c2.b0);
    OrZero(c3.b0);
    hide O;
  }

  /** Two pixels of two bytes. */
  lemma Mixed16(p0: bool, p1: bool, fg: Word, bg: Word)
    requires InRange(fg, 16) && InRange(bg, 16)
    ensures Mix(Word(Byte(p1), Byte(p1), Byte(p0), Byte(p0)), Repeat(fg, 16, 1), Repeat(bg, 16, 1)) ==
      Word(Colour(p1, fg, bg).b1, Colour(p1, fg, bg).b0, Colour(p0, fg, bg).b1, Colour(p0, fg, bg).b0)
  {
    Repeat16(fg);
    Repeat16(bg);
    MixByte(fg.b0, bg.b0, p0);
    MixByte(fg.b1, bg.b1, p0);
    MixByte(fg.b0, bg.b0, p1);
    MixByte(fg.b1, bg.b1, p1);
    hide X, A, Byte, Repeat;
  }

  lemma Repeat16(c: Word)
    requires InRange(c, 16)
    ensures Repeat(c, 16, 1) == Word(c.b1, c.b0, c.b1, c.b0)
  {
    OrZero(c.b0);
    OrZero(c.b1);
    hide O;
    assert Repeat(c, 16, 0) == c;
  }

  lemma Or16(c0: Word, c1: Word)
    requires InRange(c0, 16) && InRange(c1, 16)
    ensures OrW(OrW(ZERO, ShlBytes(c0, 0)), ShlBytes(c1, 2)) == Word(c1.b1, c1.b0, c0.b1, c0.b0)
  {
    OrZero(c0.b0);
    OrZero(c0.b1);
    OrZero(c1.b0);
    OrZero(c1.b1);
    hide O;
  }

  lemma Pixels16(row: seq<bv8>, k: nat, fg: Word, bg: Word)
    requires InRange(fg, 16) && InRange(bg, 16)
    ensures var c0, c1 := Colour(Set(row, 2 * k), fg, bg), Colour(Set(row, 2 * k + 1), fg, bg);
      Pixels(row, 16, k, fg, bg) == Word(c1.b1, c1.b0, c0.b1, c0.b0)
  {
    var w := 2 * k;
    TwoPixels(row, k, w, fg, bg);
    ColourIn(Set(row, w), fg, bg, 16);
    ColourIn(Set(row, w + 1), fg, bg, 16);
    hide *;
    Or16(Colour(Set(row, w), fg, bg), Colour(Set(row, w + 1), fg, bg));
  }

  lemma TwoPixels(row: seq<bv8>, k: nat, w: nat, fg: Word, bg: Word)
    requires w == 2 * k
    ensures Pixels(row, 16, k, fg, bg) ==
      OrW(OrW(ZERO, ShlBytes(Colour(Set(row, w), fg, bg), 0)), ShlBytes(Colour(Set(row, w + 1), fg, bg), 2))
  {
    hide OrW, ShlBytes, Set, Colour, Partial;
    PartialStep(row, 16, k, 0, w, 0, fg, bg);
    PartialStep(row, 16, k, 1, w + 1, 2, fg, bg);
  }

  /** One pixel fills the word. */
  lemma Mixed32(p: bool, fg: Word, bg: Word)
    ensures Mix(Word(Byte(p), Byte(p), Byte(p), Byte(p)), Repeat(fg, 32, 0), Repeat(bg, 32, 0)) == Colour(p, fg, bg)
  {
    MixByte(fg.b0, bg.b0, p);
    MixByte(fg.b1, bg.b1, p);
    MixByte(fg.b2, bg.b2, p);
    MixByte(fg.b3, bg.b3, p);
    hide X, A, Byte;
  }

  lemma Or32(c: Word)
    ensures OrW(ZERO, ShlBytes(c, 0)) == c
  {
    OrZero(c.b0);
    OrZero(c.b1);
    OrZero(c.b2);
    OrZero(c.b3);
    hide O;
  }

  lemma Pixels32(row: seq<bv8>, k: nat, fg: Word, bg: Word)
    ensures Pixels(row, 32, k, fg, bg) == Colour(Set(row, k), fg, bg)
  {
    Or32(Colour(Set(row, k), fg, bg));
    hide OrW, ShlBytes, Set, Colour;
    PartialStep(row, 32, k, 0, k, 0, fg, bg);
  }

  // ----- The bits of a byte

  /** The table entries in terms of the bits of the byte. */
  lemma Entry8(b: bv8)
    ensures Entry(8, b, 4) == Word(Byte(On(b, 4)), Byte(On(b, 5)), Byte(On(b, 6)), Byte(On(b, 7)))
    ensures Entry(8, b, 0) == Word(Byte(On(b, 0)), Byte(On(b, 1)), Byte(On(b, 2)), Byte(On(b, 3)))
  {
    Group8(b);
    hide Byte, On, Shr;
  }

  lemma Group8(b: bv8)
    ensures var n := Shr(b, 4) & 15; (n & 8 != 0 <==> On(b, 7)) && (n & 4 != 0 <==> On(b, 6)) && (n & 2 != 0 <==> On(b, 5)) && (n & 1 != 0 <==> On(b, 4))
    ensures var n := Shr(b, 0) & 15; (n & 8 != 0 <==> On(b, 3)) && (n & 4 != 0 <==> On(b, 2)) && (n & 2 != 0 <==> On(b, 1)) && (n & 1 != 0 <==> On(b, 0))
  {
    Shifted(b);
    OnBits(b);
    hide Shr, On;
  }

  lemma Shifted(b: bv8)
    ensures Shr(b, 0) == b && Shr(b, 1) == b >> 1 && Shr(b, 2) == b >> 2 && Shr(b, 3) == b >> 3
    ensures Shr(b, 4) == b >> 4 && Shr(b, 5) == b >> 5 && Shr(b, 6) == b >> 6 && Shr(b, 7) == b >> 7
  {}

  lemma OnBits(b: bv8)
    ensures (On(b, 0) <==> b & 0x01 != 0) && (On(b, 1) <==> b & 0x02 != 0) && (On(b, 2) <==> b & 0x04 != 0) && (On(b, 3) <==> b & 0x08 != 0)
    ensures (On(b, 4) <==> b & 0x10 != 0) && (On(b, 5) <==> b & 0x20 != 0) && (On(b, 6) <==> b & 0x40 != 0) && (On(b, 7) <==> b & 0x80 != 0)
  {
    OneBits();
    hide OneBit;
  }

  lemma OneBits()
    ensures OneBit(0) == 0x01 && OneBit(1) == 0x02 && OneBit(2) == 0x04 && OneBit(3) == 0x08
    ensures OneBit(4) == 0x10 && OneBit(5) == 0x20 && OneBit(6) == 0x40 && OneBit(7) == 0x80
  {}

  lemma Entry16(b: bv8, h: nat)
    requires h == 0 || h == 2 || h == 4 || h == 6
    ensures Entry(16, b, h) == Word(Byte(On(b, h)), Byte(On(b, h)), Byte(On(b, h + 1)), Byte(On(b, h + 1)))
  {
    Group16(b);
    hide Byte, On, Shr;
  }

  lemma Group16(b: bv8)
    ensures var n := Shr(b, 6) & 3; (n & 2 != 0 <==> On(b, 7)) && (n & 1 != 0 <==> On(b, 6))
    ensures var n := Shr(b, 4) & 3; (n & 2 != 0 <==> On(b, 5)) && (n & 1 != 0 <==> On(b, 4))
    ensures var n := Shr(b, 2) & 3; (n & 2 != 0 <==> On(b, 3)) && (n & 1 != 0 <==> On(b, 2))
    ensures var n := Shr(b, 0) & 3; (n & 2 != 0 <==> On(b, 1)) && (n & 1 != 0 <==> On(b, 0))
  {
    Shifted(b);
    OnBits(b);
    hide Shr, On;
  }

  lemma Entry32(b: bv8, h: nat)
    requires h < 8
    ensures Entry(32, b, h) == Word(Byte(On(b, h)), Byte(On(b, h)), Byte(On(b, h)), Byte(On(b, h)))
  {
    Group32(b);
    hide Byte, On, Shr;
  }

  lemma Group32(b: bv8)
    ensures (Shr(b, 7) & 1) & 1 != 0 <==> On(b, 7)
    ensures (Shr(b, 6) & 1) & 1 != 0 <==> On(b, 6)
    ensures (Shr(b, 5) & 1) & 1 != 0 <==> On(b, 5)
    ensures (Shr(b, 4) & 1) & 1 != 0 <==> On(b, 4)
    ensures (Shr(b, 3) & 1) & 1 != 0 <==> On(b, 3)
    ensures (Shr(b, 2) & 1) & 1 != 0 <==> On(b, 2)
    ensures (Shr(b, 1) & 1) & 1 != 0 <==> On(b, 1)
    ensures (Shr(b, 0) & 1) & 1 != 0 <==> On(b, 0)
  {
    Shifted(b);
    OnBits(b);
    hide Shr, On;
  }

  // ----- The two paths agree on a word

  lemma Fast8(row: seq<bv8>, w: nat, x: nat, shift: nat, fg: Word, bg: Word)
    requires InRange(fg, 8) && InRange(bg, 8) && x == 4 * w && shift == 4 - x % 8
    ensures Mix(Entry(8, At(row, x / 8), shift), Repeat(fg, 8, 3), Repeat(bg, 8, 3)) == Pixels(row, 8, w, fg, bg)
  {
    assert Depth(8);
    hide *;
    FourOf(row, w, x, shift);
    MixedRow(row, w, Entry(8, At(row, x / 8), shift), fg, bg);
  }

  lemma MixedRow(row: seq<bv8>, w: nat, e: Word, fg: Word, bg: Word)
    requires InRange(fg, 8) && InRange(bg, 8)
    requires e == Word(Byte(Set(row, 4 * w + 3)), Byte(Set(row, 4 * w + 2)), Byte(Set(row, 4 * w + 1)), Byte(Set(row, 4 * w)))
    ensures Mix(e, Repeat(fg, 8, 3), Repeat(bg, 8, 3)) == Pixels(row, 8, w, fg, bg)
  {
    hide *;
    Pixels8(row, w, fg, bg);
    Mixed8(Set(row, 4 * w), Set(row, 4 * w + 1), Set(row, 4 * w + 2), Set(row, 4 * w + 3), fg, bg);
  }

  lemma FourOf(row: seq<bv8>, w: nat, x: nat, shift: nat)
    requires x == 4 * w && shift == 4 - x % 8
    ensures shift == 0 || shift == 4
    ensures Entry(8, At(row, x / 8), shift) ==
      Word(Byte(Set(row, 4 * w + 3)), Byte(Set(row, 4 * w + 2)), Byte(Set(row, 4 * w + 1)), Byte(Set(row, 4 * w)))
  {
    hide At, On, Entry, Byte;
    Within(x, w);
    Entry8(At(row, x / 8));
  }

  lemma Within(x: nat, w: nat)
    requires x == 4 * w
    ensures x % 8 == 0 || x % 8 == 4
    ensures (x + 1) / 8 == x / 8 && (x + 2) / 8 == x / 8 && (x + 3) / 8 == x / 8
    ensures (x + 1) % 8 == x % 8 + 1 && (x + 2) % 8 == x % 8 + 2 && (x + 3) % 8 == x % 8 + 3
  {
    var q, r := w / 2, 4 * (w % 2);
    Eights(q, r);
    Eights(q, r + 1);
    Eights(q, r + 2);
    Eights(q, r + 3);
  }

  lemma Eights(q: nat, r: nat)
    requires r < 8
    ensures (8 * q + r) / 8 == q && (8 * q + r) % 8 == r
  {}

  lemma Fast16(row: seq<bv8>, w: nat, x: nat, shift: nat, fg: Word, bg: Word)
    requires InRange(fg, 16) && InRange(bg, 16) && x == 2 * w && shift == 6 - x % 8
    ensures Mix(Entry(16, At(row, x / 8), shift), Repeat(fg, 16, 1), Repeat(bg, 16, 1)) == Pixels(row, 16, w, fg, bg)
  {
    hide At, On, Entry, Mix, Repeat, Byte, Colour, Partial, Pixels, InRange;
    assert x % 8 == 0 || x % 8 == 2 || x % 8 == 4 || x % 8 == 6;
    assert (x + 1) / 8 == x / 8;
    Entry16(At(row, x / 8), shift);
    Pixels16(row, w, fg, bg);
    Mixed16(Set(row, x), Set(row, x + 1), fg, bg);
  }

  lemma Fast32(row: seq<bv8>, x: nat, shift: nat, fg: Word, bg: Word)
    requires shift == 7 - x % 8
    ensures Mix(Entry(32, At(row, x / 8), shift), Repeat(fg, 32, 0), Repeat(bg, 32, 0)) == Pixels(row, 32, x, fg, bg)
  {
    hide At, On, Entry, Mix, Repeat, Byte, Colour, Partial, Pixels;
    Entry32(At(row, x / 8), shift);
    Pixels32(row, x, fg, bg);
    Mixed32(Set(row, x), fg, bg);
  }

  /** One table entry gives the word that the pixels give. */
  lemma FastWord(row: seq<bv8>, bpp: nat, w: nat, x: nat, shift: nat, fg: Word, bg: Word)
    requires Depth(bpp) && InRange(fg, bpp) && InRange(bg, bpp) && x == w * Ppw(bpp) && shift + Ppw(bpp) == 8 - x % 8
    ensures Mix(Entry(bpp, At(row, x / 8), shift), Repeat(fg, bpp, Ppw(bpp) - 1), Repeat(bg, bpp, Ppw(bpp) - 1)) == Pixels(row, bpp, w, fg, bg)
  {
    hide Entry, At, Mix, Repeat, Pixels, InRange;
    if bpp == 8 { Fast8(row, w, x, shift, fg, bg); } else if bpp == 16 { Fast16(row, w, x, shift, fg, bg); } else { Fast32(row, x, shift, fg, bg); }
  }

  // ----- The methods

  /** fast_imageblit. */
  method FastBlit(fb: array<Word>, m: Image, t: Target)
    requires Fits(m, t, fb.Length) && InRange(m.fg, t.bpp) && InRange(m.bg, t.bpp)
    modifies fb
    ensures fb[..] == Rows(old(fb[..]), m, t, m.height)
  {
    var ppw := Ppw(t.bpp);
    var fgx := Replicate(m.fg, t.bpp, ppw - 1);
    var bgx := Replicate(m.bg, t.bpp, ppw - 1);
    FastRows(fb, m, t, fgx, bgx);
  }

  /** The rows, with both colours in every pixel of a word. */
  method FastRows(fb: array<Word>, m: Image, t: Target, fgx: Word, bgx: Word)
    requires Fits(m, t, fb.Length) && InRange(m.fg, t.bpp) && InRange(m.bg, t.bpp)
    requires fgx == Repeat(m.fg, t.bpp, Ppw(t.bpp) - 1) && bgx == Repeat(m.bg, t.bpp, Ppw(t.bpp) - 1)
    modifies fb
    ensures fb[..] == Rows(old(fb[..]), m, t, m.height)
  {
    hide Repeat, Line, InRange, Rows, RowOn;
    NoRows(fb[..], m, t);
    var k := Words(m.width, t.bpp);
    WholeWords(m, t, fb.Length, k);
    var spitch := Spitch(m.width);
    hide Spitch;
    var i, dst1, s := 0, t.base, 0;
    while i < m.height
      invariant 0 <= i <= m.height && dst1 == t.base + i * t.pitch && s == i * spitch
      invariant fb[..] == Rows(old(fb[..]), m, t, i)
    {
      NextRow(m, t, fb.Length, i, k);
      OneMore(old(fb[..]), m, t, i);
      RowOnIs(fb[..], m, t, i, dst1, s, k);
      FastLine(fb, m, t, dst1, s, k, fgx, bgx);
      i, dst1, s := i + 1, dst1 + t.pitch, s + spitch;
    }
  }

  method Replicate(c: Word, bpp: nat, n: nat) returns (w: Word)
    ensures w == Repeat(c, bpp, n)
  {
    w := c;
    var i := 0;
    while i < n
      invariant 0 <= i <= n && w == Repeat(c, bpp, i)
    {
      w := OrW(ShlBytes(w, bpp / 8), c);
      i := i + 1;
    }
  }

  lemma NoRows(fb: seq<Word>, m: Image, t: Target)
    requires Fits(m, t, |fb|)
    ensures Rows(fb, m, t, 0) == fb
  {}

  lemma OneMore(fb: seq<Word>, m: Image, t: Target, y: nat)
    requires Fits(m, t, |fb|) && y < m.height
    ensures Rows(fb, m, t, y + 1) == RowOn(Rows(fb, m, t, y), m, t, y)
  {
    hide RowOn;
  }

  /** Where row `y` lies, in the bitmap and on the screen. */
  lemma NextRow(m: Image, t: Target, size: nat, y: nat, k: nat)
    requires Fits(m, t, size) && y < m.height && k == Words(m.width, t.bpp)
    ensures y * Spitch(m.width) + Spitch(m.width) == (y + 1) * Spitch(m.width) <= |m.data|
    ensures t.base + y * t.pitch + k <= size && (y + 1) * t.pitch == y * t.pitch + t.pitch
    ensures 8 * Spitch(m.width) >= m.width
  {
    RowFits(m, y);
    LineFits(m, t, size, y);
  }

  lemma WholeWords(m: Image, t: Target, size: nat, k: nat)
    requires Fits(m, t, size) && k == Words(m.width, t.bpp)
    ensures k * Ppw(t.bpp) == m.width
  {}

  /** One row of it. */
  method FastLine(fb: array<Word>, m: Image, t: Target, dst1: nat, s: nat, k: nat, fgx: Word, bgx: Word)
    requires Depth(t.bpp) && InRange(m.fg, t.bpp) && InRange(m.bg, t.bpp)
    requires fgx == Repeat(m.fg, t.bpp, Ppw(t.bpp) - 1) && bgx == Repeat(m.bg, t.bpp, Ppw(t.bpp) - 1)
    requires dst1 + k <= fb.Length && s + Spitch(m.width) <= |m.data| && k * Ppw(t.bpp) == m.width <= 8 * Spitch(m.width)
    modifies fb
    ensures fb[..] == Line(old(fb[..]), dst1, m.data[s..s + Spitch(m.width)], t.bpp, k, m.fg, m.bg)
  {
    hide InRange, Repeat, Pixels, Entry, Mix, XorW, AndW, Line, Spitch, Ppw;
    ghost var row := m.data[s..s + Spitch(m.width)];
    var ppw := Ppw(t.bpp);
    var dst, shift, src := dst1, 8, s;
    var eorx := XorW(fgx, bgx);
    var j := 0;
    ghost var x := 0;
    LineMore(fb[..], dst1, row, t.bpp, 0, m.fg, m.bg);
    while j < k
      invariant 0 <= j <= k && dst == dst1 + j && x == j * ppw && src == s + x / 8 && shift == 8 - x % 8
      invariant fb[..] == Line(old(fb[..]), dst1, row, t.bpp, j, m.fg, m.bg)
    {
      Aligned(j, k, ppw, x);
      shift := shift - ppw;
      assert m.data[src] == At(row, x / 8);
      FastWord(row, t.bpp, j, x, shift, m.fg, m.bg);
      LineMore(old(fb[..]), dst1, row, t.bpp, j, m.fg, m.bg);
      MixIs(Entry(t.bpp, m.data[src], shift), fgx, bgx);
      fb[dst] := XorW(AndW(Entry(t.bpp, m.data[src], shift), eorx), bgx);
      dst := dst + 1;
      if shift == 0 { shift, src := 8, src + 1; }
      j, x := j + 1, x + ppw;
    }
  }

  lemma MixIs(mask: Word, fgx: Word, bgx: Word)
    ensures Mix(mask, fgx, bgx) == XorW(AndW(mask, XorW(fgx, bgx)), bgx)
  {}

  /** Words never straddle a byte of the bitmap. */
  lemma Aligned(j: nat, k: nat, ppw: nat, x: nat)
    requires (ppw == 4 || ppw == 2 || ppw == 1) && x == j * ppw && j < k
    ensures x % 8 + ppw <= 8 && (j + 1) * ppw == x + ppw <= k * ppw
    ensures if x % 8 + ppw == 8 then (x + ppw) / 8 == x / 8 + 1 && (x + ppw) % 8 == 0 else (x + ppw) / 8 == x / 8 && (x + ppw) % 8 == x % 8 + ppw
  {
    assert (j + 1) * ppw <= k * ppw;
  }

  lemma LineMore(fb: seq<Word>, at: nat, row: seq<bv8>, bpp: nat, n: nat, fg: Word, bg: Word)
    requires Depth(bpp) && at + n <= |fb|
    ensures Line(fb, at, row, bpp, 0, fg, bg) == fb
    ensures at + n < |fb| ==>
      Line(fb, at, row, bpp, n + 1, fg, bg) == Line(fb, at, row, bpp, n, fg, bg)[at + n := Pixels(row, bpp, n, fg, bg)]
  {
    hide Pixels;
  }

  // ----- What is on the screen

  /** Byte `b` of a word, the lowest first. */
  function ByteOf(w: Word, b: nat): bv8 { if b == 0 then w.b0 else if b == 1 then w.b1 else if b == 2 then w.b2 else w.b3 }

  /** Byte `b` of word `k` of a row: that of the colour of its pixel. */
  function Shown(row: seq<bv8>, bpp: nat, k: nat, b: nat, fg: Word, bg: Word): bv8
    requires Depth(bpp)
  {
    ByteOf(Colour(Set(row, k * Ppw(bpp) + b / (bpp / 8)), fg, bg), b % (bpp / 8))
  }

  lemma OrByte(v: Word, w: Word, b: nat)
    requires b < 4
    ensures ByteOf(OrW(v, w), b) == O(ByteOf(v, b), ByteOf(w, b))
  {}

  lemma OrIs(x: bv8)
    ensures O(x, 0) == x && O(0, x) == x
  {}

  /** A colour in its slot. */
  lemma InSlot(c: Word, bpp: nat, i: nat, b: nat)
    requires Depth(bpp) && InRange(c, bpp) && i < Ppw(bpp) && b < 4
    ensures ByteOf(ShlBytes(c, i * bpp / 8), b) == if b / (bpp / 8) == i then ByteOf(c, b % (bpp / 8)) else 0
  {}

  /** A word while it is built up. */
  lemma {:induction false} PartialByte(row: seq<bv8>, bpp: nat, k: nat, n: nat, b: nat, fg: Word, bg: Word)
    requires Depth(bpp) && InRange(fg, bpp) && InRange(bg, bpp) && b < 4 && n <= Ppw(bpp)
    ensures ByteOf(Partial(row, bpp, k, n, fg, bg), b) == if b / (bpp / 8) < n then Shown(row, bpp, k, b, fg, bg) else 0
  {
    hide ByteOf, ShlBytes, OrW, InRange, Set;
    if n == 0 {
      ZeroByte(b);
    } else {
      PartialByte(row, bpp, k, n - 1, b, fg, bg);
      var c, v := Colour(Set(row, k * Ppw(bpp) + n - 1), fg, bg), Partial(row, bpp, k, n - 1, fg, bg);
      InSlot(c, bpp, n - 1, b);
      OrByte(v, ShlBytes(c, (n - 1) * bpp / 8), b);
      OrIs(ByteOf(v, b));
      OrIs(ByteOf(ShlBytes(c, (n - 1) * bpp / 8), b));
      hide Colour, O;
    }
  }

  lemma ZeroByte(b: nat)
    ensures ByteOf(ZERO, b) == 0
  {}

  lemma PixelShown(row: seq<bv8>, bpp: nat, k: nat, b: nat, fg: Word, bg: Word)
    requires Depth(bpp) && InRange(fg, bpp) && InRange(bg, bpp) && b < 4
    ensures ByteOf(Pixels(row, bpp, k, fg, bg), b) == Shown(row, bpp, k, b, fg, bg)
  {
    hide *;
    AllOf(row, bpp, k, b, fg, bg);
    PartialByte(row, bpp, k, Ppw(bpp), b, fg, bg);
  }

  lemma AllOf(row: seq<bv8>, bpp: nat, k: nat, b: nat, fg: Word, bg: Word)
    requires Depth(bpp) && b < 4
    ensures Pixels(row, bpp, k, fg, bg) == Partial(row, bpp, k, Ppw(bpp), fg, bg) && bpp / 8 > 0 && b / (bpp / 8) < Ppw(bpp)
  {
    hide Partial;
  }

  /** The whole line, byte by byte. */
  lemma {:induction false} LineShown(fb: seq<Word>, at: nat, row: seq<bv8>, bpp: nat, n: nat, j: nat, b: nat, fg: Word, bg: Word)
    requires Depth(bpp) && InRange(fg, bpp) && InRange(bg, bpp) && at + n <= |fb| && b < 4 && j < |fb|
    ensures ByteOf(Line(fb, at, row, bpp, n, fg, bg)[j], b) ==
      if at <= j < at + n then Shown(row, bpp, j - at, b, fg, bg) else ByteOf(fb[j], b)
  {
    hide Pixels, Shown, ByteOf, InRange;
    if n > 0 {
      LineShown(fb, at, row, bpp, n - 1, j, b, fg, bg);
      if j == at + n - 1 { PixelShown(row, bpp, n - 1, b, fg, bg); }
    }
  }

  /** The condition under which cfb_imageblit takes the fast path: an aligned start and pitch, whole
      words, and a pixel size that divides a word. */
  predicate FastPath(bpp: nat, startIndex: nat, pitchIndex: nat, width: nat)
  {
    bpp > 0 && 32 % bpp == 0 && startIndex == 0 && pitchIndex == 0 && width % (32 / bpp) == 0 && bpp >= 8 && bpp <= 32
  }

  /** It is exactly the case in which there is a table for the pixel size and no pixel is split. */
  lemma FastPathFits(bpp: nat, startIndex: nat, pitchIndex: nat, width: nat)
    ensures FastPath(bpp, startIndex, pitchIndex, width) <==>
      Depth(bpp) && width % Ppw(bpp) == 0 && startIndex == 0 && pitchIndex == 0
  {
    assert forall d :: 8 <= d <= 32 && 32 % d == 0 ==> d == 8 || d == 16 || d == 32 by { Divisors(); }
  }

  lemma Divisors()
    ensures forall d :: 8 <= d <= 32 && 32 % d == 0 ==> d == 8 || d == 16 || d == 32
  {
    forall d | 8 <= d <= 32 && 32 % d == 0 ensures d == 8 || d == 16 || d == 32 {
      Remainder32(d);
    }
  }

  lemma Remainder32(d: int)
    requires 8 <= d <= 32
    ensures 17 <= d <= 31 ==> 32 % d == 32 - d
    ensures 11 <= d <= 15 ==> 32 % d == 32 - 2 * d
    ensures 9 <= d <= 10 ==> 32 % d == 32 - 3 * d
  {}
}
