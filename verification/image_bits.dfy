/** Drawing a one-bit image pixel by pixel, bit for bit: pixels of any size up to a word from any bit on, across
    words, and lines of any length. */
module ImageBits {
  import opened WordBytes
  import opened ImageBlit

  // ----- Words of 32 bits, the lowest first

  type Bits = b: seq<bool> | |b| == 32 witness seq(32, _ => false)

  function None(): Bits { seq(32, _ => false) }

  function Shl(w: Bits, n: nat): Bits { seq(32, i requires 0 <= i < 32 => i >= n && w[i - n]) }

  function Shr(w: Bits, n: nat): Bits { seq(32, i requires 0 <= i < 32 => i + n < 32 && w[i + n]) }

  function Or(v: Bits, w: Bits): Bits { seq(32, i requires 0 <= i < 32 => v[i] || w[i]) }

  function And(v: Bits, w: Bits): Bits { seq(32, i requires 0 <= i < 32 => v[i] && w[i]) }

  function Not(w: Bits): Bits { seq(32, i requires 0 <= i < 32 => !w[i]) }

  /** fb_shifted_pixels_mask_u32. */
  function From(n: nat): Bits { Shl(Not(None()), n) }

  // ----- What a row becomes

  /** A row of the bitmap, where it starts in its first word, and its pixels. */
  datatype Strip = Strip(row: seq<bv8>, start: nat, bpp: nat, width: nat, fg: Bits, bg: Bits)

  predicate Ok(r: Strip) { r.start < 32 && 1 <= r.bpp <= 32 }

  function Pixel(r: Strip, x: nat): Bits { if Set(r.row, x) then r.fg else r.bg }

  /** The first bit of pixel `x`, counted from the first word on; that of pixel `width` ends the row. */
  function First(r: Strip, x: nat): nat { r.start + x * r.bpp }

  /** The words that a row touches. */
  function Span(r: Strip): nat { (First(r, r.width) + 31) / 32 }

  /** A colour that is shifted to bit `s` sets bit `p`: in its own word, or in the next if the pixel reaches
      into that. */
  predicate Lands(s: nat, bpp: nat, p: nat, c: Bits)
  {
    s <= p < s + 32 && c[p - s] && (p / 32 == s / 32 || (p / 32 == s / 32 + 1 && s % 32 + bpp > 32))
  }

  /** One of the first `n` pixels sets bit `p`. */
  predicate Drawn(r: Strip, n: nat, p: nat)
  {
    n > 0 && (Drawn(r, n - 1, p) || Lands(First(r, n - 1), r.bpp, p, Pixel(r, n - 1)))
  }

  /** Bit `p` once the row is drawn. */
  predicate After(was: bool, r: Strip, p: nat)
  {
    (was && (p < r.start || p >= First(r, r.width))) || Drawn(r, r.width, p)
  }

  function WordAfter(was: Bits, r: Strip, k: nat): Bits { seq(32, b requires 0 <= b < 32 => After(was[b], r, 32 * k + b)) }

  /** The first `n` words of a line that starts with word `at`. */
  function Line(fb: seq<Bits>, at: nat, r: Strip, n: nat): (l: seq<Bits>)
    ensures |l| == |fb|
  {
    seq(|fb|, j requires 0 <= j < |fb| => if at <= j < at + n then WordAfter(fb[j], r, j - at) else fb[j])
  }

  /** `val` before pixel `n`: what the first word keeps, and the pixels so far. */
  function Begun(was: Bits, r: Strip, k: nat, n: nat): Bits
  {
    seq(32, b requires 0 <= b < 32 => (was[b] && 32 * k + b < r.start) || Drawn(r, n, 32 * k + b))
  }

  // ----- One word

  lemma Same(v: Bits, w: Bits)
    requires forall b :: 0 <= b < 32 ==> v[b] == w[b]
    ensures v == w
  {}

  lemma InWord(k: nat, b: nat)
    requires b < 32
    ensures (32 * k + b) / 32 == k && (32 * k + b) % 32 == b
  {}

  /** What the first word keeps; later words begin empty. */
  lemma Starts(was: Bits, r: Strip)
    requires r.start < 32
    ensures Begun(was, r, 0, 0) == if r.start > 0 then And(was, Not(From(r.start))) else None()
  {
    var v, w := Begun(was, r, 0, 0), if r.start > 0 then And(was, Not(From(r.start))) else None();
    forall b | 0 <= b < 32 ensures v[b] == w[b] {
      FromBit(r.start, b);
      assert !Drawn(r, 0, 32 * 0 + b);
      assert v[b] == (was[b] && b < r.start);
    }
    Same(v, w);
  }

  lemma FromBit(n: nat, b: nat)
    requires b < 32
    ensures From(n)[b] <==> b >= n
  {}

  /** A pixel joins its word. */
  lemma Joins(was: Bits, r: Strip, k: nat, x: nat, shift: nat)
    requires First(r, x) == 32 * k + shift && shift < 32
    ensures Begun(was, r, k, x + 1) == Or(Begun(was, r, k, x), Shl(Pixel(r, x), shift))
  {
    InWord(k, shift);
    var v, w := Begun(was, r, k, x + 1), Or(Begun(was, r, k, x), Shl(Pixel(r, x), shift));
    forall b | 0 <= b < 32 ensures v[b] == w[b] {
      InWord(k, b);
      assert Drawn(r, x + 1, 32 * k + b) <==> Drawn(r, x, 32 * k + b) || Lands(First(r, x), r.bpp, 32 * k + b, Pixel(r, x));
    }
    Same(v, w);
  }

  /** Pixels in order. */
  lemma Ahead(r: Strip, n: nat, m: nat)
    requires n <= m
    ensures First(r, n) <= First(r, m)
    ensures n < m ==> First(r, n) + r.bpp <= First(r, m)
  {
    Scaled(n, m, r.bpp);
    if n < m { Scaled(n + 1, m, r.bpp); }
  }

  /** Pixels that start behind a bit do not set it. */
  lemma {:induction false} NoLater(r: Strip, n: nat, m: nat, p: nat)
    requires n <= m && p < First(r, n)
    ensures Drawn(r, m, p) == Drawn(r, n, p)
    decreases m
  {
    if n < m {
      NoLater(r, n, m - 1, p);
      Ahead(r, n, m - 1);
    }
  }

  /** A word that the next pixel fills is done. */
  lemma Full(was: Bits, r: Strip, k: nat, x: nat)
    requires Ok(r) && x < r.width && 32 * (k + 1) <= First(r, x + 1)
    ensures WordAfter(was, r, k) == Begun(was, r, k, x + 1)
  {
    hide *;
    var v, w := WordAfter(was, r, k), Begun(was, r, k, x + 1);
    OkIs(r);
    Ahead(r, x + 1, r.width);
    forall b | 0 <= b < 32 ensures v[b] == w[b] {
      NoLater(r, x + 1, r.width, 32 * k + b);
      BegunBit(was, r, k, x + 1, b);
      AfterBit(was, r, k, b);
    }
    Same(v, w);
  }

  lemma AfterBit(was: Bits, r: Strip, k: nat, b: nat)
    requires b < 32
    ensures WordAfter(was, r, k)[b] <==>
      (was[b] && (32 * k + b < r.start || 32 * k + b >= First(r, r.width))) || Drawn(r, r.width, 32 * k + b)
  {
    hide Drawn, First;
  }

  /** The next word begins with what is left of the pixel. */
  lemma Spills(was: Bits, r: Strip, k: nat, x: nat, shift: nat)
    requires Ok(r) && First(r, x) == 32 * k + shift && shift < 32 <= shift + r.bpp
    ensures Begun(was, r, k + 1, x + 1) == if shift == 32 - r.bpp then None() else Shr(Pixel(r, x), 32 - shift)
  {
    hide *;
    var v, w := Begun(was, r, k + 1, x + 1), if shift == 32 - r.bpp then None() else Shr(Pixel(r, x), 32 - shift);
    forall b | 0 <= b < 32 ensures v[b] == w[b] { SpillBit(was, r, k, x, shift, b); }
    Same(v, w);
  }

  lemma SpillBit(was: Bits, r: Strip, k: nat, x: nat, shift: nat, b: nat)
    requires Ok(r) && First(r, x) == 32 * k + shift && shift < 32 <= shift + r.bpp && b < 32
    ensures Begun(was, r, k + 1, x + 1)[b] == if shift == 32 - r.bpp then false else b < shift && Pixel(r, x)[b + 32 - shift]
    ensures !None()[b] && Shr(Pixel(r, x), 32 - shift)[b] == (b < shift && Pixel(r, x)[b + 32 - shift])
  {
    hide *;
    OkIs(r);
    NoneBefore(r, x, x, k, b);
    Reaches(k, shift, r.bpp, b, Pixel(r, x));
    DrawnOne(r, x, 32 * (k + 1) + b);
    BegunBit(was, r, k + 1, x + 1, b);
    StartsAt(r, x);
    ShrBit(Pixel(r, x), 32 - shift, b);
  }

  lemma DrawnOne(r: Strip, x: nat, p: nat)
    ensures Drawn(r, x + 1, p) <==> Drawn(r, x, p) || Lands(First(r, x), r.bpp, p, Pixel(r, x))
  {
    hide Lands, First, Pixel;
  }

  lemma BegunBit(was: Bits, r: Strip, k: nat, n: nat, b: nat)
    requires b < 32
    ensures Begun(was, r, k, n)[b] <==> (was[b] && 32 * k + b < r.start) || Drawn(r, n, 32 * k + b)
  {
    hide Drawn;
  }

  lemma StartsAt(r: Strip, x: nat)
    ensures r.start <= First(r, x)
  {}

  lemma ShrBit(w: Bits, n: nat, b: nat)
    requires b < 32
    ensures !None()[b] && (Shr(w, n)[b] <==> b + n < 32 && w[b + n])
  {}

  lemma Reaches(k: nat, shift: nat, bpp: nat, b: nat, c: Bits)
    requires shift < 32 <= shift + bpp && b < 32
    ensures Lands(32 * k + shift, bpp, 32 * (k + 1) + b, c) <==> shift + bpp > 32 && b < shift && c[b + 32 - shift]
  {
    InWord(k + 1, b);
    InWord(k, shift);
  }

  /** The pixels before one that starts in word `k` do not reach into the next. */
  lemma {:induction false} NoneBefore(r: Strip, n: nat, x: nat, k: nat, b: nat)
    requires n <= x && First(r, x) < 32 * (k + 1) && b < 32
    ensures !Drawn(r, n, 32 * (k + 1) + b)
    decreases n
  {
    if n > 0 {
      NoneBefore(r, n - 1, x, k, b);
      Ahead(r, n - 1, x);
      EndsInside(First(r, n - 1), r.bpp, k, b, Pixel(r, n - 1));
    }
  }

  lemma EndsInside(s: nat, bpp: nat, k: nat, b: nat, c: Bits)
    requires s + bpp < 32 * (k + 1) && b < 32
    ensures !Lands(s, bpp, 32 * (k + 1) + b, c)
  {
    InWord(k + 1, b);
  }

  /** The last word keeps what lies behind the row. */
  lemma Last(was: Bits, r: Strip, k: nat, shift: nat)
    requires First(r, r.width) == 32 * k + shift && 0 < shift < 32
    ensures WordAfter(was, r, k) == Or(And(was, From(shift)), Begun(was, r, k, r.width))
  {
    Same(WordAfter(was, r, k), Or(And(was, From(shift)), Begun(was, r, k, r.width)));
  }

  // ----- One line

  lemma LineNone(fb: seq<Bits>, at: nat, r: Strip)
    ensures Line(fb, at, r, 0) == fb
  {
    var l := Line(fb, at, r, 0);
    assert forall j :: 0 <= j < |fb| ==> l[j] == fb[j];
  }

  lemma LineMore(fb: seq<Bits>, at: nat, r: Strip, n: nat)
    requires at + n < |fb|
    ensures Line(fb, at, r, n + 1) == Line(fb, at, r, n)[at + n := WordAfter(fb[at + n], r, n)]
    ensures Line(fb, at, r, n)[at + n] == fb[at + n]
  {
    hide WordAfter;
    var v, w := Line(fb, at, r, n + 1), Line(fb, at, r, n)[at + n := WordAfter(fb[at + n], r, n)];
    assert forall j :: 0 <= j < |fb| ==> v[j] == w[j];
  }

  /** Where pixel `x` lies. */
  lemma Place(r: Strip, k: nat, shift: nat, x: nat)
    requires Ok(r) && x < r.width && First(r, x) == 32 * k + shift && shift < 32
    ensures k < Span(r) && First(r, x + 1) == 32 * k + shift + r.bpp
    ensures First(r, x + 1) == if shift + r.bpp >= 32 then 32 * (k + 1) + (shift + r.bpp) % 32 else 32 * k + (shift + r.bpp) % 32
    ensures shift + r.bpp >= 32 && (x + 1 < r.width || (shift + r.bpp) % 32 > 0) ==> k + 1 < Span(r)
    ensures shift + r.bpp < 32 ==> (shift + r.bpp) % 32 > 0
  {
    Ahead(r, x + 1, r.width);
    if x + 1 < r.width { Ahead(r, x + 1, r.width); }
    NextFirst(r, x);
    Wraps(shift, r.bpp);
    Covered(r, 32 * k + shift);
    if shift + r.bpp >= 32 { Covered(r, 32 * (k + 1)); }
  }

  lemma NextFirst(r: Strip, x: nat)
    ensures First(r, x + 1) == First(r, x) + r.bpp
  {
    Scaled(x, x + 1, r.bpp);
  }

  lemma Wraps(shift: nat, bpp: nat)
    requires shift < 32 && 1 <= bpp <= 32
    ensures (shift + bpp) % 32 == if shift + bpp >= 32 then shift + bpp - 32 else shift + bpp
  {}

  lemma Covered(r: Strip, p: nat)
    ensures p < First(r, r.width) ==> p / 32 < Span(r)
  {}

  lemma RowEnds(r: Strip, k: nat, shift: nat)
    requires First(r, r.width) == 32 * k + shift && shift < 32
    ensures Span(r) == if shift > 0 then k + 1 else k
  {}

  lemma RowStarts(r: Strip)
    requires Ok(r)
    ensures First(r, 0) == r.start && (r.start > 0 || r.width > 0 ==> Span(r) > 0)
  {
    Ahead(r, 0, r.width);
    if r.width > 0 { Ahead(r, 0, r.width); }
  }

  /** One row of slow_imageblit. */
  method SlowLine(fb: array<Bits>, data: seq<bv8>, src: nat, dst1: nat, r: Strip)
    requires Ok(r) && src + Spitch(r.width) <= |data| && r.row == data[src..src + Spitch(r.width)]
    requires dst1 + Span(r) <= fb.Length
    modifies fb
    ensures fb[..] == Line(old(fb[..]), dst1, r, Span(r))
  {
    hide *;
    ghost var o := fb[..];
    var shift, val, l, j, dst, s := 0, None(), 8, r.width, dst1, src;
    ghost var x: nat, k: nat := 0, 0;
    LineNone(o, dst1, r);
    RowStarts(r);
    OkIs(r);
    if Span(r) > 0 { Starts(o[dst], r); }
    if r.start > 0 {
      val := And(fb[dst], Not(From(r.start)));
      shift := r.start;
    }
    while j > 0
      invariant 0 <= j <= r.width && x == r.width - j && First(r, x) == 32 * k + shift && 0 <= shift < 32
      invariant dst == dst1 + k && s == src + x / 8 && l == 8 - x % 8
      invariant k <= Span(r) && fb[..] == Line(o, dst1, r, k)
      invariant k < Span(r) ==> val == Begun(o[dst], r, k, x)
      invariant x < r.width || shift > 0 ==> k < Span(r)
    {
      Place(r, k, shift, x);
      ByteAt(data, src, r, x);
      l := l - 1;
      var color := if On(data[s], l) then r.fg else r.bg;
      PixelIs(r, x);
      Joins(o[dst], r, k, x, shift);
      val := Or(val, Shl(color, shift));
      if shift >= 32 - r.bpp {
        Full(o[dst], r, k, x);
        LineMore(o, dst1, r, k);
        fb[dst] := val;
        dst := dst + 1;
        if k + 1 < Span(r) { Spills(o[dst], r, k, x, shift); }
        val := if shift == 32 - r.bpp then None() else Shr(color, 32 - shift);
        k := k + 1;
      }
      shift := (shift + r.bpp) % 32;
      if l == 0 { l, s := 8, s + 1; }
      j, x := j - 1, x + 1;
    }
    RowEnds(r, k, shift);
    if shift > 0 {
      Last(o[dst], r, k, shift);
      LineMore(o, dst1, r, k);
      fb[dst] := Or(And(fb[dst], From(shift)), val);
    }
  }

  lemma OkIs(r: Strip)
    ensures Ok(r) <==> r.start < 32 && 1 <= r.bpp <= 32
  {}

  lemma ByteAt(data: seq<bv8>, src: nat, r: Strip, x: nat)
    requires src + Spitch(r.width) <= |data| && r.row == data[src..src + Spitch(r.width)] && x < r.width
    ensures src + x / 8 < |data| && data[src + x / 8] == At(r.row, x / 8)
  {}

  lemma PixelIs(r: Strip, x: nat)
    ensures Pixel(r, x) == if On(At(r.row, x / 8), 7 - x % 8) then r.fg else r.bg
  {}

  // ----- The pixels of a row

  /** A colour of at most `bpp` bits. */
  predicate Narrow(c: Bits, bpp: nat) { forall i :: bpp <= i < 32 ==> !c[i] }

  predicate Clean(r: Strip) { Ok(r) && Narrow(r.fg, r.bpp) && Narrow(r.bg, r.bpp) }

  lemma Reaching(s: nat, bpp: nat, b: nat, c: Bits)
    requires b < bpp <= 32
    ensures Lands(s, bpp, s + b, c) <==> c[b]
  {
    if s % 32 + b >= 32 { InWord(s / 32 + 1, s % 32 + b - 32); } else { InWord(s / 32, s % 32 + b); }
  }

  lemma OwnBits(r: Strip, n: nat, p: nat)
    requires Clean(r)
    ensures Lands(First(r, n), r.bpp, p, Pixel(r, n)) ==> First(r, n) <= p < First(r, n) + r.bpp
  {}

  /** The bits of a pixel are those of its colour. */
  lemma {:induction false} DrawnBit(r: Strip, n: nat, x: nat, b: nat)
    requires Clean(r) && b < r.bpp
    ensures Drawn(r, n, First(r, x) + b) <==> n > x && Pixel(r, x)[b]
    decreases n
  {
    hide Lands, Pixel, First;
    if n > 0 {
      DrawnBit(r, n - 1, x, b);
      if n - 1 < x { Ahead(r, n - 1, x); }
      if n - 1 > x { Ahead(r, x, n - 1); }
      OwnBits(r, n - 1, First(r, x) + b);
      Reaching(First(r, x), r.bpp, b, Pixel(r, x));
    }
  }

  /** No bit outside the row is drawn. */
  lemma {:induction false} NotDrawn(r: Strip, n: nat, p: nat)
    requires Clean(r) && n <= r.width && (p < r.start || p >= First(r, r.width))
    ensures !Drawn(r, n, p)
    decreases n
  {
    hide Lands, Pixel;
    if n > 0 {
      NotDrawn(r, n - 1, p);
      Ahead(r, n - 1, r.width);
      OwnBits(r, n - 1, p);
    }
  }

  /** A bit of the screen, counted from its first word on. */
  predicate BitAt(fb: seq<Bits>, q: nat) { q / 32 < |fb| && fb[q / 32][q % 32] }

  /** Drawing a row gives every bit of its pixels that of the colour. */
  lemma LinePixel(fb: seq<Bits>, at: nat, r: Strip, x: nat, b: nat)
    requires Clean(r) && at + Span(r) <= |fb| && x < r.width && b < r.bpp
    ensures BitAt(Line(fb, at, r, Span(r)), 32 * at + First(r, x) + b) == Pixel(r, x)[b]
  {
    hide Drawn, Pixel, First;
    var p := First(r, x) + b;
    Ahead(r, x, r.width);
    StartsAt(r, x);
    DrawnBit(r, r.width, x, b);
    InWord(at + p / 32, p % 32);
    Covered(r, p);
  }

  /** And leaves every other bit as it was. */
  lemma LineElse(fb: seq<Bits>, at: nat, r: Strip, q: nat)
    requires Clean(r) && at + Span(r) <= |fb| && (q < 32 * at + r.start || q >= 32 * at + First(r, r.width))
    ensures BitAt(Line(fb, at, r, Span(r)), q) == BitAt(fb, q)
  {
    hide Drawn, First, Span;
    if at <= q / 32 {
      var p := q - 32 * at;
      NotDrawn(r, r.width, p);
      InWord(at + p / 32, p % 32);
    }
  }

  // ----- The whole image

  /** Bits of a pixel, where the image goes, in words and bits of the first word, and bytes of a line. */
  datatype Spot = Spot(bpp: nat, base: nat, start: nat, pitch: nat)

  /** Where the code puts row `y`: unless lines are whole words it counts the bytes of a line as words. */
  function RowWord(t: Spot, y: nat): nat { if t.pitch % 4 == 0 then t.base + y * (t.pitch / 4) else t.base + y * t.pitch }

  function RowStart(t: Spot, y: nat): nat
  {
    if t.pitch % 4 == 0 then t.start else (t.start + y * (8 * (t.pitch % 4))) % 32
  }

  function RowBit(t: Spot, y: nat): nat { 32 * RowWord(t, y) + RowStart(t, y) }

  function ToBits(w: Word): Bits { seq(32, i requires 0 <= i < 32 => On(ByteOf(w, i / 8), i % 8)) }

  function StripOf(m: Image, t: Spot, y: nat): Strip
    requires y < m.height && |m.data| == m.height * Spitch(m.width)
  {
    Strip(Row(m, y), RowStart(t, y), t.bpp, m.width, ToBits(m.fg), ToBits(m.bg))
  }

  /** The first pixel of a bitmap is the highest bit of its first byte, and the lowest bit of a word its first. */
  lemma FirstBits()
    ensures Set([0x80], 0) && forall x: nat :: 0 < x < 8 ==> !Set([0x80], x)
    ensures ToBits(Word(0, 0, 0, 1))[0] && forall i: nat :: 0 < i < 32 ==> !ToBits(Word(0, 0, 0, 1))[i]
  {
    hide OneBit;
    OneBits();
  }

  predicate OnScreen(m: Image, t: Spot, size: nat)
  {
    && t.start < 32 && 1 <= t.bpp <= 32 && |m.data| == m.height * Spitch(m.width)
    && forall y :: 0 <= y < m.height ==> RowWord(t, y) + Span(StripOf(m, t, y)) <= size
  }

  /** The framebuffer after the first `n` rows. */
  function Rows(fb: seq<Bits>, m: Image, t: Spot, n: nat): (r: seq<Bits>)
    requires n <= m.height && |m.data| == m.height * Spitch(m.width)
    ensures |r| == |fb|
  {
    if n == 0 then fb else
    var r := StripOf(m, t, n - 1);
    Line(Rows(fb, m, t, n - 1), RowWord(t, n - 1), r, Span(r))
  }

  lemma RowsNext(fb: seq<Bits>, m: Image, t: Spot, y: nat)
    requires y < m.height && |m.data| == m.height * Spitch(m.width)
    ensures var r := StripOf(m, t, y); Rows(fb, m, t, y + 1) == Line(Rows(fb, m, t, y), RowWord(t, y), r, Span(r))
  {
    hide Line, StripOf, RowWord, Span;
  }

  lemma RowIn(m: Image, t: Spot, size: nat, y: nat)
    requires OnScreen(m, t, size) && y < m.height
    ensures var r, s := StripOf(m, t, y), y * Spitch(m.width);
      && Ok(r) && RowWord(t, y) + Span(r) <= size && s + Spitch(m.width) <= |m.data|
      && r == Strip(m.data[s..s + Spitch(m.width)], RowStart(t, y), t.bpp, m.width, ToBits(m.fg), ToBits(m.bg))
      && s + Spitch(m.width) == (y + 1) * Spitch(m.width)
  {
    RowFits(m, y);
    hide Span, ToBits, RowWord;
  }

  /** The next row, as the code moves on. */
  lemma Moves(t: Spot, y: nat)
    requires t.start < 32
    ensures RowWord(t, 0) == t.base && RowStart(t, 0) == t.start && RowStart(t, y) < 32 && RowStart(t, y + 1) < 32
    ensures t.pitch % 4 == 0 ==> 4 * RowWord(t, y + 1) == 4 * RowWord(t, y) + t.pitch && RowStart(t, y + 1) == RowStart(t, y)
    ensures t.pitch % 4 > 0 ==> RowWord(t, y) == t.base + y * t.pitch && RowWord(t, y + 1) == RowWord(t, y) + t.pitch
    ensures t.pitch % 4 > 0 ==> RowStart(t, y + 1) == (RowStart(t, y) + t.pitch % 4 * 8) % 32
  {
    Scaled(y, y + 1, t.pitch / 4);
    Scaled(y, y + 1, t.pitch);
    Scaled(y, y + 1, 8 * (t.pitch % 4));
    Wrapped(t.start + y * (8 * (t.pitch % 4)), 8 * (t.pitch % 4));
  }

  lemma Wrapped(a: nat, d: nat)
    ensures (a + d) % 32 == (a % 32 + d) % 32
  {}

  /** Row `y`, from where the code has got to. */
  method SlowRow(fb: array<Bits>, m: Image, t: Spot, y: nat, dst1: nat, src: nat, start: nat, ghost o: seq<Bits>)
    requires OnScreen(m, t, fb.Length) && y < m.height && dst1 == 4 * RowWord(t, y) && src == y * Spitch(m.width)
    requires start == RowStart(t, y) && |m.data| == m.height * Spitch(m.width) && fb[..] == Rows(o, m, t, y)
    modifies fb
    ensures fb[..] == Rows(o, m, t, y + 1)
  {
    hide *;
    RowIn(m, t, fb.Length, y);
    RowsNext(o, m, t, y);
    var spitch := Spitch(m.width);
    SlowLine(fb, m.data, src, dst1 / 4, Strip(m.data[src..src + spitch], start, t.bpp, m.width, ToBits(m.fg), ToBits(m.bg)));
  }

  /** slow_imageblit. */
  method SlowBlit(fb: array<Bits>, m: Image, t: Spot)
    requires OnScreen(m, t, fb.Length)
    modifies fb
    ensures fb[..] == Rows(old(fb[..]), m, t, m.height)
  {
    ghost var o := fb[..];
    hide *;
    SpotOk(m, t, fb.Length);
    RowsNone(o, m, t);
    var spitch := Spitch(m.width);
    var i, start, dst1, dst2, src := 0, t.start, 4 * t.base, t.base, 0;
    Moves(t, 0);
    while i < m.height
      invariant 0 <= i <= m.height && dst1 == 4 * RowWord(t, i) && start == RowStart(t, i) < 32 && src == i * spitch
      invariant t.pitch % 4 > 0 ==> dst2 == RowWord(t, i)
      invariant fb[..] == Rows(o, m, t, i)
    {
      Moves(t, i);
      Scaled(i, i, spitch);
      SlowRow(fb, m, t, i, dst1, src, start, o);
      dst1, src := dst1 + t.pitch, src + spitch;
      if t.pitch % 4 > 0 {
        dst2 := dst2 + t.pitch;
        dst1 := 4 * dst2;
        start := (start + t.pitch % 4 * 8) % 32;
      }
      i := i + 1;
    }
  }

  lemma SpotOk(m: Image, t: Spot, size: nat)
    requires OnScreen(m, t, size)
    ensures t.start < 32 && |m.data| == m.height * Spitch(m.width)
  {
    hide Span, StripOf, RowWord;
  }

  lemma RowsNone(fb: seq<Bits>, m: Image, t: Spot)
    requires |m.data| == m.height * Spitch(m.width)
    ensures Rows(fb, m, t, 0) == fb
  {}

  /** A row lies where it belongs, one line of bytes below the other, if and only if lines are whole words or it is
      the first one, or one single case besides. */
  lemma InPlace(t: Spot, y: nat)
    requires t.start < 32
    ensures RowBit(t, y) == 32 * t.base + t.start + 8 * (y * t.pitch) <==>
      t.pitch % 4 == 0 || y == 0 || (t.pitch == 1 && y == 1 && t.start >= 24)
  {
    if t.pitch % 4 == 0 {
      Quarter(y, t.pitch);
    } else if y > 0 && y * t.pitch < 2 {
      Scaled(1, y, t.pitch);
      Small(y, t.pitch);
    }
  }

  lemma Quarter(y: nat, pitch: nat)
    requires pitch % 4 == 0
    ensures 4 * (y * (pitch / 4)) == y * pitch
  {
    assert pitch == 4 * (pitch / 4);
    Regroup(y, pitch / 4);
  }

  lemma Regroup(y: nat, q: nat)
    ensures 4 * (y * q) == y * (4 * q)
  {}

  lemma Small(y: nat, pitch: nat)
    requires y > 0 && pitch > 0 && y * pitch < 2
    ensures y == 1 && pitch == 1
  {
    Scaled(1, pitch, y);
    Scaled(1, y, pitch);
  }

  /** Each row lies at least a line behind the one before. */
  lemma Below(t: Spot, y: nat)
    requires t.start < 32
    ensures RowBit(t, y) + 8 * t.pitch <= RowBit(t, y + 1)
  {
    Moves(t, y);
    hide RowWord, RowStart;
  }

  lemma {:induction false} FarBelow(t: Spot, y: nat, z: nat)
    requires t.start < 32 && y < z
    ensures RowBit(t, y) + 8 * t.pitch <= RowBit(t, z)
    decreases z
  {
    hide RowBit;
    Below(t, z - 1);
    if y < z - 1 { FarBelow(t, y, z - 1); }
  }

  /** Two colours of at most `bpp` bits, and rows that do not overlap. */
  predicate Plain(m: Image, t: Spot) { Narrow(ToBits(m.fg), t.bpp) && Narrow(ToBits(m.bg), t.bpp) && m.width * t.bpp <= 8 * t.pitch }

  /** The first bit of pixel `x` of row `y`. */
  function PixelAt(t: Spot, x: nat, y: nat): nat { RowBit(t, y) + x * t.bpp }

  lemma StripIs(m: Image, t: Spot, size: nat, y: nat)
    requires OnScreen(m, t, size) && Plain(m, t) && y < m.height
    ensures var r := StripOf(m, t, y);
      && Clean(r) && RowWord(t, y) + Span(r) <= size && r.width == m.width && r.bpp == t.bpp && r.start == RowStart(t, y)
      && 32 * RowWord(t, y) + r.start == RowBit(t, y) && First(r, r.width) == r.start + m.width * t.bpp
  {
    RowIn(m, t, size, y);
    hide RowWord, Span, RowStart, Row, ToBits, Narrow;
  }

  lemma StripPixel(m: Image, t: Spot, y: nat, x: nat)
    requires y < m.height && |m.data| == m.height * Spitch(m.width)
    ensures var r := StripOf(m, t, y);
      First(r, x) == RowStart(t, y) + x * t.bpp && Pixel(r, x) == ToBits(if Set(Row(m, y), x) then m.fg else m.bg)
  {
    hide RowWord, RowStart, Row, ToBits;
  }

  /** A row that is drawn shows its pixels. */
  lemma RowShown(fb: seq<Bits>, m: Image, t: Spot, y: nat, x: nat, b: nat)
    requires OnScreen(m, t, |fb|) && Plain(m, t) && y < m.height && x < m.width && b < t.bpp
    requires |m.data| == m.height * Spitch(m.width) && t.bpp <= 32
    ensures BitAt(Rows(fb, m, t, y + 1), PixelAt(t, x, y) + b) == ToBits(if Set(Row(m, y), x) then m.fg else m.bg)[b]
  {
    hide *;
    RowsNext(fb, m, t, y);
    StripIs(m, t, |fb|, y);
    StripPixel(m, t, y, x);
    PixelIsAt(t, x, y);
    LinePixel(Rows(fb, m, t, y), RowWord(t, y), StripOf(m, t, y), x, b);
  }

  lemma PixelIsAt(t: Spot, x: nat, y: nat)
    ensures PixelAt(t, x, y) == RowBit(t, y) + x * t.bpp
    ensures RowBit(t, y) == 32 * RowWord(t, y) + RowStart(t, y)
  {}

  /** It leaves the bits outside it alone. */
  lemma RowKeeps(fb: seq<Bits>, m: Image, t: Spot, y: nat, q: nat)
    requires OnScreen(m, t, |fb|) && Plain(m, t) && y < m.height && |m.data| == m.height * Spitch(m.width)
    requires q < RowBit(t, y) || q >= RowBit(t, y) + m.width * t.bpp
    ensures BitAt(Rows(fb, m, t, y + 1), q) == BitAt(Rows(fb, m, t, y), q)
  {
    hide *;
    RowsNext(fb, m, t, y);
    StripIs(m, t, |fb|, y);
    LineElse(Rows(fb, m, t, y), RowWord(t, y), StripOf(m, t, y), q);
  }

  /** The image is drawn: every bit of every pixel is that of its colour, where the code has put its row. */
  lemma {:induction false} ImageShown(fb: seq<Bits>, m: Image, t: Spot, n: nat, x: nat, y: nat, b: nat)
    requires OnScreen(m, t, |fb|) && Plain(m, t) && |m.data| == m.height * Spitch(m.width)
    requires y < n <= m.height && x < m.width && b < t.bpp <= 32
    ensures BitAt(Rows(fb, m, t, n), PixelAt(t, x, y) + b) == ToBits(if Set(Row(m, y), x) then m.fg else m.bg)[b]
    decreases n
  {
    hide *;
    if y == n - 1 {
      RowShown(fb, m, t, y, x, b);
    } else {
      SpotOk(m, t, |fb|);
      ImageShown(fb, m, t, n - 1, x, y, b);
      BeforeRow(m, t, x, y, b, n - 1);
      RowKeeps(fb, m, t, n - 1, PixelAt(t, x, y) + b);
    }
  }

  lemma BeforeRow(m: Image, t: Spot, x: nat, y: nat, b: nat, z: nat)
    requires Plain(m, t) && t.start < 32 && x < m.width && b < t.bpp && y < z
    ensures PixelAt(t, x, y) + b < RowBit(t, z)
  {
    FarBelow(t, y, z);
    Scaled(x + 1, m.width, t.bpp);
    Scaled(x, x + 1, t.bpp);
    hide RowBit, Narrow;
  }

  /** No other bit is written. */
  lemma {:induction false} ImageElse(fb: seq<Bits>, m: Image, t: Spot, n: nat, q: nat)
    requires OnScreen(m, t, |fb|) && Plain(m, t) && |m.data| == m.height * Spitch(m.width) && n <= m.height
    requires forall y: nat :: y < n ==> q < RowBit(t, y) || q >= RowBit(t, y) + m.width * t.bpp
    ensures BitAt(Rows(fb, m, t, n), q) == BitAt(fb, q)
  {
    hide *;
    RowsNone(fb, m, t);
    if n > 0 {
      ImageElse(fb, m, t, n - 1, q);
      RowKeeps(fb, m, t, n - 1, q);
    }
  }

  // ----- The two paths

  function Bitwise(fb: seq<Word>): (r: seq<Bits>)
    ensures |r| == |fb|
  {
    seq(|fb|, j requires 0 <= j < |fb| => ToBits(fb[j]))
  }

  /** The target of the fast path: its lines are counted in words. */
  function SpotOf(t: Target): Spot { Spot(t.bpp, t.base, 0, 4 * t.pitch) }

  lemma NarrowIn(c: Word, bpp: nat)
    requires Depth(bpp) && InRange(c, bpp)
    ensures Narrow(ToBits(c), bpp)
  {
    forall i | bpp <= i < 32 ensures !ToBits(c)[i] { ZeroBits(i % 8); }
  }

  lemma ZeroBits(l: nat)
    requires l < 8
    ensures !On(0, l)
  {}

  /** Bit `i` of word `k` of a row of whole words is bit `b` of pixel `x`. */
  predicate Owns(bpp: nat, k: nat, i: nat, x: nat, b: nat)
    requires Depth(bpp)
  {
    x == k * Ppw(bpp) + i / 8 / (bpp / 8) && b == 8 * (i / 8 % (bpp / 8)) + i % 8
  }

  lemma Whose(bpp: nat, k: nat, i: nat) returns (x: nat, b: nat)
    requires Depth(bpp) && i < 32
    ensures Owns(bpp, k, i, x, b) && x * bpp + b == 32 * k + i && b < bpp <= 32 && x < k * Ppw(bpp) + Ppw(bpp)
  {
    x, b := k * Ppw(bpp) + i / 8 / (bpp / 8), 8 * (i / 8 % (bpp / 8)) + i % 8;
  }

  lemma SameBit(was: Bits, w: Word, row: seq<bv8>, bpp: nat, width: nat, k: nat, fg: Word, bg: Word, i: nat)
    requires Depth(bpp) && InRange(fg, bpp) && InRange(bg, bpp) && (k + 1) * Ppw(bpp) <= width && i < 32
    requires w == Pixels(row, bpp, k, fg, bg)
    ensures ToBits(w)[i] == WordAfter(was, Strip(row, 0, bpp, width, ToBits(fg), ToBits(bg)), k)[i]
  {
    hide *;
    var r := Strip(row, 0, bpp, width, ToBits(fg), ToBits(bg));
    var x, b := Whose(bpp, k, i);
    Scaled(k, k + 1, Ppw(bpp));
    CleanOf(row, bpp, width, fg, bg);
    SlowBit(was, r, x, b, k, i);
    FastBit(row, bpp, k, fg, bg, x, b, i);
    StripPixels(r, x);
  }

  lemma StripPixels(r: Strip, x: nat)
    ensures Pixel(r, x) == if Set(r.row, x) then r.fg else r.bg
  {}

  lemma SlowBit(was: Bits, r: Strip, x: nat, b: nat, k: nat, i: nat)
    requires Clean(r) && r.start == 0 && x < r.width && b < r.bpp && x * r.bpp + b == 32 * k + i && i < 32
    ensures WordAfter(was, r, k)[i] == Pixel(r, x)[b]
  {
    hide Pixel, Drawn, Narrow;
    DrawnBit(r, r.width, x, b);
    InsideRow(r, x, b);
  }

  lemma FastBit(row: seq<bv8>, bpp: nat, k: nat, fg: Word, bg: Word, x: nat, b: nat, i: nat)
    requires Depth(bpp) && InRange(fg, bpp) && InRange(bg, bpp) && i < 32 && b < 32
    requires Owns(bpp, k, i, x, b)
    ensures ToBits(Pixels(row, bpp, k, fg, bg))[i] == (if Set(row, x) then ToBits(fg) else ToBits(bg))[b]
  {
    hide Pixels, InRange, On, Set, ByteOf;
    PixelShown(row, bpp, k, i / 8, fg, bg);
  }

  lemma CleanOf(row: seq<bv8>, bpp: nat, width: nat, fg: Word, bg: Word)
    requires Depth(bpp) && InRange(fg, bpp) && InRange(bg, bpp)
    ensures Clean(Strip(row, 0, bpp, width, ToBits(fg), ToBits(bg)))
  {
    NarrowIn(fg, bpp);
    NarrowIn(bg, bpp);
    hide ToBits, Narrow, InRange;
  }

  lemma InsideRow(r: Strip, x: nat, b: nat)
    requires x < r.width && b < r.bpp
    ensures r.start <= First(r, x) + b < First(r, r.width)
  {
    Ahead(r, x, r.width);
  }

  lemma SameWord(was: Bits, row: seq<bv8>, bpp: nat, width: nat, k: nat, fg: Word, bg: Word)
    requires Depth(bpp) && InRange(fg, bpp) && InRange(bg, bpp) && (k + 1) * Ppw(bpp) <= width
    ensures ToBits(Pixels(row, bpp, k, fg, bg)) == WordAfter(was, Strip(row, 0, bpp, width, ToBits(fg), ToBits(bg)), k)
  {
    hide *;
    var w, r := Pixels(row, bpp, k, fg, bg), Strip(row, 0, bpp, width, ToBits(fg), ToBits(bg));
    forall i | 0 <= i < 32 ensures ToBits(w)[i] == WordAfter(was, r, k)[i] { SameBit(was, w, row, bpp, width, k, fg, bg, i); }
    Same(ToBits(w), WordAfter(was, r, k));
  }

  lemma {:induction false} SameLine(fb: seq<Word>, at: nat, row: seq<bv8>, bpp: nat, width: nat, n: nat, fg: Word, bg: Word)
    requires Depth(bpp) && InRange(fg, bpp) && InRange(bg, bpp) && n * Ppw(bpp) <= width && at + n <= |fb|
    ensures Bitwise(ImageBlit.Line(fb, at, row, bpp, n, fg, bg)) ==
      Line(Bitwise(fb), at, Strip(row, 0, bpp, width, ToBits(fg), ToBits(bg)), n)
  {
    hide *;
    var r := Strip(row, 0, bpp, width, ToBits(fg), ToBits(bg));
    ImageBlit.LineMore(fb, at, row, bpp, 0, fg, bg);
    LineNone(Bitwise(fb), at, r);
    if n > 0 {
      Scaled(n - 1, n, Ppw(bpp));
      SameLine(fb, at, row, bpp, width, n - 1, fg, bg);
      ImageBlit.LineMore(fb, at, row, bpp, n - 1, fg, bg);
      LineMore(Bitwise(fb), at, r, n - 1);
      SameWord(Bitwise(fb)[at + (n - 1)], row, bpp, width, n - 1, fg, bg);
      BitwisePut(ImageBlit.Line(fb, at, row, bpp, n - 1, fg, bg), at + (n - 1), Pixels(row, bpp, n - 1, fg, bg));
    }
  }

  lemma BitwisePut(fb: seq<Word>, j: nat, w: Word)
    requires j < |fb|
    ensures Bitwise(fb[j := w]) == Bitwise(fb)[j := ToBits(w)]
  {
    hide ToBits;
    var u, v := Bitwise(fb[j := w]), Bitwise(fb)[j := ToBits(w)];
    assert forall i :: 0 <= i < |fb| ==> u[i] == v[i];
  }

  /** Where it is taken, the fast path writes exactly the bits that the pixel path would write. */
  lemma {:induction false} FastIsSlow(fb: seq<Word>, m: Image, t: Target, n: nat)
    requires Fits(m, t, |fb|) && InRange(m.fg, t.bpp) && InRange(m.bg, t.bpp) && n <= m.height
    requires |m.data| == m.height * Spitch(m.width)
    ensures Bitwise(ImageBlit.Rows(fb, m, t, n)) == Rows(Bitwise(fb), m, SpotOf(t), n)
  {
    hide *;
    RowsNone(Bitwise(fb), m, SpotOf(t));
    NoRows(fb, m, t);
    FitsDepth(m, t, |fb|);
    if n > 0 {
      var y, k := n - 1, Words(m.width, t.bpp);
      FastIsSlow(fb, m, t, y);
      OneMore(fb, m, t, y);
      RowsNext(Bitwise(fb), m, SpotOf(t), y);
      var s := y * Spitch(m.width);
      NextRow(m, t, |fb|, y, k);
      RowOnIs(ImageBlit.Rows(fb, m, t, y), m, t, y, t.base + y * t.pitch, s, k);
      FastStrip(m, t, |fb|, y);
      SameLine(ImageBlit.Rows(fb, m, t, y), t.base + y * t.pitch, m.data[s..s + Spitch(m.width)], t.bpp, m.width, k, m.fg, m.bg);
    }
  }

  lemma FitsDepth(m: Image, t: Target, size: nat)
    requires Fits(m, t, size)
    ensures Depth(t.bpp)
  {}

  lemma FastStrip(m: Image, t: Target, size: nat, y: nat)
    requires Fits(m, t, size) && y < m.height && |m.data| == m.height * Spitch(m.width)
    ensures var s, r, k := y * Spitch(m.width), StripOf(m, SpotOf(t), y), Words(m.width, t.bpp);
      && Depth(t.bpp) && s + Spitch(m.width) <= |m.data| && k * Ppw(t.bpp) <= m.width
      && r == Strip(m.data[s..s + Spitch(m.width)], 0, t.bpp, m.width, ToBits(m.fg), ToBits(m.bg))
      && RowWord(SpotOf(t), y) == t.base + y * t.pitch && Span(r) == k
  {
    RowFits(m, y);
    WholeWords(m, t, size, Words(m.width, t.bpp));
    WordsBits(t.bpp, m.width);
    hide ToBits, Spitch, Fits;
  }

  lemma WordsBits(bpp: nat, width: nat)
    requires Depth(bpp) && width % Ppw(bpp) == 0
    ensures width * bpp == 32 * Words(width, bpp) && (width * bpp + 31) / 32 == Words(width, bpp)
  {}
}
