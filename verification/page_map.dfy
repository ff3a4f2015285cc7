/** The page allocator: a bitmap of free pages, one bit for each, 32 to a word. */
module PageMap {
  const FULL: bv32 := 0xffff_ffff

  /** A bit number as a word. */
  function J(j: nat): bv32
    requires j < 32
  {
    (j as bv8) as bv32
  }

  /** a & ~(1 << j), and a | (1 << j). */
  function Clear(w: bv32, j: bv32): bv32
    requires j < 32
  {
    w & !((1 as bv32) << j)
  }

  function Put(w: bv32, j: bv32): bv32
    requires j < 32
  {
    w | ((1 as bv32) << j)
  }

  predicate At(w: bv32, j: bv32)
    requires j < 32
  {
    w & ((1 as bv32) << j) != 0
  }

  predicate Bit(w: bv32, j: nat)
    requires j < 32
  {
    Small(j); At(w, J(j))
  }

  predicate IsFree(m: seq<bv32>, p: nat) { p / 32 < |m| && Bit(m[p / 32], p % 32) }

  /** The map with page `p` in use, and with page `p` free. */
  function Taken(m: seq<bv32>, p: nat): (r: seq<bv32>)
    requires p / 32 < |m|
    ensures |r| == |m|
  {
    Small(p % 32);
    m[p / 32 := Clear(m[p / 32], J(p % 32))]
  }

  function Given(m: seq<bv32>, p: nat): (r: seq<bv32>)
    requires p / 32 < |m|
    ensures |r| == |m|
  {
    Small(p % 32);
    m[p / 32 := Put(m[p / 32], J(p % 32))]
  }

  // ----- Bits

  lemma Small(j: nat)
    requires j < 32
    ensures J(j) < 32
  {}

  lemma EightBits(j: nat)
    requires j < 32
    ensures (j as bv8) as int == j
  {}

  lemma Wider(a: bv8, b: bv8)
    ensures a as bv32 == b as bv32 ==> a == b
  {}

  lemma Apart(j: nat, k: nat)
    requires j < 32 && k < 32 && j != k
    ensures J(j) != J(k)
  {
    EightBits(j);
    EightBits(k);
    Wider(j as bv8, k as bv8);
  }

  lemma ClearAt(w: bv32, j: bv32, k: bv32)
    requires j < 32 && k < 32
    ensures At(Clear(w, j), k) <==> j != k && At(w, k)
  {
    Mask(w, j, k);
  }

  lemma Mask(w: bv32, j: bv32, k: bv32)
    requires j < 32 && k < 32
    ensures ((w | ((1 as bv32) << j)) & (1 << k) != 0) <==> (j == k || w & (1 << k) != 0)
  {}

  lemma PutAt(w: bv32, j: bv32, k: bv32)
    requires j < 32 && k < 32
    ensures At(Put(w, j), k) <==> j == k || At(w, k)
  {
    Mask(w, j, k);
  }

  lemma PutClear(w: bv32, j: bv32)
    requires j < 32 && At(w, j)
    ensures Put(Clear(w, j), j) == w
  {}

  /** Clearing and setting a bit changes that bit alone. */
  lemma BitChange(w: bv32, j: nat, k: nat)
    requires j < 32 && k < 32
    ensures J(j) < 32
    ensures Bit(Clear(w, J(j)), k) <==> k != j && Bit(w, k)
    ensures Bit(Put(w, J(j)), k) <==> k == j || Bit(w, k)
  {
    hide Clear, Put, At, J;
    Small(j);
    Small(k);
    if j != k { Apart(j, k); }
    ClearAt(w, J(j), J(k));
    PutAt(w, J(j), J(k));
  }

  lemma TakenFree(m: seq<bv32>, p: nat, q: nat)
    requires p / 32 < |m|
    ensures IsFree(Taken(m, p), q) <==> q != p && IsFree(m, q)
    ensures IsFree(Given(m, p), q) <==> q == p || IsFree(m, q)
  {
    hide Bit, Clear, Put, J;
    if p / 32 == q / 32 {
      BitChange(m[p / 32], p % 32, q % 32);
      assert p == q <==> p % 32 == q % 32;
    }
  }

  /** Putting back the page that was taken restores the map. */
  lemma PutUndoesGet(m: seq<bv32>, p: nat)
    requires IsFree(m, p)
    ensures Given(Taken(m, p), p) == m
  {
    hide At, Clear, Put, J;
    Small(p % 32);
    PutClear(m[p / 32], J(p % 32));
    assert Given(Taken(m, p), p)[p / 32] == m[p / 32];
  }

  /** A word is full when all its pages are free, and zero when none is. */
  lemma FullWord(w: bv32)
    ensures w == FULL <==> forall j: nat :: j < 32 ==> Bit(w, j)
  {
    if w == FULL {
      forall j: nat | j < 32 ensures Bit(w, j) { Small(j); OfOnes(J(j)); }
    } else if forall j: nat :: j < 32 ==> Bit(w, j) {
      AllBits(w);
    }
    hide Bit, J;
  }

  lemma OfOnes(j: bv32)
    requires j < 32
    ensures At(0xffff_ffff, j)
  {}

  lemma OfZero(j: bv32)
    requires j < 32
    ensures !At(0, j)
  {}

  lemma AllBits(w: bv32)
    requires forall j: nat :: j < 32 ==> Bit(w, j)
    ensures w == FULL
  {
    hide Bit, J, At;
    Byte0(w);
    Byte1(w);
    Byte2(w);
    Byte3(w);
    FourBytes(w);
  }

  lemma FourBytes(w: bv32)
    requires w & 0xff == 0xff && w & 0xff00 == 0xff00 && w & 0xff_0000 == 0xff_0000 && w & 0xff00_0000 == 0xff00_0000
    ensures w == 0xffff_ffff
  {}

  lemma Byte0(w: bv32)
    requires Bit(w, 0) && Bit(w, 1) && Bit(w, 2) && Bit(w, 3) && Bit(w, 4) && Bit(w, 5) && Bit(w, 6) && Bit(w, 7)
    ensures w & 0xff == 0xff
  {}

  lemma Byte1(w: bv32)
    requires Bit(w, 8) && Bit(w, 9) && Bit(w, 10) && Bit(w, 11) && Bit(w, 12) && Bit(w, 13) && Bit(w, 14) && Bit(w, 15)
    ensures w & 0xff00 == 0xff00
  {}

  lemma Byte2(w: bv32)
    requires Bit(w, 16) && Bit(w, 17) && Bit(w, 18) && Bit(w, 19) && Bit(w, 20) && Bit(w, 21) && Bit(w, 22) && Bit(w, 23)
    ensures w & 0xff0000 == 0xff0000
  {
    Bits16(w);
    Bits20(w);
    hide Bit;
  }

  lemma Bits16(w: bv32)
    requires Bit(w, 16) && Bit(w, 17) && Bit(w, 18) && Bit(w, 19)
    ensures w & 0xf0000 == 0xf0000
  {}

  lemma Bits20(w: bv32)
    requires Bit(w, 20) && Bit(w, 21) && Bit(w, 22) && Bit(w, 23)
    ensures w & 0xf00000 == 0xf00000
  {}

  lemma Byte3(w: bv32)
    requires Bit(w, 24) && Bit(w, 25) && Bit(w, 26) && Bit(w, 27) && Bit(w, 28) && Bit(w, 29) && Bit(w, 30) && Bit(w, 31)
    ensures w & 0xff000000 == 0xff000000
  {}

  lemma NoBits(w: bv32)
    requires forall j: nat :: j < 32 ==> !Bit(w, j)
    ensures w == 0
  {
    var v := !w;
    forall j: nat | j < 32 ensures Bit(v, j) { BitIs(w, j); BitIs(v, j); assert !Bit(w, j); Flipped(w, J(j)); }
    AllBits(v);
    Twice(w);
    hide Bit, J, At;
  }

  lemma Flipped(w: bv32, j: bv32)
    requires j < 32 && !At(w, j)
    ensures At(!w, j)
  {}

  lemma Twice(w: bv32)
    requires !w == FULL
    ensures w == 0
  {}

  /** The pages of a word are in the order of its bits, the lowest first. */
  lemma BitOrder(w: bv32, j: bv32)
    requires j < 31
    ensures At(w, 0) <==> w & 1 != 0
    ensures At(w, j + 1) <==> At(w >> 1, j)
  {}

  // ----- One page

  /** ffsl: the lowest bit that is set, counted from one, or 0. */
  method FindFirstSet(w: bv32) returns (k: nat)
    ensures k <= 32 && (k == 0 <==> w == 0)
    ensures k > 0 ==> Bit(w, k - 1) && forall j: nat :: j < k - 1 ==> !Bit(w, j)
  {
    hide Bit, J, At;
    var i := 0;
    while i < 32
      invariant i <= 32 && forall j: nat :: j < i ==> !Bit(w, j)
    {
      Small(i);
      BitIs(w, i);
      if At(w, J(i)) {
        NoneOf(w, i);
        return i + 1;
      }
      i := i + 1;
    }
    NoBits(w);
    k := 0;
  }

  lemma BitIs(w: bv32, j: nat)
    requires j < 32
    ensures J(j) < 32 && (Bit(w, j) <==> At(w, J(j)))
  {
    Small(j);
    hide At;
  }

  lemma LowestIn(m: seq<bv32>, i: nat, j: nat)
    requires i < |m| && j < 32 && Bit(m[i], j) && (forall k: nat :: k < j ==> !Bit(m[i], k))
    requires forall q: nat :: q / 32 < i ==> !IsFree(m, q)
    ensures var p := i * 32 + j;
      p / 32 == i && p % 32 == j && IsFree(m, p) && forall q: nat :: q < p ==> !IsFree(m, q)
  {
    var p := i * 32 + j;
    forall q: nat | q < p ensures !IsFree(m, q) {
      if q / 32 == i { assert q % 32 < j; }
    }
    hide Bit;
  }

  lemma EmptyWord(m: seq<bv32>, i: nat)
    requires i < |m| && m[i] == 0
    ensures forall q: nat :: q / 32 == i ==> !IsFree(m, q)
  {
    forall q: nat | q / 32 == i ensures !IsFree(m, q) { NoneOf(m[i], q % 32); }
    hide Bit;
  }

  lemma NoneOf(w: bv32, j: nat)
    requires j < 32
    ensures w == 0 ==> !Bit(w, j)
  {
    Small(j);
    OfZero(J(j));
    hide J, At;
  }

  /** get_page: the lowest free page, or -1. */
  method GetPage(m: array<bv32>) returns (p: int)
    modifies m
    ensures p < 0 ==> p == -1 && m[..] == old(m[..]) && forall q: nat :: !IsFree(m[..], q)
    ensures p >= 0 ==> IsFree(old(m[..]), p) && (forall q: nat :: q < p ==> !IsFree(old(m[..]), q)) && m[..] == Taken(old(m[..]), p)
  {
    hide Clear, J, Bit;
    ghost var o := m[..];
    var i := 0;
    while i < m.Length
      invariant 0 <= i <= m.Length && m[..] == o
      invariant forall q: nat :: q / 32 < i ==> !IsFree(o, q)
    {
      if m[i] != 0 {
        var k := FindFirstSet(m[i]);
        var j := k - 1;
        p := i * 32 + j;
        LowestIn(o, i, j);
        Small(j);
        m[i] := Clear(m[i], J(j));
        assert m[..] == Taken(o, p);
        return;
      }
      EmptyWord(o, i);
      i := i + 1;
    }
    p := -1;
  }

  /** put_page. */
  method PutPage(m: array<bv32>, p: nat)
    requires p / 32 < m.Length
    modifies m
    ensures m[..] == Given(old(m[..]), p)
  {
    hide Put, J;
    Small(p % 32);
    m[p / 32] := Put(m[p / 32], J(p % 32));
  }

  // ----- Several pages

  function Pow2(n: nat): nat { if n == 0 then 1 else 2 * Pow2(n - 1) }

  /** The words that 2^order pages need. */
  function Words(order: nat): nat { (Pow2(order) - 1) / 32 + 1 }

  /** `n` consecutive words from `s` on are full. */
  predicate RunAt(m: seq<bv32>, s: nat, n: nat) { s + n <= |m| && forall k :: s <= k < s + n ==> m[k] == FULL }

  /** In terms of pages. */
  lemma RunFree(m: seq<bv32>, s: nat, n: nat)
    requires s + n <= |m|
    ensures RunAt(m, s, n) <==> forall p: nat :: 32 * s <= p < 32 * (s + n) ==> IsFree(m, p)
  {
    if RunAt(m, s, n) {
      forall p: nat | 32 * s <= p < 32 * (s + n) ensures IsFree(m, p) {
        assert s <= p / 32 < s + n;
        FullWord(m[p / 32]);
      }
    } else if forall p: nat :: 32 * s <= p < 32 * (s + n) ==> IsFree(m, p) {
      forall k | s <= k < s + n ensures m[k] == FULL {
        forall j: nat | j < 32 ensures Bit(m[k], j) {
          var p := 32 * k + j;
          assert p / 32 == k && p % 32 == j && IsFree(m, p);
        }
        FullWord(m[k]);
      }
    }
    hide Bit;
  }

  /** The search of get_pages: the first run of full words, or none. */
  method FindRun(m: array<bv32>, need: nat) returns (found: bool, start: nat)
    requires need > 0
    ensures found ==> RunAt(m[..], start, need) && forall s: nat :: s < start ==> !RunAt(m[..], s, need)
    ensures !found ==> forall s: nat :: !RunAt(m[..], s, need)
  {
    var have := 0;
    start := 0;
    var i := 0;
    while i < m.Length
      invariant 0 <= i <= m.Length && 0 <= have <= i && have < need
      invariant have > 0 ==> start == i - have
      invariant forall k :: i - have <= k < i ==> m[k] == FULL
      invariant forall s: nat :: s < i - have ==> !RunAt(m[..], s, need)
    {
      if m[i] == FULL {
        if have == 0 { start := i; }
        have := have + 1;
        if have == need { return true, start; }
      } else {
        forall s: nat | s <= i ensures !RunAt(m[..], s, need) {
          if s >= i - have && s + need <= m.Length { assert m[..][i] != FULL; }
        }
        have := 0;
      }
      i := i + 1;
    }
    found := false;
  }

  /** get_pages: 2^order consecutive pages that were all free, now in use, from the lowest place where
      enough words are full; -1 if there is none. */
  method GetPages(m: array<bv32>, order: nat) returns (p: int)
    requires order < 31
    modifies m
    ensures var n, need := Pow2(order), Words(order);
      && (p < 0 <==> forall s: nat :: !RunAt(old(m[..]), s, need))
      && (p < 0 ==> p == -1 && m[..] == old(m[..]))
      && (p >= 0 ==> p % 32 == 0 && RunAt(old(m[..]), p / 32, need) && forall s: nat :: s < p / 32 ==> !RunAt(old(m[..]), s, need))
      && (p >= 0 ==> forall q: nat :: IsFree(m[..], q) <==> IsFree(old(m[..]), q) && !(p <= q < p + n))
      && (p >= 0 ==> forall q: nat :: p <= q < p + n ==> IsFree(old(m[..]), q))
  {
    hide IsFree, RunAt, Pow2;
    ghost var o := m[..];
    var num := Pow2(order);
    PowPositive(order);
    PowWords(order);
    var need := (num - 1) / 32 + 1;
    var found, start := FindRun(m, need);
    assert m[..] == o;
    if !found { return -1; }
    p := start * 32;
    RunInside(o, start, need);
    RunFree(o, start, need);
    var last := start + need - 1;
    ClearWords(m, start, last);
    num := num - 32 * (last - start);
    ghost var mid := m[..];
    ClearLast(m, last, num);
    Together(o, mid, m[..], start, last, num, Pow2(order));
  }

  lemma RunInside(m: seq<bv32>, s: nat, n: nat)
    requires RunAt(m, s, n)
    ensures s + n <= |m|
  {}

  /** All the words but the last. */
  method ClearWords(m: array<bv32>, start: nat, last: nat)
    requires start <= last < m.Length
    modifies m
    ensures forall q: nat :: IsFree(m[..], q) <==> IsFree(old(m[..]), q) && !(32 * start <= q < 32 * last)
  {
    hide IsFree;
    ghost var o := m[..];
    var i := start;
    while i < last
      invariant start <= i <= last
      invariant |m[..]| == |o| && forall k :: 0 <= k < |o| ==> m[k] == if start <= k < i then 0 else o[k]
    {
      m[i] := 0;
      i := i + 1;
    }
    ClearedWords(o, m[..], start, last);
  }

  method ClearLast(m: array<bv32>, last: nat, num: nat)
    requires last < m.Length && num <= 32
    modifies m
    ensures forall q: nat :: IsFree(m[..], q) <==> IsFree(old(m[..]), q) && !(32 * last <= q < 32 * last + num)
  {
    hide Clear, J, IsFree;
    ghost var o := m[..];
    var i := 0;
    while i < num
      invariant 0 <= i <= num
      invariant forall q: nat :: IsFree(m[..], q) <==> IsFree(o, q) && !(32 * last <= q < 32 * last + i)
    {
      ghost var was := m[..];
      Small(i);
      m[last] := Clear(m[last], J(i));
      assert m[..] == Taken(was, 32 * last + i);
      forall q: nat ensures IsFree(m[..], q) <==> IsFree(was, q) && q != 32 * last + i { TakenFree(was, 32 * last + i, q); }
      i := i + 1;
    }
  }

  lemma PowPositive(n: nat)
    ensures Pow2(n) > 0
  {}

  /** All the pages but those of the last word fill their words. */
  lemma PowWords(n: nat)
    ensures 0 < Pow2(n) - 32 * (Words(n) - 1) <= 32
  {
    PowPositive(n);
  }

  lemma ClearedWords(o: seq<bv32>, m: seq<bv32>, start: nat, last: nat)
    requires |o| == |m| && start <= last < |o| && forall k :: 0 <= k < |o| ==> m[k] == if start <= k < last then 0 else o[k]
    ensures forall q: nat :: IsFree(m, q) <==> IsFree(o, q) && !(32 * start <= q < 32 * last)
  {
    forall q: nat ensures IsFree(m, q) <==> IsFree(o, q) && !(32 * start <= q < 32 * last) {
      assert 32 * start <= q < 32 * last <==> start <= q / 32 < last;
      if start <= q / 32 < last { NoneOf(m[q / 32], q % 32); }
    }
    hide Bit;
  }

  lemma Together(o: seq<bv32>, mid: seq<bv32>, m: seq<bv32>, start: nat, last: nat, num: nat, n: nat)
    requires start <= last && n == 32 * (last - start) + num
    requires forall q: nat :: IsFree(mid, q) <==> IsFree(o, q) && !(32 * start <= q < 32 * last)
    requires forall q: nat :: IsFree(m, q) <==> IsFree(mid, q) && !(32 * last <= q < 32 * last + num)
    ensures forall q: nat :: IsFree(m, q) <==> IsFree(o, q) && !(32 * start <= q < 32 * start + n)
  {
    hide IsFree;
  }
}
