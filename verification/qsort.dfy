/** The C library's qsort: insertion sort below seven elements, else a three-way partition
    around a median, recursion on the smaller side and iteration on the larger. */
module Qsort {

  type Compare<!T> = (T, T) -> int

  /** What qsort demands of a comparator: a total preorder. */
  ghost predicate Preorder<T(!new)>(cmp: Compare<T>)
  {
    && (forall x, y :: cmp(x, y) < 0 <==> cmp(y, x) > 0)
    && (forall x, y, z :: cmp(x, y) <= 0 && cmp(y, z) <= 0 ==> cmp(x, z) <= 0)
  }

  ghost predicate Sorted<T>(s: seq<T>, cmp: Compare<T>, lo: nat, hi: nat)
    requires hi <= |s|
  {
    forall i, j :: lo <= i < j < hi ==> cmp(s[i], s[j]) <= 0
  }

  /** `t` is `s` with the elements of [lo, hi) rearranged. */
  ghost predicate Permuted<T>(s: seq<T>, t: seq<T>, lo: nat, hi: nat)
  {
    && |s| == |t| && lo <= hi <= |s| && multiset(s) == multiset(t)
    && (forall i :: 0 <= i < |s| && !(lo <= i < hi) ==> s[i] == t[i])
  }

  lemma PermutedWindow<T>(s: seq<T>, t: seq<T>, lo: nat, hi: nat)
    requires Permuted(s, t, lo, hi)
    ensures multiset(s[lo..hi]) == multiset(t[lo..hi])
  {
    assert s == s[..lo] + s[lo..hi] + s[hi..];
    assert t == t[..lo] + t[lo..hi] + t[hi..];
    assert s[..lo] == t[..lo] && s[hi..] == t[hi..];
    Cancel(multiset(s[..lo]), multiset(s[lo..hi]), multiset(s[hi..]), multiset(t[lo..hi]));
  }

  lemma Cancel<T>(x: multiset<T>, m: multiset<T>, y: multiset<T>, n: multiset<T>)
    requires x + m + y == x + n + y
    ensures m == n
  {
    assert m == (x + m + y) - x - y;
    assert n == (x + n + y) - x - y;
  }

  /** Every element of the rearranged window was in it before. */
  lemma PermutedFrom<T>(s: seq<T>, t: seq<T>, lo: nat, hi: nat, j: nat) returns (i: nat)
    requires Permuted(s, t, lo, hi) && lo <= j < hi
    ensures lo <= i < hi && s[i] == t[j]
  {
    PermutedWindow(s, t, lo, hi);
    assert t[j] == t[lo..hi][j - lo];
    assert t[j] in multiset(t[lo..hi]);
    assert t[j] in s[lo..hi];
    var k :| 0 <= k < |s[lo..hi]| && s[lo..hi][k] == t[j];
    i := lo + k;
  }

  lemma PermutedTwice<T>(s: seq<T>, t: seq<T>, u: seq<T>, lo: nat, hi: nat, l: nat, h: nat)
    requires Permuted(s, t, lo, hi) && Permuted(t, u, l, h) && lo <= l <= h <= hi
    ensures Permuted(s, u, lo, hi)
  {
  }

  method Swap<T>(a: array<T>, i: nat, j: nat)
    requires i < a.Length && j < a.Length
    modifies a
    ensures a[..] == old(a[..])[i := old(a[j])][j := old(a[i])]
    ensures multiset(a[..]) == multiset(old(a[..]))
  {
    a[i], a[j] := a[j], a[i];
  }

  // ----- Small arrays

  /** [lo, hi) is in order except that the element at `k` may belong further left. */
  ghost predicate SortedBut<T>(s: seq<T>, cmp: Compare<T>, lo: nat, hi: nat, k: nat)
    requires hi <= |s|
  {
    forall i, j :: lo <= i < j < hi && j != k ==> cmp(s[i], s[j]) <= 0
  }

  lemma SwapDown<T(!new)>(s: seq<T>, cmp: Compare<T>, lo: nat, hi: nat, k: nat)
    requires Preorder(cmp) && lo < k < hi <= |s| && SortedBut(s, cmp, lo, hi, k) && cmp(s[k - 1], s[k]) > 0
    ensures SortedBut(s[k := s[k - 1]][k - 1 := s[k]], cmp, lo, hi, k - 1)
  {
    assert cmp(s[k], s[k - 1]) < 0;
  }

  lemma InPlace<T(!new)>(s: seq<T>, cmp: Compare<T>, lo: nat, hi: nat, k: nat)
    requires Preorder(cmp) && lo <= k < hi <= |s| && SortedBut(s, cmp, lo, hi, k)
    requires k == lo || cmp(s[k - 1], s[k]) <= 0
    ensures Sorted(s, cmp, lo, hi)
  {
    forall i | lo <= i < k ensures cmp(s[i], s[k]) <= 0 {
      if i < k - 1 {
        assert cmp(s[i], s[k - 1]) <= 0 && cmp(s[k - 1], s[k]) <= 0;
      }
    }
  }

  /** The inner loop: the element at `pm` moves down to its place. */
  method MoveDown<T(!new)>(a: array<T>, lo: nat, pm: nat, cmp: Compare<T>)
    requires lo <= pm < a.Length && Preorder(cmp) && Sorted(a[..], cmp, lo, pm)
    modifies a
    ensures Permuted(old(a[..]), a[..], lo, pm + 1)
    ensures Sorted(a[..], cmp, lo, pm + 1)
  {
    hide Preorder, Sorted, SortedBut;
    var pl := pm;
    assert SortedBut(a[..], cmp, lo, pm + 1, pm) by { SortedLast(a[..], cmp, lo, pm); }
    while pl > lo && cmp(a[pl - 1], a[pl]) > 0
      invariant lo <= pl <= pm
      invariant Permuted(old(a[..]), a[..], lo, pm + 1)
      invariant SortedBut(a[..], cmp, lo, pm + 1, pl)
    {
      SwapDown(a[..], cmp, lo, pm + 1, pl);
      Swap(a, pl, pl - 1);
      pl := pl - 1;
    }
    InPlace(a[..], cmp, lo, pm + 1, pl);
  }

  lemma SortedLast<T>(s: seq<T>, cmp: Compare<T>, lo: nat, pm: nat)
    requires pm < |s| && Sorted(s, cmp, lo, pm)
    ensures SortedBut(s, cmp, lo, pm + 1, pm)
  {
  }

  method InsertionSort<T(!new)>(a: array<T>, lo: nat, hi: nat, cmp: Compare<T>)
    requires lo <= hi <= a.Length && Preorder(cmp)
    modifies a
    ensures Permuted(old(a[..]), a[..], lo, hi)
    ensures Sorted(a[..], cmp, lo, hi)
  {
    hide Preorder;
    if lo == hi {
      return;
    }
    var pm := lo + 1;
    while pm < hi
      invariant lo < pm <= hi
      invariant Permuted(old(a[..]), a[..], lo, hi)
      invariant Sorted(a[..], cmp, lo, pm)
    {
      MoveDown(a, lo, pm, cmp);
      pm := pm + 1;
    }
  }

  // ----- Partition

  /** Around the pivot at `lo`: equal, less, not yet seen, greater, equal. */
  ghost predicate Quad<T>(s: seq<T>, cmp: Compare<T>, lo: nat, pa: nat, pb: nat, pc: nat, pd: nat, hi: nat)
  {
    && lo < pa <= pb <= pc + 1 <= pd + 1 <= hi <= |s|
    && (forall k :: lo <= k < pa ==> cmp(s[k], s[lo]) == 0)
    && (forall k :: pa <= k < pb ==> cmp(s[k], s[lo]) < 0)
    && (forall k :: pc < k <= pd ==> cmp(s[k], s[lo]) > 0)
    && (forall k :: pd < k < hi ==> cmp(s[k], s[lo]) == 0)
  }

  method ScanUp<T(!new)>(a: array<T>, cmp: Compare<T>, lo: nat, pa0: nat, pb0: nat, pc: nat, pd: nat, hi: nat)
    returns (pa: nat, pb: nat)
    requires hi <= a.Length && Quad(a[..], cmp, lo, pa0, pb0, pc, pd, hi)
    modifies a
    ensures Permuted(old(a[..]), a[..], lo + 1, hi)
    ensures Quad(a[..], cmp, lo, pa, pb, pc, pd, hi) && pb0 <= pb
    ensures pb <= pc ==> cmp(a[pb], a[lo]) > 0
  {
    pa, pb := pa0, pb0;
    while pb <= pc && cmp(a[pb], a[lo]) <= 0
      invariant Quad(a[..], cmp, lo, pa, pb, pc, pd, hi) && pb0 <= pb
      invariant Permuted(old(a[..]), a[..], lo + 1, hi)
      decreases pc + 1 - pb
    {
      if cmp(a[pb], a[lo]) == 0 {
        Swap(a, pa, pb);
        pa := pa + 1;
      }
      pb := pb + 1;
    }
  }

  method ScanDown<T(!new)>(a: array<T>, cmp: Compare<T>, lo: nat, pa: nat, pb: nat, pc0: nat, pd0: nat, hi: nat)
    returns (pc: nat, pd: nat)
    requires hi <= a.Length && Quad(a[..], cmp, lo, pa, pb, pc0, pd0, hi)
    modifies a
    ensures Permuted(old(a[..]), a[..], lo + 1, hi)
    ensures Quad(a[..], cmp, lo, pa, pb, pc, pd, hi) && pc <= pc0
    ensures pb <= pc ==> cmp(a[pc], a[lo]) < 0
    ensures pb < a.Length && pb <= pc0 ==> a[pb] == old(a[pb]) || pc < pb
  {
    pc, pd := pc0, pd0;
    while pb <= pc && cmp(a[pc], a[lo]) >= 0
      invariant Quad(a[..], cmp, lo, pa, pb, pc, pd, hi) && pc <= pc0
      invariant Permuted(old(a[..]), a[..], lo + 1, hi)
      invariant forall k :: 0 <= k <= pc ==> a[k] == old(a[k])
      decreases pc + 1 - pb
    {
      if cmp(a[pc], a[lo]) == 0 {
        Swap(a, pc, pd);
        pd := pd - 1;
      }
      pc := pc - 1;
    }
  }

  method Exchange<T(!new)>(a: array<T>, cmp: Compare<T>, lo: nat, pa: nat, pb: nat, pc: nat, pd: nat, hi: nat)
    requires hi <= a.Length && Quad(a[..], cmp, lo, pa, pb, pc, pd, hi) && pb < pc
    requires cmp(a[pb], a[lo]) > 0 && cmp(a[pc], a[lo]) < 0
    modifies a
    ensures Permuted(old(a[..]), a[..], lo + 1, hi)
    ensures Quad(a[..], cmp, lo, pa, pb + 1, pc - 1, pd, hi)
  {
    Swap(a, pb, pc);
  }

  lemma QuadStart<T(!new)>(s: seq<T>, cmp: Compare<T>, lo: nat, hi: nat)
    requires lo + 1 < hi <= |s| && Preorder(cmp)
    ensures Quad(s, cmp, lo, lo + 1, lo + 1, hi - 1, hi - 1, hi)
  {
    Reflexive(cmp, s[lo]);
  }

  lemma QuadBounds<T>(s: seq<T>, cmp: Compare<T>, lo: nat, pa: nat, pb: nat, pc: nat, pd: nat, hi: nat)
    requires Quad(s, cmp, lo, pa, pb, pc, pd, hi)
    ensures lo < pa <= pb <= pc + 1 <= pd + 1 <= hi <= |s|
  {
  }

  /** The for(;;) loop: on exit nothing is unseen. */
  method Separate<T(!new)>(a: array<T>, cmp: Compare<T>, lo: nat, hi: nat)
    returns (pa: nat, pb: nat, pd: nat)
    requires lo + 1 < hi <= a.Length && Preorder(cmp)
    modifies a
    ensures Permuted(old(a[..]), a[..], lo + 1, hi)
    ensures lo + 1 <= pb && Quad(a[..], cmp, lo, pa, pb, pb - 1, pd, hi)
  {
    hide Preorder, Quad;
    QuadStart(a[..], cmp, lo, hi);
    pa, pb := lo + 1, lo + 1;
    var pc: nat := hi - 1;
    pd := hi - 1;
    while true
      invariant Quad(a[..], cmp, lo, pa, pb, pc, pd, hi)
      invariant Permuted(old(a[..]), a[..], lo + 1, hi)
      decreases pc + 1 - pb
    {
      pa, pb := ScanUp(a, cmp, lo, pa, pb, pc, pd, hi);
      pc, pd := ScanDown(a, cmp, lo, pa, pb, pc, pd, hi);
      QuadBounds(a[..], cmp, lo, pa, pb, pc, pd, hi);
      if pb > pc {
        break;
      }
      Exchange(a, cmp, lo, pa, pb, pc, pd, hi);
      pb := pb + 1;
      pc := pc - 1;
    }
  }

  lemma Reflexive<T(!new)>(cmp: Compare<T>, x: T)
    requires Preorder(cmp)
    ensures cmp(x, x) == 0
  {
  }

  /** vecswap: exchanges two runs of `n` elements. */
  method VecSwap<T>(a: array<T>, x: nat, y: nat, n: nat)
    requires x + n <= y && y + n <= a.Length
    modifies a
    ensures multiset(a[..]) == multiset(old(a[..]))
    ensures forall k :: x <= k < x + n ==> a[k] == old(a[k - x + y])
    ensures forall k :: y <= k < y + n ==> a[k] == old(a[k - y + x])
    ensures forall k :: 0 <= k < a.Length && !(x <= k < x + n) && !(y <= k < y + n) ==> a[k] == old(a[k])
  {
    var i := 0;
    while i < n
      invariant i <= n && multiset(a[..]) == multiset(old(a[..]))
      invariant forall k :: x <= k < x + i ==> a[k] == old(a[k - x + y])
      invariant forall k :: y <= k < y + i ==> a[k] == old(a[k - y + x])
      invariant forall k :: 0 <= k < a.Length && !(x <= k < x + i) && !(y <= k < y + i) ==> a[k] == old(a[k])
    {
      Swap(a, x + i, y + i);
      i := i + 1;
    }
  }

  /** [lo, hi) split into `r` elements below `p`, `t` above it at the end, and its equals between. */
  ghost predicate Split<T>(s: seq<T>, cmp: Compare<T>, lo: nat, r: nat, t: nat, hi: nat, p: T)
  {
    && lo + r + t < hi <= |s|
    && (forall k :: lo <= k < lo + r ==> cmp(s[k], p) < 0)
    && (forall k :: lo + r <= k < hi - t ==> cmp(s[k], p) == 0)
    && (forall k :: hi - t <= k < hi ==> cmp(s[k], p) > 0)
  }

  /** Moves the equals of the left end to the middle. */
  method MoveLeft<T>(a: array<T>, cmp: Compare<T>, lo: nat, pa: nat, pb: nat, pd: nat, hi: nat, ghost p: T)
    requires lo + 1 <= pb && hi <= a.Length && Quad(a[..], cmp, lo, pa, pb, pb - 1, pd, hi) && a[lo] == p
    modifies a
    ensures Permuted(old(a[..]), a[..], lo, hi)
    ensures forall k :: lo <= k < lo + (pb - pa) ==> cmp(a[k], p) < 0
    ensures forall k :: lo + (pb - pa) <= k < pb ==> cmp(a[k], p) == 0
    ensures forall k :: pb <= k <= pd ==> cmp(a[k], p) > 0
    ensures forall k :: pd < k < hi ==> cmp(a[k], p) == 0
  {
    var n := if pa - lo < pb - pa then pa - lo else pb - pa;
    VecSwap(a, lo, pb - n, n);
  }

  /** Moves the equals of the right end to the middle. */
  method MoveRight<T>(a: array<T>, cmp: Compare<T>, lo: nat, r: nat, pb: nat, pd: nat, hi: nat, ghost p: T)
    requires lo + r < pb <= pd + 1 <= hi <= a.Length
    requires forall k :: lo <= k < lo + r ==> cmp(a[k], p) < 0
    requires forall k :: lo + r <= k < pb ==> cmp(a[k], p) == 0
    requires forall k :: pb <= k <= pd ==> cmp(a[k], p) > 0
    requires forall k :: pd < k < hi ==> cmp(a[k], p) == 0
    modifies a
    ensures Permuted(old(a[..]), a[..], lo, hi)
    ensures Split(a[..], cmp, lo, r, pd + 1 - pb, hi, p)
  {
    var t := pd + 1 - pb;
    var n := if t < hi - pd - 1 then t else hi - pd - 1;
    VecSwap(a, pb, hi - n, n);
  }

  /** The median of three positions, by the comparisons qsort makes. */
  function Med3<T>(s: seq<T>, x: nat, y: nat, z: nat, cmp: Compare<T>): (m: nat)
    requires x < |s| && y < |s| && z < |s|
    ensures m == x || m == y || m == z
  {
    if cmp(s[x], s[y]) < 0 then (if cmp(s[y], s[z]) < 0 then y else if cmp(s[x], s[z]) < 0 then z else x)
    else (if cmp(s[y], s[z]) > 0 then y else if cmp(s[x], s[z]) < 0 then x else z)
  }

  lemma Med3IsMedian<T(!new)>(s: seq<T>, x: nat, y: nat, z: nat, cmp: Compare<T>)
    requires x < |s| && y < |s| && z < |s| && Preorder(cmp)
    ensures var m := s[Med3(s, x, y, z, cmp)];
      var lows := (if cmp(s[x], m) <= 0 then 1 else 0) + (if cmp(s[y], m) <= 0 then 1 else 0) + (if cmp(s[z], m) <= 0 then 1 else 0);
         var highs := (if cmp(s[x], m) >= 0 then 1 else 0) + (if cmp(s[y], m) >= 0 then 1 else 0) + (if cmp(s[z], m) >= 0 then 1 else 0);
         lows >= 2 && highs >= 2
  {
    Reflexive(cmp, s[x]);
    Reflexive(cmp, s[y]);
    Reflexive(cmp, s[z]);
  }

  /** The pivot position: the middle, the median of three, or the median of three medians. */
  function Pivot<T>(s: seq<T>, lo: nat, n: nat, cmp: Compare<T>): (m: nat)
    requires 7 <= n && lo + n <= |s|
    ensures lo <= m < lo + n
  {
    var mid, last := lo + n / 2, lo + n - 1;
    if n == 7 then mid
    else if n <= 40 then Med3(s, lo, mid, last, cmp)
    else
      var d := n / 8;
      Med3(s, Med3(s, lo, lo + d, lo + 2 * d, cmp), Med3(s, mid - d, mid, mid + d, cmp),
           Med3(s, last - 2 * d, last - d, last, cmp), cmp)
  }

  /** `p` is the element at the pivot position. */
  ghost predicate Chosen<T>(s: seq<T>, lo: nat, n: nat, cmp: Compare<T>, p: T)
    requires 7 <= n && lo + n <= |s|
  {
    p == s[Pivot(s, lo, n, cmp)]
  }

  /** The chosen pivot goes to the front. */
  method MovePivot<T>(a: array<T>, lo: nat, n: nat, cmp: Compare<T>)
    requires 7 <= n && lo + n <= a.Length
    modifies a
    ensures Permuted(old(a[..]), a[..], lo, lo + n) && Chosen(old(a[..]), lo, n, cmp, a[lo])
  {
    hide Permuted, Pivot;
    var pm := Pivot(a[..], lo, n, cmp);
    SwapPermuted(a[..], lo, pm, lo, lo + n);
    Swap(a, lo, pm);
  }

  /** One pass: [lo, lo + n) becomes `r` elements below the pivot, its equals, and `t` above it. */
  method Partition<T(!new)>(a: array<T>, lo: nat, n: nat, cmp: Compare<T>) returns (r: nat, t: nat, ghost p: T)
    requires 7 <= n && lo + n <= a.Length && Preorder(cmp)
    modifies a
    ensures Permuted(old(a[..]), a[..], lo, lo + n)
    ensures Split(a[..], cmp, lo, r, t, lo + n, p) && Chosen(old(a[..]), lo, n, cmp, p)
  {
    hide Preorder, Split, Quad, Permuted, Chosen;
    ghost var s0 := a[..];
    MovePivot(a, lo, n, cmp);
    ghost var s1 := a[..];
    p := a[lo];
    var pa, pb, pd := Separate(a, cmp, lo, lo + n);
    ghost var s2 := a[..];
    QuadBounds(s2, cmp, lo, pa, pb, pb - 1, pd, lo + n);
    PermutedAt(s1, s2, lo + 1, lo + n, lo);
    PermutedTwice(s0, s1, s2, lo, lo + n, lo + 1, lo + n);
    MoveLeft(a, cmp, lo, pa, pb, pd, lo + n, p);
    ghost var s3 := a[..];
    PermutedTwice(s0, s2, s3, lo, lo + n, lo, lo + n);
    r := pb - pa;
    MoveRight(a, cmp, lo, r, pb, pd, lo + n, p);
    t := pd + 1 - pb;
    PermutedTwice(s0, s3, a[..], lo, lo + n, lo, lo + n);
  }

  lemma SwapPermuted<T>(s: seq<T>, i: nat, j: nat, lo: nat, hi: nat)
    requires lo <= i < hi <= |s| && lo <= j < hi
    ensures Permuted(s, s[i := s[j]][j := s[i]], lo, hi)
  {
  }

  lemma PermutedAt<T>(s: seq<T>, t: seq<T>, lo: nat, hi: nat, k: nat)
    requires Permuted(s, t, lo, hi) && k < |s| && !(lo <= k < hi)
    ensures |t| == |s| && t[k] == s[k]
  {
  }

  // ----- The whole sort

  function Pow2(n: nat): (p: nat)
    ensures p > 0
  {
    if n == 0 then 1 else 2 * Pow2(n - 1)
  }

  /** Everything in [lo, hi) is in order except inside the window [l, h). */
  ghost predicate SortedAround<T>(s: seq<T>, cmp: Compare<T>, lo: nat, l: nat, h: nat, hi: nat)
    requires hi <= |s|
  {
    forall i, j :: lo <= i < j < hi && !(l <= i && j < h) ==> cmp(s[i], s[j]) <= 0
  }

  /** Rearranging the window keeps the order around it. */
  lemma AroundPermuted<T>(s: seq<T>, t: seq<T>, cmp: Compare<T>, lo: nat, l: nat, h: nat, hi: nat)
    requires lo <= l <= h <= hi <= |s| && SortedAround(s, cmp, lo, l, h, hi) && Permuted(s, t, l, h)
    ensures SortedAround(t, cmp, lo, l, h, hi)
  {
    forall i, j | lo <= i < j < hi && !(l <= i && j < h) ensures cmp(t[i], t[j]) <= 0 {
      if l <= i < h {
        var k := PermutedFrom(s, t, l, h, i);
      } else if l <= j < h {
        var k := PermutedFrom(s, t, l, h, j);
      }
    }
  }

  /** After a pass only the two outer parts can be out of order. */
  lemma AroundSplit<T(!new)>(s: seq<T>, cmp: Compare<T>, lo: nat, l: nat, h: nat, hi: nat, r: nat, t: nat, p: T)
    requires lo <= l <= h <= hi <= |s| && Preorder(cmp) && SortedAround(s, cmp, lo, l, h, hi) && Split(s, cmp, l, r, t, h, p)
    requires Sorted(s, cmp, l, l + r) || Sorted(s, cmp, h - t, h)
    ensures Sorted(s, cmp, h - t, h) ==> SortedAround(s, cmp, lo, l, l + r, hi)
    ensures Sorted(s, cmp, l, l + r) ==> SortedAround(s, cmp, lo, h - t, h, hi)
  {
    forall i, j | l <= i < j < h && !(i < l + r && j < l + r) && !(h - t <= i && h - t <= j)
      ensures cmp(s[i], s[j]) <= 0
    {
      assert cmp(s[i], p) <= 0 && cmp(p, s[j]) <= 0;
    }
  }

  lemma SplitPermuted<T>(s: seq<T>, u: seq<T>, cmp: Compare<T>, lo: nat, r: nat, t: nat, hi: nat, p: T, l: nat, h: nat)
    requires Split(s, cmp, lo, r, t, hi, p) && Permuted(s, u, l, h)
    requires (l == lo && h == lo + r) || (l == hi - t && h == hi)
    ensures Split(u, cmp, lo, r, t, hi, p)
  {
    forall k | l <= k < h ensures (l == lo && h == lo + r ==> cmp(u[k], p) < 0) && (l == hi - t && h == hi ==> cmp(u[k], p) > 0) {
      var m := PermutedFrom(s, u, l, h, k);
    }
  }

  lemma WholeWindow<T>(s: seq<T>, cmp: Compare<T>, lo: nat, hi: nat)
    requires lo <= hi <= |s|
    ensures SortedAround(s, cmp, lo, lo, hi, hi) && Permuted(s, s, lo, hi)
  {
  }

  /** When the window is sorted, or too small to be out of order, all is sorted. */
  lemma WindowDone<T>(s: seq<T>, cmp: Compare<T>, lo: nat, l: nat, h: nat, hi: nat)
    requires lo <= l <= h <= hi <= |s| && SortedAround(s, cmp, lo, l, h, hi) && (h - l <= 1 || Sorted(s, cmp, l, h))
    ensures Sorted(s, cmp, lo, hi)
  {
  }

  lemma SortedSmall<T>(s: seq<T>, cmp: Compare<T>, l: nat, h: nat)
    requires l <= h <= |s| && h - l <= 1
    ensures Sorted(s, cmp, l, h) && Permuted(s, s, l, h)
  {
  }

  /** A pass, then one side sorted: the window shrinks to the other side. */
  lemma Shrink<T(!new)>(s0: seq<T>, s1: seq<T>, s2: seq<T>, cmp: Compare<T>, lo: nat, l: nat, h: nat, hi: nat,
                        r: nat, t: nat, p: T, left: bool)
    requires lo <= l <= h <= hi <= |s0| && Preorder(cmp) && SortedAround(s0, cmp, lo, l, h, hi)
    requires Permuted(s0, s1, l, h) && Split(s1, cmp, l, r, t, h, p)
    requires if left then Permuted(s1, s2, l, l + r) && Sorted(s2, cmp, l, l + r)
             else Permuted(s1, s2, h - t, h) && Sorted(s2, cmp, h - t, h)
    ensures |s2| == |s0| && Permuted(s0, s2, l, h)
    ensures if left then SortedAround(s2, cmp, lo, h - t, h, hi) else SortedAround(s2, cmp, lo, l, l + r, hi)
  {
    hide Preorder, SortedAround, Sorted;
    var x, y := if left then l else h - t, if left then l + r else h;
    PermutedTwice(s0, s1, s2, l, h, x, y);
    AroundPermuted(s0, s2, cmp, lo, l, h, hi);
    SplitPermuted(s1, s2, cmp, l, r, t, h, p, x, y);
    AroundSplit(s2, cmp, lo, l, h, hi, r, t, p);
  }

  lemma SplitBounds<T>(s: seq<T>, cmp: Compare<T>, lo: nat, r: nat, t: nat, hi: nat, p: T)
    requires Split(s, cmp, lo, r, t, hi, p)
    ensures lo + r + t < hi <= |s|
  {
  }

  /** One turn of the loop: a pass over the window, recursion on the smaller side if it needs
      sorting, and the larger side as the next window. */
  method Turn<T(!new)>(a: array<T>, ghost lo: nat, l: nat, m: nat, ghost hi: nat, cmp: Compare<T>)
    returns (l1: nat, m1: nat, depth: nat)
    requires lo <= l && l + m <= hi <= a.Length && 7 <= m && Preorder(cmp) && SortedAround(a[..], cmp, lo, l, l + m, hi)
    modifies a
    ensures l <= l1 && l1 + m1 <= l + m && m1 < m
    ensures Permuted(old(a[..]), a[..], l, l + m)
    ensures SortedAround(a[..], cmp, lo, l1, l1 + m1, hi)
    ensures depth == 0 || Pow2(depth) <= m
    decreases m, 0
  {
    hide Preorder, Split, Permuted, SortedAround, Sorted, Chosen, Pivot;
    ghost var s0 := a[..];
    var r, t, p := Partition(a, l, m, cmp);
    ghost var s1 := a[..];
    SplitBounds(s1, cmp, l, r, t, l + m, p);
    depth := 0;
    if r < t {
      if t > 1 && r > 1 {
        depth := QSort(a, l, r, cmp);
        depth := depth + 1;
      } else {
        SortedSmall(a[..], cmp, l, l + r);
      }
      Shrink(s0, s1, a[..], cmp, lo, l, l + m, hi, r, t, p, true);
      l1, m1 := l + m - t, t;
    } else {
      if r > 1 && t > 1 {
        depth := QSort(a, l + m - t, t, cmp);
        depth := depth + 1;
      } else {
        SortedSmall(a[..], cmp, l + m - t, l + m);
      }
      Shrink(s0, s1, a[..], cmp, lo, l, l + m, hi, r, t, p, false);
      l1, m1 := l, r;
    }
  }

  /** qsort on [lo, lo + n). The result is how deep the recursion went: at most log2 of `n`. */
  method QSort<T(!new)>(a: array<T>, lo: nat, n: nat, cmp: Compare<T>) returns (depth: nat)
    requires lo + n <= a.Length && Preorder(cmp)
    modifies a
    ensures Permuted(old(a[..]), a[..], lo, lo + n)
    ensures Sorted(a[..], cmp, lo, lo + n)
    ensures depth == 0 || Pow2(depth) <= n
    decreases n, 1
  {
    hide Preorder, Split, Permuted, SortedAround, Sorted, Pow2;
    depth := 0;
    var l: nat, m: nat := lo, n;
    WholeWindow(a[..], cmp, lo, lo + n);
    while m >= 7
      invariant lo <= l && l + m <= lo + n
      invariant Permuted(old(a[..]), a[..], lo, lo + n)
      invariant SortedAround(a[..], cmp, lo, l, l + m, lo + n)
      invariant depth == 0 || Pow2(depth) <= n
      decreases m
    {
      ghost var s0, l0, h0 := a[..], l, l + m;
      var d;
      l, m, d := Turn(a, lo, l, m, lo + n, cmp);
      PermutedTwice(old(a[..]), s0, a[..], lo, lo + n, l0, h0);
      depth := if d > depth then d else depth;
    }
    ghost var s2 := a[..];
    LastWindow(a, lo, l, l + m, lo + n, cmp);
    PermutedTwice(old(a[..]), s2, a[..], lo, lo + n, l, l + m);
  }

  /** A window of fewer than seven elements, empty or single when the last pass left nothing to do. */
  method LastWindow<T(!new)>(a: array<T>, ghost lo: nat, l: nat, h: nat, ghost hi: nat, cmp: Compare<T>)
    requires lo <= l <= h <= hi <= a.Length && Preorder(cmp) && SortedAround(a[..], cmp, lo, l, h, hi)
    modifies a
    ensures Permuted(old(a[..]), a[..], l, h)
    ensures Sorted(a[..], cmp, lo, hi)
  {
    hide Preorder, Permuted, SortedAround, Sorted;
    if h - l <= 1 {
      SortedSmall(a[..], cmp, l, h);
      WindowDone(a[..], cmp, lo, l, h, hi);
      return;
    }
    InsertionSort(a, l, h, cmp);
    AroundPermuted(old(a[..]), a[..], cmp, lo, l, h, hi);
    WindowDone(a[..], cmp, lo, l, h, hi);
  }
}
