/** The pivot: how far it is from the ends, and so how long the sides of a pass can be. */
module QsortBalance {
  import opened Qsort

  /** Those of `q` that are not above `p`, and those not below it. */
  function Low<T>(q: seq<T>, cmp: Compare<T>, p: T): nat
  {
    if q == [] then 0 else (if cmp(q[0], p) <= 0 then 1 else 0) + Low(q[1..], cmp, p)
  }

  function High<T>(q: seq<T>, cmp: Compare<T>, p: T): nat
  {
    if q == [] then 0 else (if cmp(q[0], p) >= 0 then 1 else 0) + High(q[1..], cmp, p)
  }

  lemma {:induction false} Parts<T>(x: seq<T>, y: seq<T>, cmp: Compare<T>, p: T)
    ensures Low(x + y, cmp, p) == Low(x, cmp, p) + Low(y, cmp, p) && High(x + y, cmp, p) == High(x, cmp, p) + High(y, cmp, p)
    decreases |x|
  {
    if x == [] {
      assert x + y == y;
    } else {
      Parts(x[1..], y, cmp, p);
      assert (x + y)[0] == x[0] && (x + y)[1..] == x[1..] + y;
    }
  }

  lemma Less<T>(a: multiset<T>, b: multiset<T>, c: multiset<T>)
    requires a + c == b + c
    ensures a == b
  {
    assert a == (a + c) - c && b == (b + c) - c;
  }

  lemma Removed<T>(x: seq<T>, y: seq<T>, i: nat)
    requires x != [] && i < |y| && y[i] == x[0] && multiset(x) == multiset(y)
    ensures multiset(x[1..]) == multiset(y[..i] + y[i + 1..])
  {
    var one := [x[0]];
    assert x == one + x[1..] && y == y[..i] + one + y[i + 1..];
    assert multiset(x) == multiset(x[1..]) + multiset(one);
    assert multiset(y) == multiset(y[..i] + y[i + 1..]) + multiset(one);
    Less(multiset(x[1..]), multiset(y[..i] + y[i + 1..]), multiset(one));
  }

  /** A permutation has as many of each. */
  lemma {:induction false} SameCounts<T>(x: seq<T>, y: seq<T>, cmp: Compare<T>, p: T)
    requires multiset(x) == multiset(y)
    ensures Low(x, cmp, p) == Low(y, cmp, p) && High(x, cmp, p) == High(y, cmp, p)
    decreases |x|
  {
    if x == [] {
      assert |multiset(y)| == 0;
    } else {
      assert x[0] in multiset(y);
      var i :| 0 <= i < |y| && y[i] == x[0];
      hide Low, High;
      var a, b := y[..i], y[i + 1..];
      Removed(x, y, i);
      SameCounts(x[1..], a + b, cmp, p);
      assert x == [x[0]] + x[1..] && y == a + ([x[0]] + b);
      Parts(a, [x[0]] + b, cmp, p);
      Parts([x[0]], b, cmp, p);
      Parts([x[0]], x[1..], cmp, p);
      Parts(a, b, cmp, p);
    }
  }

  lemma RangeBag<T>(s: seq<T>, t: seq<T>, lo: nat, hi: nat)
    requires Permuted(s, t, lo, hi)
    ensures multiset(s[lo..hi]) == multiset(t[lo..hi])
  {
    assert s[..lo] == t[..lo] && s[hi..] == t[hi..];
    var c := multiset(s[..lo]) + multiset(s[hi..]);
    assert s == s[..lo] + s[lo..hi] + s[hi..] && t == t[..lo] + t[lo..hi] + t[hi..];
    assert multiset(s) == multiset(s[lo..hi]) + c && multiset(t) == multiset(t[lo..hi]) + c;
    Less(multiset(s[lo..hi]), multiset(t[lo..hi]), c);
  }

  function Picked<T>(q: seq<T>, at: seq<nat>): (r: seq<T>)
    requires forall i :: 0 <= i < |at| ==> at[i] < |q|
    ensures |r| == |at| && forall i :: 0 <= i < |r| ==> r[i] == q[at[i]]
  {
    seq(|at|, i requires 0 <= i < |at| => q[at[i]])
  }

  predicate Ascending(at: seq<nat>) { forall i, j :: 0 <= i < j < |at| ==> at[i] < at[j] }

  /** At some of the places there are no more than at all. */
  lemma {:induction false} Counted<T>(q: seq<T>, cmp: Compare<T>, p: T, at: seq<nat>)
    requires Ascending(at) && forall i :: 0 <= i < |at| ==> at[i] < |q|
    ensures Low(Picked(q, at), cmp, p) <= Low(q, cmp, p) && High(Picked(q, at), cmp, p) <= High(q, cmp, p)
    decreases |at|
  {
    if at != [] {
      var n := |at| - 1;
      var k := at[n];
      Counted(q[..k], cmp, p, at[..n]);
      assert Picked(q, at) == Picked(q[..k], at[..n]) + [q[k]];
      assert q == q[..k] + ([q[k]] + q[k + 1..]);
      Parts(q[..k], [q[k]] + q[k + 1..], cmp, p);
      Parts([q[k]], q[k + 1..], cmp, p);
      Parts(Picked(q[..k], at[..n]), [q[k]], cmp, p);
    }
  }

  lemma ThreeCounts<T>(x: T, y: T, z: T, cmp: Compare<T>, p: T)
    ensures Low([x, y, z], cmp, p) == (if cmp(x, p) <= 0 then 1 else 0) + (if cmp(y, p) <= 0 then 1 else 0) + (if cmp(z, p) <= 0 then 1 else 0)
    ensures High([x, y, z], cmp, p) == (if cmp(x, p) >= 0 then 1 else 0) + (if cmp(y, p) >= 0 then 1 else 0) + (if cmp(z, p) >= 0 then 1 else 0)
  {
    OneCount(x, cmp, p);
    OneCount(y, cmp, p);
    OneCount(z, cmp, p);
    hide Low, High;
    assert [x, y, z] == [x] + ([y] + [z]);
    Parts([x], [y] + [z], cmp, p);
    Parts([y], [z], cmp, p);
  }

  lemma OneCount<T>(x: T, cmp: Compare<T>, p: T)
    ensures Low([x], cmp, p) == (if cmp(x, p) <= 0 then 1 else 0) && High([x], cmp, p) == (if cmp(x, p) >= 0 then 1 else 0)
  {
    assert [x][1..] == [];
  }

  /** Two of three are on each side of what their median is on. */
  lemma Triple<T(!new)>(s: seq<T>, x: nat, y: nat, z: nat, cmp: Compare<T>, p: T)
    requires x < |s| && y < |s| && z < |s| && Preorder(cmp)
    ensures var m := s[Med3(s, x, y, z, cmp)];
      && (cmp(m, p) <= 0 ==> Low([s[x], s[y], s[z]], cmp, p) >= 2) && (cmp(m, p) >= 0 ==> High([s[x], s[y], s[z]], cmp, p) >= 2)
  {
    var m := s[Med3(s, x, y, z, cmp)];
    Med3IsMedian(s, x, y, z, cmp);
    ThreeCounts(s[x], s[y], s[z], cmp, p);
    Onward(cmp, s[x], m, p);
    Onward(cmp, s[y], m, p);
    Onward(cmp, s[z], m, p);
    hide Low, High, Med3, Preorder;
  }

  lemma Onward<T(!new)>(cmp: Compare<T>, x: T, m: T, p: T)
    requires Preorder(cmp)
    ensures cmp(x, m) <= 0 && cmp(m, p) <= 0 ==> cmp(x, p) <= 0
    ensures cmp(x, m) >= 0 && cmp(m, p) >= 0 ==> cmp(x, p) >= 0
  {}

  /** At least one element besides the pivot is not above it, and one not below it, if more than seven are sorted;
      three if more than forty are. */
  lemma Inner<T(!new)>(s: seq<T>, lo: nat, n: nat, cmp: Compare<T>)
    requires 7 < n && lo + n <= |s| && Preorder(cmp)
    ensures var p, q := s[Pivot(s, lo, n, cmp)], s[lo..lo + n];
      && Low(q, cmp, p) >= 2 && High(q, cmp, p) >= 2
      && (n > 40 ==> Low(q, cmp, p) >= 4 && High(q, cmp, p) >= 4)
  {
    if n > 40 { InnerLong(s, lo, n, cmp); } else { InnerShort(s, lo, n, cmp); }
  }

  lemma InnerShort<T(!new)>(s: seq<T>, lo: nat, n: nat, cmp: Compare<T>)
    requires 7 < n <= 40 && lo + n <= |s| && Preorder(cmp)
    ensures var p, q := s[Pivot(s, lo, n, cmp)], s[lo..lo + n]; Low(q, cmp, p) >= 2 && High(q, cmp, p) >= 2
  {
    var m := n / 2;
    assert Pivot(s, lo, n, cmp) == Med3(s, lo, lo + m, lo + n - 1, cmp);
    hide *;
    InnerThree(s, lo, n, m, cmp, s[Pivot(s, lo, n, cmp)]);
  }

  lemma InnerThree<T(!new)>(s: seq<T>, lo: nat, n: nat, m: nat, cmp: Compare<T>, p: T)
    requires 0 < m < n - 1 && lo + n <= |s| && Preorder(cmp) && p == s[Med3(s, lo, lo + m, lo + n - 1, cmp)]
    ensures var q := s[lo..lo + n]; Low(q, cmp, p) >= 2 && High(q, cmp, p) >= 2
  {
    Reflexive(cmp, p);
    hide Low, High, Med3, Preorder;
    Triple(s, lo, lo + m, lo + n - 1, cmp, p);
    AtThree(s[lo..lo + n], cmp, p, 0, m, n - 1, [s[lo], s[lo + m], s[lo + n - 1]]);
  }

  lemma ThreePicked<T>(q: seq<T>, x: nat, y: nat, z: nat)
    requires x < y < z < |q|
    ensures Ascending([x, y, z]) && Picked(q, [x, y, z]) == [q[x], q[y], q[z]]
  {}

  /** Three triples, and the median of their medians. */
  lemma Triples<T(!new)>(s: seq<T>, x: Three, y: Three, z: Three, cmp: Compare<T>, p: T)
    requires In(x, |s|) && In(y, |s|) && In(z, |s|) && Preorder(cmp) && s[Median(s, x, y, z, cmp)] == p
    ensures Low(Values(s, x), cmp, p) + Low(Values(s, y), cmp, p) + Low(Values(s, z), cmp, p) >= 4
    ensures High(Values(s, x), cmp, p) + High(Values(s, y), cmp, p) + High(Values(s, z), cmp, p) >= 4
  {
    var a, b, c := Med3(s, x.a, x.b, x.c, cmp), Med3(s, y.a, y.b, y.c, cmp), Med3(s, z.a, z.b, z.c, cmp);
    Reflexive(cmp, p);
    hide Low, High, Med3, Preorder;
    Triple(s, x.a, x.b, x.c, cmp, p);
    Triple(s, y.a, y.b, y.c, cmp, p);
    Triple(s, z.a, z.b, z.c, cmp, p);
    Triple(s, a, b, c, cmp, p);
    ThreeCounts(s[a], s[b], s[c], cmp, p);
  }

  /** Three places of a range. */
  datatype Three = Three(a: nat, b: nat, c: nat)

  predicate In(x: Three, n: nat) { x.a < n && x.b < n && x.c < n }

  function Median<T>(s: seq<T>, x: Three, y: Three, z: Three, cmp: Compare<T>): (m: nat)
    requires In(x, |s|) && In(y, |s|) && In(z, |s|)
    ensures m < |s|
  {
    Med3(s, Med3(s, x.a, x.b, x.c, cmp), Med3(s, y.a, y.b, y.c, cmp), Med3(s, z.a, z.b, z.c, cmp), cmp)
  }

  function Values<T>(s: seq<T>, x: Three): seq<T>
    requires In(x, |s|)
  {
    [s[x.a], s[x.b], s[x.c]]
  }

  function Left(lo: nat, d: nat): Three { Three(lo, lo + d, lo + 2 * d) }

  function Middle(m: nat, d: nat): Three
    requires d <= m
  {
    Three(m - d, m, m + d)
  }

  function Right(last: nat, d: nat): Three
    requires 2 * d <= last
  {
    Three(last - 2 * d, last - d, last)
  }

  /** At three places there are no more than at all. */
  lemma AtThree<T>(q: seq<T>, cmp: Compare<T>, p: T, x: nat, y: nat, z: nat, three: seq<T>)
    requires x < y < z < |q| && three == [q[x], q[y], q[z]]
    ensures Low(three, cmp, p) <= Low(q, cmp, p) && High(three, cmp, p) <= High(q, cmp, p)
  {
    ThreePicked(q, x, y, z);
    hide Low, High;
    Counted(q, cmp, p, [x, y, z]);
  }

  predicate Within(t: Three, i: nat, j: nat) { i <= t.a < t.b < t.c < j }

  lemma AtSlice<T>(q: seq<T>, i: nat, j: nat, cmp: Compare<T>, p: T, t: Three)
    requires Within(t, i, j) && j <= |q|
    ensures In(t, |q|) && i <= j
    ensures Low(Values(q, t), cmp, p) <= Low(q[i..j], cmp, p) && High(Values(q, t), cmp, p) <= High(q[i..j], cmp, p)
  {
    hide Low, High;
    AtThree(q[i..j], cmp, p, t.a - i, t.b - i, t.c - i, Values(q, t));
  }

  /** The three triples lie in three parts of the range. */
  lemma AtNine<T>(q: seq<T>, cmp: Compare<T>, p: T, i: nat, j: nat, x: Three, y: Three, z: Three)
    requires Within(x, 0, i) && Within(y, i, j) && Within(z, j, |q|)
    ensures In(x, |q|) && In(y, |q|) && In(z, |q|)
    ensures Low(Values(q, x), cmp, p) + Low(Values(q, y), cmp, p) + Low(Values(q, z), cmp, p) <= Low(q, cmp, p)
    ensures High(Values(q, x), cmp, p) + High(Values(q, y), cmp, p) + High(Values(q, z), cmp, p) <= High(q, cmp, p)
  {
    InOrder(x, 0, i);
    InOrder(y, i, j);
    InOrder(z, j, |q|);
    hide *;
    AtSlice(q, 0, i, cmp, p, x);
    AtSlice(q, i, j, cmp, p, y);
    AtSlice(q, j, |q|, cmp, p, z);
    ThreeParts(q, i, j, cmp, p);
  }

  lemma InOrder(t: Three, i: nat, j: nat)
    requires Within(t, i, j)
    ensures i <= j
  {}

  lemma ThreeParts<T>(q: seq<T>, i: nat, j: nat, cmp: Compare<T>, p: T)
    requires i <= j <= |q|
    ensures Low(q, cmp, p) == Low(q[0..i], cmp, p) + Low(q[i..j], cmp, p) + Low(q[j..|q|], cmp, p)
    ensures High(q, cmp, p) == High(q[0..i], cmp, p) + High(q[i..j], cmp, p) + High(q[j..|q|], cmp, p)
  {
    hide Low, High;
    assert q == q[0..i] + (q[i..j] + q[j..|q|]);
    Parts(q[0..i], q[i..j] + q[j..|q|], cmp, p);
    Parts(q[i..j], q[j..|q|], cmp, p);
  }

  lemma PivotIs<T>(s: seq<T>, lo: nat, n: nat, d: nat, m: nat, cmp: Compare<T>)
    requires 40 < n && lo + n <= |s| && d == n / 8 && m == n / 2
    ensures 0 < d && 3 * d < m && m + 3 * d + 1 < n
    ensures Pivot(s, lo, n, cmp) == Median(s, Left(lo, d), Middle(lo + m, d), Right(lo + n - 1, d), cmp)
  {
    hide Med3;
  }

  lemma InnerLong<T(!new)>(s: seq<T>, lo: nat, n: nat, cmp: Compare<T>)
    requires 40 < n && lo + n <= |s| && Preorder(cmp)
    ensures var p, q := s[Pivot(s, lo, n, cmp)], s[lo..lo + n]; Low(q, cmp, p) >= 4 && High(q, cmp, p) >= 4
  {
    var d, m := n / 8, n / 2;
    PivotIs(s, lo, n, d, m, cmp);
    hide *;
    InnerAt(s, lo, n, d, m, cmp, s[Pivot(s, lo, n, cmp)]);
  }

  lemma InnerAt<T(!new)>(s: seq<T>, lo: nat, n: nat, d: nat, m: nat, cmp: Compare<T>, p: T)
    requires 0 < d && 3 * d < m && m + 3 * d + 1 < n && lo + n <= |s| && Preorder(cmp)
    requires In(Left(lo, d), |s|) && In(Middle(lo + m, d), |s|) && In(Right(lo + n - 1, d), |s|)
    requires p == s[Median(s, Left(lo, d), Middle(lo + m, d), Right(lo + n - 1, d), cmp)]
    ensures var q := s[lo..lo + n]; Low(q, cmp, p) >= 4 && High(q, cmp, p) >= 4
  {
    hide Low, High, Preorder, Median, Values;
    ShiftedValues(s, lo, n, d, m);
    var q := s[lo..lo + n];
    Triples(s, Left(lo, d), Middle(lo + m, d), Right(lo + n - 1, d), cmp, p);
    AtNine(q, cmp, p, 2 * d + 1, m + d + 1, Left(0, d), Middle(m, d), Right(n - 1, d));
  }

  lemma ShiftedValues<T>(s: seq<T>, lo: nat, n: nat, d: nat, m: nat)
    requires lo + n <= |s| && 0 < d && 3 * d < m && m + 3 * d + 1 < n
    ensures var q := s[lo..lo + n];
      && Values(q, Left(0, d)) == Values(s, Left(lo, d)) && Values(q, Middle(m, d)) == Values(s, Middle(lo + m, d))
      && Values(q, Right(n - 1, d)) == Values(s, Right(lo + n - 1, d))
  {}

  predicate Below<T>(q: seq<T>, cmp: Compare<T>, p: T) { forall i :: 0 <= i < |q| ==> cmp(q[i], p) < 0 }

  predicate Above<T>(q: seq<T>, cmp: Compare<T>, p: T) { forall i :: 0 <= i < |q| ==> cmp(q[i], p) > 0 }

  lemma {:induction false} Beyond<T>(q: seq<T>, cmp: Compare<T>, p: T)
    ensures Low(q, cmp, p) <= |q| && High(q, cmp, p) <= |q|
    ensures Below(q, cmp, p) ==> High(q, cmp, p) == 0
    ensures Above(q, cmp, p) ==> Low(q, cmp, p) == 0
  {
    if q != [] { Beyond(q[1..], cmp, p); }
  }

  /** After a pass. */
  lemma Sides<T>(q: seq<T>, cmp: Compare<T>, r: nat, n: nat, p: T)
    requires r <= n <= |q| && Below(q[..r], cmp, p) && Above(q[n..], cmp, p)
    ensures High(q, cmp, p) + r <= |q| && Low(q, cmp, p) <= n
  {
    hide *;
    assert q == q[..r] + q[r..];
    assert q == q[..n] + q[n..];
    Parts(q[..r], q[r..], cmp, p);
    Parts(q[..n], q[n..], cmp, p);
    Beyond(q[..r], cmp, p);
    Beyond(q[r..], cmp, p);
    Beyond(q[..n], cmp, p);
    Beyond(q[n..], cmp, p);
  }

  lemma SplitSides<T>(s: seq<T>, cmp: Compare<T>, lo: nat, r: nat, t: nat, hi: nat, p: T)
    requires lo <= hi <= |s| && Split(s, cmp, lo, r, t, hi, p)
    ensures r + t <= hi - lo && Below(s[lo..hi][..r], cmp, p) && Above(s[lo..hi][hi - lo - t..], cmp, p)
  {
    var below, above := s[lo..hi][..r], s[lo..hi][hi - lo - t..];
    forall i | 0 <= i < |below| ensures cmp(below[i], p) < 0 { assert below[i] == s[lo + i]; }
    forall i | 0 <= i < |above| ensures cmp(above[i], p) > 0 { assert above[i] == s[hi - t + i]; }
  }

  /** However the elements lie, neither side of a pass gets more than all but two of them, or all but four if there are
      more than forty. */
  lemma Balanced<T(!new)>(s: seq<T>, s1: seq<T>, cmp: Compare<T>, lo: nat, n: nat, r: nat, t: nat, p: T)
    requires 7 < n && lo + n <= |s| && Preorder(cmp) && Permuted(s, s1, lo, lo + n)
    requires Chosen(s, lo, n, cmp, p) && Split(s1, cmp, lo, r, t, lo + n, p)
    ensures r + 2 <= n && t + 2 <= n && (n > 40 ==> r + 4 <= n && t + 4 <= n)
  {
    hide *;
    SameLength(s, s1, lo, lo + n);
    ChosenInner(s, lo, n, cmp, p);
    RangeBag(s, s1, lo, lo + n);
    SplitSides(s1, cmp, lo, r, t, lo + n, p);
    SameCounts(s[lo..lo + n], s1[lo..lo + n], cmp, p);
    Sides(s1[lo..lo + n], cmp, r, n - t, p);
  }

  lemma SameLength<T>(s: seq<T>, t: seq<T>, lo: nat, hi: nat)
    requires Permuted(s, t, lo, hi)
    ensures |t| == |s|
  {}

  lemma ChosenInner<T(!new)>(s: seq<T>, lo: nat, n: nat, cmp: Compare<T>, p: T)
    requires 7 < n && lo + n <= |s| && Preorder(cmp) && Chosen(s, lo, n, cmp, p)
    ensures var q := s[lo..lo + n];
      && Low(q, cmp, p) >= 2 && High(q, cmp, p) >= 2
      && (n > 40 ==> Low(q, cmp, p) >= 4 && High(q, cmp, p) >= 4)
  {
    hide Pivot, Preorder, Low, High;
    Inner(s, lo, n, cmp);
  }
}
