/** The packed name/value store of YAFFS: records lie back to back, each a 32-bit length, a name with
    its NUL and the value; zeros fill the rest of the buffer. */
module NamevalModel {
  import opened Words

  const SIGN: nat := 0x8000_0000

  datatype Rec = Rec(name: seq<Byte>, value: seq<Byte>)

  predicate Named(name: seq<Byte>) { forall i :: 0 <= i < |name| ==> name[i] != 0 }

  function Reclen(name: seq<Byte>, value: seq<Byte>): nat { 4 + |name| + 1 + |value| }

  function Cell(r: Rec, swap: bool): (c: seq<Byte>)
    ensures |c| == Reclen(r.name, r.value)
  {
    Put(|Body(r)| + 4, swap) + Body(r)
  }

  /** A record without its length. */
  function Body(r: Rec): (c: seq<Byte>)
    ensures |c| == |r.name| + 1 + |r.value|
  {
    r.name + [0] + r.value
  }

  function Encode(recs: seq<Rec>, swap: bool): seq<Byte>
  {
    if recs == [] then [] else Encode(recs[..|recs| - 1], swap) + Cell(recs[|recs| - 1], swap)
  }

  // ----- What a scan sees

  /** The length word at `pos`, a signed 32-bit integer. */
  function Word(buf: seq<Byte>, pos: nat, swap: bool): int
    requires pos + 4 <= |buf|
  {
    var n := Get(buf[pos..pos + 4], swap);
    if n >= SIGN then n - WRAP else n
  }

  /** The length word as the scans read it: none this close to the end, but for the first. */
  function Size(buf: seq<Byte>, pos: nat, swap: bool): int
    requires |buf| >= 4
  {
    if pos == 0 || pos < |buf| - 4 then Word(buf, pos, swap) else 0
  }

  predicate Live(buf: seq<Byte>, pos: nat, size: int) { size > 0 && size < |buf| && pos + size < |buf| }

  /** Where record `i` starts. */
  function Pos(recs: seq<Rec>, i: nat, swap: bool): nat
    requires i <= |recs|
  {
    |Encode(recs[..i], swap)|
  }

  predicate Sound(recs: seq<Rec>)
  {
    forall i :: 0 <= i < |recs| ==> Named(recs[i].name) && Reclen(recs[i].name, recs[i].value) < SIGN
  }

  predicate Distinct(recs: seq<Rec>) { forall i, j :: 0 <= i < j < |recs| ==> recs[i].name != recs[j].name }

  /** A scan of `buf` sees exactly the records `recs`. */
  ghost predicate Readable(buf: seq<Byte>, recs: seq<Rec>, swap: bool)
  {
    && 4 <= |buf| < SIGN && Sound(recs) && Distinct(recs)
    && |Encode(recs, swap)| < |buf| && buf[..|Encode(recs, swap)|] == Encode(recs, swap)
    && !Live(buf, |Encode(recs, swap)|, Size(buf, |Encode(recs, swap)|, swap))
  }

  /** The store in good order: at least one byte is free, and what is free is zero. */
  ghost predicate Packed(buf: seq<Byte>, recs: seq<Rec>, swap: bool)
  {
    && 4 <= |buf| < SIGN && Sound(recs) && Distinct(recs)
    && |Encode(recs, swap)| < |buf| && buf == Encode(recs, swap) + Zeros(|buf| - |Encode(recs, swap)|)
  }

  // ----- Layout

  lemma {:induction false} EncodeSplit(a: seq<Rec>, b: seq<Rec>, swap: bool)
    ensures Encode(a + b, swap) == Encode(a, swap) + Encode(b, swap)
    decreases |b|
  {
    hide Cell;
    if b == [] {
      assert a + b == a;
    } else {
      var init, last := b[..|b| - 1], b[|b| - 1];
      assert (a + b)[..|a + b| - 1] == a + init;
      EncodeSplit(a, init, swap);
    }
  }

  lemma EncodeAt(recs: seq<Rec>, i: nat, swap: bool)
    requires i < |recs|
    ensures Encode(recs, swap) == Encode(recs[..i], swap) + Cell(recs[i], swap) + Encode(recs[i + 1..], swap)
    ensures Pos(recs, i + 1, swap) == Pos(recs, i, swap) + |Cell(recs[i], swap)| <= |Encode(recs, swap)|
  {
    hide *;
    assert recs == recs[..i + 1] + recs[i + 1..];
    EncodeSplit(recs[..i + 1], recs[i + 1..], swap);
    EncodeLast(recs, i, swap);
    PosIs(recs, i, swap);
    PosIs(recs, i + 1, swap);
  }

  lemma PosIs(recs: seq<Rec>, i: nat, swap: bool)
    requires i <= |recs|
    ensures Pos(recs, i, swap) == |Encode(recs[..i], swap)|
  {}

  lemma EncodeLast(recs: seq<Rec>, i: nat, swap: bool)
    requires i < |recs|
    ensures Encode(recs[..i + 1], swap) == Encode(recs[..i], swap) + Cell(recs[i], swap)
  {
    hide Cell;
    assert recs[..i + 1][..i] == recs[..i];
  }

  /** The bytes of record `i`. */
  lemma CellAt(buf: seq<Byte>, recs: seq<Rec>, i: nat, swap: bool)
    requires Readable(buf, recs, swap) && i < |recs|
    ensures var p, c := Pos(recs, i, swap), Cell(recs[i], swap);
      p + |c| == Pos(recs, i + 1, swap) && p + |c| < |buf| && buf[p..p + |c|] == c
  {
    EncodeAt(recs, i, swap);
    hide Cell;
    var p, c := Pos(recs, i, swap), Cell(recs[i], swap);
    assert buf[..|Encode(recs, swap)|][p..p + |c|] == c;
  }

  /** A scan at a record's start reads the record's length. */
  lemma SizeAt(buf: seq<Byte>, recs: seq<Rec>, i: nat, swap: bool)
    requires Readable(buf, recs, swap) && i < |recs|
    ensures var p, n := Pos(recs, i, swap), Reclen(recs[i].name, recs[i].value);
      Size(buf, p, swap) == n && Live(buf, p, n) && Pos(recs, i + 1, swap) == p + n
  {
    CellAt(buf, recs, i, swap);
    var p, c, n := Pos(recs, i, swap), Cell(recs[i], swap), Reclen(recs[i].name, recs[i].value);
    Words.RoundTrip(n, swap);
    hide Put, Get, Pos, Readable, Encode;
    assert buf[p..p + |c|][..4] == buf[p..p + 4];
    assert c[..4] == Put(n, swap);
    assert n < SIGN by { hide *; SmallCell(buf, recs, i, swap); }
  }

  lemma SmallCell(buf: seq<Byte>, recs: seq<Rec>, i: nat, swap: bool)
    requires Readable(buf, recs, swap) && i < |recs|
    ensures Reclen(recs[i].name, recs[i].value) < SIGN
  {}

  /** A scan goes on exactly while there are records, from each to the next. */
  lemma ScanAt(buf: seq<Byte>, recs: seq<Rec>, i: nat, swap: bool)
    requires Readable(buf, recs, swap) && i <= |recs|
    ensures 4 <= |buf| < SIGN && Pos(recs, i, swap) < |buf| && Pos(recs, 0, swap) == 0
    ensures Live(buf, Pos(recs, i, swap), Size(buf, Pos(recs, i, swap), swap)) <==> i < |recs|
    ensures i < |recs| ==>
      var p, n := Pos(recs, i, swap), Reclen(recs[i].name, recs[i].value);
      Size(buf, p, swap) == n && p + n < |buf| && Pos(recs, i + 1, swap) == p + n && Named(recs[i].name)
    ensures i == |recs| ==> Pos(recs, i, swap) == |Encode(recs, swap)|
  {
    if i < |recs| { SizeAt(buf, recs, i, swap); }
    assert recs[..|recs|] == recs && recs[..0] == [];
    hide Size;
  }

  /** The name and the value of record `i`, byte by byte. */
  lemma BytesAt(buf: seq<Byte>, recs: seq<Rec>, i: nat, swap: bool)
    requires Readable(buf, recs, swap) && i < |recs|
    ensures var p, r := Pos(recs, i, swap) + 4, recs[i];
      && p + |r.name| + 1 + |r.value| < |buf|
      && buf[p..p + |r.name|] == r.name && buf[p + |r.name|] == 0
      && buf[p + |r.name| + 1..p + |r.name| + 1 + |r.value|] == r.value
  {
    CellAt(buf, recs, i, swap);
    var p, c, r := Pos(recs, i, swap), Cell(recs[i], swap), recs[i];
    var n := |r.name|;
    hide Put, Pos, Readable, Encode, Cell;
    Part(buf, p, c, 4, 4 + n);
    Part(buf, p, c, 4 + n, 5 + n);
    Part(buf, p, c, 5 + n, |c|);
    CellParts(r, swap);
    assert buf[p + 4 + n] == buf[p + 4 + n..p + 5 + n][0];
  }

  lemma Part(buf: seq<Byte>, p: nat, c: seq<Byte>, i: nat, j: nat)
    requires p + |c| <= |buf| && buf[p..p + |c|] == c && i <= j <= |c|
    ensures buf[p + i..p + j] == c[i..j]
  {
    var b := buf[p + i..p + j];
    forall k | 0 <= k < |b| ensures b[k] == c[i..j][k] {
      assert buf[p..p + |c|][i + k] == c[i + k];
    }
  }

  lemma CellParts(r: Rec, swap: bool)
    ensures var c, n := Cell(r, swap), |r.name|; c[4..4 + n] == r.name && c[4 + n..5 + n] == [0] && c[5 + n..|c|] == r.value
  {
    hide Put;
  }

  /** A zero tail ends the scan. */
  lemma PackedReadable(buf: seq<Byte>, recs: seq<Rec>, swap: bool)
    requires Packed(buf, recs, swap)
    ensures Readable(buf, recs, swap)
  {
    var n := |Encode(recs, swap)|;
    hide Encode, Sound, Distinct, Get;
    if n == 0 || n < |buf| - 4 {
      assert buf[n..n + 4] == [0, 0, 0, 0];
      ZeroWord(swap);
    }
  }

  lemma ZeroWord(swap: bool)
    ensures Get([0, 0, 0, 0], swap) == 0
  {}

  lemma NoNul(buf: seq<Byte>, p: nat, x: seq<Byte>)
    requires p + |x| < |buf| && Named(x) && buf[p..p + |x|] == x
    ensures forall k :: p <= k < p + |x| ==> buf[k] != 0
  {
    forall k | p <= k < p + |x| ensures buf[k] != 0 {
      assert buf[k] == x[k - p];
    }
  }

  /** Two names at the same place are the same. */
  lemma SameName(buf: seq<Byte>, p: nat, x: seq<Byte>, y: seq<Byte>)
    requires p + |x| < |buf| && p + |y| < |buf| && Named(x) && Named(y)
    requires buf[p..p + |x|] == x && buf[p + |x|] == 0
    requires buf[p..p + |y|] == y && buf[p + |y|] == 0
    ensures x == y
  {
    NoNul(buf, p, x);
    NoNul(buf, p, y);
  }

  lemma Lengths(buf: seq<Byte>, a: seq<Rec>, b: seq<Rec>, i: nat, swap: bool)
    requires Readable(buf, a, swap) && Readable(buf, b, swap)
    requires i < |a| && i < |b| && Pos(a, i, swap) == Pos(b, i, swap)
    ensures |a[i].name| + |a[i].value| == |b[i].name| + |b[i].value|
  {
    SizeAt(buf, a, i, swap);
    SizeAt(buf, b, i, swap);
  }

  lemma NameFree(buf: seq<Byte>, a: seq<Rec>, i: nat, swap: bool)
    requires Readable(buf, a, swap) && i < |a|
    ensures Named(a[i].name)
  {}

  /** Two readings that agree on `i` records agree on the next. */
  lemma SameRecord(buf: seq<Byte>, a: seq<Rec>, b: seq<Rec>, i: nat, swap: bool)
    requires Readable(buf, a, swap) && Readable(buf, b, swap)
    requires i < |a| && i < |b| && Pos(a, i, swap) == Pos(b, i, swap)
    ensures a[i] == b[i]
  {
    hide *;
    BytesAt(buf, a, i, swap);
    BytesAt(buf, b, i, swap);
    NameFree(buf, a, i, swap);
    NameFree(buf, b, i, swap);
    Lengths(buf, a, b, i, swap);
    SameName(buf, Pos(a, i, swap) + 4, a[i].name, b[i].name);
  }

  /** A buffer is read in one way only. */
  lemma {:induction false} ReadOneWay(buf: seq<Byte>, a: seq<Rec>, b: seq<Rec>, i: nat, swap: bool)
    requires Readable(buf, a, swap) && Readable(buf, b, swap)
    requires i <= |a| && i <= |b| && a[..i] == b[..i]
    ensures a == b
    decreases |a| - i
  {
    if i == |a| || i == |b| {
      assert a[..|a|] == a && b[..|b|] == b;
      if i < |a| { SizeAt(buf, a, i, swap); }
      if i < |b| { SizeAt(buf, b, i, swap); }
      hide Encode, Sound, Distinct, Size, Live;
    } else {
      SameRecord(buf, a, b, i, swap);
      hide *;
      assert a[..i + 1] == a[..i] + [a[i]];
      assert b[..i + 1] == b[..i] + [b[i]];
      ReadOneWay(buf, a, b, i + 1, swap);
    }
  }
}
