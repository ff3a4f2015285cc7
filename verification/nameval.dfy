/** The name/value store on its buffer: each routine against the records that the buffer holds. */
module Nameval {
  import opened Words
  import opened NamevalModel

  const EEXIST: int := 17
  const ENOSPC: int := 28
  const ERANGE: int := 34
  const ENODATA: int := 61

  /** The record of a name, or the number of records. */
  function Index(recs: seq<Rec>, name: seq<Byte>): (i: nat)
    ensures i <= |recs|
    ensures i < |recs| ==> recs[i].name == name
    ensures forall k :: 0 <= k < i ==> recs[k].name != name
  {
    if recs == [] then 0 else if recs[0].name == name then 0 else 1 + Index(recs[1..], name)
  }

  function Without(recs: seq<Rec>, name: seq<Byte>): seq<Rec>
  {
    var i := Index(recs, name);
    if i < |recs| then recs[..i] + recs[i + 1..] else recs
  }

  // ----- Memory and strings

  /** `buf` with `data` written at `at`. */
  function Over(buf: seq<Byte>, at: nat, data: seq<Byte>): (r: seq<Byte>)
    requires at + |data| <= |buf|
    ensures |r| == |buf|
  {
    buf[..at] + data + buf[at + |data|..]
  }

  lemma IsOver(buf: seq<Byte>, now: seq<Byte>, at: nat, data: seq<Byte>)
    requires at + |data| <= |buf| == |now|
    requires forall k :: 0 <= k < |data| ==> now[at + k] == data[k]
    requires forall k :: 0 <= k < |buf| && !(at <= k < at + |data|) ==> now[k] == buf[k]
    ensures now == Over(buf, at, data)
  {
    forall k | 0 <= k < |buf| ensures now[k] == Over(buf, at, data)[k] {
      if at <= k < at + |data| { assert now[at + (k - at)] == data[k - at]; }
    }
  }

  lemma OverTwice(buf: seq<Byte>, at: nat, x: seq<Byte>, y: seq<Byte>)
    requires at + |x| + |y| <= |buf|
    ensures Over(Over(buf, at, x), at + |x|, y) == Over(buf, at, x + y)
  {
    var o := Over(buf, at, x);
    assert o[..at + |x|] == buf[..at] + x;
    assert o[at + |x| + |y|..] == buf[at + |x| + |y|..];
  }

  /** memcpy, which copes with overlapping ranges. */
  method MemMove(a: array<Byte>, dst: nat, src: nat, n: nat)
    requires dst + n <= a.Length && src + n <= a.Length
    modifies a
    ensures forall k :: dst <= k < dst + n ==> a[k] == old(a[k - dst + src])
    ensures forall k :: 0 <= k < a.Length && !(dst <= k < dst + n) ==> a[k] == old(a[k])
  {
    if src < dst {
      var i := n;
      while i > 0
        invariant 0 <= i <= n
        invariant forall k :: dst + i <= k < dst + n ==> a[k] == old(a[k - dst + src])
        invariant forall k :: 0 <= k < dst + i ==> a[k] == old(a[k])
        invariant forall k :: dst + n <= k < a.Length ==> a[k] == old(a[k])
      {
        i := i - 1;
        a[dst + i] := a[src + i];
      }
    } else if src > dst {
      var i := 0;
      while i < n
        invariant 0 <= i <= n
        invariant forall k :: dst <= k < dst + i ==> a[k] == old(a[k - dst + src])
        invariant forall k :: dst + i <= k < a.Length ==> a[k] == old(a[k])
        invariant forall k :: 0 <= k < dst ==> a[k] == old(a[k])
      {
        a[dst + i] := a[src + i];
        i := i + 1;
      }
    }
  }

  method MemSet(a: array<Byte>, at: nat, b: Byte, n: nat)
    requires at + n <= a.Length
    modifies a
    ensures forall k :: 0 <= k < a.Length ==> a[k] == if at <= k < at + n then b else old(a[k])
  {
    var i := 0;
    while i < n
      invariant 0 <= i <= n
      invariant forall k :: 0 <= k < a.Length ==> a[k] == if at <= k < at + i then b else old(a[k])
    {
      a[at + i] := b;
      i := i + 1;
    }
  }

  /** Copying from another object. */
  method MemCopy(a: array<Byte>, at: nat, data: seq<Byte>)
    requires at + |data| <= a.Length
    modifies a
    ensures a[..] == Over(old(a[..]), at, data)
  {
    var i := 0;
    while i < |data|
      invariant 0 <= i <= |data|
      invariant forall k :: 0 <= k < i ==> a[at + k] == data[k]
      invariant forall k :: 0 <= k < a.Length && !(at <= k < at + i) ==> a[k] == old(a[k])
    {
      a[at + i] := data[i];
      i := i + 1;
    }
    IsOver(old(a[..]), a[..], at, data);
  }

  /** strncpy: it stops behind the NUL and fills nothing up. */
  method StrCopy(a: array<Byte>, at: nat, name: seq<Byte>, n: nat)
    requires |name| < n && at + |name| < a.Length && Named(name)
    modifies a
    ensures a[..] == Over(old(a[..]), at, name + [0])
  {
    var i := 0;
    var c: Byte := 1;
    while c != 0 && i < n
      invariant 0 <= i <= |name| + 1 && (c == 0 <==> i == |name| + 1)
      invariant forall k :: 0 <= k < i ==> a[at + k] == (name + [0])[k]
      invariant forall k :: 0 <= k < a.Length && !(at <= k < at + i) ==> a[k] == old(a[k])
      decreases |name| + 1 - i
    {
      c := (name + [0])[i];
      a[at + i] := c;
      i := i + 1;
    }
    IsOver(old(a[..]), a[..], at, name + [0]);
  }

  /** strncmp of the NUL-terminated string at `p` with a name. */
  method SameString(a: array<Byte>, p: nat, name: seq<Byte>, n: int, ghost held: seq<Byte>) returns (same: bool)
    requires p + |held| < a.Length && |held| < n && Named(held) && Named(name)
    requires a[p..p + |held|] == held && a[p + |held|] == 0
    ensures same <==> held == name
  {
    var i := 0;
    NoNul(a[..], p, held);
    while i < n
      invariant 0 <= i <= |held| && i <= |name| && held[..i] == name[..i]
    {
      var s1, s2 := a[p + i], if i < |name| then name[i] else 0;
      assert i < |held| ==> a[p..p + |held|][i] == s1;
      if s1 != 0 && s2 != 0 && s1 == s2 {
        i := i + 1;
      } else {
        assert held[..|held|] == held && name[..|name|] == name;
        return s1 == s2;
      }
    }
    assert false;
  }

  // ----- Scanning

  method ReadWord(xb: array<Byte>, pos: nat, swap: bool) returns (size: int)
    requires pos + 4 <= xb.Length
    ensures size == Word(xb[..], pos, swap)
  {
    assert xb[pos..pos + 4] == xb[..][pos..pos + 4];
    var n := Get(xb[pos..pos + 4], swap);
    size := if n >= SIGN then n - WRAP else n;
  }

  /** nval_find. */
  method Find(xb: array<Byte>, name: seq<Byte>, swap: bool, ghost recs: seq<Rec>) returns (at: int, recSize: int)
    requires Readable(xb[..], recs, swap) && Named(name)
    ensures var i := Index(recs, name);
      if i < |recs| then at == Pos(recs, i, swap) && recSize == Reclen(recs[i].name, recs[i].value)
      else at == -ENODATA && recSize == 0
  {
    hide Readable, Word, Encode, Cell, Pos, Named;
    ScanAt(xb[..], recs, 0, swap);
    var pos: nat := 0;
    var size := ReadWord(xb, 0, swap);
    ghost var i: nat := 0;
    while size > 0 && size < xb.Length && pos + size < xb.Length
      invariant 0 <= i <= |recs| && pos == Pos(recs, i, swap) <= xb.Length && xb.Length >= 4
      invariant size == Size(xb[..], pos, swap)
      invariant forall k :: 0 <= k < i ==> recs[k].name != name
      decreases |recs| - i
    {
      ScanAt(xb[..], recs, i, swap);
      BytesAt(xb[..], recs, i, swap);
      NameAt(xb, pos, recs[i].name);
      var same := SameString(xb, pos + 4, name, size, recs[i].name);
      if same { return pos, size; }
      pos := pos + size;
      if pos < xb.Length - 4 { size := ReadWord(xb, pos, swap); } else { size := 0; }
      i := i + 1;
    }
    ScanAt(xb[..], recs, i, swap);
    at, recSize := -ENODATA, 0;
  }

  lemma NameAt(xb: array<Byte>, pos: nat, name: seq<Byte>)
    requires pos + 4 + |name| < xb.Length && xb[..][pos + 4..pos + 4 + |name|] == name
    ensures xb[pos + 4..pos + 4 + |name|] == name
  {
    assert xb[..][pos + 4..pos + 4 + |name|] == xb[pos + 4..pos + 4 + |name|];
  }

  /** nval_used. */
  method Used(xb: array<Byte>, swap: bool, ghost recs: seq<Rec>) returns (pos: nat)
    requires Readable(xb[..], recs, swap)
    ensures pos == |Encode(recs, swap)|
  {
    hide Readable, Word, Encode, Cell, Pos, Named;
    ScanAt(xb[..], recs, 0, swap);
    pos := 0;
    var size := ReadWord(xb, 0, swap);
    ghost var i: nat := 0;
    while size > 0 && size < xb.Length && pos + size < xb.Length
      invariant 0 <= i <= |recs| && pos == Pos(recs, i, swap) <= xb.Length && xb.Length >= 4
      invariant size == Size(xb[..], pos, swap)
      decreases |recs| - i
    {
      ScanAt(xb[..], recs, i, swap);
      pos := pos + size;
      if pos < xb.Length - 4 { size := ReadWord(xb, pos, swap); } else { size := 0; }
      i := i + 1;
    }
    ScanAt(xb[..], recs, i, swap);
  }

  // ----- Changing the store

  lemma FoundEncode(recs: seq<Rec>, i: nat, swap: bool)
    requires i < |recs|
    ensures Encode(recs[..i] + recs[i + 1..], swap) == Encode(recs[..i], swap) + Encode(recs[i + 1..], swap)
  {
    EncodeSplit(recs[..i], recs[i + 1..], swap);
  }

  /** The bytes behind a piece move over it and zeros follow. */
  function Shifted(buf: seq<Byte>, p: nat, n: nat): seq<Byte>
    requires p + n <= |buf|
  {
    buf[..p] + buf[p + n..] + Zeros(n)
  }

  lemma RemovedSound(recs: seq<Rec>, i: nat)
    requires Sound(recs) && Distinct(recs) && i < |recs|
    ensures Sound(recs[..i] + recs[i + 1..]) && Distinct(recs[..i] + recs[i + 1..])
  {}

  /** What nval_del leaves: the other records, what followed the last one, and zeros. */
  ghost function Deleted(buf: seq<Byte>, recs: seq<Rec>, name: seq<Byte>, swap: bool): seq<Byte>
    requires Readable(buf, recs, swap) && Index(recs, name) < |recs|
  {
    var r := recs[Index(recs, name)];
    Encode(Without(recs, name), swap) + buf[|Encode(recs, swap)|..] + Zeros(Reclen(r.name, r.value))
  }

  /** Shifting the rest over a record and clearing the end removes that record. */
  lemma Removed(buf: seq<Byte>, recs: seq<Rec>, name: seq<Byte>, swap: bool)
    requires Readable(buf, recs, swap) && Index(recs, name) < |recs|
    ensures var i := Index(recs, name);
      var p, n := Pos(recs, i, swap), Reclen(recs[i].name, recs[i].value);
      && p + n < |buf| && Shifted(buf, p, n) == Deleted(buf, recs, name, swap)
      && |Encode(Without(recs, name), swap)| == |Encode(recs, swap)| - n
  {
    var i := Index(recs, name);
    hide Cell, Encode, Shifted, Zeros, Sound, Distinct, Index;
    EncodeAt(recs, i, swap);
    FoundEncode(recs, i, swap);
    CellSize(recs[i], swap);
    RemovedBytes(buf, Encode(recs[..i], swap), Cell(recs[i], swap), Encode(recs[i + 1..], swap));
  }

  lemma RemovedBytes(buf: seq<Byte>, a: seq<Byte>, c: seq<Byte>, b: seq<Byte>)
    requires |a + c + b| <= |buf| && buf[..|a + c + b|] == a + c + b
    ensures Shifted(buf, |a|, |c|) == a + b + buf[|a + c + b|..] + Zeros(|c|)
  {
    var all := a + c + b;
    assert buf == all + buf[|all|..];
    assert buf[..|a|] == a;
    assert buf[|a| + |c|..] == b + buf[|all|..];
  }

  method Shift(xb: array<Byte>, pos: nat, size: nat)
    requires pos + size <= xb.Length
    modifies xb
    ensures xb[..] == Shifted(old(xb[..]), pos, size)
  {
    hide Shifted;
    ghost var o := xb[..];
    MemMove(xb, pos, pos + size, xb.Length - (pos + size));
    MemSet(xb, xb.Length - size, 0, size);
    IsShifted(o, xb[..], pos, size);
  }

  lemma IsShifted(o: seq<Byte>, now: seq<Byte>, pos: nat, size: nat)
    requires pos + size <= |o| == |now|
    requires forall k :: 0 <= k < pos ==> now[k] == o[k]
    requires forall k :: pos <= k < |o| - size ==> now[k] == o[k + size]
    requires forall k :: |o| - size <= k < |o| ==> now[k] == 0
    ensures now == Shifted(o, pos, size)
  {
    var s := Shifted(o, pos, size);
    forall k | 0 <= k < |o| ensures now[k] == s[k] {
      if pos <= k < |o| - size { assert s[k] == o[pos + size..][k - pos]; }
    }
  }

  /** nval_del. */
  method Del(xb: array<Byte>, name: seq<Byte>, swap: bool, ghost recs: seq<Rec>) returns (code: int)
    requires Readable(xb[..], recs, swap) && Named(name)
    modifies xb
    ensures code == if Index(recs, name) < |recs| then 0 else -ENODATA
    ensures xb[..] == if code == 0 then Deleted(old(xb[..]), recs, name, swap) else old(xb[..])
  {
    hide Readable, Encode, Cell, Word, Named, Shifted, Reclen, Pos, Deleted, Index;
    var pos, size := Find(xb, name, swap, recs);
    if pos < 0 || pos >= xb.Length {
      InBuffer(xb[..], recs, Index(recs, name), swap);
      return -ENODATA;
    }
    SizeIs(xb[..], recs, Index(recs, name), swap);
    size := ReadWord(xb, pos, swap);
    Removed(xb[..], recs, name, swap);
    Shift(xb, pos, size);
    code := 0;
  }

  lemma InBuffer(buf: seq<Byte>, recs: seq<Rec>, i: nat, swap: bool)
    requires Readable(buf, recs, swap) && i <= |recs|
    ensures Pos(recs, i, swap) < |buf|
  {
    ScanAt(buf, recs, i, swap);
  }

  lemma SizeIs(buf: seq<Byte>, recs: seq<Rec>, i: nat, swap: bool)
    requires Readable(buf, recs, swap) && i < |recs|
    ensures var p := Pos(recs, i, swap); p + 4 < |buf| && Word(buf, p, swap) == Reclen(recs[i].name, recs[i].value)
  {
    SizeAt(buf, recs, i, swap);
    BytesAt(buf, recs, i, swap);
  }

  /** What nval_set returns: flags first, then room. */
  function SetCode(recs: seq<Rec>, size: nat, name: seq<Byte>, value: seq<Byte>, creating: bool, replacing: bool, swap: bool): int
  {
    var found := Index(recs, name) < |recs|;
    if creating && found then -EEXIST
    else if replacing && !found then -ENODATA
    else if Reclen(name, value) > size - |Encode(Without(recs, name), swap)| then -ENOSPC
    else 0
  }

  lemma ReadableSize(buf: seq<Byte>, recs: seq<Rec>, swap: bool)
    requires Readable(buf, recs, swap)
    ensures 4 <= |buf| < SIGN && |Encode(recs, swap)| < |buf|
  {}

  method StrnLen(name: seq<Byte>, n: nat) returns (len: nat)
    requires Named(name)
    ensures len == if |name| <= n then |name| else n
  {
    len := 0;
    while len < |name| && len < n
      invariant len <= |name| && len <= n
    {
      len := len + 1;
    }
  }

  /** The three pieces of a record. */
  method WriteRecord(xb: array<Byte>, start: nat, name: seq<Byte>, value: seq<Byte>, reclen: nat, swap: bool)
    requires Named(name) && reclen == Reclen(name, value) && start + reclen <= xb.Length
    modifies xb
    ensures xb[..] == Over(old(xb[..]), start, Cell(Rec(name, value), swap))
  {
    ghost var o := xb[..];
    var word := Put(reclen, swap);
    hide Put, Over, Named;
    MemCopy(xb, start, word);
    StrCopy(xb, start + 4, name, reclen);
    MemCopy(xb, start + 4 + |name| + 1, value);
    OverTwice(o, start, word, name + [0]);
    OverTwice(o, start, word + (name + [0]), value);
    assert Cell(Rec(name, value), swap) == word + (name + [0]) + value;
  }

  /** The buffer once a record of that name is out of the way. */
  ghost function Cleared(buf: seq<Byte>, recs: seq<Rec>, name: seq<Byte>, swap: bool): (b: seq<Byte>)
    requires Readable(buf, recs, swap)
    ensures |b| == |buf|
  {
    if Index(recs, name) < |recs| then
      Removed(buf, recs, name, swap);
      Deleted(buf, recs, name, swap)
    else buf
  }

  /** nval_set. It deletes a record of the same name first; `after` are the records that can be read
      then, and the new one is written behind them. The room was checked for the records other than
      the one deleted; when more than those appear the new one may reach beyond the end of the buffer, and then
      `inside` is false and the buffer is the one before that write. */
  method Set(xb: array<Byte>, name: seq<Byte>, value: seq<Byte>, creating: bool, replacing: bool, swap: bool,
             ghost recs: seq<Rec>, ghost after: seq<Rec>)
    returns (code: int, inside: bool)
    requires Readable(xb[..], recs, swap) && Named(name) && Reclen(name, value) < SIGN
    requires SetCode(recs, xb.Length, name, value, creating, replacing, swap) == 0 ==>
      Readable(Cleared(xb[..], recs, name, swap), after, swap)
    modifies xb
    ensures code == SetCode(recs, xb.Length, name, value, creating, replacing, swap)
    ensures inside <==> code != 0 || |Encode(after, swap)| + Reclen(name, value) <= xb.Length
    ensures xb[..] ==
      if code != 0 then old(xb[..])
      else if inside then Over(Cleared(old(xb[..]), recs, name, swap), |Encode(after, swap)|, Cell(Rec(name, value), swap))
      else Cleared(old(xb[..]), recs, name, swap)
  {
    inside := true;
    ReadableSize(xb[..], recs, swap);
    hide Readable, Encode, Cell, Word, Named, Pos, Deleted, Over;
    var namelen := StrnLen(name, xb.Length);
    var found, existing := Find(xb, name, swap, recs);
    if creating && found >= 0 { return -EEXIST, true; }
    if replacing && found < 0 { return -ENODATA, true; }
    var start := Used(xb, swap, recs);
    var space := xb.Length - start + existing;
    var reclen := 4 + namelen + 1 + |value|;
    Space(xb[..], recs, name, swap);
    if reclen > space { return -ENOSPC, true; }
    hide Without, Index;
    if found >= 0 {
      var _ := Del(xb, name, swap, recs);
      start := Used(xb, swap, after);
    } else {
      assert recs[..0] == after[..0];
      ReadOneWay(xb[..], recs, after, 0, swap);
    }
    CellSize(Rec(name, value), swap);
    code, inside := 0, start + reclen <= xb.Length;
    if inside { WriteRecord(xb, start, name, value, reclen, swap); }
  }

  /** The room is what the other records leave. */
  lemma Space(buf: seq<Byte>, recs: seq<Rec>, name: seq<Byte>, swap: bool)
    requires Readable(buf, recs, swap)
    ensures var i := Index(recs, name);
      |Encode(Without(recs, name), swap)| == |Encode(recs, swap)| - if i < |recs| then Reclen(recs[i].name, recs[i].value) else 0
  {
    if Index(recs, name) < |recs| { Removed(buf, recs, name, swap); }
    hide Readable, Encode;
  }

  lemma CellSize(r: Rec, swap: bool)
    ensures |Cell(r, swap)| == Reclen(r.name, r.value)
  {}

  // ----- Reading the store

  method Skip(xb: array<Byte>, at: nat, size: nat, ghost name: seq<Byte>) returns (pos: nat, left: int)
    requires at + |name| < xb.Length && |name| < size && Named(name)
    requires xb[at..at + |name|] == name && xb[at + |name|] == 0
    ensures pos == at + |name| && left == size - |name|
  {
    pos, left := at, size;
    NoNul(xb[..], at, name);
    while xb[pos] != 0 && left > 0 && pos < xb.Length
      invariant at <= pos <= at + |name| && left == size - (pos - at)
      decreases left
    {
      pos := pos + 1;
      left := left - 1;
    }
  }

  /** nval_get: a room of zero asks for the size only. */
  method GetValue(xb: array<Byte>, name: seq<Byte>, buf: array<Byte>, bsize: nat, swap: bool, ghost recs: seq<Rec>)
    returns (code: int)
    requires Readable(xb[..], recs, swap) && Named(name) && bsize <= buf.Length && buf != xb
    modifies buf
    ensures code == GetCode(recs, name, bsize)
    ensures buf[..] == if code > 0 && bsize > 0 then Over(old(buf[..]), 0, recs[Index(recs, name)].value) else old(buf[..])
  {
    hide Readable, Encode, Cell, Word, Named, Pos;
    var pos, size := Find(xb, name, swap, recs);
    ghost var i := Index(recs, name);
    InBuffer(xb[..], recs, i, swap);
    if pos >= 0 && pos < xb.Length {
      SizeIs(xb[..], recs, i, swap);
      BytesAt(xb[..], recs, i, swap);
      NameAt(xb, pos, recs[i].name);
      size := ReadWord(xb, pos, swap);
      var at, left := Skip(xb, pos + 4, size - 4, recs[i].name);
      at, left := at + 1, left - 1;
      ghost var value := recs[i].value;
      assert xb[..][at..at + left] == value;
      if bsize == 0 { return left; }
      if left <= bsize {
        assert xb[at..at + left] == value;
        MemCopy(buf, 0, xb[at..at + left]);
        assert left == 0 ==> Over(old(buf[..]), 0, value) == old(buf[..]);
        return left;
      }
    }
    if pos >= 0 { return -ERANGE; }
    code := -ENODATA;
  }

  function GetCode(recs: seq<Rec>, name: seq<Byte>, bsize: nat): int
  {
    var i := Index(recs, name);
    if i == |recs| then -ENODATA
    else if bsize == 0 || |recs[i].value| <= bsize then |recs[i].value| else -ERANGE
  }

  /** The names, each with its NUL, as long as they fit with a byte to spare. */
  function Listed(recs: seq<Rec>, done: nat, bsize: nat): (out: seq<Byte>)
    ensures done + |out| < bsize || out == []
  {
    if recs == [] || done + |recs[0].name| + 1 >= bsize then []
    else recs[0].name + [0] + Listed(recs[1..], done + |recs[0].name| + 1, bsize)
  }

  /** nval_list. */
  method List(xb: array<Byte>, buf: array<Byte>, bsize: nat, swap: bool, ghost recs: seq<Rec>) returns (ncopied: nat)
    requires Readable(xb[..], recs, swap) && bsize <= buf.Length && buf != xb
    modifies buf
    ensures ncopied == |Listed(recs, 0, bsize)| && buf[..] == Over(old(buf[..]), 0, Listed(recs, 0, bsize))
  {
    hide Readable, Word, Encode, Cell, Pos, Named, Over, Listed;
    ScanAt(xb[..], recs, 0, swap);
    ncopied := 0;
    var pos: nat := 0;
    var size := ReadWord(xb, 0, swap);
    var filled := false;
    ghost var i: nat := 0;
    ghost var out: seq<Byte> := [];
    ghost var all := Listed(recs, 0, bsize);
    assert recs[0..] == recs && [] + all == all;
    assert buf[..] == Over(buf[..], 0, []) by { OverNone(buf[..]); }
    while size > 4 && size <= xb.Length && pos + size < xb.Length && !filled
      invariant 0 <= i <= |recs| && pos == Pos(recs, i, swap) <= xb.Length && 4 <= xb.Length
      invariant size == Size(xb[..], pos, swap)
      invariant |out| == ncopied <= |buf[..]| && buf[..] == Over(old(buf[..]), 0, out)
      invariant if filled then out == all else out + Listed(recs[i..], ncopied, bsize) == all
      decreases |recs| - i
    {
      ScanAt(xb[..], recs, i, swap);
      BytesAt(xb[..], recs, i, swap);
      NameAt(xb, pos, recs[i].name);
      ghost var name := recs[i].name;
      var namelen, _ := Skip(xb, pos + 4, size - 4, name);
      namelen := namelen - (pos + 4);
      ListedStep(recs, i, ncopied, bsize, out);
      if ncopied + namelen + 1 < bsize {
        CopyName(buf, ncopied, xb[pos + 4..pos + 4 + namelen]);
        OverTwice(old(buf[..]), 0, out, name + [0]);
        out := out + (name + [0]);
        ncopied := ncopied + namelen + 1;
      } else {
        filled := true;
      }
      pos := pos + size;
      if pos < xb.Length - 4 { size := ReadWord(xb, pos, swap); } else { size := 0; }
      i := i + 1;
    }
    if !filled {
      ScanAt(xb[..], recs, i, swap);
      LongerThanFour(xb[..], recs, i, swap);
      ListedStep(recs, i, ncopied, bsize, out);
    }
  }

  lemma OverNone(buf: seq<Byte>)
    ensures Over(buf, 0, []) == buf
  {}

  method CopyName(buf: array<Byte>, at: nat, name: seq<Byte>)
    requires at + |name| < buf.Length
    modifies buf
    ensures buf[..] == Over(old(buf[..]), at, name + [0])
  {
    MemCopy(buf, at, name);
    MemCopy(buf, at + |name|, [0]);
    OverTwice(old(buf[..]), at, name, [0]);
  }

  lemma LongerThanFour(buf: seq<Byte>, recs: seq<Rec>, i: nat, swap: bool)
    requires Readable(buf, recs, swap) && i <= |recs|
    ensures i < |recs| ==> |buf| >= 4 && Size(buf, Pos(recs, i, swap), swap) > 4
  {
    if i < |recs| { SizeAt(buf, recs, i, swap); }
  }

  /** The next name joins those listed, or the list is complete. */
  lemma ListedStep(recs: seq<Rec>, i: nat, done: nat, bsize: nat, out: seq<Byte>)
    requires i <= |recs|
    ensures out + Listed(recs[i..], done, bsize) ==
      if i < |recs| && done + |recs[i].name| + 1 < bsize
      then (out + (recs[i].name + [0])) + Listed(recs[i + 1..], done + |recs[i].name| + 1, bsize) else out
  {
    if i < |recs| {
      assert recs[i..][0] == recs[i] && recs[i..][1..] == recs[i + 1..];
      var name, more := recs[i].name, Listed(recs[i + 1..], done + |recs[i].name| + 1, bsize);
      assert out + (name + [0] + more) == (out + (name + [0])) + more;
    }
  }
}
