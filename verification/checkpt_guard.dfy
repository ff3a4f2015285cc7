/** What a reader of a checkpoint is protected from, on any flash: only chunks whose header fits the bytes read
    before are handed out. */
module CheckptGuard {
  import opened Words
  import opened CheckptModel
  import opened CheckptTape
  import opened CheckptRoundTrip
  import WordBytes

  /** The page is chunk `j` of a stream that starts with `w`: its tags, and in its 16 header bytes version 8, its number
      and the sums of all bytes before it. */
  predicate Genuine(c: Config, p: Page, w: seq<Byte>, j: nat)
    requires c.bytes > HDR
  {
    && p.ckpt && p.id == j + 1 && j < WRAP && Off(c, j) <= |w| && |p.data| >= 16
    && p.data[..16] == Put(8, c.swap) + Put(j, c.swap) + Put(Sum(w[..Off(c, j)]), c.swap) + Put(XorAll(w[..Off(c, j)]), c.swap)
  }

  /** The bytes of `w` that belong to chunk `j` are those behind the header. */
  predicate Holds(c: Config, data: seq<Byte>, w: seq<Byte>, j: nat)
    requires c.bytes > HDR
  {
    Off(c, j) <= |w| && |data| >= 16 && Inside(c, w, j) <= data[16..]
  }

  /** The part of `w` in chunk `j`. */
  function Inside(c: Config, w: seq<Byte>, j: nat): seq<Byte>
    requires c.bytes > HDR && Off(c, j) <= |w|
  {
    OffMore(c, j);
    w[Off(c, j)..if Off(c, j + 1) < |w| then Off(c, j + 1) else |w|]
  }

  ghost predicate Chunk(c: Config, f: Flash, w: seq<Byte>, j: nat, at: nat)
    requires c.bytes > HDR
  {
    at in f.pages && Genuine(c, f.pages[at], w, j) && Holds(c, f.pages[at].data, w, j)
  }

  /** All of `w` comes from chunks that are genuine. */
  ghost predicate Backed(c: Config, f: Flash, w: seq<Byte>)
    requires c.bytes > HDR
  {
    forall j: nat {:trigger Off(c, j)} :: Off(c, j) < |w| ==> exists at: nat :: Chunk(c, f, w, j, at)
  }

  // ----- Words in memory

  lemma JoinDigits(a: Byte, b: Byte, c: Byte, d: Byte)
    ensures var n := Join(a, b, c, d);
      n % 256 == a && (n / 0x100) % 256 == b && (n / 0x1_0000) % 256 == c && (n / 0x100_0000) % 256 == d
  {
    var n := Join(a, b, c, d);
    assert n / 0x100 == b + 0x100 * c + 0x1_0000 * d;
    assert n / 0x1_0000 == c + 0x100 * d;
    assert n / 0x100_0000 == d;
  }

  /** Four bytes are a word in one way. */
  lemma PutGet(b: seq<Byte>, n: nat, swap: bool)
    requires |b| == 4 && n < WRAP
    ensures Get(b, swap) == n <==> b == Put(n, swap)
  {
    if swap { JoinDigits(b[3], b[2], b[1], b[0]); } else { JoinDigits(b[0], b[1], b[2], b[3]); }
    Words.RoundTrip(n, swap);
    hide Join;
  }

  lemma FourParts(b: seq<Byte>, p: seq<Byte>, q: seq<Byte>, r: seq<Byte>, s: seq<Byte>)
    requires |b| >= 16 && |p| == |q| == |r| == |s| == 4
    ensures b[..16] == p + q + r + s <==> b[0..4] == p && b[4..8] == q && b[8..12] == r && b[12..16] == s
  {
    var t := p + q + r + s;
    assert t[0..4] == p && t[4..8] == q && t[8..12] == r && t[12..16] == s;
    assert b[..16] == b[0..4] + b[4..8] + b[8..12] + b[12..16];
    assert b[..16][0..4] == b[0..4] && b[..16][4..8] == b[4..8] && b[..16][8..12] == b[8..12] && b[..16][12..16] == b[12..16];
  }

  /** The test of the header, byte for byte. */
  lemma HeaderBytes(data: seq<Byte>, j: nat, sum: nat, xor: Byte, swap: bool)
    requires |data| >= 16 && sum < WRAP
    ensures HeaderOk(data, j, sum, xor, swap) <==>
      j < WRAP && data[..16] == Put(8, swap) + Put(j, swap) + Put(sum, swap) + Put(xor, swap)
  {
    hide Put, Get;
    PutGet(data[0..4], 8, swap);
    if j < WRAP { PutGet(data[4..8], j, swap); }
    PutGet(data[8..12], sum, swap);
    PutGet(data[12..16], xor, swap);
    FourParts(data, Put(8, swap), Put(j, swap), Put(sum, swap), Put(xor, swap));
  }

  // ----- A session

  /** Between two chunks, or inside chunk number `seqNo - 1`, which is the one in the buffer. */
  ghost predicate Positioned(c: Config, f: Flash, st: Stream, w: seq<Byte>)
    requires c.bytes > HDR
  {
    if st.offs >= c.bytes then |w| == Off(c, st.seqNo)
    else
      && st.seqNo > 0 && HDR <= st.offs && |w| == Off(c, st.seqNo - 1) + st.offs - HDR
      && exists at: nat :: Chunk(c, f, w, st.seqNo - 1, at) && f.pages[at].data == st.buffer
  }

  /** A session that has read `w`, none of its calls having ended at a chunk that is not genuine. */
  ghost predicate Session(d: Dev, w: seq<Byte>)
  {
    Configured(d.cfg) && Summed(d.st, w) && Backed(d.cfg, d.flash, w) && Positioned(d.cfg, d.flash, d.st, w)
  }

  /** It has ended at one. */
  ghost predicate Refused(d: Dev, w: seq<Byte>)
  {
    && Configured(d.cfg) && d.st.offs == 0 && Backed(d.cfg, d.flash, w)
    && exists at: nat :: at in d.flash.pages && d.flash.pages[at].data == d.st.buffer && !Genuine(d.cfg, d.flash.pages[at], w, d.st.seqNo)
  }

  lemma OffMore(c: Config, j: nat)
    requires c.bytes > HDR
    ensures Off(c, j + 1) == Off(c, j) + (c.bytes - HDR)
  {
    OffStep(c, j);
  }

  /** Whether a page is genuine depends only on what was read before its chunk. */
  lemma SameStart(c: Config, p: Page, w: seq<Byte>, v: seq<Byte>, j: nat)
    requires c.bytes > HDR && Off(c, j) <= |w|
    ensures Genuine(c, p, w + v, j) <==> Genuine(c, p, w, j)
  {
    assert (w + v)[..Off(c, j)] == w[..Off(c, j)];
  }

  /** An earlier chunk, with one more byte read. */
  lemma ChunkBefore(c: Config, f: Flash, w: seq<Byte>, b: Byte, j: nat, at: nat)
    requires c.bytes > HDR && Chunk(c, f, w, j, at) && Off(c, j + 1) <= |w|
    ensures Chunk(c, f, w + [b], j, at)
  {
    OffMore(c, j);
    SameStart(c, f.pages[at], w, [b], j);
    hide Genuine, Off;
    HoldsBefore(c, f.pages[at].data, w, w + [b], j);
    hide Holds;
  }

  lemma HoldsBefore(c: Config, data: seq<Byte>, w: seq<Byte>, v: seq<Byte>, j: nat)
    requires c.bytes > HDR && Holds(c, data, w, j) && Off(c, j + 1) <= |w| && w <= v
    ensures Holds(c, data, v, j)
  {
    OffMore(c, j);
    hide Off;
    var i, k := Off(c, j), Off(c, j + 1);
    assert v[i..k] == w[i..k];
  }

  /** The chunk that the byte is from. */
  lemma ChunkMore(c: Config, f: Flash, w: seq<Byte>, b: Byte, k: nat, at: nat)
    requires c.bytes > HDR && Chunk(c, f, w, k, at) && Off(c, k) <= |w| < Off(c, k + 1)
    requires var i := 16 + |w| - Off(c, k); i < |f.pages[at].data| && f.pages[at].data[i] == b
    ensures Chunk(c, f, w + [b], k, at)
  {
    SameStart(c, f.pages[at], w, [b], k);
    hide Genuine;
    HoldsMore(c, f.pages[at].data, w, b, k);
    hide Off, Holds;
  }

  lemma HoldsMore(c: Config, data: seq<Byte>, w: seq<Byte>, b: Byte, k: nat)
    requires c.bytes > HDR && Holds(c, data, w, k) && |w| < Off(c, k + 1)
    requires var i := 16 + |w| - Off(c, k); i < |data| && data[i] == b
    ensures Holds(c, data, w + [b], k)
  {
    hide Off;
    assert Inside(c, w + [b], k) == Inside(c, w, k) + [b];
    assert data[16..][|w| - Off(c, k)] == b;
  }

  lemma BackedMore(c: Config, f: Flash, w: seq<Byte>, b: Byte, k: nat, at: nat)
    requires c.bytes > HDR && Backed(c, f, w) && Chunk(c, f, w, k, at) && Off(c, k) <= |w| < Off(c, k + 1)
    requires var i := 16 + |w| - Off(c, k); i < |f.pages[at].data| && f.pages[at].data[i] == b
    ensures Backed(c, f, w + [b])
  {
    var v := w + [b];
    hide Chunk, Off;
    forall j: nat {:trigger Off(c, j)} | Off(c, j) < |v| ensures exists at2: nat :: Chunk(c, f, v, j, at2) {
      if j < k {
        OffOrder(c, j + 1, k);
        OffMore(c, j);
        var at2: nat :| Chunk(c, f, w, j, at2);
        ChunkBefore(c, f, w, b, j, at2);
      } else {
        if j > k { OffOrder(c, k + 1, j); }
        ChunkMore(c, f, w, b, k, at);
      }
    }
  }

  // ----- One byte

  /** The page that is due at the end of a chunk, if there is one. */
  predicate Due(d: Dev)
    requires d.cfg.bytes > HDR && d.cfg.cpb > 0
  {
    Sought(d).st.block >= 0 && DueAt(d) in d.flash.pages
  }

  function DueAt(d: Dev): nat { if Sought(d).st.block >= 0 then Sought(d).st.block * d.cfg.cpb + Sought(d).st.chunk else 0 }

  lemma SoughtKeeps(d: Dev)
    ensures var s := Sought(d);
      && s.flash == d.flash && s.st.seqNo == d.st.seqNo && s.st.sum == d.st.sum && s.st.xor == d.st.xor && s.st.count == d.st.count
      && s.st.offs == d.st.offs && s.st.buffer == d.st.buffer
  {
    hide Tagged, FirstTagged;
  }

  lemma DueSums(d: Dev, w: seq<Byte>)
    requires Session(d, w) && d.st.offs >= d.cfg.bytes
    ensures |w| == Off(d.cfg, d.st.seqNo) && w[..|w|] == w && d.st.sum == Sum(w) && d.st.xor == XorAll(w) && d.st.sum < WRAP
  {
    hide Sum, XorAll, Off, Backed;
  }

  /** Loading a chunk takes it exactly if it is genuine; otherwise nothing is read from it, and the session is as
      before, or has ended at a chunk with the right tags and a wrong header. */
  lemma LoadGuard(d: Dev, w: seq<Byte>)
    requires Session(d, w) && d.st.offs >= d.cfg.bytes
    ensures var (d1, ok) := Load(d);
      && d1.flash == d.flash && d1.cfg == d.cfg
      && (ok <==> Due(d) && Genuine(d.cfg, d.flash.pages[DueAt(d)], w, d.st.seqNo))
      && (ok ==> d1.st.offs == HDR && Session(d1, w) && d1.st.buffer == d.flash.pages[DueAt(d)].data)
      && (!ok ==> (Session(d1, w) && d1.st.offs >= d.cfg.bytes) || Refused(d1, w))
  {
    SoughtKeeps(d);
    DueSums(d, w);
    hide Sum, XorAll, Off, Backed, Sought, HeaderOk, Put;
    if Due(d) {
      var page := d.flash.pages[DueAt(d)];
      if |page.data| >= 16 { HeaderBytes(page.data, d.st.seqNo, d.st.sum, d.st.xor, d.cfg.swap); } else { ShortPage(page.data, d); }
      var (d1, ok) := Load(d);
      if ok { LoadedChunk(d, d1, w); }
    }
  }

  lemma NoneInside(c: Config, w: seq<Byte>, j: nat)
    requires c.bytes > HDR && |w| == Off(c, j)
    ensures Inside(c, w, j) == []
  {
    OffMore(c, j);
  }

  lemma ShortPage(data: seq<Byte>, d: Dev)
    requires |data| < 16
    ensures !HeaderOk(data, d.st.seqNo, d.st.sum, d.st.xor, d.cfg.swap)
  {}

  lemma LoadedChunk(d: Dev, d1: Dev, w: seq<Byte>)
    requires Session(d, w) && d.st.offs >= d.cfg.bytes && Due(d) && Genuine(d.cfg, d.flash.pages[DueAt(d)], w, d.st.seqNo)
    requires d1.cfg == d.cfg && d1.flash == d.flash && d1.st.offs == HDR && d1.st.seqNo == d.st.seqNo + 1
    requires d1.st.buffer == d.flash.pages[DueAt(d)].data && d1.st.sum == d.st.sum && d1.st.xor == d.st.xor && d1.st.count == d.st.count
    ensures Session(d1, w)
  {
    hide Sum, XorAll, Off, Backed, Sought;
    NoneInside(d.cfg, w, d.st.seqNo);
    assert Chunk(d.cfg, d.flash, w, d.st.seqNo, DueAt(d));
  }

  /** One byte: it comes from a genuine chunk, or the read ends. */
  lemma OneGuard(d: Dev, w: seq<Byte>)
    requires Session(d, w)
    ensures var (d1, r) := ReadOne(d);
      && d1.flash == d.flash && d1.cfg == d.cfg
      && match r
         case Got(b) => Session(d1, w + [b])
         case Eof => Session(d1, w) || Refused(d1, w)
  {
    hide Backed, Load, Positioned, Sum, XorAll, Xor;
    var (d1, ok) := Ready(d);
    if d.st.offs >= d.cfg.bytes { LoadGuard(d, w); }
    hide Ready;
    if ok && d1.st.offs < |d1.st.buffer| { ByteGuard(d1, w); }
  }

  /** A byte out of the buffer. */
  lemma ByteGuard(d: Dev, w: seq<Byte>)
    requires Session(d, w) && d.st.offs < d.cfg.bytes && d.st.offs < |d.st.buffer|
    ensures var b := d.st.buffer[d.st.offs]; Session(d.(st := Taken(d.st, b)), w + [b])
  {
    hide *;
    var b := d.st.buffer[d.st.offs];
    var at := InChunk(d, w);
    var k: nat := d.st.seqNo - 1;
    ChunkData(d.cfg, d.flash, w, k, at);
    OffMore(d.cfg, k);
    ChunkMore(d.cfg, d.flash, w, b, k, at);
    BackedMore(d.cfg, d.flash, w, b, k, at);
    Advanced(d, w, b, k, at);
  }

  lemma InChunk(d: Dev, w: seq<Byte>) returns (at: nat)
    requires Session(d, w) && d.st.offs < d.cfg.bytes
    ensures d.cfg.bytes > HDR && HDR == 16 && d.st.seqNo > 0 && HDR <= d.st.offs && |w| == Off(d.cfg, d.st.seqNo - 1) + d.st.offs - HDR
    ensures Chunk(d.cfg, d.flash, w, d.st.seqNo - 1, at) && d.flash.pages[at].data == d.st.buffer && Backed(d.cfg, d.flash, w)
  {
    hide Backed, Genuine, Holds, Off, Sum, XorAll;
    at :| Chunk(d.cfg, d.flash, w, d.st.seqNo - 1, at) && d.flash.pages[at].data == d.st.buffer;
  }

  function PageData(f: Flash, at: nat): seq<Byte> { if at in f.pages then f.pages[at].data else [] }

  lemma ChunkData(c: Config, f: Flash, w: seq<Byte>, k: nat, at: nat)
    requires c.bytes > HDR && Chunk(c, f, w, k, at)
    ensures at in f.pages && PageData(f, at) == f.pages[at].data
  {
    hide Genuine, Holds;
  }

  lemma Advanced(d: Dev, w: seq<Byte>, b: Byte, k: nat, at: nat)
    requires Session(d, w) && d.st.offs < d.cfg.bytes && k == d.st.seqNo - 1 && |w| == Off(d.cfg, k) + d.st.offs - HDR && HDR <= d.st.offs
    requires Chunk(d.cfg, d.flash, w + [b], k, at) && at in d.flash.pages && d.flash.pages[at].data == d.st.buffer && Backed(d.cfg, d.flash, w + [b])
    ensures Session(d.(st := Taken(d.st, b)), w + [b])
  {
    hide Backed, Chunk, Off, Sum, XorAll, Xor;
    Sums(w, b);
    OffMore(d.cfg, k);
  }

  /** A byte is handed out at the start of a chunk exactly if the page that is due is genuine and has one. */
  lemma HandedOut(d: Dev, w: seq<Byte>)
    requires Session(d, w) && d.st.offs >= d.cfg.bytes
    ensures ReadOne(d).1.Got? <==>
      Due(d) && Genuine(d.cfg, d.flash.pages[DueAt(d)], w, d.st.seqNo) && |d.flash.pages[DueAt(d)].data| > 16
  {
    LoadGuard(d, w);
    hide Load, Genuine, Session, Refused, Due;
  }

  // ----- Whole reads

  /** What one call of yaffs2_checkpt_rd hands out, on any flash: only bytes of genuine chunks, each checked against
      all bytes before it. It ends early at the first chunk that is not genuine, or where there is none. */
  lemma {:induction false} ReadGuard(d: Dev, w: seq<Byte>, n: nat) returns (s: Dev)
    requires Session(d, w)
    ensures var (e, out) := Read(d, n);
      && e.flash == d.flash && e.cfg == d.cfg && |out| <= n && Backed(d.cfg, d.flash, w + out)
      && (Session(e, w + out) || (|out| < n && Refused(e, w + out)))
      && (|out| < n ==> Session(s, w + out) && s.flash == d.flash && s.cfg == d.cfg && ReadOne(s) == (e, Eof))
    decreases n
  {
    hide *;
    s := d;
    SessionBacked(d, w);
    if n == 0 {
      ReadNone(d);
      assert w + [] == w;
    } else {
      OneGuard(d, w);
      ReadStep(d, n);
      var (d1, r) := ReadOne(d);
      if r.Got? {
        s := ReadGuard(d1, w + [r.b], n - 1);
        var out := Read(d1, n - 1).1;
        assert w + ([r.b] + out) == w + [r.b] + out;
      } else {
        assert w + [] == w;
      }
    }
  }

  lemma ReadNone(d: Dev)
    requires d.cfg.bytes > HDR && d.cfg.cpb > 0
    ensures Read(d, 0) == (d, [])
  {}

  lemma ReadStep(d: Dev, n: nat)
    requires d.cfg.bytes > HDR && d.cfg.cpb > 0 && n > 0
    ensures var (d1, r) := ReadOne(d);
      Read(d, n) == if r.Got? then (Read(d1, n - 1).0, [r.b] + Read(d1, n - 1).1) else (d1, [])
  {
    hide ReadOne;
  }

  lemma SessionBacked(d: Dev, w: seq<Byte>)
    requires Session(d, w)
    ensures Backed(d.cfg, d.flash, w) && d.cfg.bytes > HDR && d.cfg.cpb > 0
  {}

  /** No call but the last ends at a chunk that is refused. */
  predicate Untroubled(d: Dev, ns: seq<nat>)
    requires d.cfg.bytes > HDR && d.cfg.cpb > 0
    decreases |ns|
  {
    |ns| <= 1 || (Read(d, ns[0]).0.st.offs != 0 && Untroubled(Read(d, ns[0]).0, ns[1..]))
  }

  /** The same for a session of several calls that stops at the first one that was refused a chunk. */
  lemma {:induction false} EachGuard(d: Dev, w: seq<Byte>, ns: seq<nat>)
    requires Session(d, w) && Untroubled(d, ns)
    ensures ReadEach(d, ns).0.flash == d.flash && Backed(d.cfg, d.flash, w + ReadEach(d, ns).1)
    decreases |ns|
  {
    hide *;
    SessionBacked(d, w);
    ReadEachStep(d, ns);
    if ns == [] {
      assert w + [] == w;
    } else {
      var _ := ReadGuard(d, w, ns[0]);
      var (e, out) := Read(d, ns[0]);
      if |ns| == 1 {
        ReadEachStep(e, ns[1..]);
        assert out + [] == out;
      } else {
        NotRefused(e, w + out);
        EachGuard(e, w + out, ns[1..]);
        var rest := ReadEach(e, ns[1..]).1;
        assert w + (out + rest) == w + out + rest;
      }
    }
  }

  lemma ReadEachStep(d: Dev, ns: seq<nat>)
    requires d.cfg.bytes > HDR && d.cfg.cpb > 0
    ensures ns == [] ==> ReadEach(d, ns) == (d, [])
    ensures ns != [] ==> var (e, out) := Read(d, ns[0]);
      ReadEach(d, ns) == (ReadEach(e, ns[1..]).0, out + ReadEach(e, ns[1..]).1)
    ensures |ns| > 1 && Untroubled(d, ns) ==> Read(d, ns[0]).0.st.offs != 0 && Untroubled(Read(d, ns[0]).0, ns[1..])
  {
    hide Read;
  }

  lemma NotRefused(d: Dev, w: seq<Byte>)
    ensures Refused(d, w) ==> d.st.offs == 0
  {}

  /** A session starts with nothing read. */
  lemma OpenedSession(d: Dev)
    requires Configured(d.cfg)
    ensures Session(OpenRead(d), [])
  {
    OffStep(d.cfg, 0);
  }

  /** A call after one that was refused a chunk hands out that chunk all the same, its header first. */
  lemma {:induction false} AfterRefusal(d: Dev, n: nat)
    requires Configured(d.cfg) && d.st.offs + n <= d.cfg.bytes && d.st.offs + n <= |d.st.buffer|
    ensures Read(d, n).1 == d.st.buffer[d.st.offs..d.st.offs + n]
    decreases n
  {
    hide Read, ReadOne, Taken;
    if n == 0 {
      ReadNone(d);
    } else {
      NextByte(d);
      ReadStep(d, n);
      AfterRefusal(ReadOne(d).0, n - 1);
      var i := d.st.offs;
      assert d.st.buffer[i..i + n] == [d.st.buffer[i]] + d.st.buffer[i + 1..i + n];
    }
  }

  lemma NextByte(d: Dev)
    requires Configured(d.cfg) && d.st.offs < d.cfg.bytes && d.st.offs < |d.st.buffer|
    ensures var (d1, r) := ReadOne(d);
      r == Got(d.st.buffer[d.st.offs]) && d1.cfg == d.cfg && d1.st.offs == d.st.offs + 1 && d1.st.buffer == d.st.buffer
  {
    hide Xor;
  }

  /** After a call that was refused a chunk the session hands out no more, as it should, if and only if no later call
      asks for a byte. */
  lemma {:induction false} NoMore(d: Dev, ns: seq<nat>)
    requires Configured(d.cfg) && d.st.offs == 0 && d.st.buffer != []
    ensures ReadEach(d, ns).1 == [] <==> forall n :: n in ns ==> n == 0
    decreases |ns|
  {
    hide Read, ReadEach;
    ReadEachStep(d, ns);
    if ns != [] {
      assert forall n :: n in ns <==> n == ns[0] || n in ns[1..];
      if ns[0] == 0 {
        ReadNone(d);
        NoMore(d, ns[1..]);
      } else {
        FirstByte(d, ns[0]);
        var (e, out) := Read(d, ns[0]);
        assert (out + ReadEach(e, ns[1..]).1)[0] == out[0];
        assert ns[0] in ns;
      }
    }
  }

  lemma FirstByte(d: Dev, n: nat)
    requires Configured(d.cfg) && d.st.offs == 0 && d.st.buffer != [] && n > 0
    ensures Read(d, n).1 != []
  {
    hide Xor;
    ReadStep(d, n);
    var b := ReadOne(d).1;
    assert b.Got?;
  }

  lemma {:induction false} ReadBehind(d: Dev, xs: seq<nat>, ys: seq<nat>)
    requires d.cfg.bytes > HDR && d.cfg.cpb > 0
    ensures var (e, out) := ReadEach(d, xs); ReadEach(d, xs + ys) == (ReadEach(e, ys).0, out + ReadEach(e, ys).1)
    decreases |xs|
  {
    hide Read, ReadEach;
    ReadEachStep(d, xs);
    ReadEachStep(d, xs + ys);
    if xs == [] {
      assert xs + ys == ys && [] + ReadEach(d, ys).1 == ReadEach(d, ys).1;
    } else {
      var (e, out) := Read(d, xs[0]);
      ReadBehind(e, xs[1..], ys);
      var (f, rest) := ReadEach(e, xs[1..]);
      assert (xs + ys)[0] == xs[0] && (xs + ys)[1..] == xs[1..] + ys;
      assert out + (rest + ReadEach(f, ys).1) == out + rest + ReadEach(f, ys).1;
    }
  }

  /** A session whose calls `xs` end at a chunk that is refused: they hand out only bytes of genuine chunks, and all
      calls together hand out just these if and only if none of the calls behind them asks for a byte. */
  lemma SessionExact(d: Dev, w: seq<Byte>, xs: seq<nat>, ys: seq<nat>)
    requires Session(d, w) && Untroubled(d, xs)
    requires var e := ReadEach(d, xs).0; e.st.offs == 0 && e.st.buffer != []
    ensures Backed(d.cfg, d.flash, w + ReadEach(d, xs).1)
    ensures ReadEach(d, xs + ys).1 == ReadEach(d, xs).1 <==> forall n :: n in ys ==> n == 0
  {
    Configuration(d, w);
    hide Session, Backed, Read, ReadEach, Untroubled;
    EachGuard(d, w, xs);
    ReadBehind(d, xs, ys);
    NoMore(ReadEach(d, xs).0, ys);
  }

  lemma Configuration(d: Dev, w: seq<Byte>)
    requires Session(d, w)
    ensures Configured(d.cfg) && d.cfg.bytes > HDR && d.cfg.cpb > 0
  {}

  // ----- Spoilt bytes

  lemma Undone(x: bv8, y: bv8)
    ensures WordBytes.X(x, WordBytes.X(x, y)) == y && WordBytes.X(x, y) == WordBytes.X(y, x)
  {}

  function Small(a: Byte): bv8 { a as bv8 }

  lemma XorIs(a: Byte, b: Byte)
    ensures Xor(a, b) == WordBytes.X(Small(a), Small(b)) as int
  {}

  lemma SameByte(x: bv8, y: bv8)
    ensures x as int == y as int <==> x == y
  {}

  lemma SameSmall(a: Byte, b: Byte)
    ensures Small(a) == Small(b) <==> a == b
  {
    WordBytes.EightBits(a);
    WordBytes.EightBits(b);
  }

  /** The exclusive or with a byte tells all bytes apart. */
  lemma XorApart(a: Byte, b: Byte, c: Byte)
    ensures Xor(a, b) == Xor(a, c) <==> b == c
    ensures Xor(a, c) == Xor(b, c) <==> a == b
  {
    hide Small, Xor, WordBytes.X;
    var x, y, z := Small(a), Small(b), Small(c);
    XorIs(a, b);
    XorIs(a, c);
    XorIs(b, c);
    SameSmall(b, c);
    SameSmall(a, b);
    Undone(x, y);
    Undone(x, z);
    Undone(z, x);
    Undone(z, y);
    SameByte(WordBytes.X(x, y), WordBytes.X(x, z));
    SameByte(WordBytes.X(x, z), WordBytes.X(y, z));
  }

  /** One byte that has gone bad changes the exclusive or of all. */
  lemma {:induction false} SpoiltXor(w: seq<Byte>, i: nat, b: Byte)
    requires i < |w| && b != w[i]
    ensures XorAll(w[i := b]) != XorAll(w)
    decreases |w|
  {
    hide Xor;
    var n := |w| - 1;
    if i == n {
      assert w[i := b][..n] == w[..n];
      XorApart(XorAll(w[..n]), b, w[n]);
    } else {
      SpoiltXor(w[..n], i, b);
      assert w[i := b][..n] == w[..n][i := b];
      XorApart(XorAll(w[..n][i := b]), XorAll(w[..n]), w[n]);
    }
  }

  /** A reader that has been given one wrong byte anywhere is handed no byte of the chunk that was written next. */
  lemma SpoiltRefused(c: Config, p: Page, w: seq<Byte>, i: nat, b: Byte, j: nat)
    requires c.bytes > HDR && Genuine(c, p, w, j) && i < Off(c, j) <= |w| && b != w[i]
    ensures !Genuine(c, p, w[i := b], j)
  {
    var m := Off(c, j);
    assert w[i := b][..m] == w[..m][i := b];
    SpoiltXor(w[..m], i, b);
    hide Off, Put, Sum, XorAll;
    LastWord(p.data, XorAll(w[..m]), XorAll(w[i := b][..m]), c.swap);
    if Genuine(c, p, w[i := b], j) {
      Tail4(Put(8, c.swap) + Put(j, c.swap) + Put(Sum(w[..m]), c.swap), Put(XorAll(w[..m]), c.swap),
            Put(8, c.swap) + Put(j, c.swap) + Put(Sum(w[i := b][..m]), c.swap), Put(XorAll(w[i := b][..m]), c.swap));
    }
  }

  lemma LastWord(data: seq<Byte>, x: Byte, y: Byte, swap: bool)
    requires x != y
    ensures Put(x, swap) != Put(y, swap)
  {
    Words.RoundTrip(x, swap);
    Words.RoundTrip(y, swap);
    hide Put, Get;
  }

  lemma Tail4(a: seq<Byte>, x: seq<Byte>, b: seq<Byte>, y: seq<Byte>)
    requires |a| == |b| && a + x == b + y
    ensures x == y
  {
    assert x == (a + x)[|a|..] && y == (b + y)[|b|..];
  }

  // ----- When the calls succeed

  /** A flush writes its chunk exactly if the block at hand has room, or the counter leaves more than the reserve and an
      empty block follows the hint. */
  lemma FlushGoes(d: Dev)
    requires Configured(d.cfg)
    ensures Flush(d).1 <==>
      || d.st.block >= 0
      || (d.counts.erased > d.cfg.reserved && 0 <= d.st.next && exists i: nat :: d.st.next <= i <= d.cfg.last && StateOf(d.flash, i) == Empty)
  {
    hide WritePage, MarkBlock, StateOf;
    if d.st.next >= 0 {
      var i := FirstEmpty(d.cfg, d.flash, d.st.next);
      if i <= d.cfg.last { assert d.st.next <= i <= d.cfg.last && StateOf(d.flash, i) == Empty; }
    }
  }

  /** Opening for writing succeeds exactly if the counter leaves more than the reserve. */
  lemma OpenGoes(d: Dev, bad: set<nat>)
    requires Configured(d.cfg)
    ensures OpenWrite(d, bad).1 <==> d.counts.erased > d.cfg.reserved
  {
    hide Erase, Opened, Fresh;
  }

  /** A reader finds a block exactly if it has one at hand, or it may take another and a block of the checkpoint follows
      the hint; it may take a sixteenth of the blocks and two more. */
  lemma FindGoes(d: Dev)
    requires Configured(d.cfg)
    ensures Sought(d).st.block >= 0 <==>
      || d.st.block >= 0
      || (d.counts.used < d.st.maxBlocks && 0 <= d.st.next && exists i: nat :: d.st.next <= i <= d.cfg.last && Tagged(d.cfg, d.flash, i))
    ensures OpenRead(d).st.maxBlocks == (d.cfg.last - d.cfg.first) / 16 + 2 && OpenRead(d).counts.used == 0
  {
    hide Tagged;
    if d.st.next >= 0 {
      var i := FirstTagged(d.cfg, d.flash, d.st.next);
      if i <= d.cfg.last { assert d.st.next <= i <= d.cfg.last && Tagged(d.cfg, d.flash, i); }
    }
  }

  /** Erasing empties every block of the checkpoint, or marks it dead if that fails, and touches no other. */
  lemma {:induction false} EraseDoes(d: Dev, n: nat, bad: set<nat>, i: nat, at: nat)
    requires Configured(d.cfg)
    ensures var e, mine := EraseUpTo(d, n, bad), d.cfg.first <= i < d.cfg.first + n && StateOf(d.flash, i) == Checkpoint;
      && StateOf(e.flash, i) == (if !mine then StateOf(d.flash, i) else if i in bad then Dead else Empty)
      && (at / d.cfg.cpb == i ==> (at in e.flash.pages <==> at in d.flash.pages && !(mine && i !in bad)))
      && (at in e.flash.pages ==> at in d.flash.pages && e.flash.pages[at] == d.flash.pages[at])
  {
    if n > 0 {
      EraseDoes(d, n - 1, bad, i, at);
      EraseDoes(d, n - 1, bad, d.cfg.first + n - 1, at);
      var e := EraseUpTo(d, n - 1, bad);
      hide EraseUpTo;
      assert e.cfg == d.cfg;
    }
  }
}
