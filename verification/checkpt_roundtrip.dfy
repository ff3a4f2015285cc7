/** What is written to a checkpoint is read back, with the same running sums at every position. */
module CheckptRoundTrip {
  import opened Words
  import opened CheckptModel
  import opened CheckptTape

  /** The running sum and exclusive or of a stream. */
  function Sum(w: seq<Byte>): (n: nat)
    ensures n < WRAP
  {
    if w == [] then 0 else (Sum(w[..|w| - 1]) + w[|w| - 1]) % WRAP
  }

  function XorAll(w: seq<Byte>): Byte
  {
    if w == [] then 0 else Xor(XorAll(w[..|w| - 1]), w[|w| - 1])
  }

  lemma Sums(w: seq<Byte>, b: Byte)
    ensures Sum(w + [b]) == (Sum(w) + b) % WRAP && XorAll(w + [b]) == Xor(XorAll(w), b)
  {
    assert (w + [b])[..|w|] == w;
  }

  /** Where chunk `j` starts in the stream. */
  function Off(c: Config, j: nat): nat
    requires c.bytes > HDR
  {
    j * (c.bytes - HDR)
  }

  lemma OffStep(c: Config, j: nat)
    requires c.bytes > HDR
    ensures Off(c, 0) == 0 && Off(c, j + 1) == Off(c, j) + c.bytes - HDR
  {}

  lemma OffOrder(c: Config, i: nat, j: nat)
    requires c.bytes > HDR && i <= j
    ensures Off(c, i) <= Off(c, j)
  {
    assert i * (c.bytes - HDR) <= j * (c.bytes - HDR);
  }

  function Head(c: Config, w: seq<Byte>, j: nat): (h: seq<Byte>)
    requires c.bytes > HDR && Off(c, j) <= |w|
    ensures |h| == HDR
  {
    Header(j, Sum(w[..Off(c, j)]), XorAll(w[..Off(c, j)]), c.swap)
  }

  /** Chunk `j` of a stream. */
  function Cell(c: Config, w: seq<Byte>, j: nat): seq<Byte>
    requires c.bytes > HDR && Off(c, j) <= Off(c, j + 1) <= |w|
  {
    Head(c, w, j) + w[Off(c, j)..Off(c, j + 1)]
  }

  predicate IsCell(c: Config, w: seq<Byte>, j: nat, data: seq<Byte>)
    requires c.bytes > HDR
  {
    Off(c, j) <= Off(c, j + 1) <= |w| && data == Cell(c, w, j)
  }

  /** The tape carries the stream `w`, or its beginning. */
  ghost predicate Carries(c: Config, w: seq<Byte>, tape: seq<seq<Byte>>)
    requires c.bytes > HDR
  {
    forall j: nat :: j < |tape| ==> IsCell(c, w, j, tape[j])
  }

  lemma CarriesMore(c: Config, w: seq<Byte>, v: seq<Byte>, tape: seq<seq<Byte>>)
    requires c.bytes > HDR && Carries(c, w, tape)
    ensures Carries(c, w + v, tape)
  {
    forall j: nat | j < |tape| ensures IsCell(c, w + v, j, tape[j]) {
      assert IsCell(c, w, j, tape[j]);
      assert (w + v)[..Off(c, j)] == w[..Off(c, j)];
      assert (w + v)[Off(c, j)..Off(c, j + 1)] == w[Off(c, j)..Off(c, j + 1)];
    }
  }

  lemma CarriesOne(c: Config, w: seq<Byte>, tape: seq<seq<Byte>>, data: seq<Byte>)
    requires c.bytes > HDR && Carries(c, w, tape) && IsCell(c, w, |tape|, data)
    ensures Carries(c, w, tape + [data])
  {
    hide IsCell;
  }

  // ----- Writing

  /** The buffer holds the tail of `w` that is not yet on the tape. */
  ghost predicate Buffered(c: Config, st: Stream, w: seq<Byte>, k: nat)
    requires c.bytes > HDR
  {
    && Off(c, k) <= |w| < Off(c, k + 1)
    && st.offs == HDR + |w| - Off(c, k)
    && st.buffer == Head(c, w, k) + w[Off(c, k)..] + Zeros(Off(c, k + 1) - |w|)
  }

  ghost predicate Summed(st: Stream, w: seq<Byte>) { st.sum == Sum(w) && st.xor == XorAll(w) && st.count == |w| }

  ghost predicate Writer(d: Dev, w: seq<Byte>, blks: seq<nat>, tape: seq<seq<Byte>>)
  {
    && Tape(d.cfg, d.flash, blks, tape) && Cursor(d.cfg, d.st, blks, |tape|) && d.counts.used == |blks|
    && Carries(d.cfg, w, tape) && Buffered(d.cfg, d.st, w, |tape|) && Summed(d.st, w)
    && d.st.writing
  }

  /** One more byte, before the buffer is written out. */
  lemma PutBuffered(c: Config, st: Stream, w: seq<Byte>, k: nat, b: Byte)
    requires c.bytes > HDR && Buffered(c, st, w, k)
    ensures |w + [b]| < Off(c, k + 1) ==> Buffered(c, PutByte(st, b), w + [b], k)
    ensures |w + [b]| == Off(c, k + 1) ==> IsCell(c, w + [b], k, PutByte(st, b).buffer)
    ensures PutByte(st, b).offs >= c.bytes <==> |w + [b]| == Off(c, k + 1)
  {
    OffStep(c, k);
    var w2 := w + [b];
    assert w2[..Off(c, k)] == w[..Off(c, k)];
    assert w2[Off(c, k)..] == w[Off(c, k)..] + [b];
    assert w2[Off(c, k)..|w2|] == w[Off(c, k)..] + [b];
    hide Header, Sum, XorAll, Off, Xor;
    var z := Off(c, k + 1) - |w|;
    assert Zeros(z) == [0] + Zeros(z - 1);
    assert PutByte(st, b).buffer == Head(c, w, k) + (w[Off(c, k)..] + [b]) + Zeros(z - 1);
  }

  lemma FreshBuffered(c: Config, st: Stream, w: seq<Byte>)
    requires c.bytes > HDR && |w| == Off(c, st.seqNo) && Summed(st, w)
    ensures Buffered(c, Fresh(c, st), w, st.seqNo)
  {
    OffStep(c, st.seqNo);
    assert w[..|w|] == w;
    assert w[|w|..] == [];
    hide Header, Sum, XorAll, Off;
    assert Head(c, w, st.seqNo) + [] == Head(c, w, st.seqNo);
  }

  /** The buffer of a stream that is filled up with zeros to the end of its chunk. */
  lemma Padded(c: Config, st: Stream, w: seq<Byte>, k: nat, pad: nat)
    requires c.bytes > HDR && Buffered(c, st, w, k) && |w| + pad == Off(c, k + 1)
    ensures IsCell(c, w + Zeros(pad), k, st.buffer)
  {
    var v := w + Zeros(pad);
    assert v[..Off(c, k)] == w[..Off(c, k)];
    assert v[Off(c, k)..Off(c, k + 1)] == w[Off(c, k)..] + Zeros(pad);
    hide Header, Sum, XorAll, Off, Zeros;
  }

  lemma SameCursor(c: Config, st: Stream, b: Byte, blks: seq<nat>, n: nat)
    requires Cursor(c, st, blks, n)
    ensures Cursor(c, PutByte(st, b), blks, n)
  {}

  /** The byte that fills the chunk sends it to the flash. */
  lemma FlushFull(d: Dev, w: seq<Byte>, blks: seq<nat>, tape: seq<seq<Byte>>) returns (blks2: seq<nat>)
    requires Tape(d.cfg, d.flash, blks, tape) && Cursor(d.cfg, d.st, blks, |tape|) && d.counts.used == |blks|
    requires Carries(d.cfg, w, tape) && IsCell(d.cfg, w, |tape|, d.st.buffer) && |w| == Off(d.cfg, |tape| + 1)
    requires Summed(d.st, w) && d.st.writing && Flush(d).1
    ensures Writer(Flush(d).0, w, blks2, tape + [d.st.buffer])
  {
    assert d.cfg.bytes > HDR && d.cfg.cpb > 0;
    hide Tape, Carries, Sum, XorAll, Off, IsCell, Zeros, Header, Cursor, Flush, Buffered;
    CarriesOne(d.cfg, w, tape, d.st.buffer);
    blks2 := FlushTape(d, blks, tape);
    FreshBuffered(d.cfg, d.st.(seqNo := |tape| + 1, block := Flush(d).0.st.block, chunk := Flush(d).0.st.chunk, next := Flush(d).0.st.next), w);
  }

  lemma WriteByteStep(d: Dev, b: Byte, w: seq<Byte>, blks: seq<nat>, tape: seq<seq<Byte>>)
    returns (blks2: seq<nat>, tape2: seq<seq<Byte>>)
    requires Writer(d, w, blks, tape) && WriteByte(d, b).1
    ensures Writer(WriteByte(d, b).0, w + [b], blks2, tape2)
  {
    hide Tape, Carries, Sum, XorAll, Buffered, Off, Xor, IsCell, Zeros, Header, Flush, Cursor;
    var d1 := d.(st := PutByte(d.st, b));
    WriterParts(d, w, blks, tape);
    PutBuffered(d.cfg, d.st, w, |tape|, b);
    CarriesMore(d.cfg, w, [b], tape);
    Sums(w, b);
    SameCursor(d.cfg, d.st, b, blks, |tape|);
    blks2, tape2 := blks, tape;
    if d1.st.offs >= d.cfg.bytes {
      blks2 := FlushFull(d1, w + [b], blks, tape);
      tape2 := tape + [d1.st.buffer];
    }
  }

  lemma WriteUnfold(d: Dev, data: seq<Byte>)
    requires Configured(d.cfg)
    ensures d.cfg.bytes > HDR && d.cfg.cpb > 0
    ensures data == [] ==> Write(d, data) == (d, 0, true)
    ensures data != [] ==>
      var (d1, ok) := WriteByte(d, data[0]); var (d2, n, ok2) := Write(d1, data[1..]);
      Write(d, data) == if ok then (d2, n + 1, ok2) else (d1, 1, false)
  {
    hide WriteByte;
  }

  /** The session has written `w`. */
  ghost predicate Wrote(d: Dev, w: seq<Byte>) { exists blks, tape :: Writer(d, w, blks, tape) }

  lemma WroteByte(d: Dev, b: Byte, w: seq<Byte>)
    requires Wrote(d, w) && Configured(d.cfg) && WriteByte(d, b).1
    ensures Wrote(WriteByte(d, b).0, w + [b])
  {
    hide Writer, WriteByte;
    var blks, tape :| Writer(d, w, blks, tape);
    var blks2, tape2 := WriteByteStep(d, b, w, blks, tape);
  }

  lemma {:induction false} WriteSteps(d: Dev, data: seq<Byte>, w: seq<Byte>)
    requires Configured(d.cfg) && Wrote(d, w) && Write(d, data).2
    ensures Wrote(Write(d, data).0, w + data) && Write(d, data).1 == |data|
    decreases |data|
  {
    hide *;
    WriteUnfold(d, data);
    if data == [] {
      assert w + data == w;
    } else {
      WroteByte(d, data[0], w);
      assert w + [data[0]] + data[1..] == w + data;
      WriteSteps(WriteByte(d, data[0]).0, data[1..], w + [data[0]]);
    }
  }

  // ----- Opening and closing

  /** Only blocks in state CHECKPOINT carry the checkpoint tag, unless they are dead. */
  ghost predicate TagsOk(c: Config, f: Flash)
  {
    forall i :: c.first <= i <= c.last && Tagged(c, f, i) ==> StateOf(f, i) == Checkpoint
  }

  lemma {:induction false} EraseClears(d: Dev, n: nat, bad: set<nat>)
    requires Configured(d.cfg) && TagsOk(d.cfg, d.flash)
    ensures var f := EraseUpTo(d, n, bad).flash;
      forall i :: d.cfg.first <= i <= d.cfg.last && Tagged(d.cfg, f, i) ==> i >= d.cfg.first + n && StateOf(f, i) == Checkpoint
    ensures EraseUpTo(d, n, bad).st == d.st
  {
    if n > 0 {
      EraseClears(d, n - 1, bad);
      var e, k, c := EraseUpTo(d, n - 1, bad), d.cfg.first + n - 1, d.cfg;
      var f := EraseBlock(e, k, bad).flash;
      forall i | c.first <= i <= c.last && Tagged(c, f, i) ensures i >= c.first + n && StateOf(f, i) == Checkpoint {
        First(c, i);
        if i != k { assert Tagged(c, e.flash, i); }
        assert StateOf(e.flash, k) != Checkpoint ==> !Tagged(c, e.flash, k);
      }
    }
  }

  lemma First(c: Config, i: nat)
    requires c.cpb > 0
    ensures i * c.cpb / c.cpb == i
  {
    AtOrder(c, i, 0, i * c.cpb / c.cpb, i * c.cpb % c.cpb);
  }

  /** A session opened for writing starts with nothing on the tape. */
  lemma OpenedWriter(d: Dev, bad: set<nat>)
    requires Configured(d.cfg) && TagsOk(d.cfg, d.flash) && OpenWrite(d, bad).1
    ensures Writer(OpenWrite(d, bad).0, [], [], []) && OpenWrite(d, bad).0.cfg == d.cfg
  {
    var d0 := d.(st := d.st.(writing := true));
    var d1 := d0.(st := Fresh(d.cfg, Opened(d0)));
    EraseClears(d1, Blocks(d.cfg), bad);
    OffStep(d.cfg, 0);
    FreshBuffered(d.cfg, Opened(d0), []);
    hide Header, Zeros, Off, Buffered, EraseUpTo, Tagged;
  }

  /** The last flush leaves the whole stream, filled up with zeros, on the tape. */
  lemma CloseTape(d: Dev, w: seq<Byte>, blks: seq<nat>, tape: seq<seq<Byte>>)
    returns (blks2: seq<nat>, tape2: seq<seq<Byte>>, pad: nat)
    requires Writer(d, w, blks, tape) && Flush(d).1
    ensures var e := Close(d);
      && e.cfg == d.cfg && Tape(e.cfg, e.flash, blks2, tape2) && Carries(e.cfg, w + Zeros(pad), tape2)
      && |w| + pad == Off(e.cfg, |tape2|) && |tape2| <= At(e.cfg, |blks2|, 0) && e.counts.used == |blks2|
  {
    hide *;
    var c := d.cfg;
    WriterParts(d, w, blks, tape);
    CloseFlushes(d, w, blks, tape);
    pad := Off(c, |tape| + 1) - |w|;
    PaddedTape(c, d.st, w, tape, pad, w + Zeros(pad));
    blks2 := FlushTape(d, blks, tape);
    tape2 := tape + [d.st.buffer];
    CursorEnd(c, Flush(d).0.st, blks2, |tape2|);
  }

  lemma WriterParts(d: Dev, w: seq<Byte>, blks: seq<nat>, tape: seq<seq<Byte>>)
    requires Writer(d, w, blks, tape)
    ensures d.cfg.bytes > HDR && d.cfg.cpb > 0 && Off(d.cfg, |tape|) <= |w| < Off(d.cfg, |tape| + 1)
    ensures Tape(d.cfg, d.flash, blks, tape) && Cursor(d.cfg, d.st, blks, |tape|) && d.counts.used == |blks|
    ensures Carries(d.cfg, w, tape) && Buffered(d.cfg, d.st, w, |tape|) && Summed(d.st, w) && d.st.writing
  {
    hide Carries, Cursor, Summed;
  }

  lemma CloseFlushes(d: Dev, w: seq<Byte>, blks: seq<nat>, tape: seq<seq<Byte>>)
    requires Writer(d, w, blks, tape)
    ensures Close(d).cfg == d.cfg && Close(d).flash == Flush(d).0.flash && Close(d).counts.used == Flush(d).0.counts.used
  {
    hide Tape, Carries, Flush, Cursor, Sum, XorAll;
  }

  /** The tape with the last, filled up chunk. */
  lemma PaddedTape(c: Config, st: Stream, w: seq<Byte>, tape: seq<seq<Byte>>, pad: nat, v: seq<Byte>)
    requires c.bytes > HDR && Carries(c, w, tape) && Buffered(c, st, w, |tape|)
    requires |w| + pad == Off(c, |tape| + 1) && v == w + Zeros(pad)
    ensures Carries(c, v, tape + [st.buffer])
  {
    hide *;
    CarriesMore(c, w, Zeros(pad), tape);
    Padded(c, st, w, |tape|, pad);
    CarriesOne(c, v, tape, st.buffer);
  }

  lemma CursorEnd(c: Config, st: Stream, blks: seq<nat>, n: nat)
    requires c.cpb > 0 && Cursor(c, st, blks, n)
    ensures n <= At(c, |blks|, 0)
  {
    if st.block >= 0 { AtOrder(c, |blks| - 1, st.chunk, |blks|, 0); }
    hide At;
  }

  // ----- Reading

  /** Where the reader stands: before the first chunk, or inside or at the end of chunk `j - 1`. */
  ghost predicate Within(c: Config, j: nat, offs: nat, buffer: seq<Byte>, tape: seq<seq<Byte>>, n: nat)
    requires c.bytes > HDR
  {
    j <= |tape| &&
    if j == 0 then n == 0 && offs == c.bytes
    else Off(c, j - 1) <= n <= Off(c, j) && offs == HDR + n - Off(c, j - 1) && buffer == tape[j - 1]
  }

  /** What lies on the flash while the stream `v` is read. */
  ghost predicate Stored(c: Config, f: Flash, v: seq<Byte>, blks: seq<nat>, tape: seq<seq<Byte>>)
  {
    && Tape(c, f, blks, tape) && Carries(c, v, tape)
    && |v| == Off(c, |tape|) && |tape| <= At(c, |blks|, 0) && |tape| <= WRAP
  }

  /** The session after `n` bytes and `b` blocks. */
  ghost predicate Place(c: Config, st: Stream, used: nat, v: seq<Byte>, blks: seq<nat>, b: nat, tape: seq<seq<Byte>>, n: nat)
    requires c.bytes > HDR
  {
    && b <= |blks| && b <= st.maxBlocks && used == b && Cursor(c, st, blks[..b], st.seqNo)
    && n <= |v| && Within(c, st.seqNo, st.offs, st.buffer, tape, n) && Summed(st, v[..n])
  }

  ghost predicate Reader(d: Dev, v: seq<Byte>, blks: seq<nat>, b: nat, tape: seq<seq<Byte>>, n: nat)
  {
    Stored(d.cfg, d.flash, v, blks, tape) && Place(d.cfg, d.st, d.counts.used, v, blks, b, tape, n)
  }

  /** The stream as far as the blocks that a reader is allowed to take hold it. */
  function Limit(c: Config, maxBlocks: nat): nat
    requires c.bytes > HDR
  {
    Off(c, At(c, maxBlocks, 0))
  }

  lemma Slices(h: seq<Byte>, w: seq<Byte>)
    requires |h| == HDR
    ensures (h + w)[0..4] == h[0..4] && (h + w)[4..8] == h[4..8] && (h + w)[8..12] == h[8..12] && (h + w)[12..16] == h[12..16]
  {}

  lemma HeadOk(c: Config, v: seq<Byte>, j: nat, data: seq<Byte>)
    requires c.bytes > HDR && IsCell(c, v, j, data) && j < WRAP
    ensures HeaderOk(data, j, Sum(v[..Off(c, j)]), XorAll(v[..Off(c, j)]), c.swap)
  {
    var sum, xor := Sum(v[..Off(c, j)]), XorAll(v[..Off(c, j)]);
    hide Off, Sum, XorAll, Put, Get;
    var h := Head(c, v, j);
    Slices(h, v[Off(c, j)..Off(c, j + 1)]);
    Words.RoundTrip(VERSION, c.swap);
    Words.RoundTrip(j, c.swap);
    Words.RoundTrip(sum, c.swap);
    Words.RoundTrip(xor, c.swap);
  }

  lemma CellByte(c: Config, v: seq<Byte>, j: nat, data: seq<Byte>, n: nat)
    requires c.bytes > HDR && IsCell(c, v, j, data) && Off(c, j) <= n < Off(c, j + 1)
    ensures |data| == c.bytes && data[HDR + n - Off(c, j)] == v[n]
  {
    OffStep(c, j);
    hide Off, Head;
  }

  lemma TakeValue(c: Config, j: nat, offs: nat, buffer: seq<Byte>, v: seq<Byte>, tape: seq<seq<Byte>>, n: nat)
    requires c.bytes > HDR && Carries(c, v, tape) && Within(c, j, offs, buffer, tape, n) && offs < c.bytes && n < |v|
    ensures |buffer| == c.bytes && buffer[offs] == v[n]
    ensures Within(c, j, offs + 1, buffer, tape, n + 1)
  {
    OffStep(c, j - 1);
    assert IsCell(c, v, j - 1, tape[j - 1]);
    CellByte(c, v, j - 1, tape[j - 1], n);
    hide Off, IsCell;
  }

  lemma TakeSums(st: Stream, v: seq<Byte>, n: nat)
    requires n < |v| && Summed(st, v[..n])
    ensures Summed(Taken(st, v[n]), v[..n + 1])
  {
    Sums(v[..n], v[n]);
    assert v[..n] + [v[n]] == v[..n + 1];
    hide Sum, XorAll, Xor;
  }

  lemma TakePlace(c: Config, st: Stream, used: nat, v: seq<Byte>, blks: seq<nat>, b: nat, tape: seq<seq<Byte>>, n: nat)
    requires c.bytes > HDR && Carries(c, v, tape) && Place(c, st, used, v, blks, b, tape, n) && st.offs < c.bytes && n < |v|
    ensures |st.buffer| == c.bytes && st.buffer[st.offs] == v[n]
    ensures Place(c, Taken(st, v[n]), used, v, blks, b, tape, n + 1)
  {
    TakeValue(c, st.seqNo, st.offs, st.buffer, v, tape, n);
    TakeSums(st, v, n);
    assert Cursor(c, Taken(st, v[n]), blks[..b], st.seqNo);
    hide Within, Summed, Cursor, Carries, Xor;
  }

  /** Exactly at a chunk's end the next chunk is loaded. */
  lemma AtEnd(c: Config, j: nat, offs: nat, buffer: seq<Byte>, tape: seq<seq<Byte>>, n: nat)
    requires c.bytes > HDR && Within(c, j, offs, buffer, tape, n)
    ensures offs >= c.bytes <==> n == Off(c, j)
    ensures n <= Off(c, j)
  {
    OffStep(c, 0);
    if j > 0 { OffStep(c, j - 1); }
    hide Off;
  }

  lemma OffLess(c: Config, i: nat, j: nat)
    requires c.bytes > HDR
    ensures Off(c, i) < Off(c, j) <==> i < j
  {
    if i < j { OffOrder(c, i + 1, j); OffStep(c, i); } else { OffOrder(c, j, i); }
  }

  /** At a chunk's end before the stream's end the next chunk is on the tape with a fitting header. */
  lemma NextCell(c: Config, v: seq<Byte>, tape: seq<seq<Byte>>, j: nat, n: nat)
    requires c.bytes > HDR && Carries(c, v, tape) && |v| == Off(c, |tape|) && |tape| <= WRAP && n == Off(c, j) && n < |v|
    ensures j < |tape| && HeaderOk(tape[j], j, Sum(v[..n]), XorAll(v[..n]), c.swap)
    ensures Within(c, j + 1, HDR, tape[j], tape, n)
  {
    OffLess(c, j, |tape|);
    OffStep(c, j);
    assert IsCell(c, v, j, tape[j]);
    HeadOk(c, v, j, tape[j]);
    hide Off, HeaderOk, IsCell, Sum, XorAll;
  }

  /** Loading chunk `seqNo`. */
  lemma LoadReader(d: Dev, v: seq<Byte>, blks: seq<nat>, b: nat, tape: seq<seq<Byte>>, n: nat) returns (b2: nat)
    requires Reader(d, v, blks, b, tape, n) && n < |v| && d.st.offs >= d.cfg.bytes
    requires d.st.block < 0 ==> b < d.st.maxBlocks
    ensures Load(d).1 && Reader(Load(d).0, v, blks, b2, tape, n) && Load(d).0.st.offs < d.cfg.bytes
    ensures Load(d).0.st.maxBlocks == d.st.maxBlocks && Load(d).0.flash == d.flash
  {
    var j := d.st.seqNo;
    AtEnd(d.cfg, j, d.st.offs, d.st.buffer, tape, n);
    NextCell(d.cfg, v, tape, j, n);
    hide Tape, Carries, HeaderOk, Off, At, Sum, XorAll, Load, Cursor, Within;
    b2 := LoadTape(d, blks, b, tape, j);
  }

  /** Before the limit the reader may still take a block when it needs one. */
  lemma MoreBlocks(d: Dev, v: seq<Byte>, blks: seq<nat>, b: nat, tape: seq<seq<Byte>>, n: nat)
    requires Reader(d, v, blks, b, tape, n) && d.st.offs >= d.cfg.bytes && d.st.block < 0
    ensures n == Limit(d.cfg, b) && b <= d.st.maxBlocks && d.counts.used == b
  {
    AtEnd(d.cfg, d.st.seqNo, d.st.offs, d.st.buffer, tape, n);
    hide At, Off, Tape, Carries;
  }

  lemma ReadyReader(d: Dev, v: seq<Byte>, blks: seq<nat>, b: nat, tape: seq<seq<Byte>>, n: nat) returns (b2: nat)
    requires Reader(d, v, blks, b, tape, n) && n < |v| && n < Limit(d.cfg, d.st.maxBlocks)
    ensures Ready(d).1 && Reader(Ready(d).0, v, blks, b2, tape, n) && Ready(d).0.st.offs < d.cfg.bytes
    ensures Ready(d).0.st.maxBlocks == d.st.maxBlocks && Ready(d).0.flash == d.flash
  {
    b2 := b;
    hide Stored, Place, Load, Limit;
    if d.st.offs >= d.cfg.bytes {
      if d.st.block < 0 { MoreBlocks(d, v, blks, b, tape, n); }
      hide Reader;
      b2 := LoadReader(d, v, blks, b, tape, n);
    }
  }

  /** The next byte of the stream comes out, unless the allowed blocks are used up. */
  lemma ReadOneStep(d: Dev, v: seq<Byte>, blks: seq<nat>, b: nat, tape: seq<seq<Byte>>, n: nat) returns (b2: nat)
    requires Reader(d, v, blks, b, tape, n) && n < |v| && n < Limit(d.cfg, d.st.maxBlocks)
    ensures ReadOne(d).1 == Got(v[n]) && Reader(ReadOne(d).0, v, blks, b2, tape, n + 1)
    ensures ReadOne(d).0.st.maxBlocks == d.st.maxBlocks && ReadOne(d).0.flash == d.flash
  {
    b2 := ReadyReader(d, v, blks, b, tape, n);
    var d1 := Ready(d).0;
    hide Tape, Carries, Off, At, Xor, Place, Ready, Limit, Cursor;
    TakePlace(d1.cfg, d1.st, d1.counts.used, v, blks, b2, tape, n);
  }

  /** Nothing more comes out once the allowed blocks are used up. */
  ghost predicate Ended(d: Dev)
  {
    Configured(d.cfg) && d.st.offs >= d.cfg.bytes && d.st.block < 0 && d.counts.used >= d.st.maxBlocks
  }

  lemma EndedStep(d: Dev)
    requires Ended(d)
    ensures ReadOne(d).1 == Eof && Ended(ReadOne(d).0)
    ensures ReadOne(d).0.st.maxBlocks == d.st.maxBlocks
  {
    LoadStops(d);
    hide Load, Header;
  }

  /** At the limit the reader has used up its blocks. */
  lemma LimitReached(c: Config, st: Stream, v: seq<Byte>, blks: seq<nat>, b: nat, tape: seq<seq<Byte>>, n: nat, used: nat)
    requires c.bytes > HDR && Place(c, st, used, v, blks, b, tape, n) && n == Limit(c, st.maxBlocks) && Configured(c)
    ensures st.offs >= c.bytes && st.block < 0 && used >= st.maxBlocks
  {
    AtEnd(c, st.seqNo, st.offs, st.buffer, tape, n);
    CursorEnd(c, st, blks[..b], st.seqNo);
    OffLess(c, st.seqNo, At(c, st.maxBlocks, 0));
    if st.block >= 0 {
      AtOrder(c, b - 1, st.chunk, st.maxBlocks, 0);
    }
    hide Off, At;
    AtOrder(c, b, 0, st.maxBlocks, 0);
  }

  lemma {:induction false} EndedSteps(d: Dev, m: nat)
    requires Ended(d)
    ensures Read(d, m).1 == [] && Ended(Read(d, m).0) && Read(d, m).0.st.maxBlocks == d.st.maxBlocks
  {
    if m > 0 {
      EndedStep(d);
    }
    hide ReadOne;
  }

  function Least(a: nat, b: nat): nat { if a <= b then a else b }

  lemma ReadUnfold(d: Dev, m: nat)
    requires Configured(d.cfg)
    ensures d.cfg.bytes > HDR && d.cfg.cpb > 0
    ensures m == 0 ==> Read(d, m) == (d, [])
    ensures m > 0 && ReadOne(d).1.Got? ==>
      var (d2, rest) := Read(ReadOne(d).0, m - 1); Read(d, m) == (d2, [ReadOne(d).1.b] + rest)
  {
    hide ReadOne;
  }

  /** The outcome `r` of reading up to position `n2`: the session there, or over at the limit. */
  ghost predicate Outcome(d: Dev, r: (Dev, seq<Byte>), v: seq<Byte>, blks: seq<nat>, b: nat, tape: seq<seq<Byte>>, n: nat, n2: nat)
    requires Configured(d.cfg)
  {
    var limit := Limit(d.cfg, d.st.maxBlocks);
    && r.0.cfg == d.cfg && r.0.st.maxBlocks == d.st.maxBlocks
    && n <= n2 <= |v| && n <= limit && r.1 == v[n..Least(n2, limit)]
    && if n2 <= limit then Reader(r.0, v, blks, b, tape, n2) else Ended(r.0)
  }

  lemma Joined(d: Dev, d1: Dev, r: (Dev, seq<Byte>), v: seq<Byte>, blks: seq<nat>, b: nat, tape: seq<seq<Byte>>, n: nat, n2: nat)
    requires Configured(d.cfg) && d1.cfg == d.cfg && d1.st.maxBlocks == d.st.maxBlocks
    requires n < |v| && n < Limit(d.cfg, d.st.maxBlocks) && Outcome(d1, r, v, blks, b, tape, n + 1, n2)
    ensures Outcome(d, (r.0, [v[n]] + r.1), v, blks, b, tape, n, n2)
  {
    hide Reader, Ended, Limit;
    var limit := Limit(d.cfg, d.st.maxBlocks);
    assert [v[n]] + v[n + 1..Least(n2, limit)] == v[n..Least(n2, limit)];
  }

  /** Reading from a session inside the stream. */
  lemma {:induction false} ReadSteps(d: Dev, m: nat, v: seq<Byte>, blks: seq<nat>, b: nat, tape: seq<seq<Byte>>, n: nat)
    returns (b2: nat)
    requires Configured(d.cfg) && Reader(d, v, blks, b, tape, n) && n <= Limit(d.cfg, d.st.maxBlocks) && n + m <= |v|
    ensures Outcome(d, Read(d, m), v, blks, b2, tape, n, n + m)
    decreases m
  {
    b2 := b;
    hide *;
    ReadUnfold(d, m);
    if m == 0 || n == Limit(d.cfg, d.st.maxBlocks) {
      Still(d, m, v, blks, b, tape, n);
    } else {
      var b1 := ReadOneStep(d, v, blks, b, tape, n);
      var d1 := ReadOne(d).0;
      b2 := ReadSteps(d1, m - 1, v, blks, b1, tape, n + 1);
      Joined(d, d1, Read(d1, m - 1), v, blks, b2, tape, n, n + m);
    }
  }

  /** Nothing to read, or nothing left to read. */
  lemma Still(d: Dev, m: nat, v: seq<Byte>, blks: seq<nat>, b: nat, tape: seq<seq<Byte>>, n: nat)
    requires Configured(d.cfg) && Reader(d, v, blks, b, tape, n) && n <= Limit(d.cfg, d.st.maxBlocks) && n + m <= |v|
    requires m == 0 || n == Limit(d.cfg, d.st.maxBlocks)
    ensures Outcome(d, Read(d, m), v, blks, b, tape, n, n + m)
  {
    if m > 0 { EndedRead(d, m, v, blks, b, tape, n); }
    hide Reader, Limit, ReadOne, Ended;
  }

  lemma ReaderConfigured(d: Dev, v: seq<Byte>, blks: seq<nat>, b: nat, tape: seq<seq<Byte>>, n: nat)
    requires Reader(d, v, blks, b, tape, n)
    ensures Configured(d.cfg)
  {}

  lemma EndedRead(d: Dev, m: nat, v: seq<Byte>, blks: seq<nat>, b: nat, tape: seq<seq<Byte>>, n: nat)
    requires Reader(d, v, blks, b, tape, n) && n == Limit(d.cfg, d.st.maxBlocks)
    ensures Read(d, m).1 == [] && Ended(Read(d, m).0) && Read(d, m).0.st.maxBlocks == d.st.maxBlocks
  {
    ReaderConfigured(d, v, blks, b, tape, n);
    LimitReached(d.cfg, d.st, v, blks, b, tape, n, d.counts.used);
    EndedSteps(d, m);
  }

  // ----- Any split of writes and reads

  function Concat(ws: seq<seq<Byte>>): seq<Byte> { if ws == [] then [] else ws[0] + Concat(ws[1..]) }

  function Total(ns: seq<nat>): nat { if ns == [] then 0 else ns[0] + Total(ns[1..]) }

  /** One yaffs2_checkpt_wr after the other, as long as each writes all it is given. */
  function WriteEach(d: Dev, ws: seq<seq<Byte>>): (r: (Dev, bool))
    requires d.cfg.bytes > HDR && d.cfg.cpb > 0
    ensures r.0.cfg == d.cfg
    decreases |ws|
  {
    if ws == [] then (d, true) else
    var (d1, n, ok) := Write(d, ws[0]);
    if ok then WriteEach(d1, ws[1..]) else (d1, false)
  }

  /** One yaffs2_checkpt_rd after the other. */
  function ReadEach(d: Dev, ns: seq<nat>): (r: (Dev, seq<Byte>))
    requires d.cfg.bytes > HDR && d.cfg.cpb > 0
    ensures r.0.cfg == d.cfg
    decreases |ns|
  {
    if ns == [] then (d, []) else
    var (d1, out) := Read(d, ns[0]);
    var (d2, rest) := ReadEach(d1, ns[1..]);
    (d2, out + rest)
  }

  lemma WriteEachUnfold(d: Dev, ws: seq<seq<Byte>>)
    requires Configured(d.cfg)
    ensures d.cfg.bytes > HDR && d.cfg.cpb > 0
    ensures ws == [] ==> WriteEach(d, ws) == (d, true)
    ensures ws != [] && WriteEach(d, ws).1 ==> Write(d, ws[0]).2 && WriteEach(d, ws) == WriteEach(Write(d, ws[0]).0, ws[1..])
  {
    hide Write;
  }

  lemma {:induction false} WriteEachSteps(d: Dev, ws: seq<seq<Byte>>, w: seq<Byte>)
    requires Configured(d.cfg) && Wrote(d, w) && WriteEach(d, ws).1
    ensures Wrote(WriteEach(d, ws).0, w + Concat(ws))
    decreases |ws|
  {
    ConcatUnfold(ws, w);
    hide *;
    WriteEachUnfold(d, ws);
    if ws != [] {
      WriteSteps(d, ws[0], w);
      WriteEachSteps(Write(d, ws[0]).0, ws[1..], w + ws[0]);
    }
  }

  lemma ConcatUnfold(ws: seq<seq<Byte>>, w: seq<Byte>)
    ensures w + Concat(ws) == if ws == [] then w else (w + ws[0]) + Concat(ws[1..])
  {}

  lemma ReadEachUnfold(d: Dev, ns: seq<nat>)
    requires Configured(d.cfg)
    ensures d.cfg.bytes > HDR && d.cfg.cpb > 0
    ensures ns == [] ==> ReadEach(d, ns) == (d, [])
    ensures ns != [] ==> var e := ReadEach(Read(d, ns[0]).0, ns[1..]); ReadEach(d, ns) == (e.0, Read(d, ns[0]).1 + e.1)
  {
    hide Read;
  }

  lemma {:induction false} EndedEach(d: Dev, ns: seq<nat>)
    requires Configured(d.cfg) && Ended(d)
    ensures ReadEach(d, ns).1 == [] && Ended(ReadEach(d, ns).0)
    ensures ReadEach(d, ns).0.st.maxBlocks == d.st.maxBlocks
    decreases |ns|
  {
    hide *;
    ReadEachUnfold(d, ns);
    if ns != [] {
      EndedSteps(d, ns[0]);
      EndedEach(Read(d, ns[0]).0, ns[1..]);
    }
  }

  lemma {:induction false} ReadEachSteps(d: Dev, ns: seq<nat>, v: seq<Byte>, blks: seq<nat>, b: nat, tape: seq<seq<Byte>>, n: nat)
    returns (b2: nat)
    requires Configured(d.cfg) && Reader(d, v, blks, b, tape, n) && n <= Limit(d.cfg, d.st.maxBlocks) && n + Total(ns) <= |v|
    ensures Outcome(d, ReadEach(d, ns), v, blks, b2, tape, n, n + Total(ns))
    decreases |ns|, 1
  {
    b2 := b;
    TotalUnfold(ns);
    hide *;
    ReadEachUnfold(d, ns);
    if ns == [] {
      NoRead(d, v, blks, b, tape, n);
    } else {
      var n1 := n + ns[0];
      var b1 := ReadSteps(d, ns[0], v, blks, b, tape, n);
      b2 := ReadRest(d, Read(d, ns[0]), ns[1..], v, blks, b1, tape, n, n1);
    }
  }

  lemma TotalUnfold(ns: seq<nat>)
    ensures Total(ns) == if ns == [] then 0 else ns[0] + Total(ns[1..])
  {}

  lemma ReadRest(d: Dev, r: (Dev, seq<Byte>), ns: seq<nat>, v: seq<Byte>, blks: seq<nat>, b1: nat, tape: seq<seq<Byte>>, n: nat, n1: nat)
    returns (b2: nat)
    requires Configured(d.cfg) && Outcome(d, r, v, blks, b1, tape, n, n1) && Configured(r.0.cfg) && n1 + Total(ns) <= |v|
    ensures var e := ReadEach(r.0, ns); Outcome(d, (e.0, r.1 + e.1), v, blks, b2, tape, n, n1 + Total(ns))
    decreases |ns|, 2
  {
    b2 := b1;
    hide *;
    SameLimit(d, r, v, blks, b1, tape, n, n1);
    if n1 <= Limit(d.cfg, d.st.maxBlocks) {
      b2 := ReadEachSteps(r.0, ns, v, blks, b1, tape, n1);
    } else {
      EndedEach(r.0, ns);
    }
    Chained(d, r.0, r.1, ReadEach(r.0, ns), v, blks, b1, b2, tape, n, n1, n1 + Total(ns));
  }

  lemma NoRead(d: Dev, v: seq<Byte>, blks: seq<nat>, b: nat, tape: seq<seq<Byte>>, n: nat)
    requires Configured(d.cfg) && Reader(d, v, blks, b, tape, n) && n <= Limit(d.cfg, d.st.maxBlocks) && n <= |v|
    ensures Outcome(d, (d, []), v, blks, b, tape, n, n)
  {}

  lemma SameLimit(d: Dev, r: (Dev, seq<Byte>), v: seq<Byte>, blks: seq<nat>, b: nat, tape: seq<seq<Byte>>, n: nat, n2: nat)
    requires Configured(d.cfg) && Outcome(d, r, v, blks, b, tape, n, n2)
    ensures r.0.cfg == d.cfg && r.0.st.maxBlocks == d.st.maxBlocks && Configured(r.0.cfg)
    ensures d.cfg.bytes > HDR
    ensures if n2 <= Limit(d.cfg, d.st.maxBlocks) then Reader(r.0, v, blks, b, tape, n2) else Ended(r.0)
  {}

  lemma Chained(d: Dev, d1: Dev, out: seq<Byte>, r: (Dev, seq<Byte>), v: seq<Byte>, blks: seq<nat>, b1: nat, b2: nat,
                tape: seq<seq<Byte>>, n: nat, n1: nat, n2: nat)
    requires Configured(d.cfg) && Outcome(d, (d1, out), v, blks, b1, tape, n, n1) && n1 <= n2 <= |v|
    requires if n1 <= Limit(d.cfg, d.st.maxBlocks) then Outcome(d1, r, v, blks, b2, tape, n1, n2)
             else r.1 == [] && Ended(r.0) && r.0.cfg == d.cfg && r.0.st.maxBlocks == d.st.maxBlocks
    ensures Outcome(d, (r.0, out + r.1), v, blks, b2, tape, n, n2)
  {
    hide Reader, Ended, Limit;
    var limit := Limit(d.cfg, d.st.maxBlocks);
    if n1 <= limit {
      assert v[n..n1] + v[n1..Least(n2, limit)] == v[n..Least(n2, limit)];
    }
  }

  // ----- The round trip

  /** Chunk numbers are 32-bit integers. */
  predicate Addressable(c: Config) { (c.last + 1) * c.cpb <= WRAP }

  lemma {:induction false} BlocksFit(c: Config, blks: seq<nat>)
    requires Rising(c, blks)
    ensures blks != [] ==> |blks| - 1 <= blks[|blks| - 1] <= c.last
  {
    if blks != [] { BlocksFit(c, blks[..|blks| - 1]); }
  }

  lemma Scaled(a: nat, b: nat, k: nat)
    requires a <= b
    ensures a * k <= b * k
  {}

  lemma TapeFits(c: Config, f: Flash, blks: seq<nat>, tape: seq<seq<Byte>>)
    requires Tape(c, f, blks, tape) && |tape| <= At(c, |blks|, 0) && Addressable(c)
    ensures |tape| <= WRAP
  {
    hide Laid, Alone, Rising;
    BlocksFit(c, blks);
    Scaled(|blks|, c.last + 1, c.cpb);
  }

  /** A session opened for reading stands at the start of the stored stream. */
  lemma OpenedReader(d: Dev, v: seq<Byte>, blks: seq<nat>, tape: seq<seq<Byte>>)
    requires Configured(d.cfg) && Stored(d.cfg, d.flash, v, blks, tape)
    ensures Reader(OpenRead(d), v, blks, 0, tape, 0)
  {
    assert blks[..0] == [] && v[..0] == [];
    hide Stored, Off;
  }

  lemma StoredReads(e: Dev, v: seq<Byte>, blks: seq<nat>, tape: seq<seq<Byte>>, ns: seq<nat>) returns (b: nat)
    requires Configured(e.cfg) && Stored(e.cfg, e.flash, v, blks, tape) && Total(ns) <= |v|
    ensures OpenRead(e).cfg == e.cfg && Outcome(OpenRead(e), ReadEach(OpenRead(e), ns), v, blks, b, tape, 0, Total(ns))
  {
    OpenedReader(e, v, blks, tape);
    hide Reader, Stored, ReadEach, Total, Outcome;
    b := ReadEachSteps(OpenRead(e), ns, v, blks, 0, tape, 0);
  }

  lemma OutcomeMeans(d: Dev, r: (Dev, seq<Byte>), v: seq<Byte>, w: seq<Byte>, blks: seq<nat>, b: nat, tape: seq<seq<Byte>>, n: nat)
    requires Configured(d.cfg) && Outcome(d, r, v, blks, b, tape, 0, n) && n <= |w| <= |v| && v[..n] == w[..n]
    ensures r.1 == w[..Least(n, Limit(d.cfg, d.st.maxBlocks))]
    ensures n <= Limit(d.cfg, d.st.maxBlocks) ==> Summed(r.0.st, w[..n])
  {
    var k := Least(n, Limit(d.cfg, d.st.maxBlocks));
    assert v[..n][..k] == v[..k] && w[..n][..k] == w[..k];
    hide Stored, Limit, Sum, XorAll, Cursor;
  }

  lemma WroteSums(d: Dev, w: seq<Byte>)
    requires Wrote(d, w)
    ensures Summed(d.st, w)
  {}

  /** A closed session leaves its stream, filled up with zeros, on the flash. */
  lemma ClosedStored(d: Dev, w: seq<Byte>) returns (blks: seq<nat>, tape: seq<seq<Byte>>, pad: nat)
    requires Configured(d.cfg) && Wrote(d, w) && Flush(d).1 && Addressable(d.cfg)
    ensures Close(d).cfg == d.cfg && Stored(d.cfg, Close(d).flash, w + Zeros(pad), blks, tape)
    ensures |blks| == Close(d).counts.used
  {
    var blks0, tape0 :| Writer(d, w, blks0, tape0);
    hide Writer, Close, Flush, Tape, Carries, Off, At, Addressable;
    blks, tape, pad := CloseTape(d, w, blks0, tape0);
    TapeFits(d.cfg, Close(d).flash, blks, tape);
  }

  lemma AllAllowed(c: Config, f: Flash, v: seq<Byte>, blks: seq<nat>, tape: seq<seq<Byte>>, max: nat)
    requires Configured(c) && Stored(c, f, v, blks, tape) && |blks| <= max
    ensures |v| <= Limit(c, max)
  {
    hide Tape, Carries;
    Scaled(|blks|, max, c.cpb);
    OffOrder(c, |tape|, At(c, max, 0));
  }

  lemma StoredRead(e: Dev, w: seq<Byte>, pad: nat, blks: seq<nat>, tape: seq<seq<Byte>>, ns: seq<nat>)
    requires Configured(e.cfg) && Stored(e.cfg, e.flash, w + Zeros(pad), blks, tape) && Total(ns) <= |w|
    ensures var r := ReadEach(OpenRead(e), ns);
      && r.1 == w[..Least(Total(ns), Limit(e.cfg, OpenRead(e).st.maxBlocks))]
      && (Total(ns) <= Limit(e.cfg, OpenRead(e).st.maxBlocks) ==> Summed(r.0.st, w[..Total(ns)]))
    ensures |blks| <= OpenRead(e).st.maxBlocks ==> Total(ns) <= Limit(e.cfg, OpenRead(e).st.maxBlocks)
  {
    if |blks| <= OpenRead(e).st.maxBlocks { AllAllowed(e.cfg, e.flash, w + Zeros(pad), blks, tape, OpenRead(e).st.maxBlocks); }
    var v := w + Zeros(pad);
    assert v[..Total(ns)] == w[..Total(ns)];
    hide Stored, Limit, ReadEach, Total, Summed, Zeros;
    var b := StoredReads(e, v, blks, tape, ns);
    OutcomeMeans(OpenRead(e), ReadEach(OpenRead(e), ns), v, w, blks, b, tape, Total(ns));
  }

  /** What is written in any pieces between opening and closing is read back in any pieces, up to the
      blocks a reader may take, by any later session on the same flash; the running sums agree. */
  lemma WrittenIsRead(d: Dev, bad: set<nat>, ws: seq<seq<Byte>>, e: Dev, ns: seq<nat>)
    requires Configured(d.cfg) && Addressable(d.cfg) && TagsOk(d.cfg, d.flash)
    requires OpenWrite(d, bad).1
    requires WriteEach(OpenWrite(d, bad).0, ws).1 && Flush(WriteEach(OpenWrite(d, bad).0, ws).0).1
    requires e.cfg == d.cfg && e.flash == Close(WriteEach(OpenWrite(d, bad).0, ws).0).flash
    requires Total(ns) <= |Concat(ws)|
    ensures var (r, w) := (ReadEach(OpenRead(e), ns), Concat(ws));
      && r.1 == w[..Least(Total(ns), Limit(d.cfg, OpenRead(e).st.maxBlocks))]
      && (Total(ns) <= Limit(d.cfg, OpenRead(e).st.maxBlocks) ==> Summed(r.0.st, w[..Total(ns)]))
      && Summed(WriteEach(OpenWrite(d, bad).0, ws).0.st, w)
    ensures Close(WriteEach(OpenWrite(d, bad).0, ws).0).counts.used <= OpenRead(e).st.maxBlocks ==>
      Total(ns) <= Limit(d.cfg, OpenRead(e).st.maxBlocks)
  {
    var d1 := OpenWrite(d, bad).0;
    var d2 := WriteEach(d1, ws).0;
    var w, total := Concat(ws), Total(ns);
    OpenedWriter(d, bad);
    assert Wrote(d1, []);
    assert [] + w == w;
    hide *;
    WriteEachSteps(d1, ws, []);
    WroteSums(d2, w);
    var blks, tape, pad := ClosedStored(d2, w);
    StoredRead(e, w, pad, blks, tape, ns);
  }
}
