/** Chunks on the flash: what the writer flushes, in order, is what the reader loads, wherever the
    empty blocks happened to lie. */
module CheckptTape {
  import opened Words
  import opened CheckptModel

  /** Chunk number `q` of the `b`-th block. */
  function At(c: Config, b: nat, q: nat): nat { b * c.cpb + q }

  lemma AtStep(c: Config, b: nat, q: nat)
    ensures At(c, b, q + 1) == At(c, b, q) + 1
    ensures q + 1 == c.cpb ==> At(c, b + 1, 0) == At(c, b, q) + 1
  {}

  lemma AtOrder(c: Config, b: nat, q: nat, b2: nat, q2: nat)
    requires q < c.cpb && q2 < c.cpb
    ensures At(c, b, q) < At(c, b2, q2) <==> b < b2 || (b == b2 && q < q2)
    ensures At(c, b, q) == At(c, b2, q2) <==> b == b2 && q == q2
  {
    if b < b2 { Less(c, b, q, b2, q2); }
    if b2 < b { Less(c, b2, q2, b, q); }
  }

  lemma Less(c: Config, b: nat, q: nat, b2: nat, q2: nat)
    requires q < c.cpb && b < b2
    ensures At(c, b, q) < At(c, b2, q2)
  {
    assert (b + 1) * c.cpb <= b2 * c.cpb;
  }

  /** The blocks of a checkpoint, in the order they were taken. */
  ghost predicate Rising(c: Config, blks: seq<nat>)
  {
    && (forall i :: 0 <= i < |blks| ==> c.first <= blks[i] <= c.last)
    && (forall i, j :: 0 <= i < j < |blks| ==> blks[i] < blks[j])
  }

  predicate Holds(c: Config, pages: map<nat, Page>, blk: nat, q: nat, id: nat, data: seq<Byte>)
  {
    At(c, blk, q) in pages && pages[At(c, blk, q)] == Page(data, true, blk + 1, id)
  }

  /** The chunks `tape` lie on the blocks `blks`. */
  ghost predicate Laid(c: Config, pages: map<nat, Page>, blks: seq<nat>, tape: seq<seq<Byte>>)
  {
    forall b: nat, q: nat :: b < |blks| && q < c.cpb && At(c, b, q) < |tape| ==>
      Holds(c, pages, blks[b], q, At(c, b, q) + 1, tape[At(c, b, q)])
  }

  /** No other block looks like a checkpoint, and these are alive. */
  ghost predicate Alone(c: Config, f: Flash, blks: seq<nat>)
  {
    && (forall i :: c.first <= i <= c.last && Tagged(c, f, i) ==> i in blks)
    && (forall i :: i in blks ==> StateOf(f, i) == Checkpoint)
  }

  function Hint(c: Config, blks: seq<nat>): nat { if blks == [] then c.first else blks[|blks| - 1] + 1 }

  /** The session has passed `n` chunks and taken the blocks `blks`. */
  ghost predicate Cursor(c: Config, st: Stream, blks: seq<nat>, n: nat)
  {
    && st.seqNo == n && st.next == Hint(c, blks)
    && (if st.block < 0 then st.block == -1 && n == At(c, |blks|, 0)
        else |blks| > 0 && st.block == blks[|blks| - 1] && 0 < st.chunk < c.cpb && n == At(c, |blks| - 1, st.chunk))
  }

  ghost predicate Tape(c: Config, f: Flash, blks: seq<nat>, tape: seq<seq<Byte>>)
  {
    && Configured(c)
    && Rising(c, blks)
    && Laid(c, f.pages, blks, tape)
    && Alone(c, f, blks)
    && (forall b: nat :: b < |blks| ==> At(c, b, 0) < |tape|)
  }

  // ----- Writing a chunk

  /** Adding a page keeps the pages already laid. */
  lemma LaidMore(c: Config, pages: map<nat, Page>, blks: seq<nat>, tape: seq<seq<Byte>>, q: nat, data: seq<Byte>, blk: nat, page: Page)
    requires c.cpb > 0 && Rising(c, blks) && |blks| > 0 && blk == blks[|blks| - 1] && q < c.cpb
    requires |tape| == At(c, |blks| - 1, q) && Laid(c, pages, blks, tape)
    requires page == Page(data, true, blk + 1, |tape| + 1)
    ensures Laid(c, pages[At(c, blk, q) := page], blks, tape + [data])
  {
    var pages2 := pages[At(c, blk, q) := page];
    hide At;
    forall b: nat, p: nat | b < |blks| && p < c.cpb && At(c, b, p) < |tape + [data]|
      ensures Holds(c, pages2, blks[b], p, At(c, b, p) + 1, (tape + [data])[At(c, b, p)])
    {
      AtOrder(c, b, p, |blks| - 1, q);
      AtOrder(c, blks[b], p, blk, q);
      if At(c, b, p) < |tape| {
        assert Holds(c, pages, blks[b], p, At(c, b, p) + 1, tape[At(c, b, p)]);
      }
    }
  }

  /** A block that was just taken holds none of the chunks. */
  lemma LaidNext(c: Config, pages: map<nat, Page>, blks: seq<nat>, tape: seq<seq<Byte>>, blk: nat)
    requires Laid(c, pages, blks, tape) && |tape| == At(c, |blks|, 0) && c.cpb > 0
    ensures Laid(c, pages, blks + [blk], tape)
  {
    hide At;
    forall b: nat, q: nat | b < |blks + [blk]| && q < c.cpb && At(c, b, q) < |tape|
      ensures Holds(c, pages, (blks + [blk])[b], q, At(c, b, q) + 1, tape[At(c, b, q)])
    {
      AtOrder(c, b, q, |blks|, 0);
    }
  }

  lemma AloneMore(c: Config, f: Flash, blks: seq<nat>, blk: nat, q: nat, page: Page)
    requires c.cpb > 0 && q < c.cpb && Alone(c, f, blks) && blk in blks
    ensures Alone(c, f.(pages := f.pages[At(c, blk, q) := page]), blks)
  {
    var f2 := f.(pages := f.pages[At(c, blk, q) := page]);
    forall i | c.first <= i <= c.last && Tagged(c, f2, i) ensures i in blks {
      AtOrder(c, i, 0, blk, q);
      assert At(c, i, 0) == i * c.cpb;
      if i != blk { assert Tagged(c, f, i); }
    }
  }

  lemma AloneNext(c: Config, f: Flash, blks: seq<nat>, blk: nat)
    requires Alone(c, f, blks)
    ensures Alone(c, f.(state := f.state[blk := Checkpoint]), blks + [blk])
  {
    var f2 := f.(state := f.state[blk := Checkpoint]);
    forall i | c.first <= i <= c.last && Tagged(c, f2, i) ensures i in blks + [blk] {
      if i != blk { assert Tagged(c, f, i); }
    }
  }

  /** The block found lies beyond all the blocks taken. */
  lemma RisingNext(c: Config, blks: seq<nat>, blk: nat)
    requires Rising(c, blks) && Hint(c, blks) <= blk <= c.last && c.first <= c.last
    ensures Rising(c, blks + [blk])
  {}

  /** The state after a block was taken for the next chunk, when one was needed. */
  function Seated(d: Dev): Dev
    requires d.cfg.bytes > HDR && d.cfg.cpb > 0
  {
    if d.st.block < 0 then d.(st := FindErased(d).(chunk := 0)) else d
  }

  /** Taking a block. */
  lemma Take(d: Dev, blks: seq<nat>, tape: seq<seq<Byte>>) returns (blks2: seq<nat>)
    requires Tape(d.cfg, d.flash, blks, tape) && Cursor(d.cfg, d.st, blks, |tape|) && d.counts.used == |blks|
    requires Seated(d).st.block >= 0
    ensures var e := MarkBlock(Seated(d));
      && e.cfg == d.cfg && e.counts.used == |blks2| && blks2 != [] && e.flash.pages == d.flash.pages
      && e.st == d.st.(block := e.st.block, chunk := e.st.chunk, next := e.st.next)
      && e.st.block == blks2[|blks2| - 1] && e.st.next == e.st.block + 1 && e.st.chunk < d.cfg.cpb
      && |tape| == At(d.cfg, |blks2| - 1, e.st.chunk)
      && Rising(d.cfg, blks2) && Laid(d.cfg, d.flash.pages, blks2, tape) && Alone(d.cfg, e.flash, blks2)
      && (forall b: nat :: b < |blks2| ==> At(d.cfg, b, 0) <= |tape|)
  {
    hide At, Laid, Alone, Rising, Tagged;
    if d.st.block < 0 {
      var blk := Seated(d).st.block;
      blks2 := blks + [blk];
      RisingNext(d.cfg, blks, blk);
      LaidNext(d.cfg, d.flash.pages, blks, tape, blk);
      AloneNext(d.cfg, d.flash, blks, blk);
    } else {
      blks2 := blks;
    }
  }

  /** Writing a page adds it to the tape. */
  lemma Lay(d: Dev, blks: seq<nat>, tape: seq<seq<Byte>>)
    requires Configured(d.cfg) && blks != [] && d.st.block == blks[|blks| - 1] && d.st.next == d.st.block + 1
    requires d.st.chunk < d.cfg.cpb && |tape| == At(d.cfg, |blks| - 1, d.st.chunk) && d.st.seqNo == |tape|
    requires Rising(d.cfg, blks) && Laid(d.cfg, d.flash.pages, blks, tape) && Alone(d.cfg, d.flash, blks)
    requires forall b: nat :: b < |blks| ==> At(d.cfg, b, 0) <= |tape|
    ensures Tape(d.cfg, WritePage(d).flash, blks, tape + [d.st.buffer])
    ensures Cursor(d.cfg, WritePage(d).st, blks, |tape| + 1)
  {
    hide At, Laid, Alone, Rising, Tagged, Header, Zeros;
    var page := Page(d.st.buffer, true, d.st.block + 1, |tape| + 1);
    LaidMore(d.cfg, d.flash.pages, blks, tape, d.st.chunk, d.st.buffer, d.st.block, page);
    AloneMore(d.cfg, d.flash, blks, d.st.block, d.st.chunk, page);
    AtStep(d.cfg, |blks| - 1, d.st.chunk);
    AtIs(d.cfg, d.st.block, d.st.chunk);
  }

  lemma AtIs(c: Config, i: nat, j: nat)
    ensures At(c, i, j) == i * c.cpb + j
  {}

  /** A flush that finds a block appends the buffer to the tape. */
  lemma FlushTape(d: Dev, blks: seq<nat>, tape: seq<seq<Byte>>) returns (blks2: seq<nat>)
    requires Tape(d.cfg, d.flash, blks, tape) && Cursor(d.cfg, d.st, blks, |tape|) && d.counts.used == |blks|
    requires Flush(d).1
    ensures Tape(d.cfg, Flush(d).0.flash, blks2, tape + [d.st.buffer])
    ensures Cursor(d.cfg, Flush(d).0.st, blks2, |tape| + 1) && Flush(d).0.counts.used == |blks2|
    ensures var st := Flush(d).0.st; st == Fresh(d.cfg, d.st.(seqNo := |tape| + 1, block := st.block, chunk := st.chunk, next := st.next))
  {
    blks2 := Take(d, blks, tape);
    Lay(MarkBlock(Seated(d)), blks2, tape);
    hide At, Laid, Alone, Rising, Tagged, Header, Zeros, Tape, Cursor, FindErased;
  }

  // ----- Reading a chunk

  /** The search from the hint ends at the next block of the checkpoint. */
  lemma FoundNext(d: Dev, blks: seq<nat>, b: nat, tape: seq<seq<Byte>>)
    requires Tape(d.cfg, d.flash, blks, tape) && b < |blks| && d.st.next == Hint(d.cfg, blks[..b])
    requires d.counts.used < d.st.maxBlocks
    ensures var e := FindBlock(d);
      e == d.(st := d.st.(next := blks[b] + 1, block := blks[b], found := d.st.found + [blks[b]]),
              counts := d.counts.(used := d.counts.used + 1))
  {
    assert At(d.cfg, b, 0) < |tape|;
    assert Holds(d.cfg, d.flash.pages, blks[b], 0, At(d.cfg, b, 0) + 1, tape[At(d.cfg, b, 0)]);
    assert At(d.cfg, blks[b], 0) == blks[b] * d.cfg.cpb;
    assert StateOf(d.flash, blks[b]) == Checkpoint by { assert blks[b] in blks; }
    assert Tagged(d.cfg, d.flash, blks[b]);
    var i := FirstTagged(d.cfg, d.flash, d.st.next);
    assert b > 0 ==> blks[b - 1] < blks[b];
    assert i < blks[b] ==> i in blks;
  }

  lemma Seek(d: Dev, blks: seq<nat>, b: nat, tape: seq<seq<Byte>>, n: nat) returns (b2: nat)
    requires Tape(d.cfg, d.flash, blks, tape) && b <= |blks| && Cursor(d.cfg, d.st, blks[..b], n) && d.counts.used == b
    requires n < |tape| <= At(d.cfg, |blks|, 0) && (d.st.block < 0 ==> b < d.st.maxBlocks)
    ensures b <= b2 <= |blks| && b2 > 0 && b2 <= (if d.st.block < 0 then d.st.maxBlocks else b)
    ensures var e := Sought(d);
      && e.cfg == d.cfg && e.flash == d.flash && e.counts.used == b2
      && e.st == d.st.(block := blks[b2 - 1], chunk := e.st.chunk, next := blks[b2 - 1] + 1, found := e.st.found)
      && e.st.found == d.st.found + blks[b..b2]
      && e.st.chunk < d.cfg.cpb && n == At(d.cfg, b2 - 1, e.st.chunk)
  {
    AtOrder(d.cfg, b, 0, |blks|, 0);
    hide At, Tape, FindBlock;
    if d.st.block < 0 {
      FoundNext(d, blks, b, tape);
      b2 := b + 1;
    } else {
      b2 := b;
    }
    FirstBlocks(blks, b);
  }

  lemma FirstBlocks(blks: seq<nat>, b: nat)
    requires b <= |blks|
    ensures |blks[..b]| == b && blks[b..b] == [] && (b < |blks| ==> blks[b..b + 1] == [blks[b]])
    ensures b > 0 ==> blks[..b][b - 1] == blks[b - 1]
  {}

  /** Loading a page that is the wanted one. */
  lemma LoadPage(d: Dev, data: seq<Byte>)
    requires Configured(d.cfg) && Sought(d).st.block >= 0 && Sought(d).st.seqNo == d.st.seqNo && Sought(d).cfg == d.cfg
    requires Holds(d.cfg, Sought(d).flash.pages, Sought(d).st.block, Sought(d).st.chunk, d.st.seqNo + 1, data)
    requires HeaderOk(data, d.st.seqNo, Sought(d).st.sum, Sought(d).st.xor, d.cfg.swap)
    ensures var e, q := Sought(d), Sought(d).st.chunk + 1;
      Load(d) == (e.(st := e.st.(buffer := data, offs := HDR, seqNo := d.st.seqNo + 1, chunk := q,
                                 block := if q >= d.cfg.cpb then -1 else e.st.block)), true)
  {
    hide At, Sought, HeaderOk, Header;
    AtIs(d.cfg, Sought(d).st.block, Sought(d).st.chunk);
  }

  /** The cursor moves past the chunk before `st.chunk`. */
  lemma Advance(c: Config, st: Stream, blks: seq<nat>, n: nat)
    requires c.cpb > 0 && blks != [] && st.seqNo == n + 1 && st.next == blks[|blks| - 1] + 1
    requires 1 <= st.chunk <= c.cpb && n == At(c, |blks| - 1, st.chunk - 1)
    requires st.block == if st.chunk >= c.cpb then -1 else blks[|blks| - 1]
    ensures Cursor(c, st, blks, n + 1)
  {
    AtStep(c, |blks| - 1, st.chunk - 1);
    hide At;
  }

  lemma OnTape(c: Config, f: Flash, blks: seq<nat>, tape: seq<seq<Byte>>, b: nat, q: nat, n: nat)
    requires Tape(c, f, blks, tape) && b < |blks| && q < c.cpb && n == At(c, b, q) && n < |tape|
    ensures Holds(c, f.pages, blks[b], q, n + 1, tape[n])
  {
    hide At;
  }

  /** A load takes the next chunk of the tape when its header fits the sums read so far. */
  lemma LoadTape(d: Dev, blks: seq<nat>, b: nat, tape: seq<seq<Byte>>, n: nat) returns (b2: nat)
    requires Tape(d.cfg, d.flash, blks, tape) && b <= |blks| && Cursor(d.cfg, d.st, blks[..b], n) && d.counts.used == b
    requires n < |tape| <= At(d.cfg, |blks|, 0) && (d.st.block < 0 ==> b < d.st.maxBlocks)
    requires HeaderOk(tape[n], n, d.st.sum, d.st.xor, d.cfg.swap)
    ensures Load(d).1 && b <= b2 <= |blks| && (b2 == b || b2 <= d.st.maxBlocks)
    ensures var e := Load(d).0;
      && e.flash == d.flash && e.counts.used == b2 && Cursor(d.cfg, e.st, blks[..b2], n + 1)
      && e.st.found == d.st.found + blks[b..b2]
      && e.st == d.st.(block := e.st.block, chunk := e.st.chunk, next := e.st.next, found := e.st.found,
                       seqNo := n + 1, buffer := tape[n], offs := HDR)
  {
    Numbered(d, blks, b, n);
    hide *;
    b2 := Seek(d, blks, b, tape, n);
    LoadSought(d, blks, b2, tape, n);
  }

  lemma Numbered(d: Dev, blks: seq<nat>, b: nat, n: nat)
    requires b <= |blks| && Cursor(d.cfg, d.st, blks[..b], n)
    ensures d.st.seqNo == n
  {}

  /** The load itself, once the block is known. */
  lemma LoadSought(d: Dev, blks: seq<nat>, b: nat, tape: seq<seq<Byte>>, n: nat)
    requires Tape(d.cfg, d.flash, blks, tape) && 0 < b <= |blks| && n < |tape| && d.st.seqNo == n
    requires Sought(d).cfg == d.cfg && Sought(d).flash == d.flash && Sought(d).st.seqNo == n
    requires Sought(d).st.block == blks[b - 1] && Sought(d).st.next == blks[b - 1] + 1 && Sought(d).st.chunk < d.cfg.cpb
    requires n == At(d.cfg, b - 1, Sought(d).st.chunk)
    requires HeaderOk(tape[n], n, Sought(d).st.sum, Sought(d).st.xor, d.cfg.swap)
    ensures Configured(d.cfg) && Load(d).1 && Cursor(d.cfg, Load(d).0.st, blks[..b], n + 1)
    ensures var e, q := Sought(d), Sought(d).st.chunk + 1;
      Load(d).0 == e.(st := e.st.(buffer := tape[n], offs := HDR, seqNo := n + 1, chunk := q,
                                  block := if q >= d.cfg.cpb then -1 else e.st.block))
  {
    hide Load, Sought, Tape, At, HeaderOk, Cursor, Header, FindBlock, Laid, Alone, Rising;
    TapeConfigured(d.cfg, d.flash, blks, tape);
    OnTape(d.cfg, d.flash, blks, tape, b - 1, Sought(d).st.chunk, n);
    LoadPage(d, tape[n]);
    assert blks[..b][b - 1] == blks[b - 1];
    Advance(d.cfg, Load(d).0.st, blks[..b], n);
  }

  lemma TapeConfigured(c: Config, f: Flash, blks: seq<nat>, tape: seq<seq<Byte>>)
    requires Tape(c, f, blks, tape)
    ensures Configured(c)
  {}

  /** With every allowed block used up, loading fails and goes on failing. */
  lemma LoadStops(d: Dev)
    requires Configured(d.cfg) && d.st.block < 0 && d.counts.used >= d.st.maxBlocks
    ensures !Load(d).1 && Load(d).0.st == d.st.(next := -1, block := -1, chunk := 0)
    ensures Load(d).0.counts == d.counts && Load(d).0.flash == d.flash
  {}
}
