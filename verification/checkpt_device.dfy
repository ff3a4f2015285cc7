/** The checkpoint code of the device, in place. */
module CheckptDevice {
  import opened Words
  import opened CheckptModel

  class Device {
    const cfg: Config
    var flash: Flash
    var counts: Counts
    var st: Stream

    constructor (cfg: Config, flash: Flash, counts: Counts, st: Stream)
      requires Configured(cfg)
      ensures Value() == Dev(cfg, flash, counts, st) && Valid()
    {
      this.cfg, this.flash, this.counts, this.st := cfg, flash, counts, st;
    }

    ghost function Value(): Dev
      reads this
    {
      Dev(cfg, flash, counts, st)
    }

    predicate Valid() { cfg.bytes > HDR && cfg.cpb > 0 && Configured(cfg) }

    /** yaffs_checkpt_erase. */
    method Erase(bad: set<nat>)
      requires Valid()
      modifies this`flash, this`counts
      ensures Value() == CheckptModel.Erase(old(Value()), bad)
    {
      var i: nat := cfg.first;
      while i <= cfg.last
        invariant cfg.first <= i <= cfg.last + 1
        invariant Value() == EraseUpTo(old(Value()), i - cfg.first, bad)
      {
        EraseOne(i, bad);
        i := i + 1;
      }
      counts := counts.(used := 0);
    }

    /** The body of the loop: a block in state CHECKPOINT is erased, or dies. */
    method EraseOne(i: nat, bad: set<nat>)
      requires Valid()
      modifies this`flash, this`counts
      ensures Value() == EraseBlock(old(Value()), i, bad)
    {
      if i in flash.state && flash.state[i] == Checkpoint {
        if i in bad {
          flash := flash.(state := flash.state[i := Dead]);
        } else {
          flash := Flash(map c | c in flash.pages && c / cfg.cpb != i :: flash.pages[c], flash.state[i := Empty]);
          counts := counts.(erased := counts.erased + 1, free := counts.free + cfg.cpb);
        }
      }
    }

    /** yaffs2_checkpt_find_erased_block. */
    method FindErasedBlock()
      modifies this`st
      ensures st == FindErased(old(Value()))
    {
      if st.next >= 0 && st.next <= cfg.last && counts.erased - cfg.reserved > 0 {
        var i: nat := st.next;
        while i <= cfg.last
          invariant i <= cfg.last + 1 && st == old(st)
          invariant FirstEmpty(cfg, flash, st.next) == FirstEmpty(cfg, flash, i)
        {
          if i in flash.state && flash.state[i] == Empty {
            st := st.(next := i + 1, block := i);
            return;
          }
          i := i + 1;
        }
      }
      st := st.(next := -1, block := -1);
    }

    /** yaffs2_checkpt_find_block. */
    method FindNextBlock()
      requires Valid()
      modifies this`st, this`counts
      ensures Value() == FindBlock(old(Value()))
    {
      if counts.used < st.maxBlocks && st.next >= 0 {
        var i: nat := st.next;
        while i <= cfg.last
          invariant i <= cfg.last + 1 || i == st.next
          invariant Value() == old(Value())
          invariant FirstTagged(cfg, flash, st.next) == FirstTagged(cfg, flash, i)
        {
          var at := i * cfg.cpb;
          if at in flash.pages && flash.pages[at].ckpt && !(i in flash.state && flash.state[i] == Dead) {
            st := st.(next := flash.pages[at].obj, block := i, found := st.found + [i]);
            counts := counts.(used := counts.used + 1);
            return;
          }
          i := i + 1;
        }
      }
      st := st.(next := -1, block := -1);
    }

    /** yaffs2_checkpt_init_chunk_hdr on a cleared buffer. */
    method InitChunk()
      requires Valid()
      modifies this`st
      ensures st == Fresh(cfg, old(st))
    {
      var hdr := Header(st.seqNo, st.sum, st.xor, cfg.swap);
      st := st.(offs := HDR, buffer := hdr + Zeros(cfg.bytes - HDR));
    }

    /** yaffs2_checkpt_open for writing. */
    method OpenForWriting(bad: set<nat>) returns (ok: bool)
      requires Valid()
      modifies this`st, this`flash, this`counts
      ensures (Value(), ok) == OpenWrite(old(Value()), bad)
    {
      st := st.(writing := true);
      if counts.erased - cfg.reserved <= 0 { return false; }
      st := st.(seqNo := 0, count := 0, sum := 0, xor := 0, block := -1, chunk := 0, next := cfg.first);
      InitChunk();
      hide CheckptModel.Erase, Fresh;
      Erase(bad);
      ok := true;
    }

    /** yaffs2_checkpt_open for reading. */
    method OpenForReading()
      requires Valid()
      modifies this`st, this`counts
      ensures Value() == OpenRead(old(Value()))
    {
      st := st.(writing := false, seqNo := 0, count := 0, sum := 0, xor := 0, block := -1, chunk := 0, next := cfg.first,
                offs := cfg.bytes, found := [],
                maxBlocks := (if cfg.first <= cfg.last then cfg.last - cfg.first else 0) / 16 + 2);
      counts := counts.(used := 0);
    }

    /** yaffs2_checkpt_flush_buffer. */
    method FlushBuffer() returns (ok: bool)
      requires Valid()
      modifies this`st, this`flash, this`counts
      ensures (Value(), ok) == Flush(old(Value()))
    {
      hide FindErased, Header, Fresh;
      if st.block < 0 {
        FindErasedBlock();
        st := st.(chunk := 0);
      }
      if st.block < 0 { return false; }
      ghost var d1 := Value();
      if st.chunk == 0 {
        flash := flash.(state := flash.state[st.block := Checkpoint]);
        counts := counts.(used := counts.used + 1);
      }
      assert Value() == MarkBlock(d1);
      WriteChunk();
      ok := true;
    }

    /** The page itself, and the next chunk. */
    method WriteChunk()
      requires Valid() && st.block >= 0
      modifies this`st, this`flash
      ensures Value() == WritePage(old(Value()))
    {
      hide Fresh;
      var page := Page(st.buffer, true, if st.next >= 0 then st.next else 0, st.seqNo + 1);
      flash := flash.(pages := flash.pages[st.block * cfg.cpb + st.chunk := page]);
      st := st.(seqNo := st.seqNo + 1, chunk := st.chunk + 1);
      if st.chunk >= cfg.cpb { st := st.(chunk := 0, block := -1); }
      InitChunk();
    }

    /** yaffs2_checkpt_wr. */
    method WriteBytes(data: seq<Byte>) returns (n: int, ghost ok: bool)
      requires Valid()
      modifies this`st, this`flash, this`counts
      ensures !old(st).writing ==> n == -1 && Value() == old(Value())
      ensures old(st).writing ==> (Value(), n, ok) == Write(old(Value()), data)
    {
      hide Flush, WriteByte, Write;
      ok := true;
      if !st.writing { return -1, false; }
      var i: nat := 0;
      var going := true;
      assert data[0..] == data;
      while i < |data| && going
        invariant i <= |data| && ok == going
        invariant going ==> var r := Write(Value(), data[i..]); (r.0, i + r.1, r.2) == Write(old(Value()), data)
        invariant !going ==> (Value(), i, false) == Write(old(Value()), data)
      {
        WriteNext(Value(), data, i);
        going := PutOne(data[i]);
        ok := going;
        i := i + 1;
      }
      if going { WriteNext(Value(), data, i); }
      n := i;
    }

    method PutOne(b: Byte) returns (ok: bool)
      requires Valid()
      modifies this`st, this`flash, this`counts
      ensures (Value(), ok) == WriteByte(old(Value()), b)
    {
      if st.offs < |st.buffer| { st := st.(buffer := st.buffer[st.offs := b]); }
      st := st.(sum := (st.sum + b) % WRAP, xor := Xor(st.xor, b), offs := st.offs + 1, count := st.count + 1);
      hide Flush, Xor;
      ok := true;
      if st.offs >= cfg.bytes { ok := FlushBuffer(); }
    }

    /** The part of yaffs2_checkpt_rd that brings in the next chunk. */
    method LoadChunk() returns (ok: bool)
      requires Valid()
      modifies this`st, this`counts
      ensures (Value(), ok) == Load(old(Value()))
    {
      hide FindBlock, HeaderOk;
      if st.block < 0 {
        FindNextBlock();
        st := st.(chunk := 0);
      }
      if st.block < 0 { return false; }
      ok := ReadChunk();
    }

    method ReadChunk() returns (ok: bool)
      requires Valid() && st.block >= 0
      modifies this`st
      ensures (Value(), ok) == Load(old(Value()))
    {
      hide HeaderOk;
      var at := st.block * cfg.cpb + st.chunk;
      if at !in flash.pages { return false; }
      var page := flash.pages[at];
      st := st.(buffer := page.data);
      if page.id != st.seqNo + 1 || !page.ckpt { return false; }
      if !HeaderOk(page.data, st.seqNo, st.sum, st.xor, cfg.swap) {
        st := st.(offs := 0);
        return false;
      }
      st := st.(offs := HDR, seqNo := st.seqNo + 1, chunk := st.chunk + 1);
      if st.chunk >= cfg.cpb { st := st.(block := -1); }
      ok := true;
    }

    method GetOne() returns (r: ReadByte)
      requires Valid()
      modifies this`st, this`counts
      ensures (Value(), r) == ReadOne(old(Value()))
    {
      hide Load, Xor;
      var ok := true;
      if st.offs >= cfg.bytes { ok := LoadChunk(); }
      if !ok || st.offs >= |st.buffer| { return Eof; }
      var b := st.buffer[st.offs];
      st := st.(sum := (st.sum + b) % WRAP, xor := Xor(st.xor, b), offs := st.offs + 1, count := st.count + 1);
      r := Got(b);
    }

    /** yaffs2_checkpt_rd; a session for writing is refused. */
    method ReadBytes(n: nat) returns (got: int, out: seq<Byte>)
      requires Valid()
      modifies this`st, this`counts
      ensures old(st).writing ==> got == -1 && out == [] && Value() == old(Value())
      ensures !old(st).writing ==> (Value(), out) == Read(old(Value()), n) && got == |out|
    {
      hide ReadOne, Read;
      out := [];
      if st.writing { return -1, []; }
      var i: nat := 0;
      assert [] + Read(Value(), n).1 == Read(Value(), n).1;
      while i < n
        invariant i <= n && |out| == i
        invariant var r := Read(Value(), n - i); (r.0, out + r.1) == Read(old(Value()), n)
      {
        ReadNext(Value(), n - i);
        var b := GetOne();
        if b.Eof? {
          assert out + [] == out;
          break;
        }
        ghost var r1 := Read(Value(), n - i - 1);
        assert out + ([b.b] + r1.1) == (out + [b.b]) + r1.1;
        out := out + [b.b];
        i := i + 1;
      }
      if i == n {
        ReadNext(Value(), 0);
        assert out + [] == out;
      }
      got := |out|;
    }

    /** yaffs_checkpt_close. */
    method CloseSession()
      requires Valid()
      modifies this`st, this`flash, this`counts
      ensures Value() == Close(old(Value()))
    {
      hide Flush;
      if st.writing {
        if st.offs != 4 { var ok := FlushBuffer(); }
      } else {
        AdoptBlocks();
      }
      counts := counts.(erased := counts.erased - counts.used, free := counts.free - counts.used * cfg.cpb);
    }

    method AdoptBlocks()
      modifies this`flash
      ensures flash == Adopt(cfg, old(flash), st.found)
    {
      var i := 0;
      while i < |st.found|
        invariant 0 <= i <= |st.found|
        invariant flash == Adopt(cfg, old(flash), st.found[..i])
      {
        var b := st.found[i];
        assert st.found[..i + 1][..i] == st.found[..i];
        if cfg.first <= b <= cfg.last && StateOf(flash, b) == Empty {
          flash := flash.(state := flash.state[b := Checkpoint]);
        }
        i := i + 1;
      }
      assert st.found[..i] == st.found;
    }
  }

  /** One byte of a write. */
  lemma WriteNext(d: Dev, data: seq<Byte>, i: nat)
    requires d.cfg.bytes > HDR && d.cfg.cpb > 0 && i <= |data|
    ensures i == |data| ==> Write(d, data[i..]) == (d, 0, true)
    ensures i < |data| ==>
      var (d1, ok) := WriteByte(d, data[i]);
      Write(d, data[i..]) == if !ok then (d1, 1, false) else var r := Write(d1, data[i + 1..]); (r.0, r.1 + 1, r.2)
  {
    hide WriteByte;
    if i < |data| { assert data[i..][0] == data[i] && data[i..][1..] == data[i + 1..]; }
  }

  /** One byte of a read. */
  lemma ReadNext(d: Dev, n: nat)
    requires d.cfg.bytes > HDR && d.cfg.cpb > 0
    ensures n == 0 ==> Read(d, n) == (d, [])
    ensures n > 0 ==>
      var (d1, r) := ReadOne(d);
      Read(d, n) == match r case Eof => (d1, []) case Got(b) => var e := Read(d1, n - 1); (e.0, [b] + e.1)
  {
    hide ReadOne;
  }
}
