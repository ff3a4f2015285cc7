/** The YAFFS checkpoint stream: bytes are cut into chunks that carry their own sequence number
    and running sums, written to erased blocks and found again through a hint in each chunk. */
module CheckptModel {
  import opened Words

  const VERSION: nat := 8
  const HDR: nat := 16

  datatype BlockState = Empty | Checkpoint | Dead | InUse

  /** A written page: `ckpt` says that its sequence number is the checkpoint one, `obj` is the
      block to look at next, `id` the chunk's number counted from one. */
  datatype Page = Page(data: seq<Byte>, ckpt: bool, obj: nat, id: nat)

  /** Data bytes of a chunk, chunks of a block, first and last block, blocks kept in reserve. */
  datatype Config = Config(bytes: nat, cpb: nat, first: nat, last: nat, reserved: nat, swap: bool)

  datatype Flash = Flash(pages: map<nat, Page>, state: map<nat, BlockState>)

  /** n_erased_blocks, n_free_chunks, blocks_in_checkpt. */
  datatype Counts = Counts(erased: int, free: int, used: nat)

  /** The session: counters and buffer of the open stream. Blocks are -1 when there is none. */
  datatype Stream = Stream(seqNo: nat, sum: nat, xor: Byte, block: int, chunk: nat, next: int, offs: nat,
                           buffer: seq<Byte>, count: nat, writing: bool, maxBlocks: nat, found: seq<nat>)

  datatype Dev = Dev(cfg: Config, flash: Flash, counts: Counts, st: Stream)

  predicate Configured(c: Config) { c.bytes > HDR && c.cpb > 0 && c.first <= c.last && c.bytes < WRAP }

  /** The exclusive or of two bytes. */
  function Xor(a: Byte, b: Byte): Byte { ((a as bv8) ^ (b as bv8)) as int }

  function Header(seqNo: nat, sum: nat, xor: Byte, swap: bool): (h: seq<Byte>)
    ensures |h| == HDR
  {
    Put(VERSION, swap) + Put(seqNo, swap) + Put(sum, swap) + Put(xor, swap)
  }

  /** yaffs2_checkpt_check_chunk_hdr. */
  predicate HeaderOk(data: seq<Byte>, seqNo: nat, sum: nat, xor: Byte, swap: bool)
  {
    && |data| >= HDR
    && Get(data[0..4], swap) == VERSION && Get(data[4..8], swap) == seqNo
    && Get(data[8..12], swap) == sum && Get(data[12..16], swap) == xor
  }

  /** An empty buffer with the header of the next chunk. */
  function Fresh(c: Config, st: Stream): Stream
    requires c.bytes > HDR
  {
    st.(offs := HDR, buffer := Header(st.seqNo, st.sum, st.xor, c.swap) + Zeros(c.bytes - HDR))
  }

  // ----- Erasing

  function StateOf(f: Flash, i: nat): BlockState { if i in f.state then f.state[i] else InUse }

  function Wiped(pages: map<nat, Page>, i: nat, cpb: nat): map<nat, Page>
    requires cpb > 0
  {
    map c | c in pages && c / cpb != i :: pages[c]
  }

  /** One block of yaffs_checkpt_erase; erasing a block of `bad` fails. */
  function EraseBlock(d: Dev, i: nat, bad: set<nat>): Dev
    requires d.cfg.cpb > 0
  {
    if StateOf(d.flash, i) != Checkpoint then d
    else if i in bad then d.(flash := d.flash.(state := d.flash.state[i := Dead]))
    else d.(flash := Flash(Wiped(d.flash.pages, i, d.cfg.cpb), d.flash.state[i := Empty]),
            counts := d.counts.(erased := d.counts.erased + 1, free := d.counts.free + d.cfg.cpb))
  }

  function EraseUpTo(d: Dev, n: nat, bad: set<nat>): Dev
    requires d.cfg.cpb > 0
    ensures EraseUpTo(d, n, bad).cfg == d.cfg
  {
    if n == 0 then d else EraseBlock(EraseUpTo(d, n - 1, bad), d.cfg.first + n - 1, bad)
  }

  function Blocks(c: Config): nat { if c.first <= c.last then c.last - c.first + 1 else 0 }

  function Erase(d: Dev, bad: set<nat>): (r: Dev)
    requires d.cfg.cpb > 0
    ensures r.cfg == d.cfg
  {
    var d1 := EraseUpTo(d, Blocks(d.cfg), bad);
    d1.(counts := d1.counts.(used := 0))
  }

  // ----- Finding blocks

  /** The first block from `i` on that is empty, or one past the last. */
  function FirstEmpty(c: Config, f: Flash, i: nat): (j: nat)
    ensures j <= c.last ==> i <= j && StateOf(f, j) == Empty
    ensures forall k :: i <= k < j && k <= c.last ==> StateOf(f, k) != Empty
    decreases c.last + 1 - i
  {
    if i > c.last then c.last + 1 else if StateOf(f, i) == Empty then i else FirstEmpty(c, f, i + 1)
  }

  function FindErased(d: Dev): Stream
  {
    var st := d.st;
    if st.next >= 0 && st.next <= d.cfg.last && d.counts.erased - d.cfg.reserved > 0 then
      var i := FirstEmpty(d.cfg, d.flash, st.next);
      if i <= d.cfg.last then st.(next := i + 1, block := i) else st.(next := -1, block := -1)
    else st.(next := -1, block := -1)
  }

  /** A block whose first page carries the checkpoint tag and which is not dead. */
  predicate Tagged(c: Config, f: Flash, i: nat)
  {
    i * c.cpb in f.pages && f.pages[i * c.cpb].ckpt && StateOf(f, i) != Dead
  }

  function FirstTagged(c: Config, f: Flash, i: nat): (j: nat)
    ensures j <= c.last ==> i <= j && Tagged(c, f, j)
    ensures forall k :: i <= k < j && k <= c.last ==> !Tagged(c, f, k)
    decreases c.last + 1 - i
  {
    if i > c.last then c.last + 1 else if Tagged(c, f, i) then i else FirstTagged(c, f, i + 1)
  }

  function FindBlock(d: Dev): (r: Dev)
    ensures r.cfg == d.cfg
  {
    var st := d.st;
    var none := d.(st := st.(next := -1, block := -1));
    if !(d.counts.used < st.maxBlocks && st.next >= 0) then none else
    var i := FirstTagged(d.cfg, d.flash, st.next);
    if i > d.cfg.last then none else
    d.(st := st.(next := d.flash.pages[i * d.cfg.cpb].obj, block := i, found := st.found + [i]),
       counts := d.counts.(used := d.counts.used + 1))
  }

  // ----- Sessions

  function Opened(d: Dev): Stream
    requires d.cfg.bytes > HDR
  {
    d.st.(seqNo := 0, count := 0, sum := 0, xor := 0, block := -1, chunk := 0, next := d.cfg.first)
  }

  predicate SpaceOk(d: Dev) { d.counts.erased - d.cfg.reserved > 0 }

  /** Opening for writing; without space nothing but the mode changes and the call fails. */
  function OpenWrite(d: Dev, bad: set<nat>): (r: (Dev, bool))
    requires d.cfg.bytes > HDR && d.cfg.cpb > 0
    ensures r.0.cfg == d.cfg
  {
    var d0 := d.(st := d.st.(writing := true));
    if !SpaceOk(d) then (d0, false)
    else (Erase(d0.(st := Fresh(d.cfg, Opened(d0))), bad), true)
  }

  function OpenRead(d: Dev): Dev
    requires d.cfg.bytes > HDR
  {
    d.(st := Opened(d).(writing := false, offs := d.cfg.bytes, found := [],
                        maxBlocks := (if d.cfg.first <= d.cfg.last then d.cfg.last - d.cfg.first else 0) / 16 + 2),
       counts := d.counts.(used := 0))
  }

  /** The first page of a block marks the block as part of the checkpoint. */
  function MarkBlock(d: Dev): Dev
    requires d.st.block >= 0
  {
    if d.st.chunk != 0 then d
    else d.(flash := d.flash.(state := d.flash.state[d.st.block := Checkpoint]), counts := d.counts.(used := d.counts.used + 1))
  }

  /** Writes the buffer to the current page and starts the next chunk. */
  function WritePage(d: Dev): Dev
    requires d.st.block >= 0 && d.cfg.bytes > HDR && d.cfg.cpb > 0
  {
    var page := Page(d.st.buffer, true, if d.st.next >= 0 then d.st.next else 0, d.st.seqNo + 1);
    var at := d.st.block * d.cfg.cpb + d.st.chunk;
    var st := d.st.(seqNo := d.st.seqNo + 1, chunk := d.st.chunk + 1);
    var st1 := if st.chunk >= d.cfg.cpb then st.(chunk := 0, block := -1) else st;
    d.(flash := d.flash.(pages := d.flash.pages[at := page]), st := Fresh(d.cfg, st1))
  }

  function Flush(d: Dev): (r: (Dev, bool))
    requires d.cfg.bytes > HDR && d.cfg.cpb > 0
    ensures r.0.cfg == d.cfg
  {
    var d1 := if d.st.block < 0 then d.(st := FindErased(d).(chunk := 0)) else d;
    if d1.st.block < 0 then (d1, false) else (WritePage(MarkBlock(d1)), true)
  }

  /** A byte goes into the sums and the buffer. */
  function PutByte(st: Stream, b: Byte): Stream
  {
    st.(buffer := if st.offs < |st.buffer| then st.buffer[st.offs := b] else st.buffer,
        sum := (st.sum + b) % WRAP, xor := Xor(st.xor, b), offs := st.offs + 1, count := st.count + 1)
  }

  function WriteByte(d: Dev, b: Byte): (r: (Dev, bool))
    requires d.cfg.bytes > HDR && d.cfg.cpb > 0
    ensures r.0.cfg == d.cfg
  {
    var d1 := d.(st := PutByte(d.st, b));
    if d1.st.offs >= d.cfg.bytes then Flush(d1) else (d1, true)
  }

  /** yaffs2_checkpt_wr: the bytes written; it stops after a flush that found no block. */
  function Write(d: Dev, data: seq<Byte>): (r: (Dev, nat, bool))
    requires d.cfg.bytes > HDR && d.cfg.cpb > 0
    ensures r.0.cfg == d.cfg
    decreases |data|
  {
    if data == [] then (d, 0, true) else
    var (d1, ok) := WriteByte(d, data[0]);
    if !ok then (d1, 1, false) else
    var (d2, n, ok2) := Write(d1, data[1..]);
    (d2, n + 1, ok2)
  }

  /** A block in hand, if there is one. */
  function Sought(d: Dev): (r: Dev)
    ensures r.cfg == d.cfg
  {
    if d.st.block < 0 then (var f := FindBlock(d); f.(st := f.st.(chunk := 0))) else d
  }

  /** Loads the next chunk into the buffer, or fails. */
  function Load(d: Dev): (r: (Dev, bool))
    requires d.cfg.bytes > HDR && d.cfg.cpb > 0
    ensures r.0.cfg == d.cfg
  {
    var d1 := Sought(d);
    if d1.st.block < 0 then (d1, false) else
    var at := d1.st.block * d.cfg.cpb + d1.st.chunk;
    if at !in d1.flash.pages then (d1, false) else
    var page := d1.flash.pages[at];
    var st := d1.st.(buffer := page.data);
    if page.id != st.seqNo + 1 || !page.ckpt then (d1.(st := st), false)
    else if !HeaderOk(page.data, st.seqNo, st.sum, st.xor, d.cfg.swap) then (d1.(st := st.(offs := 0)), false)
    else
      var st1 := st.(offs := HDR, seqNo := st.seqNo + 1, chunk := st.chunk + 1);
      (d1.(st := if st1.chunk >= d.cfg.cpb then st1.(block := -1) else st1), true)
  }

  /** The buffer with a byte left in it. */
  function Ready(d: Dev): (r: (Dev, bool))
    requires d.cfg.bytes > HDR && d.cfg.cpb > 0
    ensures r.0.cfg == d.cfg
  {
    if d.st.offs >= d.cfg.bytes then Load(d) else (d, true)
  }

  /** Taking a byte out of the buffer. */
  function Taken(st: Stream, b: Byte): Stream
  {
    st.(sum := (st.sum + b) % WRAP, xor := Xor(st.xor, b), offs := st.offs + 1, count := st.count + 1)
  }

  datatype ReadByte = Eof | Got(b: Byte)

  function ReadOne(d: Dev): (r: (Dev, ReadByte))
    requires d.cfg.bytes > HDR && d.cfg.cpb > 0
    ensures r.0.cfg == d.cfg
  {
    var (d1, ok) := Ready(d);
    if !ok || d1.st.offs >= |d1.st.buffer| then (d1, Eof) else
    var b := d1.st.buffer[d1.st.offs];
    (d1.(st := Taken(d1.st, b)), Got(b))
  }

  /** yaffs2_checkpt_rd for `n` bytes. */
  function Read(d: Dev, n: nat): (r: (Dev, seq<Byte>))
    requires d.cfg.bytes > HDR && d.cfg.cpb > 0
    ensures r.0.cfg == d.cfg
    decreases n
  {
    if n == 0 then (d, []) else
    var (d1, r) := ReadOne(d);
    match r
    case Eof => (d1, [])
    case Got(b) => var (d2, rest) := Read(d1, n - 1); (d2, [b] + rest)
  }

  /** The found blocks that are still counted as empty join the checkpoint. */
  function Adopt(c: Config, f: Flash, found: seq<nat>): Flash
  {
    if found == [] then f else
    var f1 := Adopt(c, f, found[..|found| - 1]);
    var i := found[|found| - 1];
    if c.first <= i <= c.last && StateOf(f1, i) == Empty then f1.(state := f1.state[i := Checkpoint]) else f1
  }

  /** yaffs_checkpt_close. The test against the size of a size never spares the last flush. */
  function Close(d: Dev): (r: Dev)
    requires d.cfg.bytes > HDR && d.cfg.cpb > 0
    ensures r.cfg == d.cfg
  {
    var d1 := if d.st.writing then (if d.st.offs != 4 then Flush(d).0 else d)
              else d.(flash := Adopt(d.cfg, d.flash, d.st.found));
    d1.(counts := d1.counts.(erased := d1.counts.erased - d1.counts.used, free := d1.counts.free - d1.counts.used * d.cfg.cpb))
  }
}
