/** The block counters of checkpointing: n_erased_blocks is the number of EMPTY blocks whenever no
    session is open, and n_free_chunks moves with it. */
module CheckptAccounting {
  import opened Words
  import opened CheckptModel

  /** The EMPTY blocks among the `n` blocks from `lo` on. */
  function Empties(f: map<nat, BlockState>, lo: nat, n: nat): nat
  {
    if n == 0 then 0
    else Empties(f, lo, n - 1) + if lo + n - 1 in f && f[lo + n - 1] == Empty then 1 else 0
  }

  function EmptyBlocks(d: Dev): nat { Empties(d.flash.state, d.cfg.first, Blocks(d.cfg)) }

  function IsEmpty(f: map<nat, BlockState>, i: nat): int { if i in f && f[i] == Empty then 1 else 0 }

  /** Changing one block of the range changes the number by that block alone. */
  lemma {:induction false} OneChanged(f: map<nat, BlockState>, lo: nat, n: nat, k: nat, s: BlockState)
    ensures Empties(f[k := s], lo, n) ==
      Empties(f, lo, n) + if lo <= k < lo + n then (if s == Empty then 1 else 0) - IsEmpty(f, k) else 0
  {
    if n > 0 { OneChanged(f, lo, n - 1, k, s); }
  }

  /** How far the counters are from the blocks: `owed` blocks are taken but not yet subtracted. */
  predicate Exact(d: Dev, owed: int, base: int)
  {
    && d.counts.erased == EmptyBlocks(d) + owed
    && d.counts.free == base + d.counts.erased * d.cfg.cpb
  }

  lemma EraseBlockExact(d: Dev, i: nat, bad: set<nat>, owed: int, base: int)
    requires d.cfg.cpb > 0 && Exact(d, owed, base) && d.cfg.first <= i < d.cfg.first + Blocks(d.cfg)
    ensures Exact(EraseBlock(d, i, bad), owed, base) && EraseBlock(d, i, bad).counts.used == d.counts.used
    ensures EraseBlock(d, i, bad).cfg == d.cfg && EraseBlock(d, i, bad).st == d.st
  {
    OneChanged(d.flash.state, d.cfg.first, Blocks(d.cfg), i, Dead);
    OneChanged(d.flash.state, d.cfg.first, Blocks(d.cfg), i, Empty);
    hide Empties, Wiped;
    assert (d.counts.erased + 1) * d.cfg.cpb == d.counts.erased * d.cfg.cpb + d.cfg.cpb;
  }

  lemma {:induction false} EraseUpToExact(d: Dev, n: nat, bad: set<nat>, owed: int, base: int)
    requires d.cfg.cpb > 0 && Exact(d, owed, base) && n <= Blocks(d.cfg)
    ensures Exact(EraseUpTo(d, n, bad), owed, base) && EraseUpTo(d, n, bad).st == d.st
  {
    hide Exact, EraseBlock;
    if n > 0 {
      EraseUpToExact(d, n - 1, bad, owed, base);
      EraseBlockExact(EraseUpTo(d, n - 1, bad), d.cfg.first + n - 1, bad, owed, base);
    }
  }

  /** Erasing the checkpoint keeps the counters exact, whichever erasures fail. */
  lemma EraseExact(d: Dev, bad: set<nat>, base: int)
    requires d.cfg.cpb > 0 && Exact(d, 0, base)
    ensures Exact(Erase(d, bad), 0, base) && Erase(d, bad).counts.used == 0
    ensures Erase(d, bad).st == d.st && Erase(d, bad).cfg == d.cfg
  {
    hide EraseUpTo;
    EraseUpToExact(d, Blocks(d.cfg), bad, 0, base);
  }

  // ----- Writing

  /** An open write session: the blocks taken are still counted as erased. */
  predicate Writing(d: Dev, base: int)
  {
    Configured(d.cfg) && d.st.writing && Exact(d, d.counts.used, base) && Partial(d.st) && d.st.next >= -1
    && (d.st.next >= 0 ==> d.st.next >= d.cfg.first)
  }

  /** A block in hand has been written to. */
  predicate Partial(st: Stream) { st.block >= 0 ==> st.chunk > 0 }

  lemma MarkExact(d: Dev, base: int)
    requires d.cfg.cpb > 0 && Exact(d, d.counts.used, base) && d.st.block >= 0
    requires d.st.chunk == 0 ==> d.cfg.first <= d.st.block <= d.cfg.last && StateOf(d.flash, d.st.block) == Empty
    ensures Exact(MarkBlock(d), MarkBlock(d).counts.used, base)
  {
    OneChanged(d.flash.state, d.cfg.first, Blocks(d.cfg), d.st.block, Checkpoint);
    hide Empties;
  }

  /** A flush keeps the session exact, whether or not it finds a block. */
  lemma FlushExact(d: Dev, base: int)
    requires Writing(d, base)
    ensures Writing(Flush(d).0, base) && Flush(d).0.cfg == d.cfg
  {
    var d1 := if d.st.block < 0 then d.(st := FindErased(d).(chunk := 0)) else d;
    assert Exact(d1, d1.counts.used, base);
    if d1.st.block >= 0 {
      MarkExact(d1, base);
      var d2 := MarkBlock(d1);
      hide Empties, Header, Zeros;
      assert Exact(WritePage(d2), d2.counts.used, base);
    }
    hide Empties, Header, Zeros;
  }

  lemma {:induction false} WriteExact(d: Dev, data: seq<Byte>, base: int)
    requires Writing(d, base)
    ensures Writing(Write(d, data).0, base)
    decreases |data|
  {
    if data != [] {
      var d1 := d.(st := PutByte(d.st, data[0]));
      assert Writing(d1, base);
      if d1.st.offs >= d.cfg.bytes { FlushExact(d1, base); }
      hide Writing, Flush;
      WriteExact(WriteByte(d, data[0]).0, data[1..], base);
    }
  }

  /** No session open. */
  predicate Idle(d: Dev, base: int) { Configured(d.cfg) && Exact(d, 0, base) }

  lemma SubtractUsed(d: Dev, base: int)
    requires Configured(d.cfg) && Exact(d, d.counts.used, base)
    ensures Idle(d.(counts := d.counts.(erased := d.counts.erased - d.counts.used, free := d.counts.free - d.counts.used * d.cfg.cpb)), base)
  {
    hide Empties;
    assert (d.counts.erased - d.counts.used) * d.cfg.cpb == d.counts.erased * d.cfg.cpb - d.counts.used * d.cfg.cpb;
  }

  /** Closing a write session settles the counters, also when the last flush finds no block. */
  lemma CloseExact(d: Dev, base: int)
    requires Writing(d, base)
    ensures Idle(Close(d), base)
  {
    FlushExact(d, base);
    hide Flush, Exact;
    SubtractUsed(d, base);
    SubtractUsed(Flush(d).0, base);
  }

  lemma OpenExact(d: Dev, bad: set<nat>, base: int)
    requires Idle(d, base)
    ensures OpenWrite(d, bad).1 ==> Writing(OpenWrite(d, bad).0, base)
    ensures !OpenWrite(d, bad).1 ==> Idle(OpenWrite(d, bad).0, base)
  {
    var d0 := d.(st := d.st.(writing := true));
    var d1 := d0.(st := Fresh(d.cfg, Opened(d0)));
    hide Erase, Header, Zeros, Empties;
    EraseExact(d1, bad, base);
  }

  /** The blocks of the last session are off the count, and its last block is not taken a second time,
      unless that is right. */
  predicate Settles(d: Dev)
  {
    d.counts.used == 0 && (d.st.offs == 4 || Partial(d.st) || (d.cfg.first <= d.st.block <= d.cfg.last && StateOf(d.flash, d.st.block) == Empty))
  }

  /** The flush of a closing that follows a failed opening, when a block is at hand but not begun. */
  lemma FailedFlush(d: Dev)
    requires Configured(d.cfg) && !SpaceOk(d)
    ensures var e := Flush(d).0;
      if Partial(d.st) then e.counts == d.counts && e.flash.state == d.flash.state
      else e.counts == d.counts.(used := d.counts.used + 1) && e.flash.state == d.flash.state[d.st.block := Checkpoint]
  {
    hide Header, Zeros, FirstEmpty;
  }

  /** Closing after an opening that failed for lack of space subtracts the blocks of the last session
      once more: the counters stay exact if and only if there are none, and the flush takes no block or
      one that is EMPTY. */
  lemma CloseAfterFailedOpen(d: Dev, bad: set<nat>, base: int)
    requires Idle(d, base) && !OpenWrite(d, bad).1
    ensures Exact(Close(OpenWrite(d, bad).0), 0, base) <==> Settles(d)
  {
    CloseFailed(OpenWrite(d, bad).0, base);
    hide Empties, Header, Zeros, Exact, Close;
  }

  lemma CloseFailed(d: Dev, base: int)
    requires Idle(d, base) && d.st.writing && !SpaceOk(d)
    ensures Exact(Close(d), 0, base) <==> Settles(d)
  {
    if d.st.offs == 4 { CloseUnflushed(d, base); } else { CloseFlushed(d, base); }
    hide Exact, Close, Idle, SpaceOk;
  }

  lemma CloseUnflushed(d: Dev, base: int)
    requires Idle(d, base) && d.st.writing && d.st.offs == 4
    ensures Exact(Close(d), 0, base) <==> d.counts.used == 0
  {
    hide Empties;
    assert (d.counts.erased - d.counts.used) * d.cfg.cpb == d.counts.erased * d.cfg.cpb - d.counts.used * d.cfg.cpb;
  }

  lemma CloseFlushed(d: Dev, base: int)
    requires Idle(d, base) && d.st.writing && !SpaceOk(d) && d.st.offs != 4
    ensures Exact(Close(d), 0, base) <==> Settles(d)
  {
    hide Empties, Flush, Close, SpaceOk;
    FailedFlush(d);
    if !Partial(d.st) { OneChanged(d.flash.state, d.cfg.first, Blocks(d.cfg), d.st.block, Checkpoint); }
    CloseCounts(d);
    Scaled(d.counts.erased, Flush(d).0.counts.used, d.cfg.cpb);
  }

  lemma Scaled(e: int, u: int, c: int)
    ensures (e - u) * c == e * c - u * c
  {}

  lemma CloseCounts(d: Dev)
    requires Configured(d.cfg) && d.st.writing && d.st.offs != 4
    ensures var f := Flush(d).0;
      Close(d).flash == f.flash && Close(d).cfg == d.cfg &&
      Close(d).counts == f.counts.(erased := f.counts.erased - f.counts.used, free := f.counts.free - f.counts.used * d.cfg.cpb)
  {
    hide Flush;
  }

  // ----- Restoring

  /** Every found block is still EMPTY in the books, and none was found twice. */
  predicate AllEmpty(c: Config, f: Flash, found: seq<nat>)
  {
    && (forall i :: 0 <= i < |found| ==> c.first <= found[i] <= c.last && StateOf(f, found[i]) == Empty)
    && (forall i, j :: 0 <= i < j < |found| ==> found[i] != found[j])
  }

  lemma {:induction false} AdoptStates(c: Config, f: Flash, found: seq<nat>, i: nat)
    ensures StateOf(Adopt(c, f, found), i) ==
      if i in found && c.first <= i <= c.last && StateOf(f, i) == Empty then Checkpoint else StateOf(f, i)
  {
    if found != [] {
      var init, k := found[..|found| - 1], found[|found| - 1];
      AdoptStates(c, f, init, i);
      assert found == init + [k];
    }
  }

  /** The blocks that join the checkpoint are as many as were found exactly when all were EMPTY. */
  lemma {:induction false} AdoptCount(c: Config, f: Flash, found: seq<nat>)
    ensures var n := Empties(f.state, c.first, Blocks(c)) - Empties(Adopt(c, f, found).state, c.first, Blocks(c));
      0 <= n <= |found| && (n == |found| <==> AllEmpty(c, f, found))
  {
    if found != [] {
      var init, k := found[..|found| - 1], found[|found| - 1];
      AdoptCount(c, f, init);
      AdoptStates(c, f, init, k);
      assert found == init + [k];
      var f1 := Adopt(c, f, init);
      OneChanged(f1.state, c.first, Blocks(c), k, Checkpoint);
      hide Empties;
      AllEmptyLast(c, f, init, k);
    }
  }

  lemma AllEmptyLast(c: Config, f: Flash, init: seq<nat>, k: nat)
    ensures AllEmpty(c, f, init + [k]) <==>
      AllEmpty(c, f, init) && k !in init && c.first <= k <= c.last && StateOf(f, k) == Empty
  {
    var found := init + [k];
    assert forall i :: 0 <= i < |init| ==> found[i] == init[i];
    assert found[|init|] == k;
  }

  /** A read session only counts the blocks it finds. */
  predicate Reading(d: Dev, base: int)
  {
    Configured(d.cfg) && !d.st.writing && Exact(d, 0, base) && d.counts.used == |d.st.found|
  }

  lemma {:induction false} ReadExact(d: Dev, n: nat, base: int)
    requires Reading(d, base)
    ensures Reading(Read(d, n).0, base) && Read(d, n).0.flash == d.flash
    decreases n
  {
    if n > 0 {
      ReadOneExact(d, base);
      hide ReadOne, Reading;
      if ReadOne(d).1.Got? { ReadExact(ReadOne(d).0, n - 1, base); }
    }
  }

  lemma ReadOneExact(d: Dev, base: int)
    requires Reading(d, base)
    ensures Reading(ReadOne(d).0, base) && ReadOne(d).0.flash == d.flash
  {
    hide Empties, HeaderOk, Header, Xor;
  }

  /** Closing a read session keeps the counters exact if and only if every block that was found was
      still counted as EMPTY. */
  lemma CloseReadExact(d: Dev, base: int)
    requires Reading(d, base)
    ensures Exact(Close(d), 0, base) <==> AllEmpty(d.cfg, d.flash, d.st.found)
  {
    AdoptCount(d.cfg, d.flash, d.st.found);
    hide Empties, AllEmpty;
    assert (d.counts.erased - d.counts.used) * d.cfg.cpb == d.counts.erased * d.cfg.cpb - d.counts.used * d.cfg.cpb;
  }

  // ----- Runs

  datatype Phase = Closed | Open | OpenToRead | Failed

  datatype Op = OpenOp(bad: set<nat>) | WriteOp(data: seq<Byte>) | OpenReadOp | ReadOp(n: nat) | CloseOp | InvalidateOp(bad: set<nat>)

  predicate InSession(phase: Phase) { phase == Open || phase == OpenToRead }

  /** Sessions are opened and the checkpoint is invalidated only with no session open; a read session is
      closed when all blocks that it found were still EMPTY in the books, and a failed opening is
      followed by a closing only when that settles the counters. */
  predicate Legal(d: Dev, phase: Phase, op: Op)
  {
    match op
    case OpenOp(_) => !InSession(phase)
    case OpenReadOp => !InSession(phase)
    case WriteOp(_) => phase == Open
    case ReadOp(_) => phase == OpenToRead
    case CloseOp =>
      && (phase == OpenToRead ==> AllEmpty(d.cfg, d.flash, d.st.found))
      && (phase == Failed ==> Settles(d)) && phase != Closed
    case InvalidateOp(_) => !InSession(phase)
  }

  function Step(d: Dev, phase: Phase, op: Op): (r: (Dev, Phase))
    requires d.cfg.bytes > HDR && d.cfg.cpb > 0
    ensures r.0.cfg == d.cfg
  {
    match op
    case OpenOp(bad) => var (d1, ok) := OpenWrite(d, bad); (d1, if ok then Open else Failed)
    case OpenReadOp => (OpenRead(d), OpenToRead)
    case WriteOp(data) => (Write(d, data).0, phase)
    case ReadOp(n) => (Read(d, n).0, phase)
    case CloseOp => (Close(d), Closed)
    case InvalidateOp(bad) => (Erase(d, bad), Closed)
  }

  /** EMPTY plus the blocks of the open write session are the erased blocks. */
  predicate Accounted(d: Dev, phase: Phase, base: int)
  {
    if phase == Open then Writing(d, base)
    else if phase == OpenToRead then Reading(d, base)
    else Idle(d, base) && (phase == Failed ==> d.st.writing && !SpaceOk(d))
  }

  lemma OpenReadExact(d: Dev, base: int)
    requires Idle(d, base)
    ensures Reading(OpenRead(d), base)
  {
    hide Empties;
  }

  lemma StepExact(d: Dev, phase: Phase, op: Op, base: int)
    requires Accounted(d, phase, base) && Legal(d, phase, op) && d.cfg.bytes > HDR && d.cfg.cpb > 0
    ensures var (e, p) := Step(d, phase, op); Accounted(e, p, base)
  {
    hide Empties, Exact, Header, Zeros, Write, Read, Erase, Flush, Close, Writing, Reading, OpenRead, AllEmpty;
    match op
    case OpenOp(bad) => OpenExact(d, bad, base);
    case OpenReadOp => OpenReadExact(d, base);
    case WriteOp(data) => WriteExact(d, data, base);
    case ReadOp(n) => ReadExact(d, n, base);
    case CloseOp =>
      if phase == Open { CloseExact(d, base); }
      else if phase == OpenToRead { CloseReadExact(d, base); ReadingConfig(d, base); }
      else { CloseFailed(d, base); }
    case InvalidateOp(bad) => EraseExact(d, bad, base);
  }

  lemma ReadingConfig(d: Dev, base: int)
    requires Reading(d, base)
    ensures Configured(d.cfg)
  {}

  ghost predicate LegalRun(d: Dev, phase: Phase, ops: seq<Op>)
    requires d.cfg.bytes > HDR && d.cfg.cpb > 0
    decreases |ops|
  {
    ops == [] ||
    var (e, p) := Step(d, phase, ops[0]);
    Legal(d, phase, ops[0]) && LegalRun(e, p, ops[1..])
  }

  function Run(d: Dev, phase: Phase, ops: seq<Op>): (Dev, Phase)
    requires d.cfg.bytes > HDR && d.cfg.cpb > 0
    decreases |ops|
  {
    if ops == [] then (d, phase) else
    var (e, p) := Step(d, phase, ops[0]);
    Run(e, p, ops[1..])
  }

  /** Over every run the counters stay exact, including failed erasures and sessions out of space. */
  lemma {:induction false} RunExact(d: Dev, phase: Phase, ops: seq<Op>, base: int)
    requires Accounted(d, phase, base) && d.cfg.bytes > HDR && d.cfg.cpb > 0 && LegalRun(d, phase, ops)
    ensures var (e, p) := Run(d, phase, ops); Accounted(e, p, base)
    decreases |ops|
  {
    if ops != [] {
      StepExact(d, phase, ops[0], base);
      var (e, p) := Step(d, phase, ops[0]);
      hide Accounted, Step, Legal;
      RunExact(e, p, ops[1..], base);
    }
  }

  // ----- A closing that does not settle

  /** Two blocks, one in reserve. */
  function TwoBlocks(st: Stream): Dev
  {
    Dev(Config(20, 1, 0, 1, 1, false), Flash(map[], map[0 := Empty, 1 := Empty]), Counts(2, 2, 0), st)
  }

  lemma TwoBlocksOpen(st: Stream)
    ensures var (e, ok) := OpenWrite(TwoBlocks(st), {});
      && ok && e.cfg == TwoBlocks(st).cfg && e.flash == TwoBlocks(st).flash && e.counts == Counts(2, 2, 0)
      && e.st.block == -1 && e.st.next == 0 && e.st.offs == HDR && e.st.writing
  {
    var d := TwoBlocks(st);
    var d1 := d.(st := Fresh(d.cfg, Opened(d.(st := d.st.(writing := true)))));
    assert EraseUpTo(d1, 0, {}) == d1;
    assert EraseUpTo(d1, 1, {}) == d1;
    assert EraseUpTo(d1, 2, {}) == d1;
    hide Header, Zeros;
  }

  lemma TwoBlocksClosed(d: Dev, st: Stream)
    requires d.cfg == TwoBlocks(st).cfg && d.flash == TwoBlocks(st).flash && d.counts == Counts(2, 2, 0)
    requires d.st.block == -1 && d.st.next == 0 && d.st.offs == HDR && d.st.writing
    ensures Close(d).cfg == d.cfg && Close(d).counts == Counts(1, 1, 1)
  {
    hide Header, Zeros;
    assert FirstEmpty(d.cfg, d.flash, 0) == 0;
  }

  lemma NoSpaceLeft(d: Dev)
    requires d.cfg == Config(20, 1, 0, 1, 1, false) && d.counts == Counts(1, 1, 1)
    ensures OpenWrite(d, {}) == (d.(st := d.st.(writing := true)), false)
  {}

  /** A session that takes the only block it may, and an opening that then fails: the block is still on the
      count, and a closing now would subtract it once more. */
  lemma OutOfSpace(st: Stream)
    ensures var d, ops := TwoBlocks(st), [OpenOp({}), CloseOp, OpenOp({})];
      && Accounted(d, Closed, 0) && LegalRun(d, Closed, ops)
      && Run(d, Closed, ops).1 == Failed && Run(d, Closed, ops).0.counts.used == 1
      && !Exact(Close(Run(d, Closed, ops).0), 0, 0)
  {
    var d, ops := TwoBlocks(st), [OpenOp({}), CloseOp, OpenOp({})];
    var d1 := OpenWrite(d, {}).0;
    var d2 := Close(d1);
    var d3 := OpenWrite(d2, {}).0;
    TwoBlocksOpen(st);
    TwoBlocksClosed(d1, st);
    NoSpaceLeft(d2);
    TwoBlocksRun(st, d1, d2, d3);
    OpenExact(d, {}, 0);
    CloseExact(d1, 0);
    OpenExact(d2, {}, 0);
    CloseFailed(d3, 0);
    hide *;
    assert Settles(d3) ==> d3.counts.used == 0 by { UsedFirst(d3); }
  }

  lemma UsedFirst(d: Dev)
    ensures Settles(d) ==> d.counts.used == 0
  {}

  lemma TwoBlocksRun(st: Stream, d1: Dev, d2: Dev, d3: Dev)
    requires OpenWrite(TwoBlocks(st), {}) == (d1, true) && d1.cfg == TwoBlocks(st).cfg && Close(d1) == d2
    requires OpenWrite(d2, {}) == (d3, false)
    ensures var d, ops := TwoBlocks(st), [OpenOp({}), CloseOp, OpenOp({})];
      Accounted(d, Closed, 0) && LegalRun(d, Closed, ops) && Run(d, Closed, ops) == (d3, Failed)
  {
    var d, ops := TwoBlocks(st), [OpenOp({}), CloseOp, OpenOp({})];
    assert ops[1..] == [CloseOp, OpenOp({})] && ops[1..][1..] == [OpenOp({})] && ops[1..][1..][1..] == [];
    assert Empties(d.flash.state, 0, 1) == 1 && Empties(d.flash.state, 0, 2) == 2;
    hide OpenWrite, Close, Settles, AllEmpty;
    assert Run(d2, Closed, [OpenOp({})]) == (d3, Failed);
    assert Run(d1, Open, [CloseOp, OpenOp({})]) == (d3, Failed);
    assert LegalRun(d2, Closed, [OpenOp({})]) && LegalRun(d1, Open, [CloseOp, OpenOp({})]);
  }
}
