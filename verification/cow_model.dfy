/** The MIPS virtual-memory state and its operations as functions: page tables whose
    entries are private or shared through a reference-counted slot table, demand-zero
    faults, copy-on-write faults, and a software-refilled TLB.
    A page-table word is abstracted here; module PteWords ties it to the 32-bit format. */
module CowModel {

  /** Frames of the 64 MB board memory, entries of a page table, slots of the shared table. */
  const PAGES: nat := 16384
  const TABLE: nat := 1024
  const SPACE: nat := 0x10_0000
  const SLOTS: nat := 512
  const PAGE_SIZE: nat := 4096

  /** User regions checked by the refill handler, as addresses. */
  const U_STACK_TOP: nat := 0x8000_0000
  const U_STACK_BOT: nat := 0x7000_0000
  const U_HEAP_START: nat := 0x1000_0000
  const U_INSTR_END: nat := 0x0100_0000
  const U_INSTR_START: nat := 0x0000_1000

  type Byte = bv8
  type Page = seq<Byte>

  /** Address-space id with a virtual page number, a page-directory index, or a page-pair number. */
  type Key = (nat, nat)

  function ZeroPage(): Page { seq(PAGE_SIZE, _ => 0 as Byte) }

  datatype Pte = Private(frame: nat) | Shared(slot: nat)

  datatype Slot = Slot(frame: nat, refs: int)

  datatype Half = Half(frame: nat, valid: bool, dirty: bool)

  datatype Entry = Entry(lo0: Half, lo1: Half)

  datatype Space = Space(brk: nat, mmap: nat, pgd: nat)

  /** `free` is the page map; `kernel` holds every page that is neither free, nor a page
      table, nor mapped by a process. `top` is current_sh_index. */
  datatype State = State(
    mem: map<nat, Page>,
    free: set<nat>,
    kernel: set<nat>,
    spaces: map<nat, Space>,
    tables: map<Key, nat>,
    ptes: map<Key, Pte>,
    slots: seq<Slot>,
    top: nat,
    slotPage: bool,
    tlb: map<Key, Entry>)

  datatype Failure = OutOfPages | OutOfSlots | Segv | NoTable | NoPte | NotShared | NoSpace

  datatype Outcome<+T> = Done(value: T) | Stuck(why: Failure) {
    predicate IsFailure() { Stuck? }
    function PropagateFailure<U>(): Outcome<U>
      requires Stuck?
    {
      Stuck(why)
    }
    function Extract(): T
      requires Done?
    {
      value
    }
  }

  /** The page pair that shares one TLB entry with `k`. */
  function Pair(k: Key): Key { (k.0, k.1 / 2) }

  function TableKey(k: Key): Key { (k.0, k.1 / TABLE) }

  /** The lowest free frame at or above `from`, or PAGES when there is none. */
  function FirstFree(free: set<nat>, from: nat): (f: nat)
    ensures f == PAGES || (from <= f < PAGES && f in free)
    ensures forall g :: from <= g < PAGES && g in free ==> f <= g
    decreases PAGES - from
  {
    if from >= PAGES then PAGES
    else if from in free then from
    else FirstFree(free, from + 1)
  }

  function GetPage(s: State): Outcome<(State, nat)>
  {
    var f := FirstFree(s.free, 0);
    if f == PAGES then Stuck(OutOfPages) else Done((s.(free := s.free - {f}), f))
  }

  function PutPage(s: State, f: nat): State { s.(free := s.free + {f}) }

  /** A page for the kernel's own use. */
  function GetKernelPage(s: State): Outcome<(State, nat)>
  {
    var (s1, f) :- GetPage(s);
    Done((s1.(kernel := s1.kernel + {f}), f))
  }

  // ----- The shared-page slots

  function NoSlots(): seq<Slot> { seq(SLOTS, _ => Slot(0, 0)) }

  /** The slot table is allocated, cleared, on first use. */
  function EnsureSlots(s: State): Outcome<State>
  {
    if s.slotPage then Done(s) else
    var (s1, _) :- GetKernelPage(s);
    Done(s1.(slotPage := true, top := 0, slots := NoSlots()))
  }

  function GetShPage(s: State): Outcome<(State, nat)>
  {
    var s1 :- EnsureSlots(s);
    if s1.top + 1 > 511 then Stuck(OutOfSlots) else Done((s1.(top := s1.top + 1), s.top))
  }

  function SetRefs(s: State, ix: nat, refs: int): State
    requires ix < |s.slots|
  {
    s.(slots := s.slots[ix := s.slots[ix].(refs := refs)])
  }

  function MkShared(s: State, frame: nat): Outcome<(State, nat)>
  {
    var (s1, ix) :- GetShPage(s);
    if ix < |s1.slots| then Done((s1.(slots := s1.slots[ix := Slot(frame, 1)]), ix)) else Stuck(OutOfSlots)
  }

  /** The highest slot count at most `top` with no unreferenced slot right below it. */
  function Retreat(slots: seq<Slot>, top: nat): (t: nat)
    requires top <= |slots|
    ensures t <= top
    ensures forall i :: t <= i < top ==> slots[i].refs == 0
  {
    if top > 0 && slots[top - 1].refs == 0 then Retreat(slots, top - 1) else top
  }

  function DelShared(s: State, ix: nat): State
    requires ix < |s.slots| && s.top <= |s.slots|
  {
    if s.slots[ix].refs != 0 then s else s.(top := Retreat(s.slots, s.top))
  }

  // ----- TLB

  function FrameOf(slots: seq<Slot>, p: Pte): nat
  {
    match p
    case Private(f) => f
    case Shared(ix) => if ix < |slots| then slots[ix].frame else 0
  }

  /** What the handlers load for one page: writable only when the entry is private. */
  function HalfOf(ptes: map<Key, Pte>, slots: seq<Slot>, k: Key): Half
  {
    if k !in ptes then Half(0, false, false)
    else Half(FrameOf(slots, ptes[k]), true, ptes[k].Private?)
  }

  function EntryOf(ptes: map<Key, Pte>, slots: seq<Slot>, pair: Key): Entry
  {
    Entry(HalfOf(ptes, slots, (pair.0, 2 * pair.1)), HalfOf(ptes, slots, (pair.0, 2 * pair.1 + 1)))
  }

  /** tlbp then tlbwi when the pair is present, else tlbwr, which may evict `victims`. */
  function Refill(s: State, k: Key, victims: set<Key>): State
  {
    var pair := Pair(k);
    var kept := if pair in s.tlb then s.tlb else s.tlb - victims;
    s.(tlb := kept[pair := EntryOf(s.ptes, s.slots, pair)])
  }

  function Flush(s: State, k: Key): State { s.(tlb := s.tlb - {Pair(k)}) }

  // ----- Faults

  function EnsureTable(s: State, t: Key): Outcome<State>
  {
    if t in s.tables then Done(s) else
    var (s1, f) :- GetPage(s);
    Done(s1.(tables := s1.tables[t := f]))
  }

  function DemandZero(s: State, k: Key): Outcome<State>
  {
    if k in s.ptes then Done(s) else
    var (s1, f) :- GetPage(s);
    Done(s1.(mem := s1.mem[f := ZeroPage()], ptes := s1.ptes[k := Private(f)]))
  }

  /** Common part of handle_tlb_miss, handle_TLBL and handle_TLBS. */
  function Fault(s: State, k: Key, victims: set<Key>): Outcome<State>
  {
    var s1 :- EnsureTable(s, TableKey(k));
    var s2 :- DemandZero(s1, k);
    Done(Refill(s2, k, victims))
  }

  predicate InRegion(sp: Space, addr: nat)
  {
    || U_STACK_BOT <= addr < U_STACK_TOP
    || U_HEAP_START <= addr < sp.brk
    || sp.mmap <= addr < U_HEAP_START
    || U_INSTR_START <= addr < U_INSTR_END
  }

  function TlbMiss(s: State, k: Key, off: nat, victims: set<Key>): Outcome<State>
  {
    if k.0 !in s.spaces then Stuck(NoSpace)
    else if !InRegion(s.spaces[k.0], k.1 * PAGE_SIZE + off) then Stuck(Segv)
    else Fault(s, k, victims)
  }

  /** The page behind a shared entry becomes private to `k`: taken over by the last user, else copied. */
  function Unshare(s: State, k: Key, ix: nat): Outcome<State>
    requires ix < |s.slots| && s.top <= |s.slots|
  {
    var frame := s.slots[ix].frame;
    var s1 := SetRefs(s, ix, s.slots[ix].refs - 1);
    if s1.slots[ix].refs < 1 then
      var s2 := DelShared(s1, ix);
      Done(s2.(ptes := s2.ptes[k := Private(frame)]))
    else
      var (s2, p) :- GetPage(s1);
      if frame !in s2.mem then Stuck(NoPte) else
      Done(s2.(mem := s2.mem[p := s2.mem[frame]], ptes := s2.ptes[k := Private(p)]))
  }

  /** handle_TLB1, a store to a page whose TLB half is valid and not writable. */
  function TlbModified(s: State, k: Key, victims: set<Key>): Outcome<State>
  {
    if TableKey(k) !in s.tables then Stuck(NoTable)
    else if k !in s.ptes then Stuck(NoPte)
    else match s.ptes[k]
      case Private(_) => Stuck(NotShared)
      case Shared(ix) =>
        if ix < |s.slots| && s.top <= |s.slots| then
          var s1 :- Unshare(s, k, ix);
          Done(Refill(s1, k, victims))
        else Stuck(NotShared)
  }

  // ----- Releasing

  function Dealloc(s: State, p: Pte): State
  {
    match p
    case Private(f) => PutPage(s, f)
    case Shared(ix) =>
      if !(ix < |s.slots| && s.top <= |s.slots|) then s else
      var frame := s.slots[ix].frame;
      var s1 := SetRefs(s, ix, s.slots[ix].refs - 1);
      if s1.slots[ix].refs < 1 then DelShared(PutPage(s1, frame), ix) else s1
  }

  function DropPte(s: State, k: Key): State
  {
    if k !in s.ptes then s else
    var s1 := Dealloc(s, s.ptes[k]);
    Flush(s1.(ptes := s1.ptes - {k}), k)
  }

  function Unmap(s: State, k: Key): State
  {
    if TableKey(k) in s.tables then DropPte(s, k) else s
  }

  function DropTable(s: State, t: Key): State
  {
    if t !in s.tables then s else PutPage(s, s.tables[t]).(tables := s.tables - {t})
  }

  /** free_asp_pages after `n` page-table entries in address order. */
  function FreeUpTo(s: State, a: nat, n: nat): State
  {
    if n == 0 then s else
    var s1 := DropPte(FreeUpTo(s, a, n - 1), (a, n - 1));
    if n % TABLE == 0 then DropTable(s1, (a, (n - 1) / TABLE)) else s1
  }

  function FreePages(s: State, a: nat): State { FreeUpTo(s, a, SPACE) }

  // ----- Fork

  function ShareOne(s: State, to: nat, from: nat, v: nat): Outcome<State>
  {
    if (from, v) !in s.ptes then Done(s) else
    match s.ptes[(from, v)]
    case Shared(ix) =>
      if ix < |s.slots| then
        var s1 := SetRefs(s, ix, s.slots[ix].refs + 1);
        Done(Flush(s1.(ptes := s1.ptes[(to, v) := Shared(ix)]), (to, v)))
      else Stuck(NotShared)
    case Private(f) =>
      var (s1, ix) :- MkShared(s, f);
      if ix < |s1.slots| then
        var s2 := SetRefs(s1, ix, s1.slots[ix].refs + 1);
        var s3 := s2.(ptes := s2.ptes[(to, v) := Shared(ix)][(from, v) := Shared(ix)]);
        Done(Flush(Flush(s3, (from, v)), (to, v)))
      else Stuck(NotShared)
  }

  /** share_process_pages after `n` page-table entries in address order. */
  function ShareUpTo(s: State, to: nat, from: nat, n: nat): Outcome<State>
  {
    if n == 0 then Done(s) else
    var s1 :- ShareUpTo(s, to, from, n - 1);
    var g := (n - 1) / TABLE;
    var s2 :- if (n - 1) % TABLE == 0 && (from, g) in s1.tables then EnsureTable(s1, (to, g)) else Done(s1);
    ShareOne(s2, to, from, n - 1)
  }

  /** create_user_context for a chosen unused address-space id. */
  function Create(s: State, a: nat, brk: nat): Outcome<State>
  {
    if a in s.spaces then Stuck(NoSpace) else
    var (s1, _) :- GetKernelPage(s);
    var (s2, pgd) :- GetKernelPage(s1);
    Done(s2.(spaces := s2.spaces[a := Space(brk, U_HEAP_START, pgd)]))
  }

  function Fork(s: State, to: nat, from: nat): Outcome<State>
  {
    if from !in s.spaces then Stuck(NoSpace) else
    var s1 :- Create(s, to, s.spaces[from].brk);
    ShareUpTo(s1, to, from, SPACE)
  }

  function Exit(s: State, a: nat): State
  {
    if a !in s.spaces then s else
    var s1 := FreePages(s, a);
    var pgd := s.spaces[a].pgd;
    PutPage(s1, pgd).(kernel := s1.kernel - {pgd}, spaces := s1.spaces - {a})
  }

  // ----- User accesses, one hardware attempt at a time

  function HalfAt(e: Entry, v: nat): Half { if v % 2 == 0 then e.lo0 else e.lo1 }

  /** A load either returns a byte through the TLB or runs the handler of the exception it raises. */
  function Load(s: State, k: Key, off: nat, victims: set<Key>): Outcome<(State, Observed)>
  {
    if Pair(k) !in s.tlb then
      var s1 :- TlbMiss(s, k, off, victims);
      Done((s1, Faulted))
    else
      var h := HalfAt(s.tlb[Pair(k)], k.1);
      if !h.valid then
        var s1 :- Fault(s, k, victims);
        Done((s1, Faulted))
      else if h.frame in s.mem && off < |s.mem[h.frame]| then Done((s, Byte(s.mem[h.frame][off])))
      else Stuck(NoPte)
  }

  function Store(s: State, k: Key, off: nat, b: Byte, victims: set<Key>): Outcome<(State, Observed)>
  {
    if Pair(k) !in s.tlb then
      var s1 :- TlbMiss(s, k, off, victims);
      Done((s1, Faulted))
    else
      var h := HalfAt(s.tlb[Pair(k)], k.1);
      if !h.valid then
        var s1 :- Fault(s, k, victims);
        Done((s1, Faulted))
      else if !h.dirty then
        var s1 :- TlbModified(s, k, victims);
        Done((s1, Faulted))
      else if h.frame in s.mem && off < |s.mem[h.frame]| then
        Done((s.(mem := s.mem[h.frame := s.mem[h.frame][off := b]]), Stored))
      else Stuck(NoPte)
  }

  datatype Observed = Nothing | Faulted | Stored | Byte(b: Byte)

  datatype Op =
    | OpCreate(a: nat, brk: nat)
    | OpFork(to: nat, from: nat)
    | OpLoad(k: Key, off: nat, victims: set<Key>)
    | OpStore(k: Key, off: nat, b: Byte, victims: set<Key>)
    | OpUnmap(k: Key)
    | OpFreePages(a: nat)
    | OpExit(a: nat)
    | OpEvict(victims: set<Key>)

  /** One atomic step of the machine. Accesses need a live space and an address below 2^32. */
  function Step(s: State, op: Op): Outcome<(State, Observed)>
  {
    match op
    case OpCreate(a, brk) => var s1 :- Create(s, a, brk); Done((s1, Nothing))
    case OpFork(to, from) => var s1 :- Fork(s, to, from); Done((s1, Nothing))
    case OpLoad(k, off, victims) =>
      if k.0 in s.spaces && k.1 < SPACE && off < PAGE_SIZE then Load(s, k, off, victims) else Stuck(NoSpace)
    case OpStore(k, off, b, victims) =>
      if k.0 in s.spaces && k.1 < SPACE && off < PAGE_SIZE then Store(s, k, off, b, victims) else Stuck(NoSpace)
    case OpUnmap(k) => Done((Unmap(s, k), Nothing))
    case OpFreePages(a) => Done((FreePages(s, a), Nothing))
    case OpExit(a) => Done((Exit(s, a), Nothing))
    case OpEvict(victims) => Done((s.(tlb := s.tlb - victims), Nothing))
  }
}
