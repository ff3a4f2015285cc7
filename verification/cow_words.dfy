/** The 32-bit form of page-table entries. The handlers see words: their tests of the flag bits choose
    the branches of CowModel, the words that they store are those of the entries there, and the words
    that they load into the TLB are the halves there. Flag values: P_VALID 2, P_DIRTY 4,
    P_CACHEABLE 0x18, P_SHARED 0x80000000, P_MAP 0x40000000, P_RMASK 0x3fffffff. */
module PteWords {
  import opened BitWords
  import M = CowModel
  import I = CowInvariant

  type Word = bv32

  // ----- Words as the handlers build them

  /** The word of a page that the fault handlers have taken, from its physical address. */
  function PageWord(paddr: Word): Word { ((paddr >> 12) << 6) | (0x18 | 4 | 2) }

  function Paddr(pfn: Word): Word { pfn << 12 }

  /** mk_shared_pte: what the slot keeps of a private word, and the word that names the slot. */
  function SlotWord(pte: Word): Word { pte & !0x3f }

  function SlotRef(ix: Word): Word { 0x8000_0000 | (ix << 6) }

  /** What fork writes into both tables. */
  function ReadOnly(spte: Word): Word { spte | (0x18 | 2) }

  /** What the last user's fault makes of the word got through the slot. */
  function Writable(w: Word): Word { w | (0x18 | 4 | 2) }

  function SlotIndex(pte: Word): Word { (pte & 0x7fff_ffff) >> 6 }

  function FrameNumber(pte: Word): Word { pte >> 6 }

  /** get_pte_from_shared. */
  function FromShared(slot: Word, pte: Word): Word { (slot | (pte & 0x3f)) & 0x3fff_ffff }

  function ForTlb(pte: Word): Word { pte & 0x3fff_ffff }

  predicate IsShared(w: Word) { w & 0x8000_0000 != 0 }

  predicate IsMap(w: Word) { w & 0x4000_0000 != 0 }

  predicate IsDirty(w: Word) { w & 4 != 0 }

  predicate IsValid(w: Word) { w & 2 != 0 }

  // ----- Encoding

  /** Entries of the machine: frame numbers of 20 bits, slots of one page. */
  predicate Fits(p: M.Pte)
  {
    match p
    case Private(f) => f < 0x10_0000
    case Shared(ix) => ix < M.SLOTS
  }

  function Encode(p: M.Pte): Word
  {
    match p
    case Private(f) => PageWord(Paddr(WordOf(f)))
    case Shared(ix) => ReadOnly(SlotRef(WordOf(ix)))
  }

  function Decode(w: Word): M.Pte
  {
    if IsShared(w) then M.Shared(Num(SlotIndex(w))) else M.Private(Num(FrameNumber(w)))
  }

  /** The word in the page table. */
  function WordAt(ptes: map<M.Key, M.Pte>, k: M.Key): Word { if k in ptes then Encode(ptes[k]) else 0 }

  /** The frame part of a slot. */
  function SlotWordOf(slots: seq<M.Slot>, ix: nat): Word
  {
    if ix < |slots| then SlotWord(PageWord(Paddr(WordOf(slots[ix].frame)))) else 0
  }

  function Six(f: Word): Word { f << 6 }

  function Rw(g: Word): Word { g | 0x1e }

  function Ro(g: Word): Word { g | 0x1a }

  lemma RawPage(f: Word)
    requires f < 0x10_0000
    ensures (((f << 12) >> 12) << 6) | (0x18 | 4 | 2) == (f << 6) | 0x1e
  {}

  lemma PageRaw(f: Word)
    ensures PageWord(Paddr(f)) == (((f << 12) >> 12) << 6) | (0x18 | 4 | 2) && Rw(Six(f)) == (f << 6) | 0x1e
  {}

  lemma PageBits(f: Word)
    requires f < 0x10_0000
    ensures PageWord(Paddr(f)) == Rw(Six(f))
  {
    hide *;
    PageRaw(f);
    RawPage(f);
  }

  /** A frame number leaves the flags and the two top bits free. */
  predicate Clear(g: Word) { g & 0xc000_003f == 0 }

  lemma RawClear(f: Word)
    requires f < 0x10_0000
    ensures (f << 6) & 0xc000_003f == 0
  {}

  lemma RawRw(f: Word)
    requires f < 0x10_0000
    ensures ((f << 6) | 0x1e) >> 6 == f
  {}

  lemma RawRo(f: Word)
    requires f < 0x10_0000
    ensures ((f << 6) | 0x1a) >> 6 == f
  {}

  lemma FrameRaw(f: Word)
    ensures FrameNumber(Rw(Six(f))) == ((f << 6) | 0x1e) >> 6
    ensures FrameNumber(Ro(Six(f))) == ((f << 6) | 0x1a) >> 6
    ensures Clear(Six(f)) == ((f << 6) & 0xc000_003f == 0)
  {}

  lemma FrameBits(f: Word)
    requires f < 0x10_0000
    ensures Clear(Six(f)) && FrameNumber(Rw(Six(f))) == f && FrameNumber(Ro(Six(f))) == f
  {
    hide *;
    FrameRaw(f);
    RawClear(f);
    RawRw(f);
    RawRo(f);
  }

  lemma RwTests(g: Word)
    requires Clear(g)
    ensures var w := Rw(g); w != 0 && !IsShared(w) && !IsMap(w) && IsDirty(w) && IsValid(w) && ForTlb(w) == w
  {}

  lemma RoTests(g: Word)
    requires Clear(g)
    ensures var w := Ro(g); IsValid(w) && !IsDirty(w) && Writable(w) == Rw(g)
  {}

  lemma PrivateBits(f: Word)
    requires f < 0x10_0000
    ensures var w := PageWord(Paddr(f));
      && w != 0 && !IsShared(w) && !IsMap(w) && IsDirty(w) && IsValid(w) && FrameNumber(w) == f && ForTlb(w) == w
  {
    hide *;
    PageBits(f);
    FrameBits(f);
    RwTests(Six(f));
  }

  lemma SharedBits(ix: Word)
    requires ix < 512
    ensures var w := ReadOnly(SlotRef(ix));
      && w != 0 && IsShared(w) && !IsDirty(w) && IsValid(w) && SlotIndex(w) == ix
      && SlotIndex(SlotRef(ix)) == ix && IsShared(SlotRef(ix)) && SlotRef(ix) != 0 && ReadOnly(w) == w
  {}

  /** The flags of a word that names a slot. */
  predicate SlotFlags(pte: Word) { pte & 0x3f == 0x1a }

  lemma RefFlags(ix: Word)
    ensures SlotFlags(ReadOnly(SlotRef(ix)))
  {}

  lemma Joined(g: Word, pte: Word)
    requires Clear(g) && SlotFlags(pte)
    ensures FromShared(SlotWord(Rw(g)), pte) == Ro(g)
  {}

  lemma SlotBits(f: Word, ix: Word)
    requires f < 0x10_0000
    ensures var w := FromShared(SlotWord(PageWord(Paddr(f))), ReadOnly(SlotRef(ix)));
      FrameNumber(w) == f && IsValid(w) && !IsDirty(w) && Writable(w) == PageWord(Paddr(f))
  {
    hide *;
    PageBits(f);
    FrameBits(f);
    RefFlags(ix);
    Joined(Six(f), ReadOnly(SlotRef(ix)));
    RoTests(Six(f));
  }

  lemma Shorter(w: Word)
    ensures Half(Half(Half(Half(High(High(w)))))) == 0 ==> w < 0x10_0000
    ensures Half(High(w)) == 0 ==> w < 512
  {}

  lemma SmallFrame(f: nat)
    requires f < 0x10_0000
    ensures WordOf(f) < 0x10_0000 && Num(WordOf(f)) == f
  {
    hide Num, Octet, Nibble, Half, High, WordOf;
    var w := WordOf(f);
    WordNum(f);
    Bytewise(w);
    Bytewise(High(w));
    FourBits(High(High(w)));
    Shorter(w);
    if Half(Half(Half(Half(High(High(w)))))) != 0 { NotZero(Half(Half(Half(Half(High(High(w))))))); }
  }

  lemma SmallSlot(ix: nat)
    requires ix < M.SLOTS
    ensures WordOf(ix) < 512 && Num(WordOf(ix)) == ix
  {
    hide Num, Octet, Nibble, Half, High, WordOf;
    var w := WordOf(ix);
    WordNum(ix);
    Bytewise(w);
    Unfold(High(w));
    Shorter(w);
    if Half(High(w)) != 0 { NotZero(Half(High(w))); }
  }

  /** An entry is known by its word, and an empty table entry is none of them. */
  lemma RoundTrip(p: M.Pte)
    requires Fits(p)
    ensures Encode(p) != 0 && Decode(Encode(p)) == p
    ensures IsShared(Encode(p)) <==> p.Shared?
    ensures IsDirty(Encode(p)) <==> p.Private?
    ensures IsValid(Encode(p)) && (p.Private? ==> !IsMap(Encode(p)) && ForTlb(Encode(p)) == Encode(p))
    ensures p.Shared? ==> ReadOnly(Encode(p)) == Encode(p)
  {
    hide Num, WordOf, PageWord, Paddr, ReadOnly, SlotRef, IsShared, IsMap, IsDirty, IsValid, SlotIndex, FrameNumber, ForTlb;
    match p
    case Private(f) =>
      SmallFrame(f);
      PrivateBits(WordOf(f));
    case Shared(ix) =>
      SmallSlot(ix);
      SharedBits(WordOf(ix));
  }

  /** The frame or the slot above six flag bits, of which 2 is valid and 4 dirty, and the top bit for a slot. */
  function Framed(f: Word): Word { (f << 6) | 0x1e }

  function Slotted(ix: Word): Word { 0x8000_0000 | (ix << 6) | 0x1a }

  /** The words themselves. */
  lemma WordLayout(p: M.Pte)
    requires Fits(p)
    ensures p.Private? ==> Encode(p) == Framed(WordOf(p.frame))
    ensures p.Shared? ==> Encode(p) == Slotted(WordOf(p.slot))
  {
    hide WordOf, PageWord, Paddr, Framed, Slotted, ReadOnly, SlotRef;
    match p
    case Private(f) =>
      SmallFrame(f);
      PrivateRaw(WordOf(f));
    case Shared(ix) => SlotRaw(WordOf(ix));
  }

  lemma PrivateRaw(f: Word)
    requires f < 0x10_0000
    ensures PageWord(Paddr(f)) == Framed(f)
  {
    PageRaw(f);
    RawPage(f);
    hide PageWord, Paddr, Rw, Six;
  }

  lemma SlotRaw(x: Word)
    ensures ReadOnly(SlotRef(x)) == Slotted(x)
  {}

  /** The word got through a slot: the frame of the slot, no permission to write; with the flags of the
      reclaiming fault it is the private word of that frame. */
  lemma ThroughSlot(slots: seq<M.Slot>, ix: nat)
    requires ix < |slots| && ix < M.SLOTS && slots[ix].frame < 0x10_0000
    ensures var w := FromShared(SlotWordOf(slots, ix), Encode(M.Shared(ix)));
      && Num(FrameNumber(w)) == slots[ix].frame && IsValid(w) && !IsDirty(w)
      && Writable(w) == Encode(M.Private(slots[ix].frame))
  {
    hide Num, WordOf, PageWord, Paddr, ReadOnly, SlotRef, IsValid, IsDirty, FromShared, SlotWord, FrameNumber, Writable;
    SmallFrame(slots[ix].frame);
    SmallSlot(ix);
    SlotBits(WordOf(slots[ix].frame), WordOf(ix));
  }

  // ----- What the TLB gets

  /** The word that the refill loads for one page. */
  function LoadedWord(ptes: map<M.Key, M.Pte>, slots: seq<M.Slot>, k: M.Key): Word
  {
    var pte := WordAt(ptes, k);
    if IsShared(pte) then FromShared(SlotWordOf(slots, Num(SlotIndex(pte))), pte) else ForTlb(pte)
  }

  function HalfOfWord(w: Word): M.Half
  {
    if IsValid(w) then M.Half(Num(FrameNumber(w)), true, IsDirty(w)) else M.Half(0, false, false)
  }

  /** Every entry and the slot that it names fit their words. */
  ghost predicate AllFit(ptes: map<M.Key, M.Pte>, slots: seq<M.Slot>)
  {
    && (forall k <- ptes :: Fits(ptes[k]) && (ptes[k].Shared? ==> ptes[k].slot < |slots|))
    && (forall k <- ptes :: M.FrameOf(slots, ptes[k]) < 0x10_0000)
  }

  lemma EmptyWord()
    ensures !IsShared(0) && !IsValid(ForTlb(0))
  {}

  /** What is loaded says what the page table says. */
  lemma LoadDecodes(ptes: map<M.Key, M.Pte>, slots: seq<M.Slot>, k: M.Key)
    requires AllFit(ptes, slots)
    ensures HalfOfWord(LoadedWord(ptes, slots, k)) == M.HalfOf(ptes, slots, k)
  {
    hide Num, Encode, IsShared, IsValid, IsDirty, FromShared, SlotWordOf, FrameNumber, SlotIndex, ForTlb;
    EmptyWord();
    if k in ptes {
      RoundTrip(ptes[k]);
      assert M.FrameOf(slots, ptes[k]) < 0x10_0000;
      if ptes[k].Shared? { ThroughSlot(slots, ptes[k].slot); }
    }
  }

  /** Reachable states fit. */
  lemma InvFits(s: M.State)
    requires I.Inv(s)
    ensures AllFit(s.ptes, s.slots)
  {
    forall k <- s.ptes ensures Fits(s.ptes[k]) && M.FrameOf(s.slots, s.ptes[k]) < 0x10_0000 {
      assert M.FrameOf(s.slots, s.ptes[k]) in I.UserFrames(s.ptes, s.slots);
    }
  }

  // ----- The write fault

  /** The branch that handle_TLB1 takes for the word it finds. */
  datatype Branch = NoEntry | WasDirty | OfSlot(ix: nat) | Unshared

  function Tlb1Branch(pte: Word): Branch
  {
    if pte == 0 then NoEntry
    else if IsDirty(pte) then WasDirty
    else if IsShared(pte) then OfSlot(Num(SlotIndex(pte)))
    else Unshared
  }

  /** The tests on the word choose the branch of the model. */
  lemma Tlb1Branches(s: M.State, k: M.Key, victims: set<M.Key>)
    requires I.Inv(s) && M.TableKey(k) in s.tables
    ensures match Tlb1Branch(WordAt(s.ptes, k))
      case NoEntry => k !in s.ptes && M.TlbModified(s, k, victims) == M.Stuck(M.NoPte)
      case WasDirty => k in s.ptes && s.ptes[k].Private? && M.TlbModified(s, k, victims) == M.Stuck(M.NotShared)
      case OfSlot(ix) => k in s.ptes && s.ptes[k] == M.Shared(ix) && ix < |s.slots| && s.top <= |s.slots|
      case Unshared => false
  {
    InvFits(s);
    hide I.Inv, Num, Encode, IsShared, IsValid, IsDirty, SlotIndex, M.Unshare, M.Refill;
    if k in s.ptes {
      RoundTrip(s.ptes[k]);
    }
    TopInside(s);
  }

  lemma TopInside(s: M.State)
    requires I.Inv(s)
    ensures s.top <= |s.slots|
  {}

  /** The word that handle_TLB1 stores: that of the slot with write permission for the last user, else
      that of the page at `paddr` which got the copy. */
  function Tlb1Store(slots: seq<M.Slot>, pte: Word, paddr: Word): Word
  {
    var ix := Num(SlotIndex(pte));
    if ix < |slots| && slots[ix].refs - 1 < 1 then Writable(FromShared(SlotWordOf(slots, ix), pte)) else PageWord(paddr)
  }

  lemma UnshareEntry(s: M.State, k: M.Key, ix: nat)
    requires ix < |s.slots| && s.top <= |s.slots| && M.Unshare(s, k, ix).Done?
    ensures M.Unshare(s, k, ix).value.ptes ==
      s.ptes[k := M.Private(if s.slots[ix].refs - 1 < 1 then s.slots[ix].frame else M.FirstFree(s.free, 0))]
  {
    hide M.FirstFree, M.Retreat;
  }

  lemma StoredWord(slots: seq<M.Slot>, ix: nat, paddr: Word)
    requires ix < |slots| && ix < M.SLOTS
    ensures Tlb1Store(slots, Encode(M.Shared(ix)), paddr) ==
      if slots[ix].refs - 1 < 1 then Writable(FromShared(SlotWordOf(slots, ix), Encode(M.Shared(ix)))) else PageWord(paddr)
  {
    RoundTrip(M.Shared(ix));
    hide Num, Encode, IsShared, IsDirty, IsValid, IsMap, SlotIndex, FrameNumber, Writable, FromShared, SlotWordOf, PageWord, ReadOnly, ForTlb;
  }

  /** It is the word of the entry that the model leaves. */
  lemma Tlb1Stores(s: M.State, k: M.Key, ix: nat)
    requires I.Inv(s) && k in s.ptes && s.ptes[k] == M.Shared(ix) && ix < |s.slots| && s.top <= |s.slots|
    requires M.Unshare(s, k, ix).Done?
    ensures var s1 := M.Unshare(s, k, ix).value; var paddr := Paddr(WordOf(M.FirstFree(s.free, 0)));
      && k in s1.ptes && s1.ptes[k].Private?
      && WordAt(s1.ptes, k) == Tlb1Store(s.slots, WordAt(s.ptes, k), paddr)
  {
    InvFits(s);
    FitsAt(s.ptes, s.slots, k);
    UnshareEntry(s, k, ix);
    hide *;
    StoredWord(s.slots, ix, Paddr(WordOf(M.FirstFree(s.free, 0))));
    ThroughSlot(s.slots, ix);
    EncodePrivate(M.FirstFree(s.free, 0));
    WordIs(s.ptes, k);
    WordIs(M.Unshare(s, k, ix).value.ptes, k);
  }

  lemma FitsAt(ptes: map<M.Key, M.Pte>, slots: seq<M.Slot>, k: M.Key)
    requires AllFit(ptes, slots) && k in ptes
    ensures Fits(ptes[k]) && M.FrameOf(slots, ptes[k]) < 0x10_0000
    ensures ptes[k].Shared? ==> ptes[k].slot < |slots| && ptes[k].slot < M.SLOTS && slots[ptes[k].slot].frame < 0x10_0000
  {
    assert M.FrameOf(slots, ptes[k]) < 0x10_0000;
  }

  lemma WordIs(ptes: map<M.Key, M.Pte>, k: M.Key)
    ensures WordAt(ptes, k) == if k in ptes then Encode(ptes[k]) else 0
  {}

  lemma EncodePrivate(f: nat)
    ensures Encode(M.Private(f)) == PageWord(Paddr(WordOf(f)))
  {}

  // ----- Releasing

  /** The frame that dealloc_pte_page works out from the word, and whether it goes through a slot. */
  function DeallocFrame(slots: seq<M.Slot>, pte: Word): Word
  {
    if IsShared(pte) then FrameNumber(FromShared(SlotWordOf(slots, Num(SlotIndex(pte))), pte))
    else if IsMap(pte) then FrameNumber(ForTlb(pte))
    else FrameNumber(pte)
  }

  /** The branch of the model, and its frame; the branch for mapped addresses is never taken. */
  lemma DeallocBranches(s: M.State, k: M.Key)
    requires I.Inv(s) && k in s.ptes
    ensures var w := WordAt(s.ptes, k);
      && w != 0
      && (IsShared(w) ==> s.ptes[k] == M.Shared(Num(SlotIndex(w))))
      && (!IsShared(w) ==> !IsMap(w) && s.ptes[k] == M.Private(Num(FrameNumber(w))))
      && Num(DeallocFrame(s.slots, w)) == M.FrameOf(s.slots, s.ptes[k])
  {
    InvFits(s);
    hide I.Inv, Num, Encode, IsShared, IsMap, IsValid, IsDirty, SlotIndex, FrameNumber, FromShared, SlotWordOf, ForTlb;
    RoundTrip(s.ptes[k]);
    assert M.FrameOf(s.slots, s.ptes[k]) < 0x10_0000;
    if s.ptes[k].Shared? { ThroughSlot(s.slots, s.ptes[k].slot); }
  }

  // ----- Fork

  /** What share_pt_pages stores in the two tables for the word `p`, with `ix` the slot it would take. */
  function ShareStores(p: Word, ix: nat): (Word, Word)
  {
    if IsShared(p) then (ReadOnly(p), p)
    else (ReadOnly(SlotRef(WordOf(ix))), ReadOnly(SlotRef(WordOf(ix))))
  }

  lemma ShareEntries(s: M.State, to: nat, from: nat, v: nat)
    requires to != from && M.ShareOne(s, to, from, v).Done?
    ensures var ptes, ptes1 := s.ptes, M.ShareOne(s, to, from, v).value.ptes;
      if (from, v) !in ptes then M.ShareOne(s, to, from, v).value == s
      else if ptes[(from, v)].Shared? then ptes1 == ptes[(to, v) := ptes[(from, v)]]
      else M.GetShPage(s).Done? &&
           var ix := M.GetShPage(s).value.1; ptes1 == ptes[(to, v) := M.Shared(ix)][(from, v) := M.Shared(ix)]
  {
    hide M.FirstFree, M.NoSlots;
  }

  /** Both are the words of the entries that the model leaves; an empty entry is passed over. */
  lemma ShareStored(s: M.State, to: nat, from: nat, v: nat)
    requires I.Inv(s) && to != from && M.ShareOne(s, to, from, v).Done?
    ensures var s1 := M.ShareOne(s, to, from, v).value; var p := WordAt(s.ptes, (from, v));
      if p == 0 then s1 == s
      else (WordAt(s1.ptes, (to, v)), WordAt(s1.ptes, (from, v))) ==
           ShareStores(p, if M.GetShPage(s).Done? then M.GetShPage(s).value.1 else 0)
  {
    InvFits(s);
    ShareEntries(s, to, from, v);
    var s1 := M.ShareOne(s, to, from, v).value;
    if (from, v) in s.ptes {
      FitsAt(s.ptes, s.slots, (from, v));
      RoundTrip(s.ptes[(from, v)]);
      EncodeShared(if M.GetShPage(s).Done? then M.GetShPage(s).value.1 else 0);
      ShareStoresIs(Encode(s.ptes[(from, v)]), if M.GetShPage(s).Done? then M.GetShPage(s).value.1 else 0);
    }
    hide *;
    WordIs(s.ptes, (from, v));
    WordIs(s1.ptes, (to, v));
    WordIs(s1.ptes, (from, v));
  }

  lemma EncodeShared(ix: nat)
    ensures Encode(M.Shared(ix)) == ReadOnly(SlotRef(WordOf(ix)))
  {}

  lemma ShareStoresIs(p: Word, ix: nat)
    ensures ShareStores(p, ix) ==
      if IsShared(p) then (ReadOnly(p), p) else (ReadOnly(SlotRef(WordOf(ix))), ReadOnly(SlotRef(WordOf(ix))))
  {}
}
