/** When an access or a fork goes through: which addresses a process may use, and how many free pages and slots
    each operation needs. */
module CowAccess {
  import opened CowModel
  import opened CowInvariant
  import opened CowRefinement

  /** The stack, the heap up to the break, the mapped area below the heap, and the program. */
  predicate Legal(sp: Space, addr: nat)
  {
    || 0x7000_0000 <= addr < 0x8000_0000
    || 0x1000_0000 <= addr < sp.brk
    || sp.mmap <= addr < 0x1000_0000
    || 0x1000 <= addr < 0x0100_0000
  }

  function Address(k: Key, off: nat): nat { k.1 * 4096 + off }

  lemma OnlyPages(s: State, k: Key, victims: set<Key>)
    ensures Fault(s, k, victims) != Stuck(Segv) && TlbModified(s, k, victims) != Stuck(Segv)
  {
    hide Refill, FirstFree;
  }

  /** An access that misses the TLB is a segmentation violation if and only if its address is in none of the four
      regions; one that hits it never is. */
  lemma SegvExactly(s: State, k: Key, off: nat, b: Byte, victims: set<Key>)
    requires k.0 in s.spaces
    ensures Load(s, k, off, victims) == Stuck(Segv) <==> Pair(k) !in s.tlb && !Legal(s.spaces[k.0], Address(k, off))
    ensures Store(s, k, off, b, victims) == Stuck(Segv) <==> Pair(k) !in s.tlb && !Legal(s.spaces[k.0], Address(k, off))
  {
    OnlyPages(s, k, victims);
    hide Fault, TlbModified;
  }

  // ----- Pages

  /** The pages that a fault of `k` takes: its own, and a page table if there is none. */
  function Missing(s: State, k: Key): nat
  {
    if k in s.ptes then 0 else if (k.0, k.1 / 1024) in s.tables then 1 else 2
  }

  /** The page that a store to `k` takes beyond that: a copy, if the page is shared with others. */
  function Copies(s: State, k: Key): nat
  {
    if k in s.ptes && s.ptes[k].Shared? && s.ptes[k].slot < |s.slots| && s.slots[s.ptes[k].slot].refs > 1 then 1 else 0
  }

  ghost predicate InMemory(free: set<nat>) { forall f <- free :: f < PAGES }

  /** A page is handed out as long as one is free. */
  lemma PageTaken(s: State)
    requires InMemory(s.free)
    ensures GetPage(s).Done? <==> |s.free| > 0
    ensures GetPage(s).Done? ==> |GetPage(s).value.0.free| == |s.free| - 1 && GetPage(s).value.0 == s.(free := GetPage(s).value.0.free)
  {
    if |s.free| > 0 {
      var g :| g in s.free;
      assert g < PAGES;
    }
  }

  lemma FreeInMemory(s: State)
    requires Inv(s)
    ensures InMemory(s.free)
  {
    hide Keyed, Counted, Distinct, TablesOk, SpacesOk, TlbOk, MemOk;
  }

  lemma TableTaken(s: State, t: Key)
    requires InMemory(s.free)
    ensures EnsureTable(s, t).Done? <==> t in s.tables || |s.free| > 0
    ensures EnsureTable(s, t).Done? ==> var s1 := EnsureTable(s, t).value;
      |s1.free| == |s.free| - (if t in s.tables then 0 else 1) && s1 == s.(free := s1.free, tables := s1.tables) && t in s1.tables
  {
    hide GetPage, InMemory;
    PageTaken(s);
  }

  lemma ZeroTaken(s: State, k: Key)
    requires InMemory(s.free)
    ensures DemandZero(s, k).Done? <==> k in s.ptes || |s.free| > 0
    ensures DemandZero(s, k).Done? ==> var s1 := DemandZero(s, k).value;
      && |s1.free| == |s.free| - (if k in s.ptes then 0 else 1) && s1 == s.(free := s1.free, mem := s1.mem, ptes := s1.ptes)
      && k in s1.ptes && (if k in s.ptes then s1.ptes == s.ptes else s1.ptes[k].Private?)
  {
    hide GetPage, InMemory;
    PageTaken(s);
  }

  lemma FaultParts(s: State, k: Key, victims: set<Key>)
    ensures Fault(s, k, victims).Done? <==>
      EnsureTable(s, TableKey(k)).Done? && DemandZero(EnsureTable(s, TableKey(k)).value, k).Done?
    ensures Fault(s, k, victims).Done? ==>
      Fault(s, k, victims).value == Refill(DemandZero(EnsureTable(s, TableKey(k)).value, k).value, k, victims)
  {
    hide EnsureTable, DemandZero, Refill;
  }

  lemma RefillKeeps(s: State, k: Key, victims: set<Key>)
    ensures var s1 := Refill(s, k, victims); s1 == s.(tlb := s1.tlb)
  {
    hide EntryOf;
  }

  /** What a served fault leaves. */
  ghost predicate Served(s: State, s1: State, k: Key)
  {
    && Inv(s1) && s1.spaces == s.spaces && s1.slots == s.slots && |s1.free| == |s.free| - Missing(s, k)
    && k in s1.ptes && (if k in s.ptes then s1.ptes[k] == s.ptes[k] else s1.ptes[k].Private?)
    && Stage(s1, k, if s1.ptes[k].Private? then 2 else 1)
  }

  /** A fault is served exactly if there are as many free pages as it takes. */
  lemma FaultTakes(s: State, k: Key, victims: set<Key>)
    requires Inv(s) && k.0 in s.spaces && k.1 < SPACE
    ensures Fault(s, k, victims).Done? <==> |s.free| >= Missing(s, k)
    ensures Fault(s, k, victims).Done? ==> Served(s, Fault(s, k, victims).value, k)
  {
    hide Inv, EnsureTable, DemandZero, Refill, Stage, Fault;
    TableHas(s, k);
    FreeInMemory(s);
    TableTaken(s, TableKey(k));
    FaultParts(s, k, victims);
    if EnsureTable(s, TableKey(k)).Done? {
      var s1 := EnsureTable(s, TableKey(k)).value;
      EnsureTableInv(s, TableKey(k));
      FreeInMemory(s1);
      ZeroTaken(s1, k);
      if DemandZero(s1, k).Done? {
        var s2 := DemandZero(s1, k).value;
        FaultInv(s, k, victims);
        RefillKeeps(s2, k, victims);
        RefilledStage(s2, k, victims);
      }
    }
  }

  lemma RefilledStage(s: State, k: Key, victims: set<Key>)
    requires k in s.ptes
    ensures Stage(Refill(s, k, victims), k, if s.ptes[k].Private? then 2 else 1)
  {
    hide Refill;
    Refilled(s, k, victims);
  }

  lemma TableHas(s: State, k: Key)
    requires Inv(s) && k.1 < SPACE
    ensures k in s.ptes ==> TableKey(k) in s.tables
    ensures TableKey(k).1 < TABLE && TableKey(k) == (k.0, k.1 / 1024)
  {
    hide Counted, Distinct, Partition, TablesOk, SpacesOk, TlbOk, MemOk;
  }

  /** A write fault is served exactly if a page is free or none is needed. */
  lemma ModifiedTakes(s: State, k: Key, victims: set<Key>)
    requires Inv(s) && k in s.ptes && s.ptes[k].Shared? && k.0 in s.spaces && k.1 < SPACE
    ensures TlbModified(s, k, victims).Done? <==> |s.free| >= Copies(s, k)
    ensures TlbModified(s, k, victims).Done? ==> Stage(TlbModified(s, k, victims).value, k, 2)
  {
    hide Inv, Refill, Unshare;
    TableHas(s, k);
    SlotHas(s, k);
    UnshareTakes(s, k, s.ptes[k].slot);
    if Unshare(s, k, s.ptes[k].slot).Done? { RefilledStage(Unshare(s, k, s.ptes[k].slot).value, k, victims); }
  }

  lemma SlotHas(s: State, k: Key)
    requires Inv(s) && k in s.ptes && s.ptes[k].Shared?
    ensures var ix := s.ptes[k].slot; ix < |s.slots| && s.top <= |s.slots| && s.slots[ix].refs >= 1 && s.slots[ix].frame in s.mem
    ensures InMemory(s.free)
  {
    FreeInMemory(s);
    Mapped(s, k);
    hide Keyed, Distinct, Partition, TablesOk, SpacesOk, TlbOk, MemOk, Counted;
    Named(s.slotPage, s.slots, s.top, s.ptes, k);
  }

  lemma UnshareTakes(s: State, k: Key, ix: nat)
    requires ix < |s.slots| && s.top <= |s.slots| && s.slots[ix].refs >= 1 && s.slots[ix].frame in s.mem && InMemory(s.free)
    ensures Unshare(s, k, ix).Done? <==> s.slots[ix].refs == 1 || |s.free| > 0
    ensures Unshare(s, k, ix).Done? ==> k in Unshare(s, k, ix).value.ptes && Unshare(s, k, ix).value.ptes[k].Private?
  {
    hide GetPage, Retreat, InMemory;
    PageTaken(SetRefs(s, ix, s.slots[ix].refs - 1));
  }

  // ----- Accesses

  /** The handler is reached: the pair is in the TLB, which skips the test of the regions, or the address is legal. */
  predicate Reachable(s: State, k: Key, off: nat)
  {
    Pair(k) in s.tlb || (k.0 in s.spaces && Legal(s.spaces[k.0], Address(k, off)))
  }

  /** An access with no valid half runs the handler of a fault. */
  lemma Misses(s: State, k: Key, off: nat, b: Byte, victims: set<Key>)
    requires k.0 in s.spaces && !Stage(s, k, 1)
    ensures Load(s, k, off, victims).Done? <==> Reachable(s, k, off) && Fault(s, k, victims).Done?
    ensures Load(s, k, off, victims).Done? ==> Load(s, k, off, victims).value == (Fault(s, k, victims).value, Faulted)
    ensures Store(s, k, off, b, victims) == Load(s, k, off, victims)
  {
    hide Fault, HalfAt;
  }

  /** One attempt of a load. */
  lemma LoadAttempt(s: State, k: Key, off: nat, victims: set<Key>)
    requires Inv(s) && k.0 in s.spaces && k.1 < SPACE && off < PAGE_SIZE
    ensures var r := Load(s, k, off, victims);
      if Stage(s, k, 1) then r.Done? && r.value.1.Byte? && Missing(s, k) == 0
      else (r.Done? <==> Reachable(s, k, off) && |s.free| >= Missing(s, k)) && (r.Done? ==> r.value.1 == Faulted && Served(s, r.value.0, k))
  {
    hide Inv, Fault, Served, HalfAt, TlbMiss;
    if Stage(s, k, 1) {
      TlbHit(s, k);
    } else {
      FaultTakes(s, k, victims);
      Misses(s, k, off, 0, victims);
    }
  }

  /** One attempt of a store. */
  lemma StoreAttempt(s: State, k: Key, off: nat, b: Byte, victims: set<Key>)
    requires Inv(s) && k.0 in s.spaces && k.1 < SPACE && off < PAGE_SIZE
    ensures var r := Store(s, k, off, b, victims);
      if Stage(s, k, 2) then r.Done? && r.value.1 == Stored && Missing(s, k) == Copies(s, k) == 0
      else if Stage(s, k, 1) then
        Missing(s, k) == 0 && (r.Done? <==> |s.free| >= Copies(s, k)) && (r.Done? ==> r.value.1 == Faulted && Inv(r.value.0) && Stage(r.value.0, k, 2))
      else (r.Done? <==> Reachable(s, k, off) && |s.free| >= Missing(s, k)) && (r.Done? ==> r.value.1 == Faulted && Served(s, r.value.0, k))
  {
    hide Inv, Fault, Served, HalfAt, TlbModified, TlbMiss;
    if Stage(s, k, 1) {
      TlbHit(s, k);
      if !Stage(s, k, 2) {
        ModifiedTakes(s, k, victims);
        if Store(s, k, off, b, victims).Done? { StoreInv(s, k, off, b, victims); }
      }
    } else {
      FaultTakes(s, k, victims);
      Misses(s, k, off, b, victims);
    }
  }

  /** What a served fault leaves to do. */
  lemma ServedLeaves(s: State, s1: State, k: Key)
    requires Served(s, s1, k) && k.0 in s.spaces
    ensures Inv(s1) && k.0 in s1.spaces && Stage(s1, k, 1) && Missing(s1, k) == 0 && |s1.free| == |s.free| - Missing(s, k)
    ensures Copies(s1, k) == Copies(s, k) && (Stage(s1, k, 2) || Copies(s1, k) <= 1)
  {
    hide Inv;
  }

  /** A load that is retried after its fault goes through if and only if its address is legal, or its pair is in the
      TLB, and there are as many free pages as it brings in. */
  lemma LoadGoes(s: State, k: Key, off: nat, vs: seq<set<Key>>)
    requires Inv(s) && k.0 in s.spaces && k.1 < SPACE && off < PAGE_SIZE && |vs| >= 2
    ensures LoadRetried(s, k, off, vs).Done? <==> Stage(s, k, 1) || (Reachable(s, k, off) && |s.free| >= Missing(s, k))
  {
    hide Inv, Load, Served, Missing, Reachable, Stage;
    LoadAttempt(s, k, off, vs[0]);
    LoadOnce(s, k, off, vs);
    if !Stage(s, k, 1) && Load(s, k, off, vs[0]).Done? {
      var s1 := Load(s, k, off, vs[0]).value.0;
      ServedLeaves(s, s1, k);
      assert vs[1..][0] == vs[1];
      LoadAttempt(s1, k, off, vs[1]);
      LoadOnce(s1, k, off, vs[1..]);
    }
  }

  lemma LoadOnce(s: State, k: Key, off: nat, vs: seq<set<Key>>)
    requires vs != []
    ensures var r := Load(s, k, off, vs[0]);
      LoadRetried(s, k, off, vs).Done? <==> r.Done? && (r.value.1.Byte? || LoadRetried(r.value.0, k, off, vs[1..]).Done?)
  {
    hide Load;
  }

  /** A store goes through if and only if there is a free page besides for the copy that it needs. */
  lemma StoreGoes(s: State, k: Key, off: nat, b: Byte, vs: seq<set<Key>>)
    requires Inv(s) && k.0 in s.spaces && k.1 < SPACE && off < PAGE_SIZE && |vs| >= 3
    ensures StoreRetried(s, k, off, b, vs).Done? <==>
      (Stage(s, k, 1) || Reachable(s, k, off)) && |s.free| >= Missing(s, k) + Copies(s, k)
  {
    hide Inv, Store, Served, Missing, Reachable, Stage, Copies;
    StoreAttempt(s, k, off, b, vs[0]);
    StoreOnce(s, k, off, b, vs);
    StageDown(s, k);
    if Stage(s, k, 2) {
    } else if Stage(s, k, 1) {
      MappedStore(s, k, off, b, vs);
    } else if Store(s, k, off, b, vs[0]).Done? {
      var s1 := Store(s, k, off, b, vs[0]).value.0;
      ServedLeaves(s, s1, k);
      MappedStore(s1, k, off, b, vs[1..]);
    }
  }

  /** The same once the page is in the TLB. */
  lemma MappedStore(s: State, k: Key, off: nat, b: Byte, vs: seq<set<Key>>)
    requires Inv(s) && k.0 in s.spaces && k.1 < SPACE && off < PAGE_SIZE && |vs| >= 2 && Stage(s, k, 1)
    ensures StoreRetried(s, k, off, b, vs).Done? <==> |s.free| >= Copies(s, k)
  {
    hide Inv, Store, Missing, Stage, Copies;
    StoreAttempt(s, k, off, b, vs[0]);
    StoreOnce(s, k, off, b, vs);
    if !Stage(s, k, 2) && Store(s, k, off, b, vs[0]).Done? {
      StoreInv(s, k, off, b, vs[0]);
      var s1 := Store(s, k, off, b, vs[0]).value.0;
      assert vs[1..][0] == vs[1];
      StoreAttempt(s1, k, off, b, vs[1]);
      StoreOnce(s1, k, off, b, vs[1..]);
    }
  }

  lemma StageDown(s: State, k: Key)
    ensures Stage(s, k, 2) ==> Stage(s, k, 1)
  {
    hide HalfAt;
  }

  lemma StoreOnce(s: State, k: Key, off: nat, b: Byte, vs: seq<set<Key>>)
    requires vs != []
    ensures var r := Store(s, k, off, b, vs[0]);
      StoreRetried(s, k, off, b, vs).Done? <==> r.Done? && (r.value.1 == Stored || StoreRetried(r.value.0, k, off, b, vs[1..]).Done?)
  {
    hide Store;
  }

  // ----- The TLB

  /** All pairs but that of `k` are as they were, but for victims. */
  ghost predicate Disturbed(s: State, s1: State, k: Key, victims: set<Key>)
  {
    forall p: Key :: p != Pair(k) ==>
      && (p in s1.tlb ==> p in s.tlb && s1.tlb[p] == s.tlb[p])
      && (p in s.tlb && (p !in victims || Pair(k) in s.tlb) ==> p in s1.tlb)
  }

  lemma RefillDisturbs(s: State, s0: State, k: Key, victims: set<Key>)
    requires s0.tlb == s.tlb
    ensures Disturbed(s, Refill(s0, k, victims), k, victims)
  {
    hide EntryOf;
  }

  /** An access disturbs no other pair of the TLB if its own pair is there, and otherwise no pair but the victims. */
  lemma OthersStay(s: State, k: Key, off: nat, b: Byte, victims: set<Key>)
    ensures var r := Load(s, k, off, victims); r.Done? ==> Disturbed(s, r.value.0, k, victims)
    ensures var r := Store(s, k, off, b, victims); r.Done? ==> Disturbed(s, r.value.0, k, victims)
  {
    LoadTurns(s, k, off, victims);
    StoreTurns(s, k, off, b, victims);
    if Fault(s, k, victims).Done? { FaultDisturbs(s, k, victims); }
    if TlbModified(s, k, victims).Done? { CopyDisturbs(s, k, victims); }
    hide *;
    var l, t := Load(s, k, off, victims), Store(s, k, off, b, victims);
    if l.Done? && l.value.0.tlb == s.tlb { NothingDisturbed(s, l.value.0, k, victims); }
    if t.Done? && t.value.0.tlb == s.tlb { NothingDisturbed(s, t.value.0, k, victims); }
  }

  lemma LoadTurns(s: State, k: Key, off: nat, victims: set<Key>)
    ensures var r, f := Load(s, k, off, victims), Fault(s, k, victims);
      r.Done? ==> r.value.0.tlb == s.tlb || (f.Done? && r.value.0 == f.value)
  {
    hide Fault, HalfAt, InRegion;
  }

  lemma StoreTurns(s: State, k: Key, off: nat, b: Byte, victims: set<Key>)
    ensures var r, f, m := Store(s, k, off, b, victims), Fault(s, k, victims), TlbModified(s, k, victims);
      r.Done? ==> r.value.0.tlb == s.tlb || (f.Done? && r.value.0 == f.value) || (m.Done? && r.value.0 == m.value)
  {
    hide Fault, TlbModified, HalfAt, InRegion;
  }

  lemma NothingDisturbed(s: State, s1: State, k: Key, victims: set<Key>)
    requires s1.tlb == s.tlb
    ensures Disturbed(s, s1, k, victims)
  {}

  lemma FaultDisturbs(s: State, k: Key, victims: set<Key>)
    requires Fault(s, k, victims).Done?
    ensures Disturbed(s, Fault(s, k, victims).value, k, victims)
  {
    FaultParts(s, k, victims);
    var t := EnsureTable(s, TableKey(k)).value;
    var s0 := DemandZero(t, k).value;
    MakingKeeps(s, k);
    MakingKeeps(t, k);
    hide *;
    RefillDisturbs(s, s0, k, victims);
  }

  lemma MakingKeeps(s: State, k: Key)
    ensures EnsureTable(s, TableKey(k)).Done? ==> EnsureTable(s, TableKey(k)).value.tlb == s.tlb
    ensures DemandZero(s, k).Done? ==> DemandZero(s, k).value.tlb == s.tlb
  {
    hide FirstFree;
  }

  lemma CopyDisturbs(s: State, k: Key, victims: set<Key>)
    requires TlbModified(s, k, victims).Done?
    ensures Disturbed(s, TlbModified(s, k, victims).value, k, victims)
  {
    var ix := s.ptes[k].slot;
    var s0 := Unshare(s, k, ix).value;
    CopyKeeps(s, k, ix);
    RefillDisturbs(s, s0, k, victims);
    hide Unshare, Refill, Disturbed;
  }

  lemma CopyKeeps(s: State, k: Key, ix: nat)
    requires ix < |s.slots| && s.top <= |s.slots| && Unshare(s, k, ix).Done?
    ensures Unshare(s, k, ix).value.tlb == s.tlb
  {
    hide FirstFree, Retreat;
  }
}
