/** The invariant of the virtual-memory state and its preservation by every operation:
    exact reference counts, an exact free map, and a TLB that agrees with the page tables. */
module CowInvariant {
  import opened CowModel

  type Ptes = map<Key, Pte>

  /** The entries that name slot `ix`. */
  function Users(ptes: Ptes, ix: nat): set<Key>
  {
    set k | k in ptes && ptes[k] == Shared(ix)
  }

  /** The frames that processes can reach. */
  function UserFrames(ptes: Ptes, slots: seq<Slot>): set<nat> { set k | k in ptes :: FrameOf(slots, ptes[k]) }

  /** The frame behind every mapped page. */
  function FrameMap(ptes: Ptes, slots: seq<Slot>): map<Key, nat> { map k | k in ptes :: FrameOf(slots, ptes[k]) }

  /** Every entry lies in an allocated table of a live space. */
  ghost predicate Keyed(spaces: map<nat, Space>, tables: map<Key, nat>, ptes: Ptes)
  {
    && (forall k <- ptes :: k.1 < SPACE && TableKey(k) in tables)
    && (forall t <- tables :: t.0 in spaces && t.1 < TABLE)
  }

  /** A slot's count is the number of entries naming it; slots from `top` on are unused. */
  ghost predicate Counted(slotPage: bool, slots: seq<Slot>, top: nat, ptes: Ptes)
  {
    && top <= |slots|
    && |slots| == (if slotPage then SLOTS else 0)
    && (forall k <- ptes :: ptes[k].Shared? ==> ptes[k].slot < |slots|)
    && (forall ix :: 0 <= ix < |slots| ==> slots[ix].refs == |Users(ptes, ix)|)
    && (forall ix :: top <= ix < |slots| ==> slots[ix].refs == 0)
  }

  /** Two entries reach one frame only through one shared slot. */
  ghost predicate Distinct(ptes: Ptes, slots: seq<Slot>)
  {
    forall k <- ptes, j <- ptes :: FrameOf(slots, ptes[k]) == FrameOf(slots, ptes[j]) ==>
      k == j || (ptes[k] == ptes[j] && ptes[k].Shared?)
  }

  /** Each frame is free, the kernel's, a page table, or mapped by a process, and only one of these. */
  ghost predicate Partition(free: set<nat>, kernel: set<nat>, tables: set<nat>, user: set<nat>)
  {
    && (forall f <- free :: f < PAGES)
    && (forall f <- kernel :: f < PAGES)
    && (forall f <- tables :: f < PAGES)
    && (forall f <- user :: f < PAGES)
    && (forall f: nat :: f < PAGES ==> f in free || f in kernel || f in tables || f in user)
    && free !! kernel !! tables !! user
  }

  ghost predicate TablesOk(tables: map<Key, nat>)
  {
    forall t <- tables, u <- tables :: tables[t] == tables[u] ==> t == u
  }

  ghost predicate SpacesOk(spaces: map<nat, Space>, kernel: set<nat>)
  {
    && (forall a <- spaces :: spaces[a].pgd in kernel)
    && (forall a <- spaces, b <- spaces :: spaces[a].pgd == spaces[b].pgd ==> a == b)
  }

  /** A TLB half is valid only for a mapped page; it then has that page's frame, and is
      writable exactly when the entry is private. */
  ghost predicate HalfOk(ptes: Ptes, slots: seq<Slot>, k: Key, h: Half)
  {
    h.valid ==> k in ptes && h.frame == FrameOf(slots, ptes[k]) && (h.dirty <==> ptes[k].Private?)
  }

  /** Some page of each pair in the TLB is mapped. */
  ghost predicate TlbOk(tlb: map<Key, Entry>, ptes: Ptes, slots: seq<Slot>)
  {
    forall p <- tlb ::
      && HalfOk(ptes, slots, (p.0, 2 * p.1), tlb[p].lo0)
      && HalfOk(ptes, slots, (p.0, 2 * p.1 + 1), tlb[p].lo1)
      && ((p.0, 2 * p.1) in ptes || (p.0, 2 * p.1 + 1) in ptes)
  }

  ghost predicate MemOk(mem: map<nat, Page>)
  {
    forall f: nat :: f < PAGES ==> f in mem && |mem[f]| == PAGE_SIZE
  }

  ghost predicate Inv(s: State)
  {
    && Keyed(s.spaces, s.tables, s.ptes)
    && Counted(s.slotPage, s.slots, s.top, s.ptes)
    && Distinct(s.ptes, s.slots)
    && Partition(s.free, s.kernel, s.tables.Values, UserFrames(s.ptes, s.slots))
    && TablesOk(s.tables)
    && SpacesOk(s.spaces, s.kernel)
    && TlbOk(s.tlb, s.ptes, s.slots)
    && MemOk(s.mem)
  }

  // ----- How the user sets change

  lemma UsersUpdate(ptes: Ptes, k: Key, p: Pte)
    ensures forall ix: nat ::
      Users(ptes[k := p], ix) == if p == Shared(ix) then Users(ptes, ix) + {k} else Users(ptes, ix) - {k}
  {
  }

  lemma UsersRemove(ptes: Ptes, k: Key)
    ensures forall ix: nat :: Users(ptes - {k}, ix) == Users(ptes, ix) - {k}
  {
  }

  /** Mapping an unmapped page to a frame that nobody reached. */
  lemma AddPrivate(ptes: Ptes, slots: seq<Slot>, k: Key, f: nat)
    requires k !in ptes && f !in UserFrames(ptes, slots) && Distinct(ptes, slots)
    ensures UserFrames(ptes[k := Private(f)], slots) == UserFrames(ptes, slots) + {f}
    ensures Distinct(ptes[k := Private(f)], slots)
  {
    var q := ptes[k := Private(f)];
    forall j <- ptes ensures FrameOf(slots, ptes[j]) in UserFrames(q, slots) && FrameOf(slots, ptes[j]) != f {
      assert q[j] == ptes[j];
      assert FrameOf(slots, ptes[j]) in UserFrames(ptes, slots);
    }
    assert f == FrameOf(slots, q[k]);
  }

  lemma AddPrivateCounts(slotPage: bool, slots: seq<Slot>, top: nat, ptes: Ptes, k: Key, f: nat)
    requires k !in ptes && Counted(slotPage, slots, top, ptes)
    ensures Counted(slotPage, slots, top, ptes[k := Private(f)])
  {
    UsersUpdate(ptes, k, Private(f));
    forall ix: nat ensures Users(ptes[k := Private(f)], ix) == Users(ptes, ix) {
      assert k !in Users(ptes, ix);
    }
  }

  /** A page moves between the free set and the page holders. */
  lemma Move(free: set<nat>, kernel: set<nat>, tables: set<nat>, user: set<nat>, f: nat)
    requires Partition(free, kernel, tables, user)
    ensures f in free ==>
      && Partition(free - {f}, kernel + {f}, tables, user)
      && Partition(free - {f}, kernel, tables + {f}, user)
      && Partition(free - {f}, kernel, tables, user + {f})
    ensures f in kernel ==> Partition(free + {f}, kernel - {f}, tables, user)
    ensures f in tables ==> Partition(free + {f}, kernel, tables - {f}, user)
    ensures f in user ==> Partition(free + {f}, kernel, tables, user - {f})
  {
  }

  lemma MemUpdate(mem: map<nat, Page>, f: nat, page: Page)
    requires MemOk(mem) && |page| == PAGE_SIZE
    ensures MemOk(mem[f := page])
  {
  }

  lemma TlbAddPte(tlb: map<Key, Entry>, ptes: Ptes, slots: seq<Slot>, k: Key, p: Pte)
    requires TlbOk(tlb, ptes, slots) && k !in ptes
    ensures TlbOk(tlb, ptes[k := p], slots)
  {
  }

  // ----- Faults

  lemma GetPageInv(s: State)
    requires Inv(s) && GetPage(s).Done?
    ensures var (s1, f) := GetPage(s).value;
      && f in s.free && f < PAGES && s1 == s.(free := s.free - {f})
      && f !in s.kernel && f !in s.tables.Values && f !in UserFrames(s.ptes, s.slots)
  {
  }

  lemma EnsureTableInv(s: State, t: Key)
    requires Inv(s) && t.0 in s.spaces && t.1 < TABLE && EnsureTable(s, t).Done?
    ensures var s1 := EnsureTable(s, t).value;
      Inv(s1) && t in s1.tables && s1 == s.(free := s1.free, tables := s1.tables)
  {
    if t !in s.tables {
      GetPageInv(s);
      var f := GetPage(s).value.1;
      var tables := s.tables[t := f];
      assert tables.Values == s.tables.Values + {f} by {
        assert tables[t] == f;
        assert forall u <- s.tables :: tables[u] == s.tables[u];
      }
      Move(s.free, s.kernel, s.tables.Values, UserFrames(s.ptes, s.slots), f);
    }
  }

  lemma DemandZeroInv(s: State, k: Key)
    requires Inv(s) && k.1 < SPACE && TableKey(k) in s.tables && DemandZero(s, k).Done?
    ensures var s1 := DemandZero(s, k).value;
      Inv(s1) && k in s1.ptes && s1.spaces == s.spaces
  {
    if k !in s.ptes {
      GetPageInv(s);
      var f := GetPage(s).value.1;
      AddPrivate(s.ptes, s.slots, k, f);
      AddPrivateCounts(s.slotPage, s.slots, s.top, s.ptes, k, f);
      Move(s.free, s.kernel, s.tables.Values, UserFrames(s.ptes, s.slots), f);
      TlbAddPte(s.tlb, s.ptes, s.slots, k, Private(f));
      MemUpdate(s.mem, f, ZeroPage());
    }
  }

  /** What TlbOk says of one pair. */
  ghost predicate EntryOk(ptes: Ptes, slots: seq<Slot>, p: Key, e: Entry)
  {
    && HalfOk(ptes, slots, (p.0, 2 * p.1), e.lo0)
    && HalfOk(ptes, slots, (p.0, 2 * p.1 + 1), e.lo1)
    && ((p.0, 2 * p.1) in ptes || (p.0, 2 * p.1 + 1) in ptes)
  }

  lemma TlbAt(tlb: map<Key, Entry>, ptes: Ptes, slots: seq<Slot>, p: Key)
    requires TlbOk(tlb, ptes, slots) && p in tlb
    ensures EntryOk(ptes, slots, p, tlb[p])
  {
    hide HalfOk;
  }

  lemma TlbAll(tlb: map<Key, Entry>, ptes: Ptes, slots: seq<Slot>)
    requires forall p <- tlb :: EntryOk(ptes, slots, p, tlb[p])
    ensures TlbOk(tlb, ptes, slots)
  {
    hide HalfOk;
    forall p <- tlb ensures
      && HalfOk(ptes, slots, (p.0, 2 * p.1), tlb[p].lo0)
      && HalfOk(ptes, slots, (p.0, 2 * p.1 + 1), tlb[p].lo1)
      && ((p.0, 2 * p.1) in ptes || (p.0, 2 * p.1 + 1) in ptes)
    {
      assert EntryOk(ptes, slots, p, tlb[p]);
    }
  }

  /** What is loaded for a page agrees with its entry. */
  lemma EntryLoaded(ptes: Ptes, slots: seq<Slot>, k: Key)
    requires k in ptes
    ensures EntryOk(ptes, slots, Pair(k), EntryOf(ptes, slots, Pair(k)))
  {
    var pair := Pair(k);
    assert k == (pair.0, 2 * pair.1) || k == (pair.0, 2 * pair.1 + 1);
  }

  lemma TlbRefill(tlb: map<Key, Entry>, ptes: Ptes, slots: seq<Slot>, k: Key, kept: map<Key, Entry>)
    requires TlbOk(tlb - {Pair(k)}, ptes, slots) && k in ptes
    requires forall p <- kept :: p in tlb && kept[p] == tlb[p]
    ensures TlbOk(kept[Pair(k) := EntryOf(ptes, slots, Pair(k))], ptes, slots)
  {
    hide *;
    var tlb1 := kept[Pair(k) := EntryOf(ptes, slots, Pair(k))];
    EntryLoaded(ptes, slots, k);
    forall p <- tlb1 ensures EntryOk(ptes, slots, p, tlb1[p]) {
      if p != Pair(k) {
        assert p in kept;
        TlbAt(tlb - {Pair(k)}, ptes, slots, p);
      }
    }
    TlbAll(tlb1, ptes, slots);
  }

  /** Only the refilled pair may have been stale. */
  lemma RefillInv(s: State, k: Key, victims: set<Key>)
    requires Inv(s.(tlb := s.tlb - {Pair(k)})) && k in s.ptes
    ensures Inv(Refill(s, k, victims))
  {
    TlbRefill(s.tlb, s.ptes, s.slots, k, if Pair(k) in s.tlb then s.tlb else s.tlb - victims);
  }

  lemma TlbShrink(s: State, victims: set<Key>)
    requires Inv(s)
    ensures Inv(s.(tlb := s.tlb - victims))
  {
  }

  lemma FaultInv(s: State, k: Key, victims: set<Key>)
    requires Inv(s) && k.0 in s.spaces && k.1 < SPACE && Fault(s, k, victims).Done?
    ensures var s1 := Fault(s, k, victims).value;
      Inv(s1) && s1.spaces == s.spaces
  {
    EnsureTableInv(s, TableKey(k));
    var s1 := EnsureTable(s, TableKey(k)).value;
    DemandZeroInv(s1, k);
    var s2 := DemandZero(s1, k).value;
    TlbShrink(s2, {Pair(k)});
    RefillInv(s2, k, victims);
  }

  /** A slot that is named by an entry has a positive count and lies below `top`. */
  lemma Named(slotPage: bool, slots: seq<Slot>, top: nat, ptes: Ptes, k: Key)
    requires Counted(slotPage, slots, top, ptes) && k in ptes && ptes[k].Shared?
    ensures var ix := ptes[k].slot;
      ix < top <= |slots| && slots[ix].refs == |Users(ptes, ix)| >= 1 && k in Users(ptes, ix)
  {
    assert k in Users(ptes, ptes[k].slot);
  }

  /** Dropping the last user of a slot, or giving its frame to that user privately. */
  lemma SoleUser(ptes: Ptes, slots: seq<Slot>, k: Key, ix: nat)
    requires k in ptes && ptes[k] == Shared(ix) && |Users(ptes, ix)| == 1
    ensures Users(ptes, ix) == {k}
    ensures forall j <- ptes :: ptes[j] == Shared(ix) ==> j == k
  {
    assert k in Users(ptes, ix);
    assert |Users(ptes, ix) - {k}| == 0;
    assert forall j <- ptes :: ptes[j] == Shared(ix) ==> j in Users(ptes, ix);
  }

  /** A slot with two users keeps one when `k` leaves. */
  lemma OtherUser(ptes: Ptes, k: Key, ix: nat) returns (j: Key)
    requires k in ptes && ptes[k] == Shared(ix) && |Users(ptes, ix)| >= 2
    ensures j in ptes && j != k && ptes[j] == Shared(ix)
  {
    assert |Users(ptes, ix) - {k}| >= 1;
    j :| j in Users(ptes, ix) - {k};
  }

  /** Counts after slot `ix` loses the user `k`. */
  lemma LoseUser(slotPage: bool, slots: seq<Slot>, top: nat, ptes: Ptes, k: Key, rest: Ptes)
    requires Counted(slotPage, slots, top, ptes) && k in ptes && ptes[k].Shared?
    requires forall i: nat :: Users(rest, i) == Users(ptes, i) - {k}
    requires forall j <- rest :: rest[j].Shared? ==> rest[j].slot < |slots|
    ensures var ix := ptes[k].slot;
      Counted(slotPage, slots[ix := slots[ix].(refs := slots[ix].refs - 1)], top, rest)
  {
    Named(slotPage, slots, top, ptes, k);
    var ix := ptes[k].slot;
    assert |Users(ptes, ix) - {k}| == |Users(ptes, ix)| - 1;
    forall i: nat | i != ix ensures Users(ptes, i) - {k} == Users(ptes, i) {
      assert k !in Users(ptes, i);
    }
  }

  /** Drawing `top` back over unused slots keeps the counts. */
  lemma RetreatCounts(slotPage: bool, slots: seq<Slot>, top: nat, ptes: Ptes)
    requires Counted(slotPage, slots, top, ptes)
    ensures Counted(slotPage, slots, Retreat(slots, top), ptes)
  {
  }

  /** Frames are unchanged when only a count changes. */
  lemma SameFrames(ptes: Ptes, slots: seq<Slot>, slots1: seq<Slot>)
    requires |slots| == |slots1| && forall i :: 0 <= i < |slots| ==> slots[i].frame == slots1[i].frame
    ensures forall p: Pte :: FrameOf(slots, p) == FrameOf(slots1, p)
    ensures UserFrames(ptes, slots) == UserFrames(ptes, slots1)
    ensures FrameMap(ptes, slots) == FrameMap(ptes, slots1)
    ensures Distinct(ptes, slots) ==> Distinct(ptes, slots1)
  {
    assert forall p: Pte :: FrameOf(slots, p) == FrameOf(slots1, p);
  }

  // ----- Copy on write

  /** The last user of a slot takes its frame over. */
  lemma Reclaim(ptes: Ptes, slots: seq<Slot>, k: Key, ix: nat)
    requires k in ptes && ptes[k] == Shared(ix) && ix < |slots| && Users(ptes, ix) == {k} && Distinct(ptes, slots)
    ensures UserFrames(ptes[k := Private(slots[ix].frame)], slots) == UserFrames(ptes, slots)
    ensures Distinct(ptes[k := Private(slots[ix].frame)], slots)
  {
    var q := ptes[k := Private(slots[ix].frame)];
    assert forall j <- ptes :: j in q && FrameOf(slots, q[j]) == FrameOf(slots, ptes[j]);
    forall j <- ptes | ptes[j] == ptes[k] ensures j == k {
      assert j in Users(ptes, ix);
    }
  }

  /** One of several users of a slot moves to a page nobody reached. */
  lemma CopyOut(ptes: Ptes, slots: seq<Slot>, k: Key, ix: nat, p: nat)
    requires k in ptes && ptes[k] == Shared(ix) && ix < |slots| && |Users(ptes, ix)| >= 2 && Distinct(ptes, slots)
    requires p !in UserFrames(ptes, slots)
    ensures UserFrames(ptes[k := Private(p)], slots) == UserFrames(ptes, slots) + {p}
    ensures Distinct(ptes[k := Private(p)], slots)
  {
    var q := ptes[k := Private(p)];
    var other := OtherUser(ptes, k, ix);
    assert FrameOf(slots, q[other]) == slots[ix].frame && other in q;
    forall j <- ptes ensures FrameOf(slots, ptes[j]) in UserFrames(q, slots) && FrameOf(slots, ptes[j]) != p {
      assert FrameOf(slots, ptes[j]) in UserFrames(ptes, slots);
      if j != k {
        assert q[j] == ptes[j];
      }
    }
    assert p == FrameOf(slots, q[k]);
    forall i <- q, j <- q | i != j && FrameOf(slots, q[i]) == FrameOf(slots, q[j]) ensures q[i] == q[j] && q[i].Shared? {
      assert i != k ==> FrameOf(slots, ptes[i]) in UserFrames(ptes, slots);
      assert j != k ==> FrameOf(slots, ptes[j]) in UserFrames(ptes, slots);
    }
  }

  /** Entries of other pairs are untouched by an update inside the pair of `k`. */
  lemma TlbOtherPairs(tlb: map<Key, Entry>, ptes: Ptes, slots: seq<Slot>, k: Key, q: Ptes)
    requires TlbOk(tlb, ptes, slots)
    requires forall j: Key :: j != k ==> (j in q <==> j in ptes) && (j in ptes ==> q[j] == ptes[j])
    ensures TlbOk(tlb - {Pair(k)}, q, slots)
  {
    forall p <- tlb | p != Pair(k) ensures (p.0, 2 * p.1) != k && (p.0, 2 * p.1 + 1) != k {
      assert (2 * p.1) / 2 == p.1 && (2 * p.1 + 1) / 2 == p.1;
    }
  }

  lemma TlbSlots(tlb: map<Key, Entry>, ptes: Ptes, slots: seq<Slot>, slots1: seq<Slot>)
    requires TlbOk(tlb, ptes, slots) && (forall p: Pte :: FrameOf(slots, p) == FrameOf(slots1, p))
    ensures TlbOk(tlb, ptes, slots1)
  {
  }

  /** `rest` is `ptes` with `k` removed or made private. */
  ghost predicate LeavesAt(ptes: Ptes, k: Key, rest: Ptes)
  {
    && (forall j: Key :: j != k ==> (j in rest <==> j in ptes) && (j in ptes ==> rest[j] == ptes[j]))
    && (k in rest ==> rest[k].Private?)
    && k in ptes
  }

  lemma LeavesAtUsers(ptes: Ptes, k: Key, rest: Ptes)
    requires LeavesAt(ptes, k, rest)
    ensures forall i: nat :: Users(rest, i) == Users(ptes, i) - {k}
  {
    forall i: nat ensures Users(rest, i) == Users(ptes, i) - {k} {
      assert forall j: Key :: j != k ==> (j in Users(rest, i) <==> j in Users(ptes, i));
    }
  }

  /** Counts, frames and TLB when the entry `k` leaves its slot. */
  lemma LeaveSlot(s: State, k: Key, rest: Ptes)
    requires Inv(s) && LeavesAt(s.ptes, k, rest) && s.ptes[k].Shared? && s.ptes[k].slot < |s.slots|
    ensures var ix := s.ptes[k].slot; var slots1 := s.slots[ix := s.slots[ix].(refs := s.slots[ix].refs - 1)];
      && Distinct(s.ptes, slots1) && UserFrames(s.ptes, slots1) == UserFrames(s.ptes, s.slots)
      && Counted(s.slotPage, slots1, s.top, rest)
      && TlbOk(s.tlb - {Pair(k)}, rest, slots1)
      && Keyed(s.spaces, s.tables, rest)
  {
    hide Distinct, Partition, SpacesOk, TablesOk, MemOk, TlbOk, UserFrames;
    var ix := s.ptes[k].slot;
    var slots1 := s.slots[ix := s.slots[ix].(refs := s.slots[ix].refs - 1)];
    SameFrames(s.ptes, s.slots, slots1);
    TlbSlots(s.tlb, s.ptes, s.slots, slots1);
    LeavesAtUsers(s.ptes, k, rest);
    LoseUser(s.slotPage, s.slots, s.top, s.ptes, k, rest);
    TlbOtherPairs(s.tlb, s.ptes, slots1, k, rest);
  }

  lemma ReclaimInv(s: State, k: Key)
    requires Inv(s) && k in s.ptes && s.ptes[k].Shared? && s.ptes[k].slot < |s.slots|
    requires s.slots[s.ptes[k].slot].refs == 1
    ensures var s1 := Unshare(s, k, s.ptes[k].slot).value; Inv(s1.(tlb := s1.tlb - {Pair(k)}))
  {
    hide Distinct, Partition, TablesOk, SpacesOk, MemOk, TlbOk, UserFrames, Keyed, Retreat, Users;
    var ix := s.ptes[k].slot;
    var slots1 := s.slots[ix := s.slots[ix].(refs := 0)];
    LeaveSlot(s, k, s.ptes[k := Private(s.slots[ix].frame)]);
    SoleUser(s.ptes, s.slots, k, ix);
    Reclaim(s.ptes, slots1, k, ix);
    RetreatCounts(s.slotPage, slots1, s.top, s.ptes[k := Private(s.slots[ix].frame)]);
  }

  /** The page behind an entry is in memory and neither free, the kernel's, nor a page table. */
  lemma Mapped(s: State, k: Key)
    requires Inv(s) && k in s.ptes
    ensures var f := FrameOf(s.slots, s.ptes[k]);
      && f in s.mem && |s.mem[f]| == PAGE_SIZE && f < PAGES
      && f in UserFrames(s.ptes, s.slots) && f !in s.free && f !in s.kernel && f !in s.tables.Values
  {
    assert FrameOf(s.slots, s.ptes[k]) in UserFrames(s.ptes, s.slots);
  }

  lemma CopyInv(s: State, k: Key)
    requires Inv(s) && k in s.ptes && s.ptes[k].Shared? && s.ptes[k].slot < |s.slots|
    requires s.slots[s.ptes[k].slot].refs >= 2 && Unshare(s, k, s.ptes[k].slot).Done?
    ensures var s1 := Unshare(s, k, s.ptes[k].slot).value; Inv(s1.(tlb := s1.tlb - {Pair(k)}))
  {
    hide Distinct, TlbOk, Partition, SpacesOk, TablesOk, MemOk, Counted, Keyed;
    Named(s.slotPage, s.slots, s.top, s.ptes, k);
    var ix := s.ptes[k].slot;
    var slots1 := s.slots[ix := s.slots[ix].(refs := s.slots[ix].refs - 1)];
    GetPageInv(s);
    var p := GetPage(s).value.1;
    LeaveSlot(s, k, s.ptes[k := Private(p)]);
    CopyOut(s.ptes, slots1, k, ix, p);
    Move(s.free, s.kernel, s.tables.Values, UserFrames(s.ptes, s.slots), p);
    Mapped(s, k);
    MemUpdate(s.mem, p, s.mem[s.slots[ix].frame]);
  }

  lemma UnshareInv(s: State, k: Key)
    requires Inv(s) && k in s.ptes && s.ptes[k].Shared? && Unshare(s, k, s.ptes[k].slot).Done?
    ensures var s1 := Unshare(s, k, s.ptes[k].slot).value;
      Inv(s1.(tlb := s1.tlb - {Pair(k)})) && k in s1.ptes && s1.spaces == s.spaces
  {
    hide Distinct, TlbOk, Partition, SpacesOk, TablesOk, MemOk, Counted, Keyed;
    Named(s.slotPage, s.slots, s.top, s.ptes, k);
    if s.slots[s.ptes[k].slot].refs == 1 {
      ReclaimInv(s, k);
    } else {
      CopyInv(s, k);
    }
  }

  lemma TlbModifiedInv(s: State, k: Key, victims: set<Key>)
    requires Inv(s) && k.1 < SPACE && TlbModified(s, k, victims).Done?
    ensures var s1 := TlbModified(s, k, victims).value;
      Inv(s1) && s1.spaces == s.spaces
  {
    UnshareInv(s, k);
    RefillInv(Unshare(s, k, s.ptes[k].slot).value, k, victims);
  }

  // ----- Releasing

  /** Frames when entry `k` disappears: its frame is lost unless another entry shares it. */
  lemma RemovePte(ptes: Ptes, slots: seq<Slot>, k: Key)
    requires k in ptes && Distinct(ptes, slots)
    ensures Distinct(ptes - {k}, slots)
    ensures ptes[k].Private? || Users(ptes, ptes[k].slot) == {k} ==>
      UserFrames(ptes - {k}, slots) == UserFrames(ptes, slots) - {FrameOf(slots, ptes[k])}
    ensures ptes[k].Shared? && |Users(ptes, ptes[k].slot)| >= 2 ==>
      UserFrames(ptes - {k}, slots) == UserFrames(ptes, slots)
  {
    var q := ptes - {k};
    assert forall j <- q :: q[j] == ptes[j] && FrameOf(slots, q[j]) in UserFrames(ptes, slots);
    forall j <- ptes | j != k ensures FrameOf(slots, ptes[j]) in UserFrames(q, slots) {
      assert q[j] == ptes[j];
    }
    if ptes[k].Shared? {
      assert forall j <- ptes :: ptes[j] == ptes[k] ==> j in Users(ptes, ptes[k].slot);
      if |Users(ptes, ptes[k].slot)| >= 2 {
        var other := OtherUser(ptes, k, ptes[k].slot);
        assert q[other] == ptes[k];
      }
    }
  }

  lemma DropPrivateInv(s: State, k: Key)
    requires Inv(s) && k in s.ptes && s.ptes[k].Private?
    ensures Inv(DropPte(s, k))
  {
    hide Distinct, Partition, SpacesOk, TablesOk, MemOk, TlbOk;
    Mapped(s, k);
    RemovePte(s.ptes, s.slots, k);
    UsersRemove(s.ptes, k);
    forall i: nat ensures Users(s.ptes, i) - {k} == Users(s.ptes, i) {
      assert k !in Users(s.ptes, i);
    }
    TlbOtherPairs(s.tlb, s.ptes, s.slots, k, s.ptes - {k});
    Move(s.free, s.kernel, s.tables.Values, UserFrames(s.ptes, s.slots), s.ptes[k].frame);
  }

  lemma DropSharedInv(s: State, k: Key)
    requires Inv(s) && k in s.ptes && s.ptes[k].Shared?
    ensures Inv(DropPte(s, k))
  {
    hide Distinct, Partition, SpacesOk, TablesOk, MemOk, TlbOk, Counted, Keyed;
    Named(s.slotPage, s.slots, s.top, s.ptes, k);
    var ix := s.ptes[k].slot;
    var slots1 := s.slots[ix := s.slots[ix].(refs := s.slots[ix].refs - 1)];
    var rest := s.ptes - {k};
    Mapped(s, k);
    LeaveSlot(s, k, rest);
    if s.slots[ix].refs == 1 {
      SoleUser(s.ptes, s.slots, k, ix);
      RetreatCounts(s.slotPage, slots1, s.top, rest);
      Move(s.free, s.kernel, s.tables.Values, UserFrames(s.ptes, s.slots), s.slots[ix].frame);
    }
    RemovePte(s.ptes, slots1, k);
  }

  lemma DropPteInv(s: State, k: Key)
    requires Inv(s)
    ensures Inv(DropPte(s, k))
  {
    if k in s.ptes {
      if s.ptes[k].Private? {
        DropPrivateInv(s, k);
      } else {
        DropSharedInv(s, k);
      }
    }
  }

  /** A table is released once none of its entries is left. */
  lemma DropTableInv(s: State, t: Key)
    requires Inv(s) && (forall k <- s.ptes :: TableKey(k) != t)
    ensures Inv(DropTable(s, t))
  {
    if t in s.tables {
      hide Distinct, SpacesOk, MemOk, TlbOk, Counted, Partition, TablesOk, Keyed, UserFrames;
      Move(s.free, s.kernel, s.tables.Values, UserFrames(s.ptes, s.slots), s.tables[t]);
      FewerTables(s.spaces, s.tables, s.ptes, t);
    }
  }

  lemma FewerTables(spaces: map<nat, Space>, tables: map<Key, nat>, ptes: Ptes, t: Key)
    requires Keyed(spaces, tables, ptes) && TablesOk(tables) && t in tables && (forall k <- ptes :: TableKey(k) != t)
    ensures Keyed(spaces, tables - {t}, ptes) && TablesOk(tables - {t}) && tables[t] in tables.Values
    ensures (tables - {t}).Values == tables.Values - {tables[t]}
  {
    assert forall u <- tables :: u != t ==> u in tables - {t} && (tables - {t})[u] == tables[u];
  }

  // ----- Fork

  lemma GetKernelPageInv(s: State)
    requires Inv(s) && GetKernelPage(s).Done?
    ensures var (s1, f) := GetKernelPage(s).value;
      && Inv(s1) && s1 == s.(free := s.free - {f}, kernel := s.kernel + {f})
      && f !in s.kernel
  {
    hide Distinct, TablesOk, MemOk, TlbOk, Counted, Keyed;
    GetPageInv(s);
    Move(s.free, s.kernel, s.tables.Values, UserFrames(s.ptes, s.slots), GetPage(s).value.1);
  }

  lemma EnsureSlotsInv(s: State)
    requires Inv(s) && EnsureSlots(s).Done?
    ensures var s1 := EnsureSlots(s).value;
      && Inv(s1) && s1.slotPage && s1.top == s.top && s1.ptes == s.ptes && s1.spaces == s.spaces
      && s1.tables == s.tables && s1.mem == s.mem && s1.tlb == s.tlb
      && (forall k <- s.ptes :: FrameOf(s1.slots, s.ptes[k]) == FrameOf(s.slots, s.ptes[k]))
  {
    if !s.slotPage {
      hide Keyed, Distinct, Partition, TablesOk, SpacesOk, MemOk, TlbOk, UserFrames, Counted, NoSlots, Users;
      GetKernelPageInv(s);
      NothingShared(s.slots, s.top, s.ptes, s.tlb);
    }
  }

  /** Without a page of slots no page is shared, and new slots change nothing. */
  lemma NothingShared(slots: seq<Slot>, top: nat, ptes: Ptes, tlb: map<Key, Entry>)
    requires Counted(false, slots, top, ptes)
    ensures Counted(true, NoSlots(), 0, ptes) && UserFrames(ptes, NoSlots()) == UserFrames(ptes, slots)
    ensures Distinct(ptes, slots) ==> Distinct(ptes, NoSlots())
    ensures TlbOk(tlb, ptes, slots) ==> TlbOk(tlb, ptes, NoSlots())
    ensures forall k <- ptes :: FrameOf(NoSlots(), ptes[k]) == FrameOf(slots, ptes[k])
  {
    assert forall k <- ptes :: ptes[k].Private?;
    forall ix: nat ensures Users(ptes, ix) == {} {
    }
  }

  /** What sharing page `v` of `from` with `to` must achieve. */
  ghost predicate Shared1(s: State, to: nat, from: nat, v: nat, s1: State)
  {
    && Inv(s1) && s1.tables == s.tables && s1.spaces == s.spaces && s1.mem == s.mem
    && FrameMap(s1.ptes, s1.slots) ==
       if (from, v) in s.ptes then FrameMap(s.ptes, s.slots)[(to, v) := FrameOf(s.slots, s.ptes[(from, v)])]
       else FrameMap(s.ptes, s.slots)
  }

  /** A second process joins an existing slot. */
  lemma JoinSlotInv(s: State, to: nat, from: nat, v: nat)
    requires Inv(s) && (from, v) in s.ptes && s.ptes[(from, v)].Shared? && (to, v) !in s.ptes
    requires TableKey((to, v)) in s.tables && v < SPACE
    ensures ShareOne(s, to, from, v).Done? && Shared1(s, to, from, v, ShareOne(s, to, from, v).value)
  {
    hide Partition, SpacesOk, TablesOk, MemOk, TlbOk, Distinct, UserFrames, FrameMap, Counted;
    ShareJoins(s, to, from, v);
    var s1 := Joined(s, to, from, v);
    JoinedInv(s, to, from, v);
    hide Joined;
    TlbShrink(s1, {Pair((to, v))});
  }

  /** The state with page `v` of `to` on the slot of page `v` of `from`, before the flush. */
  ghost function Joined(s: State, to: nat, from: nat, v: nat): State
    requires (from, v) in s.ptes
  {
    var p := s.ptes[(from, v)];
    var slots1 := if p.Shared? && p.slot < |s.slots|
      then s.slots[p.slot := s.slots[p.slot].(refs := s.slots[p.slot].refs + 1)] else s.slots;
    s.(slots := slots1, ptes := s.ptes[(to, v) := p])
  }

  lemma ShareJoins(s: State, to: nat, from: nat, v: nat)
    requires Inv(s) && (from, v) in s.ptes && s.ptes[(from, v)].Shared?
    ensures ShareOne(s, to, from, v) == Done(Flush(Joined(s, to, from, v), (to, v)))
  {
    Named(s.slotPage, s.slots, s.top, s.ptes, (from, v));
  }

  lemma JoinedInv(s: State, to: nat, from: nat, v: nat)
    requires Inv(s) && (from, v) in s.ptes && s.ptes[(from, v)].Shared? && (to, v) !in s.ptes
    requires TableKey((to, v)) in s.tables && v < SPACE
    ensures var s1 := Joined(s, to, from, v);
      && Inv(s1) && s1.tables == s.tables && s1.spaces == s.spaces && s1.mem == s.mem
      && FrameMap(s1.ptes, s1.slots) == FrameMap(s.ptes, s.slots)[(to, v) := FrameOf(s.slots, s.ptes[(from, v)])]
  {
    hide *;
    var k := (to, v);
    var p := s.ptes[(from, v)];
    Parts(s);
    Named(s.slotPage, s.slots, s.top, s.ptes, (from, v));
    KeyedMore(s.spaces, s.tables, s.ptes, k, p);
    JoinedIs(s, to, from, v);
    var slots1 := s.slots[p.slot := s.slots[p.slot].(refs := s.slots[p.slot].refs + 1)];
    JoinTlb(s.tlb, s.ptes, s.slots, k, p);
    JoinCounts(s.slotPage, s.slots, s.top, s.ptes, k, p.slot);
    JoinDistinct(s.ptes, s.slots, (from, v), k);
    Rebuilt(s, s.ptes[k := p], slots1);
  }

  /** One more reference to the slot of `p` moves no frame. */
  lemma JoinTlb(tlb: map<Key, Entry>, ptes: Ptes, slots: seq<Slot>, k: Key, p: Pte)
    requires TlbOk(tlb, ptes, slots) && k !in ptes && p.Shared? && p.slot < |slots|
    ensures TlbOk(tlb, ptes[k := p], slots[p.slot := slots[p.slot].(refs := slots[p.slot].refs + 1)])
  {
    var slots1 := slots[p.slot := slots[p.slot].(refs := slots[p.slot].refs + 1)];
    SameFrames(ptes, slots, slots1);
    hide *;
    TlbSlots(tlb, ptes, slots, slots1);
    TlbAddPte(tlb, ptes, slots1, k, p);
  }

  lemma JoinDistinct(ptes: Ptes, slots: seq<Slot>, source: Key, k: Key)
    requires source in ptes && ptes[source].Shared? && ptes[source].slot < |slots| && k !in ptes && Distinct(ptes, slots)
    ensures var p := ptes[source]; var slots1 := slots[p.slot := slots[p.slot].(refs := slots[p.slot].refs + 1)];
      && UserFrames(ptes[k := p], slots1) == UserFrames(ptes, slots) && Distinct(ptes[k := p], slots1)
      && FrameMap(ptes[k := p], slots1) == FrameMap(ptes, slots)[k := FrameOf(slots, p)]
  {
    var p := ptes[source];
    var slots1 := slots[p.slot := slots[p.slot].(refs := slots[p.slot].refs + 1)];
    SameFrames(ptes, slots, slots1);
    hide *;
    JoinFrames(ptes, slots1, source, k);
  }

  lemma JoinedIs(s: State, to: nat, from: nat, v: nat)
    requires (from, v) in s.ptes && s.ptes[(from, v)].Shared? && s.ptes[(from, v)].slot < |s.slots|
    ensures var p := s.ptes[(from, v)];
      Joined(s, to, from, v) ==
        s.(slots := s.slots[p.slot := s.slots[p.slot].(refs := s.slots[p.slot].refs + 1)], ptes := s.ptes[(to, v) := p])
  {}

  lemma Parts(s: State)
    requires Inv(s)
    ensures Keyed(s.spaces, s.tables, s.ptes) && Counted(s.slotPage, s.slots, s.top, s.ptes)
    ensures Distinct(s.ptes, s.slots) && TlbOk(s.tlb, s.ptes, s.slots)
  {
    hide Keyed, Counted, Distinct, TlbOk;
  }

  /** Entries and slots that reach the same frames can take the place of the old ones. */
  lemma Rebuilt(s: State, ptes: Ptes, slots: seq<Slot>)
    requires Inv(s) && Keyed(s.spaces, s.tables, ptes) && Counted(s.slotPage, slots, s.top, ptes)
    requires Distinct(ptes, slots) && TlbOk(s.tlb, ptes, slots) && UserFrames(ptes, slots) == UserFrames(s.ptes, s.slots)
    ensures Inv(s.(slots := slots, ptes := ptes))
  {
    hide Keyed, Counted, Distinct, TlbOk, UserFrames, Partition, TablesOk, SpacesOk, MemOk;
  }

  lemma KeyedMore(spaces: map<nat, Space>, tables: map<Key, nat>, ptes: Ptes, k: Key, p: Pte)
    requires Keyed(spaces, tables, ptes) && k.1 < SPACE && TableKey(k) in tables
    ensures Keyed(spaces, tables, ptes[k := p])
  {}

  lemma JoinCounts(slotPage: bool, slots: seq<Slot>, top: nat, ptes: Ptes, k: Key, ix: nat)
    requires Counted(slotPage, slots, top, ptes) && k !in ptes && ix < top <= |slots|
    ensures Counted(slotPage, slots[ix := slots[ix].(refs := slots[ix].refs + 1)], top, ptes[k := Shared(ix)])
  {
    UsersUpdate(ptes, k, Shared(ix));
    assert k !in Users(ptes, ix);
    forall i: nat | i != ix ensures Users(ptes, i) - {k} == Users(ptes, i) {
      assert k !in Users(ptes, i);
    }
  }

  lemma JoinFrames(ptes: Ptes, slots: seq<Slot>, source: Key, k: Key)
    requires source in ptes && ptes[source].Shared? && k !in ptes && Distinct(ptes, slots)
    ensures UserFrames(ptes[k := ptes[source]], slots) == UserFrames(ptes, slots)
    ensures Distinct(ptes[k := ptes[source]], slots)
    ensures FrameMap(ptes[k := ptes[source]], slots) == FrameMap(ptes, slots)[k := FrameOf(slots, ptes[source])]
  {
    var q := ptes[k := ptes[source]];
    assert FrameOf(slots, q[k]) == FrameOf(slots, ptes[source]);
    assert forall j <- ptes :: j in q && q[j] == ptes[j];
  }

  /** A private page becomes shared through the unused slot `ix`. */
  lemma NewSlotCounts(slotPage: bool, slots: seq<Slot>, ptes: Ptes, f: nat, source: Key, k: Key, ix: nat)
    requires Counted(slotPage, slots, ix, ptes) && source in ptes && ptes[source] == Private(f) && k !in ptes && ix < |slots|
    ensures Counted(slotPage, slots[ix := Slot(f, 2)], ix + 1, ptes[k := Shared(ix)][source := Shared(ix)])
  {
    assert slots[ix].refs == |Users(ptes, ix)|;
    hide Users;
    NewUsers(ptes, source, k, ix);
    assert |{k, source}| == 2;
  }

  lemma NewUsers(ptes: Ptes, source: Key, k: Key, ix: nat)
    requires source in ptes && ptes[source].Private? && k !in ptes && |Users(ptes, ix)| == 0
    ensures k != source && Users(ptes[k := Shared(ix)][source := Shared(ix)], ix) == {k, source}
    ensures forall i: nat | i != ix :: Users(ptes[k := Shared(ix)][source := Shared(ix)], i) == Users(ptes, i)
  {
    var p := Shared(ix);
    UsersUpdate(ptes, k, p);
    UsersUpdate(ptes[k := p], source, p);
    assert Users(ptes, ix) == {};
    forall i: nat | i != ix ensures Users(ptes, i) - {k} - {source} == Users(ptes, i) {
      assert k !in Users(ptes, i) && source !in Users(ptes, i);
    }
  }

  lemma NewSlotFrames(ptes: Ptes, slots: seq<Slot>, f: nat, source: Key, k: Key, ix: nat)
    requires Distinct(ptes, slots) && source in ptes && ptes[source] == Private(f) && k !in ptes && ix < |slots|
    requires Users(ptes, ix) == {}
    ensures var q := ptes[k := Shared(ix)][source := Shared(ix)]; var slots1 := slots[ix := Slot(f, 2)];
      && Distinct(q, slots1) && UserFrames(q, slots1) == UserFrames(ptes, slots)
      && FrameMap(q, slots1) == FrameMap(ptes, slots)[k := f]
      && (forall j <- ptes :: FrameOf(slots1, q[j]) == FrameOf(slots, ptes[j]))
  {
    var q := ptes[k := Shared(ix)][source := Shared(ix)];
    var slots1 := slots[ix := Slot(f, 2)];
    forall j <- ptes ensures j in q && FrameOf(slots1, q[j]) == FrameOf(slots, ptes[j]) {
      assert j !in Users(ptes, ix);
    }
    assert FrameOf(slots1, q[k]) == FrameOf(slots, ptes[source]);
  }

  lemma TlbNewSlot(tlb: map<Key, Entry>, ptes: Ptes, slots: seq<Slot>, slots1: seq<Slot>, source: Key, k: Key, p: Pte)
    requires TlbOk(tlb, ptes, slots) && k !in ptes && source in ptes
    requires forall j <- ptes :: j != source ==> FrameOf(slots1, ptes[j]) == FrameOf(slots, ptes[j])
    ensures TlbOk(tlb - {Pair(source)}, ptes[k := p][source := p], slots1)
  {
    var q := ptes[k := p][source := p];
    forall t <- tlb | t != Pair(source) ensures (t.0, 2 * t.1) != source && (t.0, 2 * t.1 + 1) != source {
      assert (2 * t.1) / 2 == t.1 && (2 * t.1 + 1) / 2 == t.1;
    }
  }

  lemma NewSlotInv(s: State, to: nat, from: nat, v: nat)
    requires Inv(s) && (from, v) in s.ptes && s.ptes[(from, v)].Private? && (to, v) !in s.ptes
    requires TableKey((to, v)) in s.tables && v < SPACE && s.slotPage && ShareOne(s, to, from, v).Done?
    ensures Shared1(s, to, from, v, ShareOne(s, to, from, v).value)
  {
    hide Partition, SpacesOk, TablesOk, MemOk, TlbOk, Distinct, FrameMap, UserFrames, Users;
    var k, o := (to, v), (from, v);
    var f, ix := s.ptes[o].frame, s.top;
    assert ix < |s.slots|;
    var slots1 := s.slots[ix := Slot(f, 2)];
    var q := s.ptes[k := Shared(ix)][o := Shared(ix)];
    assert s.slots[ix].refs == |Users(s.ptes, ix)|;
    NewSlotCounts(s.slotPage, s.slots, s.ptes, f, o, k, ix);
    NewSlotFrames(s.ptes, s.slots, f, o, k, ix);
    TlbNewSlot(s.tlb, s.ptes, s.slots, slots1, o, k, Shared(ix));
    var s1 := s.(slots := slots1, top := ix + 1, ptes := q, tlb := s.tlb - {Pair(o)});
    assert Inv(s1);
    TlbShrink(s1, {Pair(k)});
    assert s.slots[ix := Slot(f, 1)][ix := Slot(f, 2)] == slots1;
  }

  lemma ShareOneInv(s: State, to: nat, from: nat, v: nat)
    requires Inv(s) && (to, v) !in s.ptes && v < SPACE && to != from
    requires (from, v) in s.ptes ==> TableKey((to, v)) in s.tables
    requires ShareOne(s, to, from, v).Done?
    ensures Shared1(s, to, from, v, ShareOne(s, to, from, v).value)
  {
    hide Partition, SpacesOk, TablesOk, MemOk, TlbOk, Distinct, Counted, Keyed, UserFrames;
    if (from, v) in s.ptes {
      if s.ptes[(from, v)].Shared? {
        JoinSlotInv(s, to, from, v);
      } else {
        EnsureSlotsInv(s);
        var s0 := EnsureSlots(s).value;
        NewSlotInv(s0, to, from, v);
        assert FrameMap(s0.ptes, s0.slots) == FrameMap(s.ptes, s.slots);
      }
    }
  }

  /** `m` with the pages below `n` of `from` also mapped for `to`. */
  function Forked<T>(m: map<Key, T>, to: nat, from: nat, n: nat): map<Key, T>
  {
    m + map v: nat | v < n && (from, v) in m :: (to, v) := m[(from, v)]
  }

  /** Tables of other spaces are kept, and `to` has a table wherever `from` has one below `n`. */
  ghost predicate TablesForked(tables: map<Key, nat>, to: nat, from: nat, n: nat, tables1: map<Key, nat>)
  {
    && (forall t: Key :: t.0 != to ==> (t in tables1 <==> t in tables))
    && (forall g: nat :: g * TABLE < n && (from, g) in tables ==> (to, g) in tables1)
  }

  /** What sharing the pages below `n` must achieve. */
  ghost predicate SharedUpTo(s: State, to: nat, from: nat, n: nat, s1: State)
  {
    && Inv(s1) && s1.spaces == s.spaces && s1.mem == s.mem
    && FrameMap(s1.ptes, s1.slots) == Forked(FrameMap(s.ptes, s.slots), to, from, n)
    && TablesForked(s.tables, to, from, n, s1.tables)
  }

  lemma ForkedStep<T>(m: map<Key, T>, to: nat, from: nat, n: nat)
    requires to != from
    ensures Forked(m, to, from, n + 1) ==
      if (from, n) in m then Forked(m, to, from, n)[(to, n) := m[(from, n)]] else Forked(m, to, from, n)
  {
    hide Forked;
    var a := Forked(m, to, from, n + 1);
    var b := if (from, n) in m then Forked(m, to, from, n)[(to, n) := m[(from, n)]] else Forked(m, to, from, n);
    forall k: Key ensures (k in a <==> k in b) && (k in a ==> a[k] == b[k]) {
      if k == (to, n) { ForkedNext(m, to, from, n); } else { ForkedSame(m, to, from, n, k); }
    }
  }

  lemma ForkedNext<T>(m: map<Key, T>, to: nat, from: nat, n: nat)
    ensures (from, n) in m ==> (to, n) in Forked(m, to, from, n + 1) && Forked(m, to, from, n + 1)[(to, n)] == m[(from, n)]
    ensures (from, n) !in m ==> ((to, n) in Forked(m, to, from, n + 1) <==> (to, n) in Forked(m, to, from, n))
    ensures (from, n) !in m && (to, n) in m ==> Forked(m, to, from, n + 1)[(to, n)] == Forked(m, to, from, n)[(to, n)]
    ensures (to, n) in Forked(m, to, from, n) <==> (to, n) in m
  {
  }

  lemma ForkedSame<T>(m: map<Key, T>, to: nat, from: nat, n: nat, k: Key)
    requires k != (to, n)
    ensures k in Forked(m, to, from, n + 1) <==> k in Forked(m, to, from, n)
    ensures k in Forked(m, to, from, n) ==> Forked(m, to, from, n + 1)[k] == Forked(m, to, from, n)[k]
  {
    ForkedLookup(m, to, from, n + 1, k);
    ForkedLookup(m, to, from, n, k);
    hide Forked;
  }

  /** A page of the new space is that of the old one with the same number, when it was copied. */
  lemma ForkedLookup<T>(m: map<Key, T>, to: nat, from: nat, n: nat, k: Key)
    ensures var c := k.0 == to && k.1 < n && (from, k.1) in m;
      (k in Forked(m, to, from, n) <==> c || k in m) &&
      (k in Forked(m, to, from, n) ==> Forked(m, to, from, n)[k] == if c then m[(from, k.1)] else m[k])
  {
  }

  lemma ForkedAt<T>(m: map<Key, T>, to: nat, from: nat, n: nat)
    requires to != from && forall k <- m :: k.0 != to
    ensures (from, n) in Forked(m, to, from, n) <==> (from, n) in m
    ensures (from, n) in m ==> Forked(m, to, from, n)[(from, n)] == m[(from, n)]
    ensures (to, n) !in Forked(m, to, from, n)
  {
  }

  lemma ForkedNone<T>(m: map<Key, T>, to: nat, from: nat)
    ensures Forked(m, to, from, 0) == m
  {
  }

  lemma TablesForkedStep(tables: map<Key, nat>, to: nat, from: nat, n: nat, tables1: map<Key, nat>)
    requires to != from && TablesForked(tables, to, from, n, tables1)
    requires n % TABLE == 0 && (from, n / TABLE) in tables ==> (to, n / TABLE) in tables1
    ensures TablesForked(tables, to, from, n + 1, tables1)
    ensures (from, n / TABLE) in tables ==> (to, n / TABLE) in tables1
  {
    forall g: nat | g * TABLE < n + 1 && (from, g) in tables ensures (to, g) in tables1 {
      if g * TABLE >= n {
        assert g == n / TABLE && n % TABLE == 0;
      }
    }
    assert (n / TABLE) * TABLE <= n;
  }

  lemma {:induction false} ShareUpToInv(s: State, to: nat, from: nat, n: nat)
    requires Inv(s) && to != from && to in s.spaces && n <= SPACE && ShareUpTo(s, to, from, n).Done?
    requires forall k <- s.ptes :: k.0 != to
    ensures SharedUpTo(s, to, from, n, ShareUpTo(s, to, from, n).value)
  {
    hide Inv, Keyed, Forked, FrameMap, ShareOne, EnsureTable;
    if n == 0 {
      ForkedNone(FrameMap(s.ptes, s.slots), to, from);
    } else {
      hide SharedUpTo;
      ShareUpToInv(s, to, from, n - 1);
      ShareStepInv(s, to, from, n - 1, ShareUpTo(s, to, from, n - 1).value);
    }
  }

  /** One more page, with its table made on the first page of each table. */
  lemma ShareStepInv(s: State, to: nat, from: nat, v: nat, s1: State)
    requires to != from && to in s.spaces && v < SPACE && Inv(s)
    requires SharedUpTo(s, to, from, v, s1) && (forall k <- s.ptes :: k.0 != to)
    ensures var r := if v % TABLE == 0 && (from, v / TABLE) in s1.tables then EnsureTable(s1, (to, v / TABLE)) else Done(s1);
      r.Done? && ShareOne(r.value, to, from, v).Done? ==> SharedUpTo(s, to, from, v + 1, ShareOne(r.value, to, from, v).value)
  {
    hide Partition, SpacesOk, TablesOk, MemOk, TlbOk, Distinct, Counted, UserFrames, Forked, FrameMap, TablesForked, Keyed;
    var g := v / TABLE;
    var r := if v % TABLE == 0 && (from, g) in s1.tables then EnsureTable(s1, (to, g)) else Done(s1);
    if r.Done? && ShareOne(r.value, to, from, v).Done? {
      TableStep(s, to, from, v, s1, r.value);
      ForkedStep(FrameMap(s.ptes, s.slots), to, from, v);
      SharedAt(s, to, from, v, s1);
      ShareOneInv(r.value, to, from, v);
    }
  }

  /** The table for page `v` of `to` is there once it is needed. */
  lemma TableStep(s: State, to: nat, from: nat, v: nat, s1: State, s2: State)
    requires to != from && to in s.spaces && SharedUpTo(s, to, from, v, s1) && v < SPACE
    requires if v % TABLE == 0 && (from, v / TABLE) in s1.tables then EnsureTable(s1, (to, v / TABLE)) == Done(s2) else s2 == s1
    ensures Inv(s2) && s2 == s1.(free := s2.free, tables := s2.tables)
    ensures TablesForked(s.tables, to, from, v + 1, s2.tables)
    ensures (from, v / TABLE) in s.tables ==> (to, v / TABLE) in s2.tables
  {
    hide Partition, SpacesOk, TablesOk, MemOk, TlbOk, Distinct, Counted, UserFrames, Forked, FrameMap, Keyed;
    if s2 != s1 {
      EnsureTableInv(s1, (to, v / TABLE));
    }
    TablesForkedStep(s.tables, to, from, v, s2.tables);
  }

  /** Page `v` is still as it was, and not yet mapped for `to`. */
  lemma SharedAt(s: State, to: nat, from: nat, v: nat, s1: State)
    requires to != from && SharedUpTo(s, to, from, v, s1) && (forall k <- s.ptes :: k.0 != to)
    requires Keyed(s.spaces, s.tables, s.ptes)
    ensures (to, v) !in s1.ptes && ((from, v) in s1.ptes <==> (from, v) in s.ptes)
    ensures (from, v) in s.ptes ==> (from, v / TABLE) in s.tables
    ensures (from, v) in s.ptes <==> (from, v) in FrameMap(s.ptes, s.slots)
    ensures (from, v) in s.ptes ==> FrameOf(s1.slots, s1.ptes[(from, v)]) == FrameMap(s.ptes, s.slots)[(from, v)]
  {
    hide Inv, TablesForked, Forked;
    var m, m1 := FrameMap(s.ptes, s.slots), FrameMap(s1.ptes, s1.slots);
    ForkedAt(m, to, from, v);
    assert (from, v) in s1.ptes <==> (from, v) in m1;
    assert (to, v) in s1.ptes <==> (to, v) in m1;
    assert TableKey((from, v)) == (from, v / TABLE);
  }

  lemma CreateInv(s: State, a: nat, brk: nat)
    requires Inv(s) && Create(s, a, brk).Done?
    ensures var s1 := Create(s, a, brk).value;
      && Inv(s1) && a !in s.spaces && s1.spaces == s.spaces[a := s1.spaces[a]]
      && s1 == s.(free := s1.free, kernel := s1.kernel, spaces := s1.spaces)
  {
    hide Partition, TablesOk, MemOk, TlbOk, Distinct, Counted, UserFrames;
    GetKernelPageInv(s);
    var s0 := GetKernelPage(s).value.0;
    GetKernelPageInv(s0);
  }

  /** Nothing is mapped for an unused space id. */
  lemma Unmapped(s: State, a: nat)
    requires Inv(s) && a !in s.spaces
    ensures forall k <- s.ptes :: k.0 != a
    ensures forall t <- s.tables :: t.0 != a
  {
    hide Partition, TablesOk, MemOk, TlbOk, Distinct, Counted, UserFrames;
    forall k <- s.ptes ensures k.0 != a {
      assert TableKey(k) in s.tables;
    }
  }

  lemma ForkInv(s: State, to: nat, from: nat)
    requires Inv(s) && Fork(s, to, from).Done?
    ensures var s1 := Fork(s, to, from).value;
      && Inv(s1) && s1.mem == s.mem && to !in s.spaces && from in s.spaces
      && to in s1.spaces && s1.spaces == s.spaces[to := s1.spaces[to]]
      && FrameMap(s1.ptes, s1.slots) == Forked(FrameMap(s.ptes, s.slots), to, from, SPACE)
  {
    hide Inv, FrameMap, Forked;
    CreateInv(s, to, s.spaces[from].brk);
    var s0 := Create(s, to, s.spaces[from].brk).value;
    Unmapped(s, to);
    ShareUpToInv(s0, to, from, SPACE);
  }

  // ----- Freeing an address space

  /** Releasing one reference changes neither the mappings nor any slot's frame. */
  lemma DeallocKeeps(s: State, p: Pte)
    ensures var s1 := Dealloc(s, p);
      && s1 == s.(free := s1.free, slots := s1.slots, top := s1.top)
      && |s1.slots| == |s.slots| && (forall i :: 0 <= i < |s.slots| ==> s.slots[i].frame == s1.slots[i].frame)
  {
    hide Retreat;
    if p.Shared? && p.slot < |s.slots| && s.top <= |s.slots| {
      var s0 := SetRefs(s, p.slot, s.slots[p.slot].refs - 1);
      assert |s0.slots| == |s.slots| && forall i :: 0 <= i < |s.slots| ==> s.slots[i].frame == s0.slots[i].frame;
      assert Dealloc(s, p).slots == s0.slots;
    }
  }

  lemma DropPteMap(s: State, k: Key)
    ensures var s1 := DropPte(s, k);
      && FrameMap(s1.ptes, s1.slots) == FrameMap(s.ptes, s.slots) - {k}
      && s1.tables == s.tables && s1.spaces == s.spaces && s1.mem == s.mem && s1.kernel == s.kernel
  {
    hide UserFrames, Distinct, FrameMap, Dealloc;
    MapRemove(s.ptes, s.slots, k);
    if k in s.ptes {
      DeallocKeeps(s, s.ptes[k]);
      SameFrames(s.ptes - {k}, s.slots, Dealloc(s, s.ptes[k]).slots);
    }
  }

  lemma MapRemove(ptes: Ptes, slots: seq<Slot>, k: Key)
    ensures FrameMap(ptes - {k}, slots) == FrameMap(ptes, slots) - {k}
    ensures k !in ptes ==> FrameMap(ptes, slots) - {k} == FrameMap(ptes, slots)
  {
  }

  lemma ClearedNone<T>(m: map<Key, T>, a: nat)
    ensures Cleared(m, a, 0) == m
  {
  }

  /** `m` without the pages below `n` of space `a`. */
  function Cleared<T>(m: map<Key, T>, a: nat, n: nat): map<Key, T>
  {
    map k | k in m && !(k.0 == a && k.1 < n) :: m[k]
  }

  ghost predicate FreedUpTo(s: State, a: nat, n: nat, s1: State)
  {
    && Inv(s1) && s1.spaces == s.spaces && s1.mem == s.mem && s1.kernel == s.kernel
    && FrameMap(s1.ptes, s1.slots) == Cleared(FrameMap(s.ptes, s.slots), a, n)
    && NoTables(s1.tables, a, n)
  }

  ghost predicate NoTables(tables: map<Key, nat>, a: nat, n: nat)
  {
    forall g: nat :: (g + 1) * TABLE <= n ==> (a, g) !in tables
  }

  lemma {:induction false} FreeUpToInv(s: State, a: nat, n: nat)
    requires Inv(s)
    ensures FreedUpTo(s, a, n, FreeUpTo(s, a, n))
  {
    hide Inv, FrameMap, Cleared, DropPte, DropTable;
    if n > 0 {
      FreeUpToInv(s, a, n - 1);
      FreeStepInv(s, a, n - 1, FreeUpTo(s, a, n - 1));
    } else {
      ClearedNone(FrameMap(s.ptes, s.slots), a);
    }
  }

  lemma ClearedStep<T>(m: map<Key, T>, a: nat, v: nat)
    ensures Cleared(m, a, v + 1) == Cleared(m, a, v) - {(a, v)}
  {
  }

  lemma FreeStepInv(s: State, a: nat, v: nat, s1: State)
    requires FreedUpTo(s, a, v, s1)
    ensures var s2 := DropPte(s1, (a, v));
      FreedUpTo(s, a, v + 1, if (v + 1) % TABLE == 0 then DropTable(s2, (a, v / TABLE)) else s2)
  {
    PageDropped(s, a, v, s1);
    var s2 := DropPte(s1, (a, v));
    hide Inv, FrameMap, Cleared, DropPte, NoTables, DropTable;
    TablesGone(s1.tables, a, v);
    if (v + 1) % TABLE == 0 {
      NoneMapped(s, a, v, s2);
      DropTableInv(s2, (a, v / TABLE));
      DropTableParts(s2, (a, v / TABLE));
    }
  }

  lemma TablesGone(tables: map<Key, nat>, a: nat, v: nat)
    requires NoTables(tables, a, v)
    ensures NoTables(if (v + 1) % TABLE == 0 then tables - {(a, v / TABLE)} else tables, a, v + 1)
  {}

  lemma DropTableParts(s: State, t: Key)
    ensures var s1 := DropTable(s, t);
      && s1.tables == s.tables - {t} && s1.spaces == s.spaces && s1.mem == s.mem && s1.kernel == s.kernel
      && s1.ptes == s.ptes && s1.slots == s.slots
  {
    if t !in s.tables { assert s.tables - {t} == s.tables; }
  }

  lemma PageDropped(s: State, a: nat, v: nat, s1: State)
    requires FreedUpTo(s, a, v, s1)
    ensures var s2 := DropPte(s1, (a, v));
      && Inv(s2) && s2.spaces == s.spaces && s2.mem == s.mem && s2.kernel == s.kernel && s2.tables == s1.tables
      && FrameMap(s2.ptes, s2.slots) == Cleared(FrameMap(s.ptes, s.slots), a, v + 1)
  {
    hide Inv, FrameMap, Cleared, DropPte;
    DropPteInv(s1, (a, v));
    DropPteMap(s1, (a, v));
    ClearedStep(FrameMap(s.ptes, s.slots), a, v);
  }

  lemma NoneMapped(s: State, a: nat, v: nat, s2: State)
    requires FrameMap(s2.ptes, s2.slots) == Cleared(FrameMap(s.ptes, s.slots), a, v + 1) && (v + 1) % TABLE == 0
    ensures forall k <- s2.ptes :: TableKey(k) != (a, v / TABLE)
  {
    forall k <- s2.ptes ensures TableKey(k) != (a, v / TABLE) {
      assert k in FrameMap(s2.ptes, s2.slots);
    }
  }

  /** Nothing of the space remains: no page, no table, no TLB entry. */
  lemma FreePagesInv(s: State, a: nat)
    requires Inv(s)
    ensures var s1 := FreePages(s, a);
      && Inv(s1) && s1.spaces == s.spaces && s1.mem == s.mem && s1.kernel == s.kernel
      && FrameMap(s1.ptes, s1.slots) == Cleared(FrameMap(s.ptes, s.slots), a, SPACE)
      && (forall k <- s1.ptes :: k.0 != a) && (forall t <- s1.tables :: t.0 != a) && (forall t <- s1.tlb :: t.0 != a)
  {
    hide Partition, SpacesOk, TablesOk, MemOk, Distinct, Counted, UserFrames;
    FreeUpToInv(s, a, SPACE);
    var s1 := FreePages(s, a);
    forall k <- s1.ptes ensures k.0 != a {
      assert k in FrameMap(s1.ptes, s1.slots);
    }
  }

  lemma ExitInv(s: State, a: nat)
    requires Inv(s)
    ensures var s1 := Exit(s, a);
      && Inv(s1) && s1.mem == s.mem && s1.spaces == s.spaces - {a}
      && (a in s.spaces ==> FrameMap(s1.ptes, s1.slots) == Cleared(FrameMap(s.ptes, s.slots), a, SPACE))
  {
    hide Partition, TablesOk, MemOk, TlbOk, Distinct, Counted, UserFrames, FrameMap, Cleared, FreePages;
    if a in s.spaces {
      FreePagesInv(s, a);
      var s1 := FreePages(s, a);
      Move(s1.free, s1.kernel, s1.tables.Values, UserFrames(s1.ptes, s1.slots), s.spaces[a].pgd);
    }
  }

  /** A valid TLB half leads to the page that the entry denotes. */
  lemma TlbHit(s: State, k: Key)
    requires Inv(s) && Pair(k) in s.tlb && HalfAt(s.tlb[Pair(k)], k.1).valid
    ensures var h := HalfAt(s.tlb[Pair(k)], k.1);
      && k in s.ptes && h.frame == FrameOf(s.slots, s.ptes[k]) && (h.dirty <==> s.ptes[k].Private?)
      && h.frame in s.mem && |s.mem[h.frame]| == PAGE_SIZE
  {
    hide Partition, TablesOk, Distinct, Counted, UserFrames, MemOk, Keyed;
    var p := Pair(k);
    assert k == (p.0, 2 * p.1) || k == (p.0, 2 * p.1 + 1);
    Mapped(s, k);
  }

  /** A store through the TLB hits a page of that process alone. */
  lemma StoreInv(s: State, k: Key, off: nat, b: Byte, victims: set<Key>)
    requires Inv(s) && k.0 in s.spaces && k.1 < SPACE && off < PAGE_SIZE && Store(s, k, off, b, victims).Done?
    ensures var (s1, _) := Store(s, k, off, b, victims).value;
      Inv(s1) && s1.spaces == s.spaces
  {
    hide Partition, TablesOk, Distinct, Counted, UserFrames, Fault, TlbModified;
    if Pair(k) !in s.tlb {
      FaultInv(s, k, victims);
    } else {
      var h := HalfAt(s.tlb[Pair(k)], k.1);
      if !h.valid {
        FaultInv(s, k, victims);
      } else if !h.dirty {
        TlbModifiedInv(s, k, victims);
      } else {
        TlbHit(s, k);
        MemUpdate(s.mem, h.frame, s.mem[h.frame][off := b]);
      }
    }
  }

  lemma LoadInv(s: State, k: Key, off: nat, victims: set<Key>)
    requires Inv(s) && k.0 in s.spaces && k.1 < SPACE && off < PAGE_SIZE && Load(s, k, off, victims).Done?
    ensures var (s1, _) := Load(s, k, off, victims).value;
      Inv(s1) && s1.spaces == s.spaces
  {
    hide Inv, Fault;
    if Pair(k) !in s.tlb || !HalfAt(s.tlb[Pair(k)], k.1).valid {
      FaultInv(s, k, victims);
    }
  }

  /** Every step keeps the invariant. */
  lemma StepInv(s: State, op: Op)
    requires Inv(s) && Step(s, op).Done?
    ensures Inv(Step(s, op).value.0)
  {
    hide Inv, Fork, Exit, FreePages, Load, Store, Create, Unmap;
    match op
    case OpCreate(a, brk) => CreateInv(s, a, brk);
    case OpFork(to, from) => ForkInv(s, to, from);
    case OpLoad(k, off, victims) => LoadInv(s, k, off, victims);
    case OpStore(k, off, b, victims) => StoreInv(s, k, off, b, victims);
    case OpUnmap(k) => UnmapInv(s, k);
    case OpFreePages(a) => FreePagesInv(s, a);
    case OpExit(a) => ExitInv(s, a);
    case OpEvict(victims) => TlbShrink(s, victims);
  }

  lemma UnmapInv(s: State, k: Key)
    requires Inv(s)
    ensures Inv(Unmap(s, k))
  {
    hide Inv, DropPte;
    DropPteInv(s, k);
  }

  /** After boot nothing is mapped, and every page is either free or the kernel's. */
  ghost predicate Booted(s: State)
  {
    && s.spaces == map[] && s.tables == map[] && s.ptes == map[] && s.tlb == map[]
    && s.slots == [] && s.top == 0 && !s.slotPage
    && Partition(s.free, s.kernel, {}, {}) && MemOk(s.mem)
  }

  lemma BootInv(s: State)
    requires Booted(s)
    ensures Inv(s)
  {
    assert UserFrames(s.ptes, s.slots) == {};
  }
}
