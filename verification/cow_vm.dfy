/** The virtual-memory code as it runs: fields changed in place, tables walked by loops.
    Every method is proved to compute the transition of the same name in CowModel. */
module CowVm {
  import M = CowModel
  import opened CowInvariant

  type Key = M.Key
  type Result = M.Outcome<()>

  class Vm {
    var mem: map<nat, M.Page>
    var free: set<nat>
    var kernel: set<nat>
    var spaces: map<nat, M.Space>
    var tables: map<Key, nat>
    var ptes: map<Key, M.Pte>
    var slots: seq<M.Slot>
    var top: nat
    var slotPage: bool
    var tlb: map<Key, M.Entry>

    constructor (mem: map<nat, M.Page>, free: set<nat>, kernel: set<nat>)
      ensures St() == M.State(mem, free, kernel, map[], map[], map[], [], 0, false, map[])
    {
      this.mem, this.free, this.kernel := mem, free, kernel;
      spaces, tables, ptes, tlb := map[], map[], map[], map[];
      slots, top, slotPage := [], 0, false;
    }

    /** The abstract state. */
    ghost function St(): M.State
      reads this
    {
      M.State(mem, free, kernel, spaces, tables, ptes, slots, top, slotPage, tlb)
    }

    /** `r` and the present state are what `spec` says; a stuck machine's state does not matter. */
    ghost predicate Does(r: Result, spec: M.Outcome<M.State>)
      reads this
    {
      match spec
      case Done(s) => r == M.Done(()) && St() == s
      case Stuck(why) => r == M.Stuck(why)
    }

    method GetPage() returns (r: M.Outcome<nat>)
      modifies this`free
      ensures match M.GetPage(old(St()))
        case Done(v) => r == M.Done(v.1) && St() == v.0
        case Stuck(why) => r == M.Stuck(why)
    {
      var f := 0;
      while f < M.PAGES && f !in free
        invariant f <= M.PAGES && M.FirstFree(free, f) == M.FirstFree(free, 0)
      {
        f := f + 1;
      }
      if f == M.PAGES {
        return M.Stuck(M.OutOfPages);
      }
      free := free - {f};
      r := M.Done(f);
    }

    method GetKernelPage() returns (r: M.Outcome<nat>)
      modifies this`free, this`kernel
      ensures match M.GetKernelPage(old(St()))
        case Done(v) => r == M.Done(v.1) && St() == v.0
        case Stuck(why) => r == M.Stuck(why)
    {
      var f :- GetPage();
      kernel := kernel + {f};
      r := M.Done(f);
    }

    method PutPage(f: nat)
      modifies this`free
      ensures St() == M.PutPage(old(St()), f)
    {
      free := free + {f};
    }

    // ----- Slots

    method GetShPage() returns (r: M.Outcome<nat>)
      modifies this
      ensures match M.GetShPage(old(St()))
        case Done(v) => r == M.Done(v.1) && St() == v.0
        case Stuck(why) => r == M.Stuck(why)
    {
      var ix := top;
      if !slotPage {
        var _ :- GetKernelPage();
        slotPage, top, slots := true, 0, M.NoSlots();
      }
      if top + 1 > 511 {
        return M.Stuck(M.OutOfSlots);
      }
      top := top + 1;
      r := M.Done(ix);
    }

    method MkSharedPte(frame: nat) returns (r: M.Outcome<nat>)
      modifies this
      ensures match M.MkShared(old(St()), frame)
        case Done(v) => r == M.Done(v.1) && St() == v.0
        case Stuck(why) => r == M.Stuck(why)
    {
      var ix :- GetShPage();
      if ix >= |slots| {
        return M.Stuck(M.OutOfSlots);
      }
      slots := slots[ix := M.Slot(frame, 1)];
      r := M.Done(ix);
    }

    method AddRef(ix: nat, delta: int) returns (refs: int)
      requires ix < |slots|
      modifies this`slots
      ensures St() == M.SetRefs(old(St()), ix, old(slots[ix].refs) + delta) && refs == old(slots[ix].refs) + delta
    {
      refs := slots[ix].refs + delta;
      slots := slots[ix := slots[ix].(refs := refs)];
    }

    method DelSharedPte(ix: nat)
      requires ix < |slots| && top <= |slots|
      modifies this`top
      ensures St() == M.DelShared(old(St()), ix)
    {
      if slots[ix].refs != 0 {
        return;
      }
      while top > 0 && slots[top - 1].refs == 0
        invariant top <= |slots| && M.Retreat(slots, top) == M.Retreat(slots, old(top))
        decreases top
      {
        top := top - 1;
      }
    }

    method DeallocPtePage(p: M.Pte)
      requires p.Shared? ==> p.slot < |slots| && top <= |slots|
      modifies this`free, this`slots, this`top
      ensures St() == M.Dealloc(old(St()), p)
    {
      match p {
        case Private(f) => PutPage(f);
        case Shared(ix) =>
          var frame := slots[ix].frame;
          var refs := AddRef(ix, -1);
          if refs < 1 {
            PutPage(frame);
            DelSharedPte(ix);
          }
      }
    }

    // ----- TLB

    method TlbWrite(k: Key, victims: set<Key>)
      modifies this`tlb
      ensures St() == M.Refill(old(St()), k, victims)
    {
      var lo := M.EntryOf(ptes, slots, M.Pair(k));
      if M.Pair(k) !in tlb {
        tlb := tlb - victims;
      }
      tlb := tlb[M.Pair(k) := lo];
    }

    method FlushTlbPage(k: Key)
      modifies this`tlb
      ensures St() == M.Flush(old(St()), k)
    {
      tlb := tlb - {M.Pair(k)};
    }

    // ----- Faults

    method EnsureTable(t: Key) returns (r: Result)
      modifies this
      ensures Does(r, M.EnsureTable(old(St()), t))
    {
      if t !in tables {
        var f :- GetPage();
        tables := tables[t := f];
      }
      r := M.Done(());
    }

    /** handle_TLBL and handle_TLBS, and the tail of handle_tlb_miss. */
    method HandleFault(k: Key, victims: set<Key>) returns (r: Result)
      modifies this
      ensures Does(r, M.Fault(old(St()), k, victims))
    {
      var _ :- EnsureTable(M.TableKey(k));
      if k !in ptes {
        var p :- GetPage();
        mem := mem[p := M.ZeroPage()];
        ptes := ptes[k := M.Private(p)];
      }
      TlbWrite(k, victims);
      r := M.Done(());
    }

    method HandleTlbMiss(k: Key, off: nat, victims: set<Key>) returns (r: Result)
      modifies this
      ensures Does(r, M.TlbMiss(old(St()), k, off, victims))
    {
      if k.0 !in spaces {
        return M.Stuck(M.NoSpace);
      }
      if !M.InRegion(spaces[k.0], k.1 * M.PAGE_SIZE + off) {
        return M.Stuck(M.Segv);
      }
      r := HandleFault(k, victims);
    }

    /** The last user takes the frame over; any other gets a copy. */
    method UnsharePage(k: Key, ix: nat) returns (r: Result)
      requires ix < |slots| && top <= |slots| && slots[ix].frame in mem
      modifies this
      ensures Does(r, M.Unshare(old(St()), k, ix))
    {
      var frame := slots[ix].frame;
      var refs := AddRef(ix, -1);
      if refs < 1 {
        DelSharedPte(ix);
        ptes := ptes[k := M.Private(frame)];
      } else {
        var p :- GetPage();
        mem := mem[p := mem[frame]];
        ptes := ptes[k := M.Private(p)];
      }
      r := M.Done(());
    }

    method HandleTlb1(k: Key, victims: set<Key>) returns (r: Result)
      requires Inv(St())
      modifies this
      ensures Does(r, M.TlbModified(old(St()), k, victims))
    {
      if M.TableKey(k) !in tables {
        return M.Stuck(M.NoTable);
      }
      if k !in ptes {
        return M.Stuck(M.NoPte);
      }
      if ptes[k].Private? {
        return M.Stuck(M.NotShared);
      }
      hide Inv, M.Unshare, M.Refill;
      SharedSlot(St(), k);
      var _ :- UnsharePage(k, ptes[k].slot);
      TlbWrite(k, victims);
      r := M.Done(());
    }

    method Unmapmem(k: Key)
      requires Inv(St())
      modifies this
      ensures St() == M.Unmap(old(St()), k) && Inv(St())
    {
      hide Keyed, Distinct, Partition, TablesOk, SpacesOk, TlbOk, MemOk, UserFrames, Counted;
      UnmapInv(St(), k);
      if M.TableKey(k) !in tables || k !in ptes {
        return;
      }
      if ptes[k].Shared? {
        Named(slotPage, slots, top, ptes, k);
      }
      DeallocPtePage(ptes[k]);
      ptes := ptes - {k};
      FlushTlbPage(k);
    }

    // ----- Fork

    method ShareAgain(to: nat, from: nat, v: nat) returns (r: Result)
      requires (from, v) in ptes && ptes[(from, v)].Shared? && ptes[(from, v)].slot < |slots|
      modifies this
      ensures Does(r, M.ShareOne(old(St()), to, from, v))
    {
      var p := ptes[(from, v)];
      var _ := AddRef(p.slot, 1);
      ptes := ptes[(to, v) := p];
      FlushTlbPage((to, v));
      r := M.Done(());
    }

    method ShareFirst(to: nat, from: nat, v: nat) returns (r: Result)
      requires (from, v) in ptes && ptes[(from, v)].Private?
      modifies this
      ensures Does(r, M.ShareOne(old(St()), to, from, v))
    {
      hide M.MkShared;
      var ix :- MkSharedPte(ptes[(from, v)].frame);
      if ix >= |slots| {
        return M.Stuck(M.NotShared);
      }
      var _ := AddRef(ix, 1);
      ptes := ptes[(to, v) := M.Shared(ix)][(from, v) := M.Shared(ix)];
      FlushTlbPage((from, v));
      FlushTlbPage((to, v));
      r := M.Done(());
    }

    method SharePage(to: nat, from: nat, v: nat) returns (r: Result)
      requires Inv(St())
      modifies this
      ensures Does(r, M.ShareOne(old(St()), to, from, v))
    {
      if (from, v) !in ptes {
        return M.Done(());
      }
      hide Inv, M.MkShared, M.Flush, M.SetRefs;
      if ptes[(from, v)].Shared? {
        SharedSlot(St(), (from, v));
        r := ShareAgain(to, from, v);
      } else {
        r := ShareFirst(to, from, v);
      }
    }

    /** share_pt_pages: the entries of table `g`, as part of a sharing that began in state `s0`. */
    method SharePtPages(ghost s0: M.State, g: nat, to: nat, from: nat) returns (r: Result)
      requires Inv(s0) && to != from && to in s0.spaces && (forall k <- s0.ptes :: k.0 != to) && g < M.TABLE
      requires M.ShareUpTo(s0, to, from, g * M.TABLE) == M.Done(St()) && (from, g) in tables
      modifies this
      ensures Does(r, M.ShareUpTo(s0, to, from, (g + 1) * M.TABLE))
    {
      hide Inv, SharedUpTo, M.EnsureTable, M.ShareOne;
      var j := 0;
      while j < M.TABLE
        invariant j <= M.TABLE
        invariant M.ShareUpTo(s0, to, from, g * M.TABLE + j) == M.Done(St())
        invariant j == 0 ==> (from, g) in tables
      {
        var v := g * M.TABLE + j;
        TableIndex(g, j);
        ghost var s1 := St();
        if j == 0 {
          r := EnsureTable((to, g));
          if r.Stuck? {
            Propagate(s0, to, from, v + 1, (g + 1) * M.TABLE);
            return;
          }
        }
        SharingState(s0, to, from, v, s1, St());
        r := SharePage(to, from, v);
        if r.Stuck? {
          Propagate(s0, to, from, v + 1, (g + 1) * M.TABLE);
          return;
        }
        j := j + 1;
      }
      r := M.Done(());
    }

    /** share_process_pages, when `to` is a new space with nothing mapped. */
    method ShareProcessPages(to: nat, from: nat) returns (r: Result)
      requires Inv(St()) && to != from && to in spaces && (forall k <- ptes :: k.0 != to)
      modifies this
      ensures Does(r, M.ShareUpTo(old(St()), to, from, M.SPACE))
    {
      hide Inv, M.ShareUpTo;
      ghost var s0 := St();
      var i := 0;
      ShareNone(s0, to, from);
      while i < M.TABLE
        invariant i <= M.TABLE
        invariant M.ShareUpTo(s0, to, from, i * M.TABLE) == M.Done(St())
      {
        if (from, i) in tables {
          r := SharePtPages(s0, i, to, from);
          if r.Stuck? {
            Propagate(s0, to, from, (i + 1) * M.TABLE, M.SPACE);
            return;
          }
        } else {
          ShareSkipTable(s0, to, from, i, St());
        }
        i := i + 1;
      }
      r := M.Done(());
    }

    method CreateUserContext(a: nat, brk: nat) returns (r: Result)
      modifies this
      ensures Does(r, M.Create(old(St()), a, brk))
    {
      if a in spaces {
        return M.Stuck(M.NoSpace);
      }
      var _ :- GetKernelPage();
      var pgd :- GetKernelPage();
      spaces := spaces[a := M.Space(brk, M.U_HEAP_START, pgd)];
      r := M.Done(());
    }

    method Fork(to: nat, from: nat) returns (r: Result)
      requires Inv(St())
      modifies this
      ensures Does(r, M.Fork(old(St()), to, from))
      ensures r.Done? ==> Inv(St())
    {
      hide Inv, M.Create, M.ShareUpTo;
      if from !in spaces {
        return M.Stuck(M.NoSpace);
      }
      ghost var s0 := St();
      if to in spaces {
        assert M.Create(s0, to, spaces[from].brk).Stuck? by { CreateTwice(s0, to, spaces[from].brk); }
      }
      var _ :- CreateUserContext(to, spaces[from].brk);
      CreateInv(s0, to, s0.spaces[from].brk);
      Unmapped(s0, to);
      r := ShareProcessPages(to, from);
      if r.Done? {
        ForkInv(s0, to, from);
      }
    }

    // ----- Release

    /** Releases one entry, leaving it in its table; `q` is any view of the tables that agrees on it. */
    method FreeEntry(k: Key, ghost q: Ptes)
      requires k in ptes <==> k in q
      requires k in ptes ==> ptes[k] == q[k] && (ptes[k].Shared? ==> ptes[k].slot < |slots| && top <= |slots|)
      modifies this`free, this`slots, this`top, this`tlb
      ensures St().(ptes := q - {k}) == M.DropPte(old(St()).(ptes := q), k)
    {
      hide M.Dealloc;
      if k in ptes {
        DeallocApart(St(), q, ptes[k]);
        DeallocPtePage(ptes[k]);
        FlushTlbPage(k);
      } else {
        assert q - {k} == q;
      }
    }

    /** free_asp_pages, one table: its entries first, then the table page with all of them. */
    method FreePt(ghost s0: M.State, i: nat, a: nat)
      requires Inv(s0) && i < M.TABLE && M.FreeUpTo(s0, a, i * M.TABLE) == St() && (a, i) in tables
      modifies this
      ensures St() == M.FreeUpTo(s0, a, (i + 1) * M.TABLE)
    {
      hide Inv, M.FreeUpTo, M.DropPte, Below;
      var j := 0;
      BelowNone(ptes, a, i);
      while j < M.TABLE
        invariant j <= M.TABLE && ptes == old(ptes) && tables == old(tables)
        invariant j < M.TABLE ==> M.FreeUpTo(s0, a, i * M.TABLE + j) == St().(ptes := Below(ptes, a, i, j))
        invariant j == M.TABLE ==> M.FreeUpTo(s0, a, i * M.TABLE + j) == M.DropTable(St().(ptes := Below(ptes, a, i, j)), (a, i))
      {
        TableIndex(i, j);
        BelowStep(ptes, a, i, j);
        FreeStep(s0, a, i, j, St().(ptes := Below(ptes, a, i, j)));
        FreeEntry((a, i * M.TABLE + j), Below(ptes, a, i, j));
        j := j + 1;
      }
      BelowAll(ptes, a, i);
      PutPage(tables[(a, i)]);
      tables := tables - {(a, i)};
      ptes := map k | k in ptes && M.TableKey(k) != (a, i) :: ptes[k];
    }

    method FreeAspPages(a: nat)
      requires Inv(St())
      modifies this
      ensures St() == M.FreePages(old(St()), a) && Inv(St())
    {
      hide Inv;
      ghost var s0 := St();
      var i := 0;
      while i < M.TABLE
        invariant i <= M.TABLE
        invariant M.FreeUpTo(s0, a, i * M.TABLE) == St()
      {
        if (a, i) in tables {
          FreePt(s0, i, a);
        } else {
          FreeUpToInv(s0, a, i * M.TABLE);
          FreeSkip(s0, a, i, M.TABLE, St());
        }
        i := i + 1;
      }
      FreePagesInv(s0, a);
    }

    method ExitSpace(a: nat)
      requires Inv(St()) && a in spaces
      modifies this
      ensures St() == M.Exit(old(St()), a) && Inv(St())
    {
      hide Inv, M.FreePages;
      ExitInv(St(), a);
      FreePagesInv(St(), a);
      FreeAspPages(a);
      PutPage(spaces[a].pgd);
      kernel := kernel - {spaces[a].pgd};
      spaces := spaces - {a};
    }
  }

  /** `ptes` without the first `j` entries of table `i` of space `a`. */
  function Below(ptes: Ptes, a: nat, i: nat, j: nat): Ptes
  {
    map k | k in ptes && !(k.0 == a && i * M.TABLE <= k.1 < i * M.TABLE + j) :: ptes[k]
  }

  lemma BelowNone(ptes: Ptes, a: nat, i: nat)
    ensures Below(ptes, a, i, 0) == ptes
  {
  }

  lemma BelowAll(ptes: Ptes, a: nat, i: nat)
    ensures Below(ptes, a, i, M.TABLE) == map k | k in ptes && M.TableKey(k) != (a, i) :: ptes[k]
  {
  }

  lemma BelowStep(ptes: Ptes, a: nat, i: nat, j: nat)
    ensures Below(ptes, a, i, j + 1) == Below(ptes, a, i, j) - {(a, i * M.TABLE + j)}
    ensures var k := (a, i * M.TABLE + j); (k in ptes <==> k in Below(ptes, a, i, j)) && (k in ptes ==> Below(ptes, a, i, j)[k] == ptes[k])
  {
  }

  /** Releasing a page does not depend on the table entries. */
  lemma DeallocApart(s: M.State, q: Ptes, p: M.Pte)
    ensures M.Dealloc(s.(ptes := q), p) == M.Dealloc(s, p).(ptes := q)
  {
    hide M.Retreat;
    if p.Shared? && p.slot < |s.slots| && s.top <= |s.slots| {
      var s1 := M.SetRefs(s, p.slot, s.slots[p.slot].refs - 1);
      assert M.SetRefs(s.(ptes := q), p.slot, s.slots[p.slot].refs - 1) == s1.(ptes := q);
      if s1.slots[p.slot].refs < 1 {
        assert M.Dealloc(s, p) == M.DelShared(M.PutPage(s1, s.slots[p.slot].frame), p.slot);
      }
    }
  }

  /** One step of FreeUpTo with its slots in range. */
  lemma FreeStep(s0: M.State, a: nat, i: nat, j: nat, s1: M.State)
    requires Inv(s0) && M.FreeUpTo(s0, a, i * M.TABLE + j) == s1 && j < M.TABLE
    ensures M.FreeUpTo(s0, a, i * M.TABLE + (j + 1)) ==
      var s2 := M.DropPte(s1, (a, i * M.TABLE + j)); if j + 1 == M.TABLE then M.DropTable(s2, (a, i)) else s2
    ensures var k := (a, i * M.TABLE + j);
      k in s1.ptes && s1.ptes[k].Shared? ==> s1.ptes[k].slot < |s1.slots| && s1.top <= |s1.slots|
  {
    hide Inv, FreedUpTo, M.FreeUpTo, M.DropPte, M.DropTable;
    var n := i * M.TABLE + j;
    FreeUpToInv(s0, a, n);
    FreedInv(s0, a, n, s1);
    TableIndex(i, j);
    TableEnds(i, j);
    FreeNext(s0, a, n);
    if (a, n) in s1.ptes && s1.ptes[(a, n)].Shared? { SharedSlot(s1, (a, n)); }
  }

  lemma TableEnds(i: nat, j: nat)
    requires j < M.TABLE
    ensures (i * M.TABLE + j + 1) % M.TABLE == 0 <==> j + 1 == M.TABLE
  {}

  lemma FreedInv(s: M.State, a: nat, n: nat, s1: M.State)
    requires FreedUpTo(s, a, n, s1)
    ensures Inv(s1)
  {
    hide Inv;
  }

  lemma FreeNext(s0: M.State, a: nat, n: nat)
    ensures M.FreeUpTo(s0, a, n + 1) ==
      var s2 := M.DropPte(M.FreeUpTo(s0, a, n), (a, n)); if (n + 1) % M.TABLE == 0 then M.DropTable(s2, (a, n / M.TABLE)) else s2
  {
    hide M.DropPte, M.DropTable;
  }

  lemma NoEntry(s: M.State, a: nat, i: nat, j: nat)
    requires Inv(s) && (a, i) !in s.tables && j < M.TABLE
    ensures (a, i * M.TABLE + j) !in s.ptes
  {
    hide Distinct, Partition, TablesOk, SpacesOk, TlbOk, MemOk, Counted;
    TableIndex(i, j);
    assert M.TableKey((a, i * M.TABLE + j)) == (a, i);
  }

  /** A table that `from` lacks has no entries, so sharing passes over it. */
  lemma {:induction false} ShareSkip(s0: M.State, to: nat, from: nat, i: nat, j: nat, s1: M.State)
    requires M.ShareUpTo(s0, to, from, i * M.TABLE) == M.Done(s1) && (from, i) !in s1.tables && Inv(s1) && j <= M.TABLE
    ensures M.ShareUpTo(s0, to, from, i * M.TABLE + j) == M.Done(s1)
    decreases j
  {
    hide *;
    if j > 0 {
      ShareSkip(s0, to, from, i, j - 1, s1);
      TableIndex(i, j - 1);
      NoEntry(s1, from, i, j - 1);
      ShareOver(s0, to, from, i * M.TABLE + (j - 1), s1);
    }
  }

  /** One page that is passed over. */
  lemma ShareOver(s0: M.State, to: nat, from: nat, n: nat, s1: M.State)
    requires M.ShareUpTo(s0, to, from, n) == M.Done(s1) && (from, n / M.TABLE) !in s1.tables && (from, n) !in s1.ptes
    ensures M.ShareUpTo(s0, to, from, n + 1) == M.Done(s1)
  {
    hide M.EnsureTable, M.MkShared, M.SetRefs, M.Flush;
  }

  lemma ShareNone(s: M.State, to: nat, from: nat)
    ensures M.ShareUpTo(s, to, from, 0) == M.Done(s)
  {
  }

  lemma ShareSkipTable(s0: M.State, to: nat, from: nat, i: nat, s1: M.State)
    requires Inv(s0) && to != from && to in s0.spaces && (forall k <- s0.ptes :: k.0 != to) && i < M.TABLE
    requires M.ShareUpTo(s0, to, from, i * M.TABLE) == M.Done(s1) && (from, i) !in s1.tables
    ensures M.ShareUpTo(s0, to, from, (i + 1) * M.TABLE) == M.Done(s1)
  {
    hide Inv, M.ShareUpTo, FrameMap, Forked, TablesForked;
    ShareUpToInv(s0, to, from, i * M.TABLE);
    ShareSkip(s0, to, from, i, M.TABLE, s1);
  }

  /** A missing table has nothing to release. */
  lemma {:induction false} FreeSkip(s0: M.State, a: nat, i: nat, j: nat, s1: M.State)
    requires M.FreeUpTo(s0, a, i * M.TABLE) == s1 && (a, i) !in s1.tables && Inv(s1) && j <= M.TABLE
    ensures M.FreeUpTo(s0, a, i * M.TABLE + j) == s1
    decreases j
  {
    hide Inv, M.Dealloc, M.PutPage;
    if j > 0 {
      FreeSkip(s0, a, i, j - 1, s1);
      TableIndex(i, j - 1);
      NoEntry(s1, a, i, j - 1);
    }
  }

  lemma CreateTwice(s: M.State, a: nat, brk: nat)
    requires a in s.spaces
    ensures M.Create(s, a, brk) == M.Stuck(M.NoSpace)
  {
  }

  lemma TableIndex(g: nat, j: nat)
    requires j < M.TABLE
    ensures (g * M.TABLE + j) / M.TABLE == g && (g * M.TABLE + j) % M.TABLE == j
  {
  }

  lemma SharedSlot(s: M.State, k: Key)
    requires Inv(s) && k in s.ptes && s.ptes[k].Shared?
    ensures var ix := s.ptes[k].slot; ix < |s.slots| && s.top <= |s.slots| && s.slots[ix].frame in s.mem
  {
    Named(s.slotPage, s.slots, s.top, s.ptes, k);
    Mapped(s, k);
  }

  /** Once sharing is stuck it stays stuck. */
  lemma {:induction false} Propagate(s: M.State, to: nat, from: nat, n: nat, m: nat)
    requires n <= m && M.ShareUpTo(s, to, from, n).Stuck?
    ensures M.ShareUpTo(s, to, from, m) == M.Stuck(M.ShareUpTo(s, to, from, n).why)
    decreases m
  {
    if n < m {
      Propagate(s, to, from, n, m - 1);
    }
  }

  /** Before page `v` is shared the invariant holds and `to` has nothing there. */
  lemma SharingState(s0: M.State, to: nat, from: nat, v: nat, s1: M.State, s2: M.State)
    requires Inv(s0) && to != from && to in s0.spaces && (forall k <- s0.ptes :: k.0 != to) && v < M.SPACE
    requires M.ShareUpTo(s0, to, from, v) == M.Done(s1)
    requires if v % M.TABLE == 0 && (from, v / M.TABLE) in s1.tables then M.EnsureTable(s1, (to, v / M.TABLE)) == M.Done(s2) else s2 == s1
    ensures Inv(s2) && (to, v) !in s2.ptes
  {
    ShareUpToInv(s0, to, from, v);
    TableStep(s0, to, from, v, s1, s2);
    SharedAt(s0, to, from, v, s1);
  }
}
