/** What making and forking a process takes: pages, slots and tables, and what the new process may use. */
module CowFork {
  import opened CowModel
  import opened CowInvariant
  import opened CowRefinement
  import opened CowAccess

  // ----- A new space

  lemma KernelTaken(s: State)
    requires InMemory(s.free) && s.free !! s.kernel
    ensures GetKernelPage(s).Done? <==> |s.free| > 0
    ensures GetKernelPage(s).Done? ==> var (s1, f) := GetKernelPage(s).value;
      && s1 == s.(free := s.free - {f}, kernel := s.kernel + {f}) && f in s.free && |s1.free| == |s.free| - 1
  {
    PageTaken(s);
    hide InMemory;
  }

  lemma FreeApart(s: State)
    requires Inv(s)
    ensures InMemory(s.free) && s.free !! s.kernel
  {
    FreeInMemory(s);
    hide Keyed, Counted, Distinct, TablesOk, SpacesOk, TlbOk, MemOk;
  }

  /** A space is made exactly if its number is unused and two pages are free, for its directory and for the kernel. It
      starts with the stack, the program and the heap up to the break that is asked for, and nothing is mapped. */
  lemma CreateTakes(s: State, a: nat, brk: nat)
    requires Inv(s)
    ensures Create(s, a, brk).Done? <==> a !in s.spaces && |s.free| >= 2
    ensures Create(s, a, brk).Done? ==> var s1 := Create(s, a, brk).value;
      && |s1.free| == |s.free| - 2 && s1.free < s.free && s1.kernel == s.kernel + (s.free - s1.free)
      && a in s1.spaces && s1.spaces == s.spaces[a := s1.spaces[a]] && s1.spaces[a].pgd in s.free
      && (forall k <- s1.ptes :: k.0 != a)
      && forall addr: nat :: Legal(s1.spaces[a], addr) <==>
          0x7000_0000 <= addr < 0x8000_0000 || 0x1000_0000 <= addr < brk || 0x1000 <= addr < 0x0100_0000
  {
    hide *;
    FreeApart(s);
    TwoTaken(s);
    CreateIs(s, a, brk);
    if Create(s, a, brk).Done? {
      Unmapped(s, a);
      NewLegal(brk, TwoPages(s).value.1);
    }
  }

  /** Two pages for the kernel; the second is the directory. */
  function TwoPages(s: State): Outcome<(State, nat)>
  {
    var (s1, _) :- GetKernelPage(s);
    GetKernelPage(s1)
  }

  lemma CreateIs(s: State, a: nat, brk: nat)
    ensures Create(s, a, brk).Done? <==> a !in s.spaces && TwoPages(s).Done?
    ensures Create(s, a, brk).Done? ==> var (s2, pgd) := TwoPages(s).value;
      Create(s, a, brk).value == s2.(spaces := s2.spaces[a := Space(brk, 0x1000_0000, pgd)])
  {
    hide GetKernelPage;
  }

  lemma TwoTaken(s: State)
    requires InMemory(s.free) && s.free !! s.kernel
    ensures TwoPages(s).Done? <==> |s.free| >= 2
    ensures TwoPages(s).Done? ==> var (s2, pgd) := TwoPages(s).value;
      && s2 == s.(free := s2.free, kernel := s2.kernel) && |s2.free| == |s.free| - 2 && s2.free < s.free
      && s2.kernel == s.kernel + (s.free - s2.free) && pgd in s.free
  {
    hide InMemory, GetKernelPage;
    KernelTaken(s);
    if |s.free| > 0 {
      var s0 := GetKernelPage(s).value.0;
      StillInMemory(s.free, s0.free);
      KernelTaken(s0);
    }
  }

  lemma NewLegal(brk: nat, pgd: nat)
    ensures forall addr: nat :: Legal(Space(brk, 0x1000_0000, pgd), addr) <==>
      0x7000_0000 <= addr < 0x8000_0000 || 0x1000_0000 <= addr < brk || 0x1000 <= addr < 0x0100_0000
  {}

  lemma StillInMemory(free: set<nat>, free1: set<nat>)
    requires InMemory(free) && free1 <= free
    ensures InMemory(free1)
  {}

  // ----- What a fork counts

  /** The page tables of `from` for the pages below `n`, and its private pages below `n`. */
  function TablesBelow(s: State, from: nat, n: nat): set<Key> { set t | t in s.tables && t.0 == from && t.1 * 1024 < n }

  function PrivateBelow(s: State, from: nat, n: nat): set<Key> { set k | k in s.ptes && k.0 == from && k.1 < n && s.ptes[k].Private? }

  lemma TablesNext(s: State, from: nat, n: nat)
    ensures |TablesBelow(s, from, n + 1)| ==
      |TablesBelow(s, from, n)| + if n % 1024 == 0 && (from, n / 1024) in s.tables then 1 else 0
  {
    var t := (from, n / 1024);
    if n % 1024 == 0 && t in s.tables {
      assert TablesBelow(s, from, n + 1) == TablesBelow(s, from, n) + {t};
    } else {
      assert TablesBelow(s, from, n + 1) == TablesBelow(s, from, n);
    }
  }

  lemma PrivateNext(s: State, from: nat, n: nat)
    ensures |PrivateBelow(s, from, n + 1)| ==
      |PrivateBelow(s, from, n)| + if (from, n) in s.ptes && s.ptes[(from, n)].Private? then 1 else 0
  {
    var k := (from, n);
    if k in s.ptes && s.ptes[k].Private? {
      assert PrivateBelow(s, from, n + 1) == PrivateBelow(s, from, n) + {k};
    } else {
      assert PrivateBelow(s, from, n + 1) == PrivateBelow(s, from, n);
    }
  }

  /** The pages that sharing takes: one for each table, and one for the slots if there are none yet. */
  function SharePages(s: State, from: nat, n: nat): nat
  {
    |TablesBelow(s, from, n)| + if !s.slotPage && PrivateBelow(s, from, n) != {} then 1 else 0
  }

  /** The slot index afterwards: every private page takes a slot. */
  function ShareSlots(s: State, from: nat, n: nat): nat { (if s.slotPage then s.top else 0) + |PrivateBelow(s, from, n)| }

  predicate Enough(s: State, from: nat, n: nat)
  {
    |s.free| >= SharePages(s, from, n) && (PrivateBelow(s, from, n) != {} ==> ShareSlots(s, from, n) <= 511)
  }

  /** The state when the pages below `n` are shared, as far as it matters for the next page. */
  ghost predicate Partly(s: State, to: nat, from: nat, n: nat, s1: State)
  {
    && Inv(s1) && s1.spaces == s.spaces && |s1.free| == |s.free| - SharePages(s, from, n)
    && s1.slotPage == (s.slotPage || PrivateBelow(s, from, n) != {}) && (s1.slotPage ==> s1.top == ShareSlots(s, from, n))
    && (forall v: nat :: v >= n ==> ((from, v) in s1.ptes <==> (from, v) in s.ptes))
    && (forall v: nat :: v >= n && (from, v) in s.ptes ==> s1.ptes[(from, v)] == s.ptes[(from, v)])
    && (forall g: nat :: (from, g) in s1.tables <==> (from, g) in s.tables)
    && (forall g: nat :: (to, g) in s1.tables ==> g * 1024 < n)
  }

  lemma SlotsTaken(s: State)
    requires InMemory(s.free) && s.free !! s.kernel
    ensures EnsureSlots(s).Done? <==> s.slotPage || |s.free| > 0
    ensures EnsureSlots(s).Done? ==> var s1 := EnsureSlots(s).value;
      && s1.slotPage && (s.slotPage ==> s1 == s) && |s1.free| == |s.free| - (if s.slotPage then 0 else 1)
      && (!s.slotPage ==> s1.top == 0 && |s1.slots| == 512)
      && s1 == s.(free := s1.free, kernel := s1.kernel, slotPage := s1.slotPage, top := s1.top, slots := s1.slots)
  {
    hide GetKernelPage, InMemory;
    KernelTaken(s);
  }

  /** A slot is taken as long as the index stays below 511. */
  lemma MkTaken(s: State, f: nat)
    requires InMemory(s.free) && s.free !! s.kernel && if s.slotPage then |s.slots| == 512 else s.top == 0
    ensures MkShared(s, f).Done? <==> (s.slotPage || |s.free| > 0) && (if s.slotPage then s.top else 0) + 1 <= 511
    ensures MkShared(s, f).Done? ==> var (s1, ix) := MkShared(s, f).value;
      && s1.slotPage && s1.top == (if s.slotPage then s.top else 0) + 1 && |s1.slots| == 512 && ix == s1.top - 1
      && s1.slots[ix].refs == 1
      && |s1.free| == |s.free| - (if s.slotPage then 0 else 1)
      && s1 == s.(free := s1.free, kernel := s1.kernel, slotPage := s1.slotPage, top := s1.top, slots := s1.slots)
  {
    hide InMemory, EnsureSlots;
    SlotsTaken(s);
  }

  /** No entry has changed but those of page `v`. */
  ghost predicate OnlyPage(ptes: Ptes, ptes1: Ptes, to: nat, from: nat, v: nat)
  {
    forall k: Key :: k != (to, v) && k != (from, v) ==> (k in ptes1 <==> k in ptes) && (k in ptes ==> ptes1[k] == ptes[k])
  }

  /** Sharing one private page takes a slot. */
  lemma PrivateTakes(s: State, to: nat, from: nat, v: nat)
    requires Inv(s) && (from, v) in s.ptes && s.ptes[(from, v)].Private?
    ensures var r := ShareOne(s, to, from, v);
      r.Done? <==> (s.slotPage || |s.free| > 0) && (if s.slotPage then s.top else 0) + 1 <= 511
    ensures ShareOne(s, to, from, v).Done? ==> var s1 := ShareOne(s, to, from, v).value;
      && s1.slotPage && s1.top == (if s.slotPage then s.top else 0) + 1 && |s1.free| == |s.free| - (if s.slotPage then 0 else 1)
      && s1.tables == s.tables && s1.spaces == s.spaces && OnlyPage(s.ptes, s1.ptes, to, from, v)
  {
    hide Inv, InMemory, MkShared;
    FreeApart(s);
    SlotSize(s);
    MkTaken(s, s.ptes[(from, v)].frame);
  }

  /** Sharing a page that is shared already takes nothing. */
  lemma SharedTakes(s: State, to: nat, from: nat, v: nat)
    requires Inv(s) && !((from, v) in s.ptes && s.ptes[(from, v)].Private?)
    ensures ShareOne(s, to, from, v).Done? && var s1 := ShareOne(s, to, from, v).value;
      && s1.slotPage == s.slotPage && s1.top == s.top && s1.free == s.free
      && s1.tables == s.tables && s1.spaces == s.spaces && OnlyPage(s.ptes, s1.ptes, to, from, v)
  {
    hide Inv, InMemory, Flush;
    if (from, v) in s.ptes {
      SlotHas(s, (from, v));
      Flushed();
    }
  }

  lemma Flushed()
    ensures forall s: State, k: Key :: Flush(s, k) == s.(tlb := Flush(s, k).tlb)
  {}

  lemma SlotSize(s: State)
    requires Inv(s)
    ensures if s.slotPage then |s.slots| == 512 && s.top <= 512 else s.top == 0
  {
    hide Keyed, Distinct, Partition, TablesOk, SpacesOk, TlbOk, MemOk;
  }

  /** Whether page `v` begins a table of `from`, and whether it is private. */
  predicate NewTable(s: State, from: nat, v: nat) { v % 1024 == 0 && (from, v / 1024) in s.tables }

  predicate IsPrivate(s: State, from: nat, v: nat) { (from, v) in s.ptes && s.ptes[(from, v)].Private? }

  function One(b: bool): nat { if b then 1 else 0 }

  lemma CountsNext(s: State, from: nat, n: nat)
    ensures |TablesBelow(s, from, n + 1)| == |TablesBelow(s, from, n)| + One(NewTable(s, from, n))
    ensures |PrivateBelow(s, from, n + 1)| == |PrivateBelow(s, from, n)| + One(IsPrivate(s, from, n))
  {
    hide TablesBelow, PrivateBelow;
    TablesNext(s, from, n);
    PrivateNext(s, from, n);
  }

  /** The counts as numbers. */
  lemma PagesOf(s: State, from: nat, n: nat)
    ensures SharePages(s, from, n) == |TablesBelow(s, from, n)| + One(!s.slotPage && |PrivateBelow(s, from, n)| > 0)
    ensures ShareSlots(s, from, n) == (if s.slotPage then s.top else 0) + |PrivateBelow(s, from, n)|
    ensures Enough(s, from, n) <==>
      |s.free| >= SharePages(s, from, n) && (|PrivateBelow(s, from, n)| > 0 ==> ShareSlots(s, from, n) <= 511)
    ensures PrivateBelow(s, from, n) != {} <==> |PrivateBelow(s, from, n)| > 0
  {
    hide TablesBelow, PrivateBelow;
  }

  function WithTable(s1: State, to: nat, from: nat, v: nat): Outcome<State>
  {
    if v % TABLE == 0 && (from, v / TABLE) in s1.tables then EnsureTable(s1, (to, v / TABLE)) else Done(s1)
  }

  /** The table of the page. */
  lemma TablePart(s: State, to: nat, from: nat, v: nat, s1: State)
    requires Inv(s) && Partly(s, to, from, v, s1) && to != from && to in s.spaces && v < SPACE
    ensures WithTable(s1, to, from, v).Done? <==> |s1.free| >= One(NewTable(s, from, v))
    ensures WithTable(s1, to, from, v).Done? ==> var s2 := WithTable(s1, to, from, v).value;
      && Inv(s2) && s2 == s1.(free := s2.free, tables := s2.tables) && |s2.free| == |s1.free| - One(NewTable(s, from, v))
      && (forall g: nat :: (from, g) in s2.tables <==> (from, g) in s.tables)
      && (forall g: nat :: (to, g) in s2.tables ==> g * 1024 < v + 1)
  {
    hide Inv, InMemory, EnsureTable, SharePages, ShareSlots, TablesBelow, PrivateBelow;
    var t := (to, v / 1024);
    FreeInMemory(s1);
    TableTaken(s1, t);
    if NewTable(s, from, v) {
      assert v / 1024 * 1024 == v;
      assert t !in s1.tables;
      if EnsureTable(s1, t).Done? {
        EnsureTableInv(s1, t);
        OneTable(s1, t);
      }
    }
  }

  lemma OneTable(s: State, t: Key)
    requires EnsureTable(s, t).Done?
    ensures forall u: Key :: u in EnsureTable(s, t).value.tables <==> u in s.tables || u == t
  {
    hide GetPage;
    if t !in s.tables { assert GetPage(s).Done?; GetKeeps(s); }
  }

  lemma GetKeeps(s: State)
    ensures GetPage(s).Done? ==> GetPage(s).value.0.tables == s.tables
  {
    hide FirstFree;
  }

  /** The page itself. */
  lemma PagePart(s: State, to: nat, from: nat, v: nat)
    requires Inv(s)
    ensures ShareOne(s, to, from, v).Done? <==>
      (IsPrivate(s, from, v) ==> |s.free| >= One(!s.slotPage) && (if s.slotPage then s.top else 0) + 1 <= 511)
    ensures ShareOne(s, to, from, v).Done? ==> var s1, p := ShareOne(s, to, from, v).value, IsPrivate(s, from, v);
      && s1.slotPage == (s.slotPage || p) && |s1.free| == |s.free| - One(!s.slotPage && p)
      && (s1.slotPage ==> s1.top == (if s.slotPage then s.top else 0) + One(p))
      && s1.tables == s.tables && s1.spaces == s.spaces && OnlyPage(s.ptes, s1.ptes, to, from, v)
  {
    hide Inv, ShareOne, OnlyPage;
    if IsPrivate(s, from, v) { PrivateTakes(s, to, from, v); } else { SharedTakes(s, to, from, v); }
  }

  /** One page more, with its table. */
  lemma PartlyNext(s: State, to: nat, from: nat, v: nat, s1: State)
    requires Inv(s) && Partly(s, to, from, v, s1) && to != from && to in s.spaces && v < SPACE && Enough(s, from, v)
    requires (forall k <- s.ptes :: k.0 != to) && SharedUpTo(s, to, from, v, s1)
    ensures var r := WithTable(s1, to, from, v);
      && (r.Done? && ShareOne(r.value, to, from, v).Done? <==> Enough(s, from, v + 1))
      && (r.Done? && ShareOne(r.value, to, from, v).Done? ==> Partly(s, to, from, v + 1, ShareOne(r.value, to, from, v).value))
  {
    hide Inv, ShareOne, OnlyPage, WithTable, SharedUpTo, Enough, TablesBelow, PrivateBelow, SharePages, ShareSlots, Partly;
    CountsNext(s, from, v);
    PagesOf(s, from, v);
    PagesOf(s, from, v + 1);
    PartlyFacts(s, to, from, v, s1);
    TablePart(s, to, from, v, s1);
    var r := WithTable(s1, to, from, v);
    if r.Done? {
      PagePart(r.value, to, from, v);
      if ShareOne(r.value, to, from, v).Done? { PartlyMore(s, to, from, v, s1, r.value, ShareOne(r.value, to, from, v).value); }
    }
  }

  lemma PartlyFacts(s: State, to: nat, from: nat, v: nat, s1: State)
    requires Partly(s, to, from, v, s1)
    ensures |s1.free| == |s.free| - SharePages(s, from, v) && s1.slotPage == (s.slotPage || PrivateBelow(s, from, v) != {})
    ensures s1.slotPage ==> s1.top == ShareSlots(s, from, v)
    ensures IsPrivate(s1, from, v) == IsPrivate(s, from, v)
  {
    hide Inv, SharePages, ShareSlots, PrivateBelow;
  }

  lemma PartlyMore(s: State, to: nat, from: nat, v: nat, s1: State, s2: State, s3: State)
    requires Inv(s) && Partly(s, to, from, v, s1) && to != from && to in s.spaces && v < SPACE
    requires (forall k <- s.ptes :: k.0 != to) && SharedUpTo(s, to, from, v, s1)
    requires WithTable(s1, to, from, v) == Done(s2) && ShareOne(s2, to, from, v) == Done(s3)
    requires |s3.free| == |s.free| - SharePages(s, from, v + 1) && s3.slotPage == (s.slotPage || PrivateBelow(s, from, v + 1) != {})
    requires s3.slotPage ==> s3.top == ShareSlots(s, from, v + 1)
    ensures Partly(s, to, from, v + 1, s3)
  {
    hide Inv, ShareOne, SharedUpTo, SharePages, ShareSlots, PrivateBelow, TablesBelow;
    ShareStepInv(s, to, from, v, s1);
    SharedInv(s, to, from, v + 1, s3);
    TablePart(s, to, from, v, s1);
    PagePart(s2, to, from, v);
  }

  lemma SharedInv(s: State, to: nat, from: nat, n: nat, s1: State)
    requires SharedUpTo(s, to, from, n, s1)
    ensures Inv(s1)
  {
    hide Inv;
  }

  /** Sharing the pages below `n` goes through exactly if there are enough pages and slots. */
  lemma {:induction false} ShareTakes(s: State, to: nat, from: nat, n: nat)
    requires Inv(s) && to != from && to in s.spaces && n <= SPACE && (forall k <- s.ptes :: k.0 != to) && (forall t <- s.tables :: t.0 != to)
    ensures ShareUpTo(s, to, from, n).Done? <==> Enough(s, from, n)
    ensures ShareUpTo(s, to, from, n).Done? ==> Partly(s, to, from, n, ShareUpTo(s, to, from, n).value)
  {
    hide Inv, ShareOne, EnsureTable, Partly, Enough, ShareUpTo, SharedUpTo, WithTable;
    ShareUnfold(s, to, from, n);
    if n == 0 {
      PartlyNone(s, to, from);
    } else {
      ShareTakes(s, to, from, n - 1);
      EnoughBefore(s, from, n - 1);
      if ShareUpTo(s, to, from, n - 1).Done? {
        ShareUpToInv(s, to, from, n - 1);
        PartlyNext(s, to, from, n - 1, ShareUpTo(s, to, from, n - 1).value);
      }
    }
  }

  lemma ShareUnfold(s: State, to: nat, from: nat, n: nat)
    ensures n == 0 ==> ShareUpTo(s, to, from, n) == Done(s)
    ensures n > 0 ==> var r := ShareUpTo(s, to, from, n - 1);
      && (ShareUpTo(s, to, from, n).Done? ==> r.Done?)
      && (r.Done? ==> var t := WithTable(r.value, to, from, n - 1);
           && (ShareUpTo(s, to, from, n).Done? <==> t.Done? && ShareOne(t.value, to, from, n - 1).Done?)
           && (ShareUpTo(s, to, from, n).Done? ==> ShareUpTo(s, to, from, n) == ShareOne(t.value, to, from, n - 1)))
  {
    hide ShareOne, EnsureTable;
  }

  lemma EnoughBefore(s: State, from: nat, n: nat)
    ensures Enough(s, from, n + 1) ==> Enough(s, from, n)
  {
    hide TablesBelow, PrivateBelow, SharePages, ShareSlots, Enough;
    CountsNext(s, from, n);
    PagesOf(s, from, n);
    PagesOf(s, from, n + 1);
  }

  lemma PartlyNone(s: State, to: nat, from: nat)
    requires Inv(s) && (forall t <- s.tables :: t.0 != to)
    ensures Enough(s, from, 0) && Partly(s, to, from, 0, s)
  {
    assert TablesBelow(s, from, 0) == {} && PrivateBelow(s, from, 0) == {};
    hide Inv;
  }

  /** All tables and all private pages of a space. */
  function TablesOf(s: State, a: nat): set<Key> { set t | t in s.tables && t.0 == a }

  function PrivateOf(s: State, a: nat): set<Key> { set k | k in s.ptes && k.0 == a && s.ptes[k].Private? }

  lemma AllBelow(s: State, a: nat)
    requires Inv(s)
    ensures TablesBelow(s, a, SPACE) == TablesOf(s, a) && PrivateBelow(s, a, SPACE) == PrivateOf(s, a)
  {
    hide Counted, Distinct, Partition, TablesOk, SpacesOk, TlbOk, MemOk;
  }

  /** A fork goes through if and only if the parent lives, the number of the child is unused, there are free pages
      for two pages of the kernel, a table for each of the parent's and, on the first sharing of all, the page of the
      slots, and there is a slot for each private page of the parent. */
  lemma ForkGoes(s: State, to: nat, from: nat)
    requires Inv(s)
    ensures Fork(s, to, from).Done? <==>
      && from in s.spaces && to !in s.spaces
      && |s.free| >= 2 + |TablesOf(s, from)| + One(!s.slotPage && PrivateOf(s, from) != {})
      && (PrivateOf(s, from) != {} ==> (if s.slotPage then s.top else 0) + |PrivateOf(s, from)| <= 511)
  {
    hide Inv, Create, ShareUpTo, TablesOf, PrivateOf, SharePages, ShareSlots;
    if from in s.spaces {
      var brk := s.spaces[from].brk;
      CreateTakes(s, to, brk);
      if Create(s, to, brk).Done? {
        var s1 := Create(s, to, brk).value;
        CreateInv(s, to, brk);
        Unmapped(s, to);
        ShareTakes(s1, to, from, SPACE);
        SameCounts(s, s1, from);
        AllBelow(s, from);
        PagesOf(s1, from, SPACE);
      }
    }
  }

  lemma SameCounts(s: State, s1: State, from: nat)
    requires s1 == s.(free := s1.free, kernel := s1.kernel, spaces := s1.spaces)
    ensures TablesBelow(s1, from, SPACE) == TablesBelow(s, from, SPACE) && PrivateBelow(s1, from, SPACE) == PrivateBelow(s, from, SPACE)
  {}

  /** The child may use the stack, the program, and the heap up to the break of its parent. */
  lemma ForkLegal(s: State, to: nat, from: nat, addr: nat)
    requires Inv(s) && Fork(s, to, from).Done?
    ensures var s1 := Fork(s, to, from).value;
      && from in s.spaces && to in s1.spaces
      && (Legal(s1.spaces[to], addr) <==>
          0x7000_0000 <= addr < 0x8000_0000 || 0x1000_0000 <= addr < s.spaces[from].brk || 0x1000 <= addr < 0x0100_0000)
  {
    hide Inv, Create, ShareUpTo, FrameMap, Forked;
    ForkInv(s, to, from);
    var brk := s.spaces[from].brk;
    CreateTakes(s, to, brk);
    var s1 := Create(s, to, brk).value;
    CreateInv(s, to, brk);
    Unmapped(s, to);
    ShareTakes(s1, to, from, SPACE);
    PartlySpaces(s1, to, from, SPACE, ShareUpTo(s1, to, from, SPACE).value);
  }

  lemma PartlySpaces(s: State, to: nat, from: nat, n: nat, s1: State)
    requires Partly(s, to, from, n, s1)
    ensures s1.spaces == s.spaces
  {
    hide Inv, SharePages, ShareSlots, PrivateBelow;
  }

  // ----- The slot index

  /** The slot right below the index is in use. */
  predicate Tight(s: State) { s.top > 0 ==> s.top <= |s.slots| && s.slots[s.top - 1].refs != 0 }

  lemma {:induction false} RetreatTight(slots: seq<Slot>, top: nat)
    requires top <= |slots|
    ensures var t := Retreat(slots, top); t > 0 ==> slots[t - 1].refs != 0
  {
    if top > 0 && slots[top - 1].refs == 0 { RetreatTight(slots, top - 1); }
  }

  /** A reference is given back. */
  lemma GivenBack(s: State, ix: nat)
    requires Tight(s) && ix < |s.slots| && s.top <= |s.slots| && s.slots[ix].refs >= 1
    ensures var s1 := SetRefs(s, ix, s.slots[ix].refs - 1);
      if s1.slots[ix].refs < 1 then Tight(DelShared(s1, ix)) else Tight(s1)
  {
    var s1 := SetRefs(s, ix, s.slots[ix].refs - 1);
    RetreatTight(s1.slots, s1.top);
    hide Retreat;
  }

  /** The slots after a reference to `ix` is given back. */
  function Given(s: State, ix: nat): State
    requires ix < |s.slots| && s.top <= |s.slots| && s.slots[ix].refs >= 1
  {
    var s1 := SetRefs(s, ix, s.slots[ix].refs - 1);
    if s1.slots[ix].refs < 1 then DelShared(s1, ix) else s1
  }

  lemma GivenTight(s: State, ix: nat, s1: State)
    requires Tight(s) && ix < |s.slots| && s.top <= |s.slots| && s.slots[ix].refs >= 1
    requires s1.slots == Given(s, ix).slots && s1.top == Given(s, ix).top
    ensures Tight(s1)
  {
    GivenBack(s, ix);
    hide SetRefs, DelShared;
  }

  lemma UnshareGives(s: State, k: Key, ix: nat)
    requires ix < |s.slots| && s.top <= |s.slots| && s.slots[ix].refs >= 1 && Unshare(s, k, ix).Done?
    ensures var s1 := Unshare(s, k, ix).value; s1.slots == Given(s, ix).slots && s1.top == Given(s, ix).top
  {
    hide DelShared, FirstFree;
  }

  lemma UnshareTight(s: State, k: Key)
    requires Inv(s) && Tight(s) && k in s.ptes && s.ptes[k].Shared?
    ensures s.ptes[k].slot < |s.slots| && s.top <= |s.slots|
    ensures Unshare(s, k, s.ptes[k].slot).Done? ==> Tight(Unshare(s, k, s.ptes[k].slot).value)
  {
    hide *;
    SlotHas(s, k);
    var ix := s.ptes[k].slot;
    if Unshare(s, k, ix).Done? {
      UnshareGives(s, k, ix);
      GivenTight(s, ix, Unshare(s, k, ix).value);
    }
  }

  lemma DropGives(s: State, k: Key)
    requires k in s.ptes && s.ptes[k].Shared?
    requires s.ptes[k].slot < |s.slots| && s.top <= |s.slots| && s.slots[s.ptes[k].slot].refs >= 1
    ensures var s1 := DropPte(s, k); s1.slots == Given(s, s.ptes[k].slot).slots && s1.top == Given(s, s.ptes[k].slot).top
  {
    hide Retreat;
  }

  lemma DropTight(s: State, k: Key)
    requires Inv(s) && Tight(s)
    ensures Tight(DropPte(s, k))
  {
    if k in s.ptes && s.ptes[k].Shared? {
      hide *;
      SlotHas(s, k);
      DropGives(s, k);
      GivenTight(s, s.ptes[k].slot, DropPte(s, k));
    } else {
      hide Inv, Retreat;
    }
  }

  lemma {:induction false} FreeTight(s: State, a: nat, n: nat)
    requires Inv(s) && Tight(s)
    ensures Tight(FreeUpTo(s, a, n))
  {
    hide Inv, DropPte;
    if n > 0 {
      FreeTight(s, a, n - 1);
      FreeUpToInv(s, a, n - 1);
      FreedKeepsInv(s, a, n - 1, FreeUpTo(s, a, n - 1));
      DropTight(FreeUpTo(s, a, n - 1), (a, n - 1));
    }
  }

  lemma FreedKeepsInv(s: State, a: nat, n: nat, s1: State)
    requires FreedUpTo(s, a, n, s1)
    ensures Inv(s1)
  {
    hide Inv;
  }

  lemma OneTight(s: State, to: nat, from: nat, v: nat)
    requires Inv(s) && Tight(s) && ShareOne(s, to, from, v).Done?
    ensures Tight(ShareOne(s, to, from, v).value)
  {
    hide Inv, InMemory, MkShared, Flush;
    if (from, v) in s.ptes {
      FlushKeeps();
      match s.ptes[(from, v)]
      case Shared(ix) => SlotHas(s, (from, v));
      case Private(f) =>
        FreeApart(s);
        SlotSize(s);
        MkTaken(s, f);
    }
  }

  lemma FlushKeeps()
    ensures forall s: State, k: Key :: Flush(s, k).slots == s.slots && Flush(s, k).top == s.top
  {}

  lemma {:induction false} ShareTight(s: State, to: nat, from: nat, n: nat)
    requires Inv(s) && to != from && to in s.spaces && n <= SPACE && (forall k <- s.ptes :: k.0 != to)
    requires ShareUpTo(s, to, from, n).Done? && Tight(s)
    ensures Tight(ShareUpTo(s, to, from, n).value)
  {
    hide Inv, ShareOne, EnsureTable, SharedUpTo, Tight;
    if n > 0 {
      ShareTight(s, to, from, n - 1);
      ShareUpToInv(s, to, from, n - 1);
      var s1 := ShareUpTo(s, to, from, n - 1).value;
      TableTight(s, to, from, n - 1, s1);
      OneTight(WithTable(s1, to, from, n - 1).value, to, from, n - 1);
    }
  }

  lemma TableTight(s: State, to: nat, from: nat, v: nat, s1: State)
    requires SharedUpTo(s, to, from, v, s1) && to in s.spaces && v < SPACE && WithTable(s1, to, from, v).Done? && Tight(s1)
    ensures var s2 := WithTable(s1, to, from, v).value; Inv(s2) && Tight(s2)
  {
    SharedInv(s, to, from, v, s1);
    SharedSpaces(s, to, from, v, s1);
    if v % TABLE == 0 && (from, v / TABLE) in s1.tables { EnsureTableInv(s1, (to, v / TABLE)); }
    hide Inv, SharedUpTo, EnsureTable;
  }

  lemma SharedSpaces(s: State, to: nat, from: nat, n: nat, s1: State)
    requires SharedUpTo(s, to, from, n, s1)
    ensures s1.spaces == s.spaces
  {
    hide Inv, FrameMap, Forked, TablesForked;
  }

  lemma ForkTight(s: State, to: nat, from: nat)
    requires Inv(s) && Tight(s) && Fork(s, to, from).Done?
    ensures Tight(Fork(s, to, from).value)
  {
    hide Inv, Create, ShareUpTo, Tight;
    var brk := s.spaces[from].brk;
    CreateInv(s, to, brk);
    var s1 := Create(s, to, brk).value;
    Unmapped(s, to);
    SlotsSame(s, s1);
    ShareTight(s1, to, from, SPACE);
  }

  lemma SlotsSame(s: State, s1: State)
    requires Tight(s) && s1.slots == s.slots && s1.top == s.top
    ensures Tight(s1)
  {}

  lemma FaultKeeps(s: State, k: Key, victims: set<Key>)
    requires Fault(s, k, victims).Done?
    ensures var s1 := Fault(s, k, victims).value; s1.slots == s.slots && s1.top == s.top && s1.kernel == s.kernel
  {
    hide FirstFree, EntryOf;
  }

  lemma LoadTight(s: State, k: Key, off: nat, victims: set<Key>)
    requires Tight(s) && Load(s, k, off, victims).Done?
    ensures Tight(Load(s, k, off, victims).value.0)
  {
    if Fault(s, k, victims).Done? { FaultKeeps(s, k, victims); }
    hide Fault, HalfAt, InRegion;
  }

  lemma StoreTight(s: State, k: Key, off: nat, b: Byte, victims: set<Key>)
    requires Inv(s) && Tight(s) && Store(s, k, off, b, victims).Done?
    ensures Tight(Store(s, k, off, b, victims).value.0)
  {
    hide Inv, Fault, Unshare, HalfAt, InRegion, Tight, Refill;
    if Fault(s, k, victims).Done? {
      FaultKeeps(s, k, victims);
      SlotsSame(s, Fault(s, k, victims).value);
    }
    if TlbModified(s, k, victims).Done? {
      UnshareTight(s, k);
      var s1 := Unshare(s, k, s.ptes[k].slot).value;
      RefillKeeps(s1, k, victims);
      SlotsSame(s1, Refill(s1, k, victims));
    }
    if Store(s, k, off, b, victims).value.1 == Stored { SlotsSame(s, Store(s, k, off, b, victims).value.0); }
  }

  lemma ExitTight(s: State, a: nat)
    requires Inv(s) && Tight(s)
    ensures Tight(FreePages(s, a)) && Tight(Exit(s, a))
  {
    FreeTight(s, a, SPACE);
    hide Inv, FreeUpTo;
  }

  lemma UnmapTight(s: State, k: Key)
    requires Inv(s) && Tight(s)
    ensures Tight(Unmap(s, k))
  {
    DropTight(s, k);
    hide Inv, DropPte, Tight;
  }

  /** The slot index never points further than right behind the last slot in use: no operation leaves slots at its end
      unused. */
  lemma TightStep(s: State, op: Op)
    requires Inv(s) && Tight(s) && Step(s, op).Done?
    ensures Tight(Step(s, op).value.0)
  {
    hide Inv, Create, Fork, Load, Store, Unmap, FreePages, Exit, Tight;
    var s1 := Step(s, op).value.0;
    match op
    case OpCreate(a, brk) =>
      CreateInv(s, a, brk);
      SlotsSame(s, s1);
    case OpFork(to, from) => ForkTight(s, to, from);
    case OpLoad(k, off, victims) => LoadTight(s, k, off, victims);
    case OpStore(k, off, b, victims) => StoreTight(s, k, off, b, victims);
    case OpUnmap(k) => UnmapTight(s, k);
    case OpFreePages(a) => ExitTight(s, a);
    case OpExit(a) => ExitTight(s, a);
    case OpEvict(victims) => SlotsSame(s, s1);
  }

  // ----- The pages of the kernel

  lemma DropKernel(s: State, k: Key)
    ensures DropPte(s, k).kernel == s.kernel
  {
    DropPteMap(s, k);
    hide DropPte, FrameMap;
  }

  lemma {:induction false} FreeKernel(s: State, a: nat, n: nat)
    ensures FreeUpTo(s, a, n).kernel == s.kernel
  {
    hide DropPte;
    if n > 0 {
      FreeKernel(s, a, n - 1);
      DropKernel(FreeUpTo(s, a, n - 1), (a, n - 1));
    }
  }

  /** Ending a process gives its directory page back, which no other process has, and keeps all other pages of the
      kernel. */
  lemma ExitKernel(s: State, a: nat)
    requires Inv(s) && a in s.spaces
    ensures Exit(s, a).kernel == s.kernel - {s.spaces[a].pgd} && s.spaces[a].pgd in Exit(s, a).free && a !in Exit(s, a).spaces
  {
    FreeKernel(s, a, SPACE);
    FreePagesInv(s, a);
    hide Inv, FreeUpTo, FrameMap, Cleared;
  }

  // ----- Steps

  /** When a single step goes through. */
  ghost predicate Goes(s: State, op: Op)
  {
    match op
    case OpCreate(a, brk) => a !in s.spaces && |s.free| >= 2
    case OpFork(to, from) =>
      && from in s.spaces && to !in s.spaces
      && |s.free| >= 2 + |TablesOf(s, from)| + One(!s.slotPage && PrivateOf(s, from) != {})
      && (PrivateOf(s, from) != {} ==> (if s.slotPage then s.top else 0) + |PrivateOf(s, from)| <= 511)
    case OpLoad(k, off, _) =>
      && k.0 in s.spaces && k.1 < 0x10_0000 && off < 4096
      && (Stage(s, k, 1) || (Reachable(s, k, off) && |s.free| >= Missing(s, k)))
    case OpStore(k, off, _, _) =>
      && k.0 in s.spaces && k.1 < 0x10_0000 && off < 4096
      && (if Stage(s, k, 1) then Stage(s, k, 2) || |s.free| >= Copies(s, k) else Reachable(s, k, off) && |s.free| >= Missing(s, k))
    case _ => true
  }

  /** The machine stops in no other case: not for lack of pages or slots that are there, nor in a dead loop. */
  lemma StepGoes(s: State, op: Op)
    requires Inv(s)
    ensures Step(s, op).Done? <==> Goes(s, op)
  {
    hide Inv, Create, Fork, Load, Store, TablesOf, PrivateOf, Served, Reachable, Missing, Copies, Legal;
    match op
    case OpCreate(a, brk) => CreateTakes(s, a, brk);
    case OpFork(to, from) => ForkGoes(s, to, from);
    case OpLoad(k, off, victims) =>
      if k.0 in s.spaces && k.1 < SPACE && off < PAGE_SIZE { LoadAttempt(s, k, off, victims); }
    case OpStore(k, off, b, victims) =>
      if k.0 in s.spaces && k.1 < SPACE && off < PAGE_SIZE {
        StoreAttempt(s, k, off, b, victims);
        StageDown(s, k);
      }
    case OpUnmap(_) =>
    case OpFreePages(_) =>
    case OpExit(_) =>
    case OpEvict(_) =>
  }
}
