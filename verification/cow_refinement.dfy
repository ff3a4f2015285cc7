/** Copy-on-write refines eager copying: every run of the virtual-memory machine is a run
    of a machine in which fork copies every page at once and nothing is ever shared. */
module CowRefinement {
  import opened CowModel
  import opened CowInvariant

  /** The eager machine: each space owns its pages outright. An absent page reads as zeros. */
  type Deep = map<Key, Page>

  function Touch(m: Deep, k: Key): Deep { if k in m then m else m[k := ZeroPage()] }

  /** One step of the eager machine. A faulting access is retried later and only materialises its page. */
  ghost predicate DeepStep(m: Deep, op: Op, seen: Observed, m1: Deep)
  {
    match op
    case OpCreate(_, _) => m1 == m && seen == Nothing
    case OpFork(to, from) => m1 == Forked(m, to, from, SPACE) && seen == Nothing
    case OpLoad(k, off, _) =>
      && m1 == Touch(m, k)
      && (seen == Faulted || (off < |m1[k]| && seen == Byte(m1[k][off])))
    case OpStore(k, off, b, _) =>
      || (m1 == Touch(m, k) && seen == Faulted)
      || (k in m && off < |m[k]| && m1 == m[k := m[k][off := b]] && seen == Stored)
    case OpUnmap(k) => m1 == m - {k} && seen == Nothing
    case OpFreePages(a) => m1 == Cleared(m, a, SPACE) && seen == Nothing
    case OpExit(a) => m1 == Cleared(m, a, SPACE) && seen == Nothing
    case OpEvict(_) => m1 == m && seen == Nothing
  }

  function PageAt(mem: map<nat, Page>, f: nat): Page { if f in mem then mem[f] else [] }

  function Compose(mem: map<nat, Page>, frames: map<Key, nat>): Deep { map k | k in frames :: PageAt(mem, frames[k]) }

  /** The bytes each process can reach, page by page. */
  function View(s: State): Deep { Compose(s.mem, FrameMap(s.ptes, s.slots)) }

  lemma ComposeForked(mem: map<nat, Page>, m: map<Key, nat>, to: nat, from: nat, n: nat)
    ensures Compose(mem, Forked(m, to, from, n)) == Forked(Compose(mem, m), to, from, n)
  {
    var a, b := Compose(mem, Forked(m, to, from, n)), Forked(Compose(mem, m), to, from, n);
    forall k: Key ensures (k in a <==> k in b) && (k in a ==> a[k] == b[k]) {
      ForkedLookup(m, to, from, n, k);
      ForkedLookup(Compose(mem, m), to, from, n, k);
    }
    hide Forked, PageAt;
  }

  lemma ComposeCleared(mem: map<nat, Page>, m: map<Key, nat>, a: nat, n: nat)
    ensures Compose(mem, Cleared(m, a, n)) == Cleared(Compose(mem, m), a, n)
  {
  }

  /** Writing a frame that only `k` reaches changes the page of `k` and no other. */
  lemma ComposeUpdate(mem: map<nat, Page>, m: map<Key, nat>, k: Key, f: nat, page: Page)
    requires forall j <- m :: m[j] == f ==> j == k
    ensures Compose(mem[f := page], m[k := f]) == Compose(mem, m)[k := page]
  {
  }

  lemma FrameMapUpdate(ptes: Ptes, slots: seq<Slot>, k: Key, f: nat)
    ensures FrameMap(ptes[k := Private(f)], slots) == FrameMap(ptes, slots)[k := f]
  {
  }

  lemma FreshFrame(s: State, f: nat)
    requires f !in UserFrames(s.ptes, s.slots)
    ensures forall j <- FrameMap(s.ptes, s.slots) :: FrameMap(s.ptes, s.slots)[j] != f
  {
    forall j <- s.ptes ensures FrameOf(s.slots, s.ptes[j]) != f {
      assert FrameOf(s.slots, s.ptes[j]) in UserFrames(s.ptes, s.slots);
    }
  }

  lemma FaultView(s: State, k: Key, victims: set<Key>)
    requires Inv(s) && k.0 in s.spaces && k.1 < SPACE && Fault(s, k, victims).Done?
    ensures View(Fault(s, k, victims).value) == Touch(View(s), k)
  {
    hide Inv, Compose, FrameMap, UserFrames;
    EnsureTableInv(s, TableKey(k));
    var s1 := EnsureTable(s, TableKey(k)).value;
    assert k in s1.ptes <==> k in View(s) by { InView(s, k); }
    if k !in s1.ptes {
      GetPageInv(s1);
      var f := GetPage(s1).value.1;
      FreshFrame(s1, f);
      FrameMapUpdate(s1.ptes, s1.slots, k, f);
      ComposeUpdate(s1.mem, FrameMap(s1.ptes, s1.slots), k, f, ZeroPage());
    }
  }

  lemma InView(s: State, k: Key)
    ensures k in View(s) <==> k in s.ptes
    ensures k in s.ptes ==> View(s)[k] == PageAt(s.mem, FrameOf(s.slots, s.ptes[k]))
  {
  }

  lemma UnshareView(s: State, k: Key)
    requires Inv(s) && k in s.ptes && s.ptes[k].Shared? && Unshare(s, k, s.ptes[k].slot).Done?
    requires s.ptes[k].slot < |s.slots|
    ensures View(Unshare(s, k, s.ptes[k].slot).value) == View(s)
  {
    hide Distinct, Partition, TablesOk, SpacesOk, TlbOk, MemOk, Keyed, Compose, FrameMap, UserFrames;
    Named(s.slotPage, s.slots, s.top, s.ptes, k);
    var ix := s.ptes[k].slot;
    var slots1 := s.slots[ix := s.slots[ix].(refs := s.slots[ix].refs - 1)];
    SameFrames(s.ptes, s.slots, slots1);
    InView(s, k);
    var s1 := Unshare(s, k, ix).value;
    var m := FrameMap(s.ptes, s.slots);
    FrameMapUpdate(s.ptes, slots1, k, s1.ptes[k].frame);
    FrameMapAt(s.ptes, s.slots, k);
    assert m[k := m[k]] == m;
    if slots1[ix].refs >= 1 {
      GetPageInv(s);
      var p := s1.ptes[k].frame;
      FreshFrame(s, p);
      ComposeUpdate(s.mem, m, k, p, s.mem[s.slots[ix].frame]);
    }
  }

  lemma FrameMapAt(ptes: Ptes, slots: seq<Slot>, k: Key)
    requires k in ptes
    ensures k in FrameMap(ptes, slots) && FrameMap(ptes, slots)[k] == FrameOf(slots, ptes[k])
  {
  }

  /** A private page has no other reader. */
  lemma StoreView(s: State, k: Key, off: nat, b: Byte)
    requires Inv(s) && k in s.ptes && s.ptes[k].Private? && s.ptes[k].frame in s.mem && off < |s.mem[s.ptes[k].frame]|
    ensures var f := s.ptes[k].frame; var page := s.mem[f][off := b];
      View(s.(mem := s.mem[f := page])) == View(s)[k := page]
  {
    hide FrameMap, Inv, Compose;
    var f := s.ptes[k].frame;
    var m := FrameMap(s.ptes, s.slots);
    SoleFrame(s, k);
    assert m[k := f] == m;
    ComposeUpdate(s.mem, m, k, f, s.mem[f][off := b]);
  }

  /** A private page is reached in one way only. */
  lemma SoleFrame(s: State, k: Key)
    requires Inv(s) && k in s.ptes && s.ptes[k].Private?
    ensures var m := FrameMap(s.ptes, s.slots);
      k in m && m[k] == s.ptes[k].frame && forall j <- m :: m[j] == s.ptes[k].frame ==> j == k
  {
    hide Partition, TablesOk, SpacesOk, MemOk, TlbOk, Counted;
  }

  lemma LoadView(s: State, k: Key, off: nat, victims: set<Key>)
    requires Inv(s) && k.0 in s.spaces && k.1 < SPACE && off < PAGE_SIZE && Load(s, k, off, victims).Done?
    ensures var (s1, seen) := Load(s, k, off, victims).value;
      DeepStep(View(s), OpLoad(k, off, victims), seen, View(s1))
  {
    hide Inv, View, Fault;
    if Pair(k) !in s.tlb || !HalfAt(s.tlb[Pair(k)], k.1).valid {
      FaultView(s, k, victims);
    } else {
      TlbHit(s, k);
      InView(s, k);
    }
  }

  lemma StoreStepView(s: State, k: Key, off: nat, b: Byte, victims: set<Key>)
    requires Inv(s) && k.0 in s.spaces && k.1 < SPACE && off < PAGE_SIZE && Store(s, k, off, b, victims).Done?
    ensures var (s1, seen) := Store(s, k, off, b, victims).value;
      DeepStep(View(s), OpStore(k, off, b, victims), seen, View(s1))
  {
    hide Inv, View, Fault, Unshare;
    if Pair(k) !in s.tlb || !HalfAt(s.tlb[Pair(k)], k.1).valid {
      FaultView(s, k, victims);
    } else {
      TlbHit(s, k);
      InView(s, k);
      if HalfAt(s.tlb[Pair(k)], k.1).dirty {
        StoreView(s, k, off, b);
      } else {
        UnshareView(s, k);
        var s1 := Unshare(s, k, s.ptes[k].slot).value;
        RefillView(s1, k, victims);
      }
    }
  }

  lemma RefillView(s: State, k: Key, victims: set<Key>)
    ensures View(Refill(s, k, victims)) == View(s)
  {
  }

  lemma UnmapView(s: State, k: Key)
    requires Inv(s)
    ensures View(Unmap(s, k)) == View(s) - {k}
  {
    hide DropPte, Partition, TablesOk, Distinct, Counted, TlbOk, SpacesOk, MemOk;
    var m := FrameMap(s.ptes, s.slots);
    assert Compose(s.mem, m - {k}) == Compose(s.mem, m) - {k};
    DropPteMap(s, k);
    if TableKey(k) !in s.tables {
      assert k !in s.ptes;
      assert m - {k} == m;
    }
  }

  /** An unused space has nothing to clear. */
  lemma ClearedUnused(s: State, a: nat)
    requires Inv(s) && a !in s.spaces
    ensures Cleared(View(s), a, SPACE) == View(s)
  {
    hide Inv;
    Unmapped(s, a);
  }

  /** One step of the machine is the same step of the eager machine on the pages processes see. */
  lemma StepRefines(s: State, op: Op)
    requires Inv(s) && Step(s, op).Done?
    ensures var (s1, seen) := Step(s, op).value; DeepStep(View(s), op, seen, View(s1))
  {
    hide Inv, Fork, Exit, FreePages, Load, Store, Create, Unmap, FrameMap, Compose, Forked, Cleared;
    match op
    case OpCreate(a, brk) => CreateInv(s, a, brk);
    case OpFork(to, from) =>
      ForkInv(s, to, from);
      ComposeForked(s.mem, FrameMap(s.ptes, s.slots), to, from, SPACE);
    case OpLoad(k, off, victims) => LoadView(s, k, off, victims);
    case OpStore(k, off, b, victims) => StoreStepView(s, k, off, b, victims);
    case OpUnmap(k) => UnmapView(s, k);
    case OpFreePages(a) =>
      FreePagesInv(s, a);
      ComposeCleared(s.mem, FrameMap(s.ptes, s.slots), a, SPACE);
    case OpExit(a) =>
      ExitInv(s, a);
      if a in s.spaces {
        ComposeCleared(s.mem, FrameMap(s.ptes, s.slots), a, SPACE);
      } else {
        assert Exit(s, a) == s by { ExitUnused(s, a); }
        ClearedUnused(s, a);
      }
    case OpEvict(victims) =>
  }

  lemma ExitUnused(s: State, a: nat)
    requires a !in s.spaces
    ensures Exit(s, a) == s
  {
  }

  // ----- Runs

  /** The states and observations of a run, or Stuck when a step gets stuck. */
  function Run(s: State, ops: seq<Op>): Outcome<(State, seq<Observed>)>
    decreases |ops|
  {
    if ops == [] then Done((s, [])) else
    var (s1, seen) :- Step(s, ops[0]);
    var (s2, rest) :- Run(s1, ops[1..]);
    Done((s2, [seen] + rest))
  }

  ghost predicate DeepRun(m: Deep, ops: seq<Op>, seen: seq<Observed>, m1: Deep)
    decreases |ops|
  {
    if ops == [] then seen == [] && m1 == m
    else seen != [] && exists m0 :: DeepStep(m, ops[0], seen[0], m0) && DeepRun(m0, ops[1..], seen[1..], m1)
  }

  /** Every run keeps the invariant and, with the same observations, is a run of the eager machine. */
  lemma {:induction false} RunRefines(s: State, ops: seq<Op>)
    requires Inv(s) && Run(s, ops).Done?
    ensures var (s1, seen) := Run(s, ops).value; Inv(s1) && DeepRun(View(s), ops, seen, View(s1))
    decreases |ops|
  {
    hide Inv, Step, View, DeepStep;
    if ops != [] {
      StepInv(s, ops[0]);
      StepRefines(s, ops[0]);
      var (s1, seen) := Step(s, ops[0]).value;
      RunRefines(s1, ops[1..]);
      var (s2, rest) := Run(s1, ops[1..]).value;
      assert ([seen] + rest)[1..] == rest;
      assert DeepStep(View(s), ops[0], seen, View(s1));
    }
  }

  /** From boot on: the invariant holds in every reachable state, and each process reads what
      it would read if every fork had copied all pages at once. */
  lemma BootRunRefines(s: State, ops: seq<Op>)
    requires Booted(s) && Run(s, ops).Done?
    ensures var (s1, seen) := Run(s, ops).value; Inv(s1) && DeepRun(map[], ops, seen, View(s1))
  {
    BootInv(s);
    assert View(s) == map[];
    RunRefines(s, ops);
  }

  /** A user page is free exactly when it is not the kernel's, not a page table, and no entry reaches it. */
  lemma FreeExactly(s: State, f: nat)
    requires Inv(s) && f < PAGES
    ensures f in s.free <==>
      f !in s.kernel && (forall t <- s.tables :: s.tables[t] != f) && (forall k <- s.ptes :: FrameOf(s.slots, s.ptes[k]) != f)
  {
    if forall k <- s.ptes :: FrameOf(s.slots, s.ptes[k]) != f {
      assert f !in UserFrames(s.ptes, s.slots);
    } else {
      var k :| k in s.ptes && FrameOf(s.slots, s.ptes[k]) == f;
      assert f in UserFrames(s.ptes, s.slots);
    }
  }

  // ----- Accesses complete

  /** What the half of `k` looks like after a refill. */
  lemma Refilled(s: State, k: Key, victims: set<Key>)
    requires k in s.ptes
    ensures var s1 := Refill(s, k, victims);
      && Pair(k) in s1.tlb && HalfAt(s1.tlb[Pair(k)], k.1).valid
      && (HalfAt(s1.tlb[Pair(k)], k.1).dirty <==> s.ptes[k].Private?)
  {
    var p := Pair(k);
    assert k == (p.0, 2 * p.1) || k == (p.0, 2 * p.1 + 1);
  }

  /** The handlers never reach their dead loops: an access of a live space is stuck only on a
      segmentation violation or when no page is left. */
  lemma NoDeadLoop(s: State, k: Key, off: nat, b: Byte, victims: set<Key>)
    requires Inv(s) && k.0 in s.spaces && k.1 < SPACE && off < PAGE_SIZE
    ensures var r := Store(s, k, off, b, victims); r.Stuck? ==> r.why == Segv || r.why == OutOfPages
    ensures var r := Load(s, k, off, victims); r.Stuck? ==> r.why == Segv || r.why == OutOfPages
  {
    hide Inv, Fault, TlbModified, HalfAt, InRegion;
    FaultStuck(s, k, victims);
    if Pair(k) in s.tlb && HalfAt(s.tlb[Pair(k)], k.1).valid { HitReady(s, k, victims); }
  }

  lemma FaultStuck(s: State, k: Key, victims: set<Key>)
    ensures Fault(s, k, victims).Stuck? ==> Fault(s, k, victims).why == OutOfPages
  {
    hide Refill;
  }

  /** A valid half of the TLB has its page, and if it is not writable its entry is shared. */
  lemma HitReady(s: State, k: Key, victims: set<Key>)
    requires Inv(s) && Pair(k) in s.tlb && HalfAt(s.tlb[Pair(k)], k.1).valid
    ensures var h := HalfAt(s.tlb[Pair(k)], k.1); h.frame in s.mem && |s.mem[h.frame]| == PAGE_SIZE
    ensures var r := TlbModified(s, k, victims);
      !HalfAt(s.tlb[Pair(k)], k.1).dirty && r.Stuck? ==> r.why == OutOfPages
  {
    hide Distinct, Partition, TablesOk, SpacesOk, UserFrames, MemOk, TlbOk, Counted, Users, Refill;
    TlbHit(s, k);
    Mapped(s, k);
    if s.ptes[k].Shared? {
      Named(s.slotPage, s.slots, s.top, s.ptes, k);
    }
  }

  datatype Completion = Pending | Completed(s: State)

  /** The store retried after each fault, evicting `vs[i]` at attempt `i` when it refills. */
  function StoreRetried(s: State, k: Key, off: nat, b: Byte, vs: seq<set<Key>>): Outcome<Completion>
    decreases |vs|
  {
    if vs == [] then Done(Pending) else
    var (s1, seen) :- Store(s, k, off, b, vs[0]);
    if seen == Stored then Done(Completed(s1)) else StoreRetried(s1, k, off, b, vs[1..])
  }

  /** A store needs three attempts at most: page in, unshare, write. It then changes that one byte. */
  lemma StoreCompletes(s: State, k: Key, off: nat, b: Byte, vs: seq<set<Key>>)
    requires Inv(s) && k.0 in s.spaces && k.1 < SPACE && off < PAGE_SIZE && |vs| >= 3
    requires StoreRetried(s, k, off, b, vs).Done?
    ensures var r := StoreRetried(s, k, off, b, vs).value;
      && r.Completed?
      && (var m := Touch(View(s), k); off < |m[k]| && View(r.s) == m[k := m[k][off := b]])
  {
    hide Inv, View, Touch, Store;
    StoreNeeds(s, k, off, b, vs, 0);
  }

  /** How far the access is: 0 nothing known, 1 half valid, 2 half writable. */
  ghost predicate Stage(s: State, k: Key, n: nat)
  {
    && (n >= 1 ==> Pair(k) in s.tlb && HalfAt(s.tlb[Pair(k)], k.1).valid)
    && (n >= 2 ==> HalfAt(s.tlb[Pair(k)], k.1).dirty)
  }

  lemma {:induction false} StoreNeeds(s: State, k: Key, off: nat, b: Byte, vs: seq<set<Key>>, n: nat)
    requires Inv(s) && k.0 in s.spaces && k.1 < SPACE && off < PAGE_SIZE && n <= 2 && |vs| >= 3 - n && Stage(s, k, n)
    requires StoreRetried(s, k, off, b, vs).Done?
    ensures var r := StoreRetried(s, k, off, b, vs).value;
      && r.Completed?
      && (var m := Touch(View(s), k); off < |m[k]| && View(r.s) == m[k := m[k][off := b]])
    decreases 3 - n
  {
    hide Inv, View, Touch, Store;
    TouchTwice(View(s), k);
    var (s1, seen) := Store(s, k, off, b, vs[0]).value;
    if seen == Stored {
      Finish(s, k, off, b, vs[0]);
    } else {
      Attempt(s, k, off, b, vs[0], n);
      StoreNeeds(s1, k, off, b, vs[1..], n + 1);
    }
  }

  lemma Finish(s: State, k: Key, off: nat, b: Byte, victims: set<Key>)
    requires Inv(s) && k.0 in s.spaces && k.1 < SPACE && off < PAGE_SIZE
    requires Store(s, k, off, b, victims).Done? && Store(s, k, off, b, victims).value.1 == Stored
    ensures k in View(s) && off < |View(s)[k]| && Touch(View(s), k) == View(s)
    ensures View(Store(s, k, off, b, victims).value.0) == View(s)[k := View(s)[k][off := b]]
  {
    hide Inv, View;
    StoreStepView(s, k, off, b, victims);
  }

  lemma TouchTwice(m: Deep, k: Key)
    ensures k in Touch(m, k) && Touch(Touch(m, k), k) == Touch(m, k)
  {
  }

  /** A faulting store moves the access one stage on, and faults at no writable half. */
  lemma Attempt(s: State, k: Key, off: nat, b: Byte, victims: set<Key>, n: nat)
    requires Inv(s) && k.0 in s.spaces && k.1 < SPACE && off < PAGE_SIZE && n <= 2 && Stage(s, k, n)
    requires Store(s, k, off, b, victims).Done? && Store(s, k, off, b, victims).value.1 != Stored
    ensures n < 2
    ensures var s1 := Store(s, k, off, b, victims).value.0;
      Inv(s1) && s1.spaces == s.spaces && View(s1) == Touch(View(s), k) && Stage(s1, k, n + 1)
  {
    hide Inv, View, Touch, Refill;
    StoreInv(s, k, off, b, victims);
    StoreStepView(s, k, off, b, victims);
    if Pair(k) !in s.tlb || !HalfAt(s.tlb[Pair(k)], k.1).valid {
      Refilled(DemandZero(EnsureTable(s, TableKey(k)).value, k).value, k, victims);
    } else {
      TlbHit(s, k);
      Refilled(Unshare(s, k, s.ptes[k].slot).value, k, victims);
    }
  }

  datatype Fetch = Waiting | Fetched(s: State, b: Byte)

  /** The load retried after each fault. */
  function LoadRetried(s: State, k: Key, off: nat, vs: seq<set<Key>>): Outcome<Fetch>
    decreases |vs|
  {
    if vs == [] then Done(Waiting) else
    var (s1, seen) :- Load(s, k, off, vs[0]);
    if seen.Byte? then Done(Fetched(s1, seen.b)) else LoadRetried(s1, k, off, vs[1..])
  }

  /** A load needs two attempts at most: page in, read. It gets the byte that the process should see,
      and the page is all that it may bring in. */
  lemma LoadCompletes(s: State, k: Key, off: nat, vs: seq<set<Key>>)
    requires Inv(s) && k.0 in s.spaces && k.1 < SPACE && off < PAGE_SIZE && |vs| >= 2
    requires LoadRetried(s, k, off, vs).Done?
    ensures var r := LoadRetried(s, k, off, vs).value;
      r.Fetched? && View(r.s) == Touch(View(s), k) && off < |Touch(View(s), k)[k]| && r.b == Touch(View(s), k)[k][off]
  {
    hide Inv, View, Touch, Load;
    TouchTwice(View(s), k);
    var (s1, seen) := Load(s, k, off, vs[0]).value;
    LoadEnds(s, k, off, vs[0]);
    if !seen.Byte? {
      assert LoadRetried(s, k, off, vs) == LoadRetried(s1, k, off, vs[1..]);
      LoadEnds(s1, k, off, vs[1]);
      assert vs[1..][0] == vs[1];
    }
  }

  /** One attempt: it reads, or it faults, and then it has no valid half before and has one afterwards. */
  lemma LoadEnds(s: State, k: Key, off: nat, victims: set<Key>)
    requires Inv(s) && k.0 in s.spaces && k.1 < SPACE && off < PAGE_SIZE && Load(s, k, off, victims).Done?
    ensures var (s1, seen) := Load(s, k, off, victims).value;
      && Inv(s1) && s1.spaces == s.spaces && View(s1) == Touch(View(s), k) && k in View(s1)
      && (Stage(s, k, 1) <==> seen.Byte?)
      && (seen.Byte? ==> off < |View(s1)[k]| && seen.b == View(s1)[k][off])
      && (!seen.Byte? ==> Stage(s1, k, 1))
  {
    hide Inv, View, Refill;
    LoadInv(s, k, off, victims);
    LoadView(s, k, off, victims);
    if Pair(k) !in s.tlb || !HalfAt(s.tlb[Pair(k)], k.1).valid {
      Refilled(DemandZero(EnsureTable(s, TableKey(k)).value, k).value, k, victims);
    }
  }
}
