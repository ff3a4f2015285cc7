/** Whole runs of the virtual-memory code: processes, faults and user accesses on the machine that is
    changed in place show each process what eager copying would show. */
module CowRun {
  import M = CowModel
  import opened CowInvariant
  import opened CowRefinement
  import opened CowVm

  type Seen = M.Outcome<M.Observed>

  /** `r` and the machine are what `spec` says. */
  ghost predicate Answers(vm: Vm, r: Seen, spec: M.Outcome<(M.State, M.Observed)>)
    reads vm
  {
    match spec
    case Done(v) => r == M.Done(v.1) && vm.St() == v.0
    case Stuck(why) => r == M.Stuck(why)
  }

  /** One attempt of a load: the byte through the TLB, or the handler of the exception. */
  method UserLoad(vm: Vm, k: Key, off: nat, victims: set<Key>) returns (r: Seen)
    modifies vm
    ensures Answers(vm, r, M.Load(old(vm.St()), k, off, victims))
  {
    hide M.TlbMiss, M.Fault;
    if M.Pair(k) !in vm.tlb {
      var _ :- vm.HandleTlbMiss(k, off, victims);
      return M.Done(M.Faulted);
    }
    var h := M.HalfAt(vm.tlb[M.Pair(k)], k.1);
    if !h.valid {
      var _ :- vm.HandleFault(k, victims);
      return M.Done(M.Faulted);
    }
    if h.frame in vm.mem && off < |vm.mem[h.frame]| {
      return M.Done(M.Byte(vm.mem[h.frame][off]));
    }
    r := M.Stuck(M.NoPte);
  }

  method UserStore(vm: Vm, k: Key, off: nat, b: M.Byte, victims: set<Key>) returns (r: Seen)
    requires Inv(vm.St())
    modifies vm
    ensures Answers(vm, r, M.Store(old(vm.St()), k, off, b, victims))
  {
    hide M.TlbMiss, M.Fault, M.TlbModified, Inv;
    if M.Pair(k) !in vm.tlb {
      var _ :- vm.HandleTlbMiss(k, off, victims);
      return M.Done(M.Faulted);
    }
    var h := M.HalfAt(vm.tlb[M.Pair(k)], k.1);
    if !h.valid {
      var _ :- vm.HandleFault(k, victims);
      return M.Done(M.Faulted);
    }
    if !h.dirty {
      var _ :- vm.HandleTlb1(k, victims);
      return M.Done(M.Faulted);
    }
    if h.frame in vm.mem && off < |vm.mem[h.frame]| {
      vm.mem := vm.mem[h.frame := vm.mem[h.frame][off := b]];
      return M.Done(M.Stored);
    }
    r := M.Stuck(M.NoPte);
  }

  /** One operation. */
  method DoOp(vm: Vm, op: M.Op) returns (r: Seen)
    requires Inv(vm.St())
    modifies vm
    ensures Answers(vm, r, M.Step(old(vm.St()), op))
  {
    hide Inv, M.Create, M.Fork, M.Load, M.Store, M.Unmap, M.FreePages, M.Exit;
    match op {
      case OpCreate(a, brk) =>
        var _ :- vm.CreateUserContext(a, brk);
      case OpFork(to, from) =>
        var _ :- vm.Fork(to, from);
      case OpLoad(k, off, victims) =>
        if k.0 in vm.spaces && k.1 < M.SPACE && off < M.PAGE_SIZE {
          r := UserLoad(vm, k, off, victims);
        } else {
          r := M.Stuck(M.NoSpace);
        }
        return;
      case OpStore(k, off, b, victims) =>
        if k.0 in vm.spaces && k.1 < M.SPACE && off < M.PAGE_SIZE {
          r := UserStore(vm, k, off, b, victims);
        } else {
          r := M.Stuck(M.NoSpace);
        }
        return;
      case OpUnmap(k) => vm.Unmapmem(k);
      case OpFreePages(a) => vm.FreeAspPages(a);
      case OpExit(a) =>
        if a in vm.spaces { vm.ExitSpace(a); } else { ExitUnused(vm.St(), a); }
      case OpEvict(victims) => vm.tlb := vm.tlb - victims;
    }
    r := M.Done(M.Nothing);
  }

  /** A run of operations: it gets as far as the model does, and what it has shown is what a machine that
      copies every page at fork shows. */
  method RunVm(vm: Vm, ops: seq<M.Op>) returns (r: M.Outcome<seq<M.Observed>>)
    requires Inv(vm.St())
    modifies vm
    ensures match Run(old(vm.St()), ops)
      case Done(v) => r == M.Done(v.1) && vm.St() == v.0 && Inv(v.0) && DeepRun(View(old(vm.St())), ops, v.1, View(v.0))
      case Stuck(why) => r == M.Stuck(why)
  {
    hide Inv, M.Step, DeepRun, View, Run;
    ghost var s := vm.St();
    var seen: seq<M.Observed> := [];
    var i := 0;
    RunEnds(s);
    assert ops[..0] == [];
    while i < |ops|
      invariant i <= |ops| && Inv(vm.St()) && Run(s, ops[..i]) == M.Done((vm.St(), seen))
    {
      RunStep(s, ops, i);
      StepInvOf(vm.St(), ops[i]);
      var one := DoOp(vm, ops[i]);
      if one.Stuck? {
        RunStuck(s, ops, i + 1);
        return M.Stuck(one.why);
      }
      seen := seen + [one.value];
      i := i + 1;
    }
    assert ops[..i] == ops;
    RunRefines(s, ops);
    r := M.Done(seen);
  }

  lemma StepInvOf(s: M.State, op: M.Op)
    requires Inv(s)
    ensures M.Step(s, op).Done? ==> Inv(M.Step(s, op).value.0)
  {
    hide Inv, M.Step;
    if M.Step(s, op).Done? { StepInv(s, op); }
  }

  lemma RunEnds(s: M.State)
    ensures Run(s, []) == M.Done((s, []))
  {}

  /** One more operation at the end of a run. */
  lemma {:induction false} RunStep(s: M.State, ops: seq<M.Op>, i: nat)
    requires i < |ops|
    ensures Run(s, ops[..i + 1]) ==
      match Run(s, ops[..i])
      case Stuck(why) => M.Stuck(why)
      case Done(v) =>
        match M.Step(v.0, ops[i])
        case Stuck(why) => M.Stuck(why)
        case Done(w) => M.Done((w.0, v.1 + [w.1]))
    decreases i
  {
    hide M.Step;
    assert ops[..i + 1][0] == ops[0];
    if i > 0 {
      assert ops[..i + 1][1..] == ops[1..][..i] && ops[..i][1..] == ops[1..][..i - 1] && ops[..i][0] == ops[0];
      if M.Step(s, ops[0]).Done? {
        var (s1, one) := M.Step(s, ops[0]).value;
        RunStep(s1, ops[1..], i - 1);
        assert ops[1..][..i - 1 + 1] == ops[1..][..i] && ops[1..][i - 1] == ops[i];
        var r := Run(s1, ops[1..][..i - 1]);
        if r.Done? && M.Step(r.value.0, ops[i]).Done? {
          var w := M.Step(r.value.0, ops[i]).value.1;
          assert [one] + (r.value.1 + [w]) == [one] + r.value.1 + [w];
        }
      }
    } else {
      assert ops[..1][1..] == [] && ops[..0] == [];
      RunEnds(s);
      if M.Step(s, ops[0]).Done? {
        var (s1, one) := M.Step(s, ops[0]).value;
        RunEnds(s1);
        assert [one] + [] == [] + [one];
      }
    }
  }

  lemma {:induction false} RunStuck(s: M.State, ops: seq<M.Op>, i: nat)
    requires i <= |ops| && Run(s, ops[..i]).Stuck?
    ensures Run(s, ops) == M.Stuck(Run(s, ops[..i]).why)
    decreases |ops| - i
  {
    hide Run;
    if i == |ops| {
      assert ops[..i] == ops;
    } else {
      RunStep(s, ops, i);
      RunStuck(s, ops, i + 1);
    }
  }

  /** From boot on. */
  method BootAndRun(mem: map<nat, M.Page>, free: set<nat>, kernel: set<nat>, ops: seq<M.Op>)
    returns (vm: Vm, r: M.Outcome<seq<M.Observed>>)
    requires Booted(M.State(mem, free, kernel, map[], map[], map[], [], 0, false, map[]))
    ensures fresh(vm) && (r.Done? ==> Inv(vm.St()) && DeepRun(map[], ops, r.value, View(vm.St())))
    ensures r.Done? <==> Run(M.State(mem, free, kernel, map[], map[], map[], [], 0, false, map[]), ops).Done?
  {
    vm := new Vm(mem, free, kernel);
    BootInv(vm.St());
    assert View(vm.St()) == map[];
    hide Inv, Run, DeepRun, View, Booted;
    r := RunVm(vm, ops);
  }
}
