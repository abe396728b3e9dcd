/** Every page in use has exactly one owner: what each process and memory operation keeps. */
module Ownership {
  import opened Common
  import opened PhysicalMemory
  import opened HeapModel
  import opened VmModel
  import opened VmProofs
  import opened ProcessModel

  /** Kernel-pool pages of a process: its kernel stack and its trap page. */
  ghost function KernelPagesOf(p: Process): multiset<int> {
    if p.state == Unused then multiset{}
    else multiset(Pages(p.kernelStackBase, p.kernelStackPages)) + KernelMapped(p.vm)
  }

  /** User-pool pages of a process: its mapped user pages. */
  ghost function UserPagesOf(p: Process): multiset<int> {
    if p.state == Unused then multiset{} else UserMapped(p.vm)
  }

  ghost function KernelHeld(procs: seq<Process>): multiset<int> {
    Flatten(procs, KernelPagesOf)
  }

  ghost function UserHeld(procs: seq<Process>): multiset<int> {
    Flatten(procs, UserPagesOf)
  }

  ghost predicate ProcessOk(p: Process) {
    p.state != Unused ==> VmOk(p.vm) && p.kernelStackPages == 1 && |KernelMapped(p.vm)| == 1
  }

  ghost predicate ProcessesOk(procs: seq<Process>) {
    forall i | 0 <= i < |procs| :: ProcessOk(procs[i])
  }

  /** The partition: the live pages of each pool are exactly the pages the processes and the heap hold, each once. */
  ghost predicate Partitioned(k: KernelState) {
    && k.heap.Ok()
    && ProcessesOk(k.procs)
    && Owns(k.heap, KernelHeld(k.procs))
    && multiset(k.heap.fr.Live(User)) == UserHeld(k.procs)
  }

  /** The one argument behind every step: the pages one slot gives up and takes are the
      pages its pools lose and gain. */
  lemma SlotExchange(k: KernelState, fr: Frames, slot: nat, p: Process)
    requires Partitioned(k) && slot < |k.procs| && ProcessOk(p)
    requires fr.Ok() && fr.base == k.heap.fr.base
    requires multiset(fr.Live(Kernel)) ==
               multiset(k.heap.fr.Live(Kernel)) - KernelPagesOf(k.procs[slot]) + KernelPagesOf(p)
    requires multiset(fr.Live(User)) == multiset(k.heap.fr.Live(User)) - UserPagesOf(k.procs[slot]) + UserPagesOf(p)
    ensures Partitioned(k.WithFrames(fr).(procs := k.procs[slot := p]))
  {
    FlattenBalance(k.procs, KernelPagesOf, slot, p, HeapPages(k.heap.table),
                   multiset(k.heap.fr.Live(Kernel)), multiset(fr.Live(Kernel)));
    FlattenBalance(k.procs, UserPagesOf, slot, p, multiset{},
                   multiset(k.heap.fr.Live(User)), multiset(fr.Live(User)));
    BlocksStayOk(k.heap, fr);
    ProcessesStayOk(k.procs, slot, p);
  }

  lemma ProcessesStayOk(procs: seq<Process>, slot: nat, p: Process)
    requires ProcessesOk(procs) && slot < |procs| && ProcessOk(p)
    ensures ProcessesOk(procs[slot := p])
  {
  }

  /** A slot's pages are among the pool's live pages. */
  lemma SlotPagesAreLive(k: KernelState, slot: nat)
    requires Partitioned(k) && slot < |k.procs|
    ensures KernelPagesOf(k.procs[slot]) <= multiset(k.heap.fr.Live(Kernel))
    ensures UserPagesOf(k.procs[slot]) <= multiset(k.heap.fr.Live(User))
  {
    FlattenUpdate(k.procs, KernelPagesOf, slot, k.procs[slot]);
    FlattenUpdate(k.procs, UserPagesOf, slot, k.procs[slot]);
  }

  // ----- changes that move no page -----

  /** Rewriting a process without touching its pages keeps the partition. */
  lemma RewriteKeeps(k: KernelState, slot: nat, p: Process)
    requires Partitioned(k) && slot < |k.procs| && ProcessOk(p)
    requires KernelPagesOf(p) == KernelPagesOf(k.procs[slot]) && UserPagesOf(p) == UserPagesOf(k.procs[slot])
    ensures Partitioned(k.(procs := k.procs[slot := p]))
  {
    SlotPagesAreLive(k, slot);
    SlotExchange(k, k.heap.fr, slot, p);
  }

  lemma StateKeeps(k: KernelState, slot: nat, state: ProcState)
    requires Partitioned(k) && slot < |k.procs| && k.procs[slot].state != Unused && state != Unused
    ensures Partitioned(k.(procs := WithState(k.procs, slot, state)))
  {
    RewriteKeeps(k, slot, k.procs[slot].(state := state));
  }

  lemma ExitKeepsPages(k: KernelState, slot: nat, status: int)
    requires Partitioned(k) && slot < |k.procs| && k.procs[slot].state != Unused
    ensures Partitioned(k.(procs := Exit(k.procs, slot, status)))
  {
    var dead := k.procs[slot].(exitStatus := status, state := Zombie);
    RewriteKeeps(k, slot, dead);
    var k1 := k.(procs := k.procs[slot := dead]);
    if dead.parentPID != 0 {
      var parent := FindPID(k1.procs, dead.parentPID, 0);
      if parent.Some? {
        StateKeeps(k1, parent.value, Runnable);
      }
    }
  }

  // ----- creation -----

  lemma EmptySpaceHoldsNothing(f: Mapping -> multiset<int>)
    requires f(NO_MAPPING) == multiset{}
    ensures Flatten(NoMappings(), f) == multiset{}
  {
    FlattenNothing(NoMappings(), f);
  }

  /** A new address space holds one fresh kernel page, its trap page; making one fails only for want of a page. */
  lemma InitSpaceTakesOnePage(fr: Frames)
    requires fr.Ok()
    ensures var (fr', vm) := InitSpace(fr);
            && fr'.Ok() && fr'.base == fr.base && fr'.Live(User) == fr.Live(User)
            && (vm.None? <==> Allocate(fr, Kernel, 1).1.None?)
            && (vm.None? ==> fr' == fr)
            && (vm.Some? ==>
                  && VmOk(vm.value) && UserMapped(vm.value) == multiset{} && |KernelMapped(vm.value)| == 1
                  && multiset(fr'.Live(Kernel)) == multiset(fr.Live(Kernel)) + KernelMapped(vm.value))
  {
    AllocateTakesFreshPages(fr, Kernel, 1);
    AllocateStaysInWindow(fr, Kernel, 1);
    AllocationIsNextFit(fr, Kernel, 1);
    var (fr1, page) := Allocate(fr, Kernel, 1);
    if page.Some? {
      OnePage(page.value);
      TrapSpaceHoldsOnePage(page.value);
      assert multiset(fr1.Live(Kernel)) == multiset(fr.Live(Kernel)) + multiset{page.value};
    }
  }

  lemma TrapSpaceHoldsOnePage(page: nat)
    ensures VmOk(TrapSpace(page)) && UserMapped(TrapSpace(page)) == multiset{}
    ensures KernelMapped(TrapSpace(page)) == multiset{page}
  {
    var m := Mapping(TRAP_PAGE, page, {Read}, Kernel, true, true);
    OneMappingHolds(UserMapping, m);
    OneMappingHolds(KernelMapping, m);
    TrapSpaceOk(page);
  }

  lemma TrapSpaceOk(page: nat)
    ensures VmOk(TrapSpace(page))
  {
  }

  lemma OneMappingHolds(f: Mapping -> multiset<int>, m: Mapping)
    requires f(NO_MAPPING) == multiset{}
    ensures Flatten(NoMappings()[0 := m], f) == f(m)
  {
    EmptySpaceHoldsNothing(f);
    FlattenUpdate(NoMappings(), f, 0, m);
  }

  /** Creating a process takes two fresh kernel pages and one slot, or leaves every page where it was. */
  lemma AllocProcessKeepsPages(k: KernelState, parentPID: nat)
    requires Partitioned(k)
    ensures Partitioned(AllocProcess(k, parentPID).0)
  {
    var fr := k.heap.fr;
    AllocateTakesFreshPages(fr, Kernel, 1);
    AllocationIsNextFit(fr, Kernel, 1);
    var (fr1, kstack) := Allocate(fr, Kernel, 1);
    if kstack.Some? {
      OnePage(kstack.value);
      ReleaseReturnsOnePage(fr1, Kernel, kstack.value);
      var back := Release(fr1, Kernel, kstack.value).0;
      SameLivePages(k, back);
      InitSpaceTakesOnePage(fr1);
      var slot := UnusedSlot(k.procs, 0);
      if slot.Some? {
        var (fr2, vm) := InitSpace(fr1);
        if vm.None? {
          RewriteKeeps(k.WithFrames(back), slot.value, NoProcess());
        } else {
          NewProcessTakesPages(k, parentPID, slot.value, kstack.value, fr1, fr2, vm.value);
        }
      }
    }
  }

  lemma NewProcessTakesPages(k: KernelState, parentPID: nat, slot: nat, kstack: nat, fr1: Frames, fr2: Frames,
                             vm: AddressSpace)
    requires Partitioned(k) && slot < |k.procs| && k.procs[slot].state == Unused
    requires kstack !in k.heap.fr.Live(Kernel) && fr1.Live(Kernel) == k.heap.fr.Live(Kernel) + {kstack}
    requires fr2.Ok() && fr2.base == k.heap.fr.base && fr2.Live(User) == k.heap.fr.Live(User)
    requires VmOk(vm) && UserMapped(vm) == multiset{} && |KernelMapped(vm)| == 1
    requires multiset(fr2.Live(Kernel)) == multiset(fr1.Live(Kernel)) + KernelMapped(vm)
    ensures Partitioned(k.WithFrames(fr2).(procs := k.procs[slot := NewProcess(k.nextPID, parentPID, kstack, vm)]))
  {
    var p := NewProcess(k.nextPID, parentPID, kstack, vm);
    OnePage(kstack);
    assert KernelPagesOf(p) == multiset({kstack as int}) + KernelMapped(vm);
    SlotExchange(k, fr2, slot, p);
  }

  /** New frame state with the same live pages: the partition stands. */
  lemma SameLivePages(k: KernelState, fr: Frames)
    requires Partitioned(k) && fr.Ok() && fr.base == k.heap.fr.base
    requires fr.Live(Kernel) == k.heap.fr.Live(Kernel) && fr.Live(User) == k.heap.fr.Live(User)
    ensures Partitioned(k.WithFrames(fr))
  {
    BlocksStayOk(k.heap, fr);
  }

  lemma BlocksStayOk(h: Heap, fr: Frames)
    requires h.Ok() && fr.Ok() && fr.base == h.fr.base
    ensures h.(fr := fr).Ok()
  {
    forall i | 0 <= i < |h.table| && h.table[i].inUse ensures BlockOk(fr, h.table[i]) {
      assert BlockOk(h.fr, h.table[i]);
    }
  }

  // ----- release -----

  /** What a table holds is live in the pools. */
  ghost predicate TableIsLive(fr: Frames, ms: seq<Mapping>) {
    && fr.Ok()
    && Flatten(ms, KernelMapping) <= multiset(fr.Live(Kernel))
    && Flatten(ms, UserMapping) <= multiset(fr.Live(User))
  }

  /** Freeing the owned pages of a table never fails while they are live, and frees exactly them. */
  lemma {:induction false} ReleaseMappingsReturnsPages(fr: Frames, ms: seq<Mapping>)
    requires TableIsLive(fr, ms)
    ensures var r := ReleaseMappings(fr, ms);
            && r.Some? && r.value.Ok() && r.value.base == fr.base
            && multiset(r.value.Live(Kernel)) == multiset(fr.Live(Kernel)) - Flatten(ms, KernelMapping)
            && multiset(r.value.Live(User)) == multiset(fr.Live(User)) - Flatten(ms, UserMapping)
    decreases |ms|
  {
    if ms != [] {
      HeadPageIsLive(fr, ms);
      var fr' := if ms[0].present && ms[0].owned then Release(fr, ms[0].pool, ms[0].paddr).0 else fr;
      assert ReleaseMappings(fr, ms) == ReleaseMappings(fr', ms[1..]);
      ReleaseMappingsReturnsPages(fr', ms[1..]);
      LessHeadLessRest(multiset(fr.Live(Kernel)), KernelMapping(ms[0]), Flatten(ms[1..], KernelMapping));
      LessHeadLessRest(multiset(fr.Live(User)), UserMapping(ms[0]), Flatten(ms[1..], UserMapping));
    }
  }

  lemma LessHeadLessRest(all: multiset<int>, head: multiset<int>, rest: multiset<int>)
    ensures all - head - rest == all - (head + rest)
  {
  }

  lemma HeadPageIsLive(fr: Frames, ms: seq<Mapping>)
    requires TableIsLive(fr, ms) && ms != []
    ensures var (fr', ok) := if ms[0].present && ms[0].owned then Release(fr, ms[0].pool, ms[0].paddr) else (fr, true);
            && ok && fr'.base == fr.base
            && multiset(fr'.Live(Kernel)) == multiset(fr.Live(Kernel)) - KernelMapping(ms[0])
            && multiset(fr'.Live(User)) == multiset(fr.Live(User)) - UserMapping(ms[0])
            && TableIsLive(fr', ms[1..])
  {
    if ms[0].present && ms[0].owned {
      var page := ms[0].paddr;
      ReleaseReturnsOnePage(fr, ms[0].pool, page);
      if ms[0].pool == Kernel {
        assert page in KernelMapping(ms[0]) && page in Flatten(ms, KernelMapping) && page in multiset(fr.Live(Kernel));
      } else {
        assert page in UserMapping(ms[0]) && page in Flatten(ms, UserMapping) && page in multiset(fr.Live(User));
      }
    }
  }

  /** Releasing a process never panics and gives back exactly its pages. */
  lemma ReleaseProcessKeepsPages(k: KernelState, slot: nat)
    requires Partitioned(k) && slot < |k.procs| && k.procs[slot].state != Unused
    ensures var r := ReleaseProcess(k, slot);
            r.Some? && Partitioned(r.value)
              && r.value == k.(heap := r.value.heap, procs := k.procs[slot := NoProcess()])
  {
    SlotPagesAreLive(k, slot);
    var fr := ProcessPagesReturned(k.heap.fr, k.procs[slot]);
    SlotExchange(k, fr, slot, NoProcess());
  }

  /** The two loops that give back a process's pages never fail, and give back exactly what it holds. */
  lemma ProcessPagesReturned(fr: Frames, p: Process) returns (fr': Frames)
    requires fr.Ok() && p.state != Unused
    requires KernelPagesOf(p) <= multiset(fr.Live(Kernel)) && UserPagesOf(p) <= multiset(fr.Live(User))
    ensures ReleaseMappings(fr, p.vm.mappings).Some?
    ensures ReleaseRun(ReleaseMappings(fr, p.vm.mappings).value, p.kernelStackBase, p.kernelStackPages) == (fr', true)
    ensures fr'.Ok() && fr'.base == fr.base
    ensures multiset(fr'.Live(Kernel)) == multiset(fr.Live(Kernel)) - KernelPagesOf(p)
    ensures multiset(fr'.Live(User)) == multiset(fr.Live(User)) - UserPagesOf(p)
  {
    ReleaseMappingsReturnsPages(fr, p.vm.mappings);
    fr' := StackReturned(ReleaseMappings(fr, p.vm.mappings).value, p);
  }

  lemma StackReturned(fr: Frames, p: Process) returns (fr': Frames)
    requires fr.Ok() && multiset(Pages(p.kernelStackBase, p.kernelStackPages)) <= multiset(fr.Live(Kernel))
    ensures ReleaseRun(fr, p.kernelStackBase, p.kernelStackPages) == (fr', true)
    ensures fr'.Ok() && fr'.base == fr.base && fr'.Live(User) == fr.Live(User)
    ensures multiset(fr'.Live(Kernel)) ==
              multiset(fr.Live(Kernel)) - multiset(Pages(p.kernelStackBase, p.kernelStackPages))
  {
    StackStaysLive(fr, p);
    ReleaseRunReturnsPages(fr, p.kernelStackBase, p.kernelStackPages);
    fr' := ReleaseRun(fr, p.kernelStackBase, p.kernelStackPages).0;
    SetMinus(fr.Live(Kernel), Pages(p.kernelStackBase, p.kernelStackPages));
  }

  lemma SetMinus(a: set<int>, b: set<int>)
    requires b <= a
    ensures multiset(a - b) == multiset(a) - multiset(b)
  {
  }

  lemma StackStaysLive(fr: Frames, p: Process)
    requires multiset(Pages(p.kernelStackBase, p.kernelStackPages)) <= multiset(fr.Live(Kernel))
    ensures Pages(p.kernelStackBase, p.kernelStackPages) <= fr.Live(Kernel)
  {
    forall a | a in Pages(p.kernelStackBase, p.kernelStackPages) ensures a in fr.Live(Kernel) {
      assert a in multiset(Pages(p.kernelStackBase, p.kernelStackPages));
    }
  }

  // ----- heap and user copies -----

  /** What one process's user copies work on. */
  function UserView(k: KernelState, slot: nat): UserMem
    requires slot < |k.procs|
  {
    UserMem(k.heap.fr, k.procs[slot].vm, k.procs[slot].faulted, k.heap.ram)
  }

  function WithUserView(k: KernelState, slot: nat, u: UserMem): KernelState
    requires slot < |k.procs|
  {
    k.(heap := k.heap.(fr := u.fr, ram := u.ram),
       procs := k.procs[slot := k.procs[slot].(vm := u.vm, faulted := u.faulted)])
  }

  /** The user pages every other process holds. */
  ghost function OthersUserPages(k: KernelState, slot: nat): multiset<int>
    requires slot < |k.procs|
  {
    UserHeld(k.procs) - UserPagesOf(k.procs[slot])
  }

  lemma UserViewOk(k: KernelState, slot: nat)
    requires Partitioned(k) && slot < |k.procs| && k.procs[slot].state != Unused
    ensures UserOk(UserView(k, slot), OthersUserPages(k, slot))
  {
    FlattenUpdate(k.procs, UserPagesOf, slot, k.procs[slot]);
  }

  /** A copy that only grows the process's stack keeps the partition. */
  lemma UserStepKeeps(k: KernelState, slot: nat, u': UserMem)
    requires Partitioned(k) && slot < |k.procs| && k.procs[slot].state != Unused
    requires u'.ram.base == k.heap.ram.base && |u'.ram.bytes| == |k.heap.ram.bytes|
    requires Grows(UserView(k, slot).(ram := u'.ram), u', OthersUserPages(k, slot))
    ensures Partitioned(WithUserView(k, slot, u'))
  {
    var p := k.procs[slot];
    var p' := p.(vm := u'.vm, faulted := u'.faulted);
    FlattenUpdate(k.procs, UserPagesOf, slot, p);
    SlotPagesAreLive(k, slot);
    SlotExchange(k, u'.fr, slot, p');
  }
}
