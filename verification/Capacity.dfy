/** How far the fixed tables and pools reach. */
module Capacity {
  import opened Common
  import opened PhysicalMemory
  import opened HeapModel
  import opened VmModel
  import opened VmProofs
  import opened ProcessModel
  import opened Ownership
  import opened Room

  /** A pool all of whose frames are usable can serve as many pages as it has frames. */
  lemma AllUsablePages(fr: Frames, pool: Pool)
    requires fr.Ok() && forall f | fr.Range(pool).start <= f < fr.Range(pool).end :: fr.usable[f]
    ensures |UsablePages(fr, pool)| == fr.Range(pool).end - fr.Range(pool).start
  {
    var r := fr.Range(pool);
    var all := FrameAddresses(fr.base, r.start, r.end - r.start);
    forall a: int ensures a in all <==> a in UsablePages(fr, pool) {
      UsablePageIsFrame(fr, pool, a);
    }
    assert all == UsablePages(fr, pool);
  }

  lemma UsablePageIsFrame(fr: Frames, pool: Pool, a: int)
    requires fr.Ok() && forall f | fr.Range(pool).start <= f < fr.Range(pool).end :: fr.usable[f]
    ensures var r := fr.Range(pool);
            a in FrameAddresses(fr.base, r.start, r.end - r.start) <==> a in UsablePages(fr, pool)
  {
    var r := fr.Range(pool);
    var f := fr.FrameOf(a);
    if f.Some? {
      FrameAddressIn(fr.base, r.start, r.end - r.start, f.value);
      assert fr.base <= a < fr.base + PHYSICAL_MEMORY_SIZE;
    } else {
      NotFrameAddress(fr, r.start, r.end - r.start, a);
    }
  }

  lemma {:induction false} NotFrameAddress(fr: Frames, start: nat, k: nat, a: int)
    requires fr.FrameOf(a).None? && start + k <= FRAME_COUNT
    ensures a !in FrameAddresses(fr.base, start, k)
  {
    if k > 0 {
      NotFrameAddress(fr, start, k - 1, a);
      assert fr.Address(start + k - 1) != a;
    }
  }

  /** At the default base every kernel frame is usable, so the pool can serve 36 pages. */
  lemma DefaultKernelPages(fr: Frames)
    requires FrameAllocator.PoolsOk(fr) && fr.base == DEFAULT_BASE
    ensures |UsablePages(fr, Kernel)| == 36
  {
    forall f | fr.kernel.start <= f < fr.kernel.end ensures fr.usable[f] {
      FrameAllocator.DefaultBaseIsAllUsable(f);
    }
    AllUsablePages(fr, Kernel);
  }

  /** With a free slot and at most four heap pages, at most 34 of the 36 kernel pages are out. */
  lemma KernelPagesInUse(k: KernelState, slot: nat)
    requires Partitioned(k) && |k.procs| == NPROC && slot < NPROC && k.procs[slot].state == Unused
    requires |HeapPages(k.heap.table)| <= 4
    ensures |k.heap.fr.Live(Kernel)| <= 34
  {
    KernelPagesOut(k);
    InUseAtMost(k.procs);
  }

  /** At the default base, with at most four heap pages live, a process can be created exactly when a slot is unused. */
  lemma ProcessFitsIffSlotFree(k: KernelState, parentPID: nat)
    requires Partitioned(k) && |k.procs| == NPROC
    requires FrameAllocator.PoolsOk(k.heap.fr) && k.heap.fr.base == DEFAULT_BASE
    requires |HeapPages(k.heap.table)| <= 4
    ensures AllocProcess(k, parentPID).1.Some? <==> UnusedSlot(k.procs, 0).Some?
  {
    ProcessFitsIffRoom(k, parentPID);
    DefaultKernelPages(k.heap.fr);
    SlotFreeIff(k.procs);
  }

  // ----- the page table through kernel paths -----

  /** An address space built only by process creation and stack growth: the trap page, then
      the stack from the top down. */
  ghost predicate KernelBuilt(vm: AddressSpace) {
    && VmOk(vm)
    && forall i | 0 <= i < |vm.mappings| ::
         vm.mappings[i].present <==> i <= (USER_STACK_TOP - vm.layout.stackBase) / 4096
  }

  lemma {:induction false} FirstFreeMapping(ms: seq<Mapping>, n: nat, i: nat)
    requires i <= n < |ms| && forall j | 0 <= j < |ms| :: ms[j].present <==> j < n
    ensures FreeMapping(ms, i) == Some(n)
    decreases n - i
  {
    if i < n {
      FirstFreeMapping(ms, n, i + 1);
    }
  }

  /** Its page table never fills: at most 17 of the 128 entries are in use. */
  lemma KernelBuiltTableHasRoom(vm: AddressSpace)
    requires KernelBuilt(vm)
    ensures FreeMapping(vm.mappings, 0) == Some(1 + (USER_STACK_TOP - vm.layout.stackBase) / 4096)
    ensures FreeMapping(vm.mappings, 0).value <= 17
  {
    FirstFreeMapping(vm.mappings, 1 + (USER_STACK_TOP - vm.layout.stackBase) / 4096, 0);
  }

  lemma NewSpaceIsKernelBuilt(fr: Frames)
    requires fr.Ok() && InitSpace(fr).1.Some?
    ensures KernelBuilt(InitSpace(fr).1.value)
  {
    var page := Allocate(fr, Kernel, 1).1.value;
    AllocateStaysInWindow(fr, Kernel, 1);
    TrapSpaceHoldsOnePage(page);
  }

  /** Growth keeps the table kernel-built, so it is refused only for its address or for want of a page. */
  lemma GrowthKeepsKernelBuilt(u: UserMem, others: multiset<int>, faultVA: nat)
    requires UserOk(u, others) && KernelBuilt(u.vm)
    ensures var (u', grown) := GrowStack(u, faultVA);
            && KernelBuilt(u'.vm)
            && (grown <==>
                  STACK_FLOOR <= PageAlignDown(faultVA) && PageAlignDown(faultVA) + 4096 == u.vm.layout.stackBase
                           && Allocate(u.fr, User, 1).1.Some?)
  {
    GrowStackGrows(u, others, faultVA);
    KernelBuiltTableHasRoom(u.vm);
    var page := PageAlignDown(faultVA);
    if STACK_FLOOR <= page && page + 4096 == u.vm.layout.stackBase && Allocate(u.fr, User, 1).1.Some? {
      AllocateStaysInWindow(u.fr, User, 1);
      NotMappedBelowStack(u.vm, page);
      MapOwnedFillsOneEntry(u.vm.mappings, page, Allocate(u.fr, User, 1).1.value, User, STACK_PERM);
    }
  }

  lemma ResolveKeepsKernelBuilt(u: UserMem, others: multiset<int>, va: nat, write: bool)
    requires UserOk(u, others) && KernelBuilt(u.vm)
    ensures KernelBuilt(Resolve(u, va, write).0.vm)
  {
    GrowthKeepsKernelBuilt(u, others, va);
  }

  lemma {:induction false} CopyOutKeepsKernelBuilt(u: UserMem, others: multiset<int>, va: nat, src: seq<byte>)
    requires UserOk(u, others) && KernelBuilt(u.vm)
    ensures KernelBuilt(CopyOut(u, va, src).0.vm)
    decreases |src|
  {
    if src != [] {
      ResolveGrows(u, others, va, true);
      ResolveKeepsKernelBuilt(u, others, va, true);
      var (u1, pa) := Resolve(u, va, true);
      if pa.Some? {
        CopyOutKeepsKernelBuilt(u1.(ram := Poke(u1.ram, pa.value, src[0])), others, va + 1, src[1..]);
      }
    }
  }

  lemma {:induction false} CopyInKeepsKernelBuilt(u: UserMem, others: multiset<int>, va: nat, n: nat)
    requires UserOk(u, others) && KernelBuilt(u.vm)
    ensures KernelBuilt(CopyIn(u, va, n).0.vm)
    decreases n
  {
    if n > 0 {
      ResolveGrows(u, others, va, false);
      ResolveKeepsKernelBuilt(u, others, va, false);
      var (u1, pa) := Resolve(u, va, false);
      if pa.Some? {
        CopyInKeepsKernelBuilt(u1, others, va + 1, n - 1);
      }
    }
  }
}
