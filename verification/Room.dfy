/** When a process fits: the exact count of slots and kernel pages, in every state and at every base. */
module Room {
  import opened PhysicalMemory
  import FrameAllocator
  import opened HeapModel
  import opened ProcessModel
  import opened Ownership

  // ----- pages a pool can serve -----

  ghost predicate IsUsablePage(fr: Frames, pool: Pool, a: int) {
    var f := fr.FrameOf(a);
    f.Some? && fr.Range(pool).start <= f.value < fr.Range(pool).end && f.value < |fr.usable| && fr.usable[f.value]
  }

  /** Every page the pool could ever hand out. */
  ghost function UsablePages(fr: Frames, pool: Pool): set<int> {
    set a | fr.base <= a < fr.base + PHYSICAL_MEMORY_SIZE && IsUsablePage(fr, pool, a)
  }

  lemma SameBacking(fr: Frames, fr': Frames, pool: Pool)
    requires fr'.base == fr.base && fr'.usable == fr.usable
    requires fr'.Range(pool).start == fr.Range(pool).start && fr'.Range(pool).end == fr.Range(pool).end
    ensures UsablePages(fr', pool) == UsablePages(fr, pool)
  {
    forall x ensures IsUsablePage(fr', pool, x) <==> IsUsablePage(fr, pool, x) {
    }
  }

  lemma LivePagesAreUsablePages(fr: Frames, pool: Pool)
    ensures fr.Live(pool) <= UsablePages(fr, pool)
  {
    forall a | a in fr.Live(pool) ensures a in UsablePages(fr, pool) {
      assert fr.IsLive(pool, a);
    }
  }

  lemma FreeUsablePage(fr: Frames, pool: Pool, a: int)
    requires fr.Ok() && a in UsablePages(fr, pool) && a !in fr.Live(pool)
    ensures Allocate(fr, pool, 1).1.Some?
  {
    AllocationIsNextFit(fr, pool, 1);
    assert Fits(fr.used, fr.FrameOf(a).value, 1, fr.Range(pool).end);
  }

  lemma TakenPageWasFree(fr: Frames, pool: Pool)
    requires fr.Ok() && Allocate(fr, pool, 1).1.Some?
    ensures var (fr', a) := Allocate(fr, pool, 1);
            && fr'.Live(pool) == fr.Live(pool) + {a.value} && a.value !in fr.Live(pool)
            && UsablePages(fr', pool) == UsablePages(fr, pool) && fr'.Ok()
  {
    var (fr', a) := Allocate(fr, pool, 1);
    AllocateTakesFreshPages(fr, pool, 1);
    AllocationIsNextFit(fr, pool, 1);
    OnePage(a.value);
    SameBacking(fr, fr', pool);
  }

  /** A single page can be had exactly when not all of the pool's usable pages are out. */
  lemma OnePageIffRoom(fr: Frames, pool: Pool)
    requires fr.Ok()
    ensures |fr.Live(pool)| <= |UsablePages(fr, pool)|
    ensures Allocate(fr, pool, 1).1.Some? <==> |fr.Live(pool)| < |UsablePages(fr, pool)|
  {
    var live, all := fr.Live(pool), UsablePages(fr, pool);
    LivePagesAreUsablePages(fr, pool);
    assert all == live + (all - live);
    if Allocate(fr, pool, 1).1.Some? {
      var (fr', a) := Allocate(fr, pool, 1);
      TakenPageWasFree(fr, pool);
      LivePagesAreUsablePages(fr', pool);
      assert a.value in all - live;
    } else if a :| a in all - live {
      FreeUsablePage(fr, pool, a);
    }
  }

  /** The pages the pool could serve that are not out. */
  ghost function FreePages(fr: Frames, pool: Pool): set<int> {
    UsablePages(fr, pool) - fr.Live(pool)
  }

  /** What a pool packed below its cursor hands out is the least free page, and nothing only when none is free. */
  lemma LeastFreePage(fr: Frames, pool: Pool)
    requires fr.Ok() && PackedBelowCursor(fr, pool)
    ensures var page := Allocate(fr, pool, 1).1;
            && (page.None? <==> FreePages(fr, pool) == {})
            && (page.Some? ==>
                  && page.value in FreePages(fr, pool)
                  && forall a | a in FreePages(fr, pool) :: page.value <= a)
  {
    var (fr', page) := Allocate(fr, pool, 1);
    if page.Some? {
      TakenPageWasFree(fr, pool);
      LivePagesAreUsablePages(fr', pool);
      SinglePagesComeLowestFirst(fr, pool);
      assert page.value in FreePages(fr, pool);
      forall a | a in FreePages(fr, pool) ensures page.value <= a {
        assert fr.Address(fr.FrameOf(a).value) == a;
      }
    } else if a :| a in FreePages(fr, pool) {
      FreeUsablePage(fr, pool, a);
    }
  }

  // ----- slots in use, and the pages they hold -----

  function InUse(procs: seq<Process>): nat {
    if procs == [] then 0 else (if procs[0].state == Unused then 0 else 1) + InUse(procs[1..])
  }

  lemma {:induction false} InUseAtMost(procs: seq<Process>)
    ensures InUse(procs) <= |procs|
    ensures InUse(procs) == |procs| <==> forall i | 0 <= i < |procs| :: procs[i].state != Unused
  {
    if procs != [] {
      InUseAtMost(procs[1..]);
      assert forall i | 0 <= i < |procs[1..]| :: procs[1..][i] == procs[i + 1];
      assert forall i | 1 <= i < |procs| :: procs[i] == procs[1..][i - 1];
    }
  }

  /** Tables whose slots are taken alike have as many in use. */
  lemma {:induction false} InUseAlike(procs: seq<Process>, procs': seq<Process>)
    requires |procs'| == |procs|
    requires forall i | 0 <= i < |procs| :: procs'[i].state == Unused <==> procs[i].state == Unused
    ensures InUse(procs') == InUse(procs)
  {
    if procs != [] {
      InUseAlike(procs[1..], procs'[1..]);
    }
  }

  /** One slot more is taken. */
  lemma {:induction false} InUseOneMore(procs: seq<Process>, procs': seq<Process>, slot: nat)
    requires |procs'| == |procs| && slot < |procs| && procs[slot].state == Unused && procs'[slot].state != Unused
    requires forall i | 0 <= i < |procs| && i != slot :: procs'[i].state == Unused <==> procs[i].state == Unused
    ensures InUse(procs') == InUse(procs) + 1
  {
    if slot == 0 {
      InUseAlike(procs[1..], procs'[1..]);
    } else {
      InUseOneMore(procs[1..], procs'[1..], slot - 1);
    }
  }

  /** Every process holds exactly two kernel pages: its stack and its trap page. */
  lemma {:induction false} TwoPagesEach(procs: seq<Process>)
    requires ProcessesOk(procs)
    ensures |KernelHeld(procs)| == 2 * InUse(procs)
  {
    if procs != [] {
      assert ProcessOk(procs[0]);
      OnePage(procs[0].kernelStackBase);
      forall i | 0 <= i < |procs[1..]| ensures ProcessOk(procs[1..][i]) {
        assert procs[1..][i] == procs[i + 1];
      }
      TwoPagesEach(procs[1..]);
    }
  }

  /** The kernel pages out, counted. */
  lemma KernelPagesOut(k: KernelState)
    requires Partitioned(k)
    ensures |k.heap.fr.Live(Kernel)| == 2 * InUse(k.procs) + |HeapPages(k.heap.table)|
  {
    TwoPagesEach(k.procs);
    assert |multiset(k.heap.fr.Live(Kernel))| == |KernelHeld(k.procs)| + |HeapPages(k.heap.table)|;
  }

  // ----- room for processes -----

  /** Slots and kernel pages for `n` more processes. */
  ghost predicate HasRoom(k: KernelState, n: nat) {
    && InUse(k.procs) + n <= NPROC
    && 2 * (InUse(k.procs) + n) + |HeapPages(k.heap.table)| <= |UsablePages(k.heap.fr, Kernel)|
  }

  lemma SpaceFitsIffRoom(fr: Frames)
    requires fr.Ok() && Allocate(fr, Kernel, 1).1.Some?
    ensures InitSpace(Allocate(fr, Kernel, 1).0).1.Some? <==> |fr.Live(Kernel)| + 2 <= |UsablePages(fr, Kernel)|
  {
    TakenPageWasFree(fr, Kernel);
    var fr' := Allocate(fr, Kernel, 1).0;
    OnePageIffRoom(fr', Kernel);
    InitSpaceTakesOnePage(fr');
  }

  lemma SlotFreeIff(procs: seq<Process>)
    ensures UnusedSlot(procs, 0).Some? <==> InUse(procs) < |procs|
  {
    InUseAtMost(procs);
  }

  /** A process can be created exactly when there is room for one: a slot, and two usable kernel pages not out. */
  lemma ProcessFitsIffRoom(k: KernelState, parentPID: nat)
    requires Partitioned(k) && |k.procs| == NPROC
    ensures AllocProcess(k, parentPID).1.Some? <==> HasRoom(k, 1)
  {
    KernelPagesOut(k);
    OnePageIffRoom(k.heap.fr, Kernel);
    SlotFreeIff(k.procs);
    if Allocate(k.heap.fr, Kernel, 1).1.Some? {
      SpaceFitsIffRoom(k.heap.fr);
    }
  }

  /** The pages a pool can serve do not change. */
  lemma SameUsablePages(fr: Frames, fr': Frames)
    requires FrameAllocator.PoolsOk(fr) && FrameAllocator.PoolsOk(fr') && fr'.base == fr.base
    ensures UsablePages(fr', Kernel) == UsablePages(fr, Kernel)
  {
    SameBacking(fr, fr', Kernel);
  }
}
