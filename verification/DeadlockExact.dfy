/** Exactly when a creation can lead to a deadlock, whatever room the kernel has. */
module DeadlockExact {
  import opened Common
  import opened PhysicalMemory
  import opened HeapModel
  import opened ProcessModel
  import opened Scheduling
  import opened Ownership
  import opened Room
  import opened Machine
  import opened Runs
  import opened Deadlock
  import opened Reachability
  import opened DeadlockRun

  // ----- room that can still be made -----

  /** The fewest pages the heap can be brought to hold: none, once it is up. */
  ghost function HeapFloor(h: Heap): nat {
    if h.ready then 0 else |HeapPages(h.table)|
  }

  /** Slots and kernel pages for `n` more processes, once the heap has given back what it can. */
  ghost predicate CouldFit(k: KernelState, n: nat) {
    && InUse(k.procs) + n <= NPROC
    && 2 * (InUse(k.procs) + n) + HeapFloor(k.heap) <= |UsablePages(k.heap.fr, Kernel)|
  }

  /** The process in slot `i` lives, and the one in slot `j` is its child. */
  predicate IsFamily(procs: seq<Process>, i: nat, j: nat) {
    i < |procs| && procs[i].state !in {Unused, Zombie} && ChildOf(procs, j, procs[i].pid)
  }

  /** Somebody alive has a child, and can reap it one day. */
  ghost predicate HasFamily(procs: seq<Process>) {
    exists i, j :: IsFamily(procs, i, j)
  }

  // ----- emptying the heap -----

  lemma FreeBlock(k0: KernelState, k: KernelState, address: nat) returns (k': KernelState)
    requires Safe(k0) && Gets(k0, k)
    ensures k' == k.(heap := HeapFree(k.heap, address).0) && Gets(k0, k')
    ensures k'.heap.ready == k.heap.ready && k'.heap.fr.base == k.heap.fr.base
  {
    GetsOwner(k0, k);
    HeapFreeKeepsOwnership(k.heap, KernelHeld(k.procs), address);
    GetsShape(k0, k);
    k' := Next(k, HeapFrees(address)).value;
    FreeIsStep(k0, k, address);
    ReachesOneMore(Advance, Inner, k0, k, HeapFrees(address));
  }

  lemma GetsOwner(k0: KernelState, k: KernelState)
    requires Safe(k0) && Gets(k0, k)
    ensures k.heap.Ok() && Owns(k.heap, KernelHeld(k.procs))
  {
    GetsOk(k0, k);
  }

  lemma GetsShape(k0: KernelState, k: KernelState)
    requires Safe(k0) && Gets(k0, k)
    ensures Shaped(k)
  {
    GetsOk(k0, k);
  }

  lemma FreeIsStep(k0: KernelState, k: KernelState, address: nat)
    requires Safe(k0) && Gets(k0, k) && Shaped(k)
    ensures Next(k, HeapFrees(address)) == Some(Advance(k, HeapFrees(address)))
  {
    GetsOk(k0, k);
  }

  /** Freeing a tracked block leaves the heap fewer pages. */
  lemma FreedBlockShrinks(h: Heap, i: nat)
    requires h.Ok() && h.ready && i < |h.table| && h.table[i].inUse
    ensures |HeapPages(HeapFree(h, h.table[i].base).0.table)| < |HeapPages(h.table)|
  {
    var e := FindBlock(h.table, h.table[i].base, 0).value;
    FlattenUpdate(h.table, BlockPages, e, NO_BLOCK);
    assert BlockOk(h.fr, h.table[e]);
    assert h.table[e].base in BlockPages(h.table[e]);
    assert HeapPages(h.table) == HeapPages(h.table[e := NO_BLOCK]) + BlockPages(h.table[e]);
  }

  lemma {:induction false} DrainHeap(k0: KernelState, k: KernelState) returns (k': KernelState)
    requires Safe(k0) && Gets(k0, k) && k.heap.ready
    ensures Gets(k0, k') && k' == k.(heap := k'.heap) && HeapPages(k'.heap.table) == multiset{}
    ensures k'.heap.fr.base == k.heap.fr.base
    decreases |HeapPages(k.heap.table)|
  {
    if i: nat :| i < |k.heap.table| && k.heap.table[i].inUse {
      GetsPools(k0, k);
      FreedBlockShrinks(k.heap, i);
      var k1 := FreeBlock(k0, k, k.heap.table[i].base);
      k' := DrainHeap(k0, k1);
    } else {
      k' := k;
      FlattenNothing(k.heap.table, BlockPages);
    }
  }

  /** The room that could be made is made. */
  lemma MakeRoom(k0: KernelState, k: KernelState, n: nat) returns (k': KernelState)
    requires Safe(k0) && Gets(k0, k) && CouldFit(k, n)
    ensures Gets(k0, k') && k' == k.(heap := k'.heap) && HasRoom(k', n)
  {
    if k.heap.ready {
      k' := DrainHeap(k0, k);
      GetsPools(k0, k);
      GetsPools(k0, k');
      SameUsablePages(k.heap.fr, k'.heap.fr);
    } else {
      k' := k;
    }
  }

  // ----- reaping somebody -----

  /** Beside the fresh process: nobody runs, the process in slot `i` is ready and the one in
      slot `j`, its child, is dead. */
  ghost predicate Ripe(k: KernelState, a: nat, n: nat, p: nat, i: nat, j: nat) {
    && Clearing(k, a, n, p, 0) && k.current.None?
    && i != a && j != a && IsFamily(k.procs, i, j) && k.procs[i].state == Runnable && k.procs[j].state == Zombie
  }

  /** The same, with room and the next pid as they were. */
  ghost predicate RipeTo(k0: KernelState, a: nat, n: nat, p: nat, i: nat, j: nat, k: KernelState) {
    Gets(k0, k) && Ripe(k, a, n, p, i, j) && HasRoom(k, 0) && k.nextPID == n + 1
  }

  lemma YieldTable(k: KernelState, k': KernelState, a: nat, n: nat, p: nat)
    requires Shaped(k) && Clearing(k, a, n, p, 0) && k.current.Some?
    requires Next(k, CallYield) == Some(k') && SchedulerOk(k')
    ensures Clearing(k', a, n, p, 0) && k'.current.None? && k'.nextPID == k.nextPID
    ensures k'.procs == WithState(k.procs, k.current.value, Runnable)
    ensures Takes(Emits(k, CallYield)) == 0
  {
    NextSwitch(k, CallYield);
  }

  lemma FamilyYields(procs: seq<Process>, c: nat, i: nat, j: nat)
    requires c < |procs| && procs[c].state == Running && IsFamily(procs, i, j)
    ensures IsFamily(WithState(procs, c, Runnable), i, j)
  {
  }

  /** Whoever runs yields. */
  lemma FreeProcessor(k0: KernelState, k: KernelState, a: nat, n: nat, p: nat, i: nat, j: nat) returns (k': KernelState)
    requires Safe(k0) && ClearedTo(k0, a, n, p, 0, n + 1, k, 0) && IsFamily(k.procs, i, j)
    ensures ClearedTo(k0, a, n, p, 0, n + 1, k', 0) && IsFamily(k'.procs, i, j) && k'.current.None?
  {
    if k.current.None? {
      k' := k;
    } else {
      k' := YieldOnce(k0, k, a, n, p, i, j);
    }
  }

  lemma YieldOnce(k0: KernelState, k: KernelState, a: nat, n: nat, p: nat, i: nat, j: nat) returns (k': KernelState)
    requires Safe(k0) && ClearedTo(k0, a, n, p, 0, n + 1, k, 0) && IsFamily(k.procs, i, j) && k.current.Some?
    ensures ClearedTo(k0, a, n, p, 0, n + 1, k', 0) && IsFamily(k'.procs, i, j) && k'.current.None?
  {
    k' := StepOn(k0, k, CallYield);
    YieldTable(k, k', a, n, p);
    FamilyYields(k.procs, k.current.value, i, j);
    RoomAfter(k0, k, CallYield, k', 0, 0);
  }

  /** A parent whose child is dead does not sleep. */
  lemma DeadChildKeepsAwake(k: KernelState, i: nat, j: nat)
    requires SchedulerOk(k) && k.current.None? && IsFamily(k.procs, i, j) && k.procs[j].state == Zombie
    ensures k.procs[i].state == Runnable
  {
    assert k.procs[i].state == Sleeping ==> Waits(k.procs, k.procs[i].pid);
  }

  lemma KillTheChild(k: KernelState, k': KernelState, a: nat, n: nat, p: nat, i: nat, j: nat)
    requires Shaped(k) && Clearing(k, a, n, p, 0) && k.current.None?
    requires i != a && j != a && i != j && IsFamily(k.procs, i, j)
    requires Next(k, CallKill(k.procs[j].pid)) == Some(k') && SchedulerOk(k')
    ensures Ripe(k', a, n, p, i, j) && k'.nextPID == k.nextPID
    ensures Takes(Emits(k, CallKill(k.procs[j].pid))) == 0
  {
    KillShape(k, j);
    DeadChildKeepsAwake(k', i, j);
  }

  lemma Ripen(k0: KernelState, k: KernelState, a: nat, n: nat, p: nat, i: nat, j: nat) returns (k': KernelState)
    requires Safe(k0) && ClearedTo(k0, a, n, p, 0, n + 1, k, 0) && k.current.None?
    requires i != a && j != a && i != j && IsFamily(k.procs, i, j)
    ensures RipeTo(k0, a, n, p, i, j, k')
  {
    if k.procs[j].state == Zombie {
      k' := k;
      DeadChildKeepsAwake(k, i, j);
    } else {
      k' := RipenByKill(k0, k, a, n, p, i, j);
    }
  }

  lemma RipenByKill(k0: KernelState, k: KernelState, a: nat, n: nat, p: nat, i: nat, j: nat) returns (k': KernelState)
    requires Safe(k0) && ClearedTo(k0, a, n, p, 0, n + 1, k, 0) && k.current.None?
    requires i != a && j != a && i != j && IsFamily(k.procs, i, j)
    ensures RipeTo(k0, a, n, p, i, j, k')
  {
    var step := CallKill(k.procs[j].pid);
    k' := StepOn(k0, k, step);
    KillTheChild(k, k', a, n, p, i, j);
    RoomAfter(k0, k, step, k', 0, 0);
  }

  /** Picked and yielding at once: only the scheduler's place in the table moves. */
  lemma PassTable(k: KernelState, k1: KernelState, k2: KernelState, r: nat)
    requires Shaped(k) && SchedulerOk(k) && k.current.None? && PickNext(k.procs, k.lastScheduledSlot) == Some(r)
    requires Next(k, Schedule) == Some(k1) && Shaped(k1) && SchedulerOk(k1) && Next(k1, CallYield) == Some(k2)
    ensures k2 == k.(lastScheduledSlot := r, scheduleRequested := true)
  {
    NextSchedule(k);
    NextSwitch(k1, CallYield);
    assert k2.procs == k.procs;
  }

  lemma PassOver(k0: KernelState, k: KernelState, r: nat) returns (k': KernelState)
    requires Safe(k0) && Gets(k0, k) && SchedulerOk(k) && k.current.None?
    requires PickNext(k.procs, k.lastScheduledSlot) == Some(r)
    ensures Gets(k0, k') && k' == k.(lastScheduledSlot := r, scheduleRequested := true)
  {
    var k1 := StepOn(k0, k, Schedule);
    k' := StepOn(k0, k1, CallYield);
    GetsOk(k0, k);
    PassTable(k, k1, k', r);
  }

  /** The others yield until the parent's turn has come. */
  lemma {:induction false} AwaitTurn(k0: KernelState, k: KernelState, a: nat, n: nat, p: nat, i: nat, j: nat)
    returns (k': KernelState)
    requires Safe(k0) && RipeTo(k0, a, n, p, i, j, k)
    ensures RipeTo(k0, a, n, p, i, j, k') && PickNext(k'.procs, k'.lastScheduledSlot) == Some(i)
    decreases CyclicDistance(k.lastScheduledSlot, i)
  {
    var r := PickNext(k.procs, k.lastScheduledSlot);
    OtherPickBringsNearer(k.procs, k.lastScheduledSlot, i);
    if r == Some(i) {
      k' := k;
    } else {
      var k1 := PassOver(k0, k, r.value);
      k' := AwaitTurn(k0, k1, a, n, p, i, j);
    }
  }

  /** Its turn has come. */
  ghost predicate Reaping(k: KernelState, a: nat, n: nat, p: nat, i: nat, j: nat) {
    && Clearing(k, a, n, p, 0) && k.current == Some(i) && i != a && j != a
    && IsFamily(k.procs, i, j) && k.procs[j].state == Zombie
  }

  lemma TurnTable(k: KernelState, k': KernelState, a: nat, n: nat, p: nat, i: nat, j: nat)
    requires Shaped(k) && Ripe(k, a, n, p, i, j) && PickNext(k.procs, k.lastScheduledSlot) == Some(i)
    requires Next(k, Schedule) == Some(k') && SchedulerOk(k')
    ensures Reaping(k', a, n, p, i, j) && k'.nextPID == k.nextPID
    ensures Takes(Emits(k, Schedule)) == 0
  {
    NextSchedule(k);
  }

  lemma ReapingTable(k: KernelState, k': KernelState, a: nat, n: nat, p: nat, i: nat, j: nat)
    requires Shaped(k) && Reaping(k, a, n, p, i, j)
    requires Next(k, CallWait) == Some(k') && SchedulerOk(k')
    ensures Clearing(k', a, n, p, 0) && k'.nextPID == k.nextPID
    ensures Takes(Emits(k, CallWait)) == -1
  {
    assert ZombieChild(k.procs, k.procs[i].pid, 0).Some?;
    NextReap(k);
  }

  /** A living parent reaps a child beside the fresh process, which makes room for one more. */
  lemma ReapSomebody(k0: KernelState, k: KernelState, a: nat, n: nat, p: nat, i: nat, j: nat) returns (k': KernelState)
    requires Safe(k0) && ClearedTo(k0, a, n, p, 0, n + 1, k, 0)
    requires i != a && j != a && i != j && IsFamily(k.procs, i, j)
    ensures ClearedTo(k0, a, n, p, 1, n + 1, k', 0)
  {
    var k1 := FreeProcessor(k0, k, a, n, p, i, j);
    var k2 := Ripen(k0, k1, a, n, p, i, j);
    var k3 := AwaitTurn(k0, k2, a, n, p, i, j);
    k' := ReapInTurn(k0, k3, a, n, p, i, j);
  }

  lemma ReapInTurn(k0: KernelState, k: KernelState, a: nat, n: nat, p: nat, i: nat, j: nat) returns (k': KernelState)
    requires Safe(k0) && RipeTo(k0, a, n, p, i, j, k) && PickNext(k.procs, k.lastScheduledSlot) == Some(i)
    ensures ClearedTo(k0, a, n, p, 1, n + 1, k', 0)
  {
    var k1 := StartReaping(k0, k, a, n, p, i, j);
    k' := StepOn(k0, k1, CallWait);
    ReapingTable(k1, k', a, n, p, i, j);
    RoomAfter(k0, k1, CallWait, k', 0, 1);
  }

  lemma StartReaping(k0: KernelState, k: KernelState, a: nat, n: nat, p: nat, i: nat, j: nat) returns (k': KernelState)
    requires Safe(k0) && RipeTo(k0, a, n, p, i, j, k) && PickNext(k.procs, k.lastScheduledSlot) == Some(i)
    ensures Gets(k0, k') && Reaping(k', a, n, p, i, j) && HasRoom(k', 0) && k'.nextPID == n + 1
  {
    k' := StepOn(k0, k, Schedule);
    TurnTable(k, k', a, n, p, i, j);
    RoomAfter(k0, k, Schedule, k', 0, 0);
  }

  // ----- where nothing can be made room for -----

  /** Nobody alive has a child, and no process fits even with the heap empty. */
  ghost predicate Sealed(k: KernelState) {
    !HasFamily(k.procs) && !CouldFit(k, 1)
  }

  /** Sleepers have children. */
  lemma SealedIsNotStuck(k: KernelState)
    requires SchedulerOk(k) && Sealed(k)
    ensures !Stuck(k)
  {
    if i: nat :| i < NPROC && k.procs[i].state == Sleeping {
      assert Waits(k.procs, k.procs[i].pid);
      var j :| 0 <= j < NPROC && ChildOf(k.procs, j, k.procs[i].pid);
      assert IsFamily(k.procs, i, j);
    }
  }

  lemma CreatedFits(k: KernelState, step: Step)
    requires SchedulerOk(k)
    ensures var e := Emits(k, step);
            e.Some? && e.value.Created? ==> AllocProcess(k, e.value.parentPID).1.Some?
  {
  }

  lemma ReapedWasFamily(k: KernelState, step: Step)
    requires SchedulerOk(k)
    ensures var e := Emits(k, step); e.Some? && e.value.Reaped? ==> HasFamily(k.procs)
  {
    var e := Emits(k, step);
    if e.Some? && e.value.Reaped? {
      assert IsFamily(k.procs, k.current.value, e.value.slot);
    }
  }

  lemma NoNewFamily(k: KernelState, k': KernelState, e: Option<Event>)
    requires SchedulerOk(k) && Matches(k, k', e) && (e.Some? ==> !e.value.Created? && !e.value.Reaped?)
    ensures InUse(k'.procs) == InUse(k.procs) && (HasFamily(k'.procs) ==> HasFamily(k.procs))
  {
    EventCountsSlots(k, k', e);
    if i, j :| IsFamily(k'.procs, i, j) {
      assert IsFamily(k.procs, i, j);
    }
  }

  /** What bounds the room: the base, and the heap's floor. */
  ghost predicate SameBounds(h: Heap, h': Heap) {
    h'.fr.base == h.fr.base && HeapFloor(h') == HeapFloor(h)
  }

  lemma HeapStepKeepsBounds(k: KernelState, step: Step)
    requires Shaped(k) && Partitioned(k) && HeapStep(step)
    ensures Next(k, step).Some? ==> SameBounds(k.heap, Next(k, step).value.heap)
  {
    var h, others := k.heap, KernelHeld(k.procs);
    match step
    case HeapAllocs(size) => AllocKeepsBounds(h, others, size);
    case HeapFrees(address) => HeapFreeKeepsOwnership(h, others, address);
    case HeapReallocs(address, size) => ReallocKeepsBounds(h, others, address, size);
  }

  lemma AllocKeepsBounds(h: Heap, others: multiset<int>, size: nat)
    requires h.Ok() && Owns(h, others)
    ensures var (h', out) := RuntimeAlloc(h, size); SameBounds(h, h') && (!h.ready ==> size == 0 || out.Panicked?)
  {
    if size > 0 {
      HeapAllocKeepsOwnership(h, others, size);
    }
  }

  lemma ReallocKeepsBounds(h: Heap, others: multiset<int>, address: nat, size: nat)
    requires h.Ok() && Owns(h, others)
    ensures var (h', out) := RuntimeRealloc(h, address, size); out.Panicked? || SameBounds(h, h')
  {
    AllocKeepsBounds(h, others, size);
    HeapFreeKeepsOwnership(h, others, address);
    if address != 0 && size > 0 && FindBlock(h.table, address, 0).Some? {
      ReallocMovesBlock(h, others, address, size);
    }
  }

  lemma StepKeepsBounds(k: KernelState, step: Step)
    requires Shaped(k) && Partitioned(k) && Next(k, step).Some?
    requires Next(k, step).value.heap.Ok()
    ensures SameBounds(k.heap, Next(k, step).value.heap)
  {
    if UserStep(step) {
      NextUser(k, step);
      if Live(k, step.slot) {
        UserAfterGrows(k, step);
      }
    } else if HeapStep(step) {
      HeapStepKeepsBounds(k, step);
    } else {
      ProcessStepKeepsHeap(k, step);
    }
  }

  lemma SealedStays(k: KernelState, step: Step)
    requires SystemOk(k) && Sealed(k)
    ensures Sealed(After(k, step))
  {
    NextKeeps(k, step);
    if Next(k, step).Some? {
      StepMatchesEvent(k, step);
      CreatedFits(k, step);
      ReapedWasFamily(k, step);
      StepKeepsBounds(k, step);
      SealedByEvent(k, Next(k, step).value, Emits(k, step));
    }
  }

  lemma SealedByEvent(k: KernelState, k': KernelState, e: Option<Event>)
    requires Partitioned(k) && SchedulerOk(k) && Sealed(k) && Matches(k, k', e) && SameBounds(k.heap, k'.heap)
    requires FrameAllocator.PoolsOk(k.heap.fr) && FrameAllocator.PoolsOk(k'.heap.fr)
    requires e.Some? && e.value.Created? ==> AllocProcess(k, e.value.parentPID).1.Some?
    requires e.Some? && e.value.Reaped? ==> HasFamily(k.procs)
    ensures Sealed(k')
  {
    if e.Some? && e.value.Created? {
      ProcessFitsIffRoom(k, e.value.parentPID);
    }
    NoNewFamily(k, k', e);
    SameUsablePages(k.heap.fr, k'.heap.fr);
  }

  lemma {:induction false} SealedRun(k: KernelState, steps: seq<Step>)
    requires SystemOk(k) && Sealed(k)
    ensures !Stuck(Run(k, steps))
    decreases |steps|
  {
    if steps == [] {
      SealedIsNotStuck(k);
    } else {
      SealedStays(k, steps[0]);
      SealedRun(After(k, steps[0]), steps[1..]);
    }
  }

  // ----- exactly when -----

  /** A creation, with a free slot and two pages, fills a slot that was unused. */
  lemma CreateWithRoom(k: KernelState, p: nat) returns (k': KernelState, a: nat)
    requires SystemOk(k) && ParentsBelow(k.procs) && HasRoom(k, 1)
    ensures k' == After(k, CreateKernel(p)) && SystemOk(k') && HasRoom(k', 0)
    ensures Clearing(k', a, k.nextPID, p, 0) && k'.nextPID == k.nextPID + 1
    ensures a < |k.procs| && k.procs[a].state == Unused && k'.procs == k.procs[a := k'.procs[a]]
    ensures InUse(k'.procs) == InUse(k.procs) + 1 && SameBounds(k.heap, k'.heap)
  {
    k', a := CreateOne(k, p, 0);
    ProcessFitsIffRoom(k, p);
    CreationAddsOne(k, k', p, a);
  }

  lemma CreationAddsOne(k: KernelState, k': KernelState, p: nat, a: nat)
    requires Shaped(k) && SchedulerOk(k) && AllocProcess(k, p).1.Some? && Next(k, CreateKernel(p)) == Some(k')
    requires k'.heap.Ok() && a < |k'.procs| && k'.procs[a].pid == k.nextPID && k'.procs[a].state == Runnable
    ensures a < |k.procs| && k.procs[a].state == Unused && k'.procs == k.procs[a := k'.procs[a]]
    ensures InUse(k'.procs) == InUse(k.procs) + 1 && SameBounds(k.heap, k'.heap)
  {
    CreatedSlot(k, k', p, a);
    InUseOneMore(k.procs, k'.procs, a);
    CreationKeepsBounds(k, k', p);
  }

  lemma CreationKeepsBounds(k: KernelState, k': KernelState, p: nat)
    requires Shaped(k) && Next(k, CreateKernel(p)) == Some(k') && k'.heap.Ok()
    ensures SameBounds(k.heap, k'.heap)
  {
    NextCreateKernel(k, p);
    CreationKeepsHeap(k, p);
  }

  lemma CreatedSlot(k: KernelState, k': KernelState, p: nat, a: nat)
    requires Shaped(k) && SchedulerOk(k) && AllocProcess(k, p).1.Some? && Next(k, CreateKernel(p)) == Some(k')
    requires a < |k'.procs| && k'.procs[a].pid == k.nextPID && k'.procs[a].state == Runnable
    ensures a < |k.procs| && k.procs[a].state == Unused && k'.procs == k.procs[a := k'.procs[a]]
  {
    NextCreateKernel(k, p);
    var slot := CreationShape(k, p);
  }

  /** Without room nothing is created. */
  lemma CreateWithoutRoom(k: KernelState, p: nat)
    requires SystemOk(k) && ParentsBelow(k.procs) && !HasRoom(k, 1)
    ensures ParentsBelow(After(k, CreateKernel(p)).procs)
  {
    ProcessFitsIffRoom(k, p);
    StepKeepsParentsBelow(k, CreateKernel(p));
  }

  /** The new process has no child, and nobody else alive has gained one. */
  lemma CreatedFamilies(k: KernelState, k': KernelState, a: nat, p: nat)
    requires SchedulerOk(k) && ParentsBelow(k.procs) && p > k.nextPID
    requires |k'.procs| == |k.procs| && a < |k.procs|
    requires k'.procs == k.procs[a := k'.procs[a]] && k.procs[a].state == Unused
    requires k'.procs[a].pid == k.nextPID && k'.procs[a].parentPID == p
    ensures HasFamily(k'.procs) ==> HasFamily(k.procs)
  {
    if i, j :| IsFamily(k'.procs, i, j) {
      assert j == a || IsFamily(k.procs, i, j);
    }
  }

  /** With no room for a second process to be made, a parent not yet numbered does no harm. */
  lemma SealedIsSafe(k: KernelState, p: nat)
    requires SystemOk(k) && ParentsBelow(k.procs) && HasRoom(k, 1) && p > k.nextPID
    requires !CouldFit(k, 2) && !HasFamily(k.procs)
    ensures NeverStuck(After(k, CreateKernel(p)))
  {
    var k1, a := CreateWithRoom(k, p);
    CreatedFamilies(k, k1, a, p);
    SameUsablePages(k.heap.fr, k1.heap.fr);
    forall steps ensures !Stuck(Run(k1, steps)) {
      SealedRun(k1, steps);
    }
  }

  /** Where room for a second process can be made, the kernel can get stuck. */
  lemma RoomCanBeMade(k: KernelState, p: nat) returns (steps: seq<Step>)
    requires SystemOk(k) && ParentsBelow(k.procs) && HasRoom(k, 1) && p > k.nextPID
    requires CouldFit(k, 2) || HasFamily(k.procs)
    ensures NoCreation(steps) && Stuck(Run(After(k, CreateKernel(p)), steps))
  {
    var k1, a := CreateWithRoom(k, p);
    OkIsSafe(k1);
    ReachesItself(Advance, Inner, k1);
    var k2 := MadeRoom(k, k1, a, p);
    var k3 := FreshGetsStuck(k1, k2, a, k.nextPID, p, 1);
    steps := GetsByRun(k1, k3);
  }

  lemma MadeRoom(k: KernelState, k1: KernelState, a: nat, p: nat) returns (k2: KernelState)
    requires Safe(k1) && ClearedTo(k1, a, k.nextPID, p, 0, k.nextPID + 1, k1, 0)
    requires ParentsBelow(k.procs) && FrameAllocator.PoolsOk(k.heap.fr) 
    requires CouldFit(k, 2) || HasFamily(k.procs)
    requires a < |k.procs| && |k1.procs| == |k.procs| && k1.procs == k.procs[a := k1.procs[a]]
    requires k.procs[a].state == Unused && InUse(k1.procs) == InUse(k.procs) + 1 && SameBounds(k.heap, k1.heap)
    ensures ClearedTo(k1, a, k.nextPID, p, 1, k.nextPID + 1, k2, 0)
  {
    if CouldFit(k, 2) {
      GetsPools(k1, k1);
      SameUsablePages(k.heap.fr, k1.heap.fr);
      k2 := MakeRoom(k1, k1, 1);
    } else {
      var i, j :| IsFamily(k.procs, i, j);
      k2 := ReapSomebody(k1, k1, a, k.nextPID, p, i, j);
    }
  }

  /** The exact condition, whatever room there is: where parents are older, creating a process for parent `p` leaves the
      kernel free of deadlock, over every run whose own outside creations name old parents, exactly when `p` is numbered
      already, or nothing is created for want of room, or the process is not its own parent and no room for a second one
      can ever be made: not by emptying the heap, and not by a living process reaping a child. */
  lemma DeadlockFreeIff(k: KernelState, p: nat)
    requires SystemOk(k) && ParentsBelow(k.procs)
    ensures NeverStuck(After(k, CreateKernel(p))) <==>
              || p < k.nextPID
              || !HasRoom(k, 1)
              || (p > k.nextPID && !CouldFit(k, 2) && !HasFamily(k.procs))
  {
    var k1 := After(k, CreateKernel(p));
    if p < k.nextPID {
      NumberedParentStaysBelow(k, p);
      OldParentsAreSafe(k1);
    } else if !HasRoom(k, 1) {
      CreateWithoutRoom(k, p);
      OldParentsAreSafe(k1);
    } else if p == k.nextPID {
      var steps := LaterParentGetsStuck(k, p);
      StuckRunIsNotSafe(k1, steps);
    } else if CouldFit(k, 2) || HasFamily(k.procs) {
      var steps := RoomCanBeMade(k, p);
      StuckRunIsNotSafe(k1, steps);
    } else {
      SealedIsSafe(k, p);
    }
  }

  // ----- a kernel where the third case holds -----

  ghost predicate Orphaned(procs: seq<Process>) {
    forall i | 0 <= i < |procs| && procs[i].state != Unused :: procs[i].parentPID == 0
  }

  lemma OrphansHaveNoFamily(k: KernelState)
    requires SchedulerOk(k) && Orphaned(k.procs)
    ensures ParentsBelow(k.procs) && !HasFamily(k.procs)
  {
  }

  lemma CreateOrphan(k: KernelState, room: nat) returns (k': KernelState)
    requires SystemOk(k) && Orphaned(k.procs) && HasRoom(k, room + 1)
    ensures k' == After(k, CreateKernel(0)) && Orphaned(k'.procs) && HasRoom(k', room)
    ensures InUse(k'.procs) == InUse(k.procs) + 1
  {
    OrphansHaveNoFamily(k);
    var a;
    k', a := CreateWithRoom(k, 0);
    SameUsablePages(k.heap.fr, k'.heap.fr);
    CreationKeepsTable(k);
  }

  lemma CreationKeepsTable(k: KernelState)
    requires SystemOk(k)
    ensures After(k, CreateKernel(0)).heap.table == k.heap.table
  {
    NextCreateKernel(k, 0);
    CreationKeepsHeap(k, 0);
  }

  function Orphans(n: nat): seq<Step> {
    if n == 0 then [] else [CreateKernel(0)] + Orphans(n - 1)
  }

  lemma {:induction false} OrphansAreAlike(n: nat)
    ensures NameNobody(Orphans(n))
  {
    if n > 0 {
      OrphansAreAlike(n - 1);
    }
  }

  lemma RunOrphans(k: KernelState, n: nat)
    requires SystemOk(k) && n > 0
    ensures Run(k, Orphans(n)) == Run(After(k, CreateKernel(0)), Orphans(n - 1))
  {
    assert Orphans(n)[1..] == Orphans(n - 1);
  }

  ghost predicate Crowded(k: KernelState, n: nat) {
    Orphaned(k.procs) && HasRoom(k, n + 1) && InUse(k.procs) + n == NPROC - 1
  }

  lemma {:induction false} FillTable(k: KernelState, n: nat)
    requires SystemOk(k) && Crowded(k, n)
    ensures Crowded(Run(k, Orphans(n)), 0)
    decreases n
  {
    if n > 0 {
      var k1 := CreateOrphan(k, n);
      FillTable(k1, n - 1);
      RunOrphans(k, n);
    }
  }

  lemma BootIsCrowdable(k: KernelState)
    requires k == BootImage(DEFAULT_BASE) && FrameAllocator.PoolsOk(k.heap.fr)
    ensures Crowded(k, NPROC - 1)
  {
    BootHasRoom(k);
  }

  lemma CrowdedIsSafe(k: KernelState, p: nat)
    requires SystemOk(k) && Crowded(k, 0)
    ensures ParentsBelow(k.procs) && HasRoom(k, 1)
    ensures p > k.nextPID ==> NeverStuck(After(k, CreateKernel(p)))
  {
    OrphansHaveNoFamily(k);
    DeadlockFreeIff(k, p);
  }

  /** At the default base boot leads to a kernel where a process can still be created and may name any parent but its
      own number without harm: fifteen slots hold children of nobody. */
  lemma FullTableIsSafe(p: nat)
    ensures NamesOldParents(Boot(DEFAULT_BASE), Orphans(NPROC - 1))
    ensures var k := Reach(DEFAULT_BASE, Orphans(NPROC - 1));
            && ParentsBelow(k.procs) && HasRoom(k, 1)
            && (p > k.nextPID ==> NeverStuck(After(k, CreateKernel(p))))
  {
    OrphansAreAlike(NPROC - 1);
    NameNobodyNamesOldParents(Boot(DEFAULT_BASE), Orphans(NPROC - 1));
    BootIsCrowdable(Boot(DEFAULT_BASE));
    FillTable(Boot(DEFAULT_BASE), NPROC - 1);
    CrowdedIsSafe(Reach(DEFAULT_BASE, Orphans(NPROC - 1)), p);
  }
}
