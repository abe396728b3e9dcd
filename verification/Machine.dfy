/** The kernel as a state machine over system calls, ticks, entry returns, user accesses and heap traffic. */
module Machine {
  import opened Common
  import opened PhysicalMemory
  import FrameAllocator
  import opened Ram
  import opened HeapModel
  import opened VmModel
  import opened VmProofs
  import opened ProcessModel
  import opened Scheduling
  import opened Ownership

  datatype Step =
    | Bootstrap
    | CreateKernel(parentPID: nat)
    | Schedule
    | CallFork
    | CallExit(status: int)
    | CallWait
    | CallYield
    | CallKill(pid: nat)
    | EntryReturns
    | TimerTick
    | UserReads(slot: nat, va: nat, count: nat)
    | UserWrites(slot: nat, va: nat, bytes: seq<byte>)
    | StackGrows(slot: nat, va: nat)
    | LoadsPage(slot: nat, va: nat)
    | HeapAllocs(size: nat)
    | HeapFrees(address: nat)
    | HeapReallocs(address: nat, size: nat)

  /** The state phase1Init and phase2Init leave. */
  ghost function BootImage(base: nat): KernelState {
    KernelState(Heap(true, FrameAllocator.BootFrames(base), seq(MAX_HEAP_BLOCKS, _ => NO_BLOCK),
                     Memory(base, seq(PHYSICAL_MEMORY_SIZE, _ => 0))),
                seq(NPROC, _ => NoProcess()), 1, None, -1, false)
  }

  /** How a loader gives a process a user page: allocate it, zero it, map it read-write at an address
      that has no page yet and lies outside the stack. */
  ghost function LoadPage(u: UserMem, va: nat): UserMem {
    var page := PageAlignDown(va);
    if FindMapping(u.vm.mappings, page, 0).Some? || STACK_FLOOR <= page < USER_STACK_TOP then u
    else
      var (fr', phys) := Allocate(u.fr, User, 1);
      if phys.None? then u.(fr := fr')
      else
        match MapOwnedPage(u.vm.mappings, page, phys.value, User, STACK_PERM)
        case None => u.(fr := Release(fr', User, phys.value).0)
        case Some(ms) =>
          u.(fr := fr', vm := u.vm.(mappings := ms),
             ram := if u.ram.HasBlock(phys.value, 4096) then u.ram.Cleared(phys.value, 4096) else u.ram)
  }

  ghost predicate Live(k: KernelState, slot: nat) {
    slot < |k.procs| && k.procs[slot].state != Unused
  }

  /** The tables have their sizes and the slot numbers lie in range. */
  ghost predicate Shaped(k: KernelState) {
    && k.heap.Ok() && |k.procs| == NPROC && -1 <= k.lastScheduledSlot < NPROC
    && (k.current.Some? ==> k.current.value < NPROC)
  }

  /** One step; a step that is not enabled changes nothing, and None is a kernel panic. */
  ghost function Next(k: KernelState, step: Step): Option<KernelState>
    requires Shaped(k)
  {
    match step
    case Bootstrap => Some(if FindPID(k.procs, 1, 0).Some? then k else AllocProcess(k, 0).0)
    case CreateKernel(parentPID) => Some(AllocProcess(k, parentPID).0)
    case Schedule => Some(if k.current.None? then Dispatch(k) else k)
    case CallFork => Some(if k.current.Some? then Fork(k).0 else k)
    case CallExit(status) => Some(if k.current.Some? then Unwind(k, Exited(status)) else k)
    case CallWait => if k.current.Some? then var (k', r) := Wait(k); Settle(k', r) else Some(k)
    case CallYield => (var (k', r) := Yield(k); Settle(k', r))
    case CallKill(pid) => (var (k', r) := Kill(k, pid); Settle(k', r))
    case EntryReturns => Some(if k.current.Some? then Unwind(k, Returned) else k)
    case TimerTick => (var (k', r) := Tick(k); Settle(k', r))
    case UserReads(slot, va, count) =>
      Some(if Live(k, slot) then WithUserView(k, slot, CopyIn(UserView(k, slot), va, count).0) else k)
    case UserWrites(slot, va, bytes) =>
      Some(if Live(k, slot) then WithUserView(k, slot, CopyOut(UserView(k, slot), va, bytes).0) else k)
    case StackGrows(slot, va) =>
      Some(if Live(k, slot) then WithUserView(k, slot, VmModel.GrowStack(UserView(k, slot), va).0) else k)
    case LoadsPage(slot, va) =>
      Some(if Live(k, slot) then WithUserView(k, slot, LoadPage(UserView(k, slot), va)) else k)
    case HeapAllocs(size) => HeapNext(k, RuntimeAlloc(k.heap, size))
    case HeapFrees(address) => Some(k.(heap := HeapFree(k.heap, address).0))
    case HeapReallocs(address, size) => HeapNext(k, RuntimeRealloc(k.heap, address, size))
  }

  /** What a step answers the process or kernel code that asked for it; None where nobody asked. */
  ghost function Reply(k: KernelState, step: Step): Option<Result>
    requires Shaped(k)
  {
    match step
    case CreateKernel(parentPID) => Some(Create(k, parentPID).1)
    case CallFork => if k.current.Some? then Some(Fork(k).1) else None
    case CallWait => if k.current.Some? then Some(Wait(k).1) else None
    case CallYield => Some(Yield(k).1)
    case CallKill(pid) => Some(Kill(k, pid).1)
    case TimerTick => Some(Tick(k).1)
    case _ => None
  }

  /** A heap hook's outcome as a step; a panic of the hook is the kernel's. */
  ghost function HeapNext(k: KernelState, result: (Heap, Outcome)): Option<KernelState> {
    if result.1.Panicked? then None else Some(k.(heap := result.0))
  }

  /** No run of kernel pages long enough for `size` bytes is free. */
  ghost predicate NoRunFree(h: Heap, size: nat) {
    !h.ready || Allocate(h.fr, Kernel, PageCount(size)).1.None?
  }

  /** The only steps that panic: a block is asked for and no run is free, or realloc gets an
      address that is not tracked. */
  ghost predicate Panics(k: KernelState, step: Step) {
    match step
    case HeapAllocs(size) => size > 0 && NoRunFree(k.heap, size)
    case HeapReallocs(address, size) =>
      size > 0 && ((address != 0 && FindBlock(k.heap.table, address, 0).None?) || NoRunFree(k.heap, size))
    case _ => false
  }

  predicate HeapStep(step: Step) {
    step.HeapAllocs? || step.HeapFrees? || step.HeapReallocs?
  }

  /** What holds in every reachable state. */
  ghost predicate SystemOk(k: KernelState) {
    && Partitioned(k)
    && SchedulerOk(k)
    && FrameAllocator.PoolsOk(k.heap.fr)
  }

  // ----- one step, kind by kind -----

  lemma NextSchedule(k: KernelState)
    requires Shaped(k)
    ensures Next(k, Schedule) == Some(if k.current.None? then Dispatch(k) else k)
  {
  }

  lemma NextCreateKernel(k: KernelState, parentPID: nat)
    requires Shaped(k)
    ensures Next(k, CreateKernel(parentPID)) == Some(AllocProcess(k, parentPID).0)
  {
  }

  lemma NextFork(k: KernelState)
    requires Shaped(k)
    ensures Next(k, CallFork) == Some(if k.current.None? then k else Fork(k).0)
  {
  }

  /** Exiting, or returning from the entry. */
  lemma NextLeave(k: KernelState, step: Step)
    requires Shaped(k) && (step.CallExit? || step.EntryReturns?)
    ensures Next(k, step) ==
              Some(if k.current.None? then k else Unwind(k, if step.CallExit? then Exited(step.status) else Returned))
  {
  }

  /** The running process is runnable again and a reschedule is due. */
  function Switched(k: KernelState): KernelState
    requires k.current.Some? && k.current.value < |k.procs|
  {
    k.(procs := WithState(k.procs, k.current.value, Runnable), scheduleRequested := true)
  }

  /** Yielding, or being preempted by a tick. */
  lemma NextSwitch(k: KernelState, step: Step)
    requires Shaped(k) && OneRuns(k.procs, k.current) && (step.CallYield? || step.TimerTick?)
    ensures Next(k, step) ==
              Some(if k.current.None? then k else Unwind(Switched(k), if step.CallYield? then Yielded else Preempted))
  {
  }

  lemma NextKill(k: KernelState, pid: nat)
    requires Shaped(k)
    ensures var target := FindPID(k.procs, pid, 0);
            Next(k, CallKill(pid)) ==
              Some(if target.None? then k
                   else if k.current == target then Unwind(k, Exited(-1))
                   else k.(procs := Exit(k.procs, target.value, -1)))
  {
  }

  /** Waiting with a zombie among the children. */
  lemma NextReap(k: KernelState)
    requires Shaped(k) && k.current.Some? && ZombieChild(k.procs, k.procs[k.current.value].pid, 0).Some?
    ensures Next(k, CallWait) == ReleaseProcess(k, ZombieChild(k.procs, k.procs[k.current.value].pid, 0).value)
  {
  }

  /** Waiting with a child and no zombie among the children. */
  lemma NextSleep(k: KernelState)
    requires Shaped(k) && k.current.Some?
    requires ZombieChild(k.procs, k.procs[k.current.value].pid, 0).None?
    requires HasChild(k.procs, k.procs[k.current.value].pid)
    ensures Next(k, CallWait) == Some(Unwind(k.(procs := WithState(k.procs, k.current.value, Sleeping)), Yielded))
  {
  }

  lemma NextUser(k: KernelState, step: Step)
    requires Shaped(k) && UserStep(step)
    ensures Next(k, step) == Some(if Live(k, step.slot) then WithUserView(k, step.slot, UserAfter(k, step)) else k)
  {
  }

  /** A heap step moves nothing but the heap. */
  lemma NextHeap(k: KernelState, step: Step)
    requires Shaped(k) && HeapStep(step) && Next(k, step).Some?
    ensures Next(k, step).value == k.(heap := Next(k, step).value.heap)
  {
  }

  // ----- every step keeps it: pages -----

  lemma LoadPageGrows(u: UserMem, others: multiset<int>, va: nat)
    requires UserOk(u, others)
    ensures var u' := LoadPage(u, va);
            && u'.ram.base == u.ram.base && |u'.ram.bytes| == |u.ram.bytes|
            && Grows(u.(ram := u'.ram), u', others)
  {
    var page := PageAlignDown(va);
    if FindMapping(u.vm.mappings, page, 0).None? && !(STACK_FLOOR <= page < USER_STACK_TOP) {
      AllocateTakesFreshPages(u.fr, User, 1);
      AllocateStaysInWindow(u.fr, User, 1);
      AllocationIsNextFit(u.fr, User, 1);
      var (fr', phys) := Allocate(u.fr, User, 1);
      if phys.Some? {
        OnePage(phys.value);
        MapOwnedFillsOneEntry(u.vm.mappings, page, phys.value, User, STACK_PERM);
        ReleaseReturnsOnePage(fr', User, phys.value);
        if FreeMapping(u.vm.mappings, 0).Some? {
          MapFreshPageGrows(u, others, u.vm.layout, page);
        }
      }
    }
  }

  lemma UnwindKeepsPages(k: KernelState, signal: Signal)
    requires Partitioned(k) && k.current.Some? && k.current.value < |k.procs|
    requires k.procs[k.current.value].state != Unused
    ensures Partitioned(Unwind(k, signal))
  {
    UnwindIs(k, signal);
    var slot := k.current.value;
    if signal.Yielded? || signal.Preempted? {
      StateKeeps(k, slot, Runnable);
    } else if signal.Exited? || k.procs[slot].state == Running {
      ExitKeepsPages(k, slot, if signal.Exited? then signal.status else 0);
    }
  }

  /** Leaving an entry, case by case. */
  lemma UnwindIs(k: KernelState, signal: Signal)
    requires k.current.Some? && k.current.value < |k.procs|
    ensures var slot := k.current.value;
            Unwind(k, signal) == k.(current := None, procs :=
              if signal.Exited? then Exit(k.procs, slot, signal.status)
              else if k.procs[slot].state != Running then k.procs
              else if signal.Returned? then Exit(k.procs, slot, 0)
              else WithState(k.procs, slot, Runnable))
  {
    if signal.Exited? {
      ExitLeavesZombie(k.procs, k.current.value, signal.status);
    }
  }

  lemma ExitLeavesZombie(procs: seq<Process>, slot: nat, status: int)
    requires slot < |procs|
    ensures |Exit(procs, slot, status)| == |procs| && Exit(procs, slot, status)[slot].state == Zombie
  {
  }

  /** No step leaks a page or hands one out twice, and only the heap steps named by Panics panic. */
  lemma NextKeepsPages(k: KernelState, step: Step)
    requires SystemOk(k)
    ensures Next(k, step).None? <==> Panics(k, step)
    ensures Next(k, step).Some? ==> Partitioned(Next(k, step).value)
  {
    if UserStep(step) {
      UserStepsKeepPages(k, step);
    } else if HeapStep(step) {
      HeapStepsKeepPages(k, step);
    } else {
      ProcessStepsKeepPages(k, step);
    }
  }

  lemma ProcessStepsKeepPages(k: KernelState, step: Step)
    requires Shaped(k) && SchedulerOk(k) && Partitioned(k) && !UserStep(step) && !HeapStep(step)
    ensures Next(k, step).Some? && Partitioned(Next(k, step).value)
  {
    match step
    case Bootstrap => CreationsKeepPages(k, step);
    case CreateKernel(_) => CreationsKeepPages(k, step);
    case CallFork => CreationsKeepPages(k, step);
    case CallExit(_) => SwitchesKeepPages(k, step);
    case EntryReturns => SwitchesKeepPages(k, step);
    case CallYield => SwitchesKeepPages(k, step);
    case TimerTick => SwitchesKeepPages(k, step);
    case Schedule => DispatchKeepsPages(k);
    case CallWait =>
      if k.current.Some? {
        WaitKeepsPages(k);
      }
    case CallKill(pid) => KillKeepsPages(k, pid);
  }

  lemma CreationsKeepPages(k: KernelState, step: Step)
    requires Shaped(k) && Partitioned(k) && (step.Bootstrap? || step.CreateKernel? || step.CallFork?)
    ensures Next(k, step).Some? && Partitioned(Next(k, step).value)
  {
    match step
    case Bootstrap => AllocProcessKeepsPages(k, 0);
    case CreateKernel(parentPID) => AllocProcessKeepsPages(k, parentPID);
    case CallFork =>
      if k.current.Some? {
        AllocProcessKeepsPages(k, k.procs[k.current.value].pid);
      }
  }

  lemma SwitchesKeepPages(k: KernelState, step: Step)
    requires Shaped(k) && OneRuns(k.procs, k.current) && Partitioned(k)
    requires step.CallExit? || step.EntryReturns? || step.CallYield? || step.TimerTick?
    ensures Next(k, step).Some? && Partitioned(Next(k, step).value)
  {
    if step.CallYield? || step.TimerTick? {
      NextSwitch(k, step);
      if k.current.Some? {
        SwitchKeepsPages(k, if step.CallYield? then Yielded else Preempted);
      }
    } else {
      NextLeave(k, step);
      if k.current.Some? {
        UnwindKeepsPages(k, if step.CallExit? then Exited(step.status) else Returned);
      }
    }
  }

  lemma DispatchKeepsPages(k: KernelState)
    requires Shaped(k) && Partitioned(k)
    ensures Next(k, Schedule).Some? && Partitioned(Next(k, Schedule).value)
  {
    var pick := PickNext(k.procs, k.lastScheduledSlot);
    if pick.Some? {
      StateKeeps(k, pick.value, Running);
    }
  }

  lemma WaitKeepsPages(k: KernelState)
    requires SchedulerOk(k) && Partitioned(k) && k.current.Some?
    ensures var (k', r) := Wait(k);
            && (r.Raise? ==> k'.current.Some? && k'.current.value < |k'.procs|)
            && Settle(k', r).Some? && Partitioned(Settle(k', r).value)
  {
    var slot := k.current.value;
    var child := ZombieChild(k.procs, k.procs[slot].pid, 0);
    if child.Some? {
      ReleaseProcessKeepsPages(k, child.value);
    } else if HasChild(k.procs, k.procs[slot].pid) {
      SleepKeepsPages(k);
    }
  }

  lemma SleepKeepsPages(k: KernelState)
    requires SchedulerOk(k) && Partitioned(k) && k.current.Some?
    ensures Partitioned(Unwind(k.(procs := WithState(k.procs, k.current.value, Sleeping)), Yielded))
  {
    StateKeeps(k, k.current.value, Sleeping);
    UnwindKeepsPages(k.(procs := WithState(k.procs, k.current.value, Sleeping)), Yielded);
  }

  /** Marking the running process runnable and unwinding. */
  lemma SwitchKeepsPages(k: KernelState, signal: Signal)
    requires Partitioned(k) && k.current.Some? && k.current.value < |k.procs|
    requires k.procs[k.current.value].state == Running
    ensures Partitioned(Unwind(k.(procs := WithState(k.procs, k.current.value, Runnable), scheduleRequested := true),
                               signal))
  {
    StateKeeps(k, k.current.value, Runnable);
    UnwindKeepsPages(k.(procs := WithState(k.procs, k.current.value, Runnable), scheduleRequested := true), signal);
  }

  lemma KillKeepsPages(k: KernelState, pid: nat)
    requires SchedulerOk(k) && Partitioned(k)
    ensures var (k', r) := Kill(k, pid);
            && (r.Raise? ==> k'.current.Some? && k'.current.value < |k'.procs|)
            && Settle(k', r).Some? && Partitioned(Settle(k', r).value)
  {
    var target := FindPID(k.procs, pid, 0);
    if target.Some? {
      if k.current == target {
        UnwindKeepsPages(k, Exited(-1));
      } else {
        ExitKeepsPages(k, target.value, -1);
      }
    }
  }

  predicate UserStep(step: Step) {
    step.UserReads? || step.UserWrites? || step.StackGrows? || step.LoadsPage?
  }

  ghost function UserAfter(k: KernelState, step: Step): UserMem
    requires UserStep(step) && Live(k, step.slot)
  {
    var u := UserView(k, step.slot);
    match step
    case UserReads(slot, va, count) => CopyIn(u, va, count).0
    case UserWrites(slot, va, bytes) => CopyOut(u, va, bytes).0
    case StackGrows(slot, va) => VmModel.GrowStack(u, va).0
    case LoadsPage(slot, va) => LoadPage(u, va)
  }

  /** A user access of any kind only adds pages to its own process, and writes no byte memory out of shape. */
  lemma UserAfterGrows(k: KernelState, step: Step)
    requires Partitioned(k) && UserStep(step) && Live(k, step.slot)
    ensures var u, u' := UserView(k, step.slot), UserAfter(k, step);
            && u'.ram.base == u.ram.base && |u'.ram.bytes| == |u.ram.bytes|
            && Grows(u.(ram := u'.ram), u', OthersUserPages(k, step.slot))
  {
    var u, others := UserView(k, step.slot), OthersUserPages(k, step.slot);
    UserViewOk(k, step.slot);
    match step
    case UserReads(slot, va, count) => CopyInGrows(u, others, va, count);
    case UserWrites(slot, va, bytes) => CopyOutGrows(u, others, va, bytes);
    case StackGrows(slot, va) => GrowStackGrows(u, others, va);
    case LoadsPage(slot, va) => LoadPageGrows(u, others, va);
  }

  lemma UserStepsKeepPages(k: KernelState, step: Step)
    requires Shaped(k) && Partitioned(k) && UserStep(step)
    ensures Next(k, step).Some? && Partitioned(Next(k, step).value)
  {
    NextUser(k, step);
    if Live(k, step.slot) {
      LiveUserStepKeepsPages(k, step);
    }
  }

  lemma LiveUserStepKeepsPages(k: KernelState, step: Step)
    requires Partitioned(k) && UserStep(step) && Live(k, step.slot)
    ensures Partitioned(WithUserView(k, step.slot, UserAfter(k, step)))
  {
    UserAfterGrows(k, step);
    UserStepKeeps(k, step.slot, UserAfter(k, step));
  }

  lemma HeapStepsKeepPages(k: KernelState, step: Step)
    requires Shaped(k) && Partitioned(k) && HeapStep(step)
    ensures Next(k, step).None? <==> Panics(k, step)
    ensures Next(k, step).Some? ==> Partitioned(Next(k, step).value)
  {
    var h, others := k.heap, KernelHeld(k.procs);
    match step
    case HeapAllocs(size) => RuntimeAllocKeepsOwnership(h, others, size);
    case HeapFrees(address) => HeapFreeKeepsOwnership(h, others, address);
    case HeapReallocs(address, size) => RuntimeReallocKeepsOwnership(h, others, address, size);
  }

  lemma RuntimeReallocKeepsOwnership(h: Heap, others: multiset<int>, address: nat, size: nat)
    requires h.Ok() && Owns(h, others)
    ensures var (h', out) := RuntimeRealloc(h, address, size);
            && h'.Ok() && Owns(h', others) && h'.fr.Live(User) == h.fr.Live(User)
            && (out.Panicked? <==>
                  size > 0 && ((address != 0 && FindBlock(h.table, address, 0).None?) || NoRunFree(h, size)))
  {
    RuntimeAllocKeepsOwnership(h, others, size);
    HeapFreeKeepsOwnership(h, others, address);
    if address != 0 && size > 0 && FindBlock(h.table, address, 0).Some? {
      ReallocMovesBlock(h, others, address, size);
    }
  }

  lemma RuntimeAllocKeepsOwnership(h: Heap, others: multiset<int>, size: nat)
    requires h.Ok() && Owns(h, others)
    ensures var (h', out) := RuntimeAlloc(h, size);
            && h'.Ok() && Owns(h', others) && h'.fr.Live(User) == h.fr.Live(User)
            && (out.Panicked? <==> size > 0 && NoRunFree(h, size))
  {
    if size > 0 {
      HeapAllocKeepsOwnership(h, others, size);
      AllocatedBlockFits(h, size);
    }
  }

  // ----- every step keeps it: scheduling -----

  /** A step that leaves identities, states and the scheduler's own variables alone. */
  lemma SameScheduling(k: KernelState, k': KernelState)
    requires SchedulerOk(k) && |k'.procs| == |k.procs|
    requires k'.nextPID == k.nextPID && k'.current == k.current && k'.lastScheduledSlot == k.lastScheduledSlot
    requires forall i | 0 <= i < |k.procs| ::
               k'.procs[i].pid == k.procs[i].pid && k'.procs[i].state == k.procs[i].state
               && k'.procs[i].parentPID == k.procs[i].parentPID
    ensures SchedulerOk(k')
  {
    forall i | 0 <= i < |k'.procs| && k'.procs[i].state == Sleeping ensures Waits(k'.procs, k'.procs[i].pid) {
      var pid := k.procs[i].pid;
      assert Waits(k.procs, pid);
      var j :| 0 <= j < |k.procs| && ChildOf(k.procs, j, pid);
      assert ChildOf(k'.procs, j, pid);
      forall j | 0 <= j < |k'.procs| && ChildOf(k'.procs, j, pid) ensures k'.procs[j].state != Zombie {
        assert ChildOf(k.procs, j, pid);
      }
    }
  }

  lemma AllocProcessKeepsScheduling(k: KernelState, parentPID: nat)
    requires SchedulerOk(k)
    ensures SchedulerOk(AllocProcess(k, parentPID).0)
  {
    var (k', slot) := AllocProcess(k, parentPID);
    var free := UnusedSlot(k.procs, 0);
    if slot.Some? {
      CreateKeeps(k.procs, k.nextPID, slot.value, k'.procs[slot.value]);
    } else if free.Some? {
      EmptySlotStaysEmpty(k, free.value);
    }
  }

  lemma EmptySlotStaysEmpty(k: KernelState, slot: nat)
    requires SchedulerOk(k) && slot < |k.procs| && k.procs[slot].state == Unused
    ensures SchedulerOk(k.(procs := k.procs[slot := NoProcess()]))
  {
    var after := k.procs[slot := NoProcess()];
    forall i | 0 <= i < |after| && after[i].state == Sleeping ensures Waits(after, after[i].pid) {
      var pid := k.procs[i].pid;
      assert Waits(k.procs, pid);
      var j :| 0 <= j < |k.procs| && ChildOf(k.procs, j, pid);
      assert ChildOf(after, j, pid);
      forall j | 0 <= j < |after| && ChildOf(after, j, pid) ensures after[j].state != Zombie {
        assert ChildOf(k.procs, j, pid);
      }
    }
  }

  lemma WaitKeepsScheduling(k: KernelState)
    requires Shaped(k) && SchedulerOk(k)
    ensures Next(k, CallWait).Some? ==> SchedulerOk(Next(k, CallWait).value)
  {
    if k.current.Some? {
      var slot := k.current.value;
      var child := ZombieChild(k.procs, k.procs[slot].pid, 0);
      if child.Some? {
        ReleaseKeeps(k.procs, k.nextPID, child.value);
      } else if HasChild(k.procs, k.procs[slot].pid) {
        SleepKeeps(k);
      }
    }
  }

  lemma NextKeepsScheduling(k: KernelState, step: Step)
    requires Shaped(k) && SchedulerOk(k)
    ensures Next(k, step).Some? ==> SchedulerOk(Next(k, step).value)
  {
    match step
    case Bootstrap => AllocProcessKeepsScheduling(k, 0);
    case CreateKernel(parentPID) => AllocProcessKeepsScheduling(k, parentPID);
    case Schedule =>
      if k.current.None? {
        DispatchKeeps(k);
      }
    case CallFork =>
      if k.current.Some? {
        AllocProcessKeepsScheduling(k, k.procs[k.current.value].pid);
      }
    case CallExit(status) =>
      if k.current.Some? {
        UnwindKeeps(k, Exited(status));
      }
    case CallWait => WaitKeepsScheduling(k);
    case CallYield => YieldKeeps(k);
    case CallKill(pid) => KillKeeps(k, pid);
    case EntryReturns =>
      if k.current.Some? {
        UnwindKeeps(k, Returned);
      }
    case TimerTick => TickKeeps(k);
    case _ => MemoryStepKeepsScheduling(k, step);
  }

  lemma MemoryStepKeepsScheduling(k: KernelState, step: Step)
    requires Shaped(k) && SchedulerOk(k) && (UserStep(step) || HeapStep(step))
    ensures Next(k, step).Some? ==> SchedulerOk(Next(k, step).value)
  {
    if UserStep(step) {
      UserStepKeepsScheduling(k, step);
    } else if Next(k, step).Some? {
      NextHeap(k, step);
      SameScheduling(k, Next(k, step).value);
    }
  }

  lemma UserStepKeepsScheduling(k: KernelState, step: Step)
    requires Shaped(k) && SchedulerOk(k) && UserStep(step)
    ensures Next(k, step).Some? && SchedulerOk(Next(k, step).value)
  {
    NextUser(k, step);
    if Live(k, step.slot) {
      SameScheduling(k, WithUserView(k, step.slot, UserAfter(k, step)));
    }
  }

  // ----- every step keeps it: pools -----

  lemma {:induction false} ReleaseRunKeepsPools(fr: Frames, address: nat, count: nat)
    requires FrameAllocator.PoolsOk(fr)
    ensures FrameAllocator.PoolsOk(ReleaseRun(fr, address, count).0)
  {
    if count > 0 {
      ReleaseRunKeepsPools(fr, address, count - 1);
      FrameAllocator.ReleaseKeepsPools(ReleaseRun(fr, address, count - 1).0, Kernel, address + (count - 1) * 4096);
    }
  }

  lemma {:induction false} RollBackKeepsPools(fr: Frames, address: nat, count: nat)
    requires FrameAllocator.PoolsOk(fr)
    ensures FrameAllocator.PoolsOk(RollBack(fr, address, count))
  {
    if count > 0 {
      RollBackKeepsPools(fr, address, count - 1);
      FrameAllocator.ReleaseKeepsPools(RollBack(fr, address, count - 1), Kernel, address + (count - 1) * 4096);
    }
  }

  lemma {:induction false} ReleaseMappingsKeepsPools(fr: Frames, ms: seq<Mapping>)
    requires FrameAllocator.PoolsOk(fr) && ReleaseMappings(fr, ms).Some?
    ensures FrameAllocator.PoolsOk(ReleaseMappings(fr, ms).value)
    decreases |ms|
  {
    if ms != [] {
      FrameAllocator.ReleaseKeepsPools(fr, ms[0].pool, ms[0].paddr);
      var owned := ms[0].present && ms[0].owned;
      ReleaseMappingsKeepsPools(if owned then Release(fr, ms[0].pool, ms[0].paddr).0 else fr, ms[1..]);
    }
  }

  lemma InitSpaceKeepsPools(fr: Frames)
    requires FrameAllocator.PoolsOk(fr)
    ensures FrameAllocator.PoolsOk(InitSpace(fr).0)
  {
    var (fr', page) := Allocate(fr, Kernel, 1);
    FrameAllocator.AllocateKeepsPools(fr, Kernel, 1);
    if page.Some? {
      FrameAllocator.ReleaseKeepsPools(fr', Kernel, page.value);
    }
  }

  lemma AllocProcessKeepsPools(k: KernelState, parentPID: nat)
    requires FrameAllocator.PoolsOk(k.heap.fr)
    ensures FrameAllocator.PoolsOk(AllocProcess(k, parentPID).0.heap.fr)
  {
    var (fr1, kstack) := Allocate(k.heap.fr, Kernel, 1);
    FrameAllocator.AllocateKeepsPools(k.heap.fr, Kernel, 1);
    if kstack.Some? {
      FrameAllocator.ReleaseKeepsPools(fr1, Kernel, kstack.value);
      var slot := UnusedSlot(k.procs, 0);
      if slot.Some? {
        StartInKeepsPools(k.WithFrames(fr1), slot.value, parentPID, kstack.value);
      }
    }
  }

  lemma StartInKeepsPools(k: KernelState, slot: nat, parentPID: nat, kstack: nat)
    requires FrameAllocator.PoolsOk(k.heap.fr) && slot < |k.procs|
    ensures FrameAllocator.PoolsOk(StartIn(k, slot, parentPID, kstack).0.heap.fr)
  {
    InitSpaceKeepsPools(k.heap.fr);
    FrameAllocator.ReleaseKeepsPools(InitSpace(k.heap.fr).0, Kernel, kstack);
  }

  lemma GrowStackKeepsPools(u: UserMem, faultVA: nat)
    requires FrameAllocator.PoolsOk(u.fr)
    ensures FrameAllocator.PoolsOk(VmModel.GrowStack(u, faultVA).0.fr)
  {
    var (fr', phys) := Allocate(u.fr, User, 1);
    FrameAllocator.AllocateKeepsPools(u.fr, User, 1);
    if phys.Some? {
      FrameAllocator.ReleaseKeepsPools(fr', User, phys.value);
    }
  }

  lemma LoadPageKeepsPools(u: UserMem, va: nat)
    requires FrameAllocator.PoolsOk(u.fr)
    ensures FrameAllocator.PoolsOk(LoadPage(u, va).fr)
  {
    var (fr', phys) := Allocate(u.fr, User, 1);
    FrameAllocator.AllocateKeepsPools(u.fr, User, 1);
    if phys.Some? {
      FrameAllocator.ReleaseKeepsPools(fr', User, phys.value);
    }
  }

  lemma ResolveKeepsPools(u: UserMem, va: nat, write: bool)
    requires FrameAllocator.PoolsOk(u.fr)
    ensures FrameAllocator.PoolsOk(Resolve(u, va, write).0.fr)
  {
    GrowStackKeepsPools(u, va);
  }

  lemma {:induction false} CopyInKeepsPools(u: UserMem, va: nat, n: nat)
    requires FrameAllocator.PoolsOk(u.fr)
    ensures FrameAllocator.PoolsOk(CopyIn(u, va, n).0.fr)
    decreases n
  {
    if n > 0 {
      ResolveKeepsPools(u, va, false);
      CopyInKeepsPools(Resolve(u, va, false).0, va + 1, n - 1);
    }
  }

  lemma {:induction false} CopyOutKeepsPools(u: UserMem, va: nat, src: seq<byte>)
    requires FrameAllocator.PoolsOk(u.fr)
    ensures FrameAllocator.PoolsOk(CopyOut(u, va, src).0.fr)
    decreases |src|
  {
    if src != [] {
      ResolveKeepsPools(u, va, true);
      var (u1, pa) := Resolve(u, va, true);
      if pa.Some? {
        CopyOutKeepsPools(u1.(ram := Poke(u1.ram, pa.value, src[0])), va + 1, src[1..]);
      }
    }
  }

  lemma HeapAllocKeepsPools(h: Heap, size: nat)
    requires FrameAllocator.PoolsOk(h.fr)
    ensures FrameAllocator.PoolsOk(HeapAlloc(h, size).0.fr)
  {
    var (fr', address) := Allocate(h.fr, Kernel, PageCount(size));
    FrameAllocator.AllocateKeepsPools(h.fr, Kernel, PageCount(size));
    if address.Some? {
      RollBackKeepsPools(fr', address.value, PageCount(size));
    }
  }

  lemma HeapFreeKeepsPools(h: Heap, address: nat)
    requires FrameAllocator.PoolsOk(h.fr)
    ensures FrameAllocator.PoolsOk(HeapFree(h, address).0.fr)
  {
    var e := FindBlock(h.table, address, 0);
    if e.Some? {
      ReleaseRunKeepsPools(h.fr, address, h.table[e.value].pages);
    }
  }

  lemma ReallocKeepsPools(h: Heap, address: nat, size: nat)
    requires h.Ok() && FrameAllocator.PoolsOk(h.fr)
    ensures FrameAllocator.PoolsOk(RuntimeRealloc(h, address, size).0.fr)
  {
    HeapFreeKeepsPools(h, address);
    HeapAllocKeepsPools(h, size);
    if size > 0 && address != 0 && FindBlock(h.table, address, 0).Some? && RuntimeAlloc(h, size).1.Pointer? {
      var h1 := RuntimeAlloc(h, size).0;
      AllocatedBlockFits(h, size);
      var oldBytes := HeapBytes(h.table, address).value;
      HeapFreeKeepsPools(h1.(ram := h1.ram.Copied(RuntimeAlloc(h, size).1.address, address, Min(oldBytes, size))),
                         address);
    }
  }

  lemma UserStepKeepsPools(k: KernelState, step: Step)
    requires Shaped(k) && FrameAllocator.PoolsOk(k.heap.fr) && UserStep(step)
    ensures Next(k, step).Some? && FrameAllocator.PoolsOk(Next(k, step).value.heap.fr)
  {
    if Live(k, step.slot) {
      match step
      case UserReads(slot, va, count) => CopyInKeepsPools(UserView(k, slot), va, count);
      case UserWrites(slot, va, bytes) => CopyOutKeepsPools(UserView(k, slot), va, bytes);
      case StackGrows(slot, va) => GrowStackKeepsPools(UserView(k, slot), va);
      case LoadsPage(slot, va) => LoadPageKeepsPools(UserView(k, slot), va);
    }
  }

  lemma CreatorKeepsPools(k: KernelState, step: Step)
    requires Shaped(k) && FrameAllocator.PoolsOk(k.heap.fr) && (step.Bootstrap? || step.CreateKernel? || step.CallFork?)
    ensures Next(k, step).Some? && FrameAllocator.PoolsOk(Next(k, step).value.heap.fr)
  {
    match step
    case Bootstrap => AllocProcessKeepsPools(k, 0);
    case CreateKernel(parentPID) => AllocProcessKeepsPools(k, parentPID);
    case CallFork =>
      if k.current.Some? {
        AllocProcessKeepsPools(k, k.procs[k.current.value].pid);
      }
  }

  lemma HeapStepKeepsPools(k: KernelState, step: Step)
    requires Shaped(k) && FrameAllocator.PoolsOk(k.heap.fr) && HeapStep(step)
    ensures Next(k, step).Some? ==> FrameAllocator.PoolsOk(Next(k, step).value.heap.fr)
  {
    match step
    case HeapAllocs(size) => HeapAllocKeepsPools(k.heap, size);
    case HeapFrees(address) => HeapFreeKeepsPools(k.heap, address);
    case HeapReallocs(address, size) => ReallocKeepsPools(k.heap, address, size);
  }

  lemma NextKeepsPools(k: KernelState, step: Step)
    requires Shaped(k) && FrameAllocator.PoolsOk(k.heap.fr)
    ensures Next(k, step).Some? ==> FrameAllocator.PoolsOk(Next(k, step).value.heap.fr)
  {
    if UserStep(step) {
      UserStepKeepsPools(k, step);
      return;
    }
    if step.Bootstrap? || step.CreateKernel? || step.CallFork? {
      CreatorKeepsPools(k, step);
      return;
    }
    if HeapStep(step) {
      HeapStepKeepsPools(k, step);
      return;
    }
    if step.CallWait? {
      WaitKeepsPools(k);
    }
  }

  lemma WaitKeepsPools(k: KernelState)
    requires Shaped(k) && FrameAllocator.PoolsOk(k.heap.fr)
    ensures Next(k, CallWait).Some? ==> FrameAllocator.PoolsOk(Next(k, CallWait).value.heap.fr)
  {
    if k.current.Some? && Next(k, CallWait).Some? {
      var child := ZombieChild(k.procs, k.procs[k.current.value].pid, 0);
      if child.Some? {
        var p := k.procs[child.value];
        ReleaseMappingsKeepsPools(k.heap.fr, p.vm.mappings);
        ReleaseRunKeepsPools(ReleaseMappings(k.heap.fr, p.vm.mappings).value, p.kernelStackBase, p.kernelStackPages);
      }
    }
  }

  // ----- every step keeps the whole -----

  /** One step keeps the whole invariant, and panics in exactly the cases of Panics. */
  lemma NextKeeps(k: KernelState, step: Step)
    requires SystemOk(k)
    ensures Next(k, step).None? <==> Panics(k, step)
    ensures Next(k, step).Some? ==> SystemOk(Next(k, step).value)
  {
    NextKeepsPages(k, step);
    NextKeepsScheduling(k, step);
    NextKeepsPools(k, step);
  }

  lemma BootIsOk(base: nat)
    requires base % 4096 == 0
    ensures SystemOk(BootImage(base))
  {
    FrameAllocator.BootState(base);
    FlattenNothing(BootImage(base).procs, KernelPagesOf);
    FlattenNothing(BootImage(base).procs, UserPagesOf);
    FlattenNothing(BootImage(base).heap.table, BlockPages);
  }

  ghost function Boot(base: nat): (k: KernelState)
    requires base % 4096 == 0
    ensures SystemOk(k)
  {
    BootIsOk(base);
    BootImage(base)
  }

  /** The state after one step. A step that panics ends the kernel; a run counts it as not taken. */
  ghost function After(k: KernelState, step: Step): (k': KernelState)
    requires SystemOk(k)
    ensures SystemOk(k')
  {
    NextKeeps(k, step);
    if Next(k, step).Some? then Next(k, step).value else k
  }

  // ----- whole runs -----

  ghost function Run(k: KernelState, steps: seq<Step>): (k': KernelState)
    requires SystemOk(k)
    ensures SystemOk(k')
    decreases |steps|
  {
    if steps == [] then k else Run(After(k, steps[0]), steps[1..])
  }
}
