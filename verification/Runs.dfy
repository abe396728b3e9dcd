/** What holds over whole runs of the kernel. */
module Runs {
  import opened Common
  import opened PhysicalMemory
  import opened HeapModel
  import opened VmModel
  import opened ProcessModel
  import opened Scheduling
  import opened Ownership
  import opened Room
  import opened Machine

  /** The state a run from boot reaches. */
  ghost function Reach(base: nat, steps: seq<Step>): (k: KernelState)
    requires base % 4096 == 0
    ensures SystemOk(k)
  {
    Run(Boot(base), steps)
  }

  /** Over every run from boot, at every page-aligned base: the live pages of each pool are exactly the kernel
      stacks, trap pages and heap blocks, or exactly the mapped user pages, each held once; all of them are
      usable memory past the boot reserve; and the next step panics exactly when it asks the heap for a block
      and no run is free, or reallocates an address that is not tracked. No page ever fails to be freed. */
  lemma EveryRunPartitionsMemory(base: nat, steps: seq<Step>, next: Step, page: int)
    requires base % 4096 == 0
    ensures var k := Reach(base, steps);
            && multiset(k.heap.fr.Live(Kernel)) == KernelHeld(k.procs) + HeapPages(k.heap.table)
            && multiset(k.heap.fr.Live(User)) == UserHeld(k.procs)
            && (page in k.heap.fr.Live(Kernel) + k.heap.fr.Live(User) ==>
                  k.heap.fr.base + BOOT_RESERVE_SIZE <= page && IsUsable(k.heap.fr.base, page))
            && (Next(k, next).None? <==> Panics(k, next))
  {
    var k := Reach(base, steps);
    NextKeeps(k, next);
    if page in k.heap.fr.Live(Kernel) {
      FrameAllocator.LivePagesAreUsable(k.heap.fr, Kernel, page);
    } else if page in k.heap.fr.Live(User) {
      FrameAllocator.LivePagesAreUsable(k.heap.fr, User, page);
    }
  }

  /** Over every run from boot, however its processes grow, load and die: a user page handed out next is the least of
      all user pages not out, and none is handed out only when all are. */
  lemma UserPagesComeLowestFirst(base: nat, steps: seq<Step>)
    requires base % 4096 == 0
    ensures var fr := Reach(base, steps).heap.fr; var page := Allocate(fr, User, 1).1;
            && (page.None? <==> FreePages(fr, User) == {})
            && (page.Some? ==>
                  && page.value in FreePages(fr, User)
                  && forall a | a in FreePages(fr, User) :: page.value <= a)
  {
    LeastFreePage(Reach(base, steps).heap.fr, User);
  }

  // ----- what a step does to identities -----

  datatype Event =
    | Created(slot: nat, pid: nat, parentPID: nat)
    | Dispatched(slot: nat)
    | Died(slot: nat, pid: nat, status: int)
    | Reaped(slot: nat, pid: nat, parent: nat)

  /** The one thing, if any, a step does to the process table that an observer can see. The pid of a process created for
      a caller, or reaped by one, is the caller's answer. */
  ghost function Emits(k: KernelState, step: Step): Option<Event>
    requires SchedulerOk(k)
  {
    match step
    case Bootstrap => if FindPID(k.procs, 1, 0).Some? then None else Creation(k, 0)
    case CreateKernel(parentPID) => Creation(k, parentPID)
    case Schedule =>
      var pick := PickNext(k.procs, k.lastScheduledSlot);
      if k.current.None? && pick.Some? then Some(Dispatched(pick.value)) else None
    case CallFork =>
      if k.current.Some? then Answered(k, k.procs[k.current.value].pid, Fork(k).1) else None
    case CallExit(status) => if k.current.Some? then Some(Death(k, k.current.value, status)) else None
    case EntryReturns => if k.current.Some? then Some(Death(k, k.current.value, 0)) else None
    case CallKill(pid) =>
      var target := FindPID(k.procs, pid, 0);
      if target.Some? then Some(Death(k, target.value, -1)) else None
    case CallWait => WaitEvent(k)
    case _ => None
  }

  ghost function Creation(k: KernelState, parentPID: nat): Option<Event> {
    Answered(k, parentPID, Create(k, parentPID).1)
  }

  /** A creation with the pid it answers. */
  ghost function Answered(k: KernelState, parentPID: nat, answer: Result): Option<Event> {
    var slot := AllocProcess(k, parentPID).1;
    if slot.Some? && answer.Value? then Some(Created(slot.value, answer.value, parentPID)) else None
  }

  function Death(k: KernelState, slot: nat, status: int): Event
    requires slot < |k.procs|
  {
    Died(slot, k.procs[slot].pid, status)
  }

  /** Every other slot keeps its occupant, alive or dead. */
  ghost predicate SameBut(procs: seq<Process>, procs': seq<Process>, slot: int) {
    && |procs'| == |procs|
    && forall i | 0 <= i < |procs| && i != slot ::
         && (procs'[i].state == Unused <==> procs[i].state == Unused)
         && (procs'[i].state == Zombie <==> procs[i].state == Zombie)
         && (procs[i].state != Unused ==> procs'[i].pid == procs[i].pid && procs'[i].parentPID == procs[i].parentPID)
  }

  ghost predicate Matches(k: KernelState, k': KernelState, event: Option<Event>)
    requires SchedulerOk(k)
  {
    && TableMatches(k, k', event)
    && match event
       case Some(Dispatched(slot)) =>
         PickNext(k.procs, k.lastScheduledSlot) == Some(slot) && k'.lastScheduledSlot == slot
       case _ => k'.lastScheduledSlot == k.lastScheduledSlot
  }

  ghost predicate TableMatches(k: KernelState, k': KernelState, event: Option<Event>) {
    match event
    case Some(Created(slot, pid, parentPID)) =>
      && slot < |k.procs| && SameBut(k.procs, k'.procs, slot) && k.procs[slot].state == Unused
      && k'.procs[slot].state == Runnable && k'.procs[slot].pid == pid == k.nextPID
      && k'.procs[slot].parentPID == parentPID && k'.nextPID == k.nextPID + 1
    case Some(Died(slot, pid, status)) =>
      && slot < |k.procs| && SameBut(k.procs, k'.procs, slot) && k'.nextPID == k.nextPID
      && k.procs[slot].state != Unused && k.procs[slot].pid == pid
      && k'.procs[slot].state == Zombie && k'.procs[slot].exitStatus == status && k'.procs[slot].pid == pid
      && k'.procs[slot].parentPID == k.procs[slot].parentPID
    case Some(Reaped(slot, pid, parent)) =>
      && slot < |k.procs| && SameBut(k.procs, k'.procs, slot) && k'.nextPID == k.nextPID
      && k.procs[slot].state == Zombie && k.procs[slot].pid == pid && k.procs[slot].parentPID == parent
      && k'.procs[slot].state == Unused
    case _ => SameBut(k.procs, k'.procs, -1) && k'.nextPID == k.nextPID
  }

  lemma AllocProcessMatches(k: KernelState, parentPID: nat)
    requires SchedulerOk(k)
    ensures Matches(k, AllocProcess(k, parentPID).0, Creation(k, parentPID))
  {
  }

  lemma ExitMatches(k: KernelState, slot: nat, status: int, k': KernelState)
    requires SchedulerOk(k) && slot < |k.procs| && k.procs[slot].state != Unused
    requires k'.procs == Exit(k.procs, slot, status) && k'.nextPID == k.nextPID
    requires k'.lastScheduledSlot == k.lastScheduledSlot
    ensures Matches(k, k', Some(Death(k, slot, status)))
  {
    ExitKeeps(k.procs, k.nextPID, slot, status);
  }

  lemma DispatchMatches(k: KernelState)
    requires SchedulerOk(k)
    ensures var pick := PickNext(k.procs, k.lastScheduledSlot);
            Matches(k, Dispatch(k), if pick.Some? then Some(Dispatched(pick.value)) else None)
  {
  }

  lemma YieldMatches(k: KernelState)
    requires SchedulerOk(k)
    ensures var (k', r) := Yield(k);
            (r.Raise? ==> k'.current.Some? && k'.current.value < |k'.procs|) && Matches(k, Settle(k', r).value, None)
  {
  }

  lemma TickMatches(k: KernelState)
    requires SchedulerOk(k)
    ensures var (k', r) := Tick(k);
            (r.Raise? ==> k'.current.Some? && k'.current.value < |k'.procs|) && Matches(k, Settle(k', r).value, None)
  {
  }

  lemma LeaveMatches(k: KernelState, signal: Signal)
    requires SchedulerOk(k) && k.current.Some? && (signal.Exited? || signal.Returned?)
    ensures var status := if signal.Exited? then signal.status else 0;
            Matches(k, Unwind(k, signal), Some(Death(k, k.current.value, status)))
  {
    var status := if signal.Exited? then signal.status else 0;
    ExitKeeps(k.procs, k.nextPID, k.current.value, status);
    ExitMatches(k, k.current.value, status, Unwind(k, signal));
  }

  lemma KillMatches(k: KernelState, pid: nat)
    requires SchedulerOk(k) && FindPID(k.procs, pid, 0).Some?
    ensures var (k', r) := Kill(k, pid);
            && (r.Raise? ==> k'.current.Some? && k'.current.value < |k'.procs|)
            && Matches(k, Settle(k', r).value, Some(Death(k, FindPID(k.procs, pid, 0).value, -1)))
  {
    var target := FindPID(k.procs, pid, 0).value;
    if k.current == Some(target) {
      LeaveMatches(k, Exited(-1));
    } else {
      ExitMatches(k, target, -1, Kill(k, pid).0);
    }
  }

  lemma SleepMatches(k: KernelState)
    requires SchedulerOk(k) && k.current.Some?
    ensures Matches(k, Unwind(k.(procs := WithState(k.procs, k.current.value, Sleeping)), Yielded), None)
  {
  }

  lemma ReapMatches(k: KernelState, k': KernelState, child: nat)
    requires SchedulerOk(k) && child < |k.procs| && k.procs[child].state == Zombie
    requires k'.procs == k.procs[child := NoProcess()] && k'.nextPID == k.nextPID
    requires k'.lastScheduledSlot == k.lastScheduledSlot
    ensures Matches(k, k', Some(Reaped(child, k.procs[child].pid, k.procs[child].parentPID)))
  {
  }

  ghost function WaitEvent(k: KernelState): Option<Event>
    requires SchedulerOk(k)
  {
    if k.current.None? then None
    else
      var pid := k.procs[k.current.value].pid;
      var child := ZombieChild(k.procs, pid, 0);
      var answer := Wait(k).1;
      if child.Some? && answer.Value? then Some(Reaped(child.value, answer.value, pid)) else None
  }

  lemma WaitMatches(k: KernelState)
    requires SchedulerOk(k) && k.current.Some?
    ensures var (k', r) := Wait(k);
            && (r.Raise? ==> k'.current.Some? && k'.current.value < |k'.procs|)
            && (Settle(k', r).Some? ==> Matches(k, Settle(k', r).value, WaitEvent(k)))
  {
    var pid := k.procs[k.current.value].pid;
    var child := ZombieChild(k.procs, pid, 0);
    if child.Some? {
      var after := ReleaseProcess(k, child.value);
      if after.Some? {
        ReapMatches(k, after.value, child.value);
      }
    } else if HasChild(k.procs, pid) {
      SleepMatches(k);
    }
  }

  lemma UserViewMatches(k: KernelState, slot: nat, u: UserMem)
    requires SchedulerOk(k) && slot < |k.procs|
    ensures Matches(k, WithUserView(k, slot, u), None)
  {
  }

  lemma MemoryMatches(k: KernelState, step: Step)
    requires Shaped(k) && SchedulerOk(k) && (UserStep(step) || HeapStep(step))
    ensures Next(k, step).Some? ==> Matches(k, Next(k, step).value, Emits(k, step))
  {
    if UserStep(step) && Live(k, step.slot) {
      UserViewMatches(k, step.slot, UserAfter(k, step));
    }
  }

  /** Every step does to the table exactly what its event says. */
  lemma StepMatchesEvent(k: KernelState, step: Step)
    requires SystemOk(k)
    ensures Matches(k, After(k, step), Emits(k, step))
  {
    NextKeeps(k, step);
    NextMatchesEvent(k, step);
  }

  lemma NextMatchesEvent(k: KernelState, step: Step)
    requires Shaped(k) && SchedulerOk(k)
    ensures Next(k, step).Some? ==> Matches(k, Next(k, step).value, Emits(k, step))
  {
    match step
    case Bootstrap => AllocProcessMatches(k, 0);
    case CreateKernel(parentPID) => AllocProcessMatches(k, parentPID);
    case CallFork =>
      if k.current.Some? {
        AllocProcessMatches(k, k.procs[k.current.value].pid);
      }
    case Schedule => DispatchMatches(k);
    case CallYield => YieldMatches(k);
    case TimerTick => TickMatches(k);
    case CallExit(status) =>
      if k.current.Some? {
        LeaveMatches(k, Exited(status));
      }
    case EntryReturns =>
      if k.current.Some? {
        LeaveMatches(k, Returned);
      }
    case CallKill(pid) =>
      if FindPID(k.procs, pid, 0).Some? {
        KillMatches(k, pid);
      }
    case CallWait =>
      if k.current.Some? {
        WaitMatches(k);
      }
    case _ => MemoryMatches(k, step);
  }
}
