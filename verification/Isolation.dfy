/** User memory in the running kernel: isolation, the copy round trip, and the page table's reserve. */
module Isolation {
  import opened Common
  import opened PhysicalMemory
  import opened HeapModel
  import opened VmModel
  import opened VmProofs
  import opened ProcessModel
  import opened Scheduling
  import opened Ownership
  import opened Capacity
  import opened Machine

  /** In every reachable state a finished copyout is read back exactly by copyin at the same address. */
  lemma WriteThenRead(k: KernelState, slot: nat, va: nat, bytes: seq<byte>)
    requires SystemOk(k) && Live(k, slot) && CopyOut(UserView(k, slot), va, bytes).1
    ensures var k' := After(k, UserWrites(slot, va, bytes));
            CopyIn(UserView(k', slot), va, |bytes|) == (UserView(k', slot), Some(bytes))
  {
    WrittenIsRead(k, slot, va, bytes);
    NextUser(k, UserWrites(slot, va, bytes));
  }

  lemma WrittenIsRead(k: KernelState, slot: nat, va: nat, bytes: seq<byte>)
    requires Partitioned(k) && Live(k, slot) && CopyOut(UserView(k, slot), va, bytes).1
    ensures var k' := WithUserView(k, slot, CopyOut(UserView(k, slot), va, bytes).0);
            CopyIn(UserView(k', slot), va, |bytes|) == (UserView(k', slot), Some(bytes))
  {
    UserViewOk(k, slot);
    CopyRoundTrip(UserView(k, slot), OthersUserPages(k, slot), va, bytes);
  }

  /** What one process holds is among the pages every other process must leave alone. */
  lemma OtherPageIsOthers(k: KernelState, slot: nat, other: nat, page: nat)
    requires slot < |k.procs| && other < |k.procs| && slot != other
    requires page in UserPagesOf(k.procs[other])
    ensures page in OthersUserPages(k, slot)
  {
    FlattenPair(k.procs, UserPagesOf, if slot < other then slot else other, if slot < other then other else slot);
    assert (UserPagesOf(k.procs[slot]) + UserPagesOf(k.procs[other]))[page] <= UserHeld(k.procs)[page];
  }

  /** The page behind an address a process can see is one it holds. */
  lemma VisiblePage(k: KernelState, slot: nat, va: nat, w: bool) returns (page: nat)
    requires Partitioned(k) && Live(k, slot) && At(k.procs[slot].vm, va, w).Some?
    ensures page in UserPagesOf(k.procs[slot])
    ensures At(k.procs[slot].vm, va, w) == Some(page + (va - PageAlignDown(va)))
  {
    UserViewOk(k, slot);
    var i;
    i, page := UserPage(UserView(k, slot), OthersUserPages(k, slot), va, w);
  }

  /** A copyout by one process, finished or faulted, changes no byte another process can see. */
  lemma WritesInvisibleToOthers(k: KernelState, slot: nat, va: nat, bytes: seq<byte>, other: nat, vb: nat, w: bool)
    requires Partitioned(k) && Live(k, slot) && Live(k, other) && slot != other && At(k.procs[other].vm, vb, w).Some?
    ensures var k' := WithUserView(k, slot, CopyOut(UserView(k, slot), va, bytes).0);
            var seen := At(k.procs[other].vm, vb, w).value;
            k'.procs[other] == k.procs[other] && Peek(k'.heap.ram, seen) == Peek(k.heap.ram, seen)
  {
    var page := VisiblePage(k, other, vb, w);
    OtherPageIsOthers(k, slot, other, page);
    WriteMissesPage(k, slot, va, bytes, page, vb - PageAlignDown(vb));
  }

  lemma WriteMissesPage(k: KernelState, slot: nat, va: nat, bytes: seq<byte>, page: nat, offset: nat)
    requires Partitioned(k) && Live(k, slot) && offset < 4096
    requires page in OthersUserPages(k, slot) || page in k.heap.fr.Live(Kernel)
    ensures Peek(CopyOut(UserView(k, slot), va, bytes).0.ram, page + offset) == Peek(k.heap.ram, page + offset)
  {
    UserViewOk(k, slot);
    CopyOutIsIsolated(UserView(k, slot), OthersUserPages(k, slot), va, bytes, page, offset);
  }

  /** Nor does it change a byte of any kernel stack, trap page or heap block. */
  lemma WritesMissKernelMemory(k: KernelState, slot: nat, va: nat, bytes: seq<byte>, page: nat, offset: nat)
    requires Partitioned(k) && Live(k, slot) && offset < 4096
    requires page in KernelHeld(k.procs) || page in HeapPages(k.heap.table)
    ensures var k' := WithUserView(k, slot, CopyOut(UserView(k, slot), va, bytes).0);
            Peek(k'.heap.ram, page + offset) == Peek(k.heap.ram, page + offset)
  {
    assert page in multiset(k.heap.fr.Live(Kernel));
    WriteMissesPage(k, slot, va, bytes, page, offset);
  }

  // ----- page tables in runs without a loader -----

  ghost predicate AllKernelBuilt(procs: seq<Process>) {
    forall i | 0 <= i < |procs| && procs[i].state != Unused :: KernelBuilt(procs[i].vm)
  }

  lemma UserStepKeepsKernelBuilt(k: KernelState, step: Step)
    requires Partitioned(k) && AllKernelBuilt(k.procs) && UserStep(step) && !step.LoadsPage? && Live(k, step.slot)
    ensures KernelBuilt(UserAfter(k, step).vm)
  {
    var u, others := UserView(k, step.slot), OthersUserPages(k, step.slot);
    UserViewOk(k, step.slot);
    match step
    case UserReads(slot, va, count) => CopyInKeepsKernelBuilt(u, others, va, count);
    case UserWrites(slot, va, bytes) => CopyOutKeepsKernelBuilt(u, others, va, bytes);
    case StackGrows(slot, va) => GrowthKeepsKernelBuilt(u, others, va);
  }

  lemma UserStepKeepsAllBuilt(k: KernelState, step: Step)
    requires Shaped(k) && Partitioned(k) && AllKernelBuilt(k.procs) && UserStep(step) && !step.LoadsPage?
    ensures Next(k, step).Some? && AllKernelBuilt(Next(k, step).value.procs)
  {
    NextUser(k, step);
    if Live(k, step.slot) {
      UserStepKeepsKernelBuilt(k, step);
    }
  }

  /** No process gains or changes an address space. */
  ghost predicate SameSpaces(procs: seq<Process>, procs': seq<Process>) {
    |procs'| == |procs| &&
    forall i | 0 <= i < |procs| && procs'[i].state != Unused :: procs[i].state != Unused && procs'[i].vm == procs[i].vm
  }

  lemma CreationKeepsKernelBuilt(k: KernelState, parentPID: nat)
    requires k.heap.fr.Ok() && AllKernelBuilt(k.procs)
    ensures AllKernelBuilt(AllocProcess(k, parentPID).0.procs)
  {
    var (fr1, kstack) := Allocate(k.heap.fr, Kernel, 1);
    AllocationIsNextFit(k.heap.fr, Kernel, 1);
    if kstack.Some? && InitSpace(fr1).1.Some? {
      NewSpaceIsKernelBuilt(fr1);
    }
  }

  lemma ExitKeepsSpaces(procs: seq<Process>, slot: nat, status: int)
    requires slot < |procs| && procs[slot].state != Unused
    ensures SameSpaces(procs, Exit(procs, slot, status))
  {
  }

  lemma UnwindKeepsSpaces(k: KernelState, signal: Signal)
    requires k.current.Some? && k.current.value < |k.procs| && k.procs[k.current.value].state != Unused
    ensures SameSpaces(k.procs, Unwind(k, signal).procs)
  {
    var slot := k.current.value;
    if signal.Exited? {
      ExitKeepsSpaces(k.procs, slot, signal.status);
    } else {
      ExitKeepsSpaces(k.procs, slot, 0);
    }
  }

  lemma SwitchKeepsSpaces(k: KernelState, state: ProcState, requested: bool, signal: Signal)
    requires k.current.Some? && k.current.value < |k.procs| && k.procs[k.current.value].state != Unused
    requires state != Unused
    ensures SameSpaces(k.procs,
                       Unwind(k.(procs := WithState(k.procs, k.current.value, state), scheduleRequested := requested),
                              signal).procs)
  {
    UnwindKeepsSpaces(k.(procs := WithState(k.procs, k.current.value, state), scheduleRequested := requested), signal);
  }

  lemma WaitKeepsSpaces(k: KernelState)
    requires SchedulerOk(k) && k.current.Some?
    ensures var (k', r) := Wait(k);
            && (r.Raise? ==> k'.current.Some? && k'.current.value < |k'.procs|)
            && (Settle(k', r).Some? ==> SameSpaces(k.procs, Settle(k', r).value.procs))
  {
    var pid := k.procs[k.current.value].pid;
    if ZombieChild(k.procs, pid, 0).None? && HasChild(k.procs, pid) {
      SwitchKeepsSpaces(k, Sleeping, k.scheduleRequested, Yielded);
    }
  }

  lemma KillKeepsSpaces(k: KernelState, pid: nat)
    requires SchedulerOk(k)
    ensures var (k', r) := Kill(k, pid);
            && (r.Raise? ==> k'.current.Some? && k'.current.value < |k'.procs|)
            && Settle(k', r).Some? && SameSpaces(k.procs, Settle(k', r).value.procs)
  {
    var target := FindPID(k.procs, pid, 0);
    if target.Some? {
      ExitKeepsSpaces(k.procs, target.value, -1);
      if k.current == target {
        UnwindKeepsSpaces(k, Exited(-1));
      }
    }
  }

  lemma SameSpacesStayBuilt(procs: seq<Process>, procs': seq<Process>)
    requires AllKernelBuilt(procs) && SameSpaces(procs, procs')
    ensures AllKernelBuilt(procs')
  {
  }

  predicate Creates(step: Step) {
    step.Bootstrap? || step.CreateKernel? || step.CallFork?
  }

  predicate Leaves(step: Step) {
    step.CallExit? || step.EntryReturns?
  }

  lemma LeavingKeepsSpaces(k: KernelState, step: Step)
    requires Shaped(k) && OneRuns(k.procs, k.current) && Leaves(step)
    ensures SameSpaces(k.procs, Next(k, step).value.procs)
  {
    NextLeave(k, step);
    if k.current.Some? {
      UnwindKeepsSpaces(k, if step.CallExit? then Exited(step.status) else Returned);
    }
  }

  predicate Switches(step: Step) {
    step.CallYield? || step.TimerTick?
  }

  lemma SwitchingKeepsSpaces(k: KernelState, step: Step)
    requires Shaped(k) && OneRuns(k.procs, k.current) && Switches(step)
    ensures SameSpaces(k.procs, Next(k, step).value.procs)
  {
    NextSwitch(k, step);
    if k.current.Some? {
      SwitchKeepsSpaces(k, Runnable, true, if step.CallYield? then Yielded else Preempted);
    }
  }

  lemma SchedulingKeepsSpaces(k: KernelState, step: Step)
    requires Shaped(k) && SchedulerOk(k) && !Creates(step) && !UserStep(step)
    ensures Next(k, step).Some? ==> SameSpaces(k.procs, Next(k, step).value.procs)
  {
    if Leaves(step) {
      LeavingKeepsSpaces(k, step);
      return;
    }
    if Switches(step) {
      SwitchingKeepsSpaces(k, step);
      return;
    }
    match step
    case CallWait =>
      if k.current.Some? {
        WaitKeepsSpaces(k);
      }
    case CallKill(pid) => KillKeepsSpaces(k, pid);
    case Schedule => DispatchKeepsSpaces(k);
    case _ =>
  }

  lemma DispatchKeepsSpaces(k: KernelState)
    requires SchedulerOk(k)
    ensures SameSpaces(k.procs, Dispatch(k).procs)
  {
  }

  lemma CreatorKeepsKernelBuilt(k: KernelState, step: Step)
    requires Shaped(k) && AllKernelBuilt(k.procs) && Creates(step)
    ensures AllKernelBuilt(Next(k, step).value.procs)
  {
    match step
    case Bootstrap => CreationKeepsKernelBuilt(k, 0);
    case CreateKernel(parentPID) => CreationKeepsKernelBuilt(k, parentPID);
    case CallFork =>
      if k.current.Some? {
        CreationKeepsKernelBuilt(k, k.procs[k.current.value].pid);
      }
  }

  lemma StepKeepsKernelBuilt(k: KernelState, step: Step, k': KernelState)
    requires Shaped(k) && SchedulerOk(k) && Partitioned(k) && AllKernelBuilt(k.procs) && !step.LoadsPage?
    requires Next(k, step) == Some(k')
    ensures AllKernelBuilt(k'.procs)
  {
    if Creates(step) {
      CreatorKeepsKernelBuilt(k, step);
    } else if UserStep(step) {
      UserStepKeepsAllBuilt(k, step);
    } else {
      SchedulingKeepsSpaces(k, step);
      SameSpacesStayBuilt(k.procs, k'.procs);
    }
  }

  /** Through kernel paths alone no page table ever fills: after any run without a loader,
      at least 111 of the 128 entries of every process are free. */
  lemma {:induction false} TablesNeverFill(k: KernelState, steps: seq<Step>)
    requires SystemOk(k) && AllKernelBuilt(k.procs) && forall i | 0 <= i < |steps| :: !steps[i].LoadsPage?
    ensures var k' := Run(k, steps);
            AllKernelBuilt(k'.procs) &&
            forall i | 0 <= i < |k'.procs| && k'.procs[i].state != Unused ::
              FreeMapping(k'.procs[i].vm.mappings, 0).Some? && FreeMapping(k'.procs[i].vm.mappings, 0).value <= 17
    decreases |steps|
  {
    if steps == [] {
      forall i | 0 <= i < |k.procs| && k.procs[i].state != Unused
        ensures FreeMapping(k.procs[i].vm.mappings, 0).Some? && FreeMapping(k.procs[i].vm.mappings, 0).value <= 17
      {
        KernelBuiltTableHasRoom(k.procs[i].vm);
      }
    } else {
      if Next(k, steps[0]).Some? {
        StepKeepsKernelBuilt(k, steps[0], After(k, steps[0]));
      }
      TablesNeverFill(After(k, steps[0]), steps[1..]);
    }
  }

  /** In particular over every run from boot. */
  lemma BootTablesNeverFill(base: nat, steps: seq<Step>, slot: nat)
    requires base % 4096 == 0 && slot < NPROC && forall i | 0 <= i < |steps| :: !steps[i].LoadsPage?
    ensures var k := Run(Boot(base), steps);
            |k.procs| == NPROC && (k.procs[slot].state != Unused ==> FreeMapping(k.procs[slot].vm.mappings, 0).Some?)
  {
    TablesNeverFill(Boot(base), steps);
  }
}
