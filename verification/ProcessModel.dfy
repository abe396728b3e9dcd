/** The process table and scheduler of phase1_kernel.go as values. */
module ProcessModel {
  import opened Common
  import opened PhysicalMemory
  import opened HeapModel
  import opened VmModel

  const NPROC: nat := 16

  datatype ProcState = Unused | Embryo | Runnable | Running | Sleeping | Zombie

  datatype Process = Process(pid: nat, parentPID: nat, state: ProcState, kernelStackBase: nat, kernelStackPages: nat,
                             vm: AddressSpace, faulted: bool, exitStatus: int)

  function NoProcess(): Process {
    Process(0, 0, Unused, 0, 0, ZeroSpace(), false, 0)
  }

  /** The kernel's globals. `current` is the slot of currentProc; it is set exactly while an entry runs. */
  datatype KernelState = KernelState(heap: Heap, procs: seq<Process>, nextPID: nat, current: Option<nat>,
                                     lastScheduledSlot: int, scheduleRequested: bool) {
    function WithFrames(fr: Frames): KernelState {
      this.(heap := heap.(fr := fr))
    }
  }

  // ----- table lookups -----

  function FindPID(procs: seq<Process>, pid: nat, i: nat): (r: Option<nat>)
    requires i <= |procs|
    ensures r.Some? ==> i <= r.value < |procs| && procs[r.value].state != Unused && procs[r.value].pid == pid
    ensures r.None? ==> forall j | i <= j < |procs| && procs[j].state != Unused :: procs[j].pid != pid
    decreases |procs| - i
  {
    if i == |procs| then None
    else if procs[i].state != Unused && procs[i].pid == pid then Some(i)
    else FindPID(procs, pid, i + 1)
  }

  function UnusedSlot(procs: seq<Process>, i: nat): (r: Option<nat>)
    requires i <= |procs|
    ensures r.Some? ==> i <= r.value < |procs| && procs[r.value].state == Unused
    ensures r.None? ==> forall j | i <= j < |procs| :: procs[j].state != Unused
    decreases |procs| - i
  {
    if i == |procs| then None else if procs[i].state == Unused then Some(i) else UnusedSlot(procs, i + 1)
  }

  lemma {:induction false} UnusedSlotIsFirst(procs: seq<Process>, i: nat)
    requires i <= |procs|
    ensures var r := UnusedSlot(procs, i); r.Some? ==> forall j | i <= j < r.value :: procs[j].state != Unused
    decreases |procs| - i
  {
    if i < |procs| {
      UnusedSlotIsFirst(procs, i + 1);
    }
  }

  predicate ChildOf(procs: seq<Process>, j: int, pid: nat) {
    0 <= j < |procs| && procs[j].state != Unused && procs[j].parentPID == pid
  }

  /** The first zombie child at or after slot `i`. */
  function ZombieChild(procs: seq<Process>, pid: nat, i: nat): (r: Option<nat>)
    requires i <= |procs|
    ensures r.Some? ==> i <= r.value < |procs| && ChildOf(procs, r.value, pid) && procs[r.value].state == Zombie
    ensures r.None? ==> forall j | i <= j < |procs| && ChildOf(procs, j, pid) :: procs[j].state != Zombie
    decreases |procs| - i
  {
    if i == |procs| then None
    else if ChildOf(procs, i, pid) && procs[i].state == Zombie then Some(i)
    else ZombieChild(procs, pid, i + 1)
  }

  lemma {:induction false} ZombieChildIsFirst(procs: seq<Process>, pid: nat, i: nat)
    requires i <= |procs|
    ensures var r := ZombieChild(procs, pid, i);
            r.Some? ==> forall j | i <= j < r.value && ChildOf(procs, j, pid) :: procs[j].state != Zombie
    decreases |procs| - i
  {
    if i < |procs| {
      ZombieChildIsFirst(procs, pid, i + 1);
    }
  }

  predicate HasChild(procs: seq<Process>, pid: nat) {
    exists j | 0 <= j < |procs| :: ChildOf(procs, j, pid)
  }

  // ----- creation and release -----

  /** vmInitProcess on an empty table: one kernel page, mapped read-only as the trap page. */
  ghost function InitSpace(fr: Frames): (Frames, Option<AddressSpace>) {
    var (fr', page) := Allocate(fr, Kernel, 1);
    if page.None? then (fr', None) else InstallTrapPage(fr', page.value)
  }

  /** The address space that holds a trap page and nothing else. */
  function TrapSpace(page: nat): AddressSpace {
    FreshSpace().(mappings := NoMappings()[0 := Mapping(TRAP_PAGE, page, {Read}, Kernel, true, true)])
  }

  ghost function InstallTrapPage(fr: Frames, page: nat): (Frames, Option<AddressSpace>) {
    if page % 4096 != 0 then (Release(fr, Kernel, page).0, None) else (fr, Some(TrapSpace(page)))
  }

  /** Mapping the trap page into an empty table can fail only for its alignment. */
  lemma TrapPageMaps(page: nat)
    ensures MapOwnedPage(NoMappings(), TRAP_PAGE, page, Kernel, {Read}) ==
              if page % 4096 != 0 then None else Some(TrapSpace(page).mappings)
  {
    if page % 4096 == 0 {
      assert !NoMappings()[0].present;
      MapOwnedFillsOneEntry(NoMappings(), TRAP_PAGE, page, Kernel, {Read});
    }
  }

  /** A new address space: the layout's figures, and nothing mapped but the trap page, which the kernel may read
      and the user may not touch. */
  lemma NewSpaceShowsNothing(page: nat, va: nat, write: bool)
    ensures var vm := TrapSpace(page);
            && vm.layout == Layout(0x0010_0000, 0x0020_0000, 0x7FFF_0000, 0x7FFF_0000, 0x7FFE_0000, 0, 0, 0x7FFF_F000)
            && At(vm, va, write).None?
            && Translate(vm.mappings, 0x7FFF_F000, {Read}, false) == Some(page)
            && Translate(vm.mappings, 0x7FFF_F000, {Write}, false).None?
            && forall i | 0 < i < |vm.mappings| :: !vm.mappings[i].present
  {
    assert PageAlignDown(0x7FFF_F000) == 0x7FFF_F000;
  }

  /** vmInitProcess over whatever the table holds: a fresh layout, and the trap page in a free entry. */
  ghost function InitSpaceOver(fr: Frames, ms: seq<Mapping>): (Frames, Option<AddressSpace>) {
    var (fr', page) := Allocate(fr, Kernel, 1);
    if page.None? then (fr', None) else InstallOver(fr', ms, page.value)
  }

  ghost function InstallOver(fr: Frames, ms: seq<Mapping>, page: nat): (Frames, Option<AddressSpace>) {
    var mapped := MapOwnedPage(ms, TRAP_PAGE, page, Kernel, {Read});
    if mapped.None? then (Release(fr, Kernel, page).0, None) else (fr, Some(FreshSpace().(mappings := mapped.value)))
  }

  /** For a new process the table is empty. */
  lemma InitSpaceOverEmpty(fr: Frames)
    ensures InitSpaceOver(fr, NoMappings()) == InitSpace(fr)
  {
    var (fr', page) := Allocate(fr, Kernel, 1);
    if page.Some? {
      TrapPageMaps(page.value);
    }
  }

  function NewProcess(pid: nat, parentPID: nat, kstack: nat, vm: AddressSpace): Process {
    Process(pid, parentPID, Runnable, kstack, 1, vm, false, 0)
  }

  /** The slot is filled, or emptied again with its kernel stack given back. */
  ghost function StartIn(k: KernelState, slot: nat, parentPID: nat, kstack: nat): (KernelState, Option<nat>)
    requires slot < |k.procs|
  {
    var (fr, vm) := InitSpace(k.heap.fr);
    if vm.None? then
      (k.WithFrames(Release(fr, Kernel, kstack).0).(procs := k.procs[slot := NoProcess()]), None)
    else
      (k.WithFrames(fr).(procs := k.procs[slot := NewProcess(k.nextPID, parentPID, kstack, vm.value)],
                         nextPID := k.nextPID + 1), Some(slot))
  }

  ghost function AllocProcess(k: KernelState, parentPID: nat): (KernelState, Option<nat>) {
    var (fr1, kstack) := Allocate(k.heap.fr, Kernel, 1);
    if kstack.None? then (k.WithFrames(fr1), None)
    else
      match UnusedSlot(k.procs, 0)
      case None => (k.WithFrames(Release(fr1, Kernel, kstack.value).0), None)
      case Some(slot) => StartIn(k.WithFrames(fr1), slot, parentPID, kstack.value)
  }

  /** Free every owned page of a table; None is the "failed to free mapped page" panic. */
  ghost function ReleaseMappings(fr: Frames, ms: seq<Mapping>): Option<Frames>
    decreases |ms|
  {
    if ms == [] then Some(fr)
    else if !ms[0].present || !ms[0].owned then ReleaseMappings(fr, ms[1..])
    else
      var (fr', ok) := Release(fr, ms[0].pool, ms[0].paddr);
      if ok then ReleaseMappings(fr', ms[1..]) else None
  }

  /** releaseProcess; None is a "failed to free" panic. */
  ghost function ReleaseProcess(k: KernelState, slot: nat): Option<KernelState>
    requires slot < |k.procs|
  {
    var p := k.procs[slot];
    match ReleaseMappings(k.heap.fr, p.vm.mappings)
    case None => None
    case Some(fr) =>
      var (fr', ok) := ReleaseRun(fr, p.kernelStackBase, p.kernelStackPages);
      if ok then Some(k.WithFrames(fr').(procs := k.procs[slot := NoProcess()])) else None
  }

  // ----- scheduling -----

  /** The first runnable slot, scanning from `offset` slots after the last one scheduled. */
  function PickFrom(procs: seq<Process>, last: int, offset: nat): (r: Option<nat>)
    requires |procs| == NPROC && -1 <= last < NPROC && 1 <= offset
    ensures r.Some? ==> r.value < NPROC && procs[r.value].state == Runnable
    decreases NPROC + 1 - offset
  {
    if offset > NPROC then None
    else if procs[(last + offset) % 16].state == Runnable then Some((last + offset) % 16)
    else PickFrom(procs, last, offset + 1)
  }

  function PickNext(procs: seq<Process>, last: int): (r: Option<nat>)
    requires |procs| == NPROC && -1 <= last < NPROC
    ensures r.Some? ==> r.value < NPROC && procs[r.value].state == Runnable
  {
    PickFrom(procs, last, 1)
  }

  function WithState(procs: seq<Process>, slot: nat, state: ProcState): seq<Process>
    requires slot < |procs|
  {
    procs[slot := procs[slot].(state := state)]
  }

  /** pickNextRunnable and the entry half of switchToProcess. */
  function Dispatch(k: KernelState): KernelState
    requires |k.procs| == NPROC && -1 <= k.lastScheduledSlot < NPROC
  {
    match PickNext(k.procs, k.lastScheduledSlot)
    case None => k
    case Some(slot) =>
      k.(procs := WithState(k.procs, slot, Running), current := Some(slot),
         lastScheduledSlot := slot, scheduleRequested := false)
  }

  /** processExit: become a zombie, then wake a sleeping parent. */
  function Exit(procs: seq<Process>, slot: nat, status: int): seq<Process>
    requires slot < |procs|
  {
    var dead := procs[slot := procs[slot].(exitStatus := status, state := Zombie)];
    if dead[slot].parentPID == 0 then dead
    else
      match FindPID(dead, dead[slot].parentPID, 0)
      case None => dead
      case Some(parent) => if dead[parent].state == Sleeping then WithState(dead, parent, Runnable) else dead
  }

  /** How control leaves an entry function. */
  datatype Signal = Returned | Yielded | Preempted | Exited(status: int)

  /** The deferred half of switchToProcess. */
  function Unwind(k: KernelState, signal: Signal): KernelState
    requires k.current.Some? && k.current.value < |k.procs|
  {
    var slot := k.current.value;
    var procs :=
      match signal
      case Returned => k.procs
      case Yielded => if k.procs[slot].state == Running then WithState(k.procs, slot, Runnable) else k.procs
      case Preempted => if k.procs[slot].state == Running then WithState(k.procs, slot, Runnable) else k.procs
      case Exited(status) => Exit(k.procs, slot, status);
    k.(procs := if procs[slot].state == Running then Exit(procs, slot, 0) else procs, current := None)
  }

  // ----- system calls and ticks: a result, or a signal raised -----

  /** Error is syscallError, a number no pid reaches. */
  datatype Result = Value(value: nat) | Error | Raise(signal: Signal) | KernelPanic

  /** processCreateKernel */
  ghost function Create(k: KernelState, parentPID: nat): (KernelState, Result) {
    var (k', slot) := AllocProcess(k, parentPID);
    (k', if slot.Some? then Value(k'.procs[slot.value].pid) else Error)
  }

  ghost function Fork(k: KernelState): (KernelState, Result)
    requires k.current.Some? && k.current.value < |k.procs|
  {
    Create(k, k.procs[k.current.value].pid)
  }

  ghost function Wait(k: KernelState): (KernelState, Result)
    requires k.current.Some? && k.current.value < |k.procs|
  {
    var slot := k.current.value;
    var pid := k.procs[slot].pid;
    match ZombieChild(k.procs, pid, 0)
    case Some(child) =>
      (match ReleaseProcess(k, child)
       case None => (k, KernelPanic)
       case Some(k') => (k', Value(k.procs[child].pid)))
    case None =>
      if !HasChild(k.procs, pid) then (k, Error)
      else (k.(procs := WithState(k.procs, slot, Sleeping)), Raise(Yielded))
  }

  function Yield(k: KernelState): (KernelState, Result)
    requires k.current.Some? ==> k.current.value < |k.procs|
  {
    if k.current.None? then (k, Value(0))
    else
      var slot := k.current.value;
      var procs := if k.procs[slot].state == Running then WithState(k.procs, slot, Runnable) else k.procs;
      (k.(procs := procs, scheduleRequested := true), Raise(Yielded))
  }

  function Kill(k: KernelState, pid: nat): (KernelState, Result) {
    match FindPID(k.procs, pid, 0)
    case None => (k, Error)
    case Some(target) =>
      if k.current == Some(target) then (k, Raise(Exited(-1)))
      else (k.(procs := Exit(k.procs, target, -1)), Value(0))
  }

  /** timerInterrupt, with the timer configured. */
  function Tick(k: KernelState): (KernelState, Result)
    requires k.current.Some? ==> k.current.value < |k.procs|
  {
    var k' := if k.current.None? || k.procs[k.current.value].state != Running then k
              else k.(procs := WithState(k.procs, k.current.value, Runnable), scheduleRequested := true);
    (k', if k'.scheduleRequested && k'.current.Some? then Raise(Preempted) else Value(0))
  }
}
