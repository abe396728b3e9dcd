/** The run that gets stuck: a process whose named parent is numbered later sleeps on its own grandchild. */
module DeadlockRun {
  import opened Common
  import opened PhysicalMemory
  import opened HeapModel
  import opened ProcessModel
  import opened Scheduling
  import opened Room
  import opened Capacity
  import opened Machine
  import opened Runs
  import opened Deadlock
  import opened Reachability

  // ----- runs without outside creations -----

  predicate Inner(step: Step) {
    !step.CreateKernel?
  }

  ghost predicate NoCreation(steps: seq<Step>) {
    forall i | 0 <= i < |steps| :: Inner(steps[i])
  }

  /** Outside creations, if any, name no parent. */
  predicate NameNobody(steps: seq<Step>) {
    forall i | 0 <= i < |steps| :: Inner(steps[i]) || steps[i].parentPID == 0
  }

  lemma {:induction false} NameNobodyNamesOldParents(k: KernelState, steps: seq<Step>)
    requires SystemOk(k) && NameNobody(steps)
    ensures NamesOldParents(k, steps)
    decreases |steps|
  {
    if steps != [] {
      NameNobodyNamesOldParents(After(k, steps[0]), steps[1..]);
    }
  }

  ghost function Advance(k: KernelState, step: Step): KernelState {
    if SystemOk(k) then After(k, step) else k
  }

  /** The kernel gets from `k0` to `k` by steps that create nothing from outside. */
  ghost predicate Gets(k0: KernelState, k: KernelState) {
    Reaches(Advance, Inner, k0, k)
  }

  /** Every state the kernel gets to from here is in order. */
  ghost predicate Safe(k0: KernelState) {
    Always(Advance, SystemOk, k0)
  }

  lemma OkIsSafe(k0: KernelState)
    requires SystemOk(k0)
    ensures Safe(k0)
  {
    forall k, step ensures SystemOk(k) ==> SystemOk(Advance(k, step)) {
    }
    AlwaysKept(Advance, SystemOk, k0);
  }

  lemma GetsOk(k0: KernelState, k: KernelState)
    requires Safe(k0) && Gets(k0, k)
    ensures SystemOk(k)
  {
    AlwaysThere(Advance, Inner, SystemOk, k0, k);
  }

  lemma {:induction false} FoldIsRun(k: KernelState, steps: seq<Step>)
    requires SystemOk(k)
    ensures Fold(Advance, k, steps) == Run(k, steps)
    decreases |steps|
  {
    if steps != [] {
      FoldIsRun(After(k, steps[0]), steps[1..]);
    }
  }

  lemma GetsByRun(k0: KernelState, k: KernelState) returns (steps: seq<Step>)
    requires SystemOk(k0) && Gets(k0, k)
    ensures NoCreation(steps) && Run(k0, steps) == k
  {
    steps :| All(Inner, steps) && Fold(Advance, k0, steps) == k;
    FoldIsRun(k0, steps);
  }

  /** One more step of the processes, which cannot panic. */
  lemma StepOn(k0: KernelState, k: KernelState, step: Step) returns (k': KernelState)
    requires Safe(k0) && Gets(k0, k) && Inner(step) && !UserStep(step) && !HeapStep(step)
    ensures Shaped(k) && Next(k, step) == Some(k') && Shaped(k') && SchedulerOk(k') && Gets(k0, k')
  {
    GetsOk(k0, k);
    k' := After(k, step);
    NextKeeps(k, step);
    ReachesOneMore(Advance, Inner, k0, k, step);
  }

  // ----- room along the way -----

  /** Process steps leave the heap's table and the window alone. */
  lemma ProcessStepKeepsHeap(k: KernelState, step: Step)
    requires Shaped(k) && !UserStep(step) && !HeapStep(step) && Next(k, step).Some?
    ensures Next(k, step).value.heap == k.heap.(fr := Next(k, step).value.heap.fr)
  {
    match step
    case Bootstrap => CreationKeepsHeap(k, 0);
    case CreateKernel(parentPID) => CreationKeepsHeap(k, parentPID);
    case CallFork =>
      if k.current.Some? {
        CreationKeepsHeap(k, k.procs[k.current.value].pid);
      }
    case _ => SchedulingKeepsHeap(k, step);
  }

  lemma CreationKeepsHeap(k: KernelState, parentPID: nat)
    ensures AllocProcess(k, parentPID).0.heap == k.heap.(fr := AllocProcess(k, parentPID).0.heap.fr)
  {
  }

  lemma SchedulingKeepsHeap(k: KernelState, step: Step)
    requires Shaped(k) && !UserStep(step) && !HeapStep(step) && Next(k, step).Some?
    requires !step.Bootstrap? && !step.CreateKernel? && !step.CallFork?
    ensures Next(k, step).value.heap == k.heap.(fr := Next(k, step).value.heap.fr)
  {
  }

  /** How many slots an event takes. */
  function Takes(e: Option<Event>): int {
    match e
    case Some(Created(_, _, _)) => 1
    case Some(Reaped(_, _, _)) => -1
    case _ => 0
  }

  lemma EventCountsSlots(k: KernelState, k': KernelState, e: Option<Event>)
    requires SchedulerOk(k) && Matches(k, k', e)
    ensures InUse(k'.procs) == InUse(k.procs) + Takes(e)
  {
    match e
    case Some(Created(slot, _, _)) => InUseOneMore(k.procs, k'.procs, slot);
    case Some(Reaped(slot, _, _)) => InUseOneMore(k'.procs, k.procs, slot);
    case Some(Died(_, _, _)) => InUseAlike(k.procs, k'.procs);
    case Some(Dispatched(_)) => InUseAlike(k.procs, k'.procs);
    case None => InUseAlike(k.procs, k'.procs);
  }

  lemma RoomMoves(k: KernelState, k': KernelState, n: nat, m: nat)
    requires k.heap.Ok() && k'.heap.Ok() && k'.heap == k.heap.(fr := k'.heap.fr)
    requires FrameAllocator.PoolsOk(k.heap.fr) && FrameAllocator.PoolsOk(k'.heap.fr)
    requires InUse(k'.procs) + m == InUse(k.procs) + n
    ensures HasRoom(k', m) <==> HasRoom(k, n)
  {
    SameUsablePages(k.heap.fr, k'.heap.fr);
  }

  /** A process step moves the room by what its event takes. */
  lemma RoomAfter(k0: KernelState, k: KernelState, step: Step, k': KernelState, n: nat, m: nat)
    requires Safe(k0) && Gets(k0, k) && Gets(k0, k') && !UserStep(step) && !HeapStep(step)
    requires Shaped(k) && SchedulerOk(k) && Next(k, step) == Some(k') && m == n - Takes(Emits(k, step)) && HasRoom(k, n)
    ensures HasRoom(k', m)
  {
    GetsPools(k0, k);
    GetsPools(k0, k');
    StepMovesRoom(k, step, k', n, m);
  }

  lemma StepMovesRoom(k: KernelState, step: Step, k': KernelState, n: nat, m: nat)
    requires Shaped(k) && SchedulerOk(k) && !UserStep(step) && !HeapStep(step) && Next(k, step) == Some(k')
    requires k'.heap.Ok() && FrameAllocator.PoolsOk(k.heap.fr) && FrameAllocator.PoolsOk(k'.heap.fr)
    requires m == n - Takes(Emits(k, step)) && HasRoom(k, n)
    ensures HasRoom(k', m)
  {
    ProcessStepKeepsHeap(k, step);
    NextMatchesEvent(k, step);
    EventCountsSlots(k, k', Emits(k, step));
    RoomMoves(k, k', n, m);
  }

  lemma GetsPools(k0: KernelState, k: KernelState)
    requires Safe(k0) && Gets(k0, k)
    ensures k.heap.Ok() && FrameAllocator.PoolsOk(k.heap.fr)
  {
    GetsOk(k0, k);
  }

  /** With room for one, a fork or creation succeeds. */
  lemma RoomFits(k0: KernelState, k: KernelState, parentPID: nat)
    requires Safe(k0) && Gets(k0, k) && HasRoom(k, 1)
    ensures AllocProcess(k, parentPID).1.Some?
  {
    GetsOk(k0, k);
    ProcessFitsIffRoom(k, parentPID);
  }

  // ----- the steps of the run -----

  /** What a successful creation does to the state. */
  lemma CreationShape(k: KernelState, parentPID: nat) returns (slot: nat)
    requires SchedulerOk(k) && AllocProcess(k, parentPID).1.Some?
    ensures slot < NPROC && k.procs[slot].state == Unused
    ensures var k' := AllocProcess(k, parentPID).0;
            && k'.procs == k.procs[slot := k'.procs[slot]] && k'.current == k.current && k'.nextPID == k.nextPID + 1
            && k'.procs[slot].state == Runnable && k'.procs[slot].pid == k.nextPID
            && k'.procs[slot].parentPID == parentPID
    ensures Creation(k, parentPID) == Some(Created(slot, k.nextPID, parentPID))
  {
    slot := AllocProcess(k, parentPID).1.value;
  }

  /** A kill makes its target a zombie; of the others it can only wake a sleeper. */
  lemma KillShape(k: KernelState, i: nat)
    requires Shaped(k) && SchedulerOk(k) && i < NPROC && k.procs[i].state != Unused
    ensures var k' := Next(k, CallKill(k.procs[i].pid)).value;
            && Next(k, CallKill(k.procs[i].pid)).Some?
            && |k'.procs| == NPROC && k'.nextPID == k.nextPID
            && k'.current == (if k.current == Some(i) then None else k.current)
            && k'.procs[i].state == Zombie && k'.procs[i].parentPID == k.procs[i].parentPID
            && (forall j | 0 <= j < NPROC && j != i ::
                  k'.procs[j] == k.procs[j]
                    || (k.procs[j].state == Sleeping && k'.procs[j] == k.procs[j].(state := Runnable)))
  {
    FindPIDIsUnique(k.procs, k.nextPID, i, 0);
    ExitKeeps(k.procs, k.nextPID, i, -1);
    NextKill(k, k.procs[i].pid);
  }

  /** With one runnable process the scheduler picks it. */
  lemma DispatchShape(k: KernelState, a: nat)
    requires SchedulerOk(k) && k.current.None? && a < NPROC && k.procs[a].state == Runnable
    requires forall i | 0 <= i < NPROC && i != a :: k.procs[i].state != Runnable
    ensures Dispatch(k) == k.(procs := WithState(k.procs, a, Running), current := Some(a),
                              lastScheduledSlot := a, scheduleRequested := false)
  {
    PickFindsRunnable(k.procs, k.lastScheduledSlot);
  }

  /** The process in slot `a`, numbered `n`, whose named parent is `p`. */
  ghost predicate Sits(k: KernelState, a: nat, n: nat, p: nat) {
    SchedulerOk(k) && a < NPROC && n < k.nextPID && k.procs[a].pid == n && k.procs[a].parentPID == p
  }

  /** The slot is unused, or a zombie whose parent is numbered below `n`. */
  predicate IsDone(p: Process, n: nat) {
    p.state == Unused || (p.state == Zombie && p.parentPID < n)
  }

  // ----- first, everybody else goes -----

  /** It is ready, the others are children of older parents, and those in the first `i` slots are done. */
  ghost predicate Clearing(k: KernelState, a: nat, n: nat, p: nat, i: nat) {
    && Sits(k, a, n, p) && k.procs[a].state == Runnable && i <= NPROC
    && (forall j | 0 <= j < NPROC && j != a && k.procs[j].state != Unused :: k.procs[j].parentPID < n)
    && (forall j | 0 <= j < i && j != a :: IsDone(k.procs[j], n))
  }

  lemma ClearOne(k: KernelState, k': KernelState, a: nat, n: nat, p: nat, i: nat)
    requires Shaped(k) && Clearing(k, a, n, p, i) && i < NPROC && i != a && k.procs[i].state != Unused
    requires Next(k, CallKill(k.procs[i].pid)) == Some(k') && SchedulerOk(k')
    ensures Clearing(k', a, n, p, i + 1) && k'.nextPID == k.nextPID
    ensures Takes(Emits(k, CallKill(k.procs[i].pid))) == 0
  {
    KillShape(k, i);
  }

  /** A state got to from `k0` with room kept and the next pid unchanged, `i` slots cleared. */
  ghost predicate ClearedTo(k0: KernelState, a: nat, n: nat, p: nat, room: nat, m: nat, k: KernelState, i: nat) {
    Gets(k0, k) && Clearing(k, a, n, p, i) && HasRoom(k, room) && k.nextPID == m
  }

  lemma ClearSlot(k0: KernelState, k: KernelState, a: nat, n: nat, p: nat, room: nat, m: nat, i: nat)
    returns (k': KernelState)
    requires Safe(k0) && ClearedTo(k0, a, n, p, room, m, k, i) && i < NPROC
    ensures ClearedTo(k0, a, n, p, room, m, k', i + 1)
  {
    if i == a || IsDone(k.procs[i], n) {
      k' := k;
    } else {
      k' := ClearLiveSlot(k0, k, a, n, p, room, m, i);
    }
  }

  lemma ClearLiveSlot(k0: KernelState, k: KernelState, a: nat, n: nat, p: nat, room: nat, m: nat, i: nat)
    returns (k': KernelState)
    requires Safe(k0) && ClearedTo(k0, a, n, p, room, m, k, i) && i < NPROC && i != a && k.procs[i].state != Unused
    ensures ClearedTo(k0, a, n, p, room, m, k', i + 1)
  {
    var step := CallKill(k.procs[i].pid);
    k' := StepOn(k0, k, step);
    ClearOne(k, k', a, n, p, i);
    RoomAfter(k0, k, step, k', room, room);
  }

  lemma {:induction false} ClearOthers(k0: KernelState, k: KernelState, a: nat, n: nat, p: nat, room: nat, m: nat,
                                       i: nat)
    returns (k': KernelState)
    requires Safe(k0) && ClearedTo(k0, a, n, p, room, m, k, i) && i <= NPROC
    ensures ClearedTo(k0, a, n, p, room, m, k', NPROC)
    decreases NPROC - i
  {
    if i == NPROC {
      k' := k;
    } else {
      var k1 := ClearSlot(k0, k, a, n, p, room, m, i);
      k' := ClearOthers(k0, k1, a, n, p, room, m, i + 1);
    }
  }

  // ----- then it runs alone -----

  /** It runs, and every other slot is done. */
  ghost predicate Alone(k: KernelState, a: nat, n: nat, p: nat) {
    && Sits(k, a, n, p) && k.current == Some(a)
    && (forall j | 0 <= j < NPROC && j != a :: IsDone(k.procs[j], n))
  }

  lemma ClearedIsIdle(k: KernelState, a: nat, n: nat, p: nat)
    requires Clearing(k, a, n, p, NPROC)
    ensures k.current.None?
  {
    assert k.current.None? || k.current.value == a || IsDone(k.procs[k.current.value], n);
  }

  lemma StartAlone(k0: KernelState, k: KernelState, a: nat, n: nat, p: nat, room: nat) returns (k': KernelState)
    requires Safe(k0) && Gets(k0, k) && Clearing(k, a, n, p, NPROC) && HasRoom(k, room)
    ensures Gets(k0, k') && Alone(k', a, n, p) && HasRoom(k', room) && k'.nextPID == k.nextPID
  {
    ClearedIsIdle(k, a, n, p);
    k' := StepOn(k0, k, Schedule);
    StartedTable(k, k', a, n, p);
    RoomAfter(k0, k, Schedule, k', room, room);
  }

  lemma StartedTable(k: KernelState, k': KernelState, a: nat, n: nat, p: nat)
    requires Shaped(k) && Clearing(k, a, n, p, NPROC) && k.current.None?
    requires Next(k, Schedule) == Some(k') && SchedulerOk(k')
    ensures Alone(k', a, n, p) && k'.nextPID == k.nextPID
  {
    DispatchShape(k, a);
    NextSchedule(k);
  }

  // ----- children come and go, each spending a pid -----

  /** It runs and has one child, numbered `m`, in slot `b`; every other slot is done. */
  ghost predicate WithChild(k: KernelState, a: nat, n: nat, p: nat, b: nat, m: nat, state: ProcState) {
    && Sits(k, a, n, p) && k.current == Some(a) && b < NPROC && b != a && k.nextPID == m + 1
    && k.procs[b].pid == m && k.procs[b].parentPID == n && k.procs[b].state == state
    && (forall j | 0 <= j < NPROC && j != a && j != b :: IsDone(k.procs[j], n))
  }

  lemma ForkTable(k: KernelState, k': KernelState, a: nat, n: nat, p: nat) returns (b: nat)
    requires Shaped(k) && Alone(k, a, n, p) && AllocProcess(k, n).1.Some?
    requires Next(k, CallFork) == Some(k') && SchedulerOk(k')
    ensures WithChild(k', a, n, p, b, k.nextPID, Runnable)
    ensures Takes(Emits(k, CallFork)) == 1
  {
    NextFork(k);
    b := CreationShape(k, n);
  }

  lemma KillTable(k: KernelState, k': KernelState, a: nat, n: nat, p: nat, b: nat, m: nat)
    requires Shaped(k) && WithChild(k, a, n, p, b, m, Runnable)
    requires Next(k, CallKill(m)) == Some(k') && SchedulerOk(k')
    ensures WithChild(k', a, n, p, b, m, Zombie)
    ensures Takes(Emits(k, CallKill(m))) == 0
  {
    KillShape(k, b);
  }

  lemma ReapTable(k: KernelState, k': KernelState, a: nat, n: nat, p: nat, b: nat, m: nat)
    requires Shaped(k) && WithChild(k, a, n, p, b, m, Zombie) && n < p
    requires Next(k, CallWait) == Some(k') && SchedulerOk(k')
    ensures Alone(k', a, n, p) && k'.nextPID == m + 1
    ensures Takes(Emits(k, CallWait)) == -1
  {
    assert ChildOf(k.procs, b, n);
    NextReap(k);
  }

  /** Fork, kill, wait: nothing is left of it but a pid spent. */
  lemma SpendPID(k0: KernelState, k: KernelState, a: nat, n: nat, p: nat) returns (k': KernelState)
    requires Safe(k0) && Gets(k0, k) && Alone(k, a, n, p) && n < p && HasRoom(k, 1)
    ensures Gets(k0, k') && Alone(k', a, n, p) && HasRoom(k', 1) && k'.nextPID == k.nextPID + 1
  {
    var k1, b := ForkOne(k0, k, a, n, p);
    var k2 := KillChild(k0, k1, a, n, p, b, k.nextPID);
    k' := ReapChild(k0, k2, a, n, p, b, k.nextPID);
  }

  lemma ForkOne(k0: KernelState, k: KernelState, a: nat, n: nat, p: nat) returns (k': KernelState, b: nat)
    requires Safe(k0) && Gets(k0, k) && Alone(k, a, n, p) && HasRoom(k, 1)
    ensures Gets(k0, k') && WithChild(k', a, n, p, b, k.nextPID, Runnable) && HasRoom(k', 0)
  {
    k' := StepOn(k0, k, CallFork);
    RoomFits(k0, k, n);
    b := ForkTable(k, k', a, n, p);
    RoomAfter(k0, k, CallFork, k', 1, 0);
  }

  lemma KillChild(k0: KernelState, k: KernelState, a: nat, n: nat, p: nat, b: nat, m: nat) returns (k': KernelState)
    requires Safe(k0) && Gets(k0, k) && WithChild(k, a, n, p, b, m, Runnable) && HasRoom(k, 0)
    ensures Gets(k0, k') && WithChild(k', a, n, p, b, m, Zombie) && HasRoom(k', 0)
  {
    k' := StepOn(k0, k, CallKill(m));
    KillTable(k, k', a, n, p, b, m);
    RoomAfter(k0, k, CallKill(m), k', 0, 0);
  }

  lemma ReapChild(k0: KernelState, k: KernelState, a: nat, n: nat, p: nat, b: nat, m: nat) returns (k': KernelState)
    requires Safe(k0) && Gets(k0, k) && WithChild(k, a, n, p, b, m, Zombie) && n < p && HasRoom(k, 0)
    ensures Gets(k0, k') && Alone(k', a, n, p) && HasRoom(k', 1) && k'.nextPID == m + 1
  {
    k' := StepOn(k0, k, CallWait);
    ReapTable(k, k', a, n, p, b, m);
    RoomAfter(k0, k, CallWait, k', 0, 1);
  }

  lemma {:induction false} SpendPIDs(k0: KernelState, k: KernelState, a: nat, n: nat, p: nat) returns (k': KernelState)
    requires Safe(k0) && Gets(k0, k) && Alone(k, a, n, p) && n < p && HasRoom(k, 1) && k.nextPID <= p
    ensures Gets(k0, k') && Alone(k', a, n, p) && HasRoom(k', 1) && k'.nextPID == p
    decreases p - k.nextPID
  {
    if k.nextPID == p {
      k' := k;
    } else {
      var k1 := SpendPID(k0, k, a, n, p);
      k' := SpendPIDs(k0, k1, a, n, p);
    }
  }

  // ----- and it sleeps for good -----

  /** Waiting, with nobody but itself to wait for. */
  lemma OwnParentSleeps(k: KernelState, k': KernelState, a: nat, n: nat)
    requires Shaped(k) && Alone(k, a, n, n) && Next(k, CallWait) == Some(k') && SchedulerOk(k')
    ensures Stuck(k')
  {
    assert ChildOf(k.procs, a, n);
    NextSleep(k);
    NobodyRunnable(k', a, n, a);
  }

  lemma NobodyRunnable(k: KernelState, a: nat, n: nat, b: nat)
    requires SchedulerOk(k) && k.current.None? && a < NPROC && b < NPROC
    requires k.procs[a].state == Sleeping && k.procs[b].state == Sleeping
    requires forall j | 0 <= j < NPROC && j != a && j != b :: IsDone(k.procs[j], n)
    ensures Stuck(k)
  {
    PickFindsRunnable(k.procs, k.lastScheduledSlot);
  }

  /** It sleeps, and its child is ready. */
  ghost predicate ParentSleeps(k: KernelState, a: nat, n: nat, p: nat, b: nat, current: Option<nat>) {
    && Sits(k, a, n, p) && k.procs[a].state == Sleeping && b < NPROC && b != a && k.current == current
    && k.procs[b].pid == p && k.procs[b].parentPID == n
    && k.procs[b].state == (if current.None? then Runnable else Running)
    && (forall j | 0 <= j < NPROC && j != a && j != b :: IsDone(k.procs[j], n))
  }

  lemma ParentWaits(k: KernelState, k': KernelState, a: nat, n: nat, p: nat, b: nat)
    requires Shaped(k) && WithChild(k, a, n, p, b, p, Runnable) && n < p
    requires Next(k, CallWait) == Some(k') && SchedulerOk(k')
    ensures ParentSleeps(k', a, n, p, b, None)
  {
    assert ChildOf(k.procs, b, n);
    NextSleep(k);
  }

  lemma ChildStarts(k: KernelState, k': KernelState, a: nat, n: nat, p: nat, b: nat)
    requires Shaped(k) && ParentSleeps(k, a, n, p, b, None)
    requires Next(k, Schedule) == Some(k') && SchedulerOk(k')
    ensures ParentSleeps(k', a, n, p, b, Some(b))
  {
    DispatchShape(k, b);
    NextSchedule(k);
  }

  lemma ChildWaits(k: KernelState, k': KernelState, a: nat, n: nat, p: nat, b: nat)
    requires Shaped(k) && ParentSleeps(k, a, n, p, b, Some(b)) && n < p
    requires Next(k, CallWait) == Some(k') && SchedulerOk(k')
    ensures Stuck(k')
  {
    assert ChildOf(k.procs, a, p);
    NextSleep(k);
    NobodyRunnable(k', a, n, b);
  }

  /** At pid `p` the child is its own grandparent: both wait for each other. */
  lemma BothSleep(k0: KernelState, k: KernelState, a: nat, n: nat, p: nat) returns (k': KernelState)
    requires Safe(k0) && Gets(k0, k) && Alone(k, a, n, p) && n < p && HasRoom(k, 1) && k.nextPID == p
    ensures Gets(k0, k') && Stuck(k')
  {
    var k1, b := ForkOne(k0, k, a, n, p);
    var k2 := StepOn(k0, k1, CallWait);
    ParentWaits(k1, k2, a, n, p, b);
    k' := ChildFollows(k0, k2, a, n, p, b);
  }

  lemma ChildFollows(k0: KernelState, k: KernelState, a: nat, n: nat, p: nat, b: nat) returns (k': KernelState)
    requires Safe(k0) && Gets(k0, k) && ParentSleeps(k, a, n, p, b, None) && n < p
    ensures Gets(k0, k') && Stuck(k')
  {
    var k1 := StepOn(k0, k, Schedule);
    ChildStarts(k, k1, a, n, p, b);
    k' := StepOn(k0, k1, CallWait);
    ChildWaits(k1, k', a, n, p, b);
  }

  /** Once it runs alone, a process whose named parent is not older gets the kernel stuck. */
  lemma AloneGetsStuck(k0: KernelState, k: KernelState, a: nat, n: nat, p: nat) returns (k': KernelState)
    requires Safe(k0) && Gets(k0, k) && Alone(k, a, n, p) && n <= p && k.nextPID == n + 1 && (n < p ==> HasRoom(k, 1))
    ensures Gets(k0, k') && Stuck(k')
  {
    if n == p {
      k' := StepOn(k0, k, CallWait);
      OwnParentSleeps(k, k', a, n);
    } else {
      var k1 := SpendPIDs(k0, k, a, n, p);
      k' := BothSleep(k0, k1, a, n, p);
    }
  }

  // ----- exactly when -----

  /** Every named parent is numbered already. */
  ghost predicate ParentsNumbered(k: KernelState) {
    forall i | 0 <= i < |k.procs| && k.procs[i].state != Unused :: k.procs[i].parentPID < k.nextPID
  }

  lemma CreatedTable(k: KernelState, k': KernelState, p: nat) returns (a: nat)
    requires Shaped(k) && SchedulerOk(k) && ParentsNumbered(k) && AllocProcess(k, p).1.Some?
    requires Next(k, CreateKernel(p)) == Some(k') && SchedulerOk(k')
    ensures Clearing(k', a, k.nextPID, p, 0) && k'.nextPID == k.nextPID + 1
    ensures Takes(Emits(k, CreateKernel(p))) == 1
  {
    NextCreateKernel(k, p);
    a := CreationShape(k, p);
  }

  lemma CreateOne(k: KernelState, p: nat, room: nat) returns (k': KernelState, a: nat)
    requires SystemOk(k) && ParentsNumbered(k) && HasRoom(k, room + 1)
    ensures k' == After(k, CreateKernel(p)) && HasRoom(k', room)
    ensures Clearing(k', a, k.nextPID, p, 0) && k'.nextPID == k.nextPID + 1
  {
    k' := After(k, CreateKernel(p));
    NextKeeps(k, CreateKernel(p));
    ProcessFitsIffRoom(k, p);
    a := CreatedOne(k, k', p, room);
  }

  lemma CreatedOne(k: KernelState, k': KernelState, p: nat, room: nat) returns (a: nat)
    requires Shaped(k) && SchedulerOk(k) && ParentsNumbered(k) && AllocProcess(k, p).1.Some?
    requires Next(k, CreateKernel(p)) == Some(k') && SchedulerOk(k') && k'.heap.Ok()
    requires FrameAllocator.PoolsOk(k.heap.fr) && FrameAllocator.PoolsOk(k'.heap.fr) && HasRoom(k, room + 1)
    ensures Clearing(k', a, k.nextPID, p, 0) && k'.nextPID == k.nextPID + 1 && HasRoom(k', room)
  {
    a := CreatedTable(k, k', p);
    StepMovesRoom(k, CreateKernel(p), k', room + 1, room);
  }

  /** From a fresh process with a parent not yet numbered, the kernel gets to a stuck state. */
  lemma FreshGetsStuck(k0: KernelState, k: KernelState, a: nat, n: nat, p: nat, room: nat) returns (k': KernelState)
    requires Safe(k0) && ClearedTo(k0, a, n, p, room, n + 1, k, 0) && n <= p && (n < p ==> room == 1)
    ensures Gets(k0, k') && Stuck(k')
  {
    var k1 := ClearOthers(k0, k, a, n, p, room, n + 1, 0);
    var k2 := StartAlone(k0, k1, a, n, p, room);
    k' := AloneGetsStuck(k0, k2, a, n, p);
  }

  /** A process created for a parent not yet numbered can get the kernel stuck, whatever else is in the table, with room
      for it and, unless it is its own parent, for one child. */
  lemma LaterParentGetsStuck(k: KernelState, p: nat) returns (steps: seq<Step>)
    requires SystemOk(k) && ParentsNumbered(k) && p >= k.nextPID && HasRoom(k, if p == k.nextPID then 1 else 2)
    ensures NoCreation(steps) && Stuck(Run(After(k, CreateKernel(p)), steps))
  {
    var room := if p == k.nextPID then 0 else 1;
    var k1, a := CreateOne(k, p, room);
    OkIsSafe(k1);
    ReachesItself(Advance, Inner, k1);
    var k' := FreshGetsStuck(k1, k1, a, k.nextPID, p, room);
    steps := GetsByRun(k1, k');
  }

  /** No run whose outside creations name parents already numbered gets stuck. */
  ghost predicate NeverStuck(k: KernelState)
    requires SystemOk(k)
  {
    forall steps :: NamesOldParents(k, steps) ==> !Stuck(Run(k, steps))
  }

  lemma OldParentsAreSafe(k: KernelState)
    requires SystemOk(k) && ParentsBelow(k.procs)
    ensures NeverStuck(k)
  {
    forall steps | NamesOldParents(k, steps) ensures !Stuck(Run(k, steps)) {
      RunKeepsParentsBelow(k, steps);
      OldParentsNeverStuck(Run(k, steps));
    }
  }

  lemma StuckRunIsNotSafe(k: KernelState, steps: seq<Step>)
    requires SystemOk(k) && NoCreation(steps) && Stuck(Run(k, steps))
    ensures !NeverStuck(k)
  {
    NameNobodyNamesOldParents(k, steps);
  }

  lemma NumberedParentStaysBelow(k: KernelState, p: nat)
    requires SystemOk(k) && ParentsBelow(k.procs) && p < k.nextPID
    ensures ParentsBelow(After(k, CreateKernel(p)).procs)
  {
    InnerCreationsNameOldParents(k, CreateKernel(p));
    StepKeepsParentsBelow(k, CreateKernel(p));
  }

  /** The exact condition: where parents are older and two more processes fit, creating a process for parent `p`
      leaves the kernel free of deadlock, over every run whose own outside creations name old parents, exactly
      when `p` is numbered already. */
  lemma DeadlockFreeIffParentNumbered(k: KernelState, p: nat)
    requires SystemOk(k) && ParentsBelow(k.procs) && HasRoom(k, 2)
    ensures NeverStuck(After(k, CreateKernel(p))) <==> p < k.nextPID
  {
    var k1 := After(k, CreateKernel(p));
    if p < k.nextPID {
      NumberedParentStaysBelow(k, p);
      OldParentsAreSafe(k1);
    } else {
      var steps := LaterParentGetsStuck(k, p);
      StuckRunIsNotSafe(k1, steps);
    }
  }

  /** Such a state is the freshly booted kernel at the default base. */
  lemma BootCanDeadlock(k: KernelState, p: nat)
    requires k == BootImage(DEFAULT_BASE)
    ensures SystemOk(k) && ParentsBelow(k.procs) && HasRoom(k, 2)
    ensures NeverStuck(After(k, CreateKernel(p))) <==> p == 0
  {
    BootIsOk(DEFAULT_BASE);
    BootHasRoom(k);
    DeadlockFreeIffParentNumbered(k, p);
  }

  lemma BootHasRoom(k: KernelState)
    requires k == BootImage(DEFAULT_BASE) && FrameAllocator.PoolsOk(k.heap.fr)
    ensures InUse(k.procs) == 0 && HasRoom(k, NPROC)
  {
    FlattenNothing(k.heap.table, BlockPages);
    DefaultKernelPages(k.heap.fr);
    NoneInUse(k.procs);
  }

  lemma {:induction false} NoneInUse(procs: seq<Process>)
    requires forall i | 0 <= i < |procs| :: procs[i].state == Unused
    ensures InUse(procs) == 0
  {
    if procs != [] {
      NoneInUse(procs[1..]);
    }
  }
}
