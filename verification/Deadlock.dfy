/** When the scheduler runs out of work: no deadlock while every new process names an older parent. */
module Deadlock {
  import opened Common
  import opened ProcessModel
  import opened Scheduling
  import opened Machine
  import opened Runs

  // ----- parents stay older -----

  /** The run's outside creations name parents already numbered. */
  ghost predicate NamesOldParents(k: KernelState, steps: seq<Step>)
    requires SystemOk(k)
    decreases |steps|
  {
    steps != [] ==>
      (steps[0].CreateKernel? ==> steps[0].parentPID < k.nextPID) && NamesOldParents(After(k, steps[0]), steps[1..])
  }

  /** What a step creates, if anything, names a parent already numbered. */
  ghost predicate CreatesOld(k: KernelState, e: Option<Event>) {
    e.Some? && e.value.Created? ==> e.value.parentPID < k.nextPID
  }

  /** A step keeps parents below children exactly when any process it creates names a parent already numbered. */
  lemma StepKeepsParentsBelow(k: KernelState, step: Step)
    requires SystemOk(k) && ParentsBelow(k.procs)
    ensures ParentsBelow(After(k, step).procs) <==> CreatesOld(k, Emits(k, step))
  {
    StepMatchesEvent(k, step);
    MatchingKeepsParentsBelow(k, After(k, step), Emits(k, step));
  }

  lemma MatchingKeepsParentsBelow(k: KernelState, k': KernelState, e: Option<Event>)
    requires SchedulerOk(k) && Matches(k, k', e) && ParentsBelow(k.procs)
    ensures ParentsBelow(k'.procs) <==> CreatesOld(k, e)
  {
  }

  /** Forks and the bootstrap process name parents already numbered. */
  lemma InnerCreationsNameOldParents(k: KernelState, step: Step)
    requires SchedulerOk(k) && (step.CreateKernel? ==> step.parentPID < k.nextPID)
    ensures CreatesOld(k, Emits(k, step))
  {
  }

  lemma {:induction false} RunKeepsParentsBelow(k: KernelState, steps: seq<Step>)
    requires SystemOk(k) && ParentsBelow(k.procs) && NamesOldParents(k, steps)
    ensures ParentsBelow(Run(k, steps).procs)
    decreases |steps|
  {
    if steps != [] {
      InnerCreationsNameOldParents(k, steps[0]);
      StepKeepsParentsBelow(k, steps[0]);
      RunKeepsParentsBelow(After(k, steps[0]), steps[1..]);
    }
  }

  // ----- the first process stays -----

  ghost predicate IsFirst(p: Process) {
    p.state != Unused && p.pid == 1 && p.parentPID == 0
  }

  /** Either nothing was ever created, or the first process, a child of nobody, still has its slot. */
  ghost predicate FirstStays(k: KernelState) {
    || (k.nextPID == 1 && forall i | 0 <= i < |k.procs| :: k.procs[i].state == Unused)
    || exists i | 0 <= i < |k.procs| :: IsFirst(k.procs[i])
  }

  lemma EventKeepsFirst(k: KernelState, k': KernelState, e: Option<Event>)
    requires SchedulerOk(k) && Matches(k, k', e) && CreatesOld(k, e) && FirstStays(k)
    requires e.Some? && e.value.Reaped? ==> e.value.parent >= 1
    ensures FirstStays(k')
  {
    if i :| 0 <= i < |k.procs| && IsFirst(k.procs[i]) {
      assert IsFirst(k'.procs[i]);
    } else if e.Some? && e.value.Created? {
      assert IsFirst(k'.procs[e.value.slot]);
    }
  }

  /** Wait reaps children of the caller, whose pid is at least 1. */
  lemma ReapedHasParent(k: KernelState, step: Step)
    requires SchedulerOk(k)
    ensures var e := Emits(k, step); e.Some? && e.value.Reaped? ==> e.value.parent >= 1
  {
  }

  lemma {:induction false} RunKeepsFirst(k: KernelState, steps: seq<Step>)
    requires SystemOk(k) && FirstStays(k) && NamesOldParents(k, steps)
    ensures FirstStays(Run(k, steps))
    decreases |steps|
  {
    if steps != [] {
      InnerCreationsNameOldParents(k, steps[0]);
      ReapedHasParent(k, steps[0]);
      StepMatchesEvent(k, steps[0]);
      EventKeepsFirst(k, After(k, steps[0]), Emits(k, steps[0]));
      RunKeepsFirst(After(k, steps[0]), steps[1..]);
    }
  }

  // ----- no deadlock -----

  /** Nothing is left that could run or be woken. */
  ghost predicate Done(procs: seq<Process>) {
    forall i | 0 <= i < |procs| :: procs[i].state in {Unused, Zombie}
  }

  /** The two ways out of schedulerRun: the bootstrap process is missing and cannot be made, or nothing is runnable. */
  ghost predicate SchedulerStops(k: KernelState)
    requires SchedulerOk(k)
  {
    || (FindPID(k.procs, 1, 0).None? && AllocProcess(k, 0).1.None?)
    || PickNext(k.procs, k.lastScheduledSlot).None?
  }

  /** No deadlock: after any run whose outside creations name old parents, schedulerRun stops exactly
      when every slot is unused or a zombie. The first process is missing only from an empty table, so
      failing to make it strands nobody. */
  lemma NoDeadlock(base: nat, steps: seq<Step>)
    requires base % 4096 == 0
    requires NamesOldParents(Boot(base), steps)
    ensures var k := Reach(base, steps);
            && (FindPID(k.procs, 1, 0).None? ==> forall i | 0 <= i < NPROC :: k.procs[i].state == Unused)
            && (k.current.None? ==> (SchedulerStops(k) <==> Done(k.procs)))
  {
    RunKeepsParentsBelow(Boot(base), steps);
    RunKeepsFirst(Boot(base), steps);
    StopsWhenDone(Reach(base, steps));
  }

  lemma StopsWhenDone(k: KernelState)
    requires SchedulerOk(k) && ParentsBelow(k.procs) && FirstStays(k)
    ensures FindPID(k.procs, 1, 0).None? ==> forall i | 0 <= i < NPROC :: k.procs[i].state == Unused
    ensures k.current.None? ==> (SchedulerStops(k) <==> Done(k.procs))
  {
    if k.current.None? {
      SchedulerStopsOnlyWhenDone(k);
    }
  }

  // ----- being stuck -----

  /** Nothing to run, yet somebody asleep. */
  ghost predicate Stuck(k: KernelState) {
    && SchedulerOk(k) && k.current.None?
    && PickNext(k.procs, k.lastScheduledSlot).None?
    && exists slot | 0 <= slot < NPROC :: k.procs[slot].state == Sleeping
  }

  /** While parents are older, nothing is ever stuck. */
  lemma OldParentsNeverStuck(k: KernelState)
    requires SchedulerOk(k) && ParentsBelow(k.procs)
    ensures !Stuck(k)
  {
    if k.current.None? {
      SchedulerStopsOnlyWhenDone(k);
    }
  }

  /** Help from outside: a new process, or a kill that no running process asked for. */
  ghost predicate ComesFromOutside(k: KernelState, step: Step) {
    step.CreateKernel? || step.CallKill? || (step.Bootstrap? && FindPID(k.procs, 1, 0).None?)
  }

  /** The same processes in the same states. */
  ghost predicate SameStates(procs: seq<Process>, procs': seq<Process>) {
    |procs'| == |procs| && forall i | 0 <= i < |procs| ::
      procs'[i].state == procs[i].state && procs'[i].pid == procs[i].pid && procs'[i].parentPID == procs[i].parentPID
  }

  lemma StuckStep(k: KernelState, step: Step)
    requires Shaped(k) && Stuck(k) && !ComesFromOutside(k, step) && Next(k, step).Some?
    ensures var k' := Next(k, step).value; SameStates(k.procs, k'.procs) && Stuck(k')
  {
    StuckStepKeepsStates(k, step);
    NextKeepsScheduling(k, step);
    SameStatesStuck(k, Next(k, step).value);
  }

  lemma SameStatesStuck(k: KernelState, k': KernelState)
    requires Stuck(k) && SchedulerOk(k') && k'.current.None? && SameStates(k.procs, k'.procs)
    ensures Stuck(k')
  {
    SameStatesSamePick(k.procs, k.lastScheduledSlot, k'.procs, k'.lastScheduledSlot);
    var slot :| 0 <= slot < NPROC && k.procs[slot].state == Sleeping;
    assert k'.procs[slot].state == Sleeping;
  }

  lemma SameStatesSamePick(procs: seq<Process>, last: int, procs': seq<Process>, last': int)
    requires |procs| == NPROC && -1 <= last < NPROC && -1 <= last' < NPROC && SameStates(procs, procs')
    ensures PickNext(procs', last').None? <==> PickNext(procs, last).None?
  {
    PickFindsRunnable(procs, last);
    PickFindsRunnable(procs', last');
  }

  lemma StuckStepKeepsStates(k: KernelState, step: Step)
    requires Shaped(k) && Stuck(k) && !ComesFromOutside(k, step) && Next(k, step).Some?
    ensures var k' := Next(k, step).value; SameStates(k.procs, k'.procs) && k'.current.None?
  {
    if UserStep(step) {
      NextUser(k, step);
    } else if HeapStep(step) {
      NextHeap(k, step);
    } else {
      IdleStepChangesNothing(k, step);
    }
  }

  lemma IdleStepChangesNothing(k: KernelState, step: Step)
    requires Shaped(k) && k.current.None? && PickNext(k.procs, k.lastScheduledSlot).None?
    requires !ComesFromOutside(k, step) && !UserStep(step) && !HeapStep(step)
    ensures Next(k, step) == Some(k)
  {
  }

  ghost predicate NoHelp(k: KernelState, steps: seq<Step>)
    requires SystemOk(k)
    decreases |steps|
  {
    steps != [] ==> !ComesFromOutside(k, steps[0]) && NoHelp(After(k, steps[0]), steps[1..])
  }

  /** Stuck is for good: without help from outside no sequence of scheduler runs, ticks, calls, user accesses and heap
      traffic wakes anybody. */
  lemma {:induction false} StuckForGood(k: KernelState, steps: seq<Step>)
    requires SystemOk(k) && Stuck(k) && NoHelp(k, steps)
    ensures Stuck(Run(k, steps)) && SameStates(k.procs, Run(k, steps).procs)
    decreases |steps|
  {
    if steps != [] {
      if Next(k, steps[0]).Some? {
        StuckStep(k, steps[0]);
      }
      StuckForGood(After(k, steps[0]), steps[1..]);
    }
  }
}
