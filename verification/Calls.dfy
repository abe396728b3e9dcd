/** What each process call answers and does, told from the state before it. */
module Calls {
  import opened Common
  import opened ProcessModel
  import opened Scheduling
  import opened Ownership
  import opened Room
  import opened Machine

  /** No other slot changes. */
  ghost predicate SameElse(procs: seq<Process>, procs': seq<Process>, slot: int) {
    |procs'| == |procs| && forall i | 0 <= i < |procs| && i != slot :: procs'[i] == procs[i]
  }

  /** The first dead child of `parent`, numbered `pid`. */
  predicate IsDeadChild(procs: seq<Process>, slot: int, parent: nat, pid: nat) {
    && ChildOf(procs, slot, parent) && procs[slot].state == Zombie && procs[slot].pid == pid
    && forall j | 0 <= j < slot && ChildOf(procs, j, parent) :: procs[j].state != Zombie
  }

  /** Nobody else has the number. */
  ghost predicate OnlyOne(procs: seq<Process>, slot: int, pid: nat) {
    forall i | 0 <= i < |procs| && procs[i].state != Unused && procs[i].pid == pid :: i == slot
  }

  // ----- wait -----

  /** The slot is emptied, and nothing else happens to the table. */
  ghost predicate Reaps(k: KernelState, k': KernelState, slot: int) {
    && 0 <= slot < |k.procs| && SameElse(k.procs, k'.procs, slot) && k'.procs[slot].state == Unused
    && k'.current == k.current && k'.nextPID == k.nextPID
  }

  lemma WaitFindsDeadChild(k: KernelState, slot: nat)
    requires Shaped(k) && SchedulerOk(k) && k.current.Some? && Next(k, CallWait).Some?
    requires ZombieChild(k.procs, k.procs[k.current.value].pid, 0) == Some(slot)
    ensures var parent, pid := k.procs[k.current.value].pid, k.procs[slot].pid;
            && Reply(k, CallWait) == Some(Value(pid)) && IsDeadChild(k.procs, slot, parent, pid)
            && OnlyOne(k.procs, slot, pid) && Reaps(k, Next(k, CallWait).value, slot)
  {
    ZombieChildIsFirst(k.procs, k.procs[k.current.value].pid, 0);
    NextReap(k);
  }

  lemma WaitFindsLivingChild(k: KernelState)
    requires Shaped(k) && SchedulerOk(k) && k.current.Some?
    requires ZombieChild(k.procs, k.procs[k.current.value].pid, 0).None?
    requires HasChild(k.procs, k.procs[k.current.value].pid)
    ensures Reply(k, CallWait) == Some(Raise(Yielded)) && Next(k, CallWait).Some?
    ensures var k' := Next(k, CallWait).value;
            k'.procs == WithState(k.procs, k.current.value, Sleeping) && k'.current.None? && k'.nextPID == k.nextPID
  {
    NextSleep(k);
  }

  lemma WaitFindsNobody(k: KernelState)
    requires Shaped(k) && k.current.Some? && !HasChild(k.procs, k.procs[k.current.value].pid)
    ensures Reply(k, CallWait) == Some(Error) && Next(k, CallWait) == Some(k)
  {
    var child := ZombieChild(k.procs, k.procs[k.current.value].pid, 0);
    assert child.None? || ChildOf(k.procs, child.value, k.procs[k.current.value].pid);
  }

  /** wait answers the error exactly when the caller has no child, and then does nothing. It answers a pid exactly when
      a child is dead: that of the first dead child, which no other slot has and whose slot alone is emptied. Otherwise
      the caller, and only it, falls asleep. */
  lemma WaitAnswers(k: KernelState) returns (slot: nat)
    requires SystemOk(k) && k.current.Some?
    ensures var parent, k' := k.procs[k.current.value].pid, After(k, CallWait);
            match Reply(k, CallWait)
            case Some(Error) => k' == k && forall j | 0 <= j < |k.procs| :: !ChildOf(k.procs, j, parent)
            case Some(Value(pid)) =>
              IsDeadChild(k.procs, slot, parent, pid) && OnlyOne(k.procs, slot, pid) && Reaps(k, k', slot)
            case Some(Raise(Yielded)) =>
              && (exists j | 0 <= j < |k.procs| :: ChildOf(k.procs, j, parent))
              && (forall j | 0 <= j < |k.procs| && ChildOf(k.procs, j, parent) :: k.procs[j].state != Zombie)
              && k'.procs == WithState(k.procs, k.current.value, Sleeping)
              && k'.current.None? && k'.nextPID == k.nextPID
            case _ => false
  {
    var parent := k.procs[k.current.value].pid;
    NextKeeps(k, CallWait);
    var child := ZombieChild(k.procs, parent, 0);
    slot := if child.Some? then child.value else 0;
    if child.Some? {
      WaitFindsDeadChild(k, slot);
    } else if HasChild(k.procs, parent) {
      WaitFindsLivingChild(k);
    } else {
      WaitFindsNobody(k);
    }
  }

  // ----- fork and processCreateKernel -----

  /** One new process, ready, in the first slot that was unused. */
  ghost predicate Adds(k: KernelState, k': KernelState, slot: nat, pid: nat, parentPID: nat) {
    && slot < |k.procs| && SameElse(k.procs, k'.procs, slot) && k.procs[slot].state == Unused
    && (forall j | 0 <= j < slot :: k.procs[j].state != Unused)
    && k'.procs[slot].state == Runnable && k'.procs[slot].pid == pid && k'.procs[slot].parentPID == parentPID
    && !k'.procs[slot].faulted && k'.procs[slot].exitStatus == 0 && k'.procs[slot].kernelStackPages == 1
    && pid == k.nextPID && k'.nextPID == k.nextPID + 1 && k'.current == k.current
  }

  /** No process is new, gone or changed. */
  ghost predicate AddsNone(k: KernelState, k': KernelState) {
    && |k'.procs| == |k.procs| && k'.nextPID == k.nextPID && k'.current == k.current
    && forall i | 0 <= i < |k.procs| ::
         if k.procs[i].state == Unused then k'.procs[i].state == Unused else k'.procs[i] == k.procs[i]
  }

  lemma CreationShape(k: KernelState, parentPID: nat) returns (slot: nat)
    ensures var (k', answer) := Create(k, parentPID);
            if AllocProcess(k, parentPID).1.Some? then
              answer == Value(k.nextPID) && Adds(k, k', slot, k.nextPID, parentPID)
            else answer == Error && AddsNone(k, k')
  {
    UnusedSlotIsFirst(k.procs, 0);
    var made := AllocProcess(k, parentPID).1;
    slot := if made.Some? then made.value else 0;
  }

  lemma CreateAnswers(k: KernelState, parentPID: nat) returns (slot: nat)
    requires Partitioned(k) && |k.procs| == NPROC
    ensures var (k', answer) := Create(k, parentPID);
            if HasRoom(k, 1) then answer == Value(k.nextPID) && Adds(k, k', slot, k.nextPID, parentPID)
            else answer == Error && AddsNone(k, k')
  {
    ProcessFitsIffRoom(k, parentPID);
    slot := CreationShape(k, parentPID);
  }

  /** Creating a process answers its pid, a new one, exactly when there is room for it; the error
      otherwise, and then none is new. */
  lemma CreateKernelAnswers(k: KernelState, parentPID: nat) returns (slot: nat)
    requires SystemOk(k)
    ensures var k', step := After(k, CreateKernel(parentPID)), CreateKernel(parentPID);
            if HasRoom(k, 1) then
              Reply(k, step) == Some(Value(k.nextPID)) && Adds(k, k', slot, k.nextPID, parentPID)
            else Reply(k, step) == Some(Error) && AddsNone(k, k')
  {
    slot := CreateAnswers(k, parentPID);
    NextCreateKernel(k, parentPID);
  }

  /** fork answers the pid of the one new process, a child of the caller, exactly when there is room for it; the error
      otherwise, and then none is new. */
  lemma ForkAnswers(k: KernelState) returns (slot: nat)
    requires SystemOk(k) && k.current.Some?
    ensures var k' := After(k, CallFork);
            if HasRoom(k, 1) then
              && Reply(k, CallFork) == Some(Value(k.nextPID))
              && Adds(k, k', slot, k.nextPID, k.procs[k.current.value].pid)
            else Reply(k, CallFork) == Some(Error) && AddsNone(k, k')
  {
    slot := CreateAnswers(k, k.procs[k.current.value].pid);
    NextFork(k);
  }

  lemma BootstrapIs(k: KernelState)
    requires Shaped(k)
    ensures Next(k, Bootstrap) == Some(if FindPID(k.procs, 1, 0).Some? then k else Create(k, 0).0)
  {
  }

  /** The first process is made exactly when nobody has pid 1 and there is room; it is a child of nobody. */
  lemma BootstrapEffect(k: KernelState) returns (slot: nat)
    requires SystemOk(k)
    ensures var k' := After(k, Bootstrap);
            if exists i | 0 <= i < |k.procs| && k.procs[i].state != Unused :: k.procs[i].pid == 1 then k' == k
            else if HasRoom(k, 1) then Adds(k, k', slot, k.nextPID, 0)
            else AddsNone(k, k')
  {
    slot := CreateAnswers(k, 0);
    BootstrapIs(k);
    SomebodyHasPID(k.procs, 1);
  }

  lemma SomebodyHasPID(procs: seq<Process>, pid: nat)
    ensures FindPID(procs, pid, 0).Some? <==>
              exists i | 0 <= i < |procs| && procs[i].state != Unused :: procs[i].pid == pid
  {
  }

  // ----- exit, return and kill -----

  /** The process in slot `t` is dead with this status; its parent, if it slept, is ready; all others are as before. */
  ghost predicate Dies(procs: seq<Process>, procs': seq<Process>, t: nat, status: int) {
    && |procs'| == |procs| && t < |procs| && procs'[t] == procs[t].(state := Zombie, exitStatus := status)
    && forall i | 0 <= i < |procs| && i != t ::
         procs'[i] == if procs[i].state == Sleeping && procs[i].pid == procs[t].parentPID
                      then procs[i].(state := Runnable) else procs[i]
  }

  lemma ExitIsDeath(procs: seq<Process>, nextPID: nat, t: nat, status: int)
    requires PidsOk(procs, nextPID) && t < |procs| && procs[t].state != Unused
    ensures Dies(procs, Exit(procs, t, status), t, status)
  {
    var dead := procs[t := procs[t].(exitStatus := status, state := Zombie)];
    forall i | 0 <= i < |procs| && i != t && procs[i].state == Sleeping && procs[i].pid == procs[t].parentPID
      ensures FindPID(dead, procs[t].parentPID, 0) == Some(i)
    {
      FindPIDIsUnique(dead, nextPID, i, 0);
    }
  }

  /** Exiting, or returning from the entry with status 0: the caller dies, its parent wakes, and nothing runs. */
  lemma LeaveEffect(k: KernelState, step: Step)
    requires SystemOk(k) && k.current.Some? && (step.CallExit? || step.EntryReturns?)
    ensures var k' := After(k, step);
            && Dies(k.procs, k'.procs, k.current.value, if step.CallExit? then step.status else 0)
            && k'.current.None? && k'.nextPID == k.nextPID
  {
    var t := k.current.value;
    NextLeave(k, step);
    UnwindIs(k, if step.CallExit? then Exited(step.status) else Returned);
    ExitIsDeath(k.procs, k.nextPID, t, if step.CallExit? then step.status else 0);
  }

  lemma KillStrikes(k: KernelState, t: nat)
    requires Shaped(k) && SchedulerOk(k) && t < |k.procs| && k.procs[t].state != Unused
    ensures var step := CallKill(k.procs[t].pid);
            && Next(k, step).Some? && Dies(k.procs, Next(k, step).value.procs, t, -1)
            && Next(k, step).value.current == (if k.current == Some(t) then None else k.current)
            && Next(k, step).value.nextPID == k.nextPID
            && Reply(k, step) == Some(if k.current == Some(t) then Raise(Exited(-1)) else Value(0))
  {
    FindPIDIsUnique(k.procs, k.nextPID, t, 0);
    ExitIsDeath(k.procs, k.nextPID, t, -1);
    NextKill(k, k.procs[t].pid);
    if k.current == Some(t) {
      UnwindIs(k, Exited(-1));
    }
  }

  /** kill answers the error exactly when nobody has the pid; otherwise the one who has it dies with status -1, and if
      it is the caller nothing runs any more. */
  lemma KillAnswers(k: KernelState, pid: nat) returns (t: nat)
    requires SystemOk(k)
    ensures var k', answer := After(k, CallKill(pid)), Reply(k, CallKill(pid));
            if forall i | 0 <= i < |k.procs| && k.procs[i].state != Unused :: k.procs[i].pid != pid then
              answer == Some(Error) && k' == k
            else
              && t < |k.procs| && k.procs[t].state != Unused && k.procs[t].pid == pid && Dies(k.procs, k'.procs, t, -1)
              && answer == Some(if k.current == Some(t) then Raise(Exited(-1)) else Value(0))
              && k'.current == (if k.current == Some(t) then None else k.current) && k'.nextPID == k.nextPID
  {
    var target := FindPID(k.procs, pid, 0);
    if target.Some? {
      t := target.value;
      KillStrikes(k, t);
    } else {
      t := 0;
      NextKill(k, pid);
    }
  }

  // ----- yield, tick and schedule -----

  /** Yielding or a tick: the running process is ready again, a reschedule is due and nothing runs; with
      nothing running, nothing happens. */
  lemma SwitchEffect(k: KernelState, step: Step)
    requires SystemOk(k) && (step.CallYield? || step.TimerTick?)
    ensures var k' := After(k, step);
            if k.current.None? then Reply(k, step) == Some(Value(0)) && k' == k
            else
              && Reply(k, step) == Some(Raise(if step.CallYield? then Yielded else Preempted))
              && k' == k.(procs := WithState(k.procs, k.current.value, Runnable), scheduleRequested := true,
                          current := None)
  {
    NextSwitch(k, step);
    if k.current.Some? {
      UnwindIs(Switched(k), if step.CallYield? then Yielded else Preempted);
    }
  }

  /** The scheduler starts the ready process nearest after the last one it started, and the reschedule is no longer due;
      with somebody running or nobody ready, nothing happens. */
  lemma ScheduleEffect(k: KernelState) returns (r: nat)
    requires SystemOk(k)
    ensures var k' := After(k, Schedule);
            if k.current.Some? || forall i | 0 <= i < |k.procs| :: k.procs[i].state != Runnable then k' == k
            else
              && r < |k.procs| && k.procs[r].state == Runnable
              && (forall s | 0 <= s < NPROC && k.procs[s].state == Runnable ::
                    CyclicDistance(k.lastScheduledSlot, r) <= CyclicDistance(k.lastScheduledSlot, s))
              && k' == k.(procs := WithState(k.procs, r, Running), current := Some(r), lastScheduledSlot := r,
                          scheduleRequested := false)
  {
    NextSchedule(k);
    PickFindsRunnable(k.procs, k.lastScheduledSlot);
    PickFromIsNearest(k.procs, k.lastScheduledSlot, 1);
    var pick := PickNext(k.procs, k.lastScheduledSlot);
    r := if pick.Some? then pick.value else 0;
  }
}
