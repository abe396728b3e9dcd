/** What every step of the process machine keeps: identities, the one running process, sleepers and their children. */
module Scheduling {
  import opened Common
  import opened ProcessModel

  /** Pids in use are positive, below the next one, and distinct. */
  ghost predicate PidsOk(procs: seq<Process>, nextPID: nat) {
    && (forall i | 0 <= i < |procs| && procs[i].state != Unused :: 1 <= procs[i].pid < nextPID)
    && (forall i, j | 0 <= i < j < |procs| && procs[i].state != Unused && procs[j].state != Unused ::
          procs[i].pid != procs[j].pid)
  }

  /** At most one process runs, and it is the current one. */
  ghost predicate OneRuns(procs: seq<Process>, current: Option<nat>) {
    && (current.Some? ==> current.value < |procs| && procs[current.value].state == Running)
    && (forall i | 0 <= i < |procs| :: procs[i].state == Running ==> current == Some(i))
    && (forall i | 0 <= i < |procs| :: procs[i].state != Embryo)
  }

  /** A sleeper is waiting for something that can still happen: it has a child, and no child is a zombie. */
  ghost predicate SleepersWait(procs: seq<Process>) {
    forall i | 0 <= i < |procs| && procs[i].state == Sleeping :: Waits(procs, procs[i].pid)
  }

  ghost predicate Waits(procs: seq<Process>, pid: nat) {
    HasChild(procs, pid) && ZombieChild(procs, pid, 0).None?
  }

  /** Every parent id lies below its child's. */
  ghost predicate ParentsBelow(procs: seq<Process>) {
    forall i | 0 <= i < |procs| && procs[i].state != Unused :: procs[i].parentPID < procs[i].pid
  }

  ghost predicate SchedulerOk(k: KernelState) {
    && |k.procs| == NPROC && -1 <= k.lastScheduledSlot < NPROC && k.nextPID >= 1
    && PidsOk(k.procs, k.nextPID)
    && OneRuns(k.procs, k.current)
    && SleepersWait(k.procs)
  }

  // ----- primitive changes -----

  /** A change of state other than to Zombie keeps everyone's children as they are. */
  lemma StateChangeKeepsWaits(procs: seq<Process>, slot: nat, state: ProcState, pid: nat)
    requires slot < |procs| && procs[slot].state != Unused && state != Unused && state != Zombie
    requires Waits(procs, pid)
    ensures Waits(WithState(procs, slot, state), pid)
  {
    var after := WithState(procs, slot, state);
    var j :| 0 <= j < |procs| && ChildOf(procs, j, pid);
    assert ChildOf(after, j, pid);
    forall j | 0 <= j < |after| && ChildOf(after, j, pid) ensures after[j].state != Zombie {
      assert ChildOf(procs, j, pid);
    }
  }

  /** A live process may change to any state but Zombie, provided a new sleeper has something to wait for. */
  lemma StateChange(procs: seq<Process>, nextPID: nat, slot: nat, state: ProcState)
    requires slot < |procs| && procs[slot].state != Unused && state != Unused && state != Zombie
    requires PidsOk(procs, nextPID) && SleepersWait(procs)
    requires state == Sleeping ==> Waits(procs, procs[slot].pid)
    ensures PidsOk(WithState(procs, slot, state), nextPID) && SleepersWait(WithState(procs, slot, state))
  {
    var after := WithState(procs, slot, state);
    forall i | 0 <= i < |after| && after[i].state == Sleeping ensures Waits(after, after[i].pid) {
      StateChangeKeepsWaits(procs, slot, state, procs[i].pid);
    }
  }

  /** Filling an unused slot with a runnable process of the next pid. */
  lemma CreateKeeps(procs: seq<Process>, nextPID: nat, slot: nat, p: Process)
    requires slot < |procs| && procs[slot].state == Unused && nextPID >= 1
    requires p.state == Runnable && p.pid == nextPID
    requires PidsOk(procs, nextPID) && SleepersWait(procs)
    ensures PidsOk(procs[slot := p], nextPID + 1) && SleepersWait(procs[slot := p])
  {
    var after := procs[slot := p];
    forall i | 0 <= i < |after| && after[i].state == Sleeping ensures Waits(after, after[i].pid) {
      var pid := procs[i].pid;
      assert Waits(procs, pid);
      var j :| 0 <= j < |procs| && ChildOf(procs, j, pid);
      assert ChildOf(after, j, pid);
      forall j | 0 <= j < |after| && ChildOf(after, j, pid) ensures after[j].state != Zombie {
        assert j != slot ==> ChildOf(procs, j, pid);
      }
    }
  }

  /** Emptying a slot whose parent is not asleep. */
  lemma ReleaseKeeps(procs: seq<Process>, nextPID: nat, slot: nat)
    requires slot < |procs| && procs[slot].state == Zombie
    requires PidsOk(procs, nextPID) && SleepersWait(procs)
    ensures PidsOk(procs[slot := NoProcess()], nextPID) && SleepersWait(procs[slot := NoProcess()])
  {
    var after := procs[slot := NoProcess()];
    forall i | 0 <= i < |after| && after[i].state == Sleeping ensures Waits(after, after[i].pid) {
      var pid := procs[i].pid;
      assert Waits(procs, pid);
      var j :| 0 <= j < |procs| && ChildOf(procs, j, pid);
      assert procs[j].state != Zombie;
      assert ChildOf(after, j, pid);
      forall j | 0 <= j < |after| && ChildOf(after, j, pid) ensures after[j].state != Zombie {
        assert ChildOf(procs, j, pid);
      }
    }
  }

  lemma {:induction false} FindPIDIsUnique(procs: seq<Process>, nextPID: nat, slot: nat, i: nat)
    requires i <= slot < |procs| && procs[slot].state != Unused && PidsOk(procs, nextPID)
    ensures FindPID(procs, procs[slot].pid, i) == Some(slot)
    decreases slot - i
  {
    if i < slot && !(procs[i].state != Unused && procs[i].pid == procs[slot].pid) {
      FindPIDIsUnique(procs, nextPID, slot, i + 1);
    }
  }

  /** An exit turns one process into a zombie and, if its parent slept, makes the parent runnable: no wakeup is lost. */
  lemma ExitKeeps(procs: seq<Process>, nextPID: nat, slot: nat, status: int)
    requires slot < |procs| && procs[slot].state != Unused
    requires PidsOk(procs, nextPID) && SleepersWait(procs)
    ensures var after := Exit(procs, slot, status);
            && |after| == |procs| && after[slot].state == Zombie && after[slot].exitStatus == status
            && PidsOk(after, nextPID) && SleepersWait(after)
            && (forall i | 0 <= i < |procs| && i != slot ::
                  after[i] == procs[i] ||
                  (procs[i].state == Sleeping && procs[i].pid == procs[slot].parentPID &&
                   after[i] == procs[i].(state := Runnable)))
  {
    var dead := procs[slot := procs[slot].(exitStatus := status, state := Zombie)];
    var after := Exit(procs, slot, status);
    forall i | 0 <= i < |after| && after[i].state == Sleeping ensures Waits(after, after[i].pid) {
      ExitLeavesSleeper(procs, nextPID, slot, status, i);
    }
  }

  lemma ExitLeavesSleeper(procs: seq<Process>, nextPID: nat, slot: nat, status: int, i: nat)
    requires slot < |procs| && procs[slot].state != Unused
    requires PidsOk(procs, nextPID) && SleepersWait(procs)
    requires i < |procs| && Exit(procs, slot, status)[i].state == Sleeping
    ensures Waits(Exit(procs, slot, status), procs[i].pid)
  {
    var dead := procs[slot := procs[slot].(exitStatus := status, state := Zombie)];
    var after := Exit(procs, slot, status);
    var pid := procs[i].pid;
    assert procs[i].state == Sleeping && Waits(procs, pid);
    assert PidsOk(dead, nextPID);
    FindPIDIsUnique(dead, nextPID, i, 0);
    assert procs[slot].parentPID != pid;
    var j :| 0 <= j < |procs| && ChildOf(procs, j, pid);
    assert ChildOf(after, j, pid);
    forall j | 0 <= j < |after| && ChildOf(after, j, pid) ensures after[j].state != Zombie {
      assert ChildOf(procs, j, pid);
    }
  }

  // ----- the steps -----

  lemma DispatchKeeps(k: KernelState)
    requires SchedulerOk(k) && k.current.None?
    ensures SchedulerOk(Dispatch(k))
  {
    var pick := PickNext(k.procs, k.lastScheduledSlot);
    if pick.Some? {
      StateChange(k.procs, k.nextPID, pick.value, Running);
    }
  }

  /** Between a call that gives up the processor and the unwinding, the current process may
      already be marked runnable or asleep. */
  ghost predicate Switching(k: KernelState) {
    && |k.procs| == NPROC && -1 <= k.lastScheduledSlot < NPROC && k.nextPID >= 1
    && PidsOk(k.procs, k.nextPID) && SleepersWait(k.procs)
    && k.current.Some? && k.current.value < NPROC
    && k.procs[k.current.value].state in {Running, Runnable, Sleeping}
    && (forall i | 0 <= i < NPROC :: k.procs[i].state == Running ==> k.current == Some(i))
    && (forall i | 0 <= i < NPROC :: k.procs[i].state != Embryo)
  }

  /** The process is off the processor with its exit recorded; nothing runs. */
  lemma ExitWhileSwitching(k: KernelState, status: int)
    requires Switching(k)
    ensures SchedulerOk(k.(procs := Exit(k.procs, k.current.value, status), current := None))
  {
    ExitKeeps(k.procs, k.nextPID, k.current.value, status);
  }

  lemma ParkWhileSwitching(k: KernelState)
    requires Switching(k)
    ensures var slot := k.current.value;
            var procs := if k.procs[slot].state == Running then WithState(k.procs, slot, Runnable) else k.procs;
            SchedulerOk(k.(procs := procs, current := None)) && procs[slot].state != Running
  {
    var slot := k.current.value;
    if k.procs[slot].state == Running {
      StateChange(k.procs, k.nextPID, slot, Runnable);
    }
  }

  /** However control leaves an entry function, the scheduler's invariant holds again and nothing runs. */
  lemma UnwindKeeps(k: KernelState, signal: Signal)
    requires Switching(k)
    ensures SchedulerOk(Unwind(k, signal)) && Unwind(k, signal).current.None?
  {
    ParkWhileSwitching(k);
    match signal
    case Returned => ExitWhileSwitching(k, 0);
    case Yielded =>
    case Preempted =>
    case Exited(status) =>
      ExitWhileSwitching(k, status);
      ExitKeeps(k.procs, k.nextPID, k.current.value, status);
  }

  /** Finish a call: a raised signal unwinds to the scheduler; None is a kernel panic. */
  function Settle(k: KernelState, result: Result): Option<KernelState>
    requires result.Raise? ==> k.current.Some? && k.current.value < |k.procs|
  {
    match result
    case Value(_) => Some(k)
    case Error => Some(k)
    case Raise(signal) => Some(Unwind(k, signal))
    case KernelPanic => None
  }

  lemma YieldKeeps(k: KernelState)
    requires SchedulerOk(k)
    ensures var (k', r) := Yield(k);
            (r.Raise? ==> k'.current.Some? && k'.current.value < |k'.procs|)
            && Settle(k', r).Some? && SchedulerOk(Settle(k', r).value)
  {
    var (k', r) := Yield(k);
    if r.Raise? {
      StateChange(k.procs, k.nextPID, k.current.value, Runnable);
      UnwindKeeps(k', Yielded);
    }
  }

  lemma TickKeeps(k: KernelState)
    requires SchedulerOk(k)
    ensures var (k', r) := Tick(k);
            (r.Raise? ==> k'.current.Some? && k'.current.value < |k'.procs|)
            && Settle(k', r).Some? && SchedulerOk(Settle(k', r).value)
  {
    var (k', r) := Tick(k);
    if r.Raise? {
      StateChange(k.procs, k.nextPID, k.current.value, Runnable);
      UnwindKeeps(k', Preempted);
    }
  }

  lemma KillKeeps(k: KernelState, pid: nat)
    requires SchedulerOk(k)
    ensures var (k', r) := Kill(k, pid);
            (r.Raise? ==> k'.current.Some? && k'.current.value < |k'.procs|)
            && Settle(k', r).Some? && SchedulerOk(Settle(k', r).value)
  {
    var target := FindPID(k.procs, pid, 0);
    if target.Some? {
      if k.current == target {
        UnwindKeeps(k, Exited(-1));
      } else {
        OtherExitKeeps(k, target.value, -1);
      }
    }
  }

  lemma OtherExitKeeps(k: KernelState, slot: nat, status: int)
    requires SchedulerOk(k) && slot < |k.procs| && k.procs[slot].state != Unused && k.current != Some(slot)
    ensures SchedulerOk(k.(procs := Exit(k.procs, slot, status)))
  {
    ExitKeeps(k.procs, k.nextPID, slot, status);
  }

  /** Going to sleep in wait: there is a child, and none is a zombie. */
  lemma SleepKeeps(k: KernelState)
    requires SchedulerOk(k) && k.current.Some?
    requires Waits(k.procs, k.procs[k.current.value].pid)
    ensures var k' := k.(procs := WithState(k.procs, k.current.value, Sleeping));
            Switching(k') && SchedulerOk(Unwind(k', Yielded))
  {
    StateChange(k.procs, k.nextPID, k.current.value, Sleeping);
    UnwindKeeps(k.(procs := WithState(k.procs, k.current.value, Sleeping)), Yielded);
  }

  // ----- no deadlock -----

  /** With nothing running or runnable, a sleeper would need an ever younger sleeping child. */
  lemma {:induction false} NoSleepers(k: KernelState, i: nat)
    requires SchedulerOk(k) && ParentsBelow(k.procs) && k.current.None?
    requires forall j | 0 <= j < NPROC :: k.procs[j].state != Runnable
    requires i < NPROC
    ensures k.procs[i].state != Sleeping
    decreases k.nextPID - k.procs[i].pid
  {
    if k.procs[i].state == Sleeping {
      var j :| 0 <= j < NPROC && ChildOf(k.procs, j, k.procs[i].pid);
      NoSleepers(k, j);
    }
  }

  /** The scheduler loop stops exactly when every slot is unused or a zombie. */
  lemma SchedulerStopsOnlyWhenDone(k: KernelState)
    requires SchedulerOk(k) && ParentsBelow(k.procs) && k.current.None?
    ensures PickNext(k.procs, k.lastScheduledSlot).None? <==>
              forall i | 0 <= i < NPROC :: k.procs[i].state in {Unused, Zombie}
  {
    PickFindsRunnable(k.procs, k.lastScheduledSlot);
    if PickNext(k.procs, k.lastScheduledSlot).None? {
      forall i | 0 <= i < NPROC ensures k.procs[i].state in {Unused, Zombie} {
        NoSleepers(k, i);
      }
    }
  }

  /** How many slots after the last one scheduled a slot lies. */
  function CyclicDistance(last: int, slot: nat): (d: nat)
    requires -1 <= last < NPROC && slot < NPROC
    ensures 1 <= d <= NPROC && (last + d) % 16 == slot
  {
    if slot > last then slot - last else slot - last + NPROC
  }

  /** A pick is the nearest runnable slot in cyclic order, and there is one if any slot is runnable. */
  lemma {:induction false} PickFromIsNearest(procs: seq<Process>, last: int, offset: nat)
    requires |procs| == NPROC && -1 <= last < NPROC && 1 <= offset
    ensures var r := PickFrom(procs, last, offset);
            && (r.Some? ==> offset <= CyclicDistance(last, r.value))
            && forall s | 0 <= s < NPROC && procs[s].state == Runnable && offset <= CyclicDistance(last, s) ::
                 r.Some? && CyclicDistance(last, r.value) <= CyclicDistance(last, s)
    decreases NPROC + 1 - offset
  {
    if offset <= NPROC {
      SlotAtDistance(last, offset);
      PickFromIsNearest(procs, last, offset + 1);
    }
  }

  lemma SlotAtDistance(last: int, offset: nat)
    requires -1 <= last < NPROC && 1 <= offset <= NPROC
    ensures CyclicDistance(last, (last + offset) % 16) == offset
  {
  }

  lemma PickFindsRunnable(procs: seq<Process>, last: int)
    requires |procs| == NPROC && -1 <= last < NPROC
    ensures PickNext(procs, last).None? <==> forall i | 0 <= i < NPROC :: procs[i].state != Runnable
  {
    PickFromIsNearest(procs, last, 1);
  }

  /** Each pick of another slot brings a waiting runnable slot strictly nearer. */
  lemma OtherPickBringsNearer(procs: seq<Process>, last: int, slot: nat)
    requires |procs| == NPROC && -1 <= last < NPROC && slot < NPROC && procs[slot].state == Runnable
    ensures var r := PickNext(procs, last);
            r.Some? && (r.value != slot ==> CyclicDistance(r.value, slot) < CyclicDistance(last, slot))
  {
    PickFromIsNearest(procs, last, 1);
  }
}
