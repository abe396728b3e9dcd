/** The history of process ids, and how long a runnable process can wait. */
module History {
  import opened Common
  import opened ProcessModel
  import opened Scheduling
  import opened Machine
  import opened Runs

  /** The states a run passes through. */
  ghost function States(k: KernelState, steps: seq<Step>): (ks: seq<KernelState>)
    requires SystemOk(k)
    ensures |ks| == |steps| + 1 && ks[0] == k
    decreases |steps|
  {
    if steps == [] then [k] else [k] + States(After(k, steps[0]), steps[1..])
  }

  /** What each step of a run shows, in order. */
  ghost function Trace(k: KernelState, steps: seq<Step>): (t: seq<Option<Event>>)
    requires SystemOk(k)
    ensures |t| == |steps|
    decreases |steps|
  {
    if steps == [] then [] else [Emits(k, steps[0])] + Trace(After(k, steps[0]), steps[1..])
  }

  ghost predicate Follows(k: KernelState, k': KernelState, e: Option<Event>) {
    SchedulerOk(k) && SchedulerOk(k') && Matches(k, k', e)
  }

  ghost predicate Behaves(ks: seq<KernelState>, t: seq<Option<Event>>) {
    && |ks| == |t| + 1
    && forall n | 0 <= n < |t| :: Follows(ks[n], ks[n + 1], t[n])
  }

  lemma StepFollows(k: KernelState, step: Step)
    requires SystemOk(k)
    ensures Follows(k, After(k, step), Emits(k, step))
  {
    StepMatchesEvent(k, step);
  }

  lemma Prepend(k: KernelState, e: Option<Event>, ks: seq<KernelState>, t: seq<Option<Event>>)
    requires Behaves(ks, t) && Follows(k, ks[0], e)
    ensures Behaves([k] + ks, [e] + t)
  {
  }

  /** Every run is a chain of steps that do what their events say. */
  lemma {:induction false} RunBehaves(k: KernelState, steps: seq<Step>)
    requires SystemOk(k)
    ensures Behaves(States(k, steps), Trace(k, steps))
    decreases |steps|
  {
    if steps != [] {
      StepFollows(k, steps[0]);
      RunBehaves(After(k, steps[0]), steps[1..]);
      Prepend(k, Emits(k, steps[0]), States(After(k, steps[0]), steps[1..]), Trace(After(k, steps[0]), steps[1..]));
    }
  }

  // ----- pids -----

  predicate IsCreation(e: Option<Event>) {
    e.Some? && e.value.Created?
  }

  predicate IsReaping(e: Option<Event>) {
    e.Some? && e.value.Reaped?
  }

  ghost predicate CreatedBefore(t: seq<Option<Event>>, i: nat, pid: nat, parentPID: nat) {
    exists j | 0 <= j < i && j < |t| :: IsCreation(t[j]) && t[j].value.pid == pid && t[j].value.parentPID == parentPID
  }

  ghost predicate DiedBefore(t: seq<Option<Event>>, i: nat, pid: nat) {
    exists j | 0 <= j < i && j < |t| :: t[j].Some? && t[j].value.Died? && t[j].value.pid == pid
  }

  /** Pids only go up and are never reused; wait hands out each pid at most once, only to its parent,
      and only after its death. */
  ghost predicate Lawful(t: seq<Option<Event>>) {
    && (forall i, j | 0 <= i < j < |t| && IsCreation(t[i]) && IsCreation(t[j]) :: t[i].value.pid < t[j].value.pid)
    && (forall i, j | 0 <= i < j < |t| && IsReaping(t[i]) && IsReaping(t[j]) :: t[i].value.pid != t[j].value.pid)
    && (forall i | 0 <= i < |t| && IsReaping(t[i]) ::
          CreatedBefore(t, i, t[i].value.pid, t[i].value.parent) && DiedBefore(t, i, t[i].value.pid))
  }

  /** How the process table remembers the past. */
  ghost predicate Remembers(k: KernelState, t: seq<Option<Event>>) {
    && (forall i | 0 <= i < |t| && IsCreation(t[i]) :: t[i].value.pid < k.nextPID)
    && (forall s | 0 <= s < |k.procs| && k.procs[s].state != Unused ::
          CreatedBefore(t, |t|, k.procs[s].pid, k.procs[s].parentPID))
    && (forall s | 0 <= s < |k.procs| && k.procs[s].state == Zombie :: DiedBefore(t, |t|, k.procs[s].pid))
    && (forall i | 0 <= i < |t| && IsReaping(t[i]) :: t[i].value.pid < k.nextPID && Absent(k.procs, t[i].value.pid))
  }

  ghost predicate Absent(procs: seq<Process>, pid: nat) {
    forall s | 0 <= s < |procs| && procs[s].state != Unused :: procs[s].pid != pid
  }

  lemma PastStays(t: seq<Option<Event>>, e: Option<Event>, i: nat, pid: nat, parentPID: nat)
    requires i <= |t|
    ensures CreatedBefore(t, i, pid, parentPID) ==>
              CreatedBefore(t + [e], i, pid, parentPID) && CreatedBefore(t + [e], |t| + 1, pid, parentPID)
    ensures DiedBefore(t, i, pid) ==> DiedBefore(t + [e], i, pid) && DiedBefore(t + [e], |t| + 1, pid)
  {
    var t' := t + [e];
    if CreatedBefore(t, i, pid, parentPID) {
      var j :| 0 <= j < i && IsCreation(t[j]) && t[j].value.pid == pid && t[j].value.parentPID == parentPID;
      assert t'[j] == t[j];
    }
    if DiedBefore(t, i, pid) {
      var j :| 0 <= j < i && t[j].Some? && t[j].value.Died? && t[j].value.pid == pid;
      assert t'[j] == t[j];
    }
  }

  lemma LawfulExtends(k: KernelState, k': KernelState, t: seq<Option<Event>>, e: Option<Event>)
    requires SchedulerOk(k) && Matches(k, k', e) && Lawful(t) && Remembers(k, t)
    ensures Lawful(t + [e])
  {
    var t' := t + [e];
    forall i | 0 <= i < |t'| && IsReaping(t'[i])
      ensures CreatedBefore(t', i, t'[i].value.pid, t'[i].value.parent) && DiedBefore(t', i, t'[i].value.pid)
    {
      PastStays(t, e, i, t'[i].value.pid, t'[i].value.parent);
    }
  }

  lemma MemoryExtends(k: KernelState, k': KernelState, t: seq<Option<Event>>, e: Option<Event>)
    requires SchedulerOk(k) && Matches(k, k', e) && Remembers(k, t)
    ensures Remembers(k', t + [e])
  {
    var t' := t + [e];
    assert t'[|t|] == e;
    forall s | 0 <= s < |k'.procs| && k'.procs[s].state != Unused
      ensures CreatedBefore(t', |t'|, k'.procs[s].pid, k'.procs[s].parentPID)
    {
      PastStays(t, e, |t|, k'.procs[s].pid, k'.procs[s].parentPID);
    }
    forall s | 0 <= s < |k'.procs| && k'.procs[s].state == Zombie ensures DiedBefore(t', |t'|, k'.procs[s].pid) {
      PastStays(t, e, |t|, k'.procs[s].pid, 0);
    }
    forall i | 0 <= i < |t'| && IsReaping(t'[i])
      ensures t'[i].value.pid < k'.nextPID && Absent(k'.procs, t'[i].value.pid)
    {
      ReapedStaysAbsent(k, k', t, e, i);
    }
  }

  lemma ReapedStaysAbsent(k: KernelState, k': KernelState, t: seq<Option<Event>>, e: Option<Event>, i: nat)
    requires SchedulerOk(k) && Matches(k, k', e) && Remembers(k, t)
    requires i < |t + [e]| && IsReaping((t + [e])[i])
    ensures (t + [e])[i].value.pid < k'.nextPID && Absent(k'.procs, (t + [e])[i].value.pid)
  {
  }

  lemma OneStepIsLawful(k: KernelState, k': KernelState, t: seq<Option<Event>>, e: Option<Event>)
    requires Follows(k, k', e) && Lawful(t) && Remembers(k, t)
    ensures Lawful(t + [e]) && Remembers(k', t + [e])
  {
    LawfulExtends(k, k', t, e);
    MemoryExtends(k, k', t, e);
  }

  lemma {:induction false} BehavioursAreLawful(ks: seq<KernelState>, past: seq<Option<Event>>, t: seq<Option<Event>>)
    requires Behaves(ks, t) && Lawful(past) && Remembers(ks[0], past)
    ensures Lawful(past + t)
    decreases |t|, 1
  {
    if t == [] {
      assert past + t == past;
    } else {
      FirstStepIsLawful(ks, past, t);
      TailBehaves(ks, t);
      RestIsLawful(ks, past, t);
    }
  }

  lemma RestIsLawful(ks: seq<KernelState>, past: seq<Option<Event>>, t: seq<Option<Event>>)
    requires t != [] && |ks| > 1 && Behaves(ks[1..], t[1..])
    requires Lawful(past + [t[0]]) && Remembers(ks[1], past + [t[0]])
    ensures Lawful(past + t)
    decreases |t|, 0
  {
    BehavioursAreLawful(ks[1..], past + [t[0]], t[1..]);
    assert past + [t[0]] + t[1..] == past + t;
  }

  lemma FirstStepIsLawful(ks: seq<KernelState>, past: seq<Option<Event>>, t: seq<Option<Event>>)
    requires Behaves(ks, t) && t != [] && Lawful(past) && Remembers(ks[0], past)
    ensures Lawful(past + [t[0]]) && Remembers(ks[1], past + [t[0]])
  {
    assert Follows(ks[0], ks[0 + 1], t[0]);
    OneStepIsLawful(ks[0], ks[1], past, t[0]);
  }

  lemma TailBehaves(ks: seq<KernelState>, t: seq<Option<Event>>)
    requires Behaves(ks, t) && t != []
    ensures Behaves(ks[1..], t[1..])
  {
    forall n | 0 <= n < |t[1..]| ensures Follows(ks[1..][n], ks[1..][n + 1], t[1..][n]) {
      assert Follows(ks[n + 1], ks[n + 1 + 1], t[n + 1]);
    }
  }

  /** Over every run from boot the history of pids is lawful. */
  lemma EveryHistoryIsLawful(base: nat, steps: seq<Step>)
    requires base % 4096 == 0
    ensures Lawful(Trace(Boot(base), steps))
  {
    RunBehaves(Boot(base), steps);
    BehaviourIsLawful(States(Boot(base), steps), Trace(Boot(base), steps));
  }

  lemma BehaviourIsLawful(ks: seq<KernelState>, t: seq<Option<Event>>)
    requires Behaves(ks, t) && forall s | 0 <= s < |ks[0].procs| :: ks[0].procs[s].state == Unused
    ensures Lawful(t)
  {
    BehavioursAreLawful(ks, [], t);
    assert [] + t == t;
  }

  // ----- what calls answer over a run -----

  /** What the step numbered `i` of a run from boot answers. */
  ghost function Answer(base: nat, steps: seq<Step>, i: nat): Option<Result>
    requires base % 4096 == 0 && i < |steps|
  {
    Reply(Reach(base, steps[..i]), steps[i])
  }

  ghost predicate WaitAnswered(base: nat, steps: seq<Step>, i: nat, pid: nat)
    requires base % 4096 == 0 && i < |steps|
  {
    steps[i].CallWait? && Answer(base, steps, i) == Some(Value(pid))
  }

  ghost predicate CreationAnswered(base: nat, steps: seq<Step>, i: nat, pid: nat)
    requires base % 4096 == 0 && i < |steps|
  {
    (steps[i].CallFork? || steps[i].CreateKernel?) && Answer(base, steps, i) == Some(Value(pid))
  }

  lemma {:induction false} TraceAt(k: KernelState, steps: seq<Step>, i: nat)
    requires SystemOk(k) && i < |steps|
    ensures Trace(k, steps)[i] == Emits(Run(k, steps[..i]), steps[i])
    decreases |steps|
  {
    if i == 0 {
      TraceStarts(k, steps);
    } else {
      TraceAt(After(k, steps[0]), steps[1..], i - 1);
      TraceGoesOn(k, steps, i);
      RunGoesOn(k, steps, i);
    }
  }

  lemma TraceStarts(k: KernelState, steps: seq<Step>)
    requires SystemOk(k) && steps != []
    ensures Trace(k, steps)[0] == Emits(Run(k, steps[..0]), steps[0])
  {
  }

  lemma TraceGoesOn(k: KernelState, steps: seq<Step>, i: nat)
    requires SystemOk(k) && 0 < i < |steps|
    ensures Trace(k, steps)[i] == Trace(After(k, steps[0]), steps[1..])[i - 1]
  {
  }

  lemma RunGoesOn(k: KernelState, steps: seq<Step>, i: nat)
    requires SystemOk(k) && 0 < i <= |steps|
    ensures Run(k, steps[..i]) == Run(After(k, steps[0]), steps[1..][..i - 1])
  {
    assert steps[..i][0] == steps[0] && steps[..i][1..] == steps[1..][..i - 1];
  }

  lemma WaitEventIsAnswer(k: KernelState, pid: nat)
    requires Shaped(k) && SchedulerOk(k) && Reply(k, CallWait) == Some(Value(pid))
    ensures var e := Emits(k, CallWait);
            IsReaping(e) && e.value.pid == pid && k.current.Some? && e.value.parent == k.procs[k.current.value].pid
  {
  }

  lemma CreationEventIsAnswer(k: KernelState, step: Step, pid: nat)
    requires Shaped(k) && SchedulerOk(k) && (step.CallFork? || step.CreateKernel?) && Reply(k, step) == Some(Value(pid))
    ensures IsCreation(Emits(k, step)) && Emits(k, step).value.pid == pid
  {
  }

  lemma WaitShows(base: nat, steps: seq<Step>, i: nat, pid: nat)
    requires base % 4096 == 0 && i < |steps| && WaitAnswered(base, steps, i, pid)
    ensures var e, k := Trace(Boot(base), steps)[i], Reach(base, steps[..i]);
            IsReaping(e) && e.value.pid == pid && k.current.Some? && e.value.parent == k.procs[k.current.value].pid
  {
    TraceAt(Boot(base), steps, i);
    WaitEventIsAnswer(Reach(base, steps[..i]), pid);
  }

  lemma CreationShows(base: nat, steps: seq<Step>, i: nat, pid: nat)
    requires base % 4096 == 0 && i < |steps| && CreationAnswered(base, steps, i, pid)
    ensures var e := Trace(Boot(base), steps)[i]; IsCreation(e) && e.value.pid == pid
  {
    TraceAt(Boot(base), steps, i);
    CreationEventIsAnswer(Reach(base, steps[..i]), steps[i], pid);
  }

  /** Over every run from boot: no pid is answered by wait twice, and fork and processCreateKernel answer ever larger
      ones. */
  lemma AnswersAreLawful(base: nat, steps: seq<Step>, i: nat, j: nat, v: nat, w: nat)
    requires base % 4096 == 0 && i < j < |steps|
    ensures WaitAnswered(base, steps, i, v) && WaitAnswered(base, steps, j, w) ==> v != w
    ensures CreationAnswered(base, steps, i, v) && CreationAnswered(base, steps, j, w) ==> v < w
  {
    EveryHistoryIsLawful(base, steps);
    if WaitAnswered(base, steps, i, v) && WaitAnswered(base, steps, j, w) {
      WaitShows(base, steps, i, v);
      WaitShows(base, steps, j, w);
    }
    if CreationAnswered(base, steps, i, v) && CreationAnswered(base, steps, j, w) {
      CreationShows(base, steps, i, v);
      CreationShows(base, steps, j, w);
    }
  }

  /** What wait answers is the pid of a process created for the caller, and dead by then. */
  lemma WaitAnswersTheDead(base: nat, steps: seq<Step>, i: nat, pid: nat)
    requires base % 4096 == 0 && i < |steps| && WaitAnswered(base, steps, i, pid)
    ensures var t, k := Trace(Boot(base), steps), Reach(base, steps[..i]);
            && k.current.Some? && CreatedBefore(t, i, pid, k.procs[k.current.value].pid) && DiedBefore(t, i, pid)
  {
    EveryHistoryIsLawful(base, steps);
    WaitShows(base, steps, i, pid);
  }

  // ----- bounded waiting -----

  predicate IsDispatch(e: Option<Event>) {
    e.Some? && e.value.Dispatched?
  }

  /** The slots dispatched, in order. */
  function Dispatches(t: seq<Option<Event>>): seq<nat> {
    if t == [] then []
    else (if IsDispatch(t[0]) then [t[0].value.slot] else []) + Dispatches(t[1..])
  }

  /** Until it is picked, the slot is runnable whenever the scheduler picks. */
  ghost predicate ReadyUntilPicked(ks: seq<KernelState>, t: seq<Option<Event>>, slot: nat)
    requires |ks| == |t| + 1
    decreases |t|
  {
    t != [] ==>
      && (IsDispatch(t[0]) ==> slot < |ks[0].procs| && ks[0].procs[slot].state == Runnable)
      && ((IsDispatch(t[0]) && t[0].value.slot == slot) || ReadyUntilPicked(ks[1..], t[1..], slot))
  }

  lemma OneDispatchNearer(k: KernelState, k': KernelState, e: Option<Event>, slot: nat)
    requires Follows(k, k', e) && slot < NPROC && (IsDispatch(e) ==> k.procs[slot].state == Runnable)
    ensures IsDispatch(e) && e.value.slot != slot ==>
              CyclicDistance(k'.lastScheduledSlot, slot) < CyclicDistance(k.lastScheduledSlot, slot)
    ensures !IsDispatch(e) ==> k'.lastScheduledSlot == k.lastScheduledSlot
  {
    if IsDispatch(e) {
      OtherPickBringsNearer(k.procs, k.lastScheduledSlot, slot);
    }
  }

  /** Where in the order of dispatches the slot comes up. */
  lemma {:induction false} DispatchedWithin(ks: seq<KernelState>, t: seq<Option<Event>>, slot: nat) returns (n: nat)
    requires Behaves(ks, t) && SchedulerOk(ks[0]) && slot < NPROC && ReadyUntilPicked(ks, t, slot)
    requires |Dispatches(t)| >= CyclicDistance(ks[0].lastScheduledSlot, slot)
    ensures n < CyclicDistance(ks[0].lastScheduledSlot, slot) && n < |Dispatches(t)| && Dispatches(t)[n] == slot
    decreases |t|
  {
    assert Follows(ks[0], ks[0 + 1], t[0]);
    OneDispatchNearer(ks[0], ks[1], t[0], slot);
    if IsDispatch(t[0]) && t[0].value.slot == slot {
      n := 0;
    } else {
      n := DispatchedWithin(ks[1..], t[1..], slot);
      n := if IsDispatch(t[0]) then n + 1 else n;
    }
  }

  /** Bounded waiting: from any state, whatever else forks, exits, sleeps or is killed in between, a slot that stays
      runnable until picked is dispatched within its cyclic distance from the last slot scheduled, at most NPROC. */
  lemma RunnableSlotIsDispatched(k: KernelState, steps: seq<Step>, slot: nat)
    requires SystemOk(k) && slot < NPROC && ReadyUntilPicked(States(k, steps), Trace(k, steps), slot)
    requires |Dispatches(Trace(k, steps))| >= CyclicDistance(k.lastScheduledSlot, slot)
    ensures slot in Dispatches(Trace(k, steps))[..CyclicDistance(k.lastScheduledSlot, slot)]
  {
    RunBehaves(k, steps);
    var n := DispatchedWithin(States(k, steps), Trace(k, steps), slot);
    assert Dispatches(Trace(k, steps))[..CyclicDistance(k.lastScheduledSlot, slot)][n] == slot;
  }
}
