/** The kernel's processes and address spaces, updated in place: phase1_kernel.go and phase5_vm.go. */
module Kernel {
  import opened Common
  import opened PhysicalMemory
  import opened FrameAllocator
  import opened Loops
  import opened RuntimeHeap
  import opened VmModel
  import opened ProcessModel
  import Ownership

  /** The globals of the kernel. A `*process` is a slot of the table. */
  class Kernel {
    const heap: KernelHeap
    const procs: array<Process>
    var nextPID: nat
    var current: Option<nat>
    var lastScheduledSlot: int
    var scheduleRequested: bool

    ghost predicate Valid()
      reads this, heap, heap.frames, heap.frames.bitmap, heap.ram
    {
      && heap.Shaped() && procs.Length == NPROC
      && -1 <= lastScheduledSlot < NPROC
      && (current.Some? ==> current.value < NPROC)
    }

    ghost function View(): KernelState
      reads this, heap, heap.frames, heap.table, heap.ram, heap.ram.cells, procs
    {
      KernelState(heap.View(), procs[..], nextPID, current, lastScheduledSlot, scheduleRequested)
    }

    /** phase2Init and schedulerInit */
    constructor (base: nat)
      requires base % 4096 == 0
      ensures Valid() && View().heap.fr == BootFrames(base) && View().heap.ready
      ensures View().procs == seq(NPROC, _ => NoProcess()) && nextPID == 1 && current.None? && lastScheduledSlot == -1
    {
      heap := new KernelHeap(base);
      procs := new Process[NPROC](_ => NoProcess());
      nextPID, current, lastScheduledSlot, scheduleRequested := 1, None, -1, false;
    }

    // ----- page tables -----

    method VmFindMapping(p: nat, vaddr: nat) returns (entry: Option<nat>)
      requires Valid() && p < NPROC
      ensures entry == FindMapping(procs[p].vm.mappings, vaddr, 0)
    {
      var page := PageAlignDown(vaddr);
      var ms := procs[p].vm.mappings;
      for i := 0 to |ms|
        invariant FindMapping(ms, vaddr, i) == FindMapping(ms, vaddr, 0)
      {
        if !ms[i].present || ms[i].vaddr != page {
          continue;
        }
        return Some(i);
      }
      entry := None;
    }

    method SetMappings(p: nat, ms: seq<Mapping>)
      requires Valid() && p < NPROC
      modifies procs
      ensures Valid() && procs[..] == old(procs[..])[p := old(procs[p]).(vm := old(procs[p]).vm.(mappings := ms))]
    {
      procs[p] := procs[p].(vm := procs[p].vm.(mappings := ms));
    }

    method VmMapPage(p: nat, vaddr: nat, paddr: nat, perm: set<Permission>) returns (ok: bool)
      requires Valid() && p < NPROC
      modifies procs
      ensures Valid() && ok == MapPage(old(procs[p]).vm.mappings, vaddr, paddr, perm).Some?
      ensures procs[..] == old(procs[..])[p := if !ok then old(procs[p]) else
                old(procs[p]).(vm := old(procs[p]).vm.(
                  mappings := MapPage(old(procs[p]).vm.mappings, vaddr, paddr, perm).value))]
    {
      if vaddr % 4096 != 0 || paddr % 4096 != 0 {
        return false;
      }
      var ms := procs[p].vm.mappings;
      var entry := VmFindMapping(p, vaddr);
      if entry.Some? {
        SetMappings(p, ms[entry.value := ms[entry.value].(paddr := paddr, perm := perm, present := true)]);
        return true;
      }
      for i := 0 to |ms|
        invariant procs[..] == old(procs[..])
        invariant FreeMapping(ms, i) == FreeMapping(ms, 0)
      {
        if ms[i].present {
          continue;
        }
        SetMappings(p, ms[i := Mapping(vaddr, paddr, perm, PhysicalMemory.Kernel, true, false)]);
        return true;
      }
      ok := false;
    }

    method VmMapOwnedPage(p: nat, vaddr: nat, paddr: nat, pool: Pool, perm: set<Permission>) returns (ok: bool)
      requires Valid() && p < NPROC
      modifies procs
      ensures Valid()
      ensures var r := MapOwnedPage(old(procs[p]).vm.mappings, vaddr, paddr, pool, perm);
              ok == r.Some? &&
              (ok ==> procs[..] == old(procs[..])[p := old(procs[p]).(vm := old(procs[p]).vm.(mappings := r.value))])
      ensures MapPage(old(procs[p]).vm.mappings, vaddr, paddr, perm).None? ==> procs[..] == old(procs[..])
    {
      ok := VmMapPage(p, vaddr, paddr, perm);
      if !ok {
        return;
      }
      var entry := VmFindMapping(p, vaddr);
      if entry.None? {
        return false;
      }
      var ms := procs[p].vm.mappings;
      SetMappings(p, ms[entry.value := ms[entry.value].(owned := true, pool := pool)]);
    }

    method VmTranslate(p: nat, vaddr: nat, required: set<Permission>, requireUser: bool) returns (pa: Option<nat>)
      requires Valid() && p < NPROC
      ensures pa == Translate(procs[p].vm.mappings, vaddr, required, requireUser)
    {
      var entry := VmFindMapping(p, vaddr);
      if entry.None? {
        return None;
      }
      var m := procs[p].vm.mappings[entry.value];
      if !(required <= m.perm) {
        return None;
      }
      if requireUser && UserAccess !in m.perm {
        return None;
      }
      pa := Some(m.paddr + (vaddr - m.vaddr));
    }

    // ----- address spaces -----

    /** Giving back a page just taken never fails, so the panics that guard it are unreachable. */
    method GiveBack(address: nat, pool: Pool)
      requires Valid() && Release(heap.frames.View(), pool, address).1
      modifies heap.frames, heap.frames.bitmap
      ensures Valid() && heap.frames.View() == Release(old(heap.frames.View()), pool, address).0
    {
      var freed := heap.frames.FreePageInPool(address, pool);
      assert freed;
    }

    /** vmInitProcess */
    method VmInitProcess(p: nat) returns (ok: bool)
      requires Valid() && p < NPROC
      modifies procs, heap.frames, heap.frames.bitmap
      ensures Valid()
      ensures var (fr, vm) := InitSpaceOver(old(heap.frames.View()), old(procs[p]).vm.mappings);
              heap.frames.View() == fr && ok == vm.Some? && (ok ==> procs[p].vm == vm.value)
      ensures OnlyUserPart(old(procs[..]), procs[..], p) && procs[p].faulted == old(procs[p]).faulted
    {
      procs[p] := procs[p].(vm := procs[p].vm.(layout := FreshSpace().layout));
      heap.frames.ViewIsOk();
      var page := heap.frames.AllocPageFromPool(PhysicalMemory.Kernel);
      if page.None? {
        return false;
      }
      FreshPageIsLive(old(heap.frames.View()), PhysicalMemory.Kernel);
      ok := InstallTrap(p, page.value);
    }

    /** The mapping half of vmInitProcess. */
    method InstallTrap(p: nat, page: nat) returns (ok: bool)
      requires Valid() && p < NPROC && procs[p].vm.layout == FreshSpace().layout
      requires Release(heap.frames.View(), PhysicalMemory.Kernel, page).1
      modifies procs, heap.frames, heap.frames.bitmap
      ensures Valid()
      ensures var (fr, vm) := InstallOver(old(heap.frames.View()), old(procs[p]).vm.mappings, page);
              heap.frames.View() == fr && ok == vm.Some? && (ok ==> procs[p].vm == vm.value)
      ensures OnlyUserPart(old(procs[..]), procs[..], p) && procs[p].faulted == old(procs[p]).faulted
    {
      MapOwnedFailsWithMap(procs[p].vm.mappings, TRAP_PAGE, page, PhysicalMemory.Kernel, {Read});
      ok := VmMapOwnedPage(p, TRAP_PAGE, page, PhysicalMemory.Kernel, {Read});
      if !ok {
        GiveBack(page, PhysicalMemory.Kernel);
      }
    }

    /** vmReleaseProcess; false is the "failed to free mapped page" panic. */
    method ClearMapping(p: nat, i: nat)
      requires Valid() && p < NPROC && i < |procs[p].vm.mappings|
      modifies procs
      ensures Valid() && procs[..] == old(procs[..])[p := procs[p]]
      ensures procs[p] == old(procs[p]).(vm := procs[p].vm) && |procs[p].vm.mappings| == |old(procs[p]).vm.mappings|
      ensures procs[p].vm.mappings[i + 1..] == old(procs[p]).vm.mappings[i + 1..]
    {
      SetMappings(p, procs[p].vm.mappings[i := NO_MAPPING]);
    }

    method VmReleaseProcess(p: nat) returns (ok: bool)
      requires Valid() && p < NPROC
      modifies procs, heap.frames, heap.frames.bitmap
      ensures Valid()
      ensures var r := ReleaseMappings(old(heap.frames.View()), old(procs[p]).vm.mappings);
              && ok == r.Some? && (ok ==> heap.frames.View() == r.value)
              && (ok ==> procs[..] == old(procs[..])[p := old(procs[p]).(vm := ZeroSpace())])
    {
      ghost var fr := heap.frames.View();
      var n := |procs[p].vm.mappings|;
      for i := 0 to n
        invariant Valid()
        invariant |procs[p].vm.mappings| == n && procs[p].vm.mappings[i..] == old(procs[p]).vm.mappings[i..]
        invariant procs[..] == old(procs[..])[p := procs[p]]
        invariant procs[p] == old(procs[p]).(vm := procs[p].vm)
        invariant ReleaseMappings(heap.frames.View(), old(procs[p]).vm.mappings[i..]) ==
                  ReleaseMappings(fr, old(procs[p]).vm.mappings)
      {
        var m := procs[p].vm.mappings[i];
        assert old(procs[p]).vm.mappings[i..][0] == m && procs[p].vm.mappings[i..][0] == m;
        assert old(procs[p]).vm.mappings[i..][1..] == old(procs[p]).vm.mappings[i + 1..];
        if !m.present || !m.owned {
          assert procs[p].vm.mappings[i + 1..] == procs[p].vm.mappings[i..][1..];
          continue;
        }
        var freed := heap.frames.FreePageInPool(m.paddr, m.pool);
        if !freed {
          return false;
        }
        ClearMapping(p, i);
        assert procs[p].vm.mappings[i + 1..] == old(procs[p]).vm.mappings[i + 1..];
      }
      procs[p] := procs[p].(vm := ZeroSpace());
      ok := true;
    }

    /** vmRefreshGuard */
    method VmRefreshGuard(p: nat)
      requires Valid() && p < NPROC
      modifies procs
      ensures Valid()
      ensures procs[..] == old(procs[..])[p :=
                old(procs[p]).(vm := old(procs[p]).vm.(layout := RefreshGuard(old(procs[p]).vm.layout)))]
    {
      var vm := procs[p].vm;
      if vm.layout.stackBase == vm.layout.stackTop {
        procs[p] := procs[p].(vm := vm.(layout := vm.layout.(guardStart := NO_GUARD, guardEnd := NO_GUARD)));
        return;
      }
      var guard := if vm.layout.stackBase >= 4096 then vm.layout.stackBase - 4096 else 0;
      procs[p] := procs[p].(vm := vm.(layout := vm.layout.(guardStart := guard, guardEnd := vm.layout.stackBase)));
    }

    method SetFaulted(p: nat)
      requires Valid() && p < NPROC
      modifies procs
      ensures Valid() && procs[..] == old(procs[..])[p := old(procs[p]).(faulted := true)]
    {
      procs[p] := procs[p].(faulted := true);
    }

    /** What the user copies of slot `p` work on. */
    ghost function UserState(p: nat): UserMem
      requires p < procs.Length
      reads this, heap, heap.frames, heap.table, heap.ram, heap.ram.cells, procs
    {
      Ownership.UserView(View(), p)
    }

    method VmGrowStack(p: nat, faultVA: nat) returns (grown: bool)
      requires Valid() && p < NPROC
      modifies procs, heap.frames, heap.frames.bitmap
      ensures Valid()
      ensures (UserState(p), grown) == GrowStack(old(UserState(p)), faultVA)
      ensures OnlyUserPart(old(procs[..]), procs[..], p)
    {
      var page := PageAlignDown(faultVA);
      var layout := procs[p].vm.layout;
      if page >= layout.stackTop || page < layout.stackFloor {
        return false;
      }
      if page + 4096 != layout.stackBase {
        return false;
      }
      heap.frames.ViewIsOk();
      var phys := heap.frames.AllocPageFromPool(PhysicalMemory.User);
      if phys.None? {
        return false;
      }
      FreshPageIsLive(old(heap.frames.View()), PhysicalMemory.User);
      grown := InstallPage(p, page, phys.value);
    }

    /** The mapping half of vmGrowStack. */
    method InstallPage(p: nat, page: nat, phys: nat) returns (grown: bool)
      requires Valid() && p < NPROC && Release(heap.frames.View(), PhysicalMemory.User, phys).1
      modifies procs, heap.frames, heap.frames.bitmap
      ensures Valid()
      ensures (UserState(p), grown) == InstallStackPage(old(UserState(p)), page, phys)
      ensures OnlyUserPart(old(procs[..]), procs[..], p)
    {
      MapOwnedFailsWithMap(procs[p].vm.mappings, page, phys, PhysicalMemory.User, STACK_PERM);
      grown := VmMapOwnedPage(p, page, phys, PhysicalMemory.User, STACK_PERM);
      if !grown {
        GiveBack(phys, PhysicalMemory.User);
        return;
      }
      procs[p] := procs[p].(vm := procs[p].vm.(layout := procs[p].vm.layout.(stackBase := page)));
      VmRefreshGuard(p);
    }

    method VmHandleFault(p: nat, faultVA: nat, write: bool) returns (ok: bool)
      requires Valid() && p < NPROC
      modifies procs, heap.frames, heap.frames.bitmap
      ensures Valid()
      ensures (UserState(p), ok) == HandleFault(old(UserState(p)), faultVA, write)
      ensures OnlyUserPart(old(procs[..]), procs[..], p)
    {
      var required := if write then {Read, Write} else {Read};
      var pa := VmTranslate(p, faultVA, required, true);
      if pa.Some? {
        return true;
      }
      var layout := procs[p].vm.layout;
      if layout.guardStart != NO_GUARD && layout.guardStart <= faultVA < layout.guardEnd {
        SetFaulted(p);
        return false;
      }
      ok := VmGrowStack(p, faultVA);
      if !ok {
        SetFaulted(p);
      }
    }

    /** The translate, fault, translate-again step shared by copyin and copyout. */
    method ResolveUser(p: nat, va: nat, write: bool) returns (pa: Option<nat>)
      requires Valid() && p < NPROC
      modifies procs, heap.frames, heap.frames.bitmap
      ensures Valid()
      ensures (UserState(p), pa) == Resolve(old(UserState(p)), va, write)
      ensures OnlyUserPart(old(procs[..]), procs[..], p)
    {
      var required := if write then {Write} else {Read};
      pa := VmTranslate(p, va, required, true);
      if pa.None? {
        var handled := VmHandleFault(p, va, write);
        if !handled {
          return None;
        }
        pa := VmTranslate(p, va, required, true);
        if pa.None? {
          SetFaulted(p);
        }
      }
    }

    method LoadByte(address: nat) returns (b: byte)
      requires Valid()
      ensures b == Peek(heap.ram.View(), address)
    {
      if heap.ram.base <= address < heap.ram.base + heap.ram.cells.Length {
        b := heap.ram.Load(address);
      } else {
        b := 0;
      }
    }

    method StoreByte(address: nat, b: byte)
      requires Valid()
      modifies heap.ram.cells
      ensures Valid() && heap.ram.View() == Poke(old(heap.ram.View()), address, b)
    {
      if heap.ram.base <= address < heap.ram.base + heap.ram.cells.Length {
        heap.ram.Store(address, b);
      }
    }

    /** One turn of the copyin loop. */
    method LoadUserByte(p: nat, va: nat, ghost step: (UserMem, nat) -> (UserMem, Option<byte>))
      returns (b: Option<byte>)
      requires Valid() && p < NPROC && IsLoadOne(step)
      modifies procs, heap.frames, heap.frames.bitmap
      ensures Valid()
      ensures (UserState(p), b) == step(old(UserState(p)), va)
      ensures OnlyUserPart(old(procs[..]), procs[..], p)
    {
      var pa := ResolveUser(p, va, false);
      if pa.None? {
        return None;
      }
      var byte := LoadByte(pa.value);
      b := Some(byte);
    }

    method CopyInUser(p: nat, srcVA: nat, n: nat) returns (dst: Option<seq<byte>>)
      requires Valid() && p < NPROC
      modifies procs, heap.frames, heap.frames.bitmap
      ensures Valid()
      ensures (UserState(p), dst) == CopyIn(old(UserState(p)), srcVA, n)
      ensures OnlyUserPart(old(procs[..]), procs[..], p)
    {
      dst := DrawUser(p, srcVA, n, LoadOne);
    }

    /** The copyin loop. What one turn does is a parameter, which the loop need not look into. */
    method DrawUser(p: nat, srcVA: nat, n: nat, ghost step: (UserMem, nat) -> (UserMem, Option<byte>))
      returns (dst: Option<seq<byte>>)
      requires Valid() && p < NPROC && IsLoadOne(step)
      modifies procs, heap.frames, heap.frames.bitmap
      ensures Valid()
      ensures (UserState(p), dst) == Draw(step, old(UserState(p)), srcVA, n)
      ensures OnlyUserPart(old(procs[..]), procs[..], p)
    {
      var got: seq<byte> := [];
      ghost var whole := Draw(step, UserState(p), srcVA, n);
      DrawStarts(step, UserState(p), srcVA, n);
      for i := 0 to n
        invariant Valid() && |got| == i
        invariant Draws(step, whole, UserState(p), srcVA, n, got)
        invariant OnlyUserPart(old(procs[..]), procs[..], p)
      {
        ghost var before, was := procs[..], UserState(p);
        var b := LoadUserByte(p, srcVA + i, step);
        OnlyUserPartOn(old(procs[..]), before, procs[..], p);
        DrawTurn(step, whole, was, srcVA, n, got, UserState(p), b);
        if b.None? {
          return None;
        }
        got := got + [b.value];
      }
      DrawEnds(step, whole, UserState(p), srcVA, got);
      dst := Some(got);
    }

    /** One turn of the copyout loop. */
    method StoreUserByte(p: nat, va: nat, b: byte, ghost step: (UserMem, nat, byte) -> (UserMem, bool))
      returns (ok: bool)
      requires Valid() && p < NPROC && IsStoreOne(step)
      modifies procs, heap.frames, heap.frames.bitmap, heap.ram.cells
      ensures Valid()
      ensures (UserState(p), ok) == step(old(UserState(p)), va, b)
      ensures OnlyUserPart(old(procs[..]), procs[..], p)
    {
      var pa := ResolveUser(p, va, true);
      if pa.None? {
        return false;
      }
      StoreByte(pa.value, b);
      ok := true;
    }

    method CopyOutUser(p: nat, dstVA: nat, src: seq<byte>) returns (ok: bool)
      requires Valid() && p < NPROC
      modifies procs, heap.frames, heap.frames.bitmap, heap.ram.cells
      ensures Valid()
      ensures (UserState(p), ok) == CopyOut(old(UserState(p)), dstVA, src)
      ensures OnlyUserPart(old(procs[..]), procs[..], p)
    {
      ok := FeedUser(p, dstVA, src, StoreOne);
    }

    /** The copyout loop. What one turn does is a parameter, which the loop need not look into. */
    method FeedUser(p: nat, dstVA: nat, src: seq<byte>, ghost step: (UserMem, nat, byte) -> (UserMem, bool))
      returns (ok: bool)
      requires Valid() && p < NPROC && IsStoreOne(step)
      modifies procs, heap.frames, heap.frames.bitmap, heap.ram.cells
      ensures Valid()
      ensures (UserState(p), ok) == Feed(step, old(UserState(p)), dstVA, src)
      ensures OnlyUserPart(old(procs[..]), procs[..], p)
    {
      for i := 0 to |src|
        invariant Valid()
        invariant Feed(step, old(UserState(p)), dstVA, src) == Feed(step, UserState(p), dstVA + i, src[i..])
        invariant OnlyUserPart(old(procs[..]), procs[..], p)
      {
        ghost var before, was := procs[..], UserState(p);
        ok := StoreUserByte(p, dstVA + i, src[i], step);
        OnlyUserPartOn(old(procs[..]), before, procs[..], p);
        FeedTurn(step, was, dstVA, src, i, UserState(p), ok);
        if !ok {
          return;
        }
      }
      ok := true;
    }

    // ----- process table -----

    method FindProcByPID(pid: nat) returns (slot: Option<nat>)
      requires Valid()
      ensures slot == FindPID(procs[..], pid, 0)
    {
      for i := 0 to NPROC
        invariant FindPID(procs[..], pid, i) == FindPID(procs[..], pid, 0)
      {
        if procs[i].state == Unused || procs[i].pid != pid {
          continue;
        }
        return Some(i);
      }
      slot := None;
    }

    /** The slot loop of allocProcess. */
    method FindUnused() returns (slot: Option<nat>)
      requires Valid()
      ensures slot == UnusedSlot(procs[..], 0)
    {
      for i := 0 to NPROC
        invariant UnusedSlot(procs[..], i) == UnusedSlot(procs[..], 0)
      {
        if procs[i].state != Unused {
          continue;
        }
        return Some(i);
      }
      slot := None;
    }

    method AllocProcess(parentPID: nat) returns (slot: Option<nat>)
      requires Valid()
      modifies this`nextPID, procs, heap.frames, heap.frames.bitmap
      ensures Valid() && (View(), slot) == ProcessModel.AllocProcess(old(View()), parentPID)
    {
      var kstack := AllocStack();
      if kstack.None? {
        return None;
      }
      slot := FindUnused();
      if slot.None? {
        GiveBack(kstack.value, PhysicalMemory.Kernel);
        return;
      }
      slot := StartProcess(slot.value, parentPID, kstack.value);
    }

    method AllocStack() returns (kstack: Option<nat>)
      requires Valid()
      modifies heap.frames, heap.frames.bitmap
      ensures Valid() && (heap.frames.View(), kstack) == Allocate(old(heap.frames.View()), PhysicalMemory.Kernel, 1)
      ensures View() == old(View()).WithFrames(heap.frames.View())
      ensures kstack.Some? ==> Release(heap.frames.View(), PhysicalMemory.Kernel, kstack.value).1
    {
      heap.frames.ViewIsOk();
      kstack := heap.frames.AllocContigFromPool(PhysicalMemory.Kernel, 1);
      if kstack.Some? {
        FreshPageIsLive(old(heap.frames.View()), PhysicalMemory.Kernel);
      }
    }

    /** Fill the slot, give the process its address space, and make it runnable; or undo. */
    method StartProcess(i: nat, parentPID: nat, kstack: nat) returns (slot: Option<nat>)
      requires Valid() && i < NPROC
      requires Release(heap.frames.View(), PhysicalMemory.Kernel, kstack).1
      modifies this`nextPID, procs, heap.frames, heap.frames.bitmap
      ensures Valid() && (View(), slot) == StartIn(old(View()), i, parentPID, kstack)
    {
      ghost var start := View();
      var ok := OccupySlot(i, parentPID, kstack);
      StartInIs(start, i, parentPID, kstack, View(), procs[i], ok);
      slot := AdmitOrAbandon(i, kstack, ok);
    }

    method AdmitOrAbandon(i: nat, kstack: nat, ok: bool) returns (slot: Option<nat>)
      requires Valid() && i < NPROC && Release(heap.frames.View(), PhysicalMemory.Kernel, kstack).1
      modifies this`nextPID, procs, heap.frames, heap.frames.bitmap
      ensures Valid() && slot == if ok then Some(i) else None
      ensures View() ==
                if ok then
                  old(View()).(procs := old(procs[..])[i := old(procs[i]).(state := Runnable)],
                               nextPID := old(nextPID) + 1)
                else
                  old(View()).WithFrames(Release(old(heap.frames.View()), PhysicalMemory.Kernel, kstack).0)
                             .(procs := old(procs[..])[i := NoProcess()])
    {
      if ok {
        Admit(i);
        slot := Some(i);
      } else {
        Abandon(i, kstack);
        slot := None;
      }
    }

    method Admit(i: nat)
      requires Valid() && i < NPROC
      modifies this`nextPID, procs
      ensures Valid()
      ensures View() ==
                old(View()).(procs := old(procs[..])[i := old(procs[i]).(state := Runnable)],
                             nextPID := old(nextPID) + 1)
    {
      nextPID := nextPID + 1;
      SetState(i, Runnable);
    }

    method Abandon(i: nat, kstack: nat)
      requires Valid() && i < NPROC && Release(heap.frames.View(), PhysicalMemory.Kernel, kstack).1
      modifies procs, heap.frames, heap.frames.bitmap
      ensures Valid()
      ensures View() == old(View()).WithFrames(Release(old(heap.frames.View()), PhysicalMemory.Kernel, kstack).0)
                                   .(procs := old(procs[..])[i := NoProcess()])
    {
      GiveBack(kstack, PhysicalMemory.Kernel);
      procs[i] := NoProcess();
    }

    /** The embryo: its identity and stack, then its address space. */
    method OccupySlot(i: nat, parentPID: nat, kstack: nat) returns (ok: bool)
      requires Valid() && i < NPROC
      requires Release(heap.frames.View(), PhysicalMemory.Kernel, kstack).1
      modifies procs, heap.frames, heap.frames.bitmap
      ensures Valid() && procs[..] == old(procs[..])[i := procs[i]]
      ensures var (fr, vm) := InitSpace(old(heap.frames.View()));
              && heap.frames.View() == fr && ok == vm.Some?
              && (ok ==> procs[i] == NewProcess(nextPID, parentPID, kstack, vm.value).(state := Embryo))
      ensures Release(heap.frames.View(), PhysicalMemory.Kernel, kstack).1
    {
      heap.frames.ViewIsOk();
      StackSurvivesInit(heap.frames.View(), kstack);
      InitSpaceOverEmpty(heap.frames.View());
      procs[i] := NoProcess().(pid := nextPID, parentPID := parentPID, state := Embryo,
                               kernelStackBase := kstack, kernelStackPages := 1);
      ok := VmInitProcess(i);
      assert procs[..] == old(procs[..])[i := procs[i]];
    }

    /** ensureBootstrapProcess */
    method EnsureBootstrapProcess() returns (ok: bool)
      requires Valid()
      modifies this`nextPID, procs, heap.frames, heap.frames.bitmap
      ensures Valid()
      ensures View() ==
                if FindPID(old(procs[..]), 1, 0).Some? then old(View()) else ProcessModel.AllocProcess(old(View()), 0).0
      ensures ok <==> FindPID(old(procs[..]), 1, 0).Some? || ProcessModel.AllocProcess(old(View()), 0).1.Some?
    {
      var first := FindProcByPID(1);
      if first.Some? {
        return true;
      }
      var slot := AllocProcess(0);
      ok := slot.Some?;
    }

    /** releaseProcess; false is one of its panics. */
    method ReleaseProcess(p: nat) returns (ok: bool)
      requires Valid() && p < NPROC
      modifies procs, heap.frames, heap.frames.bitmap
      ensures Valid() && ok == ProcessModel.ReleaseProcess(old(View()), p).Some?
      ensures ok ==> View() == ProcessModel.ReleaseProcess(old(View()), p).value
    {
      ok := VmReleaseProcess(p);
      if !ok {
        return;
      }
      ok := FreeStack(procs[p].kernelStackBase, procs[p].kernelStackPages);
      if ok {
        procs[p] := NoProcess();
      }
    }

    method FreeStack(base: nat, pages: nat) returns (ok: bool)
      requires Valid()
      modifies heap.frames, heap.frames.bitmap
      ensures Valid() && (heap.frames.View(), ok) == HeapModel.ReleaseRun(old(heap.frames.View()), base, pages)
      ensures View() == old(View()).WithFrames(heap.frames.View())
    {
      ok := heap.FreeRun(base, pages);
    }

    // ----- scheduling -----

    method SetState(p: nat, state: ProcState)
      requires Valid() && p < NPROC
      modifies procs
      ensures Valid() && procs[..] == WithState(old(procs[..]), p, state)
    {
      procs[p] := procs[p].(state := state);
    }

    /** pickNextRunnable */
    method PickNextRunnable() returns (slot: Option<nat>)
      requires Valid()
      modifies this`lastScheduledSlot
      ensures Valid() && slot == PickNext(procs[..], old(lastScheduledSlot))
      ensures lastScheduledSlot == if slot.Some? then slot.value else old(lastScheduledSlot)
    {
      for offset := 1 to NPROC + 1
        invariant lastScheduledSlot == old(lastScheduledSlot)
        invariant PickFrom(procs[..], lastScheduledSlot, offset) == PickFrom(procs[..], lastScheduledSlot, 1)
      {
        var i := (lastScheduledSlot + offset) % 16;
        if procs[i].state != Runnable {
          continue;
        }
        lastScheduledSlot := i;
        return Some(i);
      }
      slot := None;
    }

    /** One turn of schedulerRun's loop, up to the call of the entry: false when nothing is runnable. */
    method ScheduleNext() returns (dispatched: bool)
      requires Valid()
      modifies this`current, this`lastScheduledSlot, this`scheduleRequested, procs
      ensures Valid() && View() == Dispatch(old(View()))
      ensures dispatched == PickNext(old(procs[..]), old(lastScheduledSlot)).Some?
    {
      var next := PickNextRunnable();
      if next.None? {
        return false;
      }
      SetState(next.value, Running);
      current, scheduleRequested := next, false;
      dispatched := true;
    }

    /** processExit */
    method ProcessExit(p: nat, status: int)
      requires Valid() && p < NPROC
      modifies procs
      ensures Valid() && procs[..] == Exit(old(procs[..]), p, status)
    {
      procs[p] := procs[p].(exitStatus := status, state := Zombie);
      if procs[p].parentPID != 0 {
        var parent := FindProcByPID(procs[p].parentPID);
        if parent.Some? && procs[parent.value].state == Sleeping {
          SetState(parent.value, Runnable);
        }
      }
    }

    /** The deferred function of switchToProcess. */
    method FinishSwitch(signal: Signal)
      requires Valid() && current.Some?
      modifies this`current, procs
      ensures Valid() && View() == Unwind(old(View()), signal)
    {
      var p := current.value;
      match signal {
        case Returned =>
        case Yielded =>
          if procs[p].state == Running {
            SetState(p, Runnable);
          }
        case Preempted =>
          if procs[p].state == Running {
            SetState(p, Runnable);
          }
        case Exited(status) => ProcessExit(p, status);
      }
      if procs[p].state == Running {
        ProcessExit(p, 0);
      }
      current := None;
    }

    // ----- system calls and ticks -----

    method ProcessCreateKernel(parentPID: nat) returns (r: Result)
      requires Valid()
      modifies this`nextPID, procs, heap.frames, heap.frames.bitmap
      ensures Valid() && (View(), r) == Create(old(View()), parentPID)
    {
      var child := AllocProcess(parentPID);
      r := if child.Some? then Value(procs[child.value].pid) else Error;
    }

    method SysFork() returns (r: Result)
      requires Valid() && current.Some?
      modifies this`nextPID, procs, heap.frames, heap.frames.bitmap
      ensures Valid() && (View(), r) == Fork(old(View()))
    {
      r := ProcessCreateKernel(procs[current.value].pid);
    }

    method SysWait() returns (r: Result)
      requires Valid() && current.Some?
      modifies procs, heap.frames, heap.frames.bitmap
      ensures Valid() && r == Wait(old(View())).1
      ensures !r.KernelPanic? ==> View() == Wait(old(View())).0
    {
      var p := current.value;
      var pid := procs[p].pid;
      var hasChildren := false;
      for i := 0 to NPROC
        invariant procs[..] == old(procs[..]) && View() == old(View()) && Valid()
        invariant ZombieChild(procs[..], pid, i) == ZombieChild(procs[..], pid, 0)
        invariant hasChildren <==> exists j | 0 <= j < i :: ChildOf(procs[..], j, pid)
      {
        assert ChildOf(procs[..], i, pid) <==> !(procs[i].state == Unused || procs[i].parentPID != pid);
        if procs[i].state == Unused || procs[i].parentPID != pid {
          continue;
        }
        hasChildren := true;
        if procs[i].state == Zombie {
          var childPID := procs[i].pid;
          var ok := ReleaseProcess(i);
          return if ok then Value(childPID) else KernelPanic;
        }
      }
      if !hasChildren {
        return Error;
      }
      SetState(p, Sleeping);
      r := Raise(Yielded);
    }

    method SchedulerYield() returns (r: Result)
      requires Valid()
      modifies this`scheduleRequested, procs
      ensures Valid() && (View(), r) == Yield(old(View()))
    {
      if current.None? {
        return Value(0);
      }
      if procs[current.value].state == Running {
        SetState(current.value, Runnable);
      }
      scheduleRequested := true;
      r := Raise(Yielded);
    }

    method SysKill(pid: nat) returns (r: Result)
      requires Valid()
      modifies procs
      ensures Valid() && (View(), r) == Kill(old(View()), pid)
    {
      var target := FindProcByPID(pid);
      if target.None? {
        return Error;
      }
      if target == current {
        return Raise(Exited(-1));
      }
      ProcessExit(target.value, -1);
      r := Value(0);
    }

    /** schedulerOnTick and the preemption test of timerInterrupt. */
    method TimerInterrupt() returns (r: Result)
      requires Valid()
      modifies this`scheduleRequested, procs
      ensures Valid() && (View(), r) == Tick(old(View()))
    {
      if current.Some? && procs[current.value].state == Running {
        SetState(current.value, Runnable);
        scheduleRequested := true;
      }
      r := if scheduleRequested && current.Some? then Raise(Preempted) else Value(0);
    }
  }

  /** Of the whole table only the address space and fault mark of slot `p` may have changed. */
  ghost predicate OnlyUserPart(before: seq<Process>, after: seq<Process>, p: nat) {
    && p < |before| == |after|
    && after == before[p := before[p].(vm := after[p].vm, faulted := after[p].faulted)]
  }

  /** The step loads one byte, as LoadOne says, wherever the address has been resolved. */
  ghost predicate IsLoadOne(step: (UserMem, nat) -> (UserMem, Option<byte>)) {
    forall u, va {:trigger Resolve(u, va, false)} :: step(u, va) == LoadOne(u, va)
  }

  /** The step stores one byte, as StoreOne says, wherever the address has been resolved. */
  ghost predicate IsStoreOne(step: (UserMem, nat, byte) -> (UserMem, bool)) {
    forall u, va {:trigger Resolve(u, va, true)} :: forall b :: step(u, va, b) == StoreOne(u, va, b)
  }

  lemma OnlyUserPartOn(a: seq<Process>, b: seq<Process>, c: seq<Process>, p: nat)
    requires OnlyUserPart(a, b, p) && OnlyUserPart(b, c, p)
    ensures OnlyUserPart(a, c, p)
  {
  }

  /** What starting a process comes to once its slot has been occupied. */
  lemma StartInIs(k: KernelState, i: nat, parentPID: nat, kstack: nat, k1: KernelState, embryo: Process, ok: bool)
    requires i < |k.procs| && k1 == k.WithFrames(InitSpace(k.heap.fr).0).(procs := k.procs[i := embryo])
    requires ok == InitSpace(k.heap.fr).1.Some?
    requires ok ==> embryo == NewProcess(k.nextPID, parentPID, kstack, InitSpace(k.heap.fr).1.value).(state := Embryo)
    ensures StartIn(k, i, parentPID, kstack) ==
              if ok then (k1.(procs := k1.procs[i := embryo.(state := Runnable)], nextPID := k1.nextPID + 1), Some(i))
              else
                var k2 := k1.WithFrames(Release(k1.heap.fr, PhysicalMemory.Kernel, kstack).0);
                (k2.(procs := k1.procs[i := NoProcess()]), None)
  {
    UpdateTwice(k.procs, i, embryo, embryo.(state := Runnable));
    UpdateTwice(k.procs, i, embryo, NoProcess());
  }

  /** Taking or failing to take a trap page leaves an earlier page still out. */
  lemma StackSurvivesInit(fr: Frames, kstack: nat)
    requires fr.Ok() && Release(fr, PhysicalMemory.Kernel, kstack).1
    ensures Release(InitSpace(fr).0, PhysicalMemory.Kernel, kstack).1
  {
    Ownership.InitSpaceTakesOnePage(fr);
    ReleaseReturnsOnePage(fr, PhysicalMemory.Kernel, kstack);
    ReleaseReturnsOnePage(InitSpace(fr).0, PhysicalMemory.Kernel, kstack);
    assert kstack in multiset(InitSpace(fr).0.Live(PhysicalMemory.Kernel));
  }
}
