/** The tracked runtime heap of phase2_memory.go, updated in place. */
module RuntimeHeap {
  import opened Common
  import opened PhysicalMemory
  import opened FrameAllocator
  import opened Ram
  import opened HeapModel

  class KernelHeap {
    const frames: Allocator
    const table: array<HeapBlock>
    const ram: Bytes
    /** mem_init_complete */
    var ready: bool

    ghost predicate Shaped()
      reads this, frames, frames.bitmap, ram
    {
      && frames.Valid()
      && table.Length == MAX_HEAP_BLOCKS
      && ram.base == frames.base && ram.cells.Length == PHYSICAL_MEMORY_SIZE
    }

    ghost predicate Valid()
      reads this, frames, frames.bitmap, table, ram, ram.cells
    {
      Shaped() && View().Ok()
    }

    ghost function View(): Heap
      reads this, frames, table, ram, ram.cells
    {
      Heap(ready, frames.View(), table[..], ram.View())
    }

    constructor (base: nat)
      requires base % 4096 == 0
      ensures Valid() && fresh(frames) && fresh(frames.bitmap) && fresh(table) && fresh(ram) && fresh(ram.cells)
      ensures View().ready && View().fr == BootFrames(base)
      ensures forall i | 0 <= i < MAX_HEAP_BLOCKS :: View().table[i] == NO_BLOCK
    {
      frames := new Allocator(base);
      table := new HeapBlock[MAX_HEAP_BLOCKS](_ => NO_BLOCK);
      ram := new Bytes(base);
      ready := true;
      new;
      BootState(base);
    }

    /** runtimeHeapTrackAlloc */
    method Track(address: nat, pageCount: nat) returns (ok: bool)
      requires table.Length == MAX_HEAP_BLOCKS
      modifies table
      ensures var e := FreeEntry(old(table[..]), 0);
              && ok == e.Some?
              && table[..] ==
                 if ok then old(table[..])[e.value := HeapBlock(address, pageCount, true)] else old(table[..])
    {
      for i := 0 to table.Length
        invariant table[..] == old(table[..])
        invariant FreeEntry(table[..], i) == FreeEntry(table[..], 0)
      {
        if table[i].inUse {
          continue;
        }
        table[i] := HeapBlock(address, pageCount, true);
        return true;
      }
      ok := false;
    }

    /** runtimeHeapUntrackAlloc */
    method Untrack(address: nat) returns (pageCount: Option<nat>)
      requires table.Length == MAX_HEAP_BLOCKS
      modifies table
      ensures var e := FindBlock(old(table[..]), address, 0);
              && pageCount == (if e.Some? then Some(old(table[..])[e.value].pages) else None)
              && table[..] == if e.Some? then old(table[..])[e.value := NO_BLOCK] else old(table[..])
    {
      for i := 0 to table.Length
        invariant table[..] == old(table[..])
        invariant FindBlock(table[..], address, i) == FindBlock(table[..], address, 0)
      {
        if !table[i].inUse || table[i].base != address {
          continue;
        }
        pageCount := Some(table[i].pages);
        table[i] := NO_BLOCK;
        return;
      }
      pageCount := None;
    }

    /** runtimeHeapAllocBytes */
    method AllocBytes(address: nat) returns (bytes: Option<nat>)
      requires table.Length == MAX_HEAP_BLOCKS
      ensures bytes == HeapBytes(table[..], address)
    {
      for i := 0 to table.Length
        invariant FindBlock(table[..], address, i) == FindBlock(table[..], address, 0)
      {
        if !table[i].inUse || table[i].base != address {
          continue;
        }
        return Some(table[i].pages * 4096);
      }
      bytes := None;
    }

    /** The give-back loop of runtimeHeapAlloc. */
    method UndoRun(address: nat, pageCount: nat)
      requires frames.Valid()
      modifies frames, frames.bitmap
      ensures frames.Valid() && frames.View() == RollBack(old(frames.View()), address, pageCount)
    {
      for i := 0 to pageCount
        invariant frames.Valid() && frames.View() == RollBack(old(frames.View()), address, i)
      {
        ghost var was := frames.View();
        var _ := frames.FreePageInPool(address + i * 4096, Kernel);
        RollBackOne(old(frames.View()), address, i, was);
      }
    }

    /** The loop of runtimeHeapFree. */
    method FreeRun(address: nat, pageCount: nat) returns (ok: bool)
      requires frames.Valid()
      modifies frames, frames.bitmap
      ensures frames.Valid() && (frames.View(), ok) == ReleaseRun(old(frames.View()), address, pageCount)
    {
      ghost var start := frames.View();
      for i := 0 to pageCount
        invariant frames.Valid() && ReleaseRun(start, address, i) == (frames.View(), true)
      {
        var freed := frames.FreePageInPool(address + i * 4096, Kernel);
        assert ReleaseRun(start, address, i + 1) == (frames.View(), freed);
        if !freed {
          StoppedRun(start, address, i + 1, pageCount);
          return false;
        }
      }
      ok := true;
    }

    method Alloc(size: nat) returns (address: Option<nat>)
      requires Valid()
      modifies frames, frames.bitmap, table
      ensures Shaped() && (View(), address) == HeapAlloc(old(View()), size)
    {
      if !ready || size == 0 {
        return None;
      }
      var pageCount := AlignUp(size) / 4096;
      address := frames.AllocContigFromPool(Kernel, pageCount);
      if address.None? {
        return;
      }
      var tracked := Track(address.value, pageCount);
      if !tracked {
        UndoRun(address.value, pageCount);
        return None;
      }
    }

    method Free(address: nat) returns (ok: bool)
      requires Shaped()
      modifies frames, frames.bitmap, table
      ensures Shaped() && (View(), ok) == HeapFree(old(View()), address)
    {
      if !ready {
        return false;
      }
      var pageCount := Untrack(address);
      if pageCount.None? {
        return false;
      }
      ok := FreeRun(address, pageCount.value);
    }

    method TinygoAlloc(size: nat) returns (out: Outcome)
      requires Valid()
      modifies frames, frames.bitmap, table, ram.cells
      ensures Shaped() && (View(), out) == RuntimeAlloc(old(View()), size)
    {
      if size == 0 {
        return Pointer(0);
      }
      AllocatedBlockFits(View(), size);
      var address := Alloc(size);
      if address.None? {
        return Panicked;
      }
      ram.ClearMemory(address.value, AlignUp(size));
      out := Pointer(address.value);
    }

    method TinygoRealloc(address: nat, size: nat) returns (out: Outcome)
      requires Valid()
      modifies frames, frames.bitmap, table, ram.cells
      ensures Shaped() && (View(), out) == RuntimeRealloc(old(View()), address, size)
    {
      if size == 0 {
        if address != 0 {
          var _ := Free(address);
        }
        return Pointer(0);
      }
      if address == 0 {
        out := TinygoAlloc(size);
        return;
      }
      var oldBytes := AllocBytes(address);
      if oldBytes.None? {
        return Panicked;
      }
      AllocatedBlockFits(View(), size);
      out := TinygoAlloc(size);
      if out.Panicked? {
        return;
      }
      ram.CopyMemory(out.address, address, Min(oldBytes.value, size));
      var freed := Free(address);
      if !freed {
        out := Panicked;
      }
    }
  }

  /** One more page given back. */
  lemma RollBackOne(fr: Frames, address: nat, i: nat, was: Frames)
    requires was == RollBack(fr, address, i)
    ensures RollBack(fr, address, i + 1) == Release(was, Kernel, address + i * 4096).0
  {
  }

  /** Once a page is refused the rest of the run is not tried. */
  lemma {:induction false} StoppedRun(fr: Frames, address: nat, stop: nat, count: nat)
    requires stop <= count && !ReleaseRun(fr, address, stop).1
    ensures ReleaseRun(fr, address, count) == ReleaseRun(fr, address, stop)
  {
    if stop < count {
      StoppedRun(fr, address, stop, count - 1);
    }
  }
}
