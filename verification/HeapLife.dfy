/** The life of a heap block: what alloc gives, what free takes, and what holds of the block in between. */
module HeapLife {
  import opened Common
  import opened PhysicalMemory
  import opened Ram
  import opened HeapModel
  import opened VmModel
  import opened VmProofs
  import opened ProcessModel
  import opened Ownership
  import opened Machine
  import opened Isolation
  import opened DeadlockRun

  // ----- one hook -----

  /** tinygoRuntimeAlloc: nothing for size 0; a panic exactly when no run is free, and then nothing has
      happened; otherwise a block of whole pages, none of them out before, in a free entry of the table. It is
      zero, and no other byte changes. */
  lemma AllocGives(h: Heap, others: multiset<int>, size: nat)
    requires h.Ok() && Owns(h, others)
    ensures var (h', out) := RuntimeAlloc(h, size);
            if size == 0 then h' == h && out == Pointer(0)
            else if NoRunFree(h, size) then h' == h && out.Panicked?
            else
              && out.Pointer? && NewBlock(h, h', out.address, size)
              && Pages(out.address, PageCount(size)) !! h.fr.Live(Kernel) + h.fr.Live(User)
              && forall x | h.ram.Has(x) ::
                   && h'.ram.Has(x)
                   && h'.ram.Load(x) == if out.address <= x < out.address + AlignUp(size) then 0 else h.ram.Load(x)
  {
    if size > 0 {
      HeapAllocKeepsOwnership(h, others, size);
      HeapTableNeverFills(h, others);
      FreeEntryIsFirst(h.table, 0);
      AllocatedBlockFits(h, size);
      PageCountCovers(size);
    }
  }

  /** The first entry that was free holds the block, a whole number of pages that covers the size. */
  ghost predicate NewBlock(h: Heap, h': Heap, address: nat, size: nat) {
    exists e | 0 <= e < |h.table| ::
      && !h.table[e].inUse && (forall k | 0 <= k < e :: h.table[k].inUse)
      && h'.table == h.table[e := HeapBlock(address, PageCount(size), true)]
      && PageCount(size) * 4096 == AlignUp(size)
  }

  /** runtimeHeapFree of the block in entry `i`: that entry alone is emptied, exactly its pages go back, and the
      address is nobody's any more. */
  lemma FreeTakes(h: Heap, others: multiset<int>, i: nat)
    requires h.Ok() && Owns(h, others) && h.ready && i < |h.table| && h.table[i].inUse
    ensures var b := h.table[i]; var (h', ok) := HeapFree(h, b.base);
            && ok && h'.table == h.table[i := NO_BLOCK] && h'.ram == h.ram && h'.ready
            && h'.fr.Live(Kernel) == h.fr.Live(Kernel) - Pages(b.base, b.pages) && h'.fr.Live(User) == h.fr.Live(User)
            && forall j | 0 <= j < |h'.table| && h'.table[j].inUse :: h'.table[j].base != b.base
  {
    var b := h.table[i];
    TrackedOnce(h, others, i);
    BlockIsLive(h, others, i);
    ReleaseRunReturnsPages(h.fr, b.base, b.pages);
    var h' := HeapFree(h, b.base).0;
    forall j: nat | j < |h'.table| && h'.table[j].inUse ensures h'.table[j].base != b.base {
      if h.table[j].base == b.base {
        TrackedOnce(h, others, j);
      }
    }
  }

  /** The cases of tinygoRuntimeRealloc that move no block: size 0 frees the block, if it is one, and answers nil;
      address 0 allocates; an address that is no block's panics, and nothing has happened. */
  lemma ReallocWithoutMove(h: Heap, others: multiset<int>, address: nat, size: nat)
    requires h.Ok() && Owns(h, others)
    ensures var (h', out) := RuntimeRealloc(h, address, size);
            && (size == 0 ==> out == Pointer(0))
            && (size == 0 && address == 0 ==> h' == h)
            && (size == 0 && address != 0 ==>
                  if forall i | 0 <= i < |h.table| && h.table[i].inUse :: h.table[i].base != address then h' == h
                  else h' == HeapFree(h, address).0)
            && (size > 0 && address == 0 ==> (h', out) == RuntimeAlloc(h, size))
            && (size > 0 && address != 0
                && (forall i | 0 <= i < |h.table| && h.table[i].inUse :: h.table[i].base != address) ==>
                  h' == h && out.Panicked?)
  {
    HeapBytesAreThePages(h, others, address);
  }

  // ----- between the hooks -----

  ghost predicate TrackedAt(table: seq<HeapBlock>, i: nat, address: nat, pages: nat) {
    i < |table| && table[i] == HeapBlock(address, pages, true)
  }

  /** The step asks for this block to be freed or moved. */
  predicate GivesUp(step: Step, address: nat) {
    (step.HeapFrees? && step.address == address) || (step.HeapReallocs? && step.address == address)
  }

  ghost predicate SameBytes(m: Memory, m': Memory, address: int, size: nat) {
    forall x | address <= x < address + size && m.Has(x) :: m'.Has(x) && m'.Load(x) == m.Load(x)
  }

  lemma AllocMissesBlock(h: Heap, others: multiset<int>, i: nat, address: nat, pages: nat, size: nat)
    requires h.Ok() && Owns(h, others) && TrackedAt(h.table, i, address, pages)
    ensures var (h', out) := RuntimeAlloc(h, size);
            TrackedAt(h'.table, i, address, pages) && SameBytes(h.ram, h'.ram, address, pages * 4096)
  {
    AllocGives(h, others, size);
    var (h', out) := RuntimeAlloc(h, size);
    if size > 0 && out.Pointer? {
      forall x | address <= x < address + pages * 4096 && h.ram.Has(x)
        ensures h'.ram.Has(x) && h'.ram.Load(x) == h.ram.Load(x)
      {
        NewBlockMissesOld(h, others, i, size, out.address, x);
      }
    }
  }

  lemma FreeMissesBlock(h: Heap, others: multiset<int>, i: nat, address: nat, pages: nat, freed: nat)
    requires h.Ok() && Owns(h, others) && TrackedAt(h.table, i, address, pages) && freed != address
    ensures var (h', ok) := HeapFree(h, freed);
            TrackedAt(h'.table, i, address, pages) && SameBytes(h.ram, h'.ram, address, pages * 4096)
  {
    HeapFreeKeepsOwnership(h, others, freed);
  }

  lemma ReallocMissesBlock(h: Heap, others: multiset<int>, i: nat, address: nat, pages: nat, moved: nat, size: nat)
    requires h.Ok() && Owns(h, others) && TrackedAt(h.table, i, address, pages) && moved != address
    ensures var (h', out) := RuntimeRealloc(h, moved, size);
            TrackedAt(h'.table, i, address, pages) && SameBytes(h.ram, h'.ram, address, pages * 4096)
  {
    var j := FindBlock(h.table, moved, 0);
    if size > 0 && moved != 0 && j.Some? {
      MoveMissesBlock(h, others, i, address, pages, j.value, size);
    } else if size > 0 && moved == 0 {
      AllocMissesBlock(h, others, i, address, pages, size);
    } else if size == 0 {
      FreeMissesBlock(h, others, i, address, pages, moved);
    }
  }

  lemma MoveMissesBlock(h: Heap, others: multiset<int>, i: nat, address: nat, pages: nat, j: nat, size: nat)
    requires h.Ok() && Owns(h, others) && TrackedAt(h.table, i, address, pages)
    requires j < |h.table| && h.table[j].inUse && h.table[j].base !in {0, address} && size > 0
    ensures var (h', out) := RuntimeRealloc(h, h.table[j].base, size);
            TrackedAt(h'.table, i, address, pages) && SameBytes(h.ram, h'.ram, address, pages * 4096)
  {
    var moved := h.table[j].base;
    TrackedOnce(h, others, j);
    ReallocMovesBlock(h, others, moved, size);
    var (h', out) := RuntimeRealloc(h, moved, size);
    if out.Pointer? {
      var to, kept := MovedBlock(h, others, moved, size, j);
      forall x | address <= x < address + pages * 4096 && h.ram.Has(x)
        ensures h'.ram.Has(x) && h'.ram.Load(x) == h.ram.Load(x)
      {
        NewBlockMissesOld(h, others, i, size, to, x);
        ReallocKeepsContents(h, others, moved, size, j, x);
      }
    }
  }

  // ----- user memory stays away -----

  /** The page a byte of a tracked block lies on. */
  lemma PageOfByte(h: Heap, others: multiset<int>, i: nat, x: int) returns (page: nat)
    requires h.Ok() && Owns(h, others) && i < |h.table| && h.table[i].inUse
    requires h.table[i].base <= x < h.table[i].base + h.table[i].pages * 4096
    ensures page <= x < page + 4096 && page in h.fr.Live(Kernel)
  {
    var b := h.table[i];
    page := b.base + (x - b.base) / 4096 * 4096;
    assert IsPageOf(page, b.base, b.pages);
    assert page in Pages(b.base, b.pages);
    BlockIsLive(h, others, i);
  }

  /** A user step changes no byte of a kernel page. */
  lemma UserStepMissesPage(k: KernelState, step: Step, page: nat, x: nat)
    requires Partitioned(k) && UserStep(step) && Live(k, step.slot)
    requires page in k.heap.fr.Live(Kernel) && page <= x < page + 4096
    ensures Peek(UserAfter(k, step).ram, x) == Peek(k.heap.ram, x)
  {
    var u, others := UserView(k, step.slot), OthersUserPages(k, step.slot);
    UserViewOk(k, step.slot);
    match step
    case UserReads(slot, va, count) => CopyInGrows(u, others, va, count);
    case UserWrites(slot, va, bytes) => WriteMissesPage(k, slot, va, bytes, page, x - page);
    case StackGrows(slot, va) => GrowStackGrows(u, others, va);
    case LoadsPage(slot, va) => LoadMissesPage(u, others, va, page, x);
  }

  lemma LoadMissesPage(u: UserMem, others: multiset<int>, va: nat, page: nat, x: nat)
    requires UserOk(u, others) && page in u.fr.Live(Kernel) && page <= x < page + 4096
    ensures Peek(LoadPage(u, va).ram, x) == Peek(u.ram, x)
  {
    AllocateTakesFreshPages(u.fr, User, 1);
    LoadedBytes(u, va);
    var phys := Allocate(u.fr, User, 1).1;
    if phys.Some? && LoadPage(u, va).ram != u.ram {
      OnePage(phys.value);
      AllocateStaysInWindow(u.fr, User, 1);
      OtherFrameMisses(u.fr, page, phys.value, x);
    }
  }

  /** Loading writes nothing but the page it takes, if it takes one. */
  lemma LoadedBytes(u: UserMem, va: nat)
    ensures var phys, ram := Allocate(u.fr, User, 1).1, LoadPage(u, va).ram;
            ram == u.ram || (phys.Some? && u.ram.HasBlock(phys.value, 4096) && ram == u.ram.Cleared(phys.value, 4096))
  {
  }

  lemma OtherFrameMisses(fr: Frames, page: int, phys: int, x: int)
    requires fr.FrameOf(page).Some? && fr.FrameOf(phys).Some? && page != phys && page <= x < page + 4096
    ensures !(phys <= x < phys + 4096)
  {
  }

  lemma UserStepMissesBlock(k: KernelState, step: Step, i: nat, address: nat, pages: nat)
    requires Shaped(k) && Partitioned(k) && UserStep(step) && TrackedAt(k.heap.table, i, address, pages)
    ensures Next(k, step).Some?
    ensures var h' := Next(k, step).value.heap;
            TrackedAt(h'.table, i, address, pages) && SameBytes(k.heap.ram, h'.ram, address, pages * 4096)
  {
    NextUser(k, step);
    if Live(k, step.slot) {
      UserAfterGrows(k, step);
      forall x: int | address <= x < address + pages * 4096 && k.heap.ram.Has(x)
        ensures UserAfter(k, step).ram.Has(x) && UserAfter(k, step).ram.Load(x) == k.heap.ram.Load(x)
      {
        var page := PageOfByte(k.heap, KernelHeld(k.procs), i, x);
        UserStepMissesPage(k, step, page, x);
      }
    }
  }

  // ----- over a run -----

  lemma HeapStepMissesBlock(k: KernelState, step: Step, i: nat, address: nat, pages: nat)
    requires Shaped(k) && Partitioned(k) && HeapStep(step) && !GivesUp(step, address)
    requires TrackedAt(k.heap.table, i, address, pages) && Next(k, step).Some?
    ensures var h' := Next(k, step).value.heap;
            TrackedAt(h'.table, i, address, pages) && SameBytes(k.heap.ram, h'.ram, address, pages * 4096)
  {
    var h, others := k.heap, KernelHeld(k.procs);
    match step
    case HeapAllocs(size) => AllocMissesBlock(h, others, i, address, pages, size);
    case HeapFrees(freed) => FreeMissesBlock(h, others, i, address, pages, freed);
    case HeapReallocs(moved, size) => ReallocMissesBlock(h, others, i, address, pages, moved, size);
  }

  lemma StepMissesBlock(k: KernelState, step: Step, i: nat, address: nat, pages: nat)
    requires Shaped(k) && Partitioned(k) && !GivesUp(step, address)
    requires TrackedAt(k.heap.table, i, address, pages) && Next(k, step).Some?
    ensures var h' := Next(k, step).value.heap;
            TrackedAt(h'.table, i, address, pages) && SameBytes(k.heap.ram, h'.ram, address, pages * 4096)
  {
    if UserStep(step) {
      UserStepMissesBlock(k, step, i, address, pages);
    } else if HeapStep(step) {
      HeapStepMissesBlock(k, step, i, address, pages);
    } else {
      ProcessStepKeepsHeap(k, step);
    }
  }

  lemma AfterMissesBlock(k: KernelState, step: Step, i: nat, address: nat, pages: nat)
    requires SystemOk(k) && !GivesUp(step, address) && TrackedAt(k.heap.table, i, address, pages)
    ensures var h' := After(k, step).heap;
            TrackedAt(h'.table, i, address, pages) && SameBytes(k.heap.ram, h'.ram, address, pages * 4096)
  {
    if Next(k, step).Some? {
      StepMissesBlock(k, step, i, address, pages);
    }
  }

  /** Through any run in which nobody frees or reallocates it, a block stays tracked with its pages, and none of its
      bytes changes: not by processes coming and going, not by user memory, not by other blocks. */
  lemma {:induction false} BlockStays(k: KernelState, steps: seq<Step>, i: nat, address: nat, pages: nat)
    requires SystemOk(k) && TrackedAt(k.heap.table, i, address, pages)
    requires forall n | 0 <= n < |steps| :: !GivesUp(steps[n], address)
    ensures var h' := Run(k, steps).heap;
            TrackedAt(h'.table, i, address, pages) && SameBytes(k.heap.ram, h'.ram, address, pages * 4096)
    decreases |steps|
  {
    if steps != [] {
      AfterMissesBlock(k, steps[0], i, address, pages);
      BlockStays(After(k, steps[0]), steps[1..], i, address, pages);
    }
  }

  /** Realloc panics exactly when no run is free; otherwise byte `j` of the block is byte `j` of the new one. */
  ghost predicate HandsOn(h: Heap, a: nat, size: nat, j: nat)
    requires h.Ok()
  {
    var (h', out) := RuntimeRealloc(h, a, size);
    && (out.Panicked? <==> NoRunFree(h, size))
    && (out.Pointer? ==> h.ram.Has(a + j) && h'.ram.Has(out.address + j)
                         && h'.ram.Load(out.address + j) == h.ram.Load(a + j))
  }

  /** From alloc to realloc: a block got for `n` bytes, through any run in which nobody frees or reallocates it, and
      then reallocated to `size`, hands the first Min(AlignUp(n), size) bytes it had on to the new block. */
  lemma BlockKeepsItsBytes(k: KernelState, n: nat, steps: seq<Step>, size: nat, j: nat)
    requires SystemOk(k) && n > 0 && size > 0 && RuntimeAlloc(k.heap, n).1.Pointer?
    requires var a := RuntimeAlloc(k.heap, n).1.address; a != 0 && forall m | 0 <= m < |steps| :: !GivesUp(steps[m], a)
    requires j < Min(AlignUp(n), size)
    ensures HandsOn(Run(After(k, HeapAllocs(n)), steps).heap, RuntimeAlloc(k.heap, n).1.address, size, j)
  {
    var a := RuntimeAlloc(k.heap, n).1.address;
    var i := AllocTracks(k, n);
    BlockStays(After(k, HeapAllocs(n)), steps, i, a, PageCount(n));
    ByteMovesOn(Run(After(k, HeapAllocs(n)), steps), i, a, PageCount(n), size, j);
  }

  lemma AllocTracks(k: KernelState, n: nat) returns (i: nat)
    requires SystemOk(k) && n > 0 && RuntimeAlloc(k.heap, n).1.Pointer?
    ensures TrackedAt(After(k, HeapAllocs(n)).heap.table, i, RuntimeAlloc(k.heap, n).1.address, PageCount(n))
    ensures PageCount(n) * 4096 == AlignUp(n)
  {
    i := NewEntry(k.heap, KernelHeld(k.procs), n);
    PageCountCovers(n);
  }

  lemma NewEntry(h: Heap, others: multiset<int>, n: nat) returns (i: nat)
    requires h.Ok() && Owns(h, others) && n > 0 && RuntimeAlloc(h, n).1.Pointer?
    ensures TrackedAt(RuntimeAlloc(h, n).0.table, i, RuntimeAlloc(h, n).1.address, PageCount(n))
  {
    AllocGives(h, others, n);
    var a := RuntimeAlloc(h, n).1.address;
    i :| 0 <= i < |h.table| && RuntimeAlloc(h, n).0.table == h.table[i := HeapBlock(a, PageCount(n), true)];
  }

  lemma ByteMovesOn(k: KernelState, i: nat, a: nat, pages: nat, size: nat, j: nat)
    requires SystemOk(k) && a != 0 && size > 0 && TrackedAt(k.heap.table, i, a, pages) && j < Min(pages * 4096, size)
    ensures HandsOn(k.heap, a, size, j)
  {
    ReallocKeepsByte(k.heap, KernelHeld(k.procs), i, size, j);
  }

  lemma ReallocKeepsByte(h: Heap, others: multiset<int>, i: nat, size: nat, j: nat)
    requires h.Ok() && Owns(h, others) && size > 0 && i < |h.table| && h.table[i].inUse && h.table[i].base != 0
    requires j < Min(h.table[i].pages * 4096, size)
    ensures HandsOn(h, h.table[i].base, size, j)
  {
    var a := h.table[i].base;
    TrackedOnce(h, others, i);
    ReallocMovesBlock(h, others, a, size);
    if RuntimeRealloc(h, a, size).1.Pointer? {
      ByteIsCopied(h, others, i, size, j);
    }
  }

  lemma ByteIsCopied(h: Heap, others: multiset<int>, i: nat, size: nat, j: nat)
    requires h.Ok() && Owns(h, others) && size > 0 && i < |h.table| && h.table[i].inUse && h.table[i].base != 0
    requires j < Min(h.table[i].pages * 4096, size) && RuntimeRealloc(h, h.table[i].base, size).1.Pointer?
    ensures var a := h.table[i].base; var (h', out) := RuntimeRealloc(h, a, size);
            h.ram.Has(a + j) && h'.ram.Has(out.address + j) && h'.ram.Load(out.address + j) == h.ram.Load(a + j)
  {
    var to, kept := MovedBlock(h, others, h.table[i].base, size, i);
    ReallocKeepsContents(h, others, h.table[i].base, size, i, to + j);
  }
}
