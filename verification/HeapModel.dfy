/** The tracked runtime heap of phase2_memory.go as values, and what realloc promises. */
module HeapModel {
  import opened Common
  import opened PhysicalMemory
  import opened Ram

  const MAX_HEAP_BLOCKS: nat := 128

  datatype HeapBlock = HeapBlock(base: nat, pages: nat, inUse: bool)
  const NO_BLOCK: HeapBlock := HeapBlock(0, 0, false)

  datatype Heap = Heap(ready: bool, fr: Frames, table: seq<HeapBlock>, ram: Memory) {
    ghost predicate Ok() {
      && fr.Ok()
      && |table| == MAX_HEAP_BLOCKS
      && ram.base == fr.base && |ram.bytes| == PHYSICAL_MEMORY_SIZE
      && forall i | 0 <= i < |table| && table[i].inUse :: BlockOk(fr, table[i])
    }
  }

  /** A live block: at least one page, inside the managed window. */
  ghost predicate BlockOk(fr: Frames, b: HeapBlock) {
    b.pages >= 1 && fr.base <= b.base && b.base + b.pages * 4096 <= fr.base + PHYSICAL_MEMORY_SIZE
  }

  ghost function BlockPages(b: HeapBlock): multiset<int> {
    if b.inUse then multiset(Pages(b.base, b.pages)) else multiset{}
  }

  /** Every page the heap holds. */
  ghost function HeapPages(table: seq<HeapBlock>): multiset<int> {
    Flatten(table, BlockPages)
  }

  // ----- the table -----

  function FreeEntry(table: seq<HeapBlock>, i: nat): (r: Option<nat>)
    requires i <= |table|
    ensures r.Some? ==> i <= r.value < |table| && !table[r.value].inUse
    ensures r.None? ==> forall k | i <= k < |table| :: table[k].inUse
    decreases |table| - i
  {
    if i == |table| then None else if !table[i].inUse then Some(i) else FreeEntry(table, i + 1)
  }

  lemma {:induction false} FreeEntryIsFirst(table: seq<HeapBlock>, i: nat)
    requires i <= |table|
    ensures var r := FreeEntry(table, i); r.Some? ==> forall k | i <= k < r.value :: table[k].inUse
    decreases |table| - i
  {
    if i < |table| {
      FreeEntryIsFirst(table, i + 1);
    }
  }

  function FindBlock(table: seq<HeapBlock>, address: nat, i: nat): (r: Option<nat>)
    requires i <= |table|
    ensures r.Some? ==> i <= r.value < |table| && table[r.value].inUse && table[r.value].base == address
    ensures r.None? ==> forall k | i <= k < |table| && table[k].inUse :: table[k].base != address
    decreases |table| - i
  {
    if i == |table| then None
    else if table[i].inUse && table[i].base == address then Some(i)
    else FindBlock(table, address, i + 1)
  }

  // ----- operations -----

  /** Free pages one by one, whatever each call answers. */
  ghost function RollBack(fr: Frames, address: nat, count: nat): Frames {
    if count == 0 then fr
    else Release(RollBack(fr, address, count - 1), Kernel, address + (count - 1) * 4096).0
  }

  /** Free pages one by one, stopping at the first refusal. */
  ghost function ReleaseRun(fr: Frames, address: nat, count: nat): (Frames, bool) {
    if count == 0 then (fr, true)
    else
      var (fr', ok) := ReleaseRun(fr, address, count - 1);
      if !ok then (fr', false) else Release(fr', Kernel, address + (count - 1) * 4096)
  }

  function PageCount(size: nat): nat {
    AlignUp(size) / 4096
  }

  ghost function HeapAlloc(h: Heap, size: nat): (Heap, Option<nat>) {
    if !h.ready || size == 0 then (h, None)
    else
      var (fr', address) := Allocate(h.fr, Kernel, PageCount(size));
      if address.None? then (h.(fr := fr'), None)
      else
        match FreeEntry(h.table, 0)
        case None => (h.(fr := RollBack(fr', address.value, PageCount(size))), None)
        case Some(i) =>
          (h.(fr := fr', table := h.table[i := HeapBlock(address.value, PageCount(size), true)]), address)
  }

  function HeapBytes(table: seq<HeapBlock>, address: nat): Option<nat> {
    match FindBlock(table, address, 0)
    case None => None
    case Some(i) => Some(table[i].pages * 4096)
  }

  ghost function HeapFree(h: Heap, address: nat): (Heap, bool) {
    if !h.ready then (h, false)
    else
      match FindBlock(h.table, address, 0)
      case None => (h, false)
      case Some(i) =>
        var (fr', ok) := ReleaseRun(h.fr, address, h.table[i].pages);
        (h.(fr := fr', table := h.table[i := NO_BLOCK]), ok)
  }

  /** What a runtime hook does: hand back an address (0 is nil) or panic. */
  datatype Outcome = Pointer(address: nat) | Panicked

  ghost function RuntimeAlloc(h: Heap, size: nat): (Heap, Outcome)
    requires h.Ok()
  {
    if size == 0 then (h, Pointer(0))
    else
      var (h', address) := HeapAlloc(h, size);
      if address.None? then (h', Panicked)
      else
        AllocatedBlockFits(h, size);
        (h'.(ram := h'.ram.Cleared(address.value, AlignUp(size))), Pointer(address.value))
  }

  ghost function RuntimeRealloc(h: Heap, address: nat, size: nat): (Heap, Outcome)
    requires h.Ok()
  {
    if size == 0 then ((if address != 0 then HeapFree(h, address).0 else h), Pointer(0))
    else if address == 0 then RuntimeAlloc(h, size)
    else
      match HeapBytes(h.table, address)
      case None => (h, Panicked)
      case Some(oldBytes) =>
        var (h1, newBlock) := RuntimeAlloc(h, size);
        if newBlock.Panicked? then (h1, Panicked)
        else
          AllocatedBlockFits(h, size);
          var h2 := h1.(ram := h1.ram.Copied(newBlock.address, address, Min(oldBytes, size)));
          var (h3, ok) := HeapFree(h2, address);
          (h3, if ok then newBlock else Panicked)
  }

  lemma PageCountCovers(size: nat)
    requires size > 0
    ensures PageCount(size) >= 1 && PageCount(size) * 4096 == AlignUp(size) >= size
  {
  }

  /** A block just allocated lies inside the byte memory and passes BlockOk. */
  lemma AllocatedBlockFits(h: Heap, size: nat)
    requires h.Ok() && size > 0
    ensures var (h', address) := HeapAlloc(h, size);
            && h'.ram == h.ram
            && (address.Some? ==> h'.Ok() && h.ram.HasBlock(address.value, AlignUp(size)) && AlignUp(size) >= size)
  {
    PageCountCovers(size);
    AllocateStaysInWindow(h.fr, Kernel, PageCount(size));
    AllocationIsNextFit(h.fr, Kernel, PageCount(size));
  }

  // ----- ownership of heap pages -----

  /** The kernel pool's live pages are exactly the heap's blocks and what others hold, each page once. */
  ghost predicate Owns(h: Heap, others: multiset<int>) {
    multiset(h.fr.Live(Kernel)) == others + HeapPages(h.table)
  }

  /** The addresses of the first `k` frames at or after `start`. */
  ghost function FrameAddresses(base: nat, start: nat, k: nat): (s: set<int>)
    ensures |s| == k && forall a | a in s :: a < base + (start + k) * 4096
  {
    if k == 0 then {}
    else FrameAddresses(base, start, k - 1) + {base + (start + k - 1) * 4096}
  }

  lemma {:induction false} FrameAddressIn(base: nat, start: nat, k: nat, frame: nat)
    ensures base + frame * 4096 in FrameAddresses(base, start, k) <==> start <= frame < start + k
  {
    if k > 0 {
      FrameAddressIn(base, start, k - 1, frame);
    }
  }

  /** A pool never has more pages out than frames. */
  lemma LiveFitsPool(fr: Frames, pool: Pool)
    requires fr.Ok()
    ensures |fr.Live(pool)| <= fr.Range(pool).end - fr.Range(pool).start
  {
    var r := fr.Range(pool);
    var all := FrameAddresses(fr.base, r.start, r.end - r.start);
    forall a | a in fr.Live(pool) ensures a in all {
      FrameAddressIn(fr.base, r.start, r.end - r.start, fr.FrameOf(a).value);
    }
    SubsetSize(multiset(fr.Live(pool)), multiset(all));
  }

  /** Every block holds a page, and the kernel pool has only 36: the 128-entry table cannot fill. */
  lemma HeapTableNeverFills(h: Heap, others: multiset<int>)
    requires h.Ok() && Owns(h, others)
    ensures FreeEntry(h.table, 0).Some?
  {
    if FreeEntry(h.table, 0).None? {
      forall i | 0 <= i < |h.table| ensures |BlockPages(h.table[i])| >= 1 {
        assert h.table[i].base in Pages(h.table[i].base, h.table[i].pages);
        assert h.table[i].base in BlockPages(h.table[i]);
      }
      FlattenAtLeast(h.table, BlockPages);
      SubsetSize(HeapPages(h.table), multiset(h.fr.Live(Kernel)));
      LiveFitsPool(h.fr, Kernel);
      assert false;
    }
  }

  lemma PagesGrow(address: nat, count: nat)
    requires count > 0
    ensures Pages(address, count) == Pages(address, count - 1) + {address + (count - 1) * 4096}
    ensures address + (count - 1) * 4096 !in Pages(address, count - 1)
  {
    var last := address + (count - 1) * 4096;
    assert (last - address) / 4096 == count - 1;
    forall p | p in Pages(address, count) && p != last ensures p in Pages(address, count - 1) {
      var i := (p - address) / 4096;
      assert i < count && i != count - 1;
      assert IsPageOf(p, address, count - 1);
    }
    assert IsPageOf(last, address, count);
    forall p | p in Pages(address, count - 1) ensures p in Pages(address, count) {
      assert IsPageOf(p, address, count);
    }
  }

  /** Giving back a run of live pages never fails and removes exactly that run. */
  lemma {:induction false} ReleaseRunReturnsPages(fr: Frames, address: nat, count: nat)
    requires fr.Ok() && Pages(address, count) <= fr.Live(Kernel)
    ensures var (fr', ok) := ReleaseRun(fr, address, count);
            && ok && fr'.Ok() && fr'.base == fr.base
            && fr'.Live(Kernel) == fr.Live(Kernel) - Pages(address, count)
            && fr'.Live(User) == fr.Live(User)
  {
    if count > 0 {
      PagesGrow(address, count);
      ReleaseRunReturnsPages(fr, address, count - 1);
      ReleaseRunOneMore(fr, address, count, Pages(address, count - 1), Pages(address, count));
    }
  }

  /** The run given back so far, as a set. */
  ghost predicate Returned(fr: Frames, address: nat, count: nat, run: set<int>) {
    var (fr', ok) := ReleaseRun(fr, address, count);
    ok && fr'.Ok() && fr'.base == fr.base && fr'.Live(Kernel) == fr.Live(Kernel) - run
      && fr'.Live(User) == fr.Live(User)
  }

  lemma ReleaseRunOneMore(fr: Frames, address: nat, count: nat, before: set<int>, run: set<int>)
    requires count > 0 && Returned(fr, address, count - 1, before)
    requires run == before + {address + (count - 1) * 4096} && run <= fr.Live(Kernel)
    requires address + (count - 1) * 4096 !in before
    ensures Returned(fr, address, count, run)
  {
    ReleaseReturnsOnePage(ReleaseRun(fr, address, count - 1).0, Kernel, address + (count - 1) * 4096);
  }

  /** A heap allocation either takes a fresh block or, when no run is free, changes nothing. */
  lemma HeapAllocKeepsOwnership(h: Heap, others: multiset<int>, size: nat)
    requires h.Ok() && Owns(h, others) && size > 0
    ensures var (h', address) := HeapAlloc(h, size);
            && h'.Ok() && Owns(h', others)
            && h'.fr.Live(User) == h.fr.Live(User) && h'.fr.base == h.fr.base && h'.ready == h.ready
            && (address.None? <==> !h.ready || Allocate(h.fr, Kernel, PageCount(size)).1.None?)
            && (address.None? ==> h' == h)
            && (address.Some? ==> Pages(address.value, PageCount(size)) !! h.fr.Live(Kernel) + h.fr.Live(User))
  {
    HeapTableNeverFills(h, others);
    AllocatedBlockFits(h, size);
    AllocateTakesFreshPages(h.fr, Kernel, PageCount(size));
    AllocationIsNextFit(h.fr, Kernel, PageCount(size));
    var (h', address) := HeapAlloc(h, size);
    if address.Some? {
      var i := FreeEntry(h.table, 0).value;
      FlattenUpdate(h.table, BlockPages, i, HeapBlock(address.value, PageCount(size), true));
      assert multiset(h'.fr.Live(Kernel)) ==
               multiset(h.fr.Live(Kernel)) + multiset(Pages(address.value, PageCount(size)));
    }
  }

  /** Freeing a tracked block always succeeds and gives back exactly its pages. */
  lemma HeapFreeKeepsOwnership(h: Heap, others: multiset<int>, address: nat)
    requires h.Ok() && Owns(h, others)
    ensures var (h', ok) := HeapFree(h, address);
            && h'.Ok() && Owns(h', others)
            && h'.fr.Live(User) == h.fr.Live(User) && h'.fr.base == h.fr.base && h'.ready == h.ready
            && h'.ram == h.ram
            && (ok <==> h.ready && FindBlock(h.table, address, 0).Some?)
            && (!ok ==> h' == h)
  {
    var (h', ok) := HeapFree(h, address);
    var entry := FindBlock(h.table, address, 0);
    if h.ready && entry.Some? {
      BlockIsFreed(h, others, entry.value);
    }
  }

  lemma BlockIsFreed(h: Heap, others: multiset<int>, i: nat)
    requires h.Ok() && Owns(h, others) && i < |h.table| && h.table[i].inUse
    ensures var (fr', ok) := ReleaseRun(h.fr, h.table[i].base, h.table[i].pages);
            && ok && fr'.Ok() && fr'.base == h.fr.base && fr'.Live(User) == h.fr.Live(User)
            && multiset(fr'.Live(Kernel)) == others + HeapPages(h.table[i := NO_BLOCK])
  {
    var b := h.table[i];
    FlattenUpdate(h.table, BlockPages, i, NO_BLOCK);
    BlockIsLive(h, others, i);
    ReleaseRunReturnsPages(h.fr, b.base, b.pages);
    var fr' := ReleaseRun(h.fr, b.base, b.pages).0;
    assert multiset(fr'.Live(Kernel)) == multiset(h.fr.Live(Kernel)) - multiset(Pages(b.base, b.pages));
  }

  lemma BlockIsLive(h: Heap, others: multiset<int>, i: nat)
    requires h.Ok() && Owns(h, others) && i < |h.table| && h.table[i].inUse
    ensures Pages(h.table[i].base, h.table[i].pages) <= h.fr.Live(Kernel)
  {
    FlattenUpdate(h.table, BlockPages, i, h.table[i]);
    forall p | p in Pages(h.table[i].base, h.table[i].pages) ensures p in h.fr.Live(Kernel) {
      assert p in BlockPages(h.table[i]);
      assert p in multiset(h.fr.Live(Kernel));
    }
  }

  /** Different live blocks share no page. */
  lemma BlocksAreDisjoint(h: Heap, others: multiset<int>, i: nat, j: nat)
    requires h.Ok() && Owns(h, others)
    requires i < j < |h.table| && h.table[i].inUse && h.table[j].inUse
    ensures Pages(h.table[i].base, h.table[i].pages) !! Pages(h.table[j].base, h.table[j].pages)
  {
    FlattenPair(h.table, BlockPages, i, j);
    var pi, pj := BlockPages(h.table[i]), BlockPages(h.table[j]);
    forall p | p in Pages(h.table[i].base, h.table[i].pages) ensures p !in Pages(h.table[j].base, h.table[j].pages) {
      assert p in pi && (pi + pj)[p] <= multiset(h.fr.Live(Kernel))[p] <= 1;
    }
  }

  /** Page-disjoint runs of frames are byte-disjoint. */
  lemma DisjointPagesDisjointBytes(fr: Frames, a: nat, n: nat, c: nat, m: nat, x: int)
    requires n > 0 && m > 0 && fr.FrameOf(a).Some? && fr.FrameOf(c).Some?
    requires Pages(a, n) !! Pages(c, m)
    requires a + n * 4096 <= fr.base + PHYSICAL_MEMORY_SIZE && c + m * 4096 <= fr.base + PHYSICAL_MEMORY_SIZE
    requires a <= x < a + n * 4096
    ensures !(c <= x < c + m * 4096)
  {
    var fa, fc := fr.FrameOf(a).value, fr.FrameOf(c).value;
    PageOfRun(fr, fa, n, c);
    PageOfRun(fr, fc, m, c);
    PageOfRun(fr, fc, m, a);
    PageOfRun(fr, fa, n, a);
  }

  /** The frame of the first page of a run of live pages. */
  lemma LiveRunHasFrame(fr: Frames, pool: Pool, a: nat, n: nat)
    requires n > 0 && Pages(a, n) <= fr.Live(pool)
    ensures fr.FrameOf(a).Some?
  {
    assert IsPageOf(a, a, n);
    assert a in Pages(a, n);
  }

  /** Realloc of a tracked block panics only when no run is free, leaving everything as it was. Otherwise
      the new block is disjoint from every live page, the table changes in the two expected entries and
      the pool stays exactly owned. */
  lemma ReallocMovesBlock(h: Heap, others: multiset<int>, address: nat, size: nat)
    requires h.Ok() && Owns(h, others) && address != 0 && size > 0 && FindBlock(h.table, address, 0).Some?
    ensures var (h', out) := RuntimeRealloc(h, address, size);
            var kept := Min(h.table[FindBlock(h.table, address, 0).value].pages * 4096, size);
            && (out.Panicked? <==> !h.ready || Allocate(h.fr, Kernel, PageCount(size)).1.None?)
            && (out.Panicked? ==> h' == h)
            && h'.Ok() && Owns(h', others) && h'.fr.Live(User) == h.fr.Live(User)
            && (out.Pointer? ==>
                  && Pages(out.address, PageCount(size)) !! h.fr.Live(Kernel) + h.fr.Live(User)
                  && h.ram.HasBlock(out.address, AlignUp(size))
                  && h.ram.HasBlock(address, kept) && kept <= size <= AlignUp(size)
                  && h'.ram == h.ram.Cleared(out.address, AlignUp(size)).Copied(out.address, address, kept)
                  && h'.table == h.table[FreeEntry(h.table, 0).value := HeapBlock(out.address, PageCount(size), true)]
                                        [FindBlock(h.table, address, 0).value := NO_BLOCK])
  {
    HeapAllocKeepsOwnership(h, others, size);
    AllocatedBlockFits(h, size);
    HeapTableNeverFills(h, others);
    var (h1, a) := HeapAlloc(h, size);
    if a.Some? {
      var i, e := FindBlock(h.table, address, 0).value, FreeEntry(h.table, 0).value;
      BlockIsLive(h, others, i);
      assert IsPageOf(address, address, h.table[i].pages) && address in Pages(address, h.table[i].pages);
      assert IsPageOf(a.value, a.value, PageCount(size)) && a.value in Pages(a.value, PageCount(size));
      FindBlockAfterInsert(h.table, address, e, h1.table[e], 0);
      var h2 := h1.(ram := h1.ram.Cleared(a.value, AlignUp(size))
                                 .Copied(a.value, address, Min(h.table[i].pages * 4096, size)));
      HeapFreeKeepsOwnership(h2, others, address);
    }
  }

  lemma {:induction false} FindBlockAfterInsert(table: seq<HeapBlock>, address: nat, e: nat, b: HeapBlock, i: nat)
    requires i <= |table| && e < |table| && !table[e].inUse && b.base != address
    ensures FindBlock(table[e := b], address, i) == FindBlock(table, address, i)
    decreases |table| - i
  {
    if i < |table| {
      FindBlockAfterInsert(table, address, e, b, i + 1);
    }
  }

  /** A block is found by its address: no other tracked block has it. */
  lemma TrackedOnce(h: Heap, others: multiset<int>, i: nat)
    requires h.Ok() && Owns(h, others) && i < |h.table| && h.table[i].inUse
    ensures FindBlock(h.table, h.table[i].base, 0) == Some(i)
  {
    var j := FindBlock(h.table, h.table[i].base, 0).value;
    if j != i {
      assert h.table[i].base in Pages(h.table[i].base, h.table[i].pages);
      assert h.table[i].base in Pages(h.table[j].base, h.table[j].pages);
      BlocksAreDisjoint(h, others, if i < j then i else j, if i < j then j else i);
    }
  }

  /** A tracked block has the bytes of all its pages; an address that is not a block's has none. */
  lemma HeapBytesAreThePages(h: Heap, others: multiset<int>, address: nat)
    requires h.Ok() && Owns(h, others)
    ensures forall i | 0 <= i < |h.table| && h.table[i].inUse && h.table[i].base == address ::
              HeapBytes(h.table, address) == Some(h.table[i].pages * 4096)
    ensures (forall i | 0 <= i < |h.table| && h.table[i].inUse :: h.table[i].base != address) <==>
              HeapBytes(h.table, address).None?
  {
    forall i: nat | i < |h.table| && h.table[i].inUse && h.table[i].base == address
      ensures HeapBytes(h.table, address) == Some(h.table[i].pages * 4096)
    {
      TrackedOnce(h, others, i);
    }
  }

  /** The memory after a realloc that moved the block. */
  lemma MovedBlock(h: Heap, others: multiset<int>, address: nat, size: nat, i: nat) returns (to: nat, kept: nat)
    requires h.Ok() && Owns(h, others) && address != 0 && size > 0
    requires i < |h.table| && h.table[i].inUse && h.table[i].base == address
    requires RuntimeRealloc(h, address, size).1.Pointer?
    ensures RuntimeRealloc(h, address, size).1 == Pointer(to) && kept == Min(h.table[i].pages * 4096, size)
    ensures Allocate(h.fr, Kernel, PageCount(size)).1 == Some(to)
    ensures h.ram.HasBlock(to, AlignUp(size)) && h.ram.HasBlock(address, kept) && kept <= AlignUp(size)
    ensures RuntimeRealloc(h, address, size).0.ram == h.ram.Cleared(to, AlignUp(size)).Copied(to, address, kept)
  {
    TrackedOnce(h, others, i);
    ReallocMovesBlock(h, others, address, size);
    to := RuntimeRealloc(h, address, size).1.address;
    kept := Min(h.table[i].pages * 4096, size);
  }

  /** Realloc of the block in entry `i` keeps the first min(bytes of its pages, size) bytes, zeroes the rest of the new
      block and changes no byte outside it. */
  lemma ReallocKeepsContents(h: Heap, others: multiset<int>, address: nat, size: nat, i: nat, x: int)
    requires h.Ok() && Owns(h, others) && address != 0 && size > 0
    requires i < |h.table| && h.table[i].inUse && h.table[i].base == address
    requires RuntimeRealloc(h, address, size).1.Pointer?
    requires h.ram.Has(x)
    ensures var (h', out) := RuntimeRealloc(h, address, size);
            var kept := Min(h.table[i].pages * 4096, size);
            && h'.ram.Has(x)
            && (if out.address <= x < out.address + kept then
                  h.ram.Has(x - out.address + address) && h'.ram.Load(x) == h.ram.Load(x - out.address + address)
                else if out.address <= x < out.address + AlignUp(size) then h'.ram.Load(x) == 0
                else h'.ram.Load(x) == h.ram.Load(x))
  {
    var to, kept := MovedBlock(h, others, address, size, i);
    if to <= x < to + kept {
      NewBlockMissesOld(h, others, i, size, to, x - to + address);
    }
    MoveEffect(h.ram, to, address, AlignUp(size), kept, x);
  }

  lemma NewBlockMissesOld(h: Heap, others: multiset<int>, i: nat, size: nat, to: nat, y: int)
    requires h.Ok() && Owns(h, others) && size > 0 && i < |h.table| && h.table[i].inUse
    requires Allocate(h.fr, Kernel, PageCount(size)).1 == Some(to)
    requires h.table[i].base <= y < h.table[i].base + h.table[i].pages * 4096
    ensures !(to <= y < to + AlignUp(size))
  {
    var b := h.table[i];
    PageCountCovers(size);
    BlockIsLive(h, others, i);
    LiveRunHasFrame(h.fr, Kernel, b.base, b.pages);
    AllocateStaysInWindow(h.fr, Kernel, PageCount(size));
    AllocateTakesFreshPages(h.fr, Kernel, PageCount(size));
    LiveRunHasFrame(Allocate(h.fr, Kernel, PageCount(size)).0, Kernel, to, PageCount(size));
    DisjointPagesDisjointBytes(h.fr, b.base, b.pages, to, PageCount(size), y);
  }

  /** Clearing a block and copying into its front, read at one address. */
  lemma MoveEffect(m: Memory, to: nat, from: nat, cleared: nat, kept: nat, x: int)
    requires m.HasBlock(to, cleared) && m.HasBlock(from, kept) && kept <= cleared && m.Has(x)
    requires to <= x < to + kept ==> !(to <= x - to + from < to + cleared)
    ensures var m' := m.Cleared(to, cleared).Copied(to, from, kept);
            && m'.Has(x)
            && (if to <= x < to + kept then m.Has(x - to + from) && m'.Load(x) == m.Load(x - to + from)
                else if to <= x < to + cleared then m'.Load(x) == 0
                else m'.Load(x) == m.Load(x))
  {
  }
}
