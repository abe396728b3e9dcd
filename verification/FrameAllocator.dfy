/** The bitmap frame allocator of phase2_memory.go, updated in place. */
module FrameAllocator {
  import opened Common
  import opened PhysicalMemory

  const MAX_REGIONS: nat := 8

  ghost function UsableFrames(base: nat): (r: seq<bool>)
    ensures |r| == FRAME_COUNT
  {
    seq(FRAME_COUNT, f requires 0 <= f < FRAME_COUNT => IsUsable(base, base + f * 4096))
  }

  lemma UsableFrameAt(base: nat, frame: nat)
    requires frame < FRAME_COUNT
    ensures UsableFrames(base)[frame] == IsUsable(base, base + frame * 4096)
  {
  }

  /** The frames no memory backs, which count as used from the start. */
  ghost function Unbacked(usable: seq<bool>): (r: seq<bool>)
    ensures |r| == |usable| && forall f | 0 <= f < |usable| :: r[f] == !usable[f]
  {
    seq(|usable|, f requires 0 <= f < |usable| => !usable[f])
  }

  /** The allocator as phase2Init leaves it. */
  ghost function BootFrames(base: nat): Frames {
    Frames(base, UsableFrames(base), Unbacked(UsableFrames(base)),
           PoolRange(BOOT_FRAMES, POOL_SPLIT, BOOT_FRAMES), PoolRange(POOL_SPLIT, FRAME_COUNT, POOL_SPLIT))
  }

  class Allocator {
    const base: nat
    const bitmap: array<bv8>
    var regions: seq<Region>
    var kernel: PoolRange
    var user: PoolRange
    /** What the region map and the bitmap say about each frame. */
    ghost const usable: seq<bool>
    ghost var used: seq<bool>

    ghost predicate MapBuilt()
      reads this
    {
      regions == MemoryMap(base)
    }

    ghost predicate Valid()
      reads this, bitmap
    {
      && bitmap.Length == BITMAP_BYTES
      && MapBuilt()
      && base % 4096 == 0 && usable == UsableFrames(base)
      && kernel.start <= kernel.end <= user.start <= user.end <= FRAME_COUNT
      && used == UsedFrames(bitmap[..], usable)
    }

    ghost function View(): Frames
      reads this
    {
      Frames(base, usable, used, kernel, user)
    }

    lemma ViewIsOk()
      requires Valid()
      ensures View().Ok()
    {
    }

    /** phase2Init: the map, the bitmap, then the pools. */
    constructor (base: nat)
      requires base % 4096 == 0
      ensures Valid() && fresh(bitmap)
      ensures View() == BootFrames(base)
    {
      this.base := base;
      usable := UsableFrames(base);
      bitmap := new bv8[BITMAP_BYTES](_ => 0);
      regions := [];
      kernel, user := PoolRange(0, 0, 0), PoolRange(0, 0, 0);
      new;
      BuildMemoryMap();
      InitBitmap();
      InitMemoryPools();
      used := UsedFrames(bitmap[..], usable);
      BootUsed(base, bitmap[..], usable);
    }

    method AddMemoryRegion(start: nat, end: nat, kind: RegionKind, reserved: bool)
      requires start < end && |regions| < MAX_REGIONS
      modifies this`regions
      ensures regions == old(regions) + [Region(start, end, kind, reserved)]
    {
      regions := regions + [Region(start, end, kind, reserved)];
    }

    method BuildMemoryMap()
      modifies this`regions
      ensures MapBuilt()
    {
      regions := [];
      AddMemoryRegion(0x4000_0000, 0x4008_0000, ROM, true);
      AddMemoryRegion(0x4037_0000, 0x403E_0000, IRAM, true);
      AddMemoryRegion(0x6000_0000, 0x6100_0000, Peripheral, true);
      AddMemoryRegion(base, base + BOOT_RESERVE_SIZE, DRAM, true);
      AddMemoryRegion(base + BOOT_RESERVE_SIZE, base + PHYSICAL_MEMORY_SIZE, DRAM, false);
    }

    method FindMemoryRegion(address: nat) returns (r: Option<Region>)
      requires MapBuilt()
      ensures r == FindRegion(MemoryMap(base), address, 0)
    {
      for i := 0 to |regions|
        invariant FindRegion(MemoryMap(base), address, i) == FindRegion(MemoryMap(base), address, 0)
      {
        if InRegion(address, regions[i]) {
          return Some(regions[i]);
        }
      }
      r := None;
    }

    method IsUsableDRAMAddress(address: nat) returns (r: bool)
      requires MapBuilt()
      ensures r == IsUsable(base, address)
    {
      var region := FindMemoryRegion(address);
      r := UsableRegion(region);
    }

    method BitmapSetUsed(frame: nat)
      requires bitmap.Length == BITMAP_BYTES && frame < FRAME_COUNT
      modifies bitmap
      ensures bitmap[..] == WithBit(old(bitmap[..]), frame)
    {
      bitmap[frame / 8] := bitmap[frame / 8] | Mask(frame % 8);
    }

    method BitmapSetFree(frame: nat)
      requires bitmap.Length == BITMAP_BYTES && frame < FRAME_COUNT
      modifies bitmap
      ensures bitmap[..] == WithoutBit(old(bitmap[..]), frame)
    {
      bitmap[frame / 8] := bitmap[frame / 8] & !Mask(frame % 8);
    }

    method BitmapIsUsed(frame: nat) returns (r: bool)
      requires bitmap.Length == BITMAP_BYTES && frame < FRAME_COUNT
      ensures r == BitSet(bitmap[..], frame)
    {
      r := bitmap[frame / 8] & Mask(frame % 8) != 0;
    }

    /** pageAllocatorInit: everything used, then every usable frame cleared. */
    method InitBitmap()
      requires bitmap.Length == BITMAP_BYTES && MapBuilt()
      modifies bitmap
      ensures forall f | 0 <= f < FRAME_COUNT :: BitSet(bitmap[..], f) <==> !IsUsable(base, base + f * 4096)
    {
      for i := 0 to BITMAP_BYTES
        invariant forall j | 0 <= j < i :: bitmap[j] == 0xFF
      {
        bitmap[i] := 0xFF;
      }
      forall f | 0 <= f < FRAME_COUNT ensures BitSet(bitmap[..], f) {
        MaskInFullByte(f % 8);
      }
      for frame := 0 to FRAME_COUNT
        invariant forall f | 0 <= f < FRAME_COUNT ::
            BitSet(bitmap[..], f) == (f >= frame || !IsUsable(base, base + f * 4096))
      {
        var usable := IsUsableDRAMAddress(base + frame * 4096);
        if usable {
          ghost var before := bitmap[..];
          BitmapSetFree(frame);
          forall f | 0 <= f < FRAME_COUNT ensures BitSet(bitmap[..], f) == (f != frame && BitSet(before, f)) {
            BitMoves(before, frame, f);
          }
        }
      }
    }

    method InitMemoryPools()
      modifies this`kernel, this`user
      ensures kernel == PoolRange(BOOT_FRAMES, POOL_SPLIT, BOOT_FRAMES)
      ensures user == PoolRange(POOL_SPLIT, FRAME_COUNT, POOL_SPLIT)
    {
      Geometry();
      var usableStart := BOOT_RESERVE_SIZE / PAGE_SIZE;
      var usableCount := FRAME_COUNT - usableStart;
      var kernelCount := usableCount / 2;
      kernel := PoolRange(usableStart, usableStart + kernelCount, usableStart);
      user := PoolRange(usableStart + kernelCount, FRAME_COUNT, usableStart + kernelCount);
    }

    function Bounds(pool: Pool): PoolRange
      reads this
    {
      if pool == PhysicalMemory.Kernel then kernel else user
    }

    method SetCursor(pool: Pool, frame: nat)
      requires Valid()
      modifies this`kernel, this`user
      ensures Valid() && View() == old(View()).WithCursor(pool, frame)
    {
      if pool == PhysicalMemory.User {
        user := user.(cursor := frame);
      } else {
        kernel := kernel.(cursor := frame);
      }
    }

    method AllocPageFromPool(pool: Pool) returns (address: Option<nat>)
      requires Valid()
      modifies this`kernel, this`user, this`used, bitmap
      ensures Valid() && (View(), address) == Allocate(old(View()), pool, 1)
    {
      var r := Bounds(pool);
      if !(r.start < r.end) {
        return None;
      }
      ghost var start := View();
      var frame := ScanForPage(r);
      AllocateIs(start, pool, 1, frame, View());
      address := HandOut(pool, r, frame, 1);
    }

    /** Move the cursor past the marked run and give its address; nothing, if no run was found. */
    method HandOut(pool: Pool, r: PoolRange, c: Option<nat>, n: nat) returns (address: Option<nat>)
      requires Valid()
      modifies this`kernel, this`user
      ensures Valid()
      ensures (View(), address) == HandedOut(old(View()), pool, r, c, n)
    {
      if c.None? {
        return None;
      }
      SetCursor(pool, Wrap(r, c.value + n));
      address := Some(base + c.value * 4096);
    }

    ghost function HandedOut(marked: Frames, pool: Pool, r: PoolRange, c: Option<nat>, n: nat): (Frames, Option<nat>) {
      if c.None? then (marked, None)
      else (marked.WithCursor(pool, Wrap(r, c.value + n)), Some(marked.base + c.value * 4096))
    }

    /** An allocation, told from what its scan found and the frames as they are once the run is marked. */
    lemma AllocateIs(fr: Frames, pool: Pool, n: nat, c: Option<nat>, marked: Frames)
      requires n > 0 && var r := fr.Range(pool); r.start < r.end && n <= r.end - r.start && c == Scan(fr.used, r, n, 0)
      requires marked == if c.None? then fr else fr.(used := MarkUsed(fr.used, c.value, n))
      ensures Allocate(fr, pool, n) == HandedOut(marked, pool, fr.Range(pool), c, n)
    {
    }

    /** The scan of allocPageFromPool: take the first free usable frame. */
    method ScanForPage(r: PoolRange) returns (frame: Option<nat>)
      requires Valid() && r.start < r.end <= FRAME_COUNT
      modifies this`used, bitmap
      ensures Valid() && frame == Scan(old(used), r, 1, 0)
      ensures View() == if frame.None? then old(View()) else old(View()).(used := MarkUsed(old(used), frame.value, 1))
    {
      ghost var start := used;
      for scanned := 0 to r.end - r.start
        invariant Valid() && used == start
        invariant Scan(start, r, 1, scanned) == Scan(start, r, 1, 0)
      {
        CandidateIsCyclic(r, scanned);
        var candidate := r.start + (Home(r) - r.start + scanned) % (r.end - r.start);
        var taken := TakeFrame(candidate);
        assert Fits(start, candidate, 1, r.end) <==> !start[candidate];
        if taken {
          assert used == MarkUsed(start, candidate, 1);
          return Some(candidate);
        }
        assert used == start;
      }
      frame := None;
    }

    /** One turn of the scan: skip a used frame, mark and skip an unusable one, take any other.
        Marking a frame that no usable memory backs changes nothing a caller can see. */
    method TakeFrame(frame: nat) returns (taken: bool)
      requires Valid() && frame < FRAME_COUNT
      modifies this`used, bitmap
      ensures Valid() && taken == !old(used)[frame] && used == old(used)[frame := true]
    {
      UsedFramesMove(bitmap[..], usable, frame);
      UsableFrameAt(base, frame);
      var bit := BitmapIsUsed(frame);
      if bit {
        assert used == used[frame := true];
        return false;
      }
      taken := IsUsableDRAMAddress(base + frame * 4096);
      BitmapSetUsed(frame);
      used := used[frame := true];
    }

    method FreePageInPool(address: nat, pool: Pool) returns (ok: bool)
      requires Valid()
      modifies this`kernel, this`user, this`used, bitmap
      ensures Valid() && (View(), ok) == Release(old(View()), pool, address)
    {
      var frame := FrameFromAddress(address);
      if frame.None? {
        return false;
      }
      var backed := IsBacked(address, frame.value);
      if !backed {
        return false;
      }
      var r := Bounds(pool);
      if !(r.start < r.end) || frame.value < r.start || frame.value >= r.end {
        return false;
      }
      var bit := BitmapIsUsed(frame.value);
      if !bit {
        return false;
      }
      ClearFrame(frame.value);
      if r.cursor < r.start || r.cursor >= r.end || frame.value < r.cursor {
        SetCursor(pool, frame.value);
      }
      ok := true;
    }

    method IsBacked(address: nat, frame: nat) returns (backed: bool)
      requires Valid() && View().FrameOf(address) == Some(frame)
      ensures frame < FRAME_COUNT && backed == usable[frame]
    {
      assert address == base + frame * 4096;
      UsableFrameAt(base, frame);
      backed := IsUsableDRAMAddress(address);
    }

    method ClearFrame(frame: nat)
      requires Valid() && frame < FRAME_COUNT && usable[frame]
      modifies this`used, bitmap
      ensures Valid() && used == old(used)[frame := false]
    {
      UsedFramesMove(bitmap[..], usable, frame);
      BitmapSetFree(frame);
      used := used[frame := false];
    }

    method FrameFromAddress(address: nat) returns (frame: Option<nat>)
      requires Valid()
      ensures frame == View().FrameOf(address)
    {
      if address < base || address >= base + PHYSICAL_MEMORY_SIZE {
        return None;
      }
      AlignedOffset(base, address);
      if address % 4096 != 0 {
        return None;
      }
      frame := Some((address - base) / 4096);
    }

    method AllocContigFromPool(pool: Pool, pageCount: nat) returns (address: Option<nat>)
      requires Valid()
      modifies this`kernel, this`user, this`used, bitmap
      ensures Valid() && (View(), address) == Allocate(old(View()), pool, pageCount)
    {
      if pageCount == 0 {
        return None;
      }
      var r := Bounds(pool);
      if !(r.start < r.end) {
        return None;
      }
      var required := pageCount % 0x1_0000_0000;
      if required != pageCount || required > r.end - r.start {
        return None;
      }
      ghost var start := View();
      var candidate := FindRun(r, required);
      if candidate.Some? {
        MarkRun(candidate.value, required);
      }
      AllocateIs(start, pool, required, candidate, View());
      address := HandOut(pool, r, candidate, required);
    }

    /** The scan of allocContigFromPool: the first candidate whose whole run fits. */
    method FindRun(r: PoolRange, required: nat) returns (c: Option<nat>)
      requires Valid() && r.start < r.end <= FRAME_COUNT
      ensures c == Scan(used, r, required, 0)
      ensures c.Some? ==> c.value + required <= FRAME_COUNT
    {
      for scanned := 0 to r.end - r.start
        invariant Scan(used, r, required, scanned) == Scan(used, r, required, 0)
      {
        CandidateIsCyclic(r, scanned);
        var candidate := r.start + (Home(r) - r.start + scanned) % (r.end - r.start);
        if candidate + required > r.end {
          continue;
        }
        var fits := RunIsFree(candidate, required);
        if fits {
          return Some(candidate);
        }
      }
      c := None;
    }

    method RunIsFree(candidate: nat, required: nat) returns (fits: bool)
      requires Valid() && candidate + required <= FRAME_COUNT
      ensures fits <==> forall f | candidate <= f < candidate + required :: !used[f]
    {
      for offset := 0 to required
        invariant forall f | candidate <= f < candidate + offset :: !used[f]
      {
        var free := FrameIsFree(candidate + offset);
        if !free {
          assert used[candidate + offset];
          return false;
        }
      }
      fits := true;
    }

    method FrameIsFree(frame: nat) returns (free: bool)
      requires Valid() && frame < FRAME_COUNT
      ensures free == !used[frame]
    {
      var bit := BitmapIsUsed(frame);
      var backed := IsUsableDRAMAddress(base + frame * 4096);
      UsableFrameAt(base, frame);
      free := !bit && backed;
    }

    method MarkRun(candidate: nat, required: nat)
      requires Valid() && candidate + required <= FRAME_COUNT
      modifies this`used, bitmap
      ensures Valid() && used == MarkUsed(old(used), candidate, required)
    {
      assert used == MarkUsed(used, candidate, 0);
      for offset := 0 to required
        invariant Valid() && used == MarkUsed(old(used), candidate, offset)
      {
        UsedFramesMove(bitmap[..], usable, candidate + offset);
        BitmapSetUsed(candidate + offset);
        used := used[candidate + offset := true];
        assert used == MarkUsed(old(used), candidate, offset + 1);
      }
    }
  }

  /** A bitmap that marks just the unusable frames leaves just them used. */
  lemma BootUsed(base: nat, bits: seq<bv8>, usable: seq<bool>)
    requires |bits| == BITMAP_BYTES && usable == UsableFrames(base)
    requires forall f | 0 <= f < FRAME_COUNT :: BitSet(bits, f) <==> !IsUsable(base, base + f * 4096)
    ensures UsedFrames(bits, usable) == Unbacked(usable)
  {
    forall f | 0 <= f < FRAME_COUNT ensures usable[f] == IsUsable(base, base + f * 4096) {
      UsableFrameAt(base, f);
    }
  }

  lemma MaskInFullByte(bit: nat)
    requires bit < 8
    ensures 0xFF & Mask(bit) != 0
  {
    MaskValues();
  }

  /** With an aligned base, testing the address and testing the offset agree. */
  lemma AlignedOffset(base: nat, address: nat)
    requires base % 4096 == 0 && base <= address
    ensures address % 4096 == 0 <==> base + (address - base) / 4096 * 4096 == address
  {
    var q := (address - base) / 4096;
    assert address == base / 4096 * 4096 + q * 4096 + (address - base) % 4096;
    assert address == (base / 4096 + q) * 4096 + (address - base) % 4096;
  }

  /** Nothing is handed out at boot, and both cursors are packed. */
  lemma BootState(base: nat)
    requires base % 4096 == 0
    ensures var fr := BootFrames(base);
            && fr.Ok() && fr.Live(PhysicalMemory.Kernel) == {} && fr.Live(PhysicalMemory.User) == {}
            && PackedBelowCursor(fr, PhysicalMemory.User)
            && fr.base == base && fr.kernel == PoolRange(32, 68, 32) && fr.user == PoolRange(68, 104, 68)
            && forall f | 0 <= f < FRAME_COUNT :: fr.used[f] != IsUsable(base, base + f * 4096)
  {
  }

  /** At the default base every frame past the boot reserve is usable. */
  lemma DefaultBaseIsAllUsable(frame: nat)
    requires BOOT_FRAMES <= frame < FRAME_COUNT
    ensures UsableFrames(DEFAULT_BASE)[frame]
  {
    UsableAddresses(DEFAULT_BASE, DEFAULT_BASE + frame * 4096);
  }

  // ----- what every run of the allocator keeps -----

  /** The pools stand where initMemoryPools put them, over the frames the region map allows, and the user
      pool is packed below its cursor. */
  ghost predicate PoolsOk(fr: Frames) {
    && fr.Ok() && fr.usable == UsableFrames(fr.base)
    && fr.kernel.start == BOOT_FRAMES && fr.kernel.end == POOL_SPLIT
    && fr.user.start == POOL_SPLIT && fr.user.end == FRAME_COUNT
    && PackedBelowCursor(fr, PhysicalMemory.User)
  }

  lemma AllocateKeepsPools(fr: Frames, pool: Pool, n: nat)
    requires PoolsOk(fr) && (pool == PhysicalMemory.User ==> n == 1)
    ensures PoolsOk(Allocate(fr, pool, n).0) && Allocate(fr, pool, n).0.base == fr.base
  {
    AllocationIsNextFit(fr, pool, n);
    if pool == PhysicalMemory.User {
      SinglePagesComeLowestFirst(fr, pool);
    } else {
      AllocateKeepsOtherPacked(fr, PhysicalMemory.User, pool, n);
    }
  }

  lemma ReleaseKeepsPools(fr: Frames, pool: Pool, address: nat)
    requires PoolsOk(fr)
    ensures PoolsOk(Release(fr, pool, address).0) && Release(fr, pool, address).0.base == fr.base
  {
    ReleaseReturnsOnePage(fr, pool, address);
    ReleaseKeepsPacked(fr, PhysicalMemory.User, pool, address);
  }

  /** Whatever the base, every page of a pool is usable DRAM past the boot reserve. */
  lemma LivePagesAreUsable(fr: Frames, pool: Pool, address: int)
    requires PoolsOk(fr) && address in fr.Live(pool)
    ensures fr.base + BOOT_RESERVE_SIZE <= address < fr.base + PHYSICAL_MEMORY_SIZE && IsUsable(fr.base, address)
  {
    UsableFrameAt(fr.base, fr.FrameOf(address).value);
    UsableAddresses(fr.base, address);
  }
}
