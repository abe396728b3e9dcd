/** Page frames of phase2_memory.go as values: the region map, the two pools and next-fit search. */
module PhysicalMemory {
  import opened Common

  // The figures of the memory map, written out so that the verifier sees linear terms; Geometry
  // ties them together where the pools are laid out.
  const PAGE_SIZE: nat := 4096
  const PHYSICAL_MEMORY_SIZE: nat := 416 * 1024
  const BOOT_RESERVE_SIZE: nat := 128 * 1024
  const FRAME_COUNT: nat := 104
  const BITMAP_BYTES: nat := 13
  const BOOT_FRAMES: nat := 32
  const POOL_SPLIT: nat := 68
  const DEFAULT_BASE: nat := 0x3FC8_8000

  lemma Geometry()
    ensures PAGE_SIZE == 4 * 1024 && FRAME_COUNT == PHYSICAL_MEMORY_SIZE / PAGE_SIZE
    ensures BITMAP_BYTES == FRAME_COUNT / 8 && BOOT_FRAMES == BOOT_RESERVE_SIZE / PAGE_SIZE
    ensures POOL_SPLIT == BOOT_FRAMES + (FRAME_COUNT - BOOT_FRAMES) / 2
  {
  }

  // ----- region map -----

  datatype RegionKind = ROM | IRAM | DRAM | Peripheral
  datatype Region = Region(start: nat, end: nat, kind: RegionKind, reserved: bool)

  function MemoryMap(base: nat): seq<Region> {
    [Region(0x4000_0000, 0x4008_0000, ROM, true),
     Region(0x4037_0000, 0x403E_0000, IRAM, true),
     Region(0x6000_0000, 0x6100_0000, Peripheral, true),
     Region(base, base + BOOT_RESERVE_SIZE, DRAM, true),
     Region(base + BOOT_RESERVE_SIZE, base + PHYSICAL_MEMORY_SIZE, DRAM, false)]
  }

  predicate InRegion(address: nat, region: Region) {
    region.start <= address < region.end
  }

  /** The first region at or after entry `i` that holds the address. */
  function FindRegion(regions: seq<Region>, address: nat, i: nat): (r: Option<Region>)
    requires i <= |regions|
    ensures r.Some? ==> exists k :: i <= k < |regions| && regions[k] == r.value && InRegion(address, r.value)
    ensures r.None? <==> forall k :: i <= k < |regions| ==> !InRegion(address, regions[k])
    decreases |regions| - i
  {
    if i == |regions| then None
    else if InRegion(address, regions[i]) then Some(regions[i])
    else FindRegion(regions, address, i + 1)
  }

  predicate UsableRegion(r: Option<Region>) {
    r.Some? && r.value.kind == DRAM && !r.value.reserved
  }

  predicate IsUsable(base: nat, address: nat) {
    UsableRegion(FindRegion(MemoryMap(base), address, 0))
  }

  /** Usable memory is the DRAM window past the boot reserve, minus any fixed region laid over it. */
  lemma UsableAddresses(base: nat, address: nat)
    ensures IsUsable(base, address) <==>
            && base + BOOT_RESERVE_SIZE <= address < base + PHYSICAL_MEMORY_SIZE
            && !(0x4000_0000 <= address < 0x4008_0000)
            && !(0x4037_0000 <= address < 0x403E_0000)
            && !(0x6000_0000 <= address < 0x6100_0000)
  {
    var m := MemoryMap(base);
    assert FindRegion(m, address, 5).None?;
    assert FindRegion(m, address, 4) == if InRegion(address, m[4]) then Some(m[4]) else FindRegion(m, address, 5);
    assert FindRegion(m, address, 3) == if InRegion(address, m[3]) then Some(m[3]) else FindRegion(m, address, 4);
    assert FindRegion(m, address, 2) == if InRegion(address, m[2]) then Some(m[2]) else FindRegion(m, address, 3);
    assert FindRegion(m, address, 1) == if InRegion(address, m[1]) then Some(m[1]) else FindRegion(m, address, 2);
  }

  // ----- alignment -----

  function AlignUp(value: nat): (r: nat)
    ensures value <= r < value + PAGE_SIZE && r % 4096 == 0
  {
    (value + (PAGE_SIZE - 1)) / 4096 * 4096
  }

  function PageAlignDown(address: nat): (r: nat)
    ensures r <= address < r + PAGE_SIZE && r % 4096 == 0
  {
    address / 4096 * 4096
  }

  /** The source's masks on 32-bit words compute the two roundings above. */
  lemma AlignmentMasks(v: bv32)
    requires v <= 0xFFFF_F000
    ensures (v + 0xFFF) & !0xFFF == (v + 0xFFF) / 0x1000 * 0x1000
    ensures v & !0xFFF == v / 0x1000 * 0x1000
  {
  }

  // ----- bitmap -----

  function Mask(bit: nat): bv8
    requires bit < 8
  {
    1 << bit
  }

  lemma OneBit(b: bv8, m: bv8, n: bv8)
    requires m in {1, 2, 4, 8, 16, 32, 64, 128} && n in {1, 2, 4, 8, 16, 32, 64, 128}
    ensures (b | m) & n != 0 <==> m == n || b & n != 0
    ensures (b & !m) & n != 0 <==> m != n && b & n != 0
  {
  }

  lemma MaskValues()
    ensures Mask(0) == 1 && Mask(1) == 2 && Mask(2) == 4 && Mask(3) == 8
    ensures Mask(4) == 16 && Mask(5) == 32 && Mask(6) == 64 && Mask(7) == 128
  {
  }

  /** Setting or clearing one bit of a byte moves that bit and no other. */
  lemma MaskMovesOneBit(b: bv8, i: nat, j: nat)
    requires i < 8 && j < 8
    ensures (b | Mask(i)) & Mask(j) != 0 <==> i == j || b & Mask(j) != 0
    ensures (b & !Mask(i)) & Mask(j) != 0 <==> i != j && b & Mask(j) != 0
  {
    MaskValues();
    OneBit(b, Mask(i), Mask(j));
  }

  predicate BitSet(bits: seq<bv8>, frame: nat)
    requires |bits| == BITMAP_BYTES && frame < FRAME_COUNT
  {
    bits[frame / 8] & Mask(frame % 8) != 0
  }

  function WithBit(bits: seq<bv8>, frame: nat): (r: seq<bv8>)
    requires |bits| == BITMAP_BYTES && frame < FRAME_COUNT
    ensures |r| == BITMAP_BYTES
  {
    bits[frame / 8 := bits[frame / 8] | Mask(frame % 8)]
  }

  function WithoutBit(bits: seq<bv8>, frame: nat): (r: seq<bv8>)
    requires |bits| == BITMAP_BYTES && frame < FRAME_COUNT
    ensures |r| == BITMAP_BYTES
  {
    bits[frame / 8 := bits[frame / 8] & !Mask(frame % 8)]
  }

  lemma BitMoves(bits: seq<bv8>, frame: nat, g: nat)
    requires |bits| == BITMAP_BYTES && frame < FRAME_COUNT && g < FRAME_COUNT
    ensures BitSet(WithBit(bits, frame), g) <==> g == frame || BitSet(bits, g)
    ensures BitSet(WithoutBit(bits, frame), g) <==> g != frame && BitSet(bits, g)
  {
    if g / 8 == frame / 8 {
      MaskMovesOneBit(bits[frame / 8], frame % 8, g % 8);
      assert frame == frame / 8 * 8 + frame % 8 && g == g / 8 * 8 + g % 8;
    } else {
      assert WithBit(bits, frame)[g / 8] == bits[g / 8] == WithoutBit(bits, frame)[g / 8];
    }
  }

  /** The frames that cannot be handed out, read off the bitmap and the usable frames. */
  ghost function UsedFrames(bits: seq<bv8>, usable: seq<bool>): (r: seq<bool>)
    requires |bits| == BITMAP_BYTES && |usable| == FRAME_COUNT
    ensures |r| == FRAME_COUNT && forall f | 0 <= f < FRAME_COUNT :: r[f] == (BitSet(bits, f) || !usable[f])
  {
    seq(FRAME_COUNT, f requires 0 <= f < FRAME_COUNT => BitSet(bits, f) || !usable[f])
  }

  lemma UsedFramesMove(bits: seq<bv8>, usable: seq<bool>, frame: nat)
    requires |bits| == BITMAP_BYTES && |usable| == FRAME_COUNT && frame < FRAME_COUNT
    ensures UsedFrames(WithBit(bits, frame), usable) == UsedFrames(bits, usable)[frame := true]
    ensures UsedFrames(WithoutBit(bits, frame), usable) == UsedFrames(bits, usable)[frame := !usable[frame]]
  {
    forall g | 0 <= g < FRAME_COUNT
      ensures BitSet(WithBit(bits, frame), g) <==> g == frame || BitSet(bits, g)
      ensures BitSet(WithoutBit(bits, frame), g) <==> g != frame && BitSet(bits, g)
    {
      BitMoves(bits, frame, g);
    }
  }

  // ----- pools -----

  datatype Pool = Kernel | User
  datatype PoolRange = PoolRange(start: nat, end: nat, cursor: nat)

  /** `used[f]` holds when frame f cannot be handed out: its bit is set or no usable memory backs it. */
  datatype Frames = Frames(base: nat, usable: seq<bool>, used: seq<bool>, kernel: PoolRange, user: PoolRange) {
    function Range(pool: Pool): PoolRange {
      if pool.Kernel? then kernel else user
    }

    function WithCursor(pool: Pool, cursor: nat): Frames {
      if pool.Kernel? then this.(kernel := kernel.(cursor := cursor)) else this.(user := user.(cursor := cursor))
    }

    function Address(frame: nat): nat {
      base + frame * 4096
    }

    ghost predicate Ok() {
      && base % 4096 == 0
      && |used| == |usable| == FRAME_COUNT
      && kernel.start <= kernel.end <= user.start <= user.end <= FRAME_COUNT
      && forall f | 0 <= f < FRAME_COUNT && !usable[f] :: used[f]
    }

    /** The frame whose first byte is at this address, if there is one. */
    function FrameOf(address: int): (f: Option<nat>)
      ensures f.Some? ==> address == Address(f.value) && f.value < FRAME_COUNT
      ensures f.None? ==> forall g: nat | g < FRAME_COUNT :: Address(g) != address
    {
      if address < base || address >= base + PHYSICAL_MEMORY_SIZE then None
      else if base + (address - base) / 4096 * 4096 != address then None
      else Some((address - base) / 4096)
    }

    /** The page at this address is handed out from this pool. */
    ghost predicate IsLive(pool: Pool, address: int) {
      var f := FrameOf(address);
      && f.Some?
      && Range(pool).start <= f.value < Range(pool).end
      && f.value < |used| && f.value < |usable|
      && usable[f.value] && used[f.value]
    }

    ghost function Live(pool: Pool): set<int> {
      set a | base <= a < base + PHYSICAL_MEMORY_SIZE && IsLive(pool, a)
    }
  }

  predicate IsPageOf(page: int, address: nat, count: nat) {
    address <= page < address + count * 4096 && page == address + (page - address) / 4096 * 4096
  }

  /** The pages of a block of `count` pages. */
  ghost function Pages(address: nat, count: nat): set<int> {
    set a | address <= a < address + count * 4096 && IsPageOf(a, address, count)
  }

  lemma OnePage(address: nat)
    ensures Pages(address, 1) == {address}
  {
  }

  // ----- next-fit search -----

  /** Where a scan of the pool begins. */
  function Home(r: PoolRange): nat {
    if r.cursor < r.start || r.cursor >= r.end then r.start else r.cursor
  }

  /** The frame `k` steps after the cursor, wrapping around the pool. */
  function Candidate(r: PoolRange, k: nat): (c: nat)
    requires k < r.end - r.start
    ensures r.start <= c < r.end
  {
    if Home(r) + k < r.end then Home(r) + k else Home(r) + k - (r.end - r.start)
  }

  /** Inverse of Candidate: how many steps after the cursor a frame lies. */
  function Distance(r: PoolRange, frame: nat): (k: nat)
    requires r.start <= frame < r.end
    ensures k < r.end - r.start && Candidate(r, k) == frame
  {
    if frame >= Home(r) then frame - Home(r) else frame + (r.end - r.start) - Home(r)
  }

  /** The source's modular formula visits the candidates in that order. */
  lemma CandidateIsCyclic(r: PoolRange, k: nat)
    requires k < r.end - r.start
    ensures r.start + (Home(r) - r.start + k) % (r.end - r.start) == Candidate(r, k)
    ensures Distance(r, Candidate(r, k)) == k
  {
    WrapOnce(Home(r) - r.start + k, r.end - r.start);
  }

  lemma WrapOnce(x: int, n: int)
    requires 0 <= x < n + n
    ensures x % n == if x < n then x else x - n
  {
    var q := x / n;
    assert x == n * q + x % n;
    assert q <= -1 ==> n * (q + 1) <= 0;
    assert q >= 2 ==> n * (q - 2) >= 0;
  }

  /** A run of `n` frames from `c` is free and stays below `end`. */
  ghost predicate Fits(used: seq<bool>, c: nat, n: nat, end: nat) {
    c + n <= end <= |used| && forall j | c <= j < c + n :: !used[j]
  }

  /** The first fit at `k` or more steps after the cursor. */
  ghost function Scan(used: seq<bool>, r: PoolRange, n: nat, k: nat): (c: Option<nat>)
    requires r.start < r.end
    decreases r.end - r.start - k
  {
    if k >= r.end - r.start then None
    else if Fits(used, Candidate(r, k), n, r.end) then Some(Candidate(r, k))
    else Scan(used, r, n, k + 1)
  }

  lemma {:induction false} ScanFindsNearest(used: seq<bool>, r: PoolRange, n: nat, k: nat)
    requires r.start < r.end && k <= r.end - r.start
    ensures var c := Scan(used, r, n, k);
            if c.Some? then
              && r.start <= c.value < r.end && Fits(used, c.value, n, r.end) && k <= Distance(r, c.value)
              && forall g | r.start <= g < r.end && Fits(used, g, n, r.end) && k <= Distance(r, g) ::
                   Distance(r, c.value) <= Distance(r, g)
            else forall g | r.start <= g < r.end && k <= Distance(r, g) :: !Fits(used, g, n, r.end)
    decreases r.end - r.start - k
  {
    if k < r.end - r.start {
      CandidateIsCyclic(r, k);
      ScanFindsNearest(used, r, n, k + 1);
    }
  }

  ghost function NextFit(used: seq<bool>, r: PoolRange, n: nat): Option<nat> {
    if n == 0 || r.end <= r.start || n > r.end - r.start then None else Scan(used, r, n, 0)
  }

  function Wrap(r: PoolRange, next: nat): nat {
    if next >= r.end then r.start else next
  }

  ghost function MarkUsed(used: seq<bool>, c: nat, n: nat): (r: seq<bool>)
    ensures |r| == |used| && forall f | 0 <= f < |used| :: r[f] == (used[f] || c <= f < c + n)
  {
    seq(|used|, f requires 0 <= f < |used| => used[f] || c <= f < c + n)
  }

  // ----- allocation and release -----

  /** The frames after a run is handed out: marked, with the cursor just past it. */
  ghost function Taken(fr: Frames, pool: Pool, c: nat, n: nat): Frames {
    fr.(used := MarkUsed(fr.used, c, n)).WithCursor(pool, Wrap(fr.Range(pool), c + n))
  }

  /** Both allocators: a single page is a run of one. */
  ghost function Allocate(fr: Frames, pool: Pool, n: nat): (Frames, Option<nat>) {
    var c := NextFit(fr.used, fr.Range(pool), n);
    if c.None? then (fr, None) else (Taken(fr, pool, c.value, n), Some(fr.Address(c.value)))
  }

  ghost function Release(fr: Frames, pool: Pool, address: nat): (Frames, bool) {
    if !fr.IsLive(pool, address) then (fr, false)
    else
      var frame := fr.FrameOf(address).value;
      var r := fr.Range(pool);
      var freed := fr.(used := fr.used[frame := false]);
      var moves := r.cursor < r.start || r.cursor >= r.end || frame < r.cursor;
      (if moves then freed.WithCursor(pool, frame) else freed, true)
  }

  /** An allocation fails exactly when the pool has no free usable run of that length; otherwise it takes
      the first one at or after the cursor, marks those pages and touches nothing else. */
  lemma AllocationIsNextFit(fr: Frames, pool: Pool, n: nat)
    requires fr.Ok()
    ensures var r := fr.Range(pool); var (fr', a) := Allocate(fr, pool, n);
            && fr'.Ok()
            && (a.None? <==> n == 0 || forall c | r.start <= c < r.end :: !Fits(fr.used, c, n, r.end))
            && (a.None? ==> fr' == fr)
            && (a.Some? ==>
                  exists c | r.start <= c && Fits(fr.used, c, n, r.end) ::
                    && a.value == fr.Address(c)
                    && c < r.end
                    && forall g | r.start <= g < r.end && Fits(fr.used, g, n, r.end) ::
                       Distance(r, c) <= Distance(r, g))
  {
    var r := fr.Range(pool);
    if n > 0 && r.start < r.end && n <= r.end - r.start {
      ScanFindsNearest(fr.used, r, n, 0);
      var c := Scan(fr.used, r, n, 0);
      if c.Some? {
        assert r.start <= c.value && Fits(fr.used, c.value, n, r.end);
      }
    }
  }

  lemma FrameAddressesAreAligned(base: nat, frame: nat)
    requires base % 4096 == 0
    ensures (base + frame * 4096) % 4096 == 0
  {
    assert base + frame * 4096 == (base / 4096 + frame) * 4096;
  }

  /** A block lies on a page boundary inside the managed window. */
  lemma AllocateStaysInWindow(fr: Frames, pool: Pool, n: nat)
    requires fr.Ok()
    ensures var (fr', a) := Allocate(fr, pool, n);
            a.Some? ==>
              && n > 0 && a.value % 4096 == 0
              && fr.base <= a.value && a.value + n * 4096 <= fr.base + PHYSICAL_MEMORY_SIZE
  {
    if Allocate(fr, pool, n).1.Some? {
      ScanFindsNearest(fr.used, fr.Range(pool), n, 0);
      var c := Scan(fr.used, fr.Range(pool), n, 0).value;
      FrameAddressesAreAligned(fr.base, c);
    }
  }

  /** What an allocation does to the pages handed out. */
  lemma AllocateTakesFreshPages(fr: Frames, pool: Pool, n: nat)
    requires fr.Ok()
    ensures var (fr', a) := Allocate(fr, pool, n);
            a.Some? ==>
              && Pages(a.value, n) !! fr.Live(Kernel) + fr.Live(User)
              && fr'.Live(pool) == fr.Live(pool) + Pages(a.value, n)
              && forall other | other != pool :: fr'.Live(other) == fr.Live(other)
  {
    var (fr', a) := Allocate(fr, pool, n);
    if a.Some? {
      forall p: int, any: Pool
        ensures p in Pages(a.value, n) ==> p !in fr.Live(any)
        ensures p in fr'.Live(any) <==> p in fr.Live(any) || (any == pool && p in Pages(a.value, n))
      {
        AllocatePagewise(fr, pool, n, p, any);
      }
    }
  }

  /** A page just handed out can be given back. */
  lemma FreshPageIsLive(fr: Frames, pool: Pool)
    requires fr.Ok() && Allocate(fr, pool, 1).1.Some?
    ensures var (fr', a) := Allocate(fr, pool, 1);
            fr'.Ok() && a.value in fr'.Live(pool) && Release(fr', pool, a.value).1
  {
    AllocationIsNextFit(fr, pool, 1);
    AllocateTakesFreshPages(fr, pool, 1);
    OnePage(Allocate(fr, pool, 1).1.value);
  }

  lemma AllocatePagewise(fr: Frames, pool: Pool, n: nat, p: int, any: Pool)
    requires fr.Ok() && Allocate(fr, pool, n).1.Some?
    ensures var (fr', a) := Allocate(fr, pool, n);
            && (p in Pages(a.value, n) ==> fr.FrameOf(p).Some? && fr.usable[fr.FrameOf(p).value] && p !in fr.Live(any))
            && (p in fr'.Live(any) <==> p in fr.Live(any) || (any == pool && p in Pages(a.value, n)))
  {
    var (fr', a) := Allocate(fr, pool, n);
    ScanFindsNearest(fr.used, fr.Range(pool), n, 0);
    var c := Scan(fr.used, fr.Range(pool), n, 0).value;
    PageOfRun(fr, c, n, p);
    assert fr'.FrameOf(p) == fr.FrameOf(p);
    if p in Pages(a.value, n) {
      assert !fr.used[fr.FrameOf(p).value];
    }
  }

  /** The pages of a run of frames are the addresses of those frames. */
  lemma PageOfRun(fr: Frames, c: nat, n: nat, p: int)
    requires c + n <= FRAME_COUNT
    ensures p in Pages(fr.Address(c), n) <==> fr.FrameOf(p).Some? && c <= fr.FrameOf(p).value < c + n
  {
    if p in Pages(fr.Address(c), n) {
      var i := (p - fr.Address(c)) / 4096;
      assert p == fr.Address(c + i);
    } else if fr.FrameOf(p).Some? && c <= fr.FrameOf(p).value < c + n {
      assert (p - fr.Address(c)) / 4096 == fr.FrameOf(p).value - c;
      assert IsPageOf(p, fr.Address(c), n);
    }
  }

  /** A page can be given back exactly when it is out, and giving it back removes only that page. */
  lemma ReleaseReturnsOnePage(fr: Frames, pool: Pool, address: nat)
    requires fr.Ok()
    ensures var (fr', ok) := Release(fr, pool, address);
            && (ok <==> address in fr.Live(pool))
            && fr'.Ok() && fr'.base == fr.base
            && fr'.Live(pool) == fr.Live(pool) - {address}
            && forall other | other != pool :: fr'.Live(other) == fr.Live(other)
  {
    var (fr', ok) := Release(fr, pool, address);
    if ok {
      var frame := fr.FrameOf(address).value;
      forall p: int, any: Pool | p != address ensures fr'.IsLive(any, p) == fr.IsLive(any, p) {
        assert fr'.FrameOf(p) == fr.FrameOf(p);
      }
      forall any: Pool ensures !fr'.IsLive(any, address) {
        assert fr'.FrameOf(address) == fr.FrameOf(address);
      }
      forall other | other != pool ensures !fr.IsLive(other, address) {
      }
    }
  }

  // ----- the cursor -----

  function Other(pool: Pool): Pool {
    if pool.Kernel? then User else Kernel
  }

  /** After an allocation the cursor stands right behind the run, or at the start of the pool when the run ends it.
      Nothing else changes but the marks of the run's frames. */
  lemma AllocationMovesCursor(fr: Frames, pool: Pool, n: nat)
    requires fr.Ok() && Allocate(fr, pool, n).1.Some?
    ensures var r := fr.Range(pool); var (fr', a) := Allocate(fr, pool, n); var c := (a.value - fr.base) / 4096;
            && r.start <= c && c + n <= r.end
            && fr'.Range(pool) == r.(cursor := if c + n == r.end then r.start else c + n)
            && fr'.Range(Other(pool)) == fr.Range(Other(pool)) && fr'.base == fr.base && fr'.usable == fr.usable
            && |fr'.used| == |fr.used| && forall f | 0 <= f < |fr.used| :: fr'.used[f] == (fr.used[f] || c <= f < c + n)
  {
    ScanFindsNearest(fr.used, fr.Range(pool), n, 0);
  }

  /** After a page is given back the cursor stands at it if it stood higher, or outside the pool; the mark of that frame
      is gone and nothing else changes. A page given back below the cursor is the next single page handed out. */
  lemma ReleaseMovesCursor(fr: Frames, pool: Pool, address: nat)
    requires fr.Ok() && Release(fr, pool, address).1
    ensures var r := fr.Range(pool); var fr' := Release(fr, pool, address).0; var f := (address - fr.base) / 4096;
            && r.start <= f < r.end <= |fr.used|
            && fr'.Range(pool) == r.(cursor := if r.start <= r.cursor <= f then r.cursor else f)
            && fr'.Range(Other(pool)) == fr.Range(Other(pool)) && fr'.base == fr.base && fr'.usable == fr.usable
            && fr'.used == fr.used[f := false]
            && (r.cursor > f ==> Allocate(fr', pool, 1).1 == Some(address))
  {
    var fr' := Release(fr, pool, address).0;
    var r, f := fr'.Range(pool), (address - fr.base) / 4096;
    if fr.Range(pool).cursor > f {
      assert Candidate(r, 0) == f && Fits(fr'.used, f, 1, r.end);
    }
  }

  // ----- lowest address first -----

  /** No frame below the pool's cursor is free. */
  ghost predicate PackedBelowCursor(fr: Frames, pool: Pool) {
    var r := fr.Range(pool);
    && r.start <= r.cursor < r.end <= |fr.used|
    && forall f | r.start <= f < r.cursor :: fr.used[f]
  }

  /** As long as a pool serves single pages its next-fit cursor never skips a free frame,
      so every allocation returns the lowest free one. */
  lemma SinglePagesComeLowestFirst(fr: Frames, pool: Pool)
    requires fr.Ok() && PackedBelowCursor(fr, pool)
    ensures var (fr', a) := Allocate(fr, pool, 1);
            && PackedBelowCursor(fr', pool)
            && (a.Some? ==> forall f | fr.Range(pool).start <= f < fr.Range(pool).end && !fr.used[f] ::
                  a.value <= fr.Address(f))
  {
    var (fr', a) := Allocate(fr, pool, 1);
    var r := fr.Range(pool);
    if a.Some? {
      ScanFindsNearest(fr.used, r, 1, 0);
      var c := Scan(fr.used, r, 1, 0).value;
      forall f | r.start <= f < r.end && !fr.used[f] ensures c <= f {
        assert Fits(fr.used, f, 1, r.end);
        assert Distance(r, c) <= Distance(r, f);
      }
      assert a.value == fr.Address(c);
    }
  }

  lemma ReleaseKeepsPacked(fr: Frames, pool: Pool, from: Pool, address: nat)
    requires fr.Ok() && PackedBelowCursor(fr, pool)
    ensures PackedBelowCursor(Release(fr, from, address).0, pool)
  {
    var (fr', ok) := Release(fr, from, address);
    if ok && from != pool {
      var frame := fr.FrameOf(address).value;
      assert !(fr.Range(pool).start <= frame < fr.Range(pool).end);
    }
  }

  /** The other pool's traffic does not disturb a packed pool. */
  lemma AllocateKeepsOtherPacked(fr: Frames, pool: Pool, from: Pool, n: nat)
    requires fr.Ok() && PackedBelowCursor(fr, pool) && from != pool
    ensures PackedBelowCursor(Allocate(fr, from, n).0, pool)
  {
  }
}
