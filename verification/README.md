# Windmills kernel: a verified model

Windmills is a small xv6-style kernel for the ESP32-S3. Its logic is almost all host-independent Go over fixed-size
tables. This project models four subsystems of `cmd/kernel` and the boot log, and proves what holds over their runs.

* **Physical memory** (`phase2_memory.go`): the region map, the frame bitmap with its two pools and next-fit cursors, the
  tracked runtime heap, realloc, and the clear and copy loops.
  Modules `PhysicalMemory`, `FrameAllocator`, `Ram`, `HeapModel`, `RuntimeHeap`, `HeapLife`.
* **Virtual memory** (`phase5_vm.go`): per-process page tables, owned mappings, stack growth by faults, copyin and copyout.
  Modules `VmModel`, `VmProofs`, `Loops`, `Isolation`, `Capacity`.
* **Processes and scheduler** (`phase1_kernel.go`): fork, exit, wait, yield, kill, tick and round-robin pick.
  Modules `ProcessModel`, `Scheduling`, `Ownership`, `Room`, `Machine`, `Runs`, `Reachability`, `Deadlock`, `DeadlockRun`,
  `DeadlockExact`, `Calls`, `History`, and `Kernel`, which also holds the address-space code.
* **Filesystem** (`phase6_fs.go`): inodes, directories, paths, link counts, descriptors and file contents.
  Modules `Paths`, `FsModel`, `FsInvariant`, `FsUnlink`, `Walks`, `Relative`, `Namespace`, `Unlinking`, `Naming`, `Files`, `FsBoot`,
  `BootTree`, `FileRuns`, `FileCalls`, `FileTransfers`, `FileBytes`, `UserFiles`, `FileStore`.
* **Boot log** (`consoleIO.go`): the ring buffer and its dump. Module `ConsoleLog`.

## How it is built

The source changes tables in place, and so does the model: the classes `RingLog`, `Allocator`, `Bytes`, `KernelHeap`,
`Kernel`, `Store` and `ProcessFiles` hold the source's globals and records, and their methods keep its loops, branches and
early returns. Each method is proved equal to a function of the old state (`Allocate`, `Release`, `HeapFree`, `CopyOut`,
`Fork`, `CreateIn`, `SysUnlink`, and so on). The theorems are then about those functions, over every input and every run.

A run of the kernel (`Machine`) is any sequence of system calls, ticks, returns from entry functions, user reads and
writes, stack growth, page loads and heap traffic. An entry function is thus an arbitrary program, and the panics that
carry yield, preemption and exit are outcomes of a step. A step that panics the kernel for good is counted as not taken, so
that a run can be followed past it. A run of the filesystem (`FileRuns`) is any sequence of calls by
any processes, starting from nothing, since the tree is built by the first call that needs it.

The main results:

* Over every run the pages out of each pool are exactly what the process table, the page tables and the heap hold, each
  once, so nothing leaks and nothing is handed out twice. A step panics exactly when the heap is asked for a block and no
  run of pages is free, or realloc gets an address that is not tracked; no page ever fails to be freed
  (`Runs.EveryRunPartitionsMemory`; the panics on the undo paths of process creation and stack growth are excluded by the
  precondition of `Kernel.Kernel.GiveBack`).
* From any cursor an allocation fails only when no free run exists; otherwise it takes the nearest one in cyclic order
  (`PhysicalMemory.AllocationIsNextFit`). In the user pool, which hands out single pages, that is the lowest free page
  after every run (`Runs.UserPagesComeLowestFirst`).
* Realloc moves a block, keeps what fits, zeroes the rest and touches nothing else (`HeapModel.ReallocKeepsContents`); from
  alloc to realloc, through any run that does not free it, a block keeps its pages and its bytes
  (`HeapLife.BlockKeepsItsBytes`). The copy loop is right for every overlap (`Ram.Bytes.CopyMemory`).
* What a user copy writes is read back, across pages and stack growth, and no other process, kernel stack or heap block
  sees it (`Isolation`). Whether it succeeds can be told before it starts (`VmProofs.CopyOutSucceedsIff`), and the process
  is marked faulted exactly when it does not (`VmProofs.CopyOutMarks`).
* While new processes name older parents, `schedulerRun` stops only when every slot is unused or a zombie
  (`Deadlock.NoDeadlock`). Exactly when a creation keeps the kernel free of deadlock is known for every parent and every
  amount of room (`DeadlockExact.DeadlockFreeIff`). A ready slot is picked within 16
  picks (`History.RunnableSlotIsDispatched`), and pids, deaths and waits come in a lawful order
  (`History.EveryHistoryIsLawful`).
* Every process call's answer and effect is told from the state before it (`Calls`), and over any run wait answers the pids
  of the caller's dead children, no pid twice (`History.AnswersAreLawful`, `History.WaitAnswersTheDead`).
* The filesystem's invariant holds after every call of every run (`FileRuns.EveryRunKeepsFiles`): ids are distinct, no entry
  dangles, names are unique in a directory, link counts are exact, every directory has one name, in its parent. Every inode
  is reachable from the root (`Walks.EveryInodeReachable`).
* What every path resolves to before and after a creation, a link or an unlink is related exactly, hard links included
  (`Naming.CreatePathEffect`, `Naming.LinkEffect`, `Unlinking.UnlinkEffect`). A failed unlink changes nothing that can be
  seen.
* Every file call succeeds exactly when a condition on the state before it holds, and its whole effect is told (`FileCalls`,
  `FileTransfers`): mkdir, open with its mode bits, chdir, link, unlink, close, read and write. After chdir to `dir`, the
  path `rel` names what `dir/rel` named (`FileCalls.ChdirEffect`).
* A descriptor kept through any run denotes the inode it was opened on or nothing, never a later inode in the same slot
  (`FileRuns.HandlesNeverGoStale`).
* What is written through one descriptor is what another reads, in any chunk sizes (`FileBytes.WrittenIsRead`),
  from open to open (`FileTransfers.OpenWriteOpenRead`), and bytes
  pass through a file from one process's memory into another's exactly when the reader's buffers are writable as far as the
  bytes go (`UserFiles.MemoryThroughFile`).

## Where the obvious claim is false

* Faults grow a stack by one page only: from then on the page that could be added is the guard page, and `vmHandleFault`
  rejects it first. `VmProofs.FaultGrowsOnlyAnEmptyStack` says exactly when a fault grows a stack. The repository's
  `README.md` speaks of lazy stack growth; the model follows the code.
* `README.md` says `exit` reparents children and closes descriptors; `processExit` does neither. Deadlock freedom is
  therefore about slots that are unused or zombies, and needs every new process to name an older parent. Fork and bootstrap
  do; `processCreateKernel` takes any parent. With room for two processes, a creation leaves the kernel free of deadlock
  exactly when the parent it names is already numbered (`DeadlockRun.DeadlockFreeIffParentNumbered`): for a later number
  the new process can spend pids on children until one of them has its parent's number, and then both wait for each other
  (`DeadlockRun.LaterParentGetsStuck`). Only help from outside wakes them (`Deadlock.StuckForGood`), and the freshly booted
  kernel is such a state (`DeadlockRun.BootCanDeadlock`). With less room the condition is another
  (`DeadlockExact.DeadlockFreeIff`): without room nothing is created; with room for one, a process that is not its own
  parent does harm exactly when room for a second can be made, by freeing heap blocks or by a living process reaping a
  child. Boot leads to a kernel where it cannot (`DeadlockExact.FullTableIsSafe`).
* An entry called ".." can be created, linked and unlinked, but walking never takes it: lookup and creation agree exactly
  on the names other than ".." (`Walks.LookupAgreesUnlessDotDot`, `Naming.CreatePathEffect`,
  `FsBoot.DotDotIsMadeButNotFound`).
* `x/..` comes back exactly when `x` was created in the directory it was reached from, as every directory was
  (`Walks.DownAndUp`).
* The repository's `README.md` speaks of an 8 MiB window; the code manages 416 KiB, and the model follows the code.
* The page-frame test is on absolute alignment, so the physical base must be page aligned (`FrameAllocator.AlignedOffset`
  and the constructor's precondition). The default base is.

## Model

| member | source | states |
|---|---|---|
| ConsoleLog.RingLog.constructor | cmd/kernel/consoleIO.go:63-65 | the log starts empty |
| ConsoleLog.RingLog.Append | cmd/kernel/consoleIO.go:157-166 | the circular buffer, write index and full flag are those of storing the bytes one by one, and the ring holds the last 8192 bytes of everything appended since the last successful dump |
| ConsoleLog.RingLog.Dump | cmd/kernel/consoleIO.go:171-187 | a dump succeeds iff the port accepts all the ring holds; then the port got exactly those bytes, oldest first, and the log is empty; a failed dump keeps the stored log and sends a prefix |
| ConsoleLog.RingStep | cmd/kernel/consoleIO.go:157-166 | storing one byte and advancing with wrap-around keeps the ring equal to the last 8192 bytes |
| ConsoleLog.PutAllKeepsLast | cmd/kernel/consoleIO.go:157-166 | storing any bytes one after the other leaves the last 8192 of what the ring held and them |
| ConsoleLog.RingRefinesLog | cmd/kernel/consoleIO.go:157-187 | over every history of appends and dumps the circular buffer, read from its write index as the full flag says, is the tail of the unbounded log |
| PhysicalMemory.UsableAddresses | cmd/kernel/phase2_memory.go:110-119 | an address is usable iff it lies in the DRAM window past the boot reserve and in none of the fixed regions, which win over it |
| PhysicalMemory.AlignmentMasks | cmd/kernel/phase2_memory.go:159-165 | the source's mask formulas round up and down to a page |
| PhysicalMemory.BitMoves | cmd/kernel/phase2_memory.go:181-197 | setting or clearing a frame's bit changes that frame's bit and no other |
| PhysicalMemory.CandidateIsCyclic | cmd/kernel/phase2_memory.go:276-280 | the modular formula of the scan visits the pool in cyclic order from the cursor, each frame once |
| PhysicalMemory.ScanFindsNearest | cmd/kernel/phase2_memory.go:265-369 | the scan returns the free run nearest after the cursor, and none only when there is none |
| PhysicalMemory.AllocationIsNextFit | cmd/kernel/phase2_memory.go:265-369 | an allocation of any length fails iff the pool has no free usable run of it; otherwise it takes the nearest after the cursor |
| PhysicalMemory.AllocateStaysInWindow | cmd/kernel/phase2_memory.go:265-369 | what is handed out is page aligned and inside the managed window |
| PhysicalMemory.AllocateTakesFreshPages | cmd/kernel/phase2_memory.go:318-369 | an allocation adds exactly its pages to the pool's live pages, none of which was out in either pool; the other pool is untouched |
| PhysicalMemory.ReleaseReturnsOnePage | cmd/kernel/phase2_memory.go:298-316 | freeing succeeds iff the page is out in that pool, and takes exactly that page off its live pages |
| PhysicalMemory.SinglePagesComeLowestFirst | cmd/kernel/phase2_memory.go:265-296 | while all frames below the cursor are used, a single-page allocation returns the lowest free frame and keeps it so |
| PhysicalMemory.ReleaseKeepsPacked | cmd/kernel/phase2_memory.go:298-316 | freeing in either pool keeps all frames below the cursor used |
| PhysicalMemory.AllocateKeepsOtherPacked | cmd/kernel/phase2_memory.go:318-369 | allocating in one pool keeps the other packed below its cursor |
| PhysicalMemory.AllocationMovesCursor | cmd/kernel/phase2_memory.go:265-369 | after an allocation the cursor stands behind the run, or at the start of the pool when the run ends it; nothing else changes but the marks of the run |
| PhysicalMemory.ReleaseMovesCursor | cmd/kernel/phase2_memory.go:298-316 | a page given back below the cursor pulls it down and is the next single page handed out; nothing else changes but its mark |
| FrameAllocator.Allocator.constructor | cmd/kernel/phase2_memory.go:530-538 | the allocator starts with the five regions, a clear bitmap past the reserve and two half pools |
| FrameAllocator.Allocator.BuildMemoryMap | cmd/kernel/phase2_memory.go:110-119 | the table holds the five regions in order |
| FrameAllocator.Allocator.FindMemoryRegion | cmd/kernel/phase2_memory.go:125-133 | the first region of the table that holds the address |
| FrameAllocator.Allocator.IsUsableDRAMAddress | cmd/kernel/phase2_memory.go:140-143 | the first region that holds the address is unreserved DRAM |
| FrameAllocator.Allocator.BitmapSetUsed | cmd/kernel/phase2_memory.go:181-185 | the new bitmap is the old one with that frame's bit |
| FrameAllocator.Allocator.BitmapSetFree | cmd/kernel/phase2_memory.go:187-191 | the new bitmap is the old one without that frame's bit |
| FrameAllocator.Allocator.BitmapIsUsed | cmd/kernel/phase2_memory.go:193-197 | answers whether the frame's bit is set |
| FrameAllocator.Allocator.InitBitmap | cmd/kernel/phase2_memory.go:199-211 | exactly the unusable frames are marked |
| FrameAllocator.Allocator.InitMemoryPools | cmd/kernel/phase2_memory.go:213-227 | the frames past the reserve are split in half, each cursor at its pool's start |
| FrameAllocator.Allocator.AllocPageFromPool | cmd/kernel/phase2_memory.go:265-296 | the state and result are those of a next-fit allocation of one page |
| FrameAllocator.Allocator.FreePageInPool | cmd/kernel/phase2_memory.go:298-316 | the page is given back iff it is out in that pool; the cursor moves down to it |
| FrameAllocator.Allocator.FrameFromAddress | cmd/kernel/phase2_memory.go:255-263 | the frame of a page-aligned address in the window, and nothing for any other |
| FrameAllocator.Allocator.AllocContigFromPool | cmd/kernel/phase2_memory.go:318-369 | the state and result are those of a next-fit allocation of the run |
| FrameAllocator.BootState | cmd/kernel/phase2_memory.go:530-538 | at boot no page is out, exactly the usable frames are unmarked, frames 32 to 67 are the kernel pool and 68 to 103 the user pool, each cursor at the start |
| FrameAllocator.DefaultBaseIsAllUsable | cmd/kernel/phase2_memory.go:16-41 | at the default base every frame past the reserve is usable |
| FrameAllocator.LivePagesAreUsable | cmd/kernel/phase2_memory.go:265-316 | whatever is out lies past the boot reserve in usable memory |
| FrameAllocator.AlignedOffset | cmd/kernel/phase2_memory.go:255-263 | with an aligned base, testing the address for alignment and testing its offset agree |
| Ram.Bytes.ClearMemory | cmd/kernel/phase2_memory.go:481-485 | the block is zero and nothing else changed |
| Ram.Bytes.CopyMemory | cmd/kernel/phase2_memory.go:487-501 | the destination holds what the source held before the call, for every overlap, and nothing else changed |
| Ram.ByteAfter | cmd/kernel/phase2_memory.go:421-449 | every byte after clearing a block, and after copying one to an overlapping place |
| RuntimeHeap.KernelHeap.Track | cmd/kernel/phase2_memory.go:503-516 | the first free entry takes the block, or there is none |
| RuntimeHeap.KernelHeap.Untrack | cmd/kernel/phase2_memory.go:518-528 | the first entry for the address is cleared and its page count returned |
| RuntimeHeap.KernelHeap.AllocBytes | cmd/kernel/phase2_memory.go:409-417 | the tracked size of the block at the address |
| RuntimeHeap.KernelHeap.Alloc | cmd/kernel/phase2_memory.go:391-407 | a tracked run of whole pages, or everything as before |
| RuntimeHeap.KernelHeap.Free | cmd/kernel/phase2_memory.go:419-433 | untracks the block and gives its pages back, stopping at the first refused |
| RuntimeHeap.KernelHeap.TinygoAlloc | cmd/kernel/phase2_memory.go:435-445 | a zeroed block, address 0 for size 0, a panic when there is none |
| RuntimeHeap.KernelHeap.TinygoRealloc | cmd/kernel/phase2_memory.go:451-479 | state and outcome of the whole realloc, with its panics |
| HeapModel.HeapTableNeverFills | cmd/kernel/phase2_memory.go:391-407 | the 128-entry table always has a free entry, since the kernel pool has only 36 frames |
| HeapModel.HeapAllocKeepsOwnership | cmd/kernel/phase2_memory.go:391-407 | the kernel pool's live pages stay exactly the heap blocks and what others hold; a failed allocation changes nothing |
| HeapModel.HeapFreeKeepsOwnership | cmd/kernel/phase2_memory.go:419-433 | freeing succeeds iff the block is tracked, ownership of live pages stays exact, and a refused free changes nothing |
| HeapModel.BlocksAreDisjoint | cmd/kernel/phase2_memory.go:503-528 | two tracked blocks share no page |
| HeapModel.HeapBytesAreThePages | cmd/kernel/phase2_memory.go:409-417 | the bytes of a tracked block are those of all its pages; an address that is no tracked block has none |
| HeapModel.ReallocMovesBlock | cmd/kernel/phase2_memory.go:451-479 | realloc panics iff no run is free and then changes nothing; otherwise the new block is disjoint from all that was live, the old one is freed, and ownership stays exact |
| HeapModel.ReallocKeepsContents | cmd/kernel/phase2_memory.go:451-479 | for the tracked block in an entry, the first min(4096 times its pages, new size) bytes move, the rest of the new block is zero, every other byte is as before |
| HeapLife.AllocGives | cmd/kernel/phase2_memory.go:435-445 | nothing for size 0; a panic iff no run is free; otherwise a fresh block of the pages the size needs, in the first free entry, all zero, and no other byte changes |
| HeapLife.FreeTakes | cmd/kernel/phase2_memory.go:419-433 | freeing a block empties its entry alone, takes exactly its pages off the pool, and the address is nobody's any more |
| HeapLife.ReallocWithoutMove | cmd/kernel/phase2_memory.go:451-479 | size 0 frees the block and answers nil, address 0 allocates, an untracked address panics |
| HeapLife.BlockStays | cmd/kernel/phase2_memory.go:371-479 | through any run in which nobody frees or reallocates it, a block stays tracked with its pages and none of its bytes changes |
| HeapLife.BlockKeepsItsBytes | cmd/kernel/phase2_memory.go:435-479 | a block got for n bytes, after any such run, hands its first min(n rounded up to pages, size) bytes on when it is reallocated to size |
| Kernel.Kernel.VmFindMapping | cmd/kernel/phase5_vm.go:58-68 | the first present mapping of the address's page |
| Kernel.Kernel.VmMapPage | cmd/kernel/phase5_vm.go:70-95 | rewrites the page's mapping or fills the first free entry; fails on misalignment or a full table |
| Kernel.Kernel.VmMapOwnedPage | cmd/kernel/phase5_vm.go:97-108 | the same, and the entry is marked owned from the pool |
| Kernel.Kernel.VmTranslate | cmd/kernel/phase5_vm.go:119-131 | the physical address under the page's mapping if it grants what is required |
| Kernel.Kernel.VmInitProcess | cmd/kernel/phase5_vm.go:156-169 | a fresh layout, and a trap page in a free entry of whatever table the process has; or the page goes back |
| Kernel.Kernel.VmReleaseProcess | cmd/kernel/phase5_vm.go:171-183 | every owned page goes back to its pool, or the panic |
| Kernel.Kernel.VmRefreshGuard | cmd/kernel/phase5_vm.go:146-154 | the guard is the page under the stack, or none while the stack is empty |
| Kernel.Kernel.VmGrowStack | cmd/kernel/phase5_vm.go:185-206 | state and result of growing by one page, with the undo when the table is full |
| Kernel.Kernel.VmHandleFault | cmd/kernel/phase5_vm.go:208-225 | guard faults and refused growth mark the process faulted; otherwise the page is there |
| Kernel.Kernel.CopyInUser | cmd/kernel/phase5_vm.go:227-247 | the bytes read and the state after, byte by byte, with faults on the way |
| Kernel.Kernel.CopyOutUser | cmd/kernel/phase5_vm.go:249-269 | the state after writing byte by byte up to the first refused byte |
| VmModel.MapPageOutcome | cmd/kernel/phase5_vm.go:70-95 | mapping succeeds iff both addresses are aligned and the page has an entry or one is free; that first entry alone changes, an existing one keeping its owner |
| VmModel.MapOwnedMarks | cmd/kernel/phase5_vm.go:97-108 | mapping an owned page is mapping it and marking its entry owned, from the pool |
| VmModel.TranslateGrants | cmd/kernel/phase5_vm.go:119-131 | an address translates to a byte iff its page's entry grants what is required, and the byte lies at the same offset |
| VmModel.MapOwnedFillsOneEntry | cmd/kernel/phase5_vm.go:70-108 | mapping a page at an address without one fills exactly one free entry, and fails only when there is none |
| VmModel.MapOwnedFailsWithMap | cmd/kernel/phase5_vm.go:97-108 | marking a page owned cannot fail once it is mapped |
| VmProofs.GrowStackGrows | cmd/kernel/phase5_vm.go:185-206 | growth, done or refused, keeps every translation, every byte and the kernel pool, and every live user page has exactly one owner |
| VmProofs.GrowStackSucceedsIff | cmd/kernel/phase5_vm.go:185-206 | growth succeeds iff the page is the one under the stack, above the floor, and a page and an entry are to be had; the page is then mapped, the stack starts there and the guard lies below; otherwise nothing changes |
| VmProofs.FaultAnswers | cmd/kernel/phase5_vm.go:208-225 | a fault answers yes iff the address can be accessed afterwards; it marks the process faulted iff it answers no |
| VmProofs.FaultGrowsOnlyAnEmptyStack | cmd/kernel/phase5_vm.go:185-225 | a fault changes the address space iff the stack is still empty and the fault lies in its top page, with a frame and an entry free |
| VmProofs.UserAddressesAreDistinct | cmd/kernel/phase5_vm.go:119-131 | two user addresses of one process never reach the same byte |
| VmProofs.CopyOutDelivers | cmd/kernel/phase5_vm.go:249-269 | after a successful copyout the range holds the bytes |
| VmProofs.CopyInReads | cmd/kernel/phase5_vm.go:227-247 | copyin of a range that holds bytes returns them and changes nothing |
| VmProofs.CopyRoundTrip | cmd/kernel/phase5_vm.go:227-269 | copyin after a successful copyout at the same address returns the same bytes |
| VmProofs.CopyOutSucceedsIff | cmd/kernel/phase5_vm.go:249-269 | a copyout succeeds iff, before it, every address of the range has a writable user page or lies in the one page a fault can still add; it then leaves the same addresses writable |
| VmProofs.CopyOutMarks | cmd/kernel/phase5_vm.go:249-269 | a refused copyout leaves the process marked faulted, a finished one leaves the mark as it was |
| VmProofs.CopyInAnswers | cmd/kernel/phase5_vm.go:227-247 | a copyin succeeds iff every address of the range is writable before it, marks the process faulted iff it is refused, and returns what the user then sees in the range |
| VmProofs.CopyOutWritesOnlyRange | cmd/kernel/phase5_vm.go:249-269 | a byte no address of the range reaches keeps its value, even when the copy fails part of the way |
| VmProofs.CopyOutIsIsolated | cmd/kernel/phase5_vm.go:249-269 | no byte of a page held by anyone else, or of the kernel pool, changes |
| Isolation.WriteThenRead | cmd/kernel/phase5_vm.go:227-269 | the round trip holds in every state the kernel keeps in order |
| Isolation.WritesInvisibleToOthers | cmd/kernel/phase5_vm.go:249-269 | a user write changes neither another process's record nor any byte it can see |
| Isolation.WritesMissKernelMemory | cmd/kernel/phase5_vm.go:249-269 | a user write changes no kernel stack, trap page or heap block |
| Isolation.TablesNeverFill | cmd/kernel/phase5_vm.go:82-94 | over any run without a loader at least 111 of the 128 entries of every page table are free |
| Isolation.BootTablesNeverFill | cmd/kernel/phase5_vm.go:82-94 | in particular over every run from boot |
| ProcessModel.TrapPageMaps | cmd/kernel/phase5_vm.go:156-169 | mapping the trap page into an empty table fails only for its alignment |
| ProcessModel.NewSpaceShowsNothing | cmd/kernel/phase5_vm.go:133-170 | a new address space has the layout's figures and maps only the trap page, which the kernel may read and the user may not touch |
| Kernel.Kernel.constructor | cmd/kernel/phase1_kernel.go:162-180 | an empty table, pid 1 next, nothing running, nothing scheduled |
| Kernel.Kernel.FindProcByPID | cmd/kernel/phase1_kernel.go:237-245 | the first slot in use with the pid |
| Kernel.Kernel.AllocProcess | cmd/kernel/phase1_kernel.go:182-227 | state and slot of a new process, or everything given back |
| Kernel.Kernel.EnsureBootstrapProcess | cmd/kernel/phase1_kernel.go:247-256 | creates the first process with parent 0 unless pid 1 exists |
| Kernel.Kernel.ReleaseProcess | cmd/kernel/phase1_kernel.go:371-383 | mapped pages and kernel stack go back and the slot is free, or one of the panics |
| Kernel.Kernel.PickNextRunnable | cmd/kernel/phase1_kernel.go:258-268 | the first runnable slot in cyclic order after the last one scheduled |
| Kernel.Kernel.ScheduleNext | cmd/kernel/phase1_kernel.go:309-323 | the picked slot runs and is remembered, or nothing is runnable |
| Kernel.Kernel.ProcessExit | cmd/kernel/phase1_kernel.go:344-353 | the process is a zombie with its status, and a sleeping parent is runnable |
| Kernel.Kernel.FinishSwitch | cmd/kernel/phase1_kernel.go:276-307 | how each way of leaving an entry ends the switch |
| Kernel.Kernel.ProcessCreateKernel | cmd/kernel/phase1_kernel.go:229-235 | a new process and its pid, or the error |
| Kernel.Kernel.SysFork | cmd/kernel/phase1_kernel.go:386-394 | a child of the caller and its pid, or the error |
| Kernel.Kernel.SysWait | cmd/kernel/phase1_kernel.go:397-415 | reaps the first zombie child; without children an error; otherwise the caller sleeps and yields |
| Kernel.Kernel.SchedulerYield | cmd/kernel/phase1_kernel.go:325-334 | the running process becomes runnable and yields |
| Kernel.Kernel.SysKill | cmd/kernel/phase1_kernel.go:355-369 | the target exits with -1, the caller by its own signal |
| Kernel.Kernel.TimerInterrupt | cmd/kernel/phase1_kernel.go:141-153 | a running process becomes runnable and is preempted when a reschedule was requested |
| Scheduling.ExitKeeps | cmd/kernel/phase1_kernel.go:344-353 | exit keeps pids, sleepers with a living child, and what runs |
| Scheduling.UnwindKeeps | cmd/kernel/phase1_kernel.go:276-307 | however an entry is left, the scheduler's invariant holds afterwards and nothing runs |
| Scheduling.SleepKeeps | cmd/kernel/phase1_kernel.go:397-415 | going to sleep in wait loses no wakeup: there is a child, and none is a zombie |
| Scheduling.NoSleepers | cmd/kernel/phase1_kernel.go:309-323 | with nothing running or runnable, nothing sleeps |
| Scheduling.SchedulerStopsOnlyWhenDone | cmd/kernel/phase1_kernel.go:258-268 | while parents are older than children, nothing is runnable iff every slot is unused or a zombie |
| Scheduling.PickFromIsNearest | cmd/kernel/phase1_kernel.go:258-268 | a pick is the runnable slot nearest in cyclic order |
| Scheduling.OtherPickBringsNearer | cmd/kernel/phase1_kernel.go:258-268 | each pick of another slot brings a waiting slot strictly nearer |
| Ownership.AllocProcessKeepsPages | cmd/kernel/phase1_kernel.go:182-227 | creation, finished or undone half-way, keeps the partition of live pages among processes and heap |
| Ownership.ReleaseMappingsReturnsPages | cmd/kernel/phase5_vm.go:171-183 | releasing a page table whose pages are out never fails and returns exactly those pages |
| Ownership.ReleaseProcessKeepsPages | cmd/kernel/phase1_kernel.go:371-383 | reaping never panics and keeps the partition |
| Machine.NextKeeps | cmd/kernel/phase2_memory.go:435-479 | every step of processes, user memory and heap leads from a state in order to one, and panics iff it asks the heap for a block when no run is free, or reallocates an address that is not tracked |
| Machine.BootIsOk | cmd/kernel/phase1_kernel.go:481-484 | the state after boot is in order |
| Machine.LoadPageGrows | cmd/kernel/phase6_fs_test.go:27-37 | giving a process a page outside its stack keeps ownership exact |
| Runs.EveryRunPartitionsMemory | cmd/kernel/phase2_memory.go:265-479 | over every run the live pages of each pool are the disjoint union of what processes and heap hold, all of it usable memory; the next step panics iff no run is free for a heap block or a reallocated address is not tracked, never because a page cannot be freed |
| Runs.UserPagesComeLowestFirst | cmd/kernel/phase2_memory.go:265-296 | after any run from boot, a user page handed out next is the least of all usable user pages not out, and none is handed out iff all are |
| Runs.StepMatchesEvent | cmd/kernel/phase1_kernel.go:182-415 | each step does to the process table exactly what its event says: creation, death, reaping, dispatch, or nothing |
| Room.OnePageIffRoom | cmd/kernel/phase2_memory.go:265-296 | a page can be had iff not all usable pages of the pool are out |
| Room.KernelPagesOut | cmd/kernel/phase1_kernel.go:182-227 | the kernel pages out are two for every slot in use and those of the heap blocks |
| Room.ProcessFitsIffRoom | cmd/kernel/phase1_kernel.go:182-227 | at every base, a process can be created iff a slot is unused and two usable kernel pages are not out |
| Capacity.KernelPagesInUse | cmd/kernel/phase2_memory.go:213-227 | with a slot free and at most 4 heap pages, at most 34 of the 36 kernel frames are out |
| Capacity.ProcessFitsIffSlotFree | cmd/kernel/phase1_kernel.go:182-227 | at the default base with at most 4 heap pages, a process can be created iff a slot is unused |
| Deadlock.StepKeepsParentsBelow | cmd/kernel/phase1_kernel.go:182-256 | a step keeps parents older than their children iff what it creates names a parent already numbered |
| Deadlock.NoDeadlock | cmd/kernel/phase1_kernel.go:309-323 | over every run whose outside creations name parents already numbered, schedulerRun stops, by either of its exits, iff every slot is unused or a zombie; pid 1 is missing only from an empty table |
| Deadlock.RunKeepsFirst | cmd/kernel/phase1_kernel.go:247-256 | over every such run the first process, a child of nobody, keeps its slot once it has one |
| Deadlock.StuckForGood | cmd/kernel/phase1_kernel.go:309-323 | with somebody asleep and nothing runnable, no run of the scheduler, ticks, calls, user accesses and heap traffic wakes anybody; only a new process or a kill from outside can |
| DeadlockRun.LaterParentGetsStuck | cmd/kernel/phase1_kernel.go:229-235 | from any state with room, a process created for any parent not yet numbered can get the kernel stuck: it spends pids until its child has the parent's number, and both wait |
| DeadlockRun.DeadlockFreeIffParentNumbered | cmd/kernel/phase1_kernel.go:229-235 | where parents are older and two more processes fit, the state after a creation can never get stuck iff the parent it names is already numbered |
| DeadlockExact.DeadlockFreeIff | cmd/kernel/phase1_kernel.go:229-235 | where parents are older, and whatever room there is, the state after a creation can never get stuck iff the parent is already numbered, or nothing is created for want of a slot or pages, or the process is not its own parent and no room for a second one can ever be made, by emptying the heap or by a living process reaping a child |
| DeadlockExact.RoomCanBeMade | cmd/kernel/phase1_kernel.go:309-323 | with room for one only, the run that empties the heap or lets a living parent reap a child, and then gets stuck |
| DeadlockExact.SealedStays | cmd/kernel/phase1_kernel.go:182-256 | where nobody alive has a child and no process fits even with the heap empty, no step changes that |
| DeadlockExact.FullTableIsSafe | cmd/kernel/phase1_kernel.go:229-235 | at the default base boot leads to such a kernel: fifteen children of nobody, room for one more, and a creation for any parent past its own number is harmless |
| DeadlockRun.BootCanDeadlock | cmd/kernel/phase1_kernel.go:229-235 | right after boot at the default base the same holds, so only parent 0 is safe |
| History.EveryHistoryIsLawful | cmd/kernel/phase1_kernel.go:371-415 | over every run pids increase and are never reused; each is reaped at most once, by its parent, after its death; the pids in the history are those the calls answer |
| History.AnswersAreLawful | cmd/kernel/phase1_kernel.go:387-415 | over every run no pid is answered by wait twice, and fork and processCreateKernel answer ever larger ones |
| History.WaitAnswersTheDead | cmd/kernel/phase1_kernel.go:397-409 | what wait answers is the pid of a process created for the caller and dead by then |
| Calls.WaitAnswers | cmd/kernel/phase1_kernel.go:397-415 | wait answers the error iff the caller has no child; the pid of the first dead child iff there is one, whose slot alone is emptied; otherwise the caller alone falls asleep |
| Calls.ForkAnswers | cmd/kernel/phase1_kernel.go:387-394 | fork answers the pid of the one new process, a child of the caller in the first unused slot, iff there is room; the error otherwise, and then none is new |
| Calls.CreateKernelAnswers | cmd/kernel/phase1_kernel.go:229-235 | the same for a process created for any parent |
| Calls.BootstrapEffect | cmd/kernel/phase1_kernel.go:247-256 | the first process is made iff nobody has pid 1 and there is room; it is a child of nobody |
| Calls.LeaveEffect | cmd/kernel/phase1_kernel.go:276-353 | exiting, or returning with status 0: the caller dies with its status, its sleeping parent wakes, nothing runs |
| Calls.KillAnswers | cmd/kernel/phase1_kernel.go:355-369 | kill answers the error iff nobody has the pid; otherwise that process dies with -1, and nothing runs if it was the caller |
| Calls.SwitchEffect | cmd/kernel/phase1_kernel.go:325-342 | yield or a tick: the running process is ready again, a reschedule is due, nothing runs; nothing happens when idle |
| Calls.ScheduleEffect | cmd/kernel/phase1_kernel.go:258-288 | the scheduler starts the nearest ready process, and the reschedule is no longer due |
| History.RunnableSlotIsDispatched | cmd/kernel/phase1_kernel.go:258-323 | a slot runnable at every pick is dispatched within its cyclic distance, at most 16 picks |
| FileStore.Store.constructor | cmd/kernel/phase6_fs.go:80-84 | no inodes, not initialised, empty sinks |
| FileStore.Store.FsAllocInode | cmd/kernel/phase6_fs.go:123-140 | the first unused slot takes the next id, or nothing changes |
| FileStore.Store.FsLookupByID | cmd/kernel/phase6_fs.go:142-153 | the first used inode with the id; none for id 0 |
| FileStore.Store.FsLookupInDir | cmd/kernel/phase6_fs.go:163-175 | the inode of the first entry with the name |
| FileStore.Store.FsAddDirEntry | cmd/kernel/phase6_fs.go:177-192 | fills the first free entry, unless the name is bad, present, or there is no room |
| FileStore.Store.FsRemoveDirEntry | cmd/kernel/phase6_fs.go:194-207 | clears the first entry with the name and returns its id |
| FileStore.Store.FsSplitPath | cmd/kernel/phase6_fs.go:209-222 | the components that are neither empty nor "." |
| FileStore.Store.FsStartingDir | cmd/kernel/phase6_fs.go:224-236 | root for absolute paths, no process or no directory set; else the working directory, if it still exists |
| FileStore.Store.FsLookupByPath | cmd/kernel/phase6_fs.go:238-270 | after initialisation, the inode the walk along the components ends at |
| FileStore.Store.FsResolveParent | cmd/kernel/phase6_fs.go:272-297 | the directory of all components but the last, and the last |
| FileStore.Store.FsCreatePath | cmd/kernel/phase6_fs.go:299-319 | a new inode under a new entry, or the inode undone |
| FileStore.Store.Phase6Init | cmd/kernel/phase6_fs.go:86-121 | the boot tree, once |
| FileStore.Store.FsWriteRegular | cmd/kernel/phase6_fs.go:321-337 | bytes replaced from the offset as far as they fit, and the size |
| FileStore.Store.FsReadRegular | cmd/kernel/phase6_fs.go:339-349 | the bytes from the offset, as many as asked for and there |
| FileStore.Store.FsWriteDevice | cmd/kernel/phase6_fs.go:547-558 | console and uart append all the bytes; other devices take none |
| FileStore.Store.FsReadDevice | cmd/kernel/phase6_fs.go:560-574 | only the timer reads, from the offset of its decimal text |
| FileStore.Store.FsDirEmpty | cmd/kernel/phase6_fs.go:508-518 | a directory without a used entry |
| FileStore.Store.SysOpen | cmd/kernel/phase6_fs.go:380-401 | state, descriptor table and descriptor of an open, with creation and the directory check |
| FileStore.Store.SysMkdir | cmd/kernel/phase6_fs.go:467-475 | creation of a directory at the path |
| FileStore.Store.SysChdir | cmd/kernel/phase6_fs.go:477-487 | the working directory is the id of the directory the path names |
| FileStore.Store.SysLink | cmd/kernel/phase6_fs.go:489-506 | one more entry and one more link for what is not a directory |
| FileStore.Store.SysUnlink | cmd/kernel/phase6_fs.go:520-545 | the entry removed and the link dropped, or put back for a directory with entries |
| FileStore.Store.SysRead | cmd/kernel/phase6_fs.go:412-439 | bytes fetched, copied out, and the offset moved only if they were delivered |
| FileStore.Store.SysWrite | cmd/kernel/phase6_fs.go:441-465 | bytes copied in, written to file or device, and the offset moved |
| FileStore.ProcessFiles.constructor | cmd/kernel/phase1_kernel.go:198-208 | a new process has no descriptors and directory id 0 |
| FileStore.ProcessFiles.AllocFD | cmd/kernel/phase6_fs.go:351-368 | the lowest free descriptor is open on the inode at offset 0 |
| FileStore.ProcessFiles.LookupFD | cmd/kernel/phase6_fs.go:370-378 | the descriptor is in range and open |
| FileStore.ProcessFiles.SysClose | cmd/kernel/phase6_fs.go:403-410 | the descriptor is cleared, or it was not open |
| Paths.JoinThenSplit | cmd/kernel/phase6_fs.go:209-222 | splitting what was joined gives back the same components |
| Paths.ComponentsAreNames | cmd/kernel/phase6_fs.go:209-222 | every component is non-empty, not "." and has no slash |
| Paths.ParentPathDropsLast | cmd/kernel/phase6_fs.go:272-297 | the parent path starts at the same place and has all components but the last |
| Paths.ComponentsConcat | cmd/kernel/phase6_fs.go:209-222 | the components of a path are those before and those after any of its slashes |
| Paths.ComponentsOfName | cmd/kernel/phase6_fs.go:209-222 | a path without a slash has itself as its one component, unless it is empty or a dot; with the row above this fixes the components of every path |
| Relative.OnlyComponentsMatter | cmd/kernel/phase6_fs.go:238-270 | what a path resolves to depends only on its components and on a leading slash |
| Relative.RelativePath | cmd/kernel/phase6_fs.go:224-270 | a relative path of names goes down from the working directory, from the root if none is set, and resolves to nothing if it is gone |
| Relative.PathOfDots | cmd/kernel/phase6_fs.go:224-253 | the empty path names nothing; one of slashes and dots names where it starts |
| Relative.PathThroughDirectory | cmd/kernel/phase6_fs.go:238-270 | looking dir/rel up is looking dir up and rel from there |
| Relative.ParentIsFront | cmd/kernel/phase6_fs.go:272-297 | the parent of a path is the directory every component but the last leads to, and nothing if that is none |
| Relative.NoParent | cmd/kernel/phase6_fs.go:272-297 | a path without components has no parent |
| FsInvariant.PresentNamesResolve | cmd/kernel/phase6_fs.go:163-175 | with no dangling entries, a name is present in a directory iff it resolves |
| FsInvariant.EntryIsAdded | cmd/kernel/phase6_fs.go:177-192 | an entry is added iff the directory, name and room allow it; it fills the first free entry and nothing else changes |
| FsInvariant.EntryIsRemoved | cmd/kernel/phase6_fs.go:194-207 | an entry is removed iff it is there; it alone is cleared and its id answered |
| FsInvariant.CreateShape | cmd/kernel/phase6_fs.go:299-319 | a creation changes nothing, spends one id, or adds one inode and one entry, each in exactly which case |
| FsInvariant.CreateKeeps | cmd/kernel/phase6_fs.go:299-319 | creation keeps the filesystem's invariant, also when it fails half-way |
| FsInvariant.LinkKeeps | cmd/kernel/phase6_fs.go:489-506 | linking keeps the invariant, with the count of names exact |
| FsUnlink.AddBack | cmd/kernel/phase6_fs.go:536-539 | adding back the entry just removed cannot fail |
| FsUnlink.UnlinkKeeps | cmd/kernel/phase6_fs.go:520-545 | unlinking keeps the invariant: dropping a name, removing an inode, or putting the entry back |
| FsBoot.WriteKeeps | cmd/kernel/phase6_fs.go:321-337 | writing keeps the invariant |
| FsBoot.BootSucceeds | cmd/kernel/phase6_fs.go:86-121 | the first initialisation cannot fail and establishes the invariant |
| BootTree.BootTreeIsThere | cmd/kernel/phase6_fs.go:98-119 | once up, /dev, its three devices and /init are there with their kinds and devices, and /init holds "init" and a newline |
| BootTree.BootPaths | cmd/kernel/phase6_fs.go:86-121 | the same, path by path and byte by byte |
| FsBoot.DotDotIsMadeButNotFound | cmd/kernel/phase6_fs.go:177-192 | mkdir("/..") makes a new directory wherever there is room, and the path still names the root |
| Walks.PathIsParentThenStep | cmd/kernel/phase6_fs.go:238-270 | looking a path up is looking its parent path up and taking one more step |
| Walks.LookupAgreesWithParent | cmd/kernel/phase6_fs.go:238-297 | for a last component other than "..", the path resolves to n iff its parent resolves to a directory that holds n under it |
| Walks.LookupAgreesUnlessDotDot | cmd/kernel/phase6_fs.go:238-297 | where the parent resolves, lookup and parent lookup agree iff the last component is not ".." |
| Walks.ParentIsDirectory | cmd/kernel/phase6_fs.go:255-261 | a directory's parent is a live directory that names it, older unless it is the root |
| Walks.DownAndUp | cmd/kernel/phase6_fs.go:255-261 | name/.. comes back iff the inode was created here, as every directory was |
| Walks.InsertedDetourCancels | cmd/kernel/phase6_fs.go:238-270 | inserting d/.. with d a directory there changes no path's result |
| Walks.EveryInodeReachable | cmd/kernel/phase6_fs.go:163-175 | every inode in use is reached from the root by a chain of entries |
| Walks.DescendHasPath | cmd/kernel/phase6_fs.go:238-270 | such a chain without ".." is an absolute path to its inode |
| Walks.LookupIffEntry | cmd/kernel/phase6_fs.go:163-175 | a directory holds an inode under a name iff one of its entries has the name and the id of the inode |
| Namespace.CreateInOutcome | cmd/kernel/phase6_fs.go:299-319 | creation succeeds iff the name is free and both tables have room; if not, no inode changes |
| Naming.CreatePathEffect | cmd/kernel/phase6_fs.go:299-319 | when a creation succeeds, and that the path then names the new inode iff it does not end in ".."; every path resolved before as it does now unless it comes by the new inode, and then it did not resolve; a failed creation changes no inode |
| Naming.CreateKeepsPath | cmd/kernel/phase6_fs.go:299-319 | in particular no path that resolved changes its inode |
| Naming.LinkEffect | cmd/kernel/phase6_fs.go:489-506 | when a link succeeds, and that the new path then names the old inode iff it does not end in ".."; every path resolved before as it does now unless it takes the new entry, and then it did not resolve; a failed link changes nothing |
| Unlinking.UnlinkInOutcome | cmd/kernel/phase6_fs.go:520-545 | unlink succeeds iff the name is there and is not that of a directory with entries; then the inode stays iff its link count was above 1 |
| Unlinking.RemovedPaths | cmd/kernel/phase6_fs.go:528-545 | what every path resolves to after the entry is gone: what it did before, or nothing, and exactly which |
| Unlinking.UnlinkEffect | cmd/kernel/phase6_fs.go:520-545 | told before the call: with other links left just the paths that take the entry stop resolving, otherwise just those that come by the inode; all others keep their inode and nothing new resolves; when the unlinked path itself still resolves |
| Unlinking.FailedUnlinkIsInvisible | cmd/kernel/phase6_fs.go:528-539 | a failed unlink changes no path, no name-to-inode map, no link count and no file, though the entry may have moved |
| FileRuns.InitKeeps | cmd/kernel/phase6_fs.go:86-121 | initialisation never fails, whenever it is called |
| FileRuns.PerformKeepsStore | cmd/kernel/phase6_fs.go:380-545 | every call keeps the invariant and hands out no id twice |
| FileRuns.PerformKeepsHandles | cmd/kernel/phase6_fs.go:351-545 | every call leaves only handles whose ids were handed out, and nothing open for writing on a directory |
| FileRuns.HandlesNeverGoStale | cmd/kernel/phase6_fs.go:412-487 | through any run an id denotes the inode it denoted before or none, never a later one in the same slot |
| FileRuns.EveryRunKeepsFiles | cmd/kernel/phase6_fs.go:380-545 | over every run from nothing the invariant holds and every handle is in order |
| FileCalls.OpenDenotesPath | cmd/kernel/phase6_fs.go:380-401 | open succeeds iff the path is not empty, there is something to open or a file can be created, and a descriptor is free; it takes the lowest, at offset 0, on what the path names from then on, writable iff bit 2 is set, readable iff bit 1 is set or bit 2 is not; everything else stays |
| FileCalls.MkdirEffect | cmd/kernel/phase6_fs.go:467-475 | mkdir answers 0 iff the parent resolves, the name fits and an inode is free; then there is a new empty directory with one link in that parent, which the path names unless it ends in ".."; every other path and inode as before |
| FileCalls.ChdirEffect | cmd/kernel/phase6_fs.go:477-487 | chdir answers 0 iff the path names a directory; every relative path then resolves to what it did with that path in front; otherwise nothing changes |
| FileCalls.LinkCallEffect | cmd/kernel/phase6_fs.go:489-506 | link answers 0 iff a link is possible; the inode then has one link more, and every path resolves as LinkEffect says; otherwise nothing changes |
| FileCalls.UnlinkCallEffect | cmd/kernel/phase6_fs.go:520-545 | unlink answers 0 iff an unlink is possible; the inode then has one link less or is gone, and every path resolves as KeepsPath told before; otherwise no path and no inode but for the order of entries changes |
| FileCalls.CloseEffect | cmd/kernel/phase6_fs.go:403-410 | close answers 0 iff the descriptor is open; it is then free, and no other changes |
| FileCalls.NewProcessHasNothing | cmd/kernel/phase1_kernel.go:50-51 | a new process has no working directory and sixteen free descriptors |
| FileTransfers.ReadEffect | cmd/kernel/phase6_fs.go:412-439 | a read through a readable descriptor answers how many bytes it delivers, the next ones of the file or clock from the offset on, and moves the offset past them; the error, moving nothing, iff there are bytes that cannot be delivered |
| FileTransfers.ReadRefused | cmd/kernel/phase6_fs.go:412-439 | a read through anything else answers the error and changes nothing |
| FileTransfers.WriteEffect | cmd/kernel/phase6_fs.go:441-465 | a write through a writable descriptor puts the bytes into the file from the offset on as far as they fit, or all of them behind what the console or the uart was sent, each its own; it moves the offset and changes nothing else |
| FileTransfers.WriteRefused | cmd/kernel/phase6_fs.go:441-465 | a write through anything else, or of bytes that cannot be had, answers the error and changes nothing |
| FileTransfers.OpenWriteOpenRead | cmd/kernel/phase6_fs.go:380-465 | where a path named nothing or an empty file: open it for writing, write any chunks, open it again and read in any sizes, and what was written is read, up to 4096 bytes |
| FileBytes.WriteSplices | cmd/kernel/phase6_fs.go:321-337 | a write within the file replaces what it covers, extends what is past the end up to 4096 bytes, and keeps the rest |
| FileBytes.WriteAnywhere | cmd/kernel/phase6_fs.go:321-337 | a write at any offset: how much goes in, the new size, and every byte of the file afterwards |
| FileBytes.ReadSlices | cmd/kernel/phase6_fs.go:339-349 | a read gives the file's bytes from the offset |
| FileBytes.ReadAfterWrite | cmd/kernel/phase6_fs.go:321-349 | reading where one has just written gives what was written |
| FileBytes.WritesAppend | cmd/kernel/phase6_fs.go:441-465 | a series of writes at the end appends their concatenation, up to 4096 bytes |
| FileBytes.ReadsGiveSlice | cmd/kernel/phase6_fs.go:412-439 | reads of any sizes give the file's bytes in order, without gap or repetition |
| FileBytes.WrittenIsRead | cmd/kernel/phase6_fs.go:412-465 | what a series of writes put into a fresh file is exactly what another descriptor reads |
| UserFiles.ReadDelivers | cmd/kernel/phase6_fs.go:412-439 | a read of an open file succeeds iff every address that gets a byte is writable before it; a failed read leaves the offset; a successful one moves it by its result, and those bytes are in the user's memory |
| UserFiles.WriteTakes | cmd/kernel/phase6_fs.go:441-465 | what the user's memory holds is what is written |
| UserFiles.WritesTake | cmd/kernel/phase6_fs.go:441-465 | a series of writes from memory writes what the buffers hold and leaves the memory as it is |
| UserFiles.ReadsSeeSlice | cmd/kernel/phase6_fs.go:412-439 | what a process sees in its buffers, read after read, is the file's bytes in order from its offset, or nothing iff some address that gets a byte is not writable before the first read |
| UserFiles.MemoryThroughFile | cmd/kernel/phase6_fs.go:412-465 | what one process writes from any series of buffers is what another sees in its own, read after read, up to 4096 bytes in all, iff its buffers are writable as far as those bytes go |

## Left out

- Machine words: addresses, sizes, ids and offsets are unbounded naturals, except for the bitmap masks (8-bit words) and the alignment masks (`PhysicalMemory.AlignmentMasks`, 32-bit words). Wrap-around of `base + size` is not modelled.
- Fields inside a table slot: a process, an inode and its `dir` and `data` arrays are values stored in an array of the class, so an update rewrites the whole slot. Pointers to slots are slot numbers.
- Process record fields without a part in the properties: trapframe, saved context, name and entry function; the panic when the pid space is exhausted.
- Nested scheduling: `runDepth`, and calling `schedulerRun` from inside an entry function. `current` is set exactly while an entry runs.
- Machine.After: a step that panics ends the kernel in the source; a run here goes on from the state before it, which the panicking heap calls leave unchanged.
- The early boot allocator (`bootAlloc` and its permanent disabling), spinlocks, interrupt masking and the timer's configuration flag: easy members beside the properties above.
- vmUnmapPage: it has no kernel caller and does not free the frame.
- copyinstr: path arguments arrive as strings; the NUL-terminated byte loop over `copyin` is not modelled.
- sysRead on `/dev/timer`: the decimal text of the tick counter is an input of the call.
- USB and UART registers, retries and delays: `RingLog.Dump` sees a port that accepts a number of bytes and then refuses. The device sinks of the filesystem are plain sequences.
- getpid, and how `syscallDispatch` takes a call's arguments from the trapframe: easy members.
- `phase7_userland.go`: the shell, `ls`, `ps` and scripts.
- Features the repository's documentation promises and the code lacks: reparenting at exit, closing descriptors at exit, copying mappings on fork, and growth of a stack to 16 pages by faults.
- Machine.LoadPage: the kernel has no loader; how a process comes by user pages follows the test helper `mapUserRWPage`. Runs without it are covered by `Isolation.BootTablesNeverFill`.
- strings.Split and strings.Join: defined directly in `Paths`, on characters.
- Space in the filesystem after an unlink: which inode and entry slots are reused is modelled, but no capacity bound for the inode table is stated.
- Interleaved writers: `FileBytes.WrittenIsRead` is about one writing descriptor without interference; several descriptors on one file are covered call by call by `FileBytes.WriteSplices`.
