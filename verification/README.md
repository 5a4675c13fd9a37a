# GwOS in Dafny

GwOS is a small 32-bit x86 kernel with a FAT12 file system. This project models its memory management, its scheduling
and synchronisation, and its file system, and proves properties of the models. `dafny verify dfyconfig.toml` checks the
whole project.

## How the model is built

State that the kernel updates in place is a class whose methods follow the source's loops and branches. Each such method
is proved against a function or a predicate on values, and the properties are lemmas about those. Concurrency is a
transition system over any number of threads, each with a program counter; a property "of every run" is proved by
induction over traces of any length.

**Memory.** `Bitmaps` is the bitmap and its first-fit search. `Paging` is physical memory, the two-level hardware walk
(section 4.3 of the Intel SDM, volume 3A) and the self-map in directory slot 1023. `Pools` states the invariant that
ties pools, directories, page tables, pages and virtual bitmaps together: every frame has one owner, every mapped page
has its frame bit and its virtual bit set. `PageSteps` and `PageAllocator` are malloc_page and mfree_page, whose loads
and stores of table entries go through the self-map; `FrameZero` is what they do once the kernel pool is exhausted.
`AddressSpaces`, `Fork` and `Teardown` are create_page_dir, the copy of an address space and its release, `MemoryRuns`
and `KernelRuns` any sequence of all these from boot on, `Sharing` what processes see of each other. `Heap` and
`Malloc` are the arenas behind sys_malloc and sys_free on values, `Allocators` the same in place on the page
allocator, `ManyHeaps` several of them. `UserMemory` is memory as the bytes of a process, and `Loader` segment_load
over it.

**Scheduling and synchronisation.** `Lists` is the sentinel list; the other modules see lists as sequences. `Locks` is one
lock under preemption between any two memory accesses. `ReadersWriters` runs the program text of reader and writer over
five such locks, each call atomic but for its block. `Scheduler` has the thread states, the ready list, idle and the wait
lists. `Processes` has fork, exit and wait. `LockLaws`, `AccessLaws`, `SchedulerLaws` and `ProcessLaws` say, call by call
and field by field, what these do. `Ide` has a channel with two drives, the chunked transfers and the completion handshake.

**File system.** `Fat` has the packed entries and the two tables, `Chains` the cluster chains and sys_read_file, `FileIO`
buffered write and close, `Append` append_file, `Directory` the root directory and its cache. `Witnesses` holds concrete
volumes on which a call does not do what it is for.

## Conventions

- Addresses, words and bytes are integers in their range; shifts and masks are written as `/`, `%` and products. Only
  `Bitmaps` uses bit-vectors. Unsigned 16-bit truncation is explicit where the source depends on it.
- boot/loader.asm clears the page directory but not the page tables: that no heap page is present at power-on is an
  assumption (`AtBoot`).
- `Trans` is the walk by present bit and frame, as the kernel's accesses take it with CR0.WP clear; `Accessible` takes
  the access, user or kernel, read or write, and looks at both levels' permission bits.
- Clocks, ports, the device's own latency and user input are parameters, or steps that may happen at any time.
- In `Heap` and `Malloc` whether the frame pool has frames is a parameter; `Allocators` gives it the pool's own answer.
- C preconditions that the code itself needs are `requires` clauses: a bitmap search that stays in the bitmap, an unused
  buffer node for the head of a list, free clusters enough for a write.
- An ASSERT that can fail is a result: `ok` is false and the call stops there.

## Where code and intent differ

- The bitmap search compares a bit index with a byte length, so it misses runs (`SearchSucceedsIff`,
  `SearchMissesFreeBits`); asked for more bits than bytes it can run off the bitmap (`StraysIff`, `StraysExample`).
- A fork that finds a transfer page but no page for the directory never gives the transfer page back (`CopyProcess`).
- sys_malloc admits sizes that trip malloc_page's ASSERT (`AssertHoldsIff`, `LargestSizeTripsAssert`).
- page_table_add does not test palloc: with the kernel pool exhausted frame 0 becomes the page table, and a second such
  table erases the first (`AddedKeepsIff`, `SecondTableErases`; `MallocPage`, `SysMalloc` and `MapSegment` say exactly
  when, `StarveFromBoot` is a run).
- A full data area is not noticed: cluster 2849 is handed out and sector 2880, off the volume, wiped; with no table entry
  left a sector of the root directory is wiped (`SearchOutcome`, `FullDataArea`, `AppendOnFullTable`).
- append_file goes wrong for a second file that is empty or 511 bytes past a sector boundary, but for accidents
  (`AppendConcatenatesIff`, `EmptyTargetIff`; `LosesOldBytes` and `SkipsACluster` are runs), and seldom leaves a chain a
  second append can start from (`ExactAgainIff`).
- sys_read_file with size 0 copies the rest of the file and returns -1 (`ReadFile`).
- An exit can leave init asleep on a hanging child (`InitOverlooksIff`; `InitLeftAsleep` is such a run).
- alloc_pid does not test its search: with the pids 1 to 127 taken it returns 0 and sets a bit outside the bitmap
  (`PidsRunOutIff`). Kernel threads can fill the table (`PidsRunOut`); forks alone cannot, since a process takes some
  twenty-five of at most 479 kernel pages.
- segment_load gives an empty segment a page (`EmptySegmentTakesAPage`) and the rest of the file (`LoadSegment`).
- The boot directory's slots 0 and 768 share a page table (`BootAlias`).
- fork copies pages, so the processes readerwriter.c forks do not share its locks (`ForkedLocksApart`); two processes see
  one lock exactly when it lies in the kernel half (`SharedIff`, `StoreSeenIff`). `ReadersWriters` models the protocol over
  shared data, as its comments intend.
- write_file stores one byte past its buffer exactly when it is given 512 bytes or more (`WriteFile`, `WritesPastBuffer`);
  the model takes that store to be harmless, and `WriteCloseRead` rests on that from 512 bytes on.

## Model

| member | source | states |
|---|---|---|
| `Bitmaps.Bitmap.constructor` | lib/kernel/bitmap.c:12-14 | a new bitmap has every bit clear |
| `Bitmaps.BitIsShifted` | lib/kernel/bitmap.c:21-26 | bit `i` of a byte is its lowest bit after a shift by `i` |
| `Bitmaps.Bitmap.CheckIdx` | lib/kernel/bitmap.c:21-26 | the shift and mask read the bit at that index of the flat bit sequence |
| `Bitmaps.Bitmap.SetIdx` | lib/kernel/bitmap.c:53-62 | the byte update changes that bit and no other |
| `Bitmaps.Bitmap.ApplyCnt` | lib/kernel/bitmap.c:33-47 | for every count the nested search loops return `FirstFit`, and look at no bit behind the bitmap exactly when the search does not stray |
| `Bitmaps.FirstFit` | lib/kernel/bitmap.c:33-47 | the result is -1 exactly when no start in the window has a clear run; otherwise it is the least such start |
| `Bitmaps.SearchSucceedsIff` | lib/kernel/bitmap.c:34 | the search finds the least clear run exactly when it starts below the byte length minus `cnt`, since a bit index is compared with a byte length, or when `cnt` exceeds the byte length and the unsigned bound wraps |
| `Bitmaps.SearchMissesFreeBits` | lib/kernel/bitmap.c:34 | a byte with all eight bits clear in which no single bit is found |
| `Bitmaps.StraysIff` | lib/kernel/bitmap.c:34 | the search runs off the bitmap exactly when more bits than bytes are asked for and no such run is clear |
| `Bitmaps.StraysExample` | lib/kernel/bitmap.c:34 | a 480-byte bitmap, as the kernel's is, and a request for 481 pages on which it does |
| `Paging.WindowPage` | kernel/memory.c:75-91 | through directory slot 1023 page `WINDOW + i` is the page table of slot `i` |
| `Paging.PtePtrReachesEntry` | kernel/memory.c:75-80 | for every address outside the window, the hardware walk of `pte_ptr(v)` lands on the table entry the walk of `v` itself uses |
| `Paging.PdePtrReachesEntry` | kernel/memory.c:87-91 | the walk of `pde_ptr(v)` lands on `v`'s directory entry |
| `Paging.FillingAnEntry` | kernel/memory.c:117-119 | one table entry written makes its page translate to the frame, and changes no page that does not share the entry |
| `Paging.BootAlias` | boot/loader.asm:217-227 | the boot directory's slots 0 and 768 share a table, so a page mapped through one appears in the other: the reason the claim above excepts shared entries |
| `Pools.MappedOnce` | kernel/memory.c:136-154 | in every state that meets the invariant two different pages never have the same frame, and a user page that is mapped can be written from user mode, by both its directory and its table entry |
| `Pools.TakeFrame` | kernel/memory.c:98-105 | setting a free frame's bit keeps the invariant |
| `Pools.GiveFrame` | kernel/memory.c:382-393 | clearing the bit of a frame nothing maps keeps the invariant |
| `Pools.LinkTable` | kernel/memory.c:121-124 | linking and zeroing a fresh page table keeps the invariant and every translation |
| `Pools.MapPage` | kernel/memory.c:117-128 | filling an absent entry with an unowned taken frame keeps the invariant |
| `Pools.UnmapPage` | kernel/memory.c:400-405 | clearing a present bit keeps the invariant |
| `Pools.EntryMovesOnePage` | kernel/memory.c:111-129 | an entry written for one page moves no other page of any address space |
| `Pools.SetVirtualBits` | kernel/memory.c:49-61 | virtual bits may be set without disturbing a mapping, which is why a failed allocation only leaks addresses |
| `PageSteps.MarkRun` | kernel/memory.c:49-61 | the bit loops of vaddr_get and vaddr_remove set exactly the run |
| `PageSteps.SinglePageFound` | lib/kernel/bitmap.c:33-47 | a search for one page fails exactly when no clear bit lies below the last searched byte length |
| `PageSteps.ReserveRun` | kernel/memory.c:42-68 | reserving a clear run keeps the invariant, moves no translation and finds every page of the run unmapped |
| `PageSteps.GrowThenFill` | kernel/memory.c:111-129 | page_table_add as a whole: the page translates to the frame, nothing else moves, and the directory gained at most one table on a frame that was free |
| `PageSteps.GrantIsTakeThenMap` | kernel/memory.c:233-245 | palloc followed by page_table_add grants one page: each frame taken is the page's or its new table's |
| `PageSteps.RunGrows` | kernel/memory.c:147-152 | one more pass of malloc_page's loop extends the mapped run |
| `PageSteps.TablesStillSuffice` | kernel/memory.c:121-124 | a page given a frame leaves the balance between tables still missing and kernel frames left as it was |
| `FrameZero.AddedKeepsIff` | kernel/memory.c:111-129 | page_table_add keeps the invariant if and only if the page's table exists or the kernel pool has a frame for one |
| `FrameZero.AddedBreaks` | kernel/memory.c:121-127 | without either: the slot reads frame 0, frame 0 holds the one entry and zeros, no pool bit changed, and no assignment of owners restores the invariant |
| `FrameZero.SecondTableErases` | kernel/memory.c:122-124 | a second table on frame 0 erases the first: both slots then show the one new page and nothing else |
| `FrameZero.LoopEnds` | kernel/memory.c:147-153 | when malloc_page's loop ends, by success or for want of frames, the state is sound exactly when the tables were enough |
| `FrameZero.LoopSteps` | kernel/memory.c:147-152 | one pass of the loop from any state it reaches, also after a table was lost, leads to such a state |
| `FrameZero.LoopRuns` | kernel/memory.c:126 | the next page of the run is unmapped in every state of the loop, so page_table_add's ASSERT holds even then |
| `PageSteps.FreeIsUnmapThenGive` | kernel/memory.c:445-452 | one pass of mfree_page's loop unmaps one page and returns exactly its frame |
| `PageSteps.ReleaseRun` | kernel/memory.c:435-467 | mfree_page as a whole: the run is unmapped, its frames and no others are free again, its virtual bits are clear |
| `PageSteps.FreeingUndoesAllocating` | kernel/memory.c:136-154 | freeing a run just allocated restores both virtual bitmaps, every translation and the pool, apart from page tables linked meanwhile |
| `PageAllocator.Machine.constructor` | kernel/memory.c:513-569 | mem_pool_init over the loader's page tables, in which no heap page is present, establishes the invariant |
| `PageAllocator.Machine.Palloc` | kernel/memory.c:98-105 | the least free frame the search looks at, or 0 exactly when there is none; nothing else changes, and a sound state stays sound |
| `PageAllocator.Machine.PageTableAdd` | kernel/memory.c:111-129 | through the self-map, in every state of the tables: if the page's table is there or the kernel pool has a frame for one, the page translates to the frame, every other page of every space as before, and tables grow by at most one; otherwise frame 0 becomes its table and the invariant is past repair |
| `PageAllocator.Machine.AddTable` | kernel/memory.c:121-124 | the missing-table branch: a fresh table with every translation kept while the kernel pool has a frame, frame 0 linked and the invariant lost when it has none |
| `PageAllocator.Machine.ZeroTable` | kernel/memory.c:124 | the memset through the window clears the new table and touches nothing else |
| `PageAllocator.Machine.VaddrGet` | kernel/memory.c:42-68 | the first clear run is reserved, or 0 and nothing changes; the ASSERT holds |
| `PageAllocator.Machine.GrantPage` | kernel/memory.c:233-245 | get_one_page_no_bitmap: NULL exactly when the pool is exhausted, and then nothing changes; else the page is granted, soundly if its table is there or can be had and not otherwise |
| `PageAllocator.Machine.MallocPage` | kernel/memory.c:136-154 | it succeeds exactly when the search finds a run and the pool holds a frame for every page; success maps the whole reserved run on frames that were free, failure keeps the bits set and the pages mapped so far; the invariant survives exactly when the kernel pool can supply the tables missing for the pages that get a frame |
| `PageAllocator.Machine.Pfree` | kernel/memory.c:382-393 | the pool is chosen by address and exactly that frame's bit is cleared |
| `PageAllocator.Machine.PteRemove` | kernel/memory.c:400-405 | only the present bit of the page's entry is cleared |
| `PageAllocator.Machine.FreePage` | kernel/memory.c:445-452 | the ASSERTs hold, one page is unmapped and its frame returned |
| `PageAllocator.Machine.MFreePage` | kernel/memory.c:435-467 | the run is unmapped, its frames and no others returned, its virtual bits cleared |
| `PageAllocator.Machine.VaddrRemove` | kernel/memory.c:414-430 | exactly the run's bits are cleared |
| `PageAllocator.Machine.AllocateThenFree` | kernel/memory.c:435-467 | malloc_page then mfree_page is the identity on bitmaps, pool and translations, but for new page tables; it fails only for want of a run or of frames |
| `AddressSpaces.DataWrite` | userprog/fork.c:68-71 | writing a mapped data frame changes no translation and keeps the invariant |
| `AddressSpaces.CopyWords` | userprog/fork.c:68-71 | memcpy through the active directory copies the words of one frame into another and leaves every other frame |
| `AddressSpaces.ZeroPage` | kernel/memory.c:161-169 | memset through the active directory zeroes the page's frame only |
| `AddressSpaces.GetKernelPage` | kernel/memory.c:161-169 | get_kernel_pages(1): exactly when a virtual page and a frame can be found, a zeroed page on a fresh kernel frame; a failure for want of a frame leaves the virtual bit set and nothing else changed |
| `AddressSpaces.NewDirectory` | userprog/process.c:84-98 | a directory with the kernel half copied and slot 1023 mapping itself is a new address space with an empty user half |
| `AddressSpaces.CreatePageDir` | userprog/process.c:84-98 | the new page holds such a directory: kernel translations shared, user half empty, self-map in place; a failure leaves what `GetKernelPage` leaves |
| `AddressSpaces.Activate` | userprog/process.c:50-61 | from any directory that maps itself and the kernel half, one just released included, cr3 becomes the frame behind the directory's kernel address, or the boot directory for a kernel thread, and the machine is valid |
| `Fork.SourcePage` | userprog/fork.c:66-68 | every used page of the parent is mapped in the active directory, and can be copied to the transfer page |
| `Fork.ChildGrantable` | userprog/fork.c:69-70 | the child's page is unmapped, reserved in its bitmap, and has a frame and a table to be had |
| `Fork.CopyAdvances` | userprog/fork.c:66-73 | one copied page extends the copied part and disturbs neither the parent nor what was copied before |
| `Fork.CopyOnePage` | userprog/fork.c:66-73 | the two memcpy calls across the switch of directories copy one page |
| `Fork.CopyBody` | userprog/fork.c:54-79 | after the loops the child has exactly the parent's used pages, byte for byte, on frames that were free; the parent's space, every other space and every mapped frame are unchanged |
| `Teardown.CopyProcess` | userprog/fork.c:108-122 | with frames enough it succeeds exactly when two kernel pages can be found; then the child's space is a copy of the parent's and nothing else moved; with none found nothing changed, with one the transfer page stays taken |
| `Teardown.ReleaseTable` | userprog/wait.c:37-50 | the frames of one table's present pages, and the table's own, are freed |
| `Teardown.ReleaseProgResource` | userprog/wait.c:20-53 | exactly the frames of the process's user pages and page tables become free, and the directory still reaches the kernel half |
| `Teardown.SpaceDropped` | userprog/wait.c:20-53 | the invariant holds for the remaining spaces once the released one is gone |
| `Teardown.ForkThenReleaseRestores` | userprog/wait.c:34-53 | a release straight after a fork gives the user pool back bit for bit |
| `Teardown.ForkThenExit` | userprog/exit.c:19 | fork, the child's release and the switch back: user pool and address spaces as before, the parent running on a valid machine |
| `Teardown.ProcessExecute` | userprog/process.c:105-128 | exactly when a kernel page can be had, a new space without pages; every other translation and the user pool as before; a failure leaves what `GetKernelPage` leaves |
| `Teardown.NothingUsed` | userprog/fork.c:62-66 | a process without pages meets what the copy asks for |
| `Teardown.BootForkExit` | kernel/main.c:39-45 | from the loader's tables: the first process starts, forks, its child exits, the parent runs on, and the user pool is empty again |
| `MemoryRuns.StepLosesNone` | kernel/memory.c:136-154 | between two valid states no call, failed ones included, loses a user frame: each is taken exactly while a page of a live process maps to it |
| `MemoryRuns.LookStays` | kernel/memory.c:136-154 | a page that is mapped and not freed keeps its frame through every call but its own process's exit |
| `MemoryRuns.BootIsSound` | kernel/memory.c:513-569 | the machine mem_pool_init leaves is such a state |
| `KernelRuns.System.constructor` | kernel/memory.c:513-569 | the kernel after mem_pool_init: invariant, no frame lost, no process |
| `KernelRuns.System.Malloc` | kernel/memory.c:136-154 | malloc_page on a sound kernel with tables enough leaves a sound kernel, success or not |
| `KernelRuns.System.MFree` | kernel/memory.c:435-467 | mfree_page of mapped pages leaves a sound kernel |
| `KernelRuns.System.Execute` | userprog/process.c:105-128 | starting a process leaves a sound kernel, whether it succeeds or not, the new directory mapped where its pcb says |
| `KernelRuns.System.Fork` | userprog/fork.c:108-122 | so does a fork, whether it succeeds or not |
| `KernelRuns.System.ExitTo` | userprog/exit.c:11-26 | so does an exit followed by the switch to another process or a kernel thread |
| `KernelRuns.System.SwitchTo` | userprog/process.c:50-61 | so does a switch |
| `KernelRuns.System.Check` | kernel/memory.c:136-154 | decides exactly whether a request can be met: tables for the pages that get a frame, a search inside the bitmap, mapped pages to free, frames for a fork |
| `KernelRuns.System.Serve` | kernel/memory.c:136-154 | any request leaves a sound kernel: met if permitted, refused with nothing changed if not |
| `KernelRuns.RunFromBoot` | kernel/main.c:39-45 | from boot, through every sequence of requests in which an allocation short of page tables is refused: in every state the invariant holds, and a user frame is taken exactly while a page of a live process maps to it |
| `KernelRuns.StarveFromBoot` | kernel/memory.c:122 | a run from boot that loses the invariant: a process is started, kernel pages are taken until there are none, and one user page is then reported as allocated |
| `Sharing.SharedIff` | userprog/process.c:84-98 | two processes see one frame at an address exactly when it lies in the kernel half |
| `Sharing.StoreSeenIff` | userprog/fork.c:68-71 | a byte one process stores another sees exactly when it lies in the kernel half; else it keeps its own |
| `Sharing.ForkedLocksApart` | userprog/actualuserprogs/readerwriter.c:10 | after a fork the child holds the parent's byte at every mapped address, and keeps it when the parent stores there: a lock of readerwriter.c is one lock for each process |
| `Heap.BlockGeometry` | kernel/memory.c:263-273 | blocks lie behind the header, inside their page and apart from each other, and block2arena finds the page |
| `Heap.InvIsSafe` | kernel/memory.c:281-358 | live allocations overlap neither each other, nor an arena header, nor a free block |
| `Heap.DescFor` | kernel/memory.c:323-329 | the first descriptor that fits: every smaller one is too small |
| `Heap.BlockSizes` | kernel/memory.c:579-587 | block sizes start at 16 and double up to 1024; an arena holds 4084 divided by the block size |
| `Heap.LeastPower` | kernel/memory.c:323-329 | for a size from 1 to 1024 the block has the least power of two that is at least 16 and at least the size, so less than twice the size above 16 |
| `Heap.PagesFor` | kernel/memory.c:307 | the least page count that holds the size and the header |
| `Heap.TakePagesKeeps` | kernel/memory.c:308-312 | pages taken are clear of every arena, also when the allocation then fails |
| `Heap.NewArenaKeeps` | kernel/memory.c:331-349 | a new arena's blocks are all on its free list and its count says so |
| `Heap.TakeBlockKeeps` | kernel/memory.c:351-355 | the popped block was not live, and its arena's count still equals its free blocks |
| `Heap.FullArena` | kernel/memory.c:497-501 | when the count reaches blocks_per_arena every block of the arena is on the free list, so the ASSERT holds, and none is live |
| `Heap.FreeKeeps` | kernel/memory.c:474-507 | sys_free on a live pointer keeps the invariant and ends exactly that allocation |
| `Malloc.MallocKeeps` | kernel/memory.c:281-358 | sys_malloc keeps the invariant; a pointer returned was not live; NULL changes only bitmap bits |
| `Malloc.MallocSucceedsIff` | kernel/memory.c:300-336 | it fails only for a size out of range, or when a needed run of pages or its frames cannot be had |
| `Malloc.EveryRunIsSafe` | kernel/memory.c:281-358 | in every run, with other clients of the page bitmap in between, allocations are disjoint and clear of headers and free blocks, counts are exact and no idle arena survives a call |
| `Malloc.FreeUndoesMalloc` | kernel/memory.c:474-507 | freeing the pointer just returned restores the heap, up to one rotation of one free list |
| `Malloc.AssertHoldsIff` | kernel/memory.c:137 | the ASSERT in malloc_page holds exactly for sizes up to 3839 pages less the header |
| `Malloc.LargestSizeTripsAssert` | kernel/memory.c:300 | with 3840-page pools sys_malloc lets a size through that trips that ASSERT |
| `Malloc.BlocksInOrder` | kernel/memory.c:338-355 | on a heap without a free block of the size, the first page given being P: call k returns address P + 12 + k times the block size, until 4084 bytes are used up |
| `Malloc.PlaceGiven` | kernel/memory.c:263-273 | a pointer returned for a size up to 1024 lies in an arena of that size's descriptor; for a larger size it lies 12 bytes into the first of the least number of pages that hold it |
| `Malloc.EmptyHeap` | kernel/memory.c:579-587 | block_desc_init's heap meets the invariant |
| `Allocators.LiveByteMapped` | kernel/memory.c:281-358 | every byte of a live allocation lies in a mapped page |
| `Allocators.LiveBytesApart` | kernel/memory.c:281-358 | two bytes of live allocations never have the same physical address |
| `ManyHeaps.HeapsApart` | kernel/memory.c:281-300 | nor do bytes of live allocations of two heaps, the kernel's and a process's or two processes' |
| `ManyHeaps.HeapSurvives` | kernel/memory.c:281-358 | a heap is whole and mapped after any other caller's call that does not free its pages or end its process, though the page bitmap changed under it |
| `Allocators.MallocBacks` | kernel/memory.c:308-312 | malloc_page unmaps no page and maps the whole run it returns, on frames that hold no directory |
| `Allocators.Allocator.SysMallocLarge` | kernel/memory.c:306-320 | the page path over malloc_page; the arena's pages are mapped exactly when no table was lost |
| `Allocators.Allocator.SysMalloc` | kernel/memory.c:281-358 | in place and over the page allocator, the call computes `Malloc` of the old state, with as many frames as the pool holds, and returns its pointer; every arena page stays mapped, unless a table had to be made from an empty kernel pool |
| `Allocators.Allocator.SysMallocSmall` | kernel/memory.c:323-357 | the block path, new arena included, with the same condition |
| `Allocators.Allocator.FillArena` | kernel/memory.c:338-347 | the append loop puts the arena's blocks in order on the list, the ASSERT holding each time |
| `Allocators.Allocator.FindDesc` | kernel/memory.c:323-329 | the loop stops at `DescFor` |
| `Allocators.Allocator.PopBlock` | kernel/memory.c:351-355 | the head of the list is handed out and counted |
| `Allocators.Allocator.UnlinkArena` | kernel/memory.c:498-502 | the remove loop takes exactly the arena's blocks off the list, order kept |
| `Allocators.Allocator.SysFree` | kernel/memory.c:474-507 | in place, the call computes `Free` of the old state; freed pages are unmapped and returned, all others stay mapped |
| `Allocators.Allocator.TakeRun` | kernel/memory.c:136-154 | malloc_page on the owner's bitmap: the first clear run, kept on failure; pages mapped before stay mapped |
| `Allocators.Allocator.GiveRun` | kernel/memory.c:435-467 | mfree_page on an arena: its run is clear and unmapped, every other arena stays mapped |
| `Allocators.Allocator.constructor` | kernel/memory.c:579-587 | seven empty lists over the owner's bitmap, some of whose pages may be taken; the sizes are those of `BlockSizes` |
| `Locks.PrivateStep` | thread/sync.c:74-101 | steps that touch neither queue nor semaphore keep holder and count in step with the owner's depth |
| `Locks.DownKeeps` | thread/sync.c:37-50 | one pass of semaphore_down keeps the invariant |
| `Locks.UpKeeps` | thread/sync.c:59-67 | semaphore_up keeps the invariant and leaves a thread on its way to re-check |
| `Locks.EveryRunIsCorrect` | thread/sync.c:37-100 | for any number of well-bracketed threads preempted anywhere: mutual exclusion, count equals nesting depth, semaphore 0 or 1, no ASSERT fails, no wakeup is lost |
| `LockLaws.AcquireFree` | thread/sync.c:74-82 | a caller alone on a free lock returns as its holder, once, the semaphore 0 and the waiters untouched |
| `LockLaws.AcquireAgain` | thread/sync.c:81-82 | the holder's further call only counts up |
| `LockLaws.AcquireHeld` | thread/sync.c:40-44 | on a lock another thread holds the caller becomes the last waiter |
| `LockLaws.ReleaseInner` | thread/sync.c:92-95 | a release that is not the last only counts down |
| `LockLaws.ReleaseLast` | thread/sync.c:97-100 | the last one leaves no holder, count 0, semaphore 1, and sends the first waiter and no other to try again |
| `LockLaws.FirstWaiterIsNext` | thread/sync.c:59-67 | that waiter, if it runs next, returns from lock_acquire as the holder |
| `LockLaws.NestingUndone` | thread/sync.c:74-100 | any number of nested acquires followed by as many releases leave the lock as lock_init made it, and nobody else moved |
| `ReadersWriters.NeverReentrant` | userprog/actualuserprogs/readerwriter.c:21-84 | a process never asks for a lock whose holder field names it |
| `ReadersWriters.TakeGroup` | userprog/actualuserprogs/readerwriter.c:25-32 | taking a lock gives the taker or its group the only claim on it and moves no other claim |
| `ReadersWriters.ReleaseGroup` | userprog/actualuserprogs/readerwriter.c:37-44 | releasing ends that claim, also when the releaser is not the acquirer |
| `ReadersWriters.ReleaseLocal` | thread/sync.c:89-100 | every release finds the lock taken exactly once |
| `ReadersWriters.StoreGroup` | userprog/actualuserprogs/readerwriter.c:26 | a counter written inside its lock leaves every claim as it was |
| `ReadersWriters.InvIsExclusive` | userprog/actualuserprogs/readerwriter.c:63-74 | one writer at a time and no reader beside it |
| `ReadersWriters.WakerExists` | thread/sync.c:59-67 | a free lock with waiters has a process that can re-check it |
| `ReadersWriters.NoDeadlock` | userprog/actualuserprogs/readerwriter.c:21-84 | some process can always move |
| `ReadersWriters.EveryRunIsCorrect` | userprog/actualuserprogs/readerwriter.c:21-84 | in every state of every run with any number of readers and writers: exclusion, ASSERTs and no reentrant branch, progress |
| `AccessLaws.ReaderRound` | userprog/actualuserprogs/readerwriter.c:21-44 | a reader alone reaches the data in nine steps, holding wrt and m for its kind, and in eight more leaves every lock and counter as they were |
| `AccessLaws.WriterRound` | userprog/actualuserprogs/readerwriter.c:63-84 | a writer alone reaches the data in nine steps, holding m and, for its kind, rdr, and in eight more leaves everything as it was |
| `AccessLaws.ReadersShare` | userprog/actualuserprogs/readerwriter.c:25-32 | while one reader is at the data, another that finds rdr and x free joins it in seven steps and takes no further lock |
| `AccessLaws.KeptOut` | userprog/actualuserprogs/readerwriter.c:21-84 | in every run, while some writer is past its door no reader passes the first lock, and while some reader is no writer does |
| `AccessLaws.WaitsLast` | thread/sync.c:40-44 | on a lock that is taken a caller is queued behind all who wait |
| `AccessLaws.FirstIsWoken` | thread/sync.c:59-67 | a release lets the first waiter, and no other, try again, and touches no other lock |
| `Scheduler.RouseKeeps` | thread/thread.c:221-223 | an empty ready list means idle is blocked and on no list, so waking it is sound |
| `Scheduler.ScheduleKeeps` | thread/thread.c:198-236 | whatever state the last thread left, schedule finds a thread and leaves exactly one RUNNING |
| `Scheduler.YieldKeeps` | thread/thread.c:242-250 | thread_yield keeps the invariant |
| `Scheduler.BlockKeeps` | thread/thread.c:271-278 | thread_block keeps the invariant |
| `Scheduler.UnblockKeeps` | thread/thread.c:285-296 | thread_unblock of a thread on no list keeps the invariant |
| `Scheduler.ExitKeeps` | thread/thread.c:304-322 | thread_exit keeps the invariant, for the running thread and for another |
| `Scheduler.DownKeeps` | thread/sync.c:37-50 | blocking on a semaphore keeps every thread on at most one list |
| `Scheduler.UpKeeps` | thread/sync.c:59-67 | a waiter moves from its wait list to the ready list |
| `Scheduler.EveryRunIsSound` | thread/thread.c:198-322 | in every run one thread is RUNNING, a thread is on the ready list once iff it is READY and on at most one list, and with no one ready idle is blocked |
| `Scheduler.Boot` | thread/thread.c:256-263 | the lists of thread_init meet the invariant |
| `Scheduler.RoundRobin` | thread/thread.c:204-229 | without blocking or waking, the thread at place k of the ready list runs after k + 1 slices |
| `Scheduler.SliceLasts` | device/timer.c:59-62 | a thread keeps the CPU for its remaining ticks and loses it at the next one |
| `Scheduler.FullRound` | thread/thread.c:204-229 | a full round restores the running thread and the order of the others |
| `SchedulerLaws.PreemptedLaw` | thread/thread.c:204-229 | a thread whose slice ended is READY at the tail with its ticks equal to its priority again, the head of the list runs, nothing else changes |
| `SchedulerLaws.YieldLaw` | thread/thread.c:242-250 | a thread that yields goes to the tail of the list READY with the ticks it had, and whoever is then first runs |
| `SchedulerLaws.YieldLetsGo` | device/timer.c:66-69 | so the thread at place k of the list runs k slices after a yield, before the yielder |
| `SchedulerLaws.BlockLaw` | thread/thread.c:271-278 | a thread that blocks has the status it gave, and the head of the ready list leaves it and runs, idle when it is empty; slices and semaphores stay |
| `SchedulerLaws.UnblockLaw` | thread/thread.c:285-296 | the woken thread is READY in front of all others and nothing else changes |
| `SchedulerLaws.StartLaw` | thread/thread.c:167-180 | a new thread is READY and last on both lists with a full slice |
| `SchedulerLaws.ExitLaw` | thread/thread.c:304-322 | the thread leaves both lists, the order of the others kept; if it ran, the head of the list runs |
| `SchedulerLaws.DownLaw` | thread/sync.c:37-50 | a positive value goes down by one and nothing else changes; at 0 the caller is the last waiter, BLOCKED, and the head of the list runs |
| `SchedulerLaws.UpLaw` | thread/sync.c:59-67 | the value goes up by one, and the first waiter, if any, leaves the queue READY in front of the ready list |
| `SchedulerLaws.WokenGetsThrough` | thread/sync.c:37-67 | after an up with waiters, through any events in which nobody takes from the semaphore, the woken thread's next down finds a positive value and passes |
| `SchedulerLaws.ValueBalances` | thread/sync.c:37-67 | in every run a semaphore's value is what it was, and the ups, less the downs that passed |
| `Scheduler.Kernel.DoSchedule` | thread/thread.c:198-236 | in place, with the ASSERTs, the call computes `Schedule` of the old state |
| `Scheduler.Kernel.DoYield` | thread/thread.c:242-250 | in place, `Yield`, of which `YieldLaw` speaks; the ASSERT holds |
| `Scheduler.Kernel.DoBlock` | thread/thread.c:271-278 | in place, `Block`, of which `BlockLaw` speaks |
| `Scheduler.Kernel.DoUnblock` | thread/thread.c:285-296 | in place, `Unblock`: to the front of the list; the ASSERTs hold |
| `Scheduler.Kernel.DoStart` | thread/thread.c:167-180 | in place, `Start`; the ASSERTs hold |
| `Scheduler.Kernel.DoExit` | thread/thread.c:304-322 | in place, `Exit` |
| `Scheduler.Kernel.TimerInterrupt` | device/timer.c:46-63 | in place, `Tick`: a tick of the slice, or a switch |
| `Scheduler.Kernel.SemaphoreDown` | thread/sync.c:37-50 | in place, one pass of the loop; the ASSERT holds |
| `Scheduler.Kernel.SemaphoreUp` | thread/sync.c:59-67 | in place, `Up`, of which `UpLaw` speaks |
| `Processes.ForkKeeps` | userprog/fork.c:124-140 | a fork takes a pid no process has and keeps the invariant |
| `Processes.ExitKeeps` | userprog/exit.c:11-26 | an exit hands its children to init, wakes a waiting parent and keeps the invariant |
| `Processes.ReapKeeps` | userprog/wait.c:84-92 | reaping removes one hanging child, frees its pid and records it once |
| `Processes.WaitKeeps` | userprog/wait.c:81-129 | one pass of either wait loop keeps the invariant |
| `Processes.NeverRevived` | thread/thread.c:285-296 | a hanging process stays hanging with its status until it is reaped |
| `Processes.EveryRunIsCorrect` | userprog/wait.c:61-129 | in every run: parents alive, no waiter but init asleep on a hanging child, each exit reaped at most once with its 8-bit status, no hanging process revived |
| `Processes.InitOverlooksIff` | userprog/exit.c:18 | an exit leaves init asleep on a hanging child exactly when it hands one over and is not itself init's child |
| `Processes.InitLeftAsleep` | userprog/exit.c:18 | a run from boot that ends so: init forks, two more generations fork, init waits, the youngest exits, then its parent |
| `Processes.PidsRunOutIff` | thread/thread.c:87-93 | alloc_pid's search fails exactly when the pids 1 to 127 are all taken |
| `Processes.PidsRunOut` | thread/thread.c:87-93 | with init and 126 kernel threads a fork gets pid 0 |
| `Processes.WaitOutcome` | userprog/wait.c:81-129 | a wait by pid collects that child iff it hangs and sleeps iff it is there and does not; a wait for any child collects one iff some child hangs, and finds none iff no process has the caller for a parent |
| `Processes.ExitWakesParent` | userprog/exit.c:21-25 | after an exit the parent is not waiting and the process hangs |
| `Processes.Table.constructor` | thread/thread.c:256-263 | init and kernel threads with the first pids |
| `Processes.Table.SysFork` | userprog/fork.c:124-140 | in place, `Fork`, the child last on the list, if and only if one of the pids 1 to 127 is free; otherwise the pid is 0 |
| `Processes.Table.ChangeParents` | userprog/wait.c:73-79 | the traversal re-parents every child |
| `Processes.Table.SysExit` | userprog/exit.c:11-26 | in place, `Exit` |
| `Processes.Table.FirstAwaited` | userprog/wait.c:61-111 | for a pid that process if it hangs, or if it is there, as asked; for any child the first on the list with the caller for a parent, hanging if so asked; none exactly when there is none |
| `Processes.Table.Reap` | thread/thread.c:304-322 | the child leaves the list, its pid is free, its status is returned |
| `Processes.Table.SysWait` | userprog/wait.c:81-129 | in place, one pass of the loop: for an own child by pid, it is returned with its status iff it hangs, and the caller sleeps iff it is there and does not; for any child, the first hanging one on the list is returned with its status iff one hangs, and -1 iff the caller has no child |
| `Processes.Int8` | userprog/exit.c:13 | the stored status is the argument modulo 256, read as a signed byte |
| `Processes.Boot` | thread/thread.c:256-263 | parentless processes with their pids taken meet the invariant |
| `ProcessLaws.ForkLaw` | userprog/fork.c:124-140 | one process more: the least pid not in use, the caller for a parent, awake, its identity new; no other process changes |
| `ProcessLaws.ExitLaw` | userprog/exit.c:11-26 | process by process: the caller's children have parent 1, the caller hangs with its status byte, a waiting parent is awake, nothing else changes and no process leaves the table |
| `ProcessLaws.ReapLaw` | userprog/wait.c:84-92 | the child is gone, its pid free, its status in the log, the caller no longer waits, nothing else changes |
| `Fat.EntryWritten` | filesystem/disk.c:152-177 | an entry reads back as the value mod 4096 and every other entry is unchanged, also across a sector boundary |
| `Fat.EntryFrame` | filesystem/disk.c:135-138 | only the two tables change, and identical tables stay identical |
| `Fat.PairIsLittleEndian` | filesystem/disk.c:140-150 | two entries are one 24-bit little-endian number of three bytes |
| `Fat.FirstEmpty` | filesystem/disk.c:179-197 | the least entry that reads 0, or 65535 |
| `Fat.SearchOutcome` | filesystem/disk.c:179-197 | the answer is a data cluster iff one of 2 to 2848 is free; else an entry of 2849 to 3071, whose sector is off the volume, iff one of those reads 0; else 65535, whose sector is 30, in the root directory |
| `Fat.FullDataArea` | filesystem/disk.c:123 | with every data cluster taken and entry 2849 zero, 2849 is handed out: its sector 2880 passes the ASSERT, the next one's does not |
| `Witnesses.FullDataAreaExample` | filesystem/disk.c:179-197 | a concrete table of that kind |
| `Fat.Volume.UpdateImg` | filesystem/disk.c:24-32 | img holds the first twenty sectors |
| `Fat.Volume.GetNext` | filesystem/disk.c:140-150 | the decoded entry; past the last one it reads on into the second table |
| `Fat.PairAgrees` | filesystem/disk.c:135-138 | writing both copies of a table sector makes the two tables identical even where that sector's copies differed before |
| `Fat.Volume.WriteNext` | filesystem/disk.c:152-177 | the read-modify-write of one or two sectors computes `WithEntry` |
| `Fat.Volume.FindEmpty` | filesystem/disk.c:179-197 | on every table the three-byte scan returns `FirstEmpty` and wipes that cluster's sector, the ASSERT holding iff the sector is at most 2880 |
| `Fat.Volume.ClearCluster` | filesystem/disk.c:129-133 | the ASSERT holds iff the sector is at most 2880; a data cluster then reads zero and no sector of the tables or the root changed |
| `Chains.ChainUnique` | filesystem/disk.c:140-150 | a table has one chain from a given cluster |
| `Chains.ChainsAreAcyclic` | filesystem/disk.c:140-150 | a chain that reaches an end mark has no cluster twice |
| `Chains.AppendCluster` | filesystem/disk.c:199-205 | on every table: the first empty entry, whatever it is, is zeroed, linked and made the end, except that the ASSERT stops the call exactly for an entry in 2850 to 3071; with a free data cluster it goes through |
| `Chains.AppendOnFullTable` | filesystem/disk.c:199-205 | with no entry left the tail is marked as an end again, root sector 30 is wiped and data sectors 192 and 201 are overwritten alike |
| `Chains.AppendExtends` | filesystem/disk.c:199-205 | appending at a tail extends only that chain, by a cluster no file had, zeroed and marked 0xfff; no other sector changes |
| `Chains.ClearFile` | filesystem/file.c:322-332 | the walk terminates and frees the clusters of the chain one by one |
| `Chains.ClearingFrees` | filesystem/file.c:322-332 | exactly the chain's entries become 0 and its sectors zero; every other chain and sector stays |
| `Chains.StartingAdds` | filesystem/fsfunc.c:162-171 | a new file's first cluster, zeroed and marked 0xfff, is a chain of its own |
| `Chains.FormattedIsSound` | filesystem/disk.c:140-150 | a formatted volume meets the invariant |
| `Chains.ChainsStaySound` | filesystem/disk.c:179-205 | after any sequence of these the table holds disjoint acyclic chains |
| `Chains.TakeBytes` | userprog/exec.c:101-104 | the inner loop copies a sector's tail, stopping when the size is reached |
| `Chains.TakeSector` | userprog/exec.c:98-106 | one sector skipped, or copied as far as the request goes |
| `Chains.ReadFile` | userprog/exec.c:87-110 | for size > 0 the result is the size and that slice of the chain's bytes iff the chain holds them, else -1; for size 0 the loop never stops early and everything is copied |
| `FileIO.Pool.GetEmptyNode` | filesystem/file.c:277-285 | the first unused node, zeroed, or none exactly when all are used |
| `FileIO.NextBuffer` | filesystem/fsfunc.c:225-234 | the chain grows only when it ends here, and a fresh node joins the list |
| `FileIO.PutBlock` | filesystem/fsfunc.c:221-236 | one more block is buffered; it fails exactly when the nodes run out, and then the list holds as many blocks as there were nodes |
| `FileIO.WriteFile` | filesystem/fsfunc.c:207-259 | succeeds iff the file is writable and nodes suffice; then the nodes hold the zero-padded blocks, the chain has a cluster for each and ends there, other files are untouched; on failure the list holds as many blocks as there were nodes and other files are untouched; index 512 of the buffer is written iff there are 512 bytes or more |
| `FileIO.WriteFromSda` | filesystem/fsfunc.c:261-294 | the same with whole sectors of the other disk and no new end mark |
| `FileIO.Truncated` | filesystem/fsfunc.c:256 | the end mark cuts the chain after the last cluster used |
| `FileIO.CloseFile` | filesystem/file.c:302-320 | the buffers, if any, go to the chain's first clusters in order, the nodes are freed, the size is what was buffered |
| `FileIO.OpenThenClose` | filesystem/file.c:302-320 | closing a file never written sets its size to 0 and leaves its clusters and the nodes alone |
| `Witnesses.WritesPastBuffer` | filesystem/fsfunc.c:222 | 512 bytes written to a formatted volume reach index 512 of the buffer |
| `FileIO.PaddedWithZeros` | filesystem/fsfunc.c:221-250 | the blocks written are the content followed by fewer than 512 zeros |
| `FileIO.StoredKeepsChains` | filesystem/file.c:302-320 | storing data changes no chain |
| `FileIO.WriteCloseRead` | filesystem/fsfunc.c:207-259 | write, close, read at any offset and size within the content returns exactly those bytes; other files and the node pool are as before |
| `FileIO.SdaCloseRead` | filesystem/fsfunc.c:261-294 | the same for write_file_from_sda |
| `Append.AppendFile` | filesystem/fsfunc.c:401-444 | the sectors from the second file's last byte on are those of `Pour`; chains stay disjoint and no other sector changes |
| `Append.PourSector` | filesystem/fsfunc.c:420-437 | one source sector completes the current cluster and carries its rest over |
| `Append.PourReads` | filesystem/fsfunc.c:417-440 | short of a fill of 511, the poured sectors read as the filled part, the source, then zeros |
| `Append.PourStuck` | filesystem/fsfunc.c:429 | at a fill of 511 only one, rotated, sector remains whatever is poured |
| `Append.AppendConcatenatesIff` | filesystem/fsfunc.c:401-444 | for a non-empty second file whose chain is as long as its size needs, the result begins with its old bytes and the first file's iff its size mod 512 is not 511, or the first file has at most one byte and the rotated sector happens to agree |
| `Append.EmptyTargetIff` | filesystem/fsfunc.c:414-419 | for an empty second file it is so iff the skipped cluster followed by the source begins like the source, for as many bytes as the first file has |
| `Append.EmptyTargetReads` | filesystem/fsfunc.c:414-440 | an empty second file reads as its old cluster, then the source, then zeros |
| `Append.ExactAgainIff` | filesystem/fsfunc.c:438-443 | when the grown chain is again as long as the new size needs, which a second append asks for |
| `Witnesses.LosesOldBytes` | filesystem/fsfunc.c:429 | one byte appended to 511 bytes of ones on a concrete volume: the file is one sector, all zeros |
| `Witnesses.SkipsACluster` | filesystem/fsfunc.c:414-419 | 511 bytes of ones appended to an empty file on a concrete volume: the file reads as 512 zeros, then the source's sector |
| `Directory.SlotRoundTrip` | filesystem/disk.c:207-226 | a file stored in a slot is the file parsed from it, Reserved bytes aside |
| `Directory.FilledBytes` | filesystem/disk.c:207-226 | every byte of the slot written: name in 0 to 10, attribute 11, time 22 and 23, date 24 and 25, first cluster 26 and 27, size 28 to 31, low byte first; 12 to 21 unchanged |
| `Directory.ParsedBytes` | filesystem/file.c:70-88 | the fields read are the little-endian numbers of those bytes, and a slot is unused exactly when its first byte is 0 or 0xe5 |
| `Directory.SlotBytes` | filesystem/fsfunc.c:69-101 | byte k of slot i is byte 32 (i mod 16) + k of sector 19 + i / 16 |
| `Directory.EntryOnDisk` | filesystem/disk.c:207-226 | after a file is stored in slot i, byte k of its entry is byte 32i + k of the root directory, and no other byte of the disk changed |
| `Directory.FilesInOrder` | filesystem/fsfunc.c:69-101 | a used slot is parsed at the place its number of used predecessors says |
| `Directory.Areas` | filesystem/disk.c:123 | the root directory lies behind the two tables, and behind it every sector up to 2879 is one data cluster's |
| `Directory.FileJoins` | filesystem/fsfunc.c:69-101 | a file stored in a free slot joins the parsed files as a multiset |
| `Directory.CreateEntryInSector` | filesystem/disk.c:207-226 | the sector's first free slot is filled, or false and nothing changes |
| `Directory.CreateRootEntry` | filesystem/file.c:230-247 | the root's first free slot is filled, or false when all 224 are used |
| `Directory.BuildRoot` | filesystem/fsfunc.c:69-101 | the root's used slots parsed in order |
| `Directory.Exists` | filesystem/fsfunc.c:138-151 | whether a sibling has the name |
| `Directory.RootDirectory.constructor` | filesystem/fsfunc.c:65-67 | the parsed root as sibling list |
| `Directory.RootDirectory.CreateEmptyFile` | filesystem/fsfunc.c:153-175 | succeeds iff the name is new and a slot is free; the list stays a permutation of the parsed directory with distinct names, the new file has its one-cluster chain, zeroed, and no other sector of the data area changes |
| `Directory.CacheStaysTrue` | filesystem/fsfunc.c:153-175 | so it is after any sequence of calls |
| `Loader.PagesCover` | userprog/exec.c:117-126 | the pages counted off are exactly those the segment meets |
| `Loader.MapSegment` | userprog/exec.c:116-145 | present pages keep frame and bytes, missing ones get a fresh frame each; it succeeds iff the user pool has a frame for each; the invariant survives if and only if the kernel pool can supply the tables of the pages it gets through |
| `Loader.GetOnePage` | kernel/memory.c:193-225 | the page's virtual bit is set and the page granted, or NULL exactly when the user pool is exhausted, the bit then still set |
| `Loader.LoadSegment` | userprog/exec.c:116-148 | after it the file's bytes stand from the segment's address on, as many as were asked for or the file has, and no other byte of any process and no other frame changed; an empty segment takes the rest of the file up to the first unmapped page |
| `UserMemory.WordOfBytes` | userprog/exec.c:101 | a word is its four bytes, the low one first |
| `UserMemory.ByteStored` | userprog/exec.c:101 | one byte stored through a process's address changes that byte and no other byte of any process |
| `UserMemory.StoreBytes` | userprog/exec.c:100-103 | the bytes stand in order from the address on, up to the first page that is not mapped |
| `Loader.EmptySegmentTakesAPage` | userprog/exec.c:124-126 | an empty segment is still given a page |
| `Ide.SelectedIsSeen` | device/ide.c:90-105 | what the driver writes is what the device sees: bit 4 of the device register is the drive number, bit 6 is set, and the address and the count are those asked for, 0 standing for 256 |
| `Ide.Controller.Read` | device/ide.c:153-195 | on a channel with two drives, of which the device side takes the one its register names: the chunk loop returns exactly the sectors asked for of drive `no`, in order; the ASSERTs hold and neither drive changes |
| `Ide.Controller.ReadChunk` | device/ide.c:171-191 | one pass of the loop: select, command and transfer give those sectors of drive `no` |
| `Ide.Controller.Write` | device/ide.c:198-237 | the chunk loop writes exactly those sectors of drive `no`; every other sector and the other drive stay |
| `Ide.WriteThenRead` | device/ide.c:153-237 | writing a drive then reading it gives the data back, and the other drive is as before |
| `Ide.StepKeeps` | device/ide.c:333-348 | driver steps and interrupts, real or spurious, keep the handshake invariant |
| `Ide.ServedEitherWay` | device/ide.c:333-348 | an interrupt before semaphore_down and one that finds the caller asleep lead to the same state, the command completed once |
| `Ide.CommandRound` | device/ide.c:153-195 | a one-command call that nobody contends for leaves the channel as it was, one command further |
| `Ide.EveryCommandIsMatched` | device/ide.c:108-112 | under any interleaving each command has one completion, disk_done is at most 1, and a sleeping client has an interrupt to come |
| `Lists.List.constructor` | lib/kernel/list.c:9-14 | an empty list |
| `Lists.List.InsertBefore` | lib/kernel/list.c:20-29 | the node is in the sequence before `src`; only it and its neighbours are modified |
| `Lists.List.Push` | lib/kernel/list.c:35-37 | the node becomes the first |
| `Lists.List.Append` | lib/kernel/list.c:43-45 | the node becomes the last |
| `Lists.List.Remove` | lib/kernel/list.c:51-58 | the node leaves the sequence; only its neighbours are modified |
| `Lists.List.Pop` | lib/kernel/list.c:65-69 | the first node leaves and is returned |
| `Lists.List.Find` | lib/kernel/list.c:75-84 | membership |
| `Lists.List.Traverse` | lib/kernel/list.c:91-103 | the first node the test accepts, or null when none is |
| `Lists.List.Len` | lib/kernel/list.c:109-117 | the length |
| `Lists.List.Empty` | lib/kernel/list.c:124-126 | whether there is no node |
| `Lists.Forwards` | lib/kernel/list.c:91-103 | following next yields the sequence |
| `Lists.Backwards` | lib/kernel/list.c:20-29 | following prev yields it reversed |
| `Lists.MoveFirst` | thread/sync.c:61-64 | pop from one list and push on another: both sequences as expected, neither disturbed by the other |

## Left out

- boot code, assembly, descriptor tables, the context switch itself and the TLB: taken as assumptions of the model.
- console, keyboard, formatted printing and the shell commands: user interface.
- device/ioqueue.c: a plain ring buffer.
- busy_wait, identify_disk and partition_scan: hardware polling; a command's data transfer is one step.
- PageAllocator.Machine.constructor: takes the heap's page-table entries to be absent at power-on; the loader does not clear
  them.
- PageAllocator.Machine.VaddrGet: leaves out a search that runs off the bitmap, whose result depends on the memory behind.
- PageAllocator.Machine.MallocPage: leaves out the same search.
- Allocators.Allocator.TakeRun: leaves out the same search.
- PageAllocator.Machine.AllocateThenFree: asks for the tables `MallocPage` shows to be exactly what a sound state needs;
  there is nothing to restore from a lost one.
- Teardown.CopyProcess: leaves out the kernel pages for the child's pcb and bitmap, its kernel stack and the copy of the
  pcb, so it succeeds where those are to be had besides; asks for user frames and tables for every used page.
- Teardown.ProcessExecute: leaves out the kernel pages for the pcb and the bitmap.
- Teardown.ReleaseProgResource: leaves out the release of the bitmap pages, whose count it rounds down where creation
  rounds it up, so conservation is stated for the user pool.
- Teardown.BootForkExit: the first process has no page yet; start_process's stack page is left out.
- Malloc.MallocSucceedsIff: speaks of a pool that has the frames or has not; `Allocators.Allocator.SysMalloc` says which.
- Allocators.Allocator.SysMalloc: does not model memory contents, so neither the zeroing of what is handed out nor headers
  and list nodes as bytes; that no allocation overlaps them is `EveryRunIsSafe`.
- Allocators.Allocator.SysMallocSmall: does not model the zeroing of the block either.
- Allocators.Allocator.SysMallocLarge: does not model the zeroing of the pages either.
- Scheduler.Kernel.DoExit: leaves out the release of the pcb page, the directory and the pid (the pid is in `Processes`).
- Processes.Table.SysFork: leaves out the stray bit a fork without a pid sets outside the bitmap.
- Processes.Table.SysWait: leaves out a wait by pid for a process that is not the caller's child, which the source would
  collect all the same.
- ReadersWriters.EveryRunIsCorrect: speaks of locks in memory all processes share, which those of the source do not.
- KernelRuns.RunFromBoot: refuses an allocation short of page tables; what that does is in `FrameZero` and `MallocPage`.
- Append.AppendFile: leaves out a file appended to itself and a disk without room for the result.
- Directory.RootDirectory.CreateEmptyFile: leaves out a full disk and a full file table.
- Locks.EveryRunIsCorrect: does not model wrap-around of the 32-bit repeat count.
- Processes.WaitKeeps: lets any hanging child be reaped, so that the runs include those of the source, which takes the
  first on its list as `Table.SysWait` does.
- Directory.BuildRoot: leaves out the capacity of the file table and the recursion into subdirectories.
- directory growth in create_dir_entry, subdirectories in build_tree, rm, rmdir, is_dir_empty and read_file: the code does
  not deliver what they are for.
- FileIO.WriteFile: does not free the clusters write_file cuts off; they stay allocated and in no chain.
- open_file and close_file's reference counts: a counter around `CloseFile`.
- Loader.MapSegment: segments above 0xc0000000 or below 0x8048000 are left out; the loader does not check for them.
- Loader.LoadSegment: asks for the tables `MapSegment` shows to be needed; an ELF header's checks in load are left out.
