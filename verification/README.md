# protOS kernel model

A Dafny model of the core of protOS: physical frames, page tables and heaps; the scheduler, its lists and locks;
messages and descriptors between processes; the boot archive with path lookup; and the word-at-a-time copying and
drawing routines. Code that updates state in place is modelled by classes and methods with loops; what those methods
compute is tied to functions and predicates over the state, and the main results are lemmas and postconditions about
every state, every run or every input of these.

## How it is arranged

- **Frames and page tables.** `Words`, `PageTables` and `Trees` hold the entry bits and the four-level trees; several
  trees may share subtrees below their upper halves. `MemoryMap`, `Machines` and `FreelistPmm` hold the frame allocator,
  whose list is threaded through the frames. `Vmm`, `Ranges`, `Share`, `AddressSpaces`, `Teardown`, `Brk` and `Elf` are the
  operations on spaces, `Rights` what their pages may be used for, `Ownership` what any sequence of them keeps. Frames are
  named by frame number and hold 512 words. A ghost book says which frames are on the free list and which are handed out; a
  ghost set holds the top-level tables in use.
- **Heaps.** `Bytes` and `BlockList` give headers as bytes and the doubly linked list in them, `Allocations` and
  `HeapSteps` what each list operation does to the holders of memory, `Heaps` the operations store by store,
  `KernelHeap` and `UserHeap` the two allocators, `HeapRuns` programs that use the first.
- **Threads.** `Lists` and `LinkedLists` are the intrusive lists. `Scheduling` is the state machine whose steps are system
  calls and timer ticks, `SchedulerRuns` its runs, `TickRuns` those in which only the timer ticks, `StepEffects` what each
  step does to every thread. `WaitQueues` is what queued threads may rely on, `Wakeups` what all sleeping threads may,
  `DoubleSleeps` what goes wrong for one that sleeps for two reasons. `Scheduler` is the code as it is written, proved to
  perform those steps. `TicketLock` works at the granularity of the atomic operations. `Ipc` and `Descriptors` are message
  queues, topics, reference counts and asynchronous operations.
- **Files.** `Strings`, `Paths`, `Ustar`, `TarTree`, `Tarfs` and `Vfs`, where the device tree covers a folder of the boot
  archive. The archive format is the "ustar Interchange Format" of the pax utility in IEEE Std 1003.1.
- **Fast forms.** `Copies` and `Blits`.

Where the code does not do what one would expect of it, the model follows the code and says exactly when the expectation
holds:

- A thread that is running when the count starts may wait longer than its index + 1 ticks
  (`TickRuns.RunningThreadWaitsLonger`). At index `i` it is picked within `i + 1` ticks if and only if at most `i` other
  threads are ready (`TickRuns.RunningPicked`); every other ready thread always is (`TickRuns.WaitingPicked`,
  `SchedulerRuns.BoundedWaiting`).
- A thread that joins a wait queue before its next tick after starting a child with a blocking call is woken by the child's
  end while it is still listed. It may end and be freed before the queue is woken, which then stores into the freed record
  (`DoubleSleeps.WakeupOfFreedThread`). Joining keeps every queued thread allocated and asleep over all continuations if and
  only if the thread is not waiting for a process at the call (`DoubleSleeps.JoinsSafelyExactly`).
- A thread that waits for a process all of whose threads have stopped, or for a pid of zero or less, sleeps for ever
  (`Wakeups.WaitsForEver`). Waiting loses no wake-up over all continuations if and only if the process has a thread at the
  call that has not stopped (`Wakeups.WaitsSafelyExactly`).
- The ticket lock excludes over all schedules if and only if at most 2^32 contend (`TicketLock.ExclusiveExactlyUpTo`).
- A load segment whose address is not page-aligned does not get its first page (`Elf.FirstPageMapped`), and a segment that
  shares a page with a later one stays in memory if and only if the two agree there (`Elf.LoadedExactly`).
- The name that the format gives an archive entry is the name that the code reads if and only if the header does not use
  its prefix field, and a name that fills the name field is followed by a NUL (`Ustar.NameRead`).
- A stored path leads to its entry if and only if the device tree does not cover it (`Vfs.StoredFound`).
- Looking up what `getcwd` prints leads back if and only if the folder is in the archive and its path has at most 511
  characters and 32 segments: among the devices the path of the mount is not printed (`Vfs.GetcwdRoundTrip`).
- A path that leads to a file leads nowhere with `/.` behind it (`Vfs.DotSkipped`).
- The inverted outline leaves its four corners as they are (`Blits.OutlineWithoutCorners`).
- `k_alloc` returns null whenever nothing fits, also when it has just grown the heap (`KernelHeap.KAlloc`).

## Model

| member | source | states |
|---|---|---|
| Words.AlignUp | include/utils/utils.h:6 | the least multiple of the page size not below the address |
| Words.AlignDown | include/utils/utils.h:7 | the greatest multiple of the page size not above the address |
| Words.PagesFor | include/utils/utils.h:9-12 | the least number of pages that hold the size |
| Words.Leaf | src/memory/vmm.c:46-55 | a leaf entry is present, names the frame of the address and has the given rights |
| Words.LeafFlags | src/memory/vmm.c:46-55 | and all its other bits are those of the flags, no-execute and cache bits among them |
| Words.TableEntry | src/memory/vmm.c:27-44 | a new table entry is present, names the new frame and has the rights asked for |
| Words.Widen | src/memory/vmm.c:27-44 | widening an entry keeps its frame and presence and never takes a right away |
| Words.TableBits | src/memory/vmm.c:27-44 | all other bits: none in a new table entry, those of the old one in a widened one; neither forbids execution anew |
| PageTables.FieldsArePath | include/memory/vmm.h:29-39 | the four index fields of the address union are the digits of the virtual page number |
| PageTables.PathInjective | include/memory/vmm.h:29-39 | different 36-bit pages have different table paths |
| MemoryMap.Enumerated | src/memory/freelist_pmm.c:54-99 | a page is enumerated exactly if it is an aligned page at or above 1 MiB inside a usable entry |
| MemoryMap.PagesDistinct | src/memory/freelist_pmm.c:54-99 | with disjoint entries no page is enumerated twice |
| FreelistPmm.FpmmFill | src/memory/freelist_pmm.c:54-99 | whatever earlier calls added, a call pushes exactly the next pages of the enumeration, in memory-map order, and writes no other frame |
| FreelistPmm.FillResumes | src/memory/freelist_pmm.c:54-99 | while nothing is taken, filling `a` and then `b` pages gives the list of filling `a + b` |
| FreelistPmm.FpmmAllocatePage | src/memory/freelist_pmm.c:101-120 | hands out a frame of 512 zero words that nobody holds, after filling up to 512 pages if the list is empty; held frames keep their contents; free plus handed-out is constant but for lazy fills |
| FreelistPmm.FpmmFreePage | src/memory/freelist_pmm.c:122-130 | the frame becomes the head of the list and only its first word is written |
| FreelistPmm.GetMemUsed | src/memory/freelist_pmm.c:157-169 | the page size times the number of handed-out frames, as far as an `int` holds it |
| Machines.Machine.constructor | src/memory/freelist_pmm.c:46-52 | at start no frame is filled or handed out and all enumerated pages remain |
| Trees.GrowEffect | src/memory/vmm.c:27-44 | creating or widening a table leaves every translation of every tree as it was, keeps the trees apart and only adds rights |
| Trees.GrowOpen | src/memory/vmm.c:27-44 | no entry above the pages ever forbids execution |
| Trees.LeafEffect | src/memory/vmm.c:46-55 | a leaf store changes the entry of one page, in exactly the trees that see its table |
| Vmm.GetOrCreate | src/memory/vmm.c:27-44 | the child table exists with the rights asked for; all translations stay |
| Vmm.WalkCreate | src/memory/vmm.c:166-186 | the page table of a path exists and every level grants the flags; all translations stay |
| Vmm.MapPage | src/memory/vmm.c:46-55 | the page has the new entry in every space that sees it, with its rights on all four levels, and no other page of any space moves |
| Vmm.VmmInit | src/memory/vmm.c:252-262 | from a machine without spaces: the kernel's table translates nothing and the invariant of all spaces holds |
| Vmm.KernelHalfAgrees | src/memory/vmm.c:237-250 | for every upper-half page whose top slot was present at creation a user space translates as the kernel's table does, in every reachable state |
| Ranges.MapPages | src/memory/vmm.c:46-55 | any run of `map_page` calls on any of the spaces equals updates of a plain map from page to entry, the last call for a page winning; that call's rights hold on all four levels afterwards |
| Ranges.RightsStay | src/memory/vmm.c:27-44 | rights granted on all four levels survive every later mapping but that of the page itself |
| Ranges.VmmVirtToPhys | src/memory/vmm.c:304-324 | the result is the abstract map's frame with the page offset, or 0 where the map has none |
| Ranges.TablesCount | src/memory/vmm.c:122-138 | a range needs at most as many tables as the index groups it touches on the three levels |
| Ranges.VmmMapRange | src/memory/vmm.c:111-138 | fresh, distinct, cleared frames are mapped at the pages from the rounded-up start; nothing else moves; no more frames are taken than pages and tables of the range |
| Rights.RangeHas | src/memory/vmm.c:27-55 | a mapped range has exactly the user, write and no-execute rights of the flags on its entries, and the three upper levels let them through, execution included |
| Share.WalkToPt | src/memory/vmm.c:166-186 | the page table found without creating is that of the path, or none |
| Share.ReadSource | src/memory/vmm.c:202-213 | reading through the cached source table equals walking afresh |
| Share.WriteShared | src/memory/vmm.c:215-222 | writing through the cached destination table equals mapping the page by a fresh walk |
| Share.VmmShareRange | src/memory/vmm.c:188-226 | exactly the longest mapped prefix of the range is shared, and success means all of it |
| Share.SharedTranslation | src/memory/vmm.c:188-226 | shared pages have one frame in both spaces; every other page of every space translates as before |
| Share.SharedExactly | src/memory/vmm.c:188-226 | the exact prefix is the whole range if and only if every byte of it is mapped |
| Share.Process.SysShare | src/userspace/syscalls.c:401-443 | finds the first process with the pid; with one and memory for the record it succeeds if and only if every byte of the range is mapped at the call, and otherwise has shared exactly the longest mapped prefix; shared pages have one frame in both spaces and user and write access, and on success the region is recorded under a new number; pages outside the widened range never move |
| AddressSpaces.CreateUserPml4 | src/memory/vmm.c:237-250 | the new space is empty below and translates like the kernel's above; other spaces stay |
| AddressSpaces.CopiedTranslation | src/memory/vmm.c:245-247 | a table with the copied slots translates upper-half pages as the kernel's and no others |
| Teardown.ReturnedOnce | src/memory/vmm.c:326-376 | the frames to be returned are exactly the tables and pages at visited paths, each once, if the space's frames are distinct |
| Teardown.AddressVisited | src/memory/vmm.c:326-376 | the loops pass over the page of a user address exactly if the address lies in the window |
| Teardown.DestroyEntries | src/memory/vmm.c:331-370 | though freeing overwrites frames, the loops return what the tables held at the start: no table is read after it was freed |
| Teardown.FreedAddresses | src/memory/vmm.c:331-370 | the frames that the loops return are those that addresses outside the window and tables name |
| Teardown.DestroyAddrSpace | src/memory/vmm.c:326-376 | a frame is returned if and only if it is a table of the lower half or the top table, or an address below 0x8000_0000_0000 outside the window of the framebuffer (0x2000_0000_0000 and its size rounded up to pages) leads to it; each once, nothing of another space, and no other frame is touched |
| Teardown.FreedCounts | src/memory/freelist_pmm.c:122-130 | the number of handed-out frames falls by exactly the number returned |
| Ownership.CreateKeeps | src/memory/vmm.c:237-250 | a new space next to any others: still no page belongs to two spaces or two places |
| Ownership.MapKeeps | src/memory/vmm.c:111-138 | so after mapping a fresh range in any of them |
| Ownership.DestroyKeeps | src/memory/vmm.c:326-376 | and after destroying one of them the others still own their pages |
| Ownership.BootOwned | src/memory/vmm.c:252-262 | the ownership holds when only the kernel's table exists |
| Ownership.RunSpaces | src/memory/vmm.c:237-376 | over any sequence of creating, mapping and destroying spaces each operation does to all translations and frames what it says, and the ownership of all spaces holds, so that each can be destroyed |
| Brk.GrowRegion | src/memory/vmm.c:111-138 | growing by an unaligned size maps every byte up to the new end, user, writable and not executable, and maps no page anew that holds a byte below the old one |
| Brk.SysBrk | src/userspace/syscalls.c:357-382 | the break only grows, all bytes below it are mapped, those of the growth are user, writable and not executable, and bytes below the old break keep frames and rights |
| Brk.SysSbrk | src/userspace/syscalls.c:384-399 | moves the break by the size, refused exactly on address wrap-around |
| Brk.SysBrks | src/userspace/syscalls.c:357-399 | the same after any run of requests, with the break at the highest of them |
| Brk.RunFramesBound | src/userspace/syscalls.c:357-399 | a run of requests takes at most four frames for each page that the break moves and four for each request |
| Elf.LoadPhdr | src/userspace/elf.c:13-51 | a load segment's pages hold its bytes; they are user pages, writable exactly if the segment is and executable exactly if it is; other pages and data keep contents and rights |
| Elf.SegmentFlagsOk | src/userspace/elf.c:17-19 | the flags are user, writable exactly for PF_W and no-execute exactly without PF_X |
| Elf.LoadedByte | src/userspace/elf.c:29-50 | byte `i` read through the page tables is the file's byte below `filesz` and zero up to `memsz` |
| Elf.FirstPageMapped | src/userspace/elf.c:25-34 | mapping the segment's range maps the page of its first byte if and only if the address is page-aligned |
| Elf.LoadedExactly | src/userspace/elf.c:76-89 | a segment is in memory in the end if and only if it agrees with the last segment on each of its pages |
| Elf.ElfLoad | src/userspace/elf.c:76-89 | afterwards every page has the bytes and the rights of the last segment on it; the entry is moved by the load base |
| BlockList.SplitOk | src/memory/heap.c:73-88 | the stores of a split give a list that is ascending, disjoint, inside the heap and linked both ways |
| BlockList.MergeOk | src/memory/heap.c:206-213 | the same for joining a block with the one behind it |
| BlockList.AppendOk | src/memory/heap.c:101-119 | the same for growth |
| BlockList.SplitBytes | src/memory/heap.c:73-88 | a split writes the three headers and no other byte |
| Allocations.SplitKeeps | src/memory/heap.c:73-88 | a split loses and changes no other allocation, and adds exactly the head |
| Allocations.MergeKeeps | src/memory/heap.c:206-213 | a join with a free block changes no other allocation |
| Allocations.AppendKeeps | src/memory/heap.c:101-119 | growth changes no allocation and accounts for every new byte |
| HeapSteps.TakeOk | src/memory/heap.c:70-96 | taking a free block adds exactly one allocation, keeps all others byte for byte, and drops at most 32 bytes from the list |
| HeapSteps.FillOk | src/memory/heap.c:90-95 | whatever a holder stores in its payload, the list and every other allocation stay: no header lies in a live payload |
| HeapSteps.ReleaseOk | src/memory/heap.c:203-223 | releasing removes exactly that allocation and loses no byte |
| HeapSteps.ReleaseApart | src/memory/heap.c:205-223 | joining both ways leaves no two free neighbours if there were none |
| Heaps.Heap.constructor | src/memory/heap.c:42-50 | one free block over the whole heap |
| Heaps.Heap.FindFit | src/memory/heap.c:67-99 | the lowest block that fits, or null exactly if none does |
| Heaps.Heap.Take | src/memory/heap.c:70-96 | through the pointers: exactly one new allocation, its payload all zeros |
| Heaps.Heap.Grow | src/memory/heap.c:101-119 | one free block of the wanted size behind the old end; allocations stay |
| Heaps.Heap.Release | src/memory/heap.c:195-223 | through the pointers: frees the block and joins it with its free neighbours |
| KernelHeap.KAlloc | src/memory/heap.c:59-127 | null exactly if nothing fits, with the heap grown for the next call below the limit; else the first fit is taken, its rest split off, and zeroed, all other allocations unchanged |
| KernelHeap.KFree | src/memory/heap.c:188-226 | removes exactly a live allocation and coalesces it; null and a free block change nothing |
| KernelHeap.Shrink | src/memory/heap.c:146-169 | cuts in place, keeps the first bytes, joins the rest with a free block behind it |
| KernelHeap.ShrinkApart | src/memory/heap.c:162-168 | cutting leaves no free neighbours if there were none |
| KernelHeap.Move | src/memory/heap.c:175-185 | moves to a larger block with all old bytes, or leaves everything when nothing fits |
| KernelHeap.KRealloc | src/memory/heap.c:133-186 | the first min(old, new) bytes are kept, other allocations are untouched, a smaller size cuts the block exactly if more than a header is left, a larger one takes the first fit and frees the old block, null exactly in the three cases of the code |
| KernelHeap.GainedShows | src/memory/heap.c:125-127 | seen as a map from pointers to contents, an allocation adds one fresh key |
| KernelHeap.LostShows | src/memory/heap.c:188-226 | and freeing removes exactly its key |
| KernelHeap.ResizedShows | src/memory/heap.c:133-186 | and resizing renames one key |
| HeapRuns.FreshShows | src/memory/heap.c:42-50 | a new heap shows no allocation |
| HeapRuns.HeldKeeps | src/memory/heap.c:59-226 | a call changes its own variable only: the program's other pointers and all allocations of others stay live with their bytes |
| HeapRuns.RunCalls | src/memory/heap.c:59-226 | after any sequence of allocating, freeing, resizing and storing the heap shows exactly the map that the calls make, and the allocations of others; its blocks are those that the calls make of them, so that a call gets null exactly if nothing fits |
| UserHeap.Malloc | lib/src/proto/core/malloc.c:14-75 | no free neighbours remain, growth included; the retry recurs once; the heap's end stays the process break with all of it mapped; null exactly if nothing fits and the heap has its maximal size or the break would wrap around |
| UserHeap.RetryApart | lib/src/proto/core/malloc.c:50-71 | the retry after growth must take the new block, and whole |
| UserHeap.Free | lib/src/proto/core/malloc.c:77-107 | the three results, and exactly one allocation gone on success |
| UserHeap.FreeAll | lib/src/proto/core/malloc.c:77-107 | freeing everything in any order leaves one block, short of the heap by a header and at most 32 bytes for each allocation ever made |
| LinkedLists.List.Append | include/utils/linked_lists.h:19-28 | appends to the sequence; head's back pointer is the tail |
| LinkedLists.List.Unlink | include/utils/linked_lists.h:6-17 | removes the record from the sequence wherever it stands; all links stay consistent |
| Scheduling.ReapKeeps | src/userspace/scheduler.c:66-83 | destroying a stopped thread keeps the invariant; its process goes exactly if no other listed thread belongs to it; the loaded space is not destroyed |
| Scheduling.ReapAllKeeps | src/userspace/scheduler.c:93-105 | the scan destroys exactly the stopped threads it passes and leaves the rest of the list and all other records |
| Scheduling.SwitchKeeps | src/userspace/scheduler.c:91-119 | the first ready thread runs next, its space is loaded, and the stopped threads before it are gone |
| Scheduling.StepKeeps | src/userspace/scheduler.c:44-189 | every system call and tick keeps: listed threads are the allocated ones, instances count them, CR3 is the running thread's space, the running thread is never freed |
| SchedulerRuns.RunKeeps | src/userspace/scheduler.c:85-120 | the same over every run |
| SchedulerRuns.RankIsIndex | src/userspace/scheduler.c:88-91 | the rank of a waiting thread is its index, less one if the running thread precedes it |
| SchedulerRuns.StepNearer | src/userspace/scheduler.c:85-105 | each tick picks a ready thread or brings it strictly nearer; other steps move no waiting thread back |
| SchedulerRuns.BoundedWaiting | src/userspace/scheduler.c:85-105 | a thread that stays ready is picked within rank + 1 ticks, whatever others do |
| TickRuns.TickAhead | src/userspace/scheduler.c:85-105 | a tick picks a ready thread if nobody is ahead of it, and else exactly one of those who are |
| TickRuns.PickedExactly | src/userspace/scheduler.c:85-105 | a ready thread is picked within `n` ticks if and only if fewer than `n` ready threads are ahead of it |
| TickRuns.RunningPicked | src/userspace/scheduler.c:88-105 | the running thread at index `i` is picked within `i + 1` ticks if and only if at most `i` others are ready |
| TickRuns.WaitingPicked | src/userspace/scheduler.c:88-105 | any other ready thread is picked within its index + 1 ticks |
| TickRuns.RunningThreadWaitsLonger | src/userspace/scheduler.c:88-91 | a state where the running thread at index 0 stays ready and is passed over |
| TickRuns.StoppedGoes | src/userspace/scheduler.c:93-105 | a stopped thread is destroyed within rank + 1 ticks |
| SchedulerRuns.ResumesWithSaved | src/userspace/scheduler.c:86-118 | a thread resumes with exactly the frame saved at its last interruption |
| StepEffects.TickEffect | src/userspace/scheduler.c:85-120 | a tick saves the frame of the running thread and changes nothing else about any thread that stays |
| StepEffects.QueueSleepEffect | src/userspace/scheduler.c:44-52 | the running thread sleeps at the end of the queue; no other thread and no other queue changes |
| StepEffects.WakeAllEffect | src/userspace/scheduler.c:54-64 | exactly the threads of the queue become ready, the queue is empty, and everything else is as it was |
| StepEffects.WaitForEffect | src/userspace/syscalls.c:317-331 | the running thread sleeps for that pid and no other thread changes |
| StepEffects.ExitEffect | src/userspace/syscalls.c:24-46 | the end of a process makes exactly the threads ready that sleep for its pid, and they wait for nothing; threads that wait for another pid are as they were; the running thread has stopped |
| StepEffects.SpawnProcessEffect | src/userspace/process.c:21-107 | a new process has the next pid, its space and one ready thread; only the caller of the blocking call changes, which sleeps for that pid |
| StepEffects.StartsWithContext | src/userspace/scheduler.c:122-189 | a new thread first runs with the context it was given, however long it waits and whatever others do |
| WaitQueues.BootQuiet | src/userspace/scheduler.c:28-42 | the state after `scheduler_init` meets the invariant of the scheduler and of the wait queues |
| WaitQueues.QuietKeeps | src/userspace/scheduler.c:44-64 | as long as nobody joins a queue while waiting for a process, every queued thread is in one queue, allocated, asleep and waits for nothing else |
| WaitQueues.CarefulKeeps | src/userspace/scheduler.c:44-64 | the same over whole runs |
| Wakeups.NoneLostKeeps | src/userspace/scheduler.c:44-64 | every step keeps: each sleeping thread is in a queue or waits for a process that has a thread which has not stopped, if nobody starts to wait for a process without one; heedless threads endanger themselves only |
| Wakeups.HeedfulKeeps | src/userspace/syscalls.c:24-46 | the same over whole runs: no wake-up is lost |
| Wakeups.BootNoneLost | src/userspace/scheduler.c:28-42 | and it holds after `scheduler_init` |
| Wakeups.WaitsForEver | src/userspace/syscalls.c:317-331 | a thread that waits for a process all of whose threads have stopped, or for a pid of zero or less, sleeps over every continuation |
| Wakeups.WaitsSafelyExactly | src/userspace/syscalls.c:317-331 | waiting for a process loses no wake-up over all continuations if and only if the process has a thread that has not stopped at the call |
| DoubleSleeps.JoinsTwice | src/userspace/syscalls.c:215-230 | a thread that joins while it waits for its child is stopped, and then freed, while it is still listed, in runs that join no further queue |
| DoubleSleeps.JoinsSafelyExactly | src/userspace/scheduler.c:44-64 | joining keeps all queued threads allocated and asleep over all continuations if and only if the thread is not waiting for a process at the call |
| DoubleSleeps.WakeupOfFreedThread | src/userspace/scheduler.c:54-64 | a run from start-up after which waking a queue stores into a freed thread record |
| Scheduler.Cpu.constructor | src/userspace/scheduler.c:28-42 | the idle thread runs alone, and the invariants hold |
| Scheduler.DestroyedIsNotLoaded | src/userspace/scheduler.c:73-80 | at the call of `destroy_addr_space` another space is loaded |
| Scheduler.Cpu.DestroyThread | src/userspace/scheduler.c:66-83 | performs the destroying step |
| Scheduler.Cpu.ReapToReady | src/userspace/scheduler.c:91-105 | the scan loop stops at the first ready thread, having destroyed the stopped ones before it, and never runs off the list |
| Scheduler.Cpu.SchedulerTick | src/userspace/scheduler.c:85-120 | performs the tick: the interrupted thread keeps the frame and the frame of the picked thread is returned |
| Scheduler.Cpu.SysExit | src/userspace/syscalls.c:24-46 | a kernel thread is refused; else exactly the threads that sleep for the pid are ready, the thread has stopped, and the next one runs |
| Scheduler.Cpu.QueueSleep | src/userspace/scheduler.c:44-52 | the thread sleeps at the end of the queue, nobody else changes, and the next one runs |
| Scheduler.Cpu.QueueWakeAll | src/userspace/scheduler.c:54-64 | exactly the queued threads become ready and the queue is empty, if all of them are allocated |
| Scheduler.Cpu.SysWaitForProcess | src/userspace/syscalls.c:317-331 | the thread sleeps for the pid, nobody else changes, and the next one runs |
| Scheduler.Cpu.CreateKernelThread | src/userspace/scheduler.c:122-154 | appends a ready thread without a process; null and nothing changed if the record or the stack cannot be allocated |
| Scheduler.Cpu.CreateUserThread | src/userspace/scheduler.c:156-189 | appends a ready thread and counts it in its process; null and nothing changed if the record or the stack cannot be had |
| Scheduler.Cpu.CreateProcess | src/userspace/process.c:21-107 | a process with a new pid and its first thread; a blocking parent sleeps for it; an error in loading changes nothing here |
| TicketLock.StepKeeps | include/utils/ticket_lock.h:17-32 | every atomic operation of any contender keeps the invariant: outstanding tickets count up from the owner modulo 2^32 |
| TicketLock.EveryRun | include/utils/ticket_lock.h:17-32 | over every schedule of at most 2^32 contenders there is one holder at a time, entered in ticket order, and outstanding tickets are exactly owner to next |
| TicketLock.OldestProceeds | include/utils/ticket_lock.h:21-24 | while tickets are out, the oldest contender holds the lock or gets it by looking once |
| TicketLock.CrowdClashes | include/utils/ticket_lock.h:21-24 | with more contenders a schedule has two holders |
| TicketLock.ExclusiveExactlyUpTo | include/utils/ticket_lock.h:17-32 | mutual exclusion over all schedules if and only if at most 2^32 contend |
| Strings.StrNCmp | src/string.c:253-266 | zero exactly if the first `n` characters agree, and else the difference of the first two that do not |
| Ipc.Ipc.IpcSend | src/userspace/ipc.c:11-50 | the copy is queued last for that process only and all waiters are woken; every error leaves all as it was; sent stays received plus queued |
| Ipc.Ipc.IpcReceive | src/userspace/ipc.c:52-74 | takes the oldest message, or waits exactly if there is none: a non-empty queue never has waiters |
| Ipc.Ipc.IpcReceiveNb | src/userspace/ipc.c:76-98 | the same without waiting |
| Ipc.Ipc.IpcDispatch | src/userspace/ipc.c:106-129 | one copy to each subscriber for which memory is found, none elsewhere |
| Ipc.Ipc.IpcSubscribe | src/userspace/ipc.c:131-150 | topics stay unique up to 255 characters |
| Ipc.Ipc.IpcUnsubscribe | src/userspace/ipc.c:152-167 | exactly that topic is no longer listed |
| Descriptors.Files.constructor | src/userspace/process.c:18-19 | no process, no descriptor, no operation |
| Descriptors.RefsCount | src/userspace/process.c:90-101 | a reference count is the number of table slots that point to the descriptor |
| Descriptors.Files.CreateRoot | src/userspace/process.c:83-88 | the first process starts with its two descriptors, counted once each |
| Descriptors.Files.SysOpen | src/userspace/syscalls.c:77-98 | the lowest empty slot gets a descriptor with one reference; errors change nothing |
| Descriptors.Files.SysClose | src/userspace/syscalls.c:189-213 | empties the slot and removes the process's operations on it; reference counts stay the number of slots, freed exactly at zero |
| Descriptors.Files.CreateProcess | src/userspace/process.c:90-101 | the child's table is the parent's and every copied slot is counted |
| Descriptors.Files.DestroyProcess | src/userspace/process.c:128-139 | all references and exactly the operations of the process go; the others stay in order |
| Descriptors.Files.VfsClose | src/filesystems/vfs.c:212-224 | one reference less, freed with the last |
| Descriptors.Files.AioEnqueue | src/filesystems/aio.c:10-30 | operations stay unique and name descriptors of live processes |
| Descriptors.Files.AioNotify | src/filesystems/aio.c:32-48 | the n-th pid told is that of the n-th operation on the descriptor in that mode, exactly those operations go, the others stay in order, and the result says whether there were any |
| Descriptors.NotifiedInOrder | src/filesystems/aio.c:32-48 | the pids told are those of the ready operations, as many and in their order |
| Descriptors.Files.AioRemove | src/filesystems/aio.c:50-60 | exactly the process's operations on the descriptor go; the others stay in order |
| Descriptors.Closed | src/userspace/syscalls.c:203-212 | closing a slot keeps counts, tables and operations consistent |
| Descriptors.Inherited | src/userspace/process.c:90-101 | so does inheriting a table |
| Paths.SplitPath | src/filesystems/vfs.c:14-28 | the first segments of the path, at either delimiter, as many as there is room for |
| Paths.SplitJoin | src/filesystems/vfs.c:14-28 | a path splits at each of its delimiters |
| Paths.SplitText | src/filesystems/vfs.c:14-28 | splitting undoes printing |
| Ustar.Strtol | src/string.c:184-251 | spaces, sign, prefix and digits in any base, accumulated modulo 2^64, and where the number ends |
| Ustar.NumberReads | src/string.c:184-251 | blanks, a sign, the prefix of the base and digits of either case are read as the number that they write, in every base, modulo 2^64, up to the first character that is no digit |
| Ustar.NumberMissing | src/string.c:184-251 | without a digit the number is zero and the end is where reading began |
| Ustar.OctalRoundTrip | src/string.c:220-237 | eleven octal digits are read back as the number they print |
| Ustar.HeaderRead | src/filesystems/tarfs.c:178-193 | from a header that puts the name into the name field alone the reader takes the entry's name and size |
| Ustar.NameRead | src/filesystems/tarfs.c:188-193 | the name taken is that of the format exactly if the prefix field is not used and a name that fills its field is followed by a NUL |
| TarTree.Files.FindOrCreateChild | src/filesystems/tarfs.c:19-40 | the one child of that name; created only if there was none |
| TarTree.Files.AddPath | src/filesystems/tarfs.c:210-217 | the node at the path, with folders on the way; existing nodes keep type and content |
| TarTree.PathUnique | src/filesystems/tarfs.c:19-40 | two nodes never have the same path |
| Tarfs.LoadStep | src/filesystems/tarfs.c:178-230 | adding an entry keeps all earlier entries that it does not replace |
| Tarfs.ArchiveStops | src/filesystems/tarfs.c:176-180 | the reader's 32-bit chain of headers comes to the end of a well-formed archive below 4 GiB |
| Tarfs.MagicIs | src/filesystems/tarfs.c:178-186 | a header is accepted only with "ustar" at its place |
| Tarfs.ReadEntry | src/filesystems/tarfs.c:178-230 | a header is read exactly if it has the magic and its name has a segment or is empty; the node of its first 32 segments gets type, size and place, and no other node changes |
| Tarfs.TarfsInit | src/filesystems/tarfs.c:148-233 | if the chain of headers ends, accepts exactly the memories all of whose headers are valid; a well-formed archive gives a tree that holds every entry |
| Vfs.TreeLookup | src/filesystems/tarfs.c:43-74 | "." gives the folder, ".." its parent, and any other name the child of that name exactly if there is one; devices are looked up in the same way |
| Vfs.DevfsInit | src/filesystems/devfs.c:349-394 | the device tree has exactly three files and the folder for terminals |
| Vfs.VfsInit | src/filesystems/vfs.c:226-244 | the device tree covers the archive's folder `dev` exactly if there is one |
| Vfs.ConsoleFound | src/userspace/process.c:83-88 | then the console is found as a device from everywhere |
| Vfs.VfsLookup | src/filesystems/vfs.c:30-76 | resolves at most 32 segments from the root or the working directory, through folders only, crossing into the device tree |
| Vfs.Dot | src/filesystems/tarfs.c:47-50 | looking up "." gives the place itself, or the root of the device tree if that covers it |
| Vfs.DotVanishes | src/filesystems/vfs.c:44-73 | a "." anywhere in a walk through folders changes nothing, except that one at the end refuses a file |
| Vfs.DotSkipped | src/filesystems/vfs.c:30-76 | the same for the text of a path within 32 segments |
| Vfs.ResolveVisible | src/filesystems/vfs.c:55-76 | no lookup leads to what the device tree covers |
| Vfs.StoredFound | src/filesystems/vfs.c:30-76 | in a well-formed archive the stored path of an entry leads to a node of its type whose bytes are its content if and only if the mount's path is no prefix of it; else the rest is looked up among the devices |
| Vfs.Descriptor.VfsRead | src/filesystems/vfs.c:107-137 | the next bytes of the file, short only at its end; the errors move nothing |
| Vfs.Descriptor.ReadChunks | src/filesystems/tarfs.c:95-116 | reads of any chunk sizes concatenate to the file from the old position on |
| Vfs.Process.SysChdir | src/userspace/syscalls.c:243-263 | changes to a folder only, and never to one that the device tree covers |
| Vfs.Process.SysGetcwd | src/userspace/syscalls.c:265-315 | prints the folder's path within its own tree cut to 511 characters, by the names that looking up "." finds on the way up; refuses a small buffer |
| Vfs.GetcwdRoundTrip | src/userspace/syscalls.c:265-315 | looking up what is printed leads back if and only if the folder is in the archive and the path has at most 511 characters and 32 segments |
| Copies.PatternIs | src/string.c:46-49 | the doubled-up pattern is eight equal bytes |
| Copies.Memset | src/string.c:33-64 | for every alignment and length: exactly the bytes are set |
| Copies.Memcpy | src/string.c:67-97 | for every pair of alignments and length: exactly the bytes are copied |
| Copies.Memmove | src/string.c:5-18 | overlapping ranges end up as the source was |
| Blits.ClipRect | lib/include/proto/graphics.h:30-62 | exactly the points in rectangle, clip and framebuffer |
| Blits.RowIs | lib/include/proto/graphics.h:64-70 | a memory index lies in a row's stretch exactly if its row and column do |
| Blits.CopyRow | lib/src/proto/graphics/draw_img.c:40-56 | the unrolled pairs and the odd pixel copy exactly one row |
| Blits.ImageAt | lib/src/proto/graphics/draw_img.c:32-56 | row and column in the rectangle are row and column of the image |
| Blits.DrawImgClip | lib/src/proto/graphics/draw_img.c:4-60 | exactly the pixels in rectangle, clip and framebuffer become the image's |
| Blits.DrawRectClip | lib/src/proto/graphics/draw_rect.c:4-39 | exactly those pixels become the colour |
| Blits.InvertRectO | lib/src/proto/graphics/draw_rect.c:156-194 | in exactly the pixels covered an odd number of times the low 24 bits are inverted and no others, wherever the outline lies |
| Blits.InvertedAgain | lib/src/proto/graphics/draw_rect.c:156-194 | inverting the same pixels again gives back the picture |
| Blits.OutlineWithoutCorners | lib/src/proto/graphics/draw_rect.c:156-194 | for an outline of at least two pixels each way these are its border without the corners |

## Left out

- `vmm_init` behind its cleared top table, where calls of `map_page` follow; `vmm_map_phys_range`, `_tables_dump` and `vmm_flush_tlb`.
- Mapping an already mapped page loses its old frame, and shared pages belong to two spaces: both are kept in the translation results and excluded from `Teardown.DestroyAddrSpace` and `Ownership`, where a space owns its frames.
- FreelistPmm.FpmmAllocatePage: requires that a frame remains; the code logs and goes on without memory.
- Elf.ElfLoad: segments are page-aligned, since otherwise the first bytes go to frame 0 (`Elf.FirstPageMapped`); the checks of `elf_read` and `get_symbol` are not modelled.
- Brk.SysBrk: breaks above 0x8000_0000_0000, where the kernel's half of every space begins.
- Heaps.Heap.Grow: the heap's bytes are one sequence; that they are mapped is a result of `Brk.GrowRegion` and of `UserHeap.Malloc`, not tied to the frames byte by byte.
- KernelHeap.KAlloc: the result before the heap is initialised, and sizes whose sum with a header exceeds 64 bits.
- UserHeap.Malloc: a break above 0x8000_0000_0000, and sizes whose sum with a header exceeds 64 bits.
- Copying between payloads in `KernelHeap.Move` is one store of the whole payload; that the copy loops equal it is `Copies.Memcpy`.
- The scheduler and the message queues keep their lists as sequences; that the macros implement these is `LinkedLists`.
- Locks inside operations that run with interrupts off are not taken in the model; they are one processor's atomic steps.
- SchedulerRuns.RunKeeps: a run ends before a wake-up that would store into a freed record; what that store does is not modelled.
- Wakeups.WaitsForEver: threads are added only to processes that have one that has not stopped, as `create_process` does.
- Scheduler.Cpu.QueueSleep: a failing allocation of the queue's entry, through which the code would store.
- Descriptors.Files.AioEnqueue: the same for the operation's record.
- Scheduler.Cpu.CreateKernelThread: what a failing call has allocated before and does not return; memory is not part of the scheduler's state.
- Scheduler.Cpu.CreateProcess: a first thread that cannot be created, which leaves a process without threads.
- Scheduler.Cpu.constructor: all wait queues exist from the start.
- `exit_thread` and `g_tss.rsp0` are not modelled.
- TicketLock.EveryRun: the saved interrupt flag.
- Ipc.Ipc.IpcReceive: a name of 255 characters or more is stored without a terminator; copying it out further than the field is not modelled. `ipc_consume` is not modelled.
- Descriptors.Files.CreateProcess: the descriptor that is open while the program file is read.
- Descriptors.Files.SysOpen: the flag string; the lookup of the path is `Vfs.VfsLookup`, and its descriptor an argument.
- Paths.SplitPath: segments of 256 or more characters, which do not fit their buffer.
- Vfs.VfsInit: a boot archive that is refused, which the code does not check, and mounting anything but the device tree at `dev`.
- Vfs.DevfsInit: terminals that are added later; the lookup results hold for every device tree.
- Vfs.Process.SysGetcwd: a failing allocation while the path is printed, which skips a name.
- Tarfs.TarfsInit: a chain of headers that runs in a circle, on which the code does not return.
- Ustar.Strtol: negating the smallest 64-bit number, which C leaves undefined.
- Vfs.Descriptor.VfsRead: results larger than an `int`.
- Blits.InvertRectO: coordinates whose sums overflow an `int`; the same holds for the clipped drawing.
- `draw_img_a_clip`, `capture_rect`, fonts, colours, console, reading and writing devices, PTY buffers, number formatting.
