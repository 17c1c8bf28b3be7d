# Banana_OS: a verified model of its kernel core

Banana_OS is a single-core, cooperative x86-64 kernel. This project models the parts of it whose correctness is
hard to see from the code, and proves what they promise. State that the kernel changes in place is modelled by
classes whose methods follow the code; what a method does is stated by functions and relations over values, and
the main results are theorems about those, for every input, every run or every reachable state.

- **Memory.** The physical allocator with its free-page cache (`Allocator.dfy`), four-level page tables as an
  unshared tree of frames (`PageTable.dfy`, `AddressSpace.dfy`; 4-level paging, Intel SDM Vol. 3A, section 4.5),
  unmapping, fork, mmap, the frames behind user pages over whole histories, copies to and from user memory, and the
  initial user stack (`Unmap.dfy`, `Fork.dfy`, `Mmap.dfy`, `UserFrames.dfy`, `UserMemory.dfy`, `UserStack.dfy`).
  A step is judged by what it does to the lookup of every virtual address in every address space.
- **Scheduling and pipes.** The multi-level feedback queue over rings (`Ring.dfy`, `Scheduler*.dfy`) and the blocking
  pipes on top of it (`ByteRing.dfy`, `Pipe*.dfy`). Blocking calls are cut at their blocking points; between two of
  them nothing else runs.
- **EXT2.** The block map, bitmaps and counters, file reads, writes and truncation through the two scratch buffers
  (`Ext2Layout.dfy` to `Ext2Volume.dfy`), directories down to their bytes (`Ext2Records.dfy`, `Ext2Directory.dfy`,
  `Ext2Names.dfy`), the operations on the tree (`Ext2Tree.dfy`), the dentry cache (`Dcache.dfy`), resumable getdents
  (`Getdents.dfy`), and the Python image builder down to the bytes of the image, with what the driver reads from them
  (`Mkfs*.dfy`).
- **Network.** Loopback sockets (`Loopback*.dfy`), and the Internet checksum and IPv4 framing (`Inet.dfy`).

`dafny verify dfyconfig.toml` checks the whole project.

## Findings

Properties that one would expect of the code and that it does not have. The lemmas named give the inputs for which
they fail and the exact condition under which they hold.

- A shadowed free page hides the free pages behind it in its group from pmalloc: `ShadowedPageHidesItsGroup`. The
  exact condition is the NULL clause of `Allocator.Pmalloc`; it never arises while all mappings are above 2 GiB: `NeverSkips`.
- Unmapping a page whose frame is mapped elsewhere leaves a user page on a free frame; the restorer page is such a
  page in every address space: `UnmapKeepsFramesIff`, `UnmappedRestorerIsStillMapped`; over whole histories
  `FramesStayInUseIff`.
- mmap takes a page on physical frame 0 for absent and can map over it: `MmapMovesIff`, `MmapCanMovePageZero`.
- An mmap whose length is within 4095 bytes of 2^64 maps nothing, even when it reports success: `CoversIff`, `Mmap.SysMmap`.
- A spawn whose kernel stack cannot be allocated, in a slot that is used again, leaves a READY task that no queue
  holds: `SpawnForgetsIff`, `SpawnCanForget`.
- The processor can idle while a task is READY, because the main loop queues the idle task like any other:
  `IdlesDespiteWorkIff`, `IdleRunsFirst`.
- The close that frees a pipe wakes nobody, so a task asleep on it stays asleep: `CloseLosesIff`, `ReaderLeftAsleep`.
- Block allocation in a group whose first block is free sets that bit, does not count it and goes on to the next group,
  so that counters and bitmap disagree: `AllocKeepsAccountsIff`, `FirstBlockLost`. Volumes whose first blocks hold metadata are not affected: `AllocExact`.
- ext2_truncate neither checks for a directory nor flushes the dentry cache, so a truncated directory still answers
  for cached names: `TruncateKeepsIff`, `StaleLookup`.
- mkdir gives every new directory a sector count of 2, which is right exactly for blocks of 1024 bytes: `NewInodes`.
- An accept that has taken a connection from the queue and finds no socket, file or descriptor drops it for good:
  `AcceptHeldIff`, `AcceptCanDrop`, `DroppedForever`.
- With a buffer under 280 bytes an empty getdents result need not mean the end: `EmptyCallIff`, `EmptyBeforeEnd`.
- The image builder makes images that the driver misreads. Beyond 32 groups, or 64 with blocks of 2048 bytes, the
  descriptor table runs into the first bitmap or the superblock: `TableApartIff`, `HeadReadsIff`, `BigImage`. An inode
  whose number is a multiple of the inodes per group is written into the next group's table: `FoundIff`,
  `MisreadInode`. A table that is no whole number of blocks lets inodes be written over a data block: `TablesFitIff`,
  `SlotBehindTable`. Within these limits the image mounts: `FlushedReads`, `Builder.Mount`.

Where comments and code disagree, the model follows the code: ext2.c:398 says that double indirect files are not
supported, but ext2_write_file supports them.

## Model

| member | source | states |
|---|---|---|
| `PhysicalMemory.NoDoubleHandOut` | src/kernel/mm/mm.c:111-231 | over every run of single and contiguous allocations and frees, a page that is handed out twice was freed in between |
| `PhysicalMemory.PagesConserved` | src/kernel/mm/mm.c:111-231 | over every run without shadowed pages, the used count grows by the pages handed out less the pages in use that are freed |
| `PhysicalMemory.TakenUntilFreed` | src/kernel/mm/mm.c:111-231 | a page in use stays in use through every run that does not free it |
| `PhysicalMemory.NullIffFull` | src/kernel/mm/mm.c:150-186 | with no page shadowed, pmalloc returns NULL exactly when the used count equals the zone size |
| `PhysicalMemory.ShadowedPageHidesItsGroup` | src/kernel/mm/mm.c:160-183 | a concrete state in which pmalloc returns NULL although a reachable page is free: the page before it in its group is shadowed |
| `PhysicalMemory.Allocator.constructor` | src/kernel/mm/mm.c:78-107 | a fresh allocator is consistent: all pages free, all cache slots empty |
| `PhysicalMemory.Allocator.Pmalloc` | src/kernel/mm/mm.c:150-186 | the returned page was free and is reachable, every page taken beside it is shadowed, and NULL comes exactly when neither the cache nor the first free page of any group is usable; the bitmap scan runs on an empty cache; bitmap, cache and counter stay consistent |
| `PhysicalMemory.Allocator.PmallocContig` | src/kernel/mm/mm.c:111-141 | a run of consecutive free and reachable pages, the lowest on a 64-page boundary, is taken and dropped from the cache; NULL, without any change, exactly when there is none |
| `PhysicalMemory.Allocator.Pfree` | src/kernel/mm/mm.c:188-231 | the page of the address becomes free in its own zone only, a second free changes nothing, only the hot zone feeds the cache, and the cache still names distinct free pages |
| `PhysicalMemory.Allocator.PfreeContig` | src/kernel/mm/mm.c:144-148 | exactly the pages of the run become free |
| `PageTables.SplitHugePage` | src/kernel/mm/vm.c:239-308 | replacing a 1 GB or 2 MB page by a table of 512 smaller ones changes no lookup of any address in any address space and keeps the tables an unshared tree |
| `PageTables.HangEmptyTable` | src/kernel/mm/vm.c:239-308 | hanging an empty table into an absent slot changes no lookup and keeps the tree |
| `PageTables.OpenEntry` | src/kernel/mm/vm.c:239-308 | opening an upper entry for user access gives no address user access by itself |
| `PageTables.WriteLeaf` | src/kernel/mm/vm.c:239-308 | storing a leaf changes the lookups of that page in that address space and of nothing else anywhere |
| `PageTables.AddSpace` | src/kernel/mm/vm.c:53-94 | two fresh tables make an address space that maps the kernel range to itself, and no existing lookup changes |
| `PageTables.TranslateWithinPage` | src/kernel/mm/vm.c:124-143 | inside one page physical addresses advance with virtual ones and keep the page offset |
| `PageTables.UserPages` | src/kernel/mm/vm.c:343-365 | an address is user-accessible exactly when the four levels lead to a user leaf of a last-level table |
| `AddressSpaces.Vm.MapPage` | src/kernel/mm/vm.c:239-308 | success makes every address of the page resolve to its byte of the given frame, user-accessible, writable and executable exactly as asked, and leaves every other address of every address space as it was, also inside a huge page split on the way; failure changes no lookup at all and happens only for a misaligned address or, with nothing shadowed, when memory is used up |
| `AddressSpaces.Vm.Create` | src/kernel/mm/vm.c:53-94 | a new address space resolves as the kernel map plus the restorer page, existing ones are untouched; it fails only when memory is used up |
| `AddressSpaces.Vm.AllocPage` | src/kernel/mm/vm.c:380-385 | a zeroed page in a frame that was free; NULL only when memory is used up |
| `AddressSpaces.Vm.UnmapPage` | src/kernel/mm/vm.c:343-365 | one round of vm_unmap: a user page loses its leaf and its frame is freed, anything else is left alone |
| `AddressSpaces.NewSpaceIsIdentityMapped` | src/kernel/mm/vm.c:53-94 | below 2 GiB a new address space maps every address to itself, as supervisor |
| `AddressSpaces.NewSpaceAddresses` | src/kernel/mm/vm.c:53-94 | all of a new address space: the kernel's and the devices' addresses as themselves for the kernel only, the restorer page for user code, nothing anywhere else |
| `Unmapping.Unmap` | src/kernel/mm/vm.c:343-365 | exactly the user pages of the range are gone from that address space, a part of a page counting as a page and a range that wraps past 2^64 as none; exactly their frames are free, every other lookup is unchanged; a misaligned address is refused |
| `Unmapping.IdentityForever` | src/kernel/mm/vm.c:239-365 | if all mappings are at or above 2 GiB, then after every run of create, map and unmap every address below 2 GiB still maps to itself as supervisor in every address space |
| `Unmapping.NeverSkips` | src/kernel/mm/mm.c:58-76 | then no page of the three zones is shadowed, pmalloc takes exactly the page it returns, and NULL means that all pages are in use |
| `Unmapping.UnmapKeepsFramesIff` | src/kernel/mm/vm.c:343-365 | after an unmap every user page still lies on a frame in use, exactly when no frame of the range is mapped anywhere else |
| `Unmapping.UnmappedRestorerIsStillMapped` | src/kernel/mm/vm.c:86-92 | the condition fails for the restorer page: unmapping it in one address space leaves another one mapping a free frame |
| `Forking.Fork` | src/kernel/mm/vm.c:194-237 | every user page of the parent is copied into a frame of its own that was free, with the same address, write and execute rights and the same bytes; the rest of the child is a new address space; parent and others are unchanged; NULL only when memory is used up; also a fork that fails on its way leaves every user page of every address space on a data page in use |
| `Forking.ForkKeepsUserFrames` | src/kernel/mm/vm.c:194-237 | a child that holds nothing but copies and what a new address space holds keeps all user pages on data pages in use |
| `Forking.ForkCompletes` | src/kernel/mm/vm.c:194-237 | the four nested loops visit every user page once: their page-by-page result is the whole-space result |
| `Forking.ForkTable` | src/kernel/mm/vm.c:205-228 | the innermost loop copies the user pages of one page table and changes no address space but the child |
| `MemoryMapping.Map` | src/kernel/mm/vm.c:310-324 | the pages of the range get fresh, zeroed, distinct frames, so that every address of the range reads zero with the given rights; on failure those mapped so far do, and memory is used up |
| `MemoryMapping.RangePresent` | src/kernel/mm/vm.c:330-337 | reports presence exactly when some page of the run translates to a nonzero address |
| `MemoryMapping.PlaceFree` | src/kernel/syscall/table.c:113-121 | the lowest aligned run at or above the hint, within the scan limit and 64-bit arithmetic, that looks free; 0 when there is none |
| `MemoryMapping.LowestFreeIs` | src/kernel/syscall/table.c:113-121 | the run is page-aligned, at or above the hint and within a gigabyte of it, looks free, and no aligned run between the hint and it does |
| `MemoryMapping.Mmap.constructor` | src/kernel/syscall/table.c:110-110 | the cursor starts at the hint base |
| `MemoryMapping.Mmap.SysMmap` | src/kernel/syscall/table.c:123-168 | on success every address below the given length is user-accessible, writable exactly with PROT_WRITE, executable exactly with PROT_EXEC, and holds its byte of the content, in fresh distinct frames, and every address on another page resolves as before; without MAP_FIXED the result is the lowest run that looks free and never 0; the cursor only moves, to the end of a run found from it; failure means no run or no memory; a length within 4095 of 2^64 maps nothing |
| `MemoryMapping.CoversIff` | src/kernel/syscall/table.c:123-130 | the pages mapped cover the length exactly if rounding it up stays below 2^64 |
| `MemoryMapping.MmapMovesIff` | src/kernel/syscall/table.c:123-168 | a page mapped before stays where it was, exactly unless it is in the run and on physical frame 0 |
| `MemoryMapping.MmapCanMovePageZero` | src/kernel/syscall/table.c:113-121 | an input that moves one: two pages at the last page below 2^48, where the second has the indices of page 0 |
| `MemoryMapping.MmapKeepsUserFrames` | src/kernel/syscall/table.c:123-168 | after a mapping every user page of every address space still lies on a data page in use |
| `UserFrames.CallKeepsFramesIff` | src/kernel/mm/vm.c:53-365 | a create, map, mmap, fork or unmap keeps all user pages and the restorer on data pages in use, exactly when it unmaps no frame that another page or the restorer needs; a user mapping of a given frame is one of a data page |
| `UserFrames.FramesStayInUseIff` | src/kernel/mm/vm.c:53-365 | over every history of these calls the user pages of all address spaces lie on data pages in use at all times, exactly when no unmapping of the history takes such a frame |
| `UserMemory.CopyToUser` | src/kernel/mm/vm.c:145-163 | fails exactly when a page of the range is absent; whatever the page tables do, memory ends up as if the bytes up to there had been written one after the other; in a region of distinct data pages that stores exactly the bytes and nothing else |
| `UserMemory.PutChunk` | src/kernel/mm/vm.c:156-160 | a chunk copied within one page is its bytes written one after the other |
| `UserMemory.PutElsewhere` | src/kernel/mm/vm.c:145-163 | no byte of memory changes to which no address of the range translates |
| `UserMemory.PutLast` | src/kernel/mm/vm.c:145-163 | a byte to which addresses of the range translate holds what the last of them was given |
| `UserMemory.CopyFromUser` | src/kernel/mm/vm.c:165-183 | fails exactly when a page of the range is absent; otherwise gives the bytes that the page tables lead to |
| `UserMemory.CopyRoundTrip` | src/kernel/mm/vm.c:145-183 | what was copied to user memory is what reading it back gives |
| `UserStack.Push` | src/kernel/elf/loader.c:254-270 | a push works exactly while the mapped stack lasts, and changes only the bytes it pushes |
| `UserStack.PushStrings` | src/kernel/elf/loader.c:313-318 | the strings lie terminated one below the other and overlap nothing pushed before |
| `UserStack.BuildUserStack` | src/kernel/elf/loader.c:292-405 | succeeds exactly when everything fits into the mapped stack; then the stack pointer is 16-byte aligned and the memory from it up is the layout of section 3.4.1 of the System V AMD64 psABI |
| `UserStack.ProgramReads` | src/kernel/elf/loader.c:292-405 | a program that reads upwards finds argc, that many pointers to exactly the given strings, NULL, the environment likewise, NULL, the auxiliary vector and AT_NULL |
| `UserStack.ProgramFinds` | src/kernel/elf/loader.c:329-358 | a reader of the auxiliary vector finds the program headers, page size, interpreter base, entry point and credentials, and pointers to the platform name, the random bytes and the first argument |
| `UserStack.ArgumentsAre` | src/kernel/elf/loader.c:298-311 | the arguments and the environment used are the first 64 of those given, each in its place |
| `UserStack.InitialSpAligned` | src/kernel/elf/loader.c:368-377 | for every argument and environment list the initial stack pointer is a multiple of 16 |
| `UserStack.MappedPagesAreRegion` | src/kernel/elf/loader.c:192-198 | the pages mapped for the stack are distinct data pages, so the stack can be built on them |
| `Rings.Ring.Enqueue` | src/kernel/sched/sched.c:44-50 | the ring as a queue gets the task at its end, or drops it when 64 are there |
| `Rings.Ring.Dequeue` | src/kernel/sched/sched.c:52-59 | the first task of the queue is taken |
| `Rings.Ring.Remove` | src/kernel/sched/sched.c:61-77 | the queue without the first occurrence of the task, all others in order |
| `SchedulerInvariant.RoomForUnqueued` | src/kernel/sched/sched.c:44-50 | 64 slots suffice: a task that is not queued always finds room, so the silent drop never happens |
| `SchedulerInvariant.NextPicksBest` | src/kernel/sched/sched.c:137-164 | the head of the best non-empty level is dispatched, whichever task that is; only when all levels are empty the idle task is taken without a queue |
| `SchedulerInvariant.TickInv` | src/kernel/sched/sched.c:166-182 | a tick keeps the invariant also when the time slice ends and the task moves down a level |
| `SchedulerInvariant.SpawnInv` | src/kernel/sched/sched.c:513-610 | spawning keeps the invariant, in a fresh or a reaped slot, with or without kernel stack |
| `SchedulerInvariant.BoostInv` | src/kernel/sched/sched.c:427-436 | a boost keeps every task in one queue only, the one of its priority |
| `SchedulerInvariant.ApplyInv` | src/kernel/sched/sched.c:137-691 | every call keeps the invariant: queued tasks are READY, in the queue of their priority, and there once |
| `SchedulerInvariant.ReachableInv` | src/kernel/sched/sched.c:44-691 | the invariant holds in every state that any sequence of calls reaches |
| `SchedulerProgress.SpawnForgetsIff` | src/kernel/sched/sched.c:513-610 | a spawn leaves a READY task out of all queues exactly when the kernel stack is missing for a slot used again |
| `SchedulerProgress.ApplyForgetsIff` | src/kernel/sched/sched.c:137-691 | no other call ever leaves a READY task out of the queues |
| `SchedulerProgress.NeverForgotten` | src/kernel/sched/sched.c:137-691 | over every run without such a spawn every READY task waits in the queue of its priority |
| `SchedulerProgress.SpawnCanForget` | src/kernel/sched/sched.c:590-593 | a run of four calls after which a READY task is in no queue |
| `SchedulerProgress.BestReadyRuns` | src/kernel/sched/sched.c:137-164 | when none is forgotten, all levels are empty only if no other task is READY; otherwise what runs was READY and has the best priority among the READY tasks |
| `SchedulerProgress.IdlesDespiteWorkIff` | src/kernel/sched/sched.c:137-164 | the idle task is picked while another task is READY exactly when it heads the best non-empty level and a task waits behind it or in a later level |
| `SchedulerProgress.IdleRunsFirst` | src/kernel/kmain.c:374-378 | a run to such a state: the main loop puts the idle task into the last level, and a task that uses up its time slices ends up behind it |
| `SchedulerEffects.NextEffect` | src/kernel/sched/sched.c:137-164 | the head of the best level is Running on the processor, with a fresh time slice when its own is used up, and waits nowhere; nobody else has changed or has another place |
| `SchedulerEffects.TickEffect` | src/kernel/sched/sched.c:166-182 | one tick less for the running task; with the last one it waits one level further down behind all others, and the processor is free |
| `SchedulerEffects.AddEffect` | src/kernel/sched/sched.c:184-211 | one task more, READY at level 2 with its slice, behind all others there; nothing when the table is full |
| `SchedulerEffects.SpawnEffect` | src/kernel/sched/sched.c:513-610 | the first reaped slot, or a new one, holds a READY process with its slot as pid, behind all others of level 2; none exactly when all slots are taken |
| `SchedulerEffects.BlockEffect` | src/kernel/sched/sched.c:282-289 | the task is Blocked, in no queue and off the processor; nobody else has changed or has another place |
| `SchedulerEffects.BlockOnEffect` | src/kernel/sched/sched.c:303-324 | the current task is Blocked on the condition and in no queue |
| `SchedulerEffects.WakeEffect` | src/kernel/sched/sched.c:291-300 | a Blocked task is READY at its saved priority with a full slice, behind all others there; any other is left alone |
| `SchedulerEffects.BlockThenWake` | src/kernel/sched/sched.c:282-300 | blocking and waking cost a task its place and its remaining slice, and nobody else anything |
| `SchedulerEffects.BoostThenBlockThenWake` | src/kernel/sched/sched.c:282-436 | a boosted task that blocks comes back at the priority it had before the boost |
| `SchedulerEffects.WakeCondWakes` | src/kernel/sched/sched.c:327-335 | exactly the tasks asleep on the condition are READY and queued, nobody loses a place, nobody else comes into a queue |
| `SchedulerEffects.WakeSelectWakes` | src/kernel/sched/sched.c:348-355 | exactly the tasks asleep in poll or select are READY and queued, nobody loses a place, nobody else comes into a queue |
| `SchedulerEffects.BoostEffect` | src/kernel/sched/sched.c:427-436 | the task is READY behind all others of the best level, and only there, with its old priority remembered |
| `SchedulerEffects.KillEffect` | src/kernel/sched/sched.c:438-449 | the task is a zombie, in no queue and off the processor |
| `SchedulerEffects.ExitEffect` | src/kernel/sched/sched.c:468-484 | the task is a zombie with its exit code and in no queue |
| `SchedulerEffects.ReapEffect` | src/kernel/sched/sched.c:489-499 | a zombie's slot is free, and is the next that a spawn takes unless there is an earlier one |
| `SchedulerEffects.RequeueEffect` | src/kernel/sched/sched.c:686-691 | a running task is READY behind all others of its priority and off the processor |
| `Schedulers.Scheduler.constructor` | src/kernel/sched/sched.c:79-135 | the arrays and rings start in the initial state of the model |
| `Schedulers.Scheduler.Next` | src/kernel/sched/sched.c:137-164 | the code over arrays and rings does what the model of sched_next does |
| `Schedulers.Scheduler.Tick` | src/kernel/sched/sched.c:166-182 | the code does what the model of sched_tick does |
| `Schedulers.Scheduler.Add` | src/kernel/sched/sched.c:184-211 | the code does what the model of sched_add does |
| `Schedulers.Scheduler.Spawn` | src/kernel/sched/sched.c:513-610 | the code does what the model of sched_spawn_process does, the search for a slot included |
| `Schedulers.Scheduler.Block` | src/kernel/sched/sched.c:282-289 | the code does what the model of sched_block does |
| `Schedulers.Scheduler.Wake` | src/kernel/sched/sched.c:291-300 | the code does what the model of sched_wake does |
| `Schedulers.Scheduler.BlockOn` | src/kernel/sched/sched.c:303-324 | the code up to the switch does what the model of blocking on a condition does |
| `Schedulers.Scheduler.WakeCond` | src/kernel/sched/sched.c:327-335 | the loop wakes the tasks that the model wakes |
| `Schedulers.Scheduler.WakeSelect` | src/kernel/sched/sched.c:348-355 | the loop wakes the tasks that the model wakes |
| `Schedulers.Scheduler.Boost` | src/kernel/sched/sched.c:427-436 | the code does what the model of sched_boost does |
| `Schedulers.Scheduler.Kill` | src/kernel/sched/sched.c:438-449 | the code does what the model of sched_kill does |
| `Schedulers.Scheduler.Exit` | src/kernel/sched/sched.c:468-484 | the code does what the model of sched_mark_exited does |
| `Schedulers.Scheduler.Reap` | src/kernel/sched/sched.c:489-499 | the code does what the model of reaping does |
| `Schedulers.Scheduler.Requeue` | src/kernel/sched/sched.c:686-691 | the code does what the model of sched_requeue does |
| `PipeInvariant.PipesAlwaysWork` | src/kernel/fs/pipe.c:63-179 | in every reachable state of pipes and scheduler together: a task asleep for data has an empty pipe with a writer, one asleep for room a full pipe with a reader, never both on one pipe; what was read is a prefix of what was written, and bytes in are bytes out plus bytes inside |
| `PipeInvariant.ReachableInv` | src/kernel/fs/pipe.c:63-240 | the joint invariant of pipes, scheduler and calls in progress holds in every reachable state |
| `PipeInvariant.NotifyWakes` | src/kernel/sched/sched.c:327-355 | waking a condition leaves nobody asleep on it and puts nobody to sleep |
| `PipeInvariant.ReadStepInv` | src/kernel/fs/pipe.c:63-106 | a read step keeps the joint invariant whether it returns or blocks |
| `PipeInvariant.WriteStepInv` | src/kernel/fs/pipe.c:108-151 | a write step keeps the joint invariant whether it returns or blocks |
| `PipeInvariant.CloseInv` | src/kernel/fs/pipe.c:153-179 | closing an end that no call in progress uses keeps the joint invariant |
| `PipeInvariant.CloseLosesIff` | src/kernel/fs/pipe.c:153-179 | a close loses a wakeup exactly when it frees the pipe while a task sleeps on it |
| `PipeInvariant.ReaderLeftAsleep` | src/kernel/fs/pipe.c:63-179 | a run of twelve steps to that: the read end is closed under a sleeping reader, which goes back to sleep because there is a writer, and the writer's close frees the pipe without waking it |
| `PipeInvariant.OtherActivity` | src/kernel/sched/sched.c:137-691 | the scheduler calls of everybody else keep the joint invariant |
| `PipeCalls.ReadReturns` | src/kernel/fs/pipe.c:63-106 | a round takes the oldest bytes, as many as there are and are wanted; the exact conditions under which it returns their number, EAGAIN, or sleeps; 0 only with no writer and nothing in the pipe |
| `PipeCalls.WriteReturns` | src/kernel/fs/pipe.c:108-151 | a round puts in as many bytes as fit; the exact conditions under which it returns their number, EPIPE, EAGAIN, or sleeps |
| `PipeCalls.CallsReturn` | src/kernel/fs/pipe.c:63-118 | the exact conditions of EBADF, of EPIPE before the first round and of an empty request; otherwise the first round starts at the first byte |
| `PipeCalls.CallSends` | src/kernel/fs/pipe.c:117-150 | over every run, all rounds of one write call together append the buffer from its start on to what was sent, in order, each byte once, whatever the others do in between |
| `PipeCalls.CallSendsWhatItReturns` | src/kernel/fs/pipe.c:117-150 | when the call returns a number, exactly that much of the buffer has been sent |
| `PipeCalls.CallReceives` | src/kernel/fs/pipe.c:71-105 | over every run, the pieces of all rounds of one read call, in order, are what was taken out of the pipe |
| `PipeCalls.CallReturnsWhatItReceives` | src/kernel/fs/pipe.c:71-105 | when the call returns a number, that many bytes have been given |
| `PipeCalls.WriterToReader` | src/kernel/fs/pipe.c:63-151 | from the making of a pipe on, what the reader has been given is the start of the writer's buffer, and what is in the pipe is the next part of it |
| `PipeCalls.StepWakesPollers` | src/kernel/fs/pipe.c:87-177 | after every step that moves a byte, and after a close that leaves the pipe in use, no task sleeps in poll or select |
| `PipeCalls.CloseEffect` | src/kernel/fs/pipe.c:153-179 | a close takes away one end of its kind and no byte; the pipe is in use exactly while it has ends |
| `PipeCalls.CreateEffect` | src/kernel/fs/pipe.c:205-229 | a new pipe is empty with one end of each kind; a pipe in use is left alone |
| `ByteRings.ByteRing.TakeSegments` | src/kernel/fs/pipe.c:74-86 | the copy in at most two pieces takes the first bytes of the ring in order |
| `ByteRings.ByteRing.PutSegments` | src/kernel/fs/pipe.c:120-133 | the copy in at most two pieces appends the bytes to the ring |
| `ByteRings.ByteRing.Put` | src/kernel/net/loopback.c:157-167 | as many bytes as fit are appended in order |
| `ByteRings.ByteRing.Get` | src/kernel/net/loopback.c:169-178 | up to the asked number of bytes is taken in order |
| `Pipes.PipeTable.Read` | src/kernel/fs/pipe.c:63-106 | the code over the ring, with its checks and its wakeups, does what the model of a read call does, up to its first block or return |
| `Pipes.PipeTable.Write` | src/kernel/fs/pipe.c:108-151 | the code does what the model of a write call does, up to its first block or return |
| `Pipes.PipeTable.ReadStep` | src/kernel/fs/pipe.c:73-104 | the code from the top of the loop does what the model of a read step does, destination bytes included |
| `Pipes.PipeTable.WriteStep` | src/kernel/fs/pipe.c:119-149 | the code from the top of the loop does what the model of a write step does |
| `Pipes.PipeTable.Close` | src/kernel/fs/pipe.c:153-179 | the code does what the model of a close does |
| `Pipes.PipeTable.Create` | src/kernel/fs/pipe.c:37-54 | the first free slot is used; refused exactly when memory is missing or all slots are in use |
| `Ext2Layout.PlaceInjective` | src/kernel/fs/ext2.c:160-188 | no two blocks of a file are kept at the same place of inode or tables |
| `Ext2Layout.LinkBlock` | src/kernel/fs/ext2.c:415-485 | entering a number at its place gives the file that block and changes no other block number, through all levels |
| `Ext2Space.AllocExact` | src/kernel/fs/ext2.c:278-303 | with the first block of every group in use: the lowest free block, 0 exactly when none is free, and all counters still agree with the bitmaps |
| `Ext2Space.AllocKeepsAccountsIff` | src/kernel/fs/ext2.c:217-303 | allocation keeps group and superblock counters in agreement with the bitmaps exactly when the first group with room has its first block in use |
| `Ext2Space.FirstBlockLost` | src/kernel/fs/ext2.c:217-303 | an input for which they do not: two blocks of which the first is free; it is marked, not counted, and nothing is handed out |
| `Ext2Space.FreeKeepsAccountsIff` | src/kernel/fs/ext2.c:306-322 | freeing keeps the counters in agreement exactly when the block was in use |
| `Ext2Space.CountersDetermined` | src/kernel/fs/ext2.c:278-322 | counters that agree with the bitmaps are determined by them |
| `Ext2Writes.ReadBack` | src/kernel/fs/ext2.c:332-505 | reading the range that was written gives the data, through direct, single and double indirect blocks |
| `Ext2Writes.OutsideKept` | src/kernel/fs/ext2.c:400-505 | a byte of the file outside the range, in a block that existed, is unchanged |
| `Ext2Writes.SizeAfterWrite` | src/kernel/fs/ext2.c:495-496 | the size is the larger of the old one and the end of the written range |
| `Ext2Writes.ReadBesideWrite` | src/kernel/fs/ext2.c:400-506 | a read of a range of the old file beside the written one gives the same bytes, and as many |
| `Ext2Writes.WriteIsSplice` | src/kernel/fs/ext2.c:400-506 | the whole of a file without holes reads as its old contents with the data in place, longer if the data reaches behind the end |
| `Ext2Writes.OtherFileKept` | src/kernel/fs/ext2.c:400-505 | every other file reads the same at every offset and size |
| `Ext2Writes.WriteThenTruncate` | src/kernel/fs/ext2.c:400-561 | writing a fresh file and truncating it gives back every bit of the bitmaps, every counter and every owner |
| `Ext2Writes.TruncatedIsEmpty` | src/kernel/fs/ext2.c:510-561 | a truncated file has no block and gives nothing to read |
| `Ext2Writes.ShortWriteNoDouble` | src/kernel/fs/ext2.c:400-505 | a write within the reach of the single indirect table makes no double indirect one |
| `Ext2Files.ReadUnique` | src/kernel/fs/ext2.c:332-361 | what a read gives is determined by the volume |
| `Ext2Volumes.Volume.AllocBlock` | src/kernel/fs/ext2.c:278-303 | the loop over groups does what the model of allocation does |
| `Ext2Volumes.Volume.FreeBlock` | src/kernel/fs/ext2.c:306-322 | block 0 is refused; otherwise what the model of freeing does |
| `Ext2Volumes.Volume.FindDataBlock` | src/kernel/fs/ext2.c:160-188 | the number that the three-level map gives, 0 for none |
| `Ext2Volumes.Volume.ReadFile` | src/kernel/fs/ext2.c:332-361 | the bytes of the file up to the size asked for, the end or the first hole; the rest of the buffer is untouched; refused for what is no file or link |
| `Ext2Volumes.Volume.EnsureBlock` | src/kernel/fs/ext2.c:415-485 | the file gets the block and the tables it lacks, nothing it has moves, no other file is touched; 0 only beyond the largest file or on a full volume |
| `Ext2Volumes.Volume.WriteFile` | src/kernel/fs/ext2.c:400-505 | all or nothing for the inode: success is the write that the lemmas above speak of, failure leaves every inode and every other file alone and happens only for a refused argument, beyond the largest file, or on a full volume; the volume stays sound |
| `Ext2Volumes.Volume.CountBlocks` | src/kernel/fs/ext2.c:363-393 | the block count of the file in units of 512 bytes |
| `Ext2Volumes.BlockCountIs` | src/kernel/fs/ext2.c:363-393 | the block count is the number of data blocks that the file has, and one for its table |
| `Ext2Volumes.Volume.Truncate` | src/kernel/fs/ext2.c:510-561 | exactly the blocks of the file are free, the file is empty, everything else is as it was |
| `Ext2Records.FillOk` | src/kernel/fs/ext2.c:662-679 | filling a free record, split or whole, adds that entry at its place and keeps the tiling and every other entry |
| `Ext2Records.FirstBlockOk` | src/kernel/fs/ext2.c:688-698 | the first block of an append is tiled and holds that entry alone |
| `Ext2Records.MergeOk` | src/kernel/fs/ext2.c:905-913 | giving a record to the one before it takes away its entry and no other, and the records still tile the block |
| `Ext2Records.ReleaseOk` | src/kernel/fs/ext2.c:984-999 | making a record free takes away its entry and no other, and the records still tile the block |
| `Ext2Directories.AppendOk` | src/kernel/fs/ext2.c:685-738 | appending a block adds the entry at the end of the directory and touches no other file |
| `Ext2Names.DirInsert` | src/kernel/fs/ext2.c:640-739 | success adds exactly that entry, failure changes no listing, no counter and no inode; with a sound name it fails only when no block has a free record of that size and the directory can get no block |
| `Ext2Names.DirFind` | src/kernel/fs/ext2.c:938-981 | the first record with the name, or none has it |
| `Ext2Names.DirRemove` | src/kernel/fs/ext2.c:984-999 | the record is merged into the one before it or made free, and nothing else is written |
| `Ext2Names.RemoveName` | src/kernel/fs/ext2.c:842-914 | the first entry with the name is gone and nothing else; failure changes nothing and means that no entry has the name |
| `Ext2Names.InsertedUnique` | src/kernel/fs/ext2.c:640-739 | inserting an absent name keeps names unique and adds exactly one pair |
| `Ext2Names.RemovedUnique` | src/kernel/fs/ext2.c:984-999 | removing a name keeps names unique and removes exactly the pair that had it |
| `Ext2Names.InsertThenRemove` | src/kernel/fs/ext2.c:640-999 | inserting an absent name and removing it restores the directory, order included |
| `Ext2Names.OtherDirectory` | src/kernel/fs/ext2.c:640-999 | every other directory lists the same |
| `Ext2Trees.DotBlockOk` | src/kernel/fs/ext2.c:790-809 | the block that mkdir writes is tiled and holds "." and ".." |
| `Ext2Trees.NewInodes` | src/kernel/fs/ext2.c:750-827 | a new file is empty with a right sector count; the count of a new directory is right exactly for blocks of 1024 bytes |
| `Ext2Trees.Mkdir` | src/kernel/fs/ext2.c:776-839 | success makes a sound directory that lists "." and ".." and enters its name in the parent; failure gives inode and block back, counters included; no other file is touched |
| `Ext2Trees.CreateFile` | src/kernel/fs/ext2.c:742-774 | success makes an empty file and enters its name; failure leaves inodes, counters and listings as they were |
| `Ext2Trees.Unlink` | src/kernel/fs/ext2.c:842-927 | a file or link loses its name and, with its last link, its inode and exactly its blocks; a missing name and a directory are refused without a change |
| `Ext2Trees.Rmdir` | src/kernel/fs/ext2.c:1002-1050 | only a directory with nothing but "." and ".." is removed, with its name, its inode and exactly its blocks; the three refusals change nothing |
| `Ext2Trees.HasOnlyDots` | src/kernel/fs/ext2.c:1014-1036 | the scan finds out whether a directory lists nothing but "." and ".." |
| `Dentries.Transparent` | src/kernel/fs/ext2.c:574-638 | over every run of lookups, changes with a flush, writes and truncations, for every hash function and every slot given up, a lookup gives what a scan would, unless a directory with a cached entry was truncated before |
| `Dentries.StepKeepsIff` | src/kernel/fs/ext2.c:510-1270 | each step keeps the cache truthful, exactly unless it truncates a directory with a cached entry |
| `Dentries.TruncateKeepsIff` | src/kernel/fs/ext2.c:510-561 | a truncation leaves the cache truthful exactly when no valid slot names an entry of that file |
| `Dentries.StaleLookup` | src/kernel/fs/ext2.c:510-638 | then a cached name is still found in a directory that is empty |
| `Dentries.WriteKeepsCache` | src/kernel/fs/ext2.c:400-505 | a write needs no flush: it cannot be to a directory and touches none |
| `Dentries.HitIsScan` | src/kernel/fs/ext2.c:621-638 | a hit in a truthful cache is what the scan gives |
| `Dentries.FoundIsCached` | src/kernel/fs/ext2.c:1250-1270 | a name that fits a slot and has been found is a hit from then on |
| `Dentries.UpToNulIs` | src/kernel/fs/ext2.c:41-44 | a name counts up to its first NUL byte, or whole |
| `Dentries.ScanIsFirst` | src/kernel/fs/ext2.c:1240-1248 | the scan finds the first entry with the name, and nothing exactly when no entry has it |
| `Dentries.NameCache.constructor` | src/kernel/fs/ext2.c:584-585 | the cache starts empty |
| `Dentries.NameCache.Flush` | src/kernel/fs/ext2.c:598-601 | no slot is valid afterwards |
| `Dentries.NameCache.Find` | src/kernel/fs/ext2.c:621-638 | the first valid slot with that parent, hash and name |
| `Dentries.NameCache.Insert` | src/kernel/fs/ext2.c:604-618 | the slots are given up in turn; names too long for a slot are not cached |
| `Dentries.NameCache.Lookup` | src/kernel/fs/ext2.c:1250-1270 | a lookup gives what a scan gives and leaves the cache truthful |
| `Dentries.NameCache.WriteThrough` | src/kernel/fs/ext2.c:400-505 | a write leaves the cache truthful without a flush |
| `Dentries.NameCache.TruncateThrough` | src/kernel/fs/ext2.c:510-561 | after a truncation the cache is truthful exactly when it had no entry of the file |
| `Dentries.ScanDir` | src/kernel/fs/ext2.c:1133-1170 | the scan of all blocks finds the first entry with the name |
| `Getdents.ReadEntries` | src/kernel/fs/ext2.c:1176-1231 | as many entries from the offset on as fit, encoded one behind the other, and the offset of the first that did not fit |
| `Getdents.OpenDir.Getdents64` | src/kernel/syscall/table.c:2111-2125 | the stored offset resumes where the last call ended; refused calls change neither offset nor buffer |
| `Getdents.RunGivesPrefix` | src/kernel/fs/ext2.c:1176-1231 | over every run of calls with buffers of at least 280 bytes, the entries returned so far are a prefix of the directory, each once |
| `Getdents.EmptyMeansDone` | src/kernel/fs/ext2.c:1176-1231 | a call returns nothing exactly when all entries have been returned |
| `Getdents.EnoughCalls` | src/kernel/fs/ext2.c:1176-1231 | as many calls as there are entries return them all |
| `Getdents.EmptyCallIff` | src/kernel/fs/ext2.c:1176-1231 | for any buffer, a call returns nothing exactly when nothing is left or the next record does not fit |
| `Getdents.EmptyBeforeEnd` | src/kernel/fs/ext2.c:1176-1231 | an input for the latter: an entry with a name of 255 bytes and a buffer of 279, for which every call returns nothing and stays where it is |
| `Getdents.RecordsReadBack` | src/kernel/fs/ext2.c:1205-1226 | a reader that follows the record lengths finds every record with its name up to the NUL; none overlaps the next |
| `Getdents.AllItemsOk` | src/kernel/fs/ext2.c:1176-1231 | the items of the runs are the live entries of the directory in scan order |
| `Mkfs.Image.FindFreeBlock` | tools/ext2_mkfs.py:96-107 | the next free block from the cursor on, then from the start; none only when all are used |
| `Mkfs.Image.WriteInode` | tools/ext2_mkfs.py:143-177 | the driver finds exactly the listed blocks, for every list up to the largest double indirect file, and 0 beyond; the tables are fresh blocks of their own; failure means too long, too big or full |
| `Mkfs.LaidOutHolds` | tools/ext2_mkfs.py:135-177 | what is laid out in inode and tables is what ext2_data_block follows |
| `Mkfs.Image.MakeFile` | tools/ext2_mkfs.py:179-187 | the content lies in fresh blocks, one part after the other |
| `Mkfs.ContentReads` | tools/ext2_mkfs.py:179-187 | the driver reads the content back |
| `Mkfs.Image.Materialize` | tools/ext2_mkfs.py:238-280 | the driver lists exactly the entries in order; failure means a full image or too many entries |
| `Mkfs.DirectoryReads` | tools/ext2_mkfs.py:238-280 | blocks packed one after the other are a sound directory that lists their entries |
| `MkfsCounts.InitialBitmap` | tools/ext2_mkfs.py:49-88 | exactly block 0, the superblock, the descriptor blocks of all groups and the bitmaps and tables of all groups are in use, the first block of every group among them |
| `MkfsCounts.FlushCounts` | tools/ext2_mkfs.py:282-332 | the counters that flush writes are those that the accounts of the driver require |
| `MkfsImages.Builder.constructor` | tools/ext2_mkfs.py:43-94 | an empty image of the given geometry is a sound volume, in which exactly the blocks that flush writes as metadata are in use |
| `MkfsImages.Builder.CreateFile` | tools/ext2_mkfs.py:206-216 | the image stays a sound volume, the file has the content when read as the driver reads it, no file written before is touched, no file gets a metadata block |
| `MkfsImages.Builder.MakeDirectory` | tools/ext2_mkfs.py:238-280 | the image stays a sound volume, the directory lists the entries when read as the driver reads it, no file written before is touched |
| `MkfsFlushes.TableApartIff` | tools/ext2_mkfs.py:309-332 | the descriptor table that flush writes stays clear of the superblock and of the first bitmap exactly up to 32 groups, or 64 with blocks of 2048 bytes |
| `MkfsFlushes.AreasApartIff` | tools/ext2_mkfs.py:68-82 | the metadata of no group runs into that of the next exactly when there is one group or the metadata of group 0 fits into a group |
| `MkfsFlushes.TablesFitIff` | tools/ext2_mkfs.py:53-53 | the inode slots of a group stay inside its table exactly when they fill whole blocks |
| `MkfsFlushes.SlotBehindTable` | tools/ext2_mkfs.py:354-362 | an input for which they do not: 100 inodes per group in blocks of 4096 bytes |
| `MkfsFlushes.BitmapBlock` | tools/ext2_mkfs.py:338-343 | the bits of the block are the marks |
| `MkfsFlushes.InodeReads` | tools/ext2_mkfs.py:143-177 | the 128 bytes of an inode read back as the same type, size, sector count and fifteen block numbers |
| `MkfsFlushes.WriteGroup` | tools/ext2_mkfs.py:335-362 | both bitmaps and every inode slot of the group lie in its blocks, and no byte outside them has changed |
| `MkfsFlushes.Flush` | tools/ext2_mkfs.py:282-362 | in the bytes of the image all bitmaps and inode slots of all groups lie where the descriptors say, superblock and descriptors lie where nothing was written over them, and every other block has the contents of its file |
| `MkfsMounts.HeadReadsIff` | src/kernel/fs/ext2.c:107-116 | for every flushed image: the driver reads superblock and all descriptors as they were written exactly when the number of groups is within that limit |
| `MkfsMounts.OverwrittenDescriptor` | src/kernel/fs/ext2.c:107-116 | beyond it, with blocks under 4096 bytes, the first descriptor behind the limit is read from the block bitmap of group 0 |
| `MkfsMounts.OverwrittenSuper` | src/kernel/fs/ext2.c:1509-1543 | with blocks of 4096 bytes the descriptors cover the superblock, and the block size read from it is wrong |
| `MkfsMounts.BigImage` | tools/ext2_mkfs.py:453-459 | an input for that: 512 megabytes with the other defaults, which flush writes without complaint |
| `MkfsMounts.DefaultImage` | tools/ext2_mkfs.py:453-465 | the default image is within all limits |
| `MkfsMounts.FoundIff` | src/kernel/fs/ext2.c:119-136 | the driver looks for an inode where flush has put it exactly when its number is no multiple of the inodes per group, otherwise it finds the one a whole group before |
| `MkfsMounts.InodeReadIs` | src/kernel/fs/ext2.c:119-136 | that is the inode it reads from the bytes of every flushed image, the 32-bit byte offset included |
| `MkfsMounts.MisreadInode` | src/kernel/fs/ext2.c:119-136 | an input for it: with 256 inodes per group inode 512 is read as inode 256 |
| `MkfsMounts.InodeCountsAgree` | tools/ext2_mkfs.py:284-353 | in the bytes of an image the free inodes of every descriptor are the clear bits of its inode bitmap, the directories those in its table, and the free inodes of the superblock the clear bits of all bitmaps |
| `MkfsMounts.FlushedReads` | src/kernel/fs/ext2.c:1509-1543 | within the limits the driver gets from the bytes alone the geometry, every inode, the whole bitmap, all counters and the blocks of all files as the builder had them |
| `MkfsImages.Builder.Mount` | tools/ext2_mkfs.py:282-365 | within the limits the bytes mount: what the driver reads from them is a sound volume with the inodes and accounts of the builder, every file with its blocks and every directory with its entries |
| `LoopbackInvariant.ReachableInv` | src/kernel/net/loopback.c:203-514 | in every reachable state peers are live and point at each other, no endpoint has two holders, nothing held is free, queues are in connect order, and what was received is a prefix of what was sent |
| `LoopbackInvariant.ConnectInv` | src/kernel/net/loopback.c:376-426 | a connect keeps the invariant whether it succeeds or any pool is exhausted |
| `LoopbackInvariant.AcceptInv` | src/kernel/net/loopback.c:430-472 | an accept keeps the invariant in all its outcomes |
| `LoopbackInvariant.CloseInv` | src/kernel/net/loopback.c:273-307 | closing a connected or a listening socket keeps the invariant, its whole queue included |
| `LoopbackInvariant.ShutdownInv` | src/kernel/net/loopback.c:495-514 | a shutdown keeps the invariant |
| `LoopbackInvariant.SendThenReceive` | src/kernel/net/loopback.c:203-259 | what one side sends and the peer has room for is what the other side receives next, behind what was waiting |
| `LoopbackInvariant.CloseLosesNothing` | src/kernel/net/loopback.c:273-307 | closing or shutting down one socket loses no byte waiting on another |
| `LoopbackRuns.DeliveryInOrder` | src/kernel/net/loopback.c:203-259 | over every run, whatever the others do, what a socket has been given is a prefix of what was sent to it |
| `LoopbackRuns.DrainThenEof` | src/kernel/net/loopback.c:203-307 | once the peer is gone, the receives give what was waiting, and nothing exactly when all that was ever sent has been given |
| `LoopbackRuns.AcceptsFollowConnects` | src/kernel/net/loopback.c:376-472 | over every run that drops none, the accepts on a socket hand out the connections in the order of the connects, and the rest is in the queue |
| `LoopbackRuns.AcceptHeldIff` | src/kernel/net/loopback.c:430-472 | an accept leaves every live endpoint held exactly when it finds nothing to take or has a socket, a file and a descriptor for it |
| `LoopbackRuns.ApplyHeldIff` | src/kernel/net/loopback.c:203-514 | no other call ever leaves a live endpoint without holder |
| `LoopbackRuns.NeverDropped` | src/kernel/net/loopback.c:203-514 | over every run without such an accept every live endpoint has a holder |
| `LoopbackRuns.AcceptCanDrop` | src/kernel/net/loopback.c:447-468 | each of the three shortages drops the connection |
| `LoopbackRuns.DroppedForever` | src/kernel/net/loopback.c:203-514 | a dropped endpoint is never freed and never held again |
| `LoopbackEffects.CloseConnected` | src/kernel/net/loopback.c:273-307 | the socket is not open, its endpoint is free, the endpoint at the other end is alone with all its data, and nothing else has changed |
| `LoopbackEffects.CloseThenEof` | src/kernel/net/loopback.c:203-307 | from a close on, whatever everybody does, the socket at the other end is given exactly what was waiting, and then nothing |
| `LoopbackEffects.ShutdownOther` | src/kernel/net/loopback.c:495-514 | a shutdown of a socket without connection changes nothing and fails only if the socket is not open |
| `LoopbackEffects.CloseUnbound` | src/kernel/net/loopback.c:273-307 | a socket that holds nothing is not open afterwards, and nothing else has changed |
| `LoopbackEffects.CloseListening` | src/kernel/net/loopback.c:273-307 | the socket is not open, its listener and every queued endpoint are free, every client of one is alone with all its data, nothing else has changed, and the port is free |
| `LoopbackEffects.ListenerCloseThenEof` | src/kernel/net/loopback.c:203-307 | a client in the queue of a closed listener is given exactly what was waiting, and then nothing |
| `LoopbackEffects.CloseThenBind` | src/kernel/net/loopback.c:273-359 | the port of a closed listener can be bound by any unbound socket |
| `LoopbackEffects.ShutdownConnected` | src/kernel/net/loopback.c:495-514 | the same as a close for both endpoints, but the socket stays open and nothing goes through it any more |
| `LoopbackEffects.InitEffect` | src/kernel/net/loopback.c:76-80 | at the start no socket is open, no port is taken and no endpoint is in use |
| `LoopbackEffects.SocketEffect` | src/kernel/net/loopback.c:312-328 | a new open socket without anything, and the exact causes of failure; no open socket has changed |
| `LoopbackEffects.BindEffect` | src/kernel/net/loopback.c:331-359 | succeeds exactly for an unbound socket, a local address, a free port and a free listener; then the socket owns that listener, with nothing queued, not listening yet |
| `LoopbackEffects.BindErrors` | src/kernel/net/loopback.c:331-359 | the exact cause of every error |
| `LoopbackEffects.ListenEffect` | src/kernel/net/loopback.c:362-372 | succeeds exactly for a bound socket, whose listener then takes connections |
| `LoopbackEffects.ConnectEffect` | src/kernel/net/loopback.c:376-426 | succeeds exactly for an unbound socket, a listener there with room in its queue, and two free endpoints; then these point at each other, one held by the socket, one last in the queue; otherwise nothing in use has changed |
| `LoopbackEffects.ConnectRefused` | src/kernel/net/loopback.c:376-403 | without a listener on the port the connection is refused and nothing changes |
| `LoopbackEffects.AcceptEffect` | src/kernel/net/loopback.c:430-472 | a new socket holds the oldest queued endpoint, which leaves the queue |
| `LoopbackEffects.AcceptShort` | src/kernel/net/loopback.c:430-472 | an accept that finds no socket, file or descriptor gives EMFILE and opens no socket, and the endpoint is out of the queue |
| `LoopbackEffects.AcceptErrors` | src/kernel/net/loopback.c:430-446 | the exact cause of every failure that takes nothing |
| `LoopbackEffects.SendToNobody` | src/kernel/net/loopback.c:232-239 | nothing is sent without a connection or to an end that is closed |
| `LoopbackEffects.ConnectThenAccept` | src/kernel/net/loopback.c:203-472 | after a connect and an accept, what either side sends is what the other receives |
| `Loopbacks.Loopback.constructor` | src/kernel/net/loopback.c:76-80 | cleared pools are the initial state |
| `Loopbacks.Loopback.OpenSocket` | src/kernel/net/loopback.c:312-328 | the code over the pools does what the model of socket does |
| `Loopbacks.Loopback.BindTo` | src/kernel/net/loopback.c:331-359 | the code does what the model of bind does |
| `Loopbacks.Loopback.StartListening` | src/kernel/net/loopback.c:362-372 | the code does what the model of listen does |
| `Loopbacks.Loopback.ConnectTo` | src/kernel/net/loopback.c:376-426 | the code over pools and the queue ring does what the model of connect does |
| `Loopbacks.Loopback.AcceptFrom` | src/kernel/net/loopback.c:430-472 | the code does what the model of accept does |
| `Loopbacks.Loopback.Receive` | src/kernel/net/loopback.c:203-230 | the loop over the ring gives what the model of receive gives |
| `Loopbacks.Loopback.Transmit` | src/kernel/net/loopback.c:232-259 | the loop over the ring does what the model of send does |
| `Loopbacks.Loopback.CloseSocket` | src/kernel/net/loopback.c:273-307 | the code does what the model of close does, the slots of a queue in ring order included |
| `Loopbacks.Loopback.ShutdownSocket` | src/kernel/net/loopback.c:495-514 | the code does what the model of shutdown does |
| `Inet.StoreMakesZero` | src/kernel/net/ip.c:29-41 | storing the checksum into its aligned zero field makes the checksum of the whole zero, for every buffer of any length (RFC 1071, section 1) |
| `Inet.ZeroIffAllOnes` | src/kernel/net/ip.c:29-41 | a zero checksum means that the words add up to a nonzero multiple of 65535 |
| `Inet.FoldMod` | src/kernel/net/ip.c:36-40 | folding keeps the sum modulo 65535 and makes zero of nothing else |
| `Inet.IpChecksum` | src/kernel/net/ip.c:29-41 | the loop in 32-bit arithmetic is the one's complement checksum as long as the sum fits, which it does up to 131074 bytes |
| `Inet.FoldLoop` | src/kernel/net/ip.c:36-40 | the fold loop ends with the folded sum |
| `Inet.HeaderFields` | src/kernel/net/ip.c:54-67 | the header that is sent reads back as RFC 791, section 3.1, says, with checksum zero |
| `Inet.SentIsDelivered` | src/kernel/net/ip.c:43-195 | every ICMP or UDP datagram that ip_send builds passes all checks of ip_input at its destination, also with padding behind it, and delivers the same protocol, source and payload |
| `Inet.OthersAreDropped` | src/kernel/net/ip.c:153-195 | a datagram for another address is not delivered |
| `Inet.DeliveredIsSound` | src/kernel/net/ip.c:153-195 | what is delivered has a sound version 4 header whose words add up to all ones, is no fragment, is for this host, and carries the payload the header says |
| `Inet.CorruptedIsDropped` | src/kernel/net/ip.c:176-180 | a sent datagram with one header word changed to a value not congruent to it modulo 65535 is dropped everywhere |
| `Inet.IpStack.Send` | src/kernel/net/ip.c:43-72 | the frame holds that datagram behind the Ethernet header, the identification goes up by one; refused exactly without device or beyond the MTU |
| `Inet.IpStack.Receive` | src/kernel/net/ip.c:153-195 | the packet is delivered or counted as dropped, as the input check says |

## Left out

- Hardware and assembly: drivers, interrupts, the TLB, context switches and boot code; the disk has no I/O errors.
- Vm.MapPage: page-table entries are records, not 64-bit words, and the cache-disable bit of a split huge page is not part of the claim.
- Fork: assumes that every user page lies on a data frame in use; `FramesStayInUseIff` says when that is so. A fork of a page on a freed frame is not modelled.
- Unmap: assumes that the user pages of the range lie in hot-zone frames that are no page tables, as `FramesStayInUseIff` gives them, and excludes the lengths for which the loop does not end: no multiple of a page, with the end in the last page below 2^64. TLB flushes are not modelled.
- CopyToUser: addresses that translate lie in data pages and below 2^48; what a copy into a page table or a device would do is not modelled.
- CopyFromUser: the same restriction.
- BuildUserStack: random bytes, addresses and credentials are parameters, and argc is at most the number of arguments given.
- ELF segment mapping, brk, shared memory, boomerang eviction, and the older mmap_user, munmap_user and brk_user stubs.
- Scheduler timeouts, signals and wait4 progress: they reach the queues only through wakes, which are modelled.
- PipesAlwaysWork: each end is held by one descriptor that stays open during its own calls; dup and the descriptor table are not modelled, and a signal is a return at a blocking point.
- PipeTable.Create: pipe_create_fds leaves the pipe in use when no descriptor is free for it (pipe.c:229-236); descriptors are not modelled.
- Ext2Volumes.Volume: inodes, bitmaps, descriptors and superblock are records beside the byte-level disk; reading or writing them only scratches the block buffer.
- Inode-number allocation: a fresh number is a parameter, because allocation and release in the code use different bits for one inode.
- Link counts, timestamps, ownership and ext2_rename: rename removes with offsets found before its own insert.
- Volume.WriteFile: offset plus size stays below 2^32; the wrap of the 32-bit sum is not modelled.
- Volume.Truncate: only for files without double indirect table, because the inner loop of the code overwrites the table it walks.
- NameCache.TruncateThrough: the same restriction.
- Rmdir: the same restriction for the blocks of the removed directory.
- Volume.CountBlocks: says nothing of a file with a double indirect table, for the same reason.
- A failed write can leave blocks that only the inode in memory named; the model keeps them as taken, as the code does.
- Mkdir: the 16-bit and 32-bit fields of ownership and time are not part of the inode record.
- Unlink: the same restriction for a file that is freed; whether the link count drops to zero is a parameter, and the entries of the parent name existing inodes.
- Builder.CreateFile: paths, and the choice of the inode number, which is a parameter; a Python exception is a failed call, and symbolic links are not modelled.
- Builder.MakeDirectory: the same, and directories have permissions 0755.
- Builder.Mount: excludes the images beyond the limits of `HeadReadsIff`, `FoundIff`, `TablesFitIff` and `AreasApartIff`, and geometries for which the Python code raises an exception; which inode numbers are in use is not read from the inode bitmap.
- InitialBitmap: assumes that the metadata of every group fits into the image; the Python code raises an exception otherwise.
- Loopback: addresses come parsed, waiting loops end without a change, sendto, recvfrom and dup are not modelled, and the counters of a closed listener are cleared at once instead of at its next use.
- IpStack.Send: the payload is shorter than 2^32 - 20 bytes, below which the 32-bit length test of the code does not wrap.
- IpChecksum: the result is stated for sums below 2^32 only.
- ARP, Ethernet output, ICMP replies, UDP, procfs, power and the shell.
