# Verified models of an xv6 kernel, its user programs and a FAT file system

Dafny models of the repository's hardest code, with proofs that hold for every input, every run and
every reachable state. `dafny verify dfyconfig.toml` checks everything.

What changes state in the C code is a class or a method that changes state here, proved against a
function of the old state; what runs concurrently is a machine whose steps are one acquire, one
release, one disk write or one update, in every interleaving. The theorems are then about those
functions and machines.

| files | what they model |
|---|---|
| `DiskLog`, `LogDevice`, `LogSystem` | the redo log: what a crash at any disk write leaves, the code over cache and disk, whole runs with group commit and crashes |
| `PageTable`, `Vm`, `Uvm`, `FreeWalk`, `CopySpace`, `UserBytes` | Sv39 page tables (RISC-V Privileged Specification, section 4.4) as a flat map, the page allocator, growing, shrinking, copying and freeing of address spaces, copying of bytes to and from user addresses |
| `Process`, `ProcTable` | the memory of all processes, from allocproc to freeproc |
| `Mlfq`, `MlfqFeedback`, `MlfqWait`, `MlfqFamily` | the multi-level feedback scheduler, who falls to which level, and how long a process can wait, also while others fork, exit and are reaped |
| `SemMachine`, `PingPong` | semaphores over sleep and wakeup, and their two-process client |
| `WaitMachine`, `WaitKin` | fork, exit and wait: no exit is missed, and when wait returns and when it sleeps |
| `FreeList`, `Umalloc` | the coalescing allocator of user programs |
| `FatTable`, `FatBytes`, `FatFile`, `FatLayout`, `FatVolume`, `FatImages` | FAT chains and files (FAT32 File System Specification 1.03, "FAT Data Structure"), and the images that are mounted |
| `FsBlocks`, `Inodes`, `InodeSteps`, `FileLayout`, `FsCode`, `FsTheorems`, `TightDisk`, `FsCrash` | block allocation, where the bytes of a file lie, and filewrite; disks on which a chunk fills its budget; what a crash leaves of a file that is being written |
| `BufferCache`, `BufferContents`, `BufferRing` | the buffer cache as a machine, what its buffers hold, and its linked ring |
| `VirtioMem`, `VirtioRing`, `VirtioProof`, `VirtioDriver` | the virtio split ring (VIRTIO 1.1, sections 2.6 and 5.2) with a device that finishes requests in any order |
| `ShellSyntax`, `ShellAccepts`, `ShellGrammar`, `ShellRoundTrip`, `ShellWords`, `ShellParser` | the command language of the shell by itself, and the parser that accepts it |
| `Grep` | the regular expression matcher |
| `Sequences`, `Wrappers` | distinct elements, overwriting and missing values, shared by the others |

## Where code and documentation disagree

The models follow the code. Each disagreement is a theorem that says exactly when the promise holds.

- begin_op reserves MAXOPBLOCKS blocks for an operation (`Lab3/xv6-riscv/kernel/log.c:132`), but log_write panics one block earlier
  and looks before it absorbs (`Lab3/xv6-riscv/kernel/log.c:220`): no run panics if and only if every operation stays below
  MAXOPBLOCKS. `LogSystem.ReservationIsTight`; a run that panics is in `LogSystem.TenBlocksPanic`.
- The chunk size of filewrite is meant to respect that reservation (`Lab3/xv6-riscv/kernel/file.c:149-155`). It does on the disk that
  mkfs makes. On one with four bitmap blocks, a chunk that lies in four blocks of the file across the start
  of the indirect block can log MAXOPBLOCKS blocks, and only such a chunk: `FsTheorems.ChunkFitsLog`. For each
  of them `TightDisk.LogsTen` mounts a disk and makes the call. That fills what begin_op reserves and does not
  exceed it: one filewrite alone never panics (`FsCrash.DurableChunks`), and nothing here says that three do, as
  their chunks may share bitmap blocks.
- writei is said to return the number of bytes written (`Lab3/xv6-riscv/kernel/fs.c:501-503`). When either_copyin fails halfway
  through a block, bytes that were copied stay in the cached block: `FsTheorems.TruthfulWhen` says for which
  offset, length, readable length and file size the answer is right, `TightDisk.PartialCopy` is a call for which it is not.
- malloc computes its request without overflow, and morecore hands sbrk an int that can overflow
  (`Lab3/xv6-riscv/user/umalloc.c:54`). From 2^27 units on the free list claims memory that the program does not have, unless a
  free block is large enough or the kernel refuses: `Umalloc.Allocator.Malloc`, `Umalloc.ClaimsWhatIsGiven`, and one
  such call in `Umalloc.HugeRequest`.
- num_data_clusters is meant to count the clusters of the volume. It is computed from the 16-bit sector count, which
  is 0 on a FAT32 volume, in 32 bits, and without the FAT sectors (`Lab4/fat-fuse/fat_volume.c:126-128`,
  `Lab4/fat-fuse/fat_volume.c:235-238`); on the images of the repository it comes to 2^32 - 32. `FatImages.CountedIff`
  says when it is right. With it every entry of the map counts as a data cluster: EIO for a full volume cannot
  occur, and entries past the end of the volume are handed out, as in `FatImages.GrowImage`.
- The search for a free cluster has no upper bound (`Lab4/fat-fuse/fat_table.c:51-67`) although it reports a full
  volume. `FatVolume.Volume.Pwrite` says from the map before the call when it runs off the map instead, and
  `FatImages.GrowFull` is a call that does.
- fat_file_truncate (`Lab4/fat-fuse/fat_file.c:478-488`) reads off the map when a file whose clusters are all full is cut at
  its end, and only then: `FatVolume.TruncateInside`, `FatVolume.Volume.Truncate`, and `FatImages.CutFull`.
- pwrite reports what it has written (`Lab4/fat-fuse/fat_file.c:598-607`) also when the new size does not fit the 32
  bits of file_size; the bytes are then out of reach: `FatVolume.Volume.WriteThenRead`, and `FatImages.GrowPast`.

The report's claim that starvation cannot happen (`Lab3/Informe.md:132-137`) is right: `MlfqWait.NoStarvation` for
processes that live on, and `MlfqFamily.NobodyStarves` with forks, exits and entries that are used again,
although freeproc resets times_exec.

## Model

| member | source | states |
|---|---|---|
| DiskLog.HeadRoundTrip | Lab3/xv6-riscv/kernel/log.c:86-114 | the header block begins with the count and the block numbers in order, and read_head gets back exactly those that write_head stored |
| DiskLog.RecoveredMeaning | Lab3/xv6-riscv/kernel/log.c:67-123 | one completed recover_from_log empties the header and leaves in every home block the last log block aimed at it, or what it held |
| DiskLog.RecoveryIdempotent | Lab3/xv6-riscv/kernel/log.c:67-123 | a crash after any number of recovery's writes, then a recovery that completes, gives the same home blocks as one uninterrupted recovery |
| DiskLog.RecoverySurvivesCrashes | Lab3/xv6-riscv/kernel/log.c:67-123 | the same for any number of crashes inside recovery, one after the other |
| DiskLog.BeforeCommitPoint | Lab3/xv6-riscv/kernel/log.c:177-203 | no home block and no word of the header changes on disk before the header write of commit |
| DiskLog.AfterCommitPoint | Lab3/xv6-riscv/kernel/log.c:177-203 | from the header write until the header is erased the log holds the whole transaction, and home blocks outside it are untouched |
| DiskLog.CommitDone | Lab3/xv6-riscv/kernel/log.c:193-203 | a commit that completes leaves an empty header and each home block at its committed contents |
| DiskLog.CommitAtomic | Lab3/xv6-riscv/kernel/log.c:177-203 | whatever prefix of the writes of commit reached the disk, recovery yields all old home blocks when the header write is missing, and all committed ones when it is there |
| DiskLog.CrashAtomicity | Lab3/xv6-riscv/kernel/log.c:67-123 | crash atomicity: a crash at any write of commit, any number of crashes in recovery, then one recovery, leave all home blocks old or all committed |
| LogDevice.Log.WriteHead | Lab3/xv6-riscv/kernel/log.c:99-114 | puts one write on the disk: the header with the count and block numbers of the log |
| LogDevice.FillHead | Lab3/xv6-riscv/kernel/log.c:102-114 | the copy loop builds the header block that read_head decodes |
| LogDevice.Log.ReadHead | Lab3/xv6-riscv/kernel/log.c:85-97 | the log in memory becomes what the header on disk says |
| LogDevice.Log.WriteLog | Lab3/xv6-riscv/kernel/log.c:177-191 | writes each logged block, as cached, to its log block, in order, and writes nothing else |
| LogDevice.Log.InstallTrans | Lab3/xv6-riscv/kernel/log.c:67-83 | writes log block i to home block i of the header, in order, and leaves no buffer pinned |
| LogDevice.Log.RecoverFromLog | Lab3/xv6-riscv/kernel/log.c:116-123 | issues exactly the writes to which the crash theorems apply, and ends with an empty log |
| LogDevice.Log.WriteTransaction | Lab3/xv6-riscv/kernel/log.c:193-198 | first half of commit: log blocks, then the header, as ready for a crash at any write |
| LogDevice.Log.Commit | Lab3/xv6-riscv/kernel/log.c:193-203 | issues exactly the writes of the crash theorems; afterwards every block seen through the cache is what it was and is on disk |
| LogDevice.Log.BeginOp | Lab3/xv6-riscv/kernel/log.c:125-142 | an operation is admitted exactly when no commit runs and MAXOPBLOCKS for it and for all outstanding ones still fit |
| LogDevice.Log.LogWrite | Lab3/xv6-riscv/kernel/log.c:213-235 | panics exactly when the log has size - 1 blocks or nobody is in an operation, even for a block already logged; otherwise absorbs or appends, and changes the view of that block alone |
| LogDevice.Log.EndOp | Lab3/xv6-riscv/kernel/log.c:144-175 | only the last operation out commits, and then all that was seen is on disk; nobody's view of a block changes |
| LogSystem.NextKeepsInv | Lab3/xv6-riscv/kernel/log.c:125-235 | every step of every interleaving of begin_op, log_write, end_op, single disk writes and crashes keeps the invariant of log, cache and disk |
| LogSystem.LogOfRun | Lab3/xv6-riscv/kernel/log.c:33-50 | in every reachable state: outstanding = 0 and no commit in progress imply lh.n = 0; no block is logged twice; exactly the logged blocks are pinned |
| LogSystem.CanHappen | Lab3/xv6-riscv/kernel/log.c:125-175 | nothing that can happen is excluded: a crash may come at any moment, and a commit, a recovery and the operations can always go on |
| LogSystem.OneOperation | Lab3/xv6-riscv/kernel/log.c:125-175 | what each step does to the outstanding operations; a commit starts exactly at the end of the last one |
| LogSystem.CountsOperations | Lab3/xv6-riscv/kernel/log.c:125-175 | in every run log.outstanding is the number of operations begun and not ended since the last crash |
| LogSystem.QuietIsDurable | Lab3/xv6-riscv/kernel/log.c:144-175 | with nothing outstanding and no commit or recovery in progress, what system calls see is what recovery would bring back |
| LogSystem.CommitCopies | Lab3/xv6-riscv/kernel/log.c:177-203 | during a commit what system calls see does not move, and the durable copy jumps from old to new at the header write |
| LogSystem.LogWriteRefines | Lab3/xv6-riscv/kernel/log.c:213-235 | a log_write that does not panic updates one block of the current copy and nothing of the durable one |
| LogSystem.CommitWriteRefines | Lab3/xv6-riscv/kernel/log.c:177-203 | each disk write of a commit leaves the durable copy alone, but for the header write, which makes the current copy durable |
| LogSystem.Refines | Lab3/xv6-riscv/kernel/log.c:125-235 | every step is a step of a machine with two copies of the file system: log_write changes the current one, a commit with nobody outstanding makes it durable, a crash falls back to the durable one |
| LogSystem.OnlyHeaderWrites | Lab3/xv6-riscv/kernel/log.c:99-203 | of all steps only the header write of a commit changes what recovery would bring back, to what system calls see at that moment, when none is in progress |
| LogSystem.DurableIsLastCommit | Lab3/xv6-riscv/kernel/log.c:10-31 | at every moment of every run, crashes included, what recovery would bring back is the file system as it stood at the last header write of a commit, with no system call in progress: no committed transaction is lost |
| LogSystem.NextReserved | Lab3/xv6-riscv/kernel/log.c:125-175 | one step keeps space for all that the outstanding operations may still log |
| LogSystem.NoPanic | Lab3/xv6-riscv/kernel/log.c:213-235 | with the log that mkfs makes, operations of at most MAXOPBLOCKS - 1 distinct blocks never reach a panic, in any interleaving |
| LogSystem.TenBlocksPanic | Lab3/xv6-riscv/kernel/log.c:220-221 | three operations of MAXOPBLOCKS blocks each, which begin_op admits, do reach the panic |
| LogSystem.ReservationIsTight | Lab3/xv6-riscv/kernel/log.c:125-142 | the bounds per operation under which no run panics are exactly those below MAXOPBLOCKS |
| PageTable.TreeRefinesFlatMap | Lab3/xv6-riscv/kernel/vm.c:72-103 | the hardware's walk of the three-level tree, on physical memory alone, agrees with the flat map for every page number below MAXVA |
| PageTable.DistinctEntries | Lab3/xv6-riscv/kernel/vm.c:72-103 | different page numbers, or different page tables, have different entries in memory |
| PageTable.AddNodeKeeps | Lab3/xv6-riscv/kernel/vm.c:91-101 | a page-table page added by walk keeps all trees well formed and changes no translation of any tree |
| PageTable.SetLeafKeeps | Lab3/xv6-riscv/kernel/vm.c:157-160 | the store of mappages changes the translation of one page number of one tree |
| PageTable.ClearLeafKeeps | Lab3/xv6-riscv/kernel/vm.c:178-192 | clearing an entry unmaps one page number of one tree, and no other translation changes |
| Vm.Kernel.Kalloc | Lab3/xv6-riscv/kernel/kalloc.c:67-82 | fails exactly when the free list is empty; otherwise the page was free, is nobody else's, and leaves the list |
| Vm.Kernel.Kfree | Lab3/xv6-riscv/kernel/kalloc.c:42-63 | the page goes back to the free list, and the pages still partition into free, held and used by a tree |
| Vm.Kernel.NewNode | Lab3/xv6-riscv/kernel/vm.c:94-100 | one level of walk with alloc: a new empty node, or nothing has changed and no page is free |
| Vm.Kernel.Walk | Lab3/xv6-riscv/kernel/vm.c:85-103 | the address of the entry of the page number, or 0 exactly when there is none and, with alloc, no page is free; no translation and no data changes |
| Vm.Kernel.MapPages | Lab3/xv6-riscv/kernel/vm.c:138-165 | maps consecutive pages one by one to exactly the page numbers of its range in 64-bit arithmetic; tells success, memory shortage and remap panic apart, with what was mapped before it stopped |
| Vm.SpanCovers | Lab3/xv6-riscv/kernel/vm.c:144-158 | the pages that mappages goes through are those that the addresses va..va + size lie in |
| Vm.Kernel.UnmapOne | Lab3/xv6-riscv/kernel/vm.c:178-192 | panics exactly where nothing is mapped, with nothing changed; otherwise unmaps one page number, and its page goes to the free list when do_free, and to the caller otherwise |
| Uvm.UvmUnmap | Lab3/xv6-riscv/kernel/vm.c:167-192 | unmaps the page numbers of its range from below and changes no other translation, page of data or tree; panics exactly when one is not mapped, at the first of them |
| Uvm.UvmAlloc | Lab3/xv6-riscv/kernel/vm.c:223-249 | on success the new pages, and nothing else, are mapped, zeroed, with the asked flags; on failure every translation and page of data is as before; a panic only at the first page that is mapped already or past the top |
| Uvm.UvmDealloc | Lab3/xv6-riscv/kernel/vm.c:251-267 | unmaps exactly the pages between the two sizes and returns the new size; panics exactly when one of them is not mapped |
| Uvm.GrowUndone | Lab3/xv6-riscv/kernel/vm.c:233-246 | mapping a range and unmapping it again leaves no trace |
| Uvm.DataStays | Lab3/xv6-riscv/kernel/vm.c:223-249 | page numbers outside the range of an update keep their flags and the contents of their page |
| CopySpace.UvmCopy | Lab3/xv6-riscv/kernel/vm.c:299-333 | on success the child maps a copy of every page, same flags and contents, and the parent is untouched; for want of memory nothing any process sees has changed; a panic only at the first page that the parent has not or the child has |
| FreeWalk.FreeTree | Lab3/xv6-riscv/kernel/vm.c:269-287 | frees every page-table page below a node of a tree without leaves; the panic on a leaf is unreachable |
| FreeWalk.UvmFree | Lab3/xv6-riscv/kernel/vm.c:289-297 | afterwards nothing of the address space has a page, and other spaces are as they were; panics exactly when a user page is not mapped |
| FreeWalk.NoOrphan | Lab3/xv6-riscv/kernel/vm.c:269-287 | a tree whose root is gone has no page left anywhere |
| Process.UvmCreate | Lab3/xv6-riscv/kernel/vm.c:194-205 | an empty tree on a page that no tree used, or failure with nothing changed |
| Process.ProcPagetable | Lab3/xv6-riscv/kernel/proc.c:184-216 | a space that maps only the trampoline and the trapframe; on any failure every space is as before and no page is lost |
| Process.ProcFreePagetable | Lab3/xv6-riscv/kernel/proc.c:218-226 | gives back every page of the space and keeps the trapframe and the trampoline's pages |
| Process.NothingLeft | Lab3/xv6-riscv/kernel/proc.c:160-182 | with every process-table entry unused, the free list holds every page the kernel does not keep for itself |
| Process.SizeInBytes | Lab3/xv6-riscv/kernel/vm.c:225-267 | in terms of addresses: below the trapframe a page is mapped exactly when some byte of the process's size is in it |
| Process.TopFlags | Lab3/xv6-riscv/kernel/proc.c:184-216 | the trapframe is for the kernel to read and write and the trampoline to read and execute; neither is for the user |
| ProcTable.WrappedSize | Lab3/xv6-riscv/kernel/proc.c:269-285 | what sz + n comes to in 64-bit arithmetic for a shrink: the smaller size, or one above sz when it would go below zero |
| ProcTable.Table.AllocProc | Lab3/xv6-riscv/kernel/proc.c:109-158 | the first unused entry, with a space disjoint from all others, or everything as it was: only when no entry is unused or fewer than six pages are free |
| ProcTable.Table.FreeProc | Lab3/xv6-riscv/kernel/proc.c:160-182 | gives back the trapframe and every page of the space; the other processes are untouched |
| ProcTable.Table.GrowProc | Lab3/xv6-riscv/kernel/proc.c:267-285 | grows, shrinks or fails as growproc does; the change is confined to the pages between the two sizes; growing fails only with fewer than three free pages for each page asked for; a panic needs a memory that fills a user space up to the trapframe |
| ProcTable.FullSpace | Lab3/xv6-riscv/kernel/vm.c:233-245 | where mappages panics on the way up, this space alone has as many pages as there are below the trapframe, 2,000 times what the machine has |
| ProcTable.Table.Fork | Lab3/xv6-riscv/kernel/proc.c:289-307 | the child has a copy of all the parent's pages, or all is as before: only when no entry is unused, or fewer pages are free than six and three for each of the parent's |
| ProcTable.Table.Perform | Lab3/xv6-riscv/kernel/proc.c:109-307 | what each request does to the table, and that a spawn or fork with an unused entry and that many free pages succeeds |
| ProcTable.Table.WholeLife | Lab3/xv6-riscv/kernel/proc.c:109-307 | page conservation: after any sequence of spawns, forks, grows, shrinks and exits, kalloc failing anywhere, taking the rest down leaves free exactly the pages that were free, each once |
| UserBytes.BytesApart | Lab3/xv6-riscv/kernel/vm.c:105-126 | two user addresses, of one space or of two, never stand for the same byte of memory |
| UserBytes.AwayFromTables | Lab3/xv6-riscv/kernel/vm.c:105-126 | no user address stands for a byte of a page-table page |
| UserBytes.Stored | Lab3/xv6-riscv/kernel/vm.c:364 | bytes stored at the physical address of a are seen at a by that space, and nowhere else by anybody |
| UserBytes.ProcessSpacesReady | Lab3/xv6-riscv/kernel/proc.c:184-216 | every state of the process table satisfies what the copying functions rely on: trapframe and trampoline are not reachable by the user |
| UserBytes.UserMemory.WalkAddr | Lab3/xv6-riscv/kernel/vm.c:105-126 | gives an address exactly for valid user pages below MAXVA, and the one the flat map says |
| UserBytes.UserMemory.CopyOut | Lab3/xv6-riscv/kernel/vm.c:348-371 | succeeds exactly when every page of the range is a user page; in all spaces exactly the bytes copied have changed; a failure stops at the first missing page |
| UserBytes.UserMemory.CopyIn | Lab3/xv6-riscv/kernel/vm.c:373-396 | succeeds exactly when every page of the range is a user page, and delivers what the program would read there |
| UserBytes.UserMemory.CopyInStr | Lab3/xv6-riscv/kernel/vm.c:398-439 | succeeds exactly when a NUL-terminated string of less than max bytes is readable there, and delivers it with its NUL |
| UserBytes.UserMemory.OutThenIn | Lab3/xv6-riscv/kernel/vm.c:348-396 | copyin of what copyout has put there gives it back, across page boundaries |
| Mlfq.Choose | Lab3/xv6-riscv/kernel/proc.c:480-492 | the inner scan gives a runnable process that is least by priority, then by times_exec |
| Mlfq.Scheduler.ChooseNext | Lab3/xv6-riscv/kernel/proc.c:478-492 | the loop over the table finds the process of the specification |
| Mlfq.Scheduler.WakeUp | Lab3/xv6-riscv/kernel/proc.c:612-628 | exactly the sleepers among the woken become runnable |
| Mlfq.Scheduler.YieldCpu | Lab3/xv6-riscv/kernel/proc.c:548-559 | the process becomes runnable; its priority goes from 0 to 1 and from 1 to 2, and to 2 from anything else |
| Mlfq.Scheduler.BoostCheck | Lab3/xv6-riscv/kernel/proc.c:507-514 | raises cant_proc and puts everybody at priority 0 exactly when maxproc has run that often; the scan goes on or ends as in the code |
| Mlfq.Scheduler.Round | Lab3/xv6-riscv/kernel/proc.c:470-514 | one round of the loop is one tick of the machine that the waiting theorems are about |
| MlfqWait.TickKeepsInv | Lab3/xv6-riscv/kernel/proc.c:501-514 | after each check every times_exec is below cant_proc, and a check without a dispatch never boosts |
| MlfqWait.PickedIsFair | Lab3/xv6-riscv/kernel/proc.c:480-492 | whoever is chosen over a waiting process of priority 0 has priority 0 too and has not run more often |
| MlfqWait.AheadDecreases | Lab3/xv6-riscv/kernel/proc.c:470-514 | each dispatch that passes a runnable process over brings its turn strictly nearer |
| MlfqWait.BoundedWaiting | Lab3/Informe.md:132-137 | among processes that live on, a runnable one is passed over by at most (runs left before the boost) + (times_exec + 1) for each other process |
| MlfqWait.NoStarvation | Lab3/Informe.md:132-137 | the same in rounds of the scheduler, as a linear bound for a fixed set of processes |
| MlfqFeedback.Feedback | Lab3/xv6-riscv/kernel/proc.c:548-559 | the process that had the CPU falls from level 0 to 1, from 1 to 2 or stays at 2 when the timer took it away, and keeps its level when it slept or exited |
| MlfqFeedback.Bystander | Lab3/xv6-riscv/kernel/proc.c:457-520 | every other process keeps its level but for a boost, and its times_exec; only sleepers that are woken change state |
| MlfqFeedback.BoostStep | Lab3/xv6-riscv/kernel/proc.c:508-512 | the boost comes exactly when the chosen process reaches cant_proc runs; all are at level 0 then, and the next one is 300 runs away |
| MlfqFeedback.Sinks | Lab3/xv6-riscv/kernel/proc.c:457-559 | over any run between two boosts, k preemptions take a process from level l to level min(l + k, 2) |
| MlfqFeedback.YielderWaits | Lab3/xv6-riscv/kernel/proc.c:457-559 | who was preempted above the last level is not chosen again before the next boost while somebody is runnable at the level it had |
| MlfqFeedback.TieBreak | Lab3/xv6-riscv/kernel/proc.c:476-492 | among equals the entry under the cursor goes first, and after it the lowest one |
| MlfqFamily.RoundKeeps | Lab3/xv6-riscv/kernel/proc.c:289-448 | whatever the process on the CPU forks, reaps or ends, every live process but init has a live parent, and every one descends from init |
| MlfqFamily.RoundIsTick | Lab3/xv6-riscv/kernel/proc.c:457-525 | without forks and waits a turn is a tick of the scheduler machine, choice, counting and boost |
| MlfqFamily.MayTurn | Lab3/xv6-riscv/kernel/proc.c:289-448 | who is on the CPU may fork into any unused entry and reap any child that has exited |
| MlfqFamily.BornAndGone | Lab3/xv6-riscv/kernel/proc.c:109-182 | a new process is runnable at level 0 and a child of who forked it; a reaped entry is free, with times_exec 0 |
| MlfqFamily.GenerationBound | Lab3/xv6-riscv/kernel/proc.c:289-399 | a family tree is less deep than the process table is long |
| MlfqFamily.StaysPut | Lab3/xv6-riscv/kernel/proc.c:160-182 | a turn without reparenting moves nobody in the generations down to that of the process that had it |
| MlfqFamily.TurnCounts | Lab3/xv6-riscv/kernel/proc.c:289-514 | each dispatch that passes b over lowers, in lexicographic order, the free places and the turns left of each generation from init down, although it may fork, reap, exit and hand its children to init |
| MlfqFamily.NobodyStarves | Lab3/Informe.md:132-137 | with processes that fork, wait and exit without end, whose entries are freed and taken again with times_exec 0, a runnable process is passed over for no more rounds than a bound in the table size and cant_proc |
| MlfqFamily.NobodyEverStarves | Lab3/xv6-riscv/kernel/proc.c:241-265 | the same at any moment after userinit, whatever has been forked, reaped and ended until then |
| SemMachine.DrowsyAfter | Lab2/xv6-riscv-riscv/kernel/proc.c:535-562 | only a process that holds the semaphore's lock, with the semaphore down, gets past the point of no return of sleep |
| SemMachine.RousedFurther | Lab2/xv6-riscv-riscv/kernel/proc.c:566-581 | wakeup's scan leaves nobody before its place asleep on the semaphore, although the processes' own locks come and go |
| SemMachine.NextKeepsInv | Lab2/xv6-riscv-riscv/kernel/sem.c:51-84 | every acquire, release and update, in every order, and every kill, keeps the invariant of locks, sleepers and counts |
| SemMachine.NoLostWakeup | Lab2/xv6-riscv-riscv/kernel/sem.c:51-84 | in every reachable state: value = initial + ups - downs, value is not negative unless opened so, and while it is positive nobody sleeps on the semaphore, whoever holds which locks |
| SemMachine.StuckMeansAsleep | Lab2/xv6-riscv-riscv/kernel/sem.c:69-84 | the locks never deadlock: when nobody can move, every unfinished process sleeps in sem_down of a semaphore that is not up |
| SemMachine.WokenByUp | Lab2/xv6-riscv-riscv/kernel/sem.c:51-67 | a sleeper in sem_down is woken, kill apart, only by a sem_up of the semaphore that it waits for |
| SemMachine.EveryStepCounts | Lab2/xv6-riscv-riscv/kernel/sem.c:51-84 | every step starts the next entry of a script or brings the system call nearer to its end, doing its work once; only a process that was woken starts sem_down over |
| PingPong.Lockstep | Lab2/xv6-riscv-riscv/user/ping_pong.c:10-53 | the two loops are never out of step: one moves through down, print and up, then the other |
| PingPong.NextPlays | Lab2/xv6-riscv-riscv/user/ping_pong.c:10-53 | every step keeps the tally of positions, semaphore values and output |
| PingPong.Alternates | Lab2/xv6-riscv-riscv/user/ping_pong.c:10-53 | for every n and interleaving: the output is a prefix of (ping pong)^n, all of it once both have finished, and semaphore values plus processes between down and up sum to 1 |
| PingPong.NeverStuck | Lab2/xv6-riscv-riscv/user/ping_pong.c:10-53 | no interleaving deadlocks before both processes have finished |
| WaitMachine.NappingAfter | Lab3/xv6-riscv/kernel/proc.c:582-628 | only a process that holds wait_lock and has looked at every entry starts to sleep in wait, and wakeup ends the sleep of the process it looks for |
| WaitMachine.ZombieAfter | Lab3/xv6-riscv/kernel/proc.c:338-399 | a zombie child appears only by an exit or by reparent |
| WaitMachine.SearchFurther | Lab3/xv6-riscv/kernel/proc.c:412-437 | wait's scan leaves no zombie child behind its place |
| WaitMachine.NextKeeps | Lab3/xv6-riscv/kernel/proc.c:289-448 | every step of fork, exit, wait, reparent, sleep, wakeup and kill, in every order, keeps the invariant of locks, sleepers and zombie children |
| WaitMachine.NoLostExit | Lab3/xv6-riscv/kernel/proc.c:338-448 | in every reachable state where wait_lock is free, no parent asleep in wait has a zombie child, its own or inherited |
| WaitMachine.NoOrphans | Lab3/xv6-riscv/kernel/proc.c:338-399 | whoever has exited, or no longer exists, is nobody's parent |
| WaitKin.NextKin | Lab3/xv6-riscv/kernel/proc.c:289-448 | every step keeps what each process knows about parents: the scan of wait has havekids set exactly when it has passed a child |
| WaitKin.SleepsExactly | Lab3/xv6-riscv/kernel/proc.c:438-446 | in every reachable state, wait goes to sleep exactly when its caller has a child and has not been killed, and then no child has exited |
| WaitKin.WaitReturns | Lab3/xv6-riscv/kernel/proc.c:401-448 | wait ends only by freeing one child that has exited, or with -1: the status cannot be delivered, there is no child, or its caller has been killed; nothing else has changed then |
| WaitKin.SleepsForAKid | Lab3/xv6-riscv/kernel/proc.c:438-446 | whoever sleeps in wait has a child, all the time |
| WaitKin.NobodyIsAlone | Lab3/xv6-riscv/kernel/proc.c:289-399 | every process but init has a parent that has not exited |
| WaitKin.ParentAfter | Lab3/xv6-riscv/kernel/proc.c:320-437 | a parent changes only by fork, from none to the caller; by reparent, from the caller to init; and by wait, with the zombie child that it frees |
| WaitKin.ParentsChange | Lab3/xv6-riscv/kernel/proc.c:320-437 | the same in every reachable state, and fork launches only a child of its caller |
| WaitKin.WokenBy | Lab3/xv6-riscv/kernel/proc.c:338-386 | a sleeper in wait is woken, kill apart, only by a child that exits, or, if it is init, by an exit that hands it children |
| WaitKin.EveryStepCounts | Lab3/xv6-riscv/kernel/proc.c:289-448 | every step brings fork, exit or wait nearer to its end; only a process that was woken starts wait over, and exit never returns |
| WaitKin.SomebodyMoves | Lab3/xv6-riscv/kernel/proc.c:289-448 | no deadlock: in every reachable state, while a process is neither dead nor asleep, some process can move |
| WaitKin.KilledRuns | Lab3/xv6-riscv/kernel/proc.c:630-652 | a sleeper that is killed can move at once, and nothing else changes |
| WaitKin.CallsFree | Lab3/xv6-riscv/kernel/proc.c:357-363 | every process in user code can wait, and every one but init can exit |
| FreeList.ReleasedCoalesced | Lab3/xv6-riscv/user/umalloc.c:24-44 | freeing a block keeps the list in address order with no two blocks adjacent |
| FreeList.ReleasedUnits | Lab3/xv6-riscv/user/umalloc.c:24-44 | freeing adds exactly the units of the block to those that are free |
| FreeList.CarvedCoalesced | Lab3/xv6-riscv/user/umalloc.c:74-85 | what malloc leaves is in address order with no two blocks adjacent |
| FreeList.CarvedUnits | Lab3/xv6-riscv/user/umalloc.c:74-85 | malloc takes exactly the units it hands out from those that are free |
| FreeList.Canonical | Lab3/xv6-riscv/user/umalloc.c:24-90 | the free list is determined by which units are free: no history of mallocs and frees can be told from another that ends with the same units |
| Umalloc.StopsAtPlace | Lab3/xv6-riscv/user/umalloc.c:29-32 | free's search loop stops exactly at the block's place in address order, including the wrap at the ends |
| Umalloc.HasPlace | Lab3/xv6-riscv/user/umalloc.c:29-32 | a block that overlaps no free block has such a place |
| Umalloc.Relinked | Lab3/xv6-riscv/user/umalloc.c:33-43 | the pointer stores of free turn one address-ordered cycle of headers into the cycle with the block merged in |
| Umalloc.FreeKeeps | Lab3/xv6-riscv/user/umalloc.c:24-44 | free keeps the heap: one cycle, live blocks disjoint from it and each other, free plus live equal to what sbrk gave |
| Umalloc.TakenCycle | Lab3/xv6-riscv/user/umalloc.c:75-83 | unlinking a block or cutting off its tail leaves one cycle |
| Umalloc.TakeKeeps | Lab3/xv6-riscv/user/umalloc.c:74-86 | malloc keeps the heap, and the block it hands out was free |
| Umalloc.GrantKeeps | Lab3/xv6-riscv/user/umalloc.c:46-61 | memory from sbrk joins the heap as a block of its own, wherever the break has moved to meanwhile |
| Umalloc.AsksForEnough | Lab3/xv6-riscv/user/umalloc.c:54 | the int argument of sbrk is what morecore needs exactly when the request is below 2^27 units; above, it asks for at most one unit, or to shrink |
| Umalloc.ClaimsWhatIsGiven | Lab3/xv6-riscv/user/umalloc.c:46-61 | the units that morecore adds to the list are those that sbrk has given exactly when the request is below 2^27 units |
| Umalloc.FreeUndoesMalloc | Lab3/xv6-riscv/user/umalloc.c:24-90 | free of what malloc has just taken restores the very same list |
| Umalloc.NUnits | Lab3/xv6-riscv/user/umalloc.c:69 | the fewest units whose space after the header holds nbytes |
| Umalloc.Allocator.Search | Lab3/xv6-riscv/user/umalloc.c:29-32 | the search ends, at the block's predecessor |
| Umalloc.Allocator.Free | Lab3/xv6-riscv/user/umalloc.c:24-44 | the block, and nothing else, is free again; the heap invariant holds |
| Umalloc.Allocator.MoreCore | Lab3/xv6-riscv/user/umalloc.c:46-61 | fails exactly when the kernel refuses, with everything as it was; otherwise at least nunits in one block have been added, and all that the list claims is memory of the program exactly when nunits is below 2^27 |
| Umalloc.Allocator.Sbrk | Lab3/xv6-riscv/kernel/sysproc.c:39-49 | the break moves by the argument cut to an int, and what has been given and not taken back is recorded; refuses only growth |
| Umalloc.Allocator.Malloc | Lab3/xv6-riscv/user/umalloc.c:63-90 | for every request: a block of the size asked for that was nobody's, the end of the first block from where the last search ended that is large enough; a null pointer exactly when no free block is large enough and the kernel refuses more; what the list claims stays memory of the program exactly if a free block is large enough, the kernel refuses, or less than 2^27 units are asked for |
| Umalloc.HugeRequest | Lab3/xv6-riscv/user/umalloc.c:46-61 | a request of 2^31 bytes on a fresh heap is granted, and the list then claims memory that the program does not have |
| Grep.HereOne | Lab3/xv6-riscv/user/grep.c:92-94 | a character or dot at the head of a pattern matches one fitting character and then the rest |
| Grep.HereStar | Lab3/xv6-riscv/user/grep.c:88-89 | x* at the head matches some number of fitting characters, after which the rest matches |
| Grep.Match | Lab3/xv6-riscv/user/grep.c:71-81 | returns 1 exactly when some substring of the text, at the start for ^ and at the end for $, is in the language of the pattern |
| Grep.MatchHere | Lab3/xv6-riscv/user/grep.c:83-95 | returns 1 exactly when some prefix of the text is in the language of the pattern, and terminates |
| Grep.MatchStar | Lab3/xv6-riscv/user/grep.c:97-105 | returns 1 exactly when some number of fitting characters can be skipped for the rest to match |
| FatTable.Acyclic | Lab4/fat-fuse/fat_table.c:16-27 | no chain that ends runs into itself |
| FatTable.ChainUnique | Lab4/fat-fuse/fat_table.c:16-27 | two chains from the same cluster are the same chain |
| FatTable.ExtendChain | Lab4/fat-fuse/fat_file.c:530-548 | appending a free cluster makes the chain one longer |
| FatTable.CutChain | Lab4/fat-fuse/fat_file.c:485-500 | what truncate leaves of the map is a chain of the first clusters |
| FatTable.CutMore | Lab4/fat-fuse/fat_file.c:494-500 | freeing one more cluster of the rest leaves the kept part of the chain alone and the link already read is the right one |
| FatTable.SearchableLess | Lab4/fat-fuse/fat_table.c:50-67 | allocating a cluster leaves the search for the others as certain to end, or to run off the map, as it was |
| FatTable.PlentyLess | Lab4/fat-fuse/fat_table.c:51-67 | allocating a cluster takes exactly one from the data clusters that are free |
| FatBytes.Injective | Lab4/fat-fuse/fat_table.c:68-72 | different bytes of files are at different places on disk |
| FatBytes.WriteSame | Lab4/fat-fuse/fat_file.c:575-588 | a write within one cluster replaces those bytes of its own file |
| FatBytes.WriteOther | Lab4/fat-fuse/fat_file.c:575-588 | and no byte of a file with other clusters |
| FatBytes.BackedStill | Lab4/fat-fuse/fat_util.c:30-48 | the bytes of a file stay on the image when it grows, and when the chain is extended or cut |
| FatLayout.ChainIsLinked | Lab4/fat-fuse/fat_table.c:16-27 | a chain is a list of cluster numbers, each found in the map under the one before, up to an end mark or what is no cluster number |
| FatLayout.ClustersInOrder | Lab4/fat-fuse/fat_table.c:69-72 | cluster 2 begins the data of the volume, and the others follow it in order |
| FatLayout.FileLies | Lab4/fat-fuse/fat_file.c:428-467 | byte k of a file is byte k % bpc of cluster k / bpc of its chain, by its place on the image |
| FatLayout.LiesOnce | Lab4/fat-fuse/fat_file.c:428-467 | and what is read there is the file |
| FatFile.GrowOk | Lab4/fat-fuse/fat_file.c:530-548 | a free cluster joined to one file keeps all chains disjoint, acyclic and long enough |
| FatFile.WriteEnd | Lab4/fat-fuse/fat_file.c:549-608 | what the loop has done is a splice of the file, with the size raised if need be and every other file as it was |
| FatFile.EndBacked | Lab4/fat-fuse/fat_file.c:549-608 | whatever a write has put beyond the end of the image, every byte below the new size is on it |
| FatVolume.Volume.SeekCluster | Lab4/fat-fuse/fat_table.c:93-106 | cluster offset / cluster_size of the chain, the end mark one past the end; beyond, EOVERFLOW if the mark is 0x0FFFFFFF, and off the map for any other |
| FatVolume.Volume.GetNextFreeCluster | Lab4/fat-fuse/fat_table.c:50-67 | the lowest free entry of the map; EOC exactly when only entries past the last data cluster are free, off the map exactly when none is |
| FatVolume.Volume.NextOrNewCluster | Lab4/fat-fuse/fat_file.c:526-548 | the next cluster of the chain; at its end a cluster that was free joins, and on EIO, or where the search runs off the map, nothing has changed |
| FatVolume.Volume.Pread | Lab4/fat-fuse/fat_file.c:427-468 | the bytes of the file from offset on, up to its end, or to the last boundary between clusters before the device fails; EOVERFLOW beyond the end |
| FatVolume.Volume.Pwrite | Lab4/fat-fuse/fat_file.c:549-608 | contents become old[..off] + written + old[off + k..] for the k returned, also at cluster boundaries and beyond the end of the image, cut at the size that fits 32 bits; other files unchanged; new clusters come from the free ones; the clusters wanted are all found exactly when, before the call, as many data clusters are free, and then all that the device takes is written; the search runs off the map exactly when too few entries are |
| FatVolume.Volume.Truncate | Lab4/fat-fuse/fat_file.c:469-506 | leaves the first offset bytes and offset / cluster_size + 1 clusters, frees exactly the rest, and leaves other files alone; reads off the map exactly when a file whose clusters are all full is cut at its end |
| FatVolume.TruncateInside | Lab4/fat-fuse/fat_file.c:478-488 | where seek_cluster stops lies within the map, unless the file is cut at its end and its clusters are all full |
| FatVolume.ShortPiece | Lab4/fat-fuse/fat_file.c:447-463 | the piece that the device cuts short ends the bytes that count at the last boundary between clusters |
| FatVolume.Volume.Eliminate | Lab4/fat-fuse/fat_file.c:507-524 | frees exactly the clusters of the file, and leaves other files alone |
| FatVolume.Volume.WriteThenRead | Lab4/fat-fuse/fat_file.c:427-608 | with enough free clusters all that the device takes is written, and pread returns it exactly when offset plus that stays below 2^32 bytes |
| FatImages.GrowPast | Lab4/fat-fuse/fat_file.c:598-600 | a file of 2^32 - 1 bytes on an image of 32 KiB clusters: pwrite reports two more bytes, and pread finds nothing there |
| FatImages.GrowFull | Lab4/fat-fuse/fat_table.c:51-67 | an image on which one more byte makes pwrite search beyond the map |
| FatImages.CutFull | Lab4/fat-fuse/fat_file.c:478-488 | the same image: truncate at the end of its file reads beyond the map |
| FatImages.CountedIff | Lab4/fat-fuse/fat_volume.c:126-128 | num_data_clusters is never too small; it is right exactly when the FAT sectors, and with a 16-bit sector count of 0 all that is missing to 2^32 sectors, do not fill a cluster; on a FAT32 volume it is (2^32 - reserved sectors) / sectors per cluster whatever its size |
| FatImages.OnVolume | Lab4/fat-fuse/fat_volume.c:373-376 | a cluster lies on the volume exactly when its number is below that of the clusters that the volume has, plus 2 |
| FatImages.GrowImage | Lab4/fat-fuse/fat_table.c:51-67 | an image of the layout of those in the repository, with all its clusters in use: pwrite succeeds with a cluster past its end, and the image grows |
| FsBlocks.WordRoundTrip | Lab3/xv6-riscv/kernel/fs.c:407-415 | a block number written into an indirect block is read back, and the other entries stay |
| FsBlocks.BlockBitRoundTrip | Lab3/xv6-riscv/kernel/fs.c:73-79 | a bitmap bit set or cleared by the byte arithmetic is read back, and no other bit of the block moves |
| Inodes.HeldOnce | Lab3/xv6-riscv/kernel/fs.c:372-421 | no block is held by two places of inodes or indirect blocks |
| Inodes.UsedIffHeld | Lab3/xv6-riscv/kernel/fs.c:61-105 | a data block is marked used exactly when some inode holds it |
| InodeSteps.FlipOk | Lab3/xv6-riscv/kernel/fs.c:73-101 | setting the bit of a free block, or clearing that of one no longer held, keeps ownership exact |
| InodeSteps.AttachOk | Lab3/xv6-riscv/kernel/fs.c:388-395 | a fresh block entered into the inode keeps ownership exact |
| InodeSteps.EntryOk | Lab3/xv6-riscv/kernel/fs.c:407-414 | a fresh block entered into the indirect block keeps ownership exact |
| InodeSteps.EntryKeeps | Lab3/xv6-riscv/kernel/fs.c:407-414 | and no file loses or moves a block |
| InodeSteps.ChunkWritten | Lab3/xv6-riscv/kernel/fs.c:517-527 | bytes copied into one block of a file are spliced into that file and into no other |
| FsCode.Fs.Balloc | Lab3/xv6-riscv/kernel/fs.c:63-88 | the lowest block that was free, zeroed, with its bit set and logged; 0 exactly on a full disk, with nothing changed |
| FsCode.Fs.Bfree | Lab3/xv6-riscv/kernel/fs.c:90-105 | of a block that nobody holds: panics exactly when it is free already; otherwise its bit, and nothing else, is cleared |
| FsCode.Fs.Bmap | Lab3/xv6-riscv/kernel/fs.c:382-421 | addrs[bn] for the first twelve blocks, word bn - 12 of the block addrs[12] for the others, allocated with the indirect block if need be; panics exactly from MAXFILE on; says which blocks it logged; 0 only on a full disk |
| FileLayout.BlocksInOrder | Lab3/xv6-riscv/kernel/fs.c:375-421 | the blocks of a file lie in the order of the places of its inode |
| FileLayout.OneBlockEach | Lab3/xv6-riscv/kernel/fs.h:26-37 | each place but addrs[12] holds one block of the file |
| FileLayout.AddrIsBlock | Lab3/xv6-riscv/kernel/fs.c:382-421 | the places as entries of the inode and words of the indirect block |
| FileLayout.FileBytes | Lab3/xv6-riscv/kernel/fs.c:471-496 | byte k of a file is byte k % 1024 of block k / 1024, by block number |
| FileLayout.BytesOfFile | Lab3/xv6-riscv/kernel/fs.c:471-496 | and what is read there is the file |
| FileLayout.BitmapPlaces | Lab3/xv6-riscv/kernel/fs.h:47-51 | the bit of block b: bit b % 8 of byte b % 8192 / 8 of block bmapstart + b / 8192 |
| FileLayout.WordBytes | Lab3/xv6-riscv/kernel/fs.c:406 | a block number is stored least significant byte first |
| FileLayout.InodePlaces | Lab3/xv6-riscv/kernel/fs.h:41-45 | sixteen inodes to a block, in order |
| FsCode.Fs.Writei | Lab3/xv6-riscv/kernel/fs.c:498-539 | refuses exactly the offsets past the end and the sizes past MAXFILE; otherwise splices into the file, raises the size, leaves other files alone; says where it stopped short and why, which blocks it took and that it logged them, within its budget |
| FsCode.Fs.Readi | Lab3/xv6-riscv/kernel/fs.c:467-496 | returns exactly the slice of the file, cut at its end, -1 when the user buffer ends before, and allocates nothing |
| FsCode.Fs.Itrunc | Lab3/xv6-riscv/kernel/fs.c:423-453 | empties the file and gives up exactly the blocks of the inode, direct, listed and the list itself; no bfree panics |
| FsCode.TruncFrees | Lab3/xv6-riscv/kernel/fs.c:423-453 | the bitmap loses exactly the blocks that the inode held |
| FsCode.Fs.WriteChunk | Lab3/xv6-riscv/kernel/file.c:156-174 | one transaction of filewrite continues the splice where the last one ended and logs at most MAXOPBLOCKS blocks |
| FsCode.Fs.Filewrite | Lab3/xv6-riscv/kernel/file.c:132-181 | the chunks together are one splice at f->off, which moves by what was written; n or -1; each transaction logs at most MAXOPBLOCKS blocks, at most 7 when the bitmap is one block, and every block that it has changed |
| FsCode.SpentTotal | Lab3/xv6-riscv/kernel/fs.c:505-539 | distinct blocks logged by a write over a given number of file blocks: data, bitmap and indirect blocks and the inode, a bitmap block only for a block that was taken |
| FsCode.ChunkBudget | Lab3/xv6-riscv/kernel/file.c:149-155 | a chunk logs at most MAXOPBLOCKS blocks, and at most 7 when the bitmap is one block; its budget is MAXOPBLOCKS exactly on a disk of four bitmap blocks when it lies in four blocks across the start of the indirect block |
| FsCode.StoredTwice | Lab3/xv6-riscv/kernel/file.c:157-174 | two chunks end to end make one write, the second one possibly cut short |
| FsTheorems.ChunkFitsLog | Lab3/xv6-riscv/kernel/file.c:149-155 | the budget of a chunk is one under which the log never panics exactly when the disk has at most three bitmap blocks or the chunk does not lie in four blocks across the start of the indirect block |
| TightDisk.LogsTen | Lab3/xv6-riscv/kernel/file.c:148-174 | for each of the other sizes and chunks, a valid disk and file on which writei writes the whole chunk and logs MAXOPBLOCKS blocks |
| TightDisk.TenLogged | Lab3/xv6-riscv/kernel/fs.c:61-88 | four blocks taken there have four bitmap blocks: with the indirect block and the inode that makes ten |
| FsTheorems.EndsWithRoom | Lab3/xv6-riscv/kernel/fs.c:498-539 | on a disk with room, what writei returns and stores is determined by off, n and the number of bytes that can be read |
| FsTheorems.TruthfulWhen | Lab3/xv6-riscv/kernel/fs.c:498-539 | for a file of given size, the return value of writei describes it exactly when either_copyin can read all the bytes or none, or stops on a boundary between blocks, or in a block that begins at or after the end of the file |
| FsCode.NoneUnlogged | Lab3/xv6-riscv/kernel/fs.c:505-539 | a write that stores its blocks whole, or stops at one that a full disk has no room for, has logged every block that it has changed |
| FsCode.Fs.WriteNext | Lab3/xv6-riscv/kernel/file.c:156-174 | one round of filewrite is one transaction from one state of the file system to the next |
| FsCrash.FilesOf | Lab3/xv6-riscv/kernel/fs.c:382-421 | the blocks outside the log determine every inode and every file |
| FsCrash.OneStep | Lab3/xv6-riscv/kernel/log.c:125-235 | begin_op, log_write, end_op, disk writes and crashes in the course of a filewrite keep the durable copy at most one chunk behind |
| FsCrash.DurableChunks | Lab3/xv6-riscv/kernel/file.c:148-174 | at every moment of every such run, what recovery would bring back is the file system after the chunks that have ended, or all but the last; all of them once its end_op has returned; log_write never panics |
| FsCrash.NextChunkCanEnd | Lab3/xv6-riscv/kernel/file.c:148-174 | from every moment between two chunks the next one can be logged, ended and committed |
| FsCrash.CrashDuringFilewrite | Lab3/xv6-riscv/kernel/file.c:148-174 | after any crashes and recovery the file has taken a whole number of the chunks and every other file is as it was |
| TightDisk.PartialCopy | Lab3/xv6-riscv/kernel/fs.c:516-524 | a call of writei on a valid disk that returns 0 and has changed a byte of the file from 0 to 1 |
| BufferCache.NextKeepsInv | Lab3/xv6-riscv/kernel/bio.c:55-151 | every step keeps: refcnt is users plus pins, the ring lists each buffer once in order of release, no block twice |
| BufferCache.EveryBufferOnce | Lab3/xv6-riscv/kernel/bio.c:30-53 | after any run each buffer is at exactly one place of the ring, behind those released later |
| BufferCache.Recycles | Lab3/xv6-riscv/kernel/bio.c:65-88 | bget finds a cached block; otherwise it recycles, of the buffers nobody uses or pins, the one released longest ago; it panics only when all are in use |
| BufferCache.StampIsRelease | Lab3/xv6-riscv/kernel/bio.c:114-137 | in every run the order of the ring is that of the last brelse of each buffer that left nobody with it |
| BufferCache.LeastRecentlyReleased | Lab3/xv6-riscv/kernel/bio.c:75-87 | over any run: a block that is in no buffer gets, of the buffers in no use, the one released by its last user longest ago |
| BufferCache.KeepsBlock | Lab3/xv6-riscv/kernel/bio.c:75-87 | a buffer in use or pinned goes on holding its block |
| BufferCache.KeepsBlockAlong | Lab3/xv6-riscv/kernel/bio.c:55-151 | the same from any moment of a run to any later one |
| BufferCache.LiveOnce | Lab3/xv6-riscv/kernel/bio.c:55-89 | after any run no two buffers that are used, pinned or valid hold the same block, for every device and block |
| BufferCache.BlockOnce | Lab3/xv6-riscv/kernel/bio.c:55-89 | nor do any two buffers, in use or not, hold the same block of a device whose number is not 0 |
| BufferRing.UnlinkOk | Lab3/xv6-riscv/kernel/bio.c:128-129 | the two stores that take a buffer out leave prev and next around the ring without it |
| BufferRing.LinkOk | Lab3/xv6-riscv/kernel/bio.c:47-51 | the four stores after the head put it first |
| BufferRing.Bcache.Binit | Lab3/xv6-riscv/kernel/bio.c:36-53 | prev and next go round all buffers, the last one first |
| BufferRing.Bcache.Bget | Lab3/xv6-riscv/kernel/bio.c:55-89 | gives the buffer of the cache machine, and its panic is the machine's |
| BufferRing.Bcache.Bread | Lab3/xv6-riscv/kernel/bio.c:91-103 | reads the disk exactly when the buffer is not valid, into this buffer alone; afterwards it is valid |
| BufferRing.Bcache.Bwrite | Lab3/xv6-riscv/kernel/bio.c:105-112 | the block of the buffer becomes what the buffer holds, and no other block changes |
| BufferCache.StaysValid | Lab3/xv6-riscv/kernel/bio.c:91-103 | over any run, a buffer that bread has filled stays valid until bget takes it for another block: no bread of its block goes to the disk before |
| BufferContents.AfterGood | Lab3/xv6-riscv/kernel/bio.c:55-151 | every step of processes that get, lock, read, edit, write, pin and release buffers keeps the invariant of locks and contents |
| BufferContents.GetsExactly | Lab3/xv6-riscv/kernel/bio.c:58-89 | bget gives a buffer exactly when some buffer holds the block or is in no use |
| BufferContents.UsersGoOn | Lab3/xv6-riscv/kernel/bio.c:91-137 | whoever uses a buffer can go on, or waits for its holder, who can |
| BufferContents.Turns | Lab3/xv6-riscv/kernel/bio.c:91-137 | the turns of bread and brelse: lock, transfer if not valid, the caller; and back |
| BufferContents.DiskStep | Lab3/xv6-riscv/kernel/bio.c:105-112 | the disk changes by bwrite only, in the block of the buffer |
| BufferContents.FetchesUncached | Lab3/xv6-riscv/kernel/bio.c:98-101 | bread goes to the disk only for a block that no buffer has |
| BufferContents.StaysCached | Lab3/xv6-riscv/kernel/bio.c:55-103 | a block is cached from the end of its bread until its buffer is recycled, and at no other time |
| BufferContents.ContentsStep | Lab3/xv6-riscv/kernel/bio.c:55-151 | the contents of a block change in two ways only: its holder edits the buffer, or the buffer is recycled, which leaves what the disk has |
| BufferContents.MemoryStep | Lab3/xv6-riscv/kernel/bio.c:55-151 | when holders write or pin what they have edited, recycling loses nothing: the blocks are a memory that only edits change |
| BufferContents.BreadGivesLast | Lab3/xv6-riscv/kernel/bio.c:91-103 | in every run of such holders, bread returns what the last holder of the block left, or what the disk had if nobody has edited it |
| BufferRing.Bcache.Brelse | Lab3/xv6-riscv/kernel/bio.c:114-137 | the relinking of prev and next is the move to the front of the machine |
| BufferRing.Bcache.Bpin | Lab3/xv6-riscv/kernel/bio.c:139-144 | one more reference that no release takes away |
| BufferRing.Bcache.Bunpin | Lab3/xv6-riscv/kernel/bio.c:146-151 | takes one pin away |
| VirtioMem.FirstFreeIff | Lab3/xv6-riscv/kernel/virtio_disk.c:155-166 | alloc_desc finds a descriptor whenever one is free |
| VirtioMem.Alloc3Iff | Lab3/xv6-riscv/kernel/virtio_disk.c:199-213 | alloc3_desc succeeds exactly when three descriptors are free, and gives three different ones |
| VirtioMem.FreeThree | Lab3/xv6-riscv/kernel/virtio_disk.c:184-197 | free_chain of a chain of three frees these three and stops |
| VirtioMem.GiveBackTwo | Lab3/xv6-riscv/kernel/virtio_disk.c:206-210 | descriptors taken in vain and given back leave no trace |
| VirtioMem.SectorIff | Lab3/xv6-riscv/kernel/virtio_disk.c:218 | the 32-bit sector number stands for the block exactly below 2^31 blocks |
| VirtioRing.FollowsRequest | Lab3/xv6-riscv/kernel/virtio_disk.c:235-265 | the device, following the chain in memory, finds the operation, block and buffer that virtio_disk_rw was called with |
| VirtioProof.Wraps | Lab3/xv6-riscv/kernel/virtio_disk.c:271-277 | the ring place of an index is the same before and after 16-bit wrap-around |
| VirtioProof.RingPush | Lab3/xv6-riscv/kernel/virtio_disk.c:271-277 | a new avail entry overwrites none that is waiting, across the wrap |
| VirtioProof.NextKeepsInv | Lab3/xv6-riscv/kernel/virtio_disk.c:155-327 | every step of driver and device, in every order, keeps the invariant |
| VirtioProof.Conservation | Lab3/xv6-riscv/kernel/virtio_disk.c:155-327 | after any run: free descriptors plus three per request in flight make NUM, chains are disjoint, and fewer than a ring's worth of entries wait in either ring |
| VirtioProof.StartsExactly | Lab3/xv6-riscv/kernel/virtio_disk.c:216-233 | virtio_disk_rw starts exactly when three descriptors are free, for every buffer in no request and every block whose sector fits |
| VirtioProof.AllAccounted | Lab3/xv6-riscv/kernel/virtio_disk.c:216-294 | in every run each call that has been made is outstanding or has returned |
| VirtioProof.ServedOnce | Lab3/xv6-riscv/kernel/virtio_disk.c:215-327 | a call that has returned was served by exactly one transfer of its own buffer and block, in its own direction, and by exactly one wakeup, of its own buffer |
| VirtioProof.Linearizable | Lab3/xv6-riscv/kernel/virtio_disk.c:215-327 | with completions in any order each call takes effect once between its start and its return: a write puts what its buffer held when it was called, a read returns what the earlier effects left on its block, and the disk is what the effects made of it |
| VirtioProof.RespectsOrder | Lab3/xv6-riscv/kernel/virtio_disk.c:215-327 | a call that had returned when another one started takes effect before it |
| VirtioProof.DiskOfTransfers | Lab3/xv6-riscv/kernel/virtio_disk.c:215-327 | after any run the disk is the first one with the writes put on it in the order of the transfers, and every transfer of a read brought what the ones before it had left |
| VirtioProof.NeverStuck | Lab3/xv6-riscv/kernel/virtio_disk.c:215-327 | while a request is outstanding somebody can move |
| VirtioProof.WaitsForSomeone | Lab3/xv6-riscv/kernel/virtio_disk.c:226-233 | a caller that sleeps for descriptors sleeps for a request that is outstanding |
| VirtioProof.InterruptServesAll | Lab3/xv6-riscv/kernel/virtio_disk.c:294-327 | one interrupt serves every entry of the used ring in order, each waking its own buffer, and does not panic |
| VirtioDriver.Driver.AllocDesc | Lab3/xv6-riscv/kernel/virtio_disk.c:155-166 | takes the first free descriptor, or none |
| VirtioDriver.Driver.FreeDescriptor | Lab3/xv6-riscv/kernel/virtio_disk.c:168-182 | panics exactly for an index of NUM or more and for a descriptor that is free already; otherwise one waiter is woken for it |
| VirtioDriver.Driver.FreeChainOf | Lab3/xv6-riscv/kernel/virtio_disk.c:184-197 | the loop frees what the chain of the specification reaches, with one wakeup for each descriptor |
| VirtioDriver.Driver.Alloc3Desc | Lab3/xv6-riscv/kernel/virtio_disk.c:199-213 | three descriptors, or none, the memory as it was and a wakeup for each descriptor that was free |
| VirtioDriver.Driver.Start | Lab3/xv6-riscv/kernel/virtio_disk.c:215-281 | goes ahead exactly with three free descriptors, and then leaves the memory that FollowsRequest is about; otherwise nothing has changed |
| VirtioDriver.Driver.End | Lab3/xv6-riscv/kernel/virtio_disk.c:288-291 | gives the chain back as the machine does |
| VirtioDriver.Driver.Interrupt | Lab3/xv6-riscv/kernel/virtio_disk.c:294-327 | handles the used ring as InterruptServesAll describes |
| ShellRoundTrip.WordToken | Lab3/xv6-riscv/user/sh.c:266-309 | a word is one token, with its bounds |
| ShellRoundTrip.PrintThenParse | Lab3/xv6-riscv/user/sh.c:327-447 | parsecmd of the printed form of any command tree within the limit on arguments rebuilds the tree |
| ShellRoundTrip.ArgumentLimit | Lab3/xv6-riscv/user/sh.c:438-440 | a list of words is accepted exactly when there are fewer than MAXARGS |
| ShellWords.ParseThenPrint | Lab3/xv6-riscv/user/sh.c:327-447 | whatever line is accepted, printing its tree and parsing again gives the same tree |
| ShellWords.LineWords | Lab3/xv6-riscv/user/sh.c:344-447 | every word of an accepted line is a whole word of the text, and no command has MAXARGS of them |
| ShellAccepts.LexesWritten | Lab3/xv6-riscv/user/sh.c:262-309 | gettoken takes apart any text of words, marks and white space as it was put together |
| ShellAccepts.ReadsRedirs | Lab3/xv6-riscv/user/sh.c:375-398 | any sequence of <f, >f and >>f is read as such, and no more |
| ShellAccepts.ReadsArgs | Lab3/xv6-riscv/user/sh.c:426-446 | words and redirections in any number and order become the argument list and the redirections around it, the last outermost; MAXARGS words panic |
| ShellAccepts.LineMeans | Lab3/xv6-riscv/user/sh.c:327-447 | any line of pipes, lists, &s, parentheses, words and redirections becomes the command it stands for, and panics exactly when a command has MAXARGS words |
| ShellAccepts.AcceptsGrammar | Lab3/xv6-riscv/user/sh.c:327-447 | parsecmd accepts a text exactly when it is a line of the grammar with fewer than MAXARGS words to each command, and makes of it what such a line stands for |
| ShellAccepts.WrittenLine | Lab3/xv6-riscv/user/sh.c:262-447 | the same for a line as people write it, with any white space that keeps its lexemes apart |
| ShellParser.Parser.GetToken | Lab3/xv6-riscv/user/sh.c:265-309 | the cursor ends where the token of the grammar ends |
| ShellParser.Parser.PeekFor | Lab3/xv6-riscv/user/sh.c:311-321 | skips white space only and tells whether one of the characters is next |
| ShellParser.Parser.ParseRedirs | Lab3/xv6-riscv/user/sh.c:375-398 | reads the redirections of the grammar, or fails exactly on a missing file |
| ShellParser.Parser.ParseExec | Lab3/xv6-riscv/user/sh.c:416-447 | the loop that fills argv refines the parser function that ShellAccepts.AcceptsGrammar is about |
| ShellParser.Parser.ParseBlock | Lab3/xv6-riscv/user/sh.c:400-414 | refines the grammar, with the panic on a missing parenthesis |
| ShellParser.Parser.ParsePipe | Lab3/xv6-riscv/user/sh.c:362-373 | refines the grammar |
| ShellParser.Parser.ParseLine | Lab3/xv6-riscv/user/sh.c:345-360 | refines the grammar; the mutual recursion terminates by remaining length and rank |
| ShellParser.NulTerminate | Lab3/xv6-riscv/user/sh.c:449-494 | writes a NUL at the end of each word of the tree and nowhere else |
| ShellParser.NulEnds | Lab3/xv6-riscv/user/sh.c:449-494 | no NUL falls into a word, and every word ends at one |
| ShellParser.EndedReads | Lab3/xv6-riscv/user/sh.c:58-132 | the C strings that runcmd will read are the words of the tree |
| ShellParser.ParseCommand | Lab3/xv6-riscv/user/sh.c:327-343 | parsecmd in place: a tree whose strings, read from the buffer afterwards, are the words of the line; on a panic the buffer is untouched |
| LogDevice.Log.Bread | Lab3/xv6-riscv/kernel/bio.c:91-103 | the contents the file system sees: a pinned buffer before the disk, whatever else the cache has dropped |
| LogDevice.Log.Bwrite | Lab3/xv6-riscv/kernel/bio.c:105-112 | one write of one block |
| Mlfq.Scheduler.Run | Lab3/xv6-riscv/kernel/proc.c:494-506 | from swtch until the process is back: others woken, itself demoted, asleep or gone, and counted once |
| BufferRing.Bcache.Lookup | Lab3/xv6-riscv/kernel/bio.c:65-73 | stops at the first buffer from the head that holds the block, or at the head |
| BufferRing.Bcache.Unused | Lab3/xv6-riscv/kernel/bio.c:75-88 | stops at the last buffer of the ring with refcnt 0, or at the head |
| FsCode.Fs.Bzero | Lab3/xv6-riscv/kernel/fs.c:49-59 | a block not yet held becomes zero and is logged; no file changes |
| FsCode.Fs.Iupdate | Lab3/xv6-riscv/kernel/fs.c:221-241 | the inode on disk becomes the one in memory, and its block is logged |
| FsCode.Fs.BmapIndirect | Lab3/xv6-riscv/kernel/fs.c:397-418 | the indirect half of bmap, with both allocations and both places where the disk may be full |
| FsCode.Fs.WriteBlock | Lab3/xv6-riscv/kernel/fs.c:516-528 | one round of writei: bytes spliced into the file, or a full disk, and what was logged |
| FsCode.Fs.TruncDirect | Lab3/xv6-riscv/kernel/fs.c:432-437 | the first loop of itrunc gives up the direct blocks and no others |
| FsCode.Fs.TruncIndirect | Lab3/xv6-riscv/kernel/fs.c:439-449 | the second half gives up the listed blocks and the list, although the list is read after some of it is free |
| Umalloc.Allocator.FirstCall | Lab3/xv6-riscv/user/umalloc.c:70-73 | base becomes a cycle of its own |
| Umalloc.Allocator.HandOut | Lab3/xv6-riscv/user/umalloc.c:75-86 | the block found, or its tail, becomes the caller's |
| Umalloc.Allocator.OtherSbrk | Lab3/xv6-riscv/user/umalloc.c:46-61 | the program may move the break itself, up or down; the heap stays memory of the program exactly while the break is not below its top |
| FatVolume.Volume.FreeRest | Lab4/fat-fuse/fat_file.c:494-500 | frees a chain from some entry on, reading each link before it is overwritten |
| FatVolume.Volume.FirstCluster | Lab4/fat-fuse/fat_file.c:561-574 | the cluster of the first byte, allocated when the write starts on a boundary at the end of the chain |
| FatVolume.Volume.WriteRound | Lab4/fat-fuse/fat_file.c:575-596 | one round of the write loop continues the splice and finds the next cluster, or ends |
| Vm.Kernel.MapOne | Lab3/xv6-riscv/kernel/vm.c:153-163 | one round of mappages: mapped, no memory with nothing changed, or a panic exactly for a mapped or impossible address |
| Uvm.MapNewPage | Lab3/xv6-riscv/kernel/vm.c:233-247 | one round of uvmalloc or uvmcopy: a filled page is mapped, or nothing has changed and its page is free again |
| UserBytes.UserMemory.StorePage | Lab3/xv6-riscv/kernel/vm.c:356-369 | one round of copyout: as many bytes as the page and the source have |
| UserBytes.UserMemory.FetchPage | Lab3/xv6-riscv/kernel/vm.c:381-394 | one round of copyin: as many bytes as the page has and the caller wants |
| UserBytes.UpToNul | Lab3/xv6-riscv/kernel/vm.c:417-430 | the bytes of a page up to and with the first NUL |
| VirtioDriver.Driver.Fill | Lab3/xv6-riscv/kernel/virtio_disk.c:235-265 | formats the three descriptors, the request header and the status byte, and no others |
| VirtioDriver.Driver.Post | Lab3/xv6-riscv/kernel/virtio_disk.c:267-277 | marks the buffer as the device's and puts the head into the next place of the avail ring |

## Left out

- FatVolume.Volume.Pwrite: errno is 0 on entry and writes to the FAT itself succeed; what a read beyond the map returns is not modelled, the call ends there. A file's chain ends within the map and at an end mark, its bytes are on the image, and the map has no entries for the special cluster numbers.
- FatImages.CountedIff: a volume without a root directory area, as FAT32 has none; the checks of the version and the information sector.
- FreeWalk.UvmFree: nothing is mapped at or above the size, so that freewalk meets no leaf.
- CopySpace.UvmCopy: the new space has its trapframe and trampoline, as proc_pagetable leaves it.
- FsCode.Fs.Bfree: blocks that some inode holds or that are metadata are not freed; a caller that frees those would break the file system.
- FsCode.Fs.Iupdate: the inode goes to a record; its bytes and its place in the inode block are not modelled.
- FsCrash.CrashDuringFilewrite: the user memory can be read, no other operation is in the log at the time, and an inode block is the list of its inodes' sizes and addresses; a chunk of which only a part can be read leaves bytes in a cached block that the log does not know.
- TightDisk.LogsTen: disks of less than 2^31 blocks, as many as balloc's int can count.
- Vm.Kernel.Kfree: the next pointer that links free pages is a sequence beside them, and the panic on an address that is no page of the allocator is excluded, since only pages that the kernel holds are given back.
- Uvm.UvmUnmap: with do_free the range stays below TRAPFRAME; va is a page number, so that the alignment panic has no counterpart.
- Uvm.UvmAlloc: the space has its trapframe and trampoline, as proc_pagetable leaves it.
- ProcTable.Table.WholeLife: memory has at most the 32768 pages of PHYSTOP, so that no panic of growproc ends a run.
- Umalloc.Allocator.MoreCore: the page fault of a store outside the memory of the program; the list goes on and Sound says that it claims too much.
- MlfqFamily.TurnCounts: what a process does in one turn on the CPU is given by the entries that it has taken and freed; an entry is never seen in the states USED or half freed, and interrupts only wake sleepers.
- VirtioDriver.Driver.Alloc3Desc: the loop over three descriptors is written out.
- VirtioProof.ServedOnce: the device reports success for every request; the driver's panic on a status other than 0 is in VirtioDriver.Driver.Interrupt only.
- ShellParser.Parser.ParseExec: the command node is returned when complete; that redirections are wrapped around it while its argument list still grows through a pointer is not modelled.
- BufferRing.Bcache.Bread: the buffer's sleep-lock, which BufferContents has; here it is the caller's obligation to use and release only buffers it was given.
- BufferContents.BreadGivesLast: that all holders write or pin what they have edited is a condition on the run, not derived from log.c and fs.c; each holder has one buffer at a time to itself by the sleep-lock, and a transfer is one step.
- BufferRing.Bcache.Bget: the sleep-lock that the buffer comes back with.
- MlfqWait.NoStarvation: one hart, the scan and the dispatch as one step, unbounded times_exec; the process set is fixed, which MlfqFamily.NobodyStarves does without.
- PingPong.Alternates: printf of a line is one step, since nothing in the program keeps the characters of two lines apart but the semaphores themselves.
- Spinlocks are atomic owner fields; interrupts, memory fences, context switches and trap entry have no model.
- fork's registers, open files and names; exec; growing by the ELF loader.
- kinit and freerange (every page is free at the start), the kernel's own page table, uvmfirst and uvmclear.
- UserBytes keeps the bytes of user pages apart from the words of page tables; uvmcopy copies words.
- sem_open and sem_close: a semaphore starts open with its initial value. Opening one that is active returns with its lock held, and the id 10 that ping_pong.c passes is outside the array of N_SEM; the model takes two different ids within it.
- The inode table (iget, ilock, iput), directories and path names; inodes on disk are records, not bytes.
- log_write in FsCode counts the distinct blocks of one transaction; that the log takes them is LogSystem.
- Bytes left in a cached block by a failed either_copyin count as the file's, although only a later log_write of that block puts them on disk.
- Pipes, devices and the reference counts of file.c; fileread.
- The bgets of concurrent readers that use up all buffers: `bget: no buffers` is an outcome, not excluded.
- runcmd, getcmd and the reading of lines; the grep loop over lines of a buffer.
- The Lab4 directory tree, directory entries, timestamps, 8.3 names, FUSE callbacks and mounting; the Lab1 shell; mkfs, tests and benchmarks.
- The second copy of the kernel in Lab2, but for sem.c and ping_pong.c.
