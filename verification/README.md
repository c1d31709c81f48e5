# xv6-riscv, modelled and proved in Dafny

This project models the hard parts of the xv6 kernel for RISC-V, and two algorithms of
its user library, and proves what they are for. `dafny verify dfyconfig.toml` checks it
all.

* **Crash-safe storage.** `RedoLog` is the on-disk commit and recovery protocol, with a
  crash possible between any two block writes. `BufferCache` is `kernel/bio.c` as a class
  over its linked list, `Log` is `kernel/log.c` as a class over that cache, proved to
  make exactly the protocol's writes. `GroupCommit`, `GroupCommitRuns`, `GroupProgress`
  and `LogCapacity` put many concurrent system calls, readers, evictions, commits and
  crashes into one state machine and speak about all its runs; `CallBudget` joins
  `filewrite` to them.
* **Files.** `FsLayout`, `FsMaps`, `FsBytes`, `FsFiles`, `FsTrunc` and `FileSystem` are the
  bitmap, the block map with its indirect level, and `readi`, `writei`, `itrunc` and
  `filewrite`, refined to byte sequences, with the bound on what a transaction logs.
  `FsSpace` counts the free blocks a write takes, `DiskPlaces` says where things lie.
* **Memory.** `PageTable`, `PageTableSteps`, `PageCount`, `Paging`, `UserMemory`,
  `FreeWalk` and `UserCopy` are `kernel/vm.c` and `kernel/kalloc.c`: three-level Sv39
  tables (section 4.4, "Sv39", of the RISC-V Privileged Architecture) refined to a flat
  map, with every page accounted for.
* **Processes and pipes.** `Proc`, `ProcWait` and `ProcCalls` are `kernel/proc.c` as small
  steps of schedulers and kernel threads; `Pipe` is `kernel/pipe.c`.
* **Disk driver.** `Virtqueue` and `VirtioDisk` are `kernel/virtio_disk.c` with its
  device: descriptor chains and two rings with 16-bit indices (sections 2.6 and 5.2 of
  virtio v1.1).
* **User library.** `HeapBlocks` and `Umalloc` are the allocator; `Shell` and
  `ShellParser` the shell's parser, `ShellLex`, `ShellGrammar` and `ShellReads` the
  language it accepts.

Spinlocks and sleeplocks are taken to give mutual exclusion, and memory to be
sequentially consistent: for other threads of the kernel the code between taking and
releasing a lock is one step. The disk takes no lock: in `VirtioDisk` it moves any number
of times between any two stores of the driver that it could see. Blocks
are byte sequences of BSIZE bytes, words are little-endian, and wrap-around is written out
wherever the code relies on it (pipe counters, ring indices, sbrk's argument). Integers
the code keeps small are unbounded. What the code gets from outside is a parameter: how
many bytes of a user buffer can be copied (`avail`), whether sbrk grants memory and where
(`grant`), when a process is seen to be killed (`fatal`, `killed`), the status the disk
reports.

Five promises are not kept by the code as it stands, and the project says exactly when
they are:

* `log_write` compares the header's count with the size of the log area less one before
  it looks for absorption, while `begin_op` reserves against LOGSIZE, and mkfs makes the
  log area LOGSIZE blocks. A call within its budget can therefore be refused.
  `LogWritesAreSafeIff` shows that this is impossible exactly if the area has more than
  LOGSIZE blocks, and `AbsorptionIsSafeIff` that whatever its size, from two blocks on,
  some run refuses a call a block already logged.
* Commit needs a buffer for the log block it copies to, and the cache has NBUF buffers,
  which is LOGSIZE: a full log pins them all, and `bread` panics. `Log.Commit` says
  exactly when; `UnusedIff` and `CommitsHaveABufferIff` show that the log leaves it a
  buffer, in every run, exactly if the log area has at most LOGSIZE blocks. So one of
  these two promises is kept, never both.
* `pipewrite` returns -1 without a wakeup when its process is found killed after it has
  appended bytes, so a reader may sleep on a pipe that is not empty. `Write` says that
  this happens if and only if `ForgetsReader` holds of the pipe and the arguments before
  the call; `LostWakeup` shows it happening.
* `writei` neither logs nor undoes a chunk whose user copy fails part of the way, though
  the bytes copied are in the cached block and may be below the file's size. `Writei`
  says that the file is what it should be if and only if `Harmless` holds of its contents
  and the arguments before the call; `SpillRun` shows a call after which it is not.
* `malloc` passes sbrk, whose parameter is an int, a size that may not fit. `Malloc` says
  that all is lost exactly if no free block is large enough, sbrk agrees, and the request
  is above 0x7FFFFFE0 bytes; `SbrkGetsWhatIsMeant` what sbrk was asked for then.

In contracts, predicates are often compared with `true`, and bodies begin with `hide`:
both only keep the verifier from unfolding definitions where it need not.

## Model

| member | source | states |
|---|---|---|
| RedoLog.CrashAtomicity | kernel/log.c:193-203 | commit cut after any number of its disk writes, then any number of recoveries cut short anywhere and one complete one: the home blocks are wholly old or wholly new, new exactly when the header write landed, and the log is empty |
| RedoLog.CommitCutMeaning | kernel/log.c:193-203 | what the disk stands for after any prefix of a commit's writes: the old home blocks up to the header write, the updated ones after it |
| RedoLog.CommitPrefix | kernel/log.c:178-203 | after any prefix of the commit's writes the disk is at the corresponding stage: slots filled, header set, home blocks installed one by one, header cleared |
| RedoLog.CommitStep | kernel/log.c:178-203 | each single write of a commit moves the disk from one stage to the next |
| RedoLog.LogStep | kernel/log.c:178-191 | copying a block to its slot changes no home block |
| RedoLog.HeaderStep | kernel/log.c:99-114 | the header write is the commit point |
| RedoLog.InstallStep | kernel/log.c:68-83 | installing one logged block leaves the others, home or slot, as they were |
| RedoLog.ClearStep | kernel/log.c:193-203 | clearing the header after all blocks are home leaves exactly the updated home blocks |
| RedoLog.RecoveryPreservesLogical | kernel/log.c:116-123 | after any prefix of recovery's writes the disk still stands for the same blocks; after all of them the log is empty |
| RedoLog.RecoveryPrefix | kernel/log.c:116-123 | after any prefix of recovery's writes the disk is at the corresponding stage |
| RedoLog.RecoveryStep | kernel/log.c:68-83 | each single write of recovery moves the disk from one stage to the next |
| RedoLog.InterruptedRecoveriesPreserve | kernel/log.c:116-123 | any sequence of recoveries that are cut short keeps what the disk stands for |
| RedoLog.PutEntries | kernel/log.c:99-114 | the header block written from a list of block numbers reads back as that list |
| Log.Log.constructor | kernel/log.c:54-65 | initlog before recovery: an empty log, nobody in a call |
| Log.Log.BeginOp | kernel/log.c:126-142 | a call is admitted exactly when no commit is under way and its reservation of MAXOPBLOCKS fits in LOGSIZE together with all others |
| Log.Log.EndOp | kernel/log.c:146-175 | one call fewer; panic exactly if a commit was under way; the last call commits, after which committing is clear, the log empty and the home blocks are the updated ones, or bread finds no buffer, exactly if something is logged and every buffer is referenced |
| Log.Log.LogWrite | kernel/log.c:215-235 | both panics exactly on their conditions; otherwise the block is logged once and its buffer pinned once, absorbed if it was there already |
| Log.Log.WriteSlot | kernel/log.c:178-191 | one turn of write_log: the pinned buffer's data goes to its slot and nowhere else; panics exactly if no buffer is unreferenced |
| Log.Log.WriteLog | kernel/log.c:178-191 | the writes are exactly the slots' writes of the commit, in order, with the data of the pinned buffers; panics exactly if no buffer is unreferenced, having changed nothing |
| Log.Log.WriteHead | kernel/log.c:99-114 | the header block on disk now lists the in-memory header's blocks and no other block changes; panics exactly if no buffer is unreferenced |
| Log.Log.FormatHeader | kernel/log.c:99-114 | the loop that fills the header buffer gives the block that reads back as the list |
| Log.Log.InstallOne | kernel/log.c:68-83 | one turn of install_trans in a commit: the slot's contents go to the home block and the buffer loses exactly the log's pin; panics exactly if no buffer is unreferenced |
| Log.Log.RecoverOne | kernel/log.c:68-83 | one turn of install_trans in recovery: the slot's contents go to the home block, and every buffer is unreferenced again |
| Log.Log.InstallTrans | kernel/log.c:68-83 | all logged blocks go home in order; every log pin is dropped, no other reference changes |
| Log.Log.Commit | kernel/log.c:193-203 | panics exactly if something is logged and every buffer is referenced, having changed nothing; otherwise the disk holds the home blocks updated with the buffers' contents and an empty log, through exactly the writes of the protocol, and exactly the log's pins are gone |
| Log.FullLogPinsAll | kernel/log.c:183-190 | NBUF logged blocks pin every buffer there is |
| Log.UnusedIff | kernel/log.c:183-190 | where only the log holds references, commit finds a buffer if and only if fewer than NBUF blocks are logged |
| Log.CapacityLeavesABuffer | kernel/log.c:183-190 | so with a log area of at most LOGSIZE blocks, as mkfs makes it, it always does |
| Log.Log.ReadHead | kernel/log.c:85-97 | the in-memory header equals the one on disk |
| Log.Log.CopyHeader | kernel/log.c:85-97 | the loop that reads the header buffer yields the list it holds |
| Log.Log.RecoverFromLog | kernel/log.c:116-123 | performs exactly recovery's writes and ends with the blocks the disk stood for and an empty log |
| Log.CommitReached | kernel/log.c:193-203 | the writes made so far by the imperative commit put the disk at the stage the protocol says |
| Log.RecoveryReached | kernel/log.c:116-123 | the same for recovery |
| GroupCommitRuns.EveryRun | kernel/log.c:126-235 | every interleaving of calls, readers, evictions, commit writes, crashes and recovery writes keeps the log's invariant |
| GroupProgress.CommitsEnd | kernel/log.c:178-203 | from every reachable state in which a commit is under way, its remaining disk writes and then its end, and nothing else, lead to a state at rest: log empty, nobody committing, home blocks holding what the calls wrote, everything durable if something was logged, and a new call is admitted |
| GroupProgress.RecoveriesEnd | kernel/log.c:116-123 | likewise from every reachable state in recovery, with exactly the writes that are left |
| GroupProgress.WriteGoesHome | kernel/log.c:126-235 | from every reachable state with no call in progress, a new call that writes a block can run through to its commit, after which the block is at home and durable and no other block has changed |
| GroupProgress.ReadersSeeTheCalls | kernel/bio.c:58-104 | in every reachable state outside recovery a block nobody holds can be acquired, and reads as the original file system after all writes of all calls so far |
| GroupProgress.RecyclingLosesNothing | kernel/bio.c:58-90 | in every reachable idle state a buffer that nobody holds and the log does not pin can be recycled, and every block still reads the same |
| GroupProgress.CrashThenRecovers | kernel/log.c:116-123 | a crash can come in every reachable state, and recovery then leaves exactly what the calls durable at that moment wrote |
| GroupProgress.CallAtWork | kernel/log.c:205-235 | in every reachable state a call can change a block it holds, can then log it exactly if there is room and the block is logged already or its budget of ten allows, and can only then release it |
| GroupProgress.ThreeAtOnce | kernel/log.c:126-175 | where nothing is under way three calls can begin and no fourth; they can end, and the last one's end begins the commit |
| GroupCommitRuns.RecoveredDiskIsWholeCalls | kernel/log.c:126-235 | stop any run anywhere and recover, with recoveries cut short any number of times: the disk is the original file system after a sequence of whole calls; no call is partly in it |
| GroupCommitRuns.CommitsAlone | kernel/log.c:126-175 | while a commit is under way no call is open |
| GroupCommitRuns.HomeBlocksWait | kernel/log.c:193-235 | until its group's header write lands, no call has changed a home block |
| GroupCommitRuns.CommittedCallsSurvive | kernel/log.c:116-203 | once a group's header write has landed its calls are never lost: whatever happens next, crashes and interrupted recoveries included, the recovered disk is that of a sequence of whole calls starting with them |
| GroupCommitRuns.DurableSteps | kernel/log.c:116-235 | over any run the durable calls only grow |
| GroupCommitRuns.LoggedIffPinned | kernel/log.c:215-235 | outside commit a block is in the log exactly when its buffer carries a log pin, it carries one, and entries are distinct |
| GroupCommitRuns.CommitFindsItsBuffers | kernel/log.c:178-191 | until the header write, every logged block is in the cache, pinned once, with what the calls stored in it |
| GroupCommitRuns.LogHasRoom | kernel/log.c:126-142 | entries plus what open calls may still append never exceed LOGSIZE, an in-budget append sees room, and every slot lies in the log area |
| GroupCommit.StoredStep | kernel/log.c:126-235 | every step keeps disk, durable state, cache, locks and pins in agreement |
| GroupCommit.BooksStep | kernel/log.c:126-175 | every step keeps the reservations and the account of open calls |
| GroupCommit.SpentStep | kernel/log.c:215-235 | every step keeps the count of appended blocks equal to the sum over open calls |
| GroupCommit.TaleStep | kernel/log.c:126-235 | every step keeps current and durable contents equal to replays of the calls' writes |
| GroupCommit.NextIsPlanned | kernel/log.c:178-203 | the write commit computes from memory and disk is the one the crash protocol calls for |
| GroupCommit.DiskWriteKeeps | kernel/log.c:178-203 | one disk write of a commit keeps the invariant |
| GroupCommit.CrashKeeps | kernel/log.c:116-123 | a crash at any point leaves a disk recovery can start from |
| GroupCommit.RecoverWriteKeeps | kernel/log.c:68-83 | one disk write of recovery keeps the invariant |
| GroupCommit.EndOpKeeps | kernel/log.c:146-175 | leaving a call, and starting the commit if it was the last, keeps the invariant |
| GroupCommit.AppendKeeps | kernel/log.c:215-235 | log_write of a new block keeps log and pins in agreement |
| LogCapacity.LogWritesAreSafeIff | kernel/log.c:215-223 | no call with budget left can meet log_write's "too big" panic in any run, whatever block it passes, if and only if the log area has more than LOGSIZE blocks |
| LogCapacity.UnsafeWhenSmall | kernel/log.c:215-223 | for a log area of at most LOGSIZE blocks, a run that meets the panic within budget |
| LogCapacity.AbsorptionIsSafeIff | kernel/log.c:215-230 | for every log area of two blocks or more there is a run in which a block already logged meets the panic, because the test precedes absorption; a smaller area logs nothing |
| LogCapacity.CommitsHaveABufferIff | kernel/log.c:146-203 | no commit of any run starts with the log pinning all NBUF buffers if and only if the log area has at most LOGSIZE blocks; so this and the safety of log_write exclude each other |
| CallBudget.TransactionInBudget | kernel/log.c:126-235 | in every run a call that passes log_write only blocks of a set of at most MAXOPBLOCKS finds the next of them logged already or within its budget |
| CallBudget.TransactionGoesThrough | kernel/log.c:215-235 | so with a log area above LOGSIZE log_write takes every new block of such a call |
| CallBudget.Filewrite | kernel/file.c:132-181 | whichever of the transactions filewrite makes is performed by a call in whatever run of the log, that call is never out of budget |
| BufferCache.BCache.constructor | kernel/bio.c:36-53 | binit: all buffers on the list, unreferenced, of no device |
| BufferCache.BCache.Bget | kernel/bio.c:55-89 | panics exactly when the block is not cached and no buffer is unreferenced; a hit keeps its contents; a miss recycles the least recently released unreferenced buffer; at most one buffer per block |
| BufferCache.BCache.FindCached | kernel/bio.c:64-72 | the scan finds the block's buffer exactly if there is one |
| BufferCache.BCache.FindUnused | kernel/bio.c:74-86 | the backward scan finds the unreferenced buffer released longest ago, or there is none |
| BufferCache.BCache.Bread | kernel/bio.c:91-103 | panics exactly with no buffer left; waits exactly if the block's buffer is locked; otherwise the locked buffer holds what the store, the disk as all writers so far left it, has for the block; the store is unchanged |
| BufferCache.BCache.BreadResume | kernel/bio.c:67-102 | who waited for the lock takes it once it is free and gets the same |
| BufferCache.BCache.Modify | kernel/fs.c:520-525 | writing into a held buffer changes that block of the store only |
| BufferCache.BCache.Bwrite | kernel/bio.c:105-112 | panics exactly when the lock is not held; otherwise the block on disk is the buffer's and the write is recorded |
| BufferCache.BCache.Brelse | kernel/bio.c:114-137 | panics exactly when the lock is not held; otherwise one reference fewer and, at zero, the buffer becomes the most recently released |
| BufferCache.BCache.ToFront | kernel/bio.c:126-134 | the pointer surgery leaves a doubly linked list over the same buffers with this one first |
| BufferCache.BCache.Bpin | kernel/bio.c:139-144 | one more reference to that buffer, nothing else |
| BufferCache.BCache.Bunpin | kernel/bio.c:146-151 | one reference fewer to that buffer, nothing else |
| BufferCache.Unlink | kernel/bio.c:128-129 | unlinking a buffer from next and prev leaves the list of the others |
| BufferCache.PushFront | kernel/bio.c:130-133 | linking a buffer behind the head leaves the list with it in front |
| BufferCache.MoveToFrontPermutes | kernel/bio.c:126-134 | the list stays a permutation of the NBUF buffers |
| BufferCache.MoveToFrontByRelease | kernel/bio.c:126-134 | the list stays ordered by last release |
| BufferCache.TailIsVictim | kernel/bio.c:74-86 | the first unreferenced buffer from the tail is the one released longest ago |
| BufferCache.MissKeepsCoherent | kernel/bio.c:74-86 | recycling a buffer loses nothing: what is not cached afresh is on disk as the store has it |
| BufferCache.ReadKeepsCoherent | kernel/bio.c:91-103 | reading from disk leaves every buffer and the disk in agreement with the store |
| BufferCache.ModifyKeepsCoherent | kernel/fs.c:520-525 | changing a referenced buffer changes exactly its block of the store |
| BufferCache.WriteKeepsCoherent | kernel/bio.c:105-112 | writing a buffer to disk leaves the store unchanged |
| BufferCache.CleanIsOnDisk | kernel/bio.c:91-112 | what no referenced buffer has changed is on disk as the store has it |
| FileSystem.Fs.Balloc | kernel/fs.c:61-88 | 0 only when every block is used; otherwise a free block, now marked used and zeroed, and no other bit or block changed |
| FileSystem.Fs.FindClear | kernel/fs.c:71-83 | the bit scan stops at the first clear bit of a bitmap block, if any |
| FileSystem.Fs.Bfree | kernel/fs.c:90-105 | panics exactly on a free block; otherwise clears that bit alone |
| FileSystem.Fs.Bmap | kernel/fs.c:373-421 | panics exactly at MAXFILE; otherwise the data block for a file block, allocated with its indirect block if missing; each reachable block stays referenced once and marked used; all other files' maps are unchanged; 0 only on a full disk; every block changed is logged |
| FileSystem.Fs.BmapIndirect | kernel/fs.c:397-417 | the same through the indirect block |
| FileSystem.Fs.Itrunc | kernel/fs.c:423-453 | the file becomes empty, exactly its blocks become free, other files are unchanged, bfree's panic cannot happen, and exactly the inode's block and the bitmap blocks of the blocks freed are logged |
| FsTrunc.TruncFits | kernel/fs.c:423-453 | these are one more than the bitmap blocks concerned, at most two more than the size of the disk over BPB, and within MAXOPBLOCKS on any disk of up to (MAXOPBLOCKS - 1) * BPB blocks |
| FileSystem.Fs.TruncIndirect | kernel/fs.c:436-449 | the blocks listed in the indirect block and the block itself are freed, each once |
| FileSystem.Fs.Readi | kernel/fs.c:467-496 | exactly the requested bytes clipped to the file's size; 0 bytes beyond the end; -1 only when the user copy fails |
| FileSystem.Fs.Writei | kernel/fs.c:498-539 | -1 exactly for an offset past the end or a size past MAXFILE blocks. Otherwise, if the free blocks cover the blocks not yet mapped and the indirect block if that is missing, all bytes are stored, or those of the whole chunks before the first byte that cannot be read, and exactly that many blocks are taken; if they do not, the bytes of exactly the chunks they cover are, and the next block is a hole past the old end. The file is the old one overwritten with these bytes if and only if any further bytes copied do no harm; no other file changes; logged blocks bounded |
| FsFiles.HarmlessIff | kernel/fs.c:516-527 | the bytes a failed user copy leaves in the block it did not finish change the file if and only if some byte of the source between the start of that chunk and the first unreadable one differs from the file there |
| FileSystem.Fs.SpillRun | kernel/fs.c:516-527 | writei of two bytes, the second unreadable, at the start of any file that is not empty: it returns 0 and the first byte of the file has changed |
| FileSystem.Fs.WriteLoop | kernel/fs.c:516-530 | the bytes stored and the blocks logged; it stops short only at the start of a chunk, within which the user copy failed, or whose block was unmapped on a full disk |
| FileSystem.Fs.WriteChunk | kernel/fs.c:516-530 | one chunk: its bytes land, or those copied before the user copy failed; all other bytes of all files stay |
| FileSystem.Fs.Iupdate | kernel/fs.c:221-241 | size and block addresses on disk equal those in memory and no other on-disk inode changes |
| FileSystem.Fs.Filewrite | kernel/file.c:132-181 | n bytes are stored if and only if the offset is within the file, they fit MAXFILE blocks, all can be read, and the free blocks cover what is not yet mapped; otherwise nothing for an offset past the end, or it stops before the first transaction that would go past MAXFILE blocks, or at the first block the free blocks do not cover, a hole past the old end, or at the last whole chunk that can be read. The transactions made, recorded as they end, are each of at most MAXOPBLOCKS distinct blocks and between them include every block changed, unless bytes of a failed user copy spilled |
| FileSystem.Fs.WriteTransaction | kernel/file.c:157-166 | one transaction of at most three blocks of data: at most MAXOPBLOCKS blocks logged; how much it stores depends, exactly, on the state before the first transaction |
| FsSpace.OwnersFit | kernel/fs.c:60-89 | the free blocks counted are exactly those whose bit in the bitmap is clear; balloc finds none exactly when that count is zero |
| FsSpace.NeededSplit | kernel/fs.c:379-429 | what a range of file blocks takes from the free blocks is what its first part took and what the rest takes after that |
| FsSpace.EnoughMore | kernel/fs.c:506-539 | after part of a write there is room for the rest exactly if there was room for all of it at the start |
| FsSpace.WhyHalted | kernel/file.c:150-176 | a transaction that stores less than it was given means that not everything was to be stored, for exactly one of the four reasons |
| DiskPlaces.InodePlace | kernel/fs.h:31-45 | inode i is the 64 bytes at byte 64 i of the inode area: its size at offset 8, its thirteen addresses from offset 12 |
| DiskPlaces.InodesApart | kernel/fs.h:41-45 | no two inodes share a place |
| DiskPlaces.BitmapPlace | kernel/fs.h:47-51 | block b is in use exactly if bit b % 8 of byte b / 8 of the bitmap is set |
| DiskPlaces.PointerPlace | kernel/fs.c:379-429 | block bn of a file is one of twelve direct addresses, or the uint at entry bn - 12 of the indirect block |
| DiskPlaces.FilePlace | kernel/fs.c:468-497 | byte p of a file is byte p % 1024 of its block p / 1024 |
| DiskPlaces.LogHeaderPlace | kernel/log.c:36-41 | the log header is its count and then the block numbers, as little-endian uints |
| FsMaps.AllocateKeeps | kernel/fs.c:61-88 | a freshly allocated block is owned by nobody and all owners stay as they were |
| FsMaps.SetPointerOwned | kernel/fs.c:383-421 | linking that block at one pointer restores: every pointer owns its block, every used data block has one owner |
| FsTrunc.FreeLoose | kernel/fs.c:90-105 | freeing a block that has lost its pointer keeps ownership of the rest |
| FsTrunc.DropIndirect | kernel/fs.c:436-449 | dropping the indirect pointer loosens exactly the indirect block and the blocks it lists |
| FsTrunc.EntriesDistinct | kernel/fs.c:436-449 | no block is listed twice in an indirect block, so none is freed twice |
| FsTrunc.TruncContent | kernel/fs.c:423-453 | with all pointers dropped the file is empty and the others unchanged |
| FsBytes.MappedKeepsBytes | kernel/fs.c:373-421 | bmap changes no byte of any file, whatever it allocates |
| FsBytes.CopyPutsBytes | kernel/fs.c:516-530 | copying into one data block changes exactly those bytes of that file |
| FsBytes.ChunkCount | kernel/fs.c:516-530 | the loop takes no more chunks than the blocks the range touches |
| FsBytes.PartlyFilledIsMapped | kernel/fs.c:516-530 | an unaligned first block is already mapped, since files have no holes below their size |
| FsFiles.WrittenContent | kernel/fs.c:498-539 | after the loop and the size update the file is the old one overwritten at off |
| FsFiles.WrittenTight | kernel/fs.c:498-539 | every block below the new size is mapped |
| FileSystem.Fs.WriteThenRead | kernel/fs.c:467-539 | readi of the bytes writei says it stored returns exactly those bytes |
| FsFiles.ChunkIsContent | kernel/fs.c:479-494 | the slice of a data block readi copies is that slice of the file |
| FsFiles.ThreeBlocksFit | kernel/file.c:149-157 | three blocks of data at any offset, with all bitmap, indirect and inode blocks, fit in a transaction |
| FsFiles.LogsInAll | kernel/fs.c:498-539 | a bound on the distinct blocks one writei logs |
| FsLayout.SetBitInBlock | kernel/fs.c:75-77 | setting a clear bit of a bitmap byte changes that bit alone |
| FsLayout.ClearBitInBlock | kernel/fs.c:98-103 | clearing a set bit changes that bit alone |
| PageTable.TranslateIsLeaf | kernel/vm.c:73-103 | the three-level hardware translation equals the flat map from virtual pages to entries |
| Paging.Vm.constructor | kernel/kalloc.c:26-40 | kinit: every page in range is free, nothing is mapped |
| Paging.Vm.Freerange | kernel/kalloc.c:33-40 | every page in range goes to the free list once |
| Paging.Vm.Kalloc | kernel/kalloc.c:65-82 | the first free page filled with junk, or 0 exactly when none is free; no translation changes |
| Paging.Vm.Kfree | kernel/kalloc.c:42-63 | panics exactly outside the range; otherwise the page is the first free one |
| Paging.Vm.Walk | kernel/vm.c:73-103 | panics exactly at MAXVA; finds the leaf table's entry; asked to, it adds exactly the missing tables, a free page each, and answers null exactly if there are too few; no translation changes and tables stay where they are |
| Paging.Vm.AddTable | kernel/vm.c:94-100 | a new empty table is linked where one was missing: no translation changes |
| Paging.Vm.Mappages | kernel/vm.c:138-172 | the flat map gains exactly these pages; every other translation of every table is unchanged; exactly the missing tables are added; out of memory, only where the free pages are fewer than these, or a remap panic stops it with a known number of pages mapped |
| Paging.Vm.Uvmunmap | kernel/vm.c:174-199 | the flat map loses exactly these pages, all of which were mapped, and with do_free exactly their pages become free; panics at the first unmapped one |
| PageTableSteps.LinkTable | kernel/vm.c:94-100 | linking a fresh table keeps tables a tree without sharing |
| PageTableSteps.PutLeaf | kernel/vm.c:160-166 | setting a leaf entry sets exactly that translation and keeps the invariant |
| PageTableSteps.DropLeaf | kernel/vm.c:187-198 | clearing a leaf entry clears exactly that translation and keeps the invariant |
| UserMemory.Uvmalloc | kernel/vm.c:230-256 | grows by zeroed pages in order if and only if nothing is mapped in the range and the free pages are at least the pages asked for and the tables missing above them; panics if and only if a page that is mapped, or past the end, is reached with a page left for it; otherwise it fails leaving all translations as before and no page lost |
| UserMemory.Uvmdealloc | kernel/vm.c:258-274 | removes and frees exactly the pages between the two sizes; panics exactly if one of them is unmapped |
| UserMemory.Uvmcopy | kernel/vm.c:306-340 | the child maps fresh pages with the parent's contents and flags if and only if all are mapped in the parent, none in the child, and the free pages are at least the pages and the tables missing above them; panics if and only if a page is reached that is not so; otherwise it fails and every translation is as before |
| UserMemory.InstallPage | kernel/vm.c:241-254 | one page allocated, filled and mapped, with exactly the tables missing above it, or given back, exactly if there are too few free pages |
| PageCount.NeededNext | kernel/vm.c:241-254 | what one more page takes, after those before it, is what the longer range takes more |
| PageCount.EndsShort | kernel/vm.c:241-254 | where memory runs out at a page, no page that cannot be mapped was reached, and the whole range was too much |
| PageCount.MappedHasTables | kernel/vm.c:73-103 | above a mapped page no table is missing |
| UserMemory.RolledBack | kernel/vm.c:241-254 | pages installed and then unmapped leave every translation as before |
| FreeWalk.Uvmcreate | kernel/vm.c:201-212 | an empty table, or 0 exactly when memory is out |
| FreeWalk.Freewalk | kernel/vm.c:276-294 | frees exactly the table pages of the subtree; panics exactly if a page is still mapped through it |
| FreeWalk.Uvmfree | kernel/vm.c:296-304 | returns every data page and every table page of the process exactly once and touches no other; panics exactly if the mapped pages are not those of 0..sz |
| FreeWalk.FreeTable | kernel/vm.c:276-294 | freeing a table whose children are gone leaves a forest with one dangling entry |
| FreeWalk.CloseHole | kernel/vm.c:283-288 | clearing that entry restores the invariant |
| UserCopy.Walkaddr | kernel/vm.c:105-126 | the physical page of a user-accessible page, 0 exactly for any other |
| UserCopy.Copyout | kernel/vm.c:355-383 | 0 exactly if the whole range is user-writable; users of that table then see the bytes there, all other bytes of all users unchanged; on failure a prefix was stored |
| UserCopy.Copyin | kernel/vm.c:385-408 | 0 exactly if the whole range is user-readable; then exactly the bytes users see; nothing changes |
| UserCopy.RoundTrip | kernel/vm.c:355-408 | what copyout stored, copyin of the same range returns, across page boundaries |
| UserCopy.OnePageWritten | kernel/vm.c:374-377 | writing into one page is seen by its owner alone |
| Umalloc.Heap.constructor | user/umalloc.c:20-22 | before the first malloc: no free list, nothing obtained |
| Umalloc.Heap.Free | user/umalloc.c:24-44 | the block's units join the free units; nothing obtained is lost; blocks still in use are untouched; the free list stays sorted, circular and coalesced |
| Umalloc.Heap.FindSpot | user/umalloc.c:29-32 | the circular search stops, at the place in address order, wherever it starts |
| Umalloc.Heap.MergeUp | user/umalloc.c:33-37 | merging with the block above, or linking before it |
| Umalloc.Heap.MergeDown | user/umalloc.c:38-43 | merging into the block below, or linking behind it |
| Umalloc.Heap.Morecore | user/umalloc.c:46-61 | 0 exactly if sbrk refuses or was asked for something else than was meant, and then nothing changes; otherwise its units are free |
| Umalloc.Heap.Malloc | user/umalloc.c:63-90 | 0 exactly if no free block has the units and sbrk refuses; otherwise a new block of exactly that many units, taken from free units; morecore called at most once; lost exactly if no free block has the units, sbrk agrees and the request is above 0x7FFFFFE0 bytes |
| Umalloc.Heap.Search | user/umalloc.c:73-89 | the loop stops, after at most one turn round the list per list |
| Umalloc.Heap.CarveTail | user/umalloc.c:79-83 | the tail of a larger block is handed out |
| Umalloc.Heap.CarveWhole | user/umalloc.c:77-78 | a block of the exact size leaves the list |
| Umalloc.StopsAtPlace | user/umalloc.c:29-32 | the search's two tests hold exactly at the block's place in address order |
| Umalloc.EveryUnitOnce | user/umalloc.c:24-90 | every unit from sbrk is in exactly one block, free or in use; blocks do not overlap |
| Umalloc.OneWrap | user/umalloc.c:24-44 | the free list is one cycle, ascending but for one step back to base; no two free blocks touch |
| Umalloc.SbrkGetsWhatIsMeant | user/umalloc.c:46-61 | the size that reaches sbrk's int parameter is the one meant if and only if the request is at most 0x7FFFFFE0 bytes; for a larger one it is negative, or 16 at most |
| VirtioDisk.Disk.constructor | kernel/virtio_disk.c:118-147 | all descriptors free, both rings empty |
| VirtioDisk.Disk.AllocDesc | kernel/virtio_disk.c:155-166 | a free descriptor taken, -1 exactly if there is none |
| VirtioDisk.Disk.FreeDesc | kernel/virtio_disk.c:168-182 | panics exactly on an index out of range or a free descriptor; otherwise that one is free and cleared |
| VirtioDisk.Disk.FreeChain | kernel/virtio_disk.c:184-197 | follows the next fields and frees exactly the request's three descriptors, never panicking |
| VirtioDisk.Disk.Alloc3 | kernel/virtio_disk.c:199-213 | three distinct free descriptors taken, or none taken and fewer than three free |
| VirtioDisk.Disk.Submit | kernel/virtio_disk.c:215-281 | with the device moving between any two stores of the driver: the request for its block is posted once, over no unread entry; must wait exactly with two requests in flight |
| VirtioDisk.Disk.Post | kernel/virtio_disk.c:235-277 | the stores in order, from the request block to the ring index; only the last shows the device anything new, and by then all of it is in place |
| VirtioDisk.Disk.PutIndex | kernel/virtio_disk.c:276-277 | the store to the index posts the request |
| VirtioDisk.PublishKeeps | kernel/virtio_disk.c:271-277 | moving the index keeps the invariant exactly because chain, status, owner, b->disk and ring slot are there already |
| VirtioDisk.DeviceSees | kernel/virtio_disk.c:235-277 | whatever the driver is in the middle of, behind every head the device can see or holds is the whole request, and its buffer is still marked busy; for block numbers below 2^31 its sector times 512 is the block number times 1024 |
| Virtqueue.SectorIs | kernel/virtio_disk.c:218-218 | the sector computed in 32 bits lies where the block does if and only if the block number is below 2^31 |
| VirtioDisk.SectorsApart | kernel/virtio_disk.c:218-248 | the sectors of different blocks do not overlap |
| VirtioDisk.Disk.Device | kernel/virtio_disk.c:215-327 | any number of device steps keep the invariant and touch nothing of the driver's |
| VirtioDisk.Disk.DeviceTake | kernel/virtio_disk.c:271-281 | the device takes the oldest unread head, at any moment, and finds the whole request behind it, with the sector of the block asked for |
| VirtioDisk.Disk.DeviceStatus | kernel/virtio_disk.c:261-264 | the device stores a status for a head it holds, at any moment |
| VirtioDisk.Disk.DeviceUse | kernel/virtio_disk.c:309-314 | the device posts a head it holds in the used ring, at any moment, over no unread entry |
| VirtioDisk.Disk.IntrOne | kernel/virtio_disk.c:312-323 | the oldest unread used head clears b->disk of the buffer that submitted it, once, if its status is 0; panics exactly if it is not |
| VirtioDisk.Disk.Intr | kernel/virtio_disk.c:294-327 | with the device posting meanwhile: every head used when it began is dealt with and the ring is empty at the end, or it panics, which it does only on a bad status and always if one of those heads had it; b->disk is cleared for exactly the requests told, all of which had status 0 |
| VirtioDisk.Disk.Finish | kernel/virtio_disk.c:283-291 | the woken submitter frees exactly its chain |
| Virtqueue.AtMostTwo | kernel/virtio_disk.c:199-213 | disjoint chains of three among eight descriptors: at most two requests in flight |
| Virtqueue.RingsHaveRoom | kernel/virtio_disk.c:271-277 | so neither ring ever holds more than two unread entries |
| Virtqueue.CloseCounts | kernel/virtio_disk.c:271-277 | under 16-bit wrap the index comparison tells empty from non-empty and slots of unread entries differ |
| VirtioDisk.ChainsPost | kernel/virtio_disk.c:231-276 | posting a request keeps non-free descriptors split into disjoint chains |
| VirtioDisk.ChainsRetire | kernel/virtio_disk.c:184-197 | taking one back from the device does too |
| VirtioDisk.RingPut | kernel/virtio_disk.c:271-277 | appending to a ring overwrites no unread entry, under index wrap |
| VirtioDisk.RingGet | kernel/virtio_disk.c:312-323 | reading takes the oldest entry; empty exactly when the indices agree |
| Pipe.Pipe.constructor | kernel/pipe.c:22-56 | an empty pipe, open at both ends |
| Pipe.Pipe.Close | kernel/pipe.c:58-74 | closes one end, wakes exactly whoever sleeps at the other, says when both are closed |
| Pipe.Pipe.Write | kernel/pipe.c:76-103 | appends exactly the bytes counted, sleeps exactly on a full open pipe, fails exactly on a closed reader or a kill; and, starting from nobody asleep without reason, ends so if and only if ForgetsReader does not hold of what is known before the call: a reader asleep, the read end open, and the kill seen after the first byte of the call and before its last |
| Pipe.Pipe.Read | kernel/pipe.c:105-130 | returns the oldest bytes not yet consumed in order, as many as asked for, there and storable; exactly these are consumed, with one more if a copy failed; sleeps exactly on an empty pipe still open for writing; leaves nobody asleep without reason |
| Pipe.Pipe.LostWakeup | kernel/pipe.c:76-90 | the exception is real: a writer killed after appending leaves a reader asleep on a non-empty pipe |
| Pipe.Tests | kernel/pipe.c:82-111 | with 32-bit counters the empty and full tests say exactly that |
| Pipe.Append | kernel/pipe.c:90-97 | storing a byte in its cell appends it to the bytes in the pipe |
| Pipe.Take | kernel/pipe.c:117-127 | the cell read holds the oldest byte, and taking it keeps the rest |
| Pipe.NeverBothAsleep | kernel/pipe.c:58-130 | readers and writers are never asleep at once |
| ProcWait.EveryRun | kernel/proc.c:280-609 | every interleaving of scheduler and thread steps keeps the invariant |
| ProcWait.StepKeeps | kernel/proc.c:280-609 | each step does |
| ProcWait.BootInv | kernel/proc.c:232-255 | the state after userinit satisfies it |
| ProcWait.SingleExecution | kernel/proc.c:444-512 | in every reachable state no process is current on two CPUs, and one whose lock is free is RUNNING exactly when it is current on a CPU |
| ProcWait.NoZombieForgotten | kernel/proc.c:328-435 | in every reachable state with wait_lock free, every parent is alive and no process asleep in wait has a zombie child, init's adopted children included |
| ProcWait.ReapedOnce | kernel/proc.c:388-435 | over every run, wait returns no child's pid twice |
| Proc.SchedulerKeeps | kernel/proc.c:444-501 | picking, entering, leaving and switching keep c->proc and the processes in one-to-one agreement |
| Proc.ThreadStepKeeps | kernel/proc.c:503-609 | yield, sleep, wakeup, kill, fork, wait and exit steps keep it |
| ProcCalls.WakesItsTarget | kernel/proc.c:572-609 | kill marks its target and, if that sleeps, makes it runnable; wakeup makes its target runnable; nothing else changes |
| ProcCalls.TargetRuns | kernel/proc.c:447-609 | in every reachable state, after a wakeup or kill of a sleeping process there is a run in which a CPU takes that process up and it is back in the code that slept |
| ProcCalls.Sleeps | kernel/proc.c:541-567 | a process that sleeps is off its CPU, asleep on its channel, and any running thread can wake it |
| ProcCalls.Fork | kernel/proc.c:280-327 | a free slot becomes a runnable child of the caller with the next pid; nothing else changes |
| ProcCalls.Exit | kernel/proc.c:331-386 | from every reachable state in which its locks are free, exit runs through: its children are init's, it is a zombie off its CPU, its parent is awake |
| ProcCalls.WaitReaps | kernel/proc.c:391-433 | wait with a zombie child returns the first one's pid and frees its slot, or changes nothing if the status cannot be copied out |
| ProcCalls.WaitGivesUp | kernel/proc.c:433-440 | wait without children, or killed with none to reap, returns and nothing else has changed |
| ProcCalls.WaitSleeps | kernel/proc.c:440-444 | wait with children of which none is a zombie sleeps on its own address, without wait_lock and its CPU |
| ProcCalls.WaitKnows | kernel/proc.c:391-444 | in every reachable state in which wait has been through the table, it may give up exactly if it is killed or has no child, and may sleep exactly otherwise |
| ProcCalls.WaitMeetsExit | kernel/proc.c:347-444 | in every reachable state in which a parent sleeps in wait, exit of its child starts a run in which wait returns the child's pid |
| ProcWait.WaitLockedByThread | kernel/proc.c:346-435 | wait_lock is held by the one thread whose code is under it |
| ProcWait.ForksByThread | kernel/proc.c:279-326 | a child being made belongs to its maker alone and has no thread until it is started |
| ProcWait.ParentsByThread | kernel/proc.c:328-386 | every parent is alive; an exiting process leaves no child behind |
| ProcWait.WaitsByThread | kernel/proc.c:388-435 | a zombie's parent is not left asleep: what wait has scanned, exit cannot turn into a zombie before the parent sleeps |
| ProcWait.PidsByThread | kernel/proc.c:92-172 | pids in use and pids reaped are all different |
| Shell.GetToken | user/sh.c:261-309 | the token at a position: symbols, the two-character append, words without blanks or symbols; it moves on except at the end |
| ShellLex.LexJoin | user/sh.c:263-309 | a line made of operators and words without the five blanks and seven symbols, with any blanks around them, has exactly these tokens |
| ShellLex.JoinLex | user/sh.c:263-309 | and every line is made of its tokens in that way |
| ShellLex.PeekIs | user/sh.c:311-321 | peek looks at the first token to come |
| Shell.ParseCmd | user/sh.c:328-343 | the whole line is consumed, or it panics |
| ShellGrammar.ReadLine | user/sh.c:345-360 | what is read from a list of tokens is a sentence of the grammar, whose tokens and those left are the list |
| ShellGrammar.LineRead | user/sh.c:345-447 | every sentence with fewer than ten words to a command is read back as itself |
| ShellReads.RedirsAgree | user/sh.c:375-398 | parseredirs gives the redirections at the start of the tokens, with their modes, in order |
| ShellReads.WordsAgree | user/sh.c:416-447 | parseexec gives the words and, outermost last, the redirections among them |
| ShellReads.GroupAgrees | user/sh.c:400-414 | a parenthesised line gives its tree wrapped in the redirections behind it |
| ShellReads.SimpleAgrees | user/sh.c:416-447 | parseexec, on either kind of command, gives its tree or panics where there is none |
| ShellReads.PipeAgrees | user/sh.c:362-373 | parsepipe gives the pipe of the commands between the bars |
| ShellReads.BacksAgree | user/sh.c:345-352 | each ampersand puts what is before it in the background |
| ShellReads.LineAgrees | user/sh.c:345-360 | parseline gives the tree of the line, anywhere in the input, and stops behind it |
| ShellReads.Accepts | user/sh.c:328-447 | a line is accepted if and only if its tokens are a sentence of the grammar with fewer than ten words to a command; otherwise it panics |
| ShellReads.AnySpacing | user/sh.c:263-447 | a sentence written with any blanks around its tokens parses to the sentence's tree |
| ShellReads.CommandLine | user/sh.c:263-447 | fewer than ten words with blanks between them parse to the command with exactly these words |
| ShellReads.RoundTrip | user/sh.c:328-447 | for every tree with fewer than ten words per command, proper words and the three redirections, parsing it, written in parentheses with any blanks around the tokens, gives the tree back |
| ShellParser.Parser.GetToken | user/sh.c:261-309 | the cursor-moving scanner computes the token |
| ShellParser.Parser.Peek | user/sh.c:311-321 | skips blanks and tells whether a character of the set is next |
| ShellParser.Parser.ParseRedirs | user/sh.c:375-398 | the loop computes the redirections |
| ShellParser.Parser.ParseLine | user/sh.c:345-360 | the cursor-moving parser computes ParseLine and ends where it ends |
| ShellParser.Parser.ParsePipe | user/sh.c:362-373 | likewise for pipelines |
| ShellParser.Parser.ParseExec | user/sh.c:416-447 | likewise for commands |
| ShellParser.Parser.ParseArgs | user/sh.c:426-444 | the loop that fills argv computes the words |
| ShellParser.Parser.ParseBlock | user/sh.c:400-414 | likewise for blocks |
| ShellParser.Parser.ParseCmd | user/sh.c:328-343 | likewise for the line; the mutual recursion stops on every input |
| ShellParser.Nulterminate | user/sh.c:449-494 | a NUL behind every word of the tree and no other byte of the buffer changed |
| ShellParser.WordsSurvive | user/sh.c:449-494 | afterwards every argv and file string is the word it was parsed from |

## Left out

- Boot, traps, system-call dispatch, `exec`, the file table, consoles and the UART: machine-level code and glue.
- Directories, path names, `ialloc` and the in-memory inode table: they would add length rather than difficulty. `iput`'s truncation is `Itrunc`.
- mkfs: the file model starts from a well-formed image whose files have no holes below their size; mkfs can leave an unmapped last block in the root directory.
- `kernel/ramdisk.c`: it no longer matches the buffer structure.
- Weak memory and the fences of `kernel/spinlock.c`; interrupt enabling and disabling.
- Virtio device negotiation, interrupt acknowledgement and the transfer of the data itself; the device takes each available head once, stores a status and posts it once.
- `uvmfirst`, `uvmclear`, `copyinstr` and the kernel's own page table: easier than the functions beside them.
- Other user programs and library functions.
- FileSystem.Fs.Writei: what becomes of bytes that spilled, once their unlogged buffer is recycled, is not followed.
- FileSystem.Fs.Iupdate: type, device numbers and link count of an inode are not modelled; nothing here changes them.
- FileSystem.Fs.Filewrite: devices and pipes, the file's lock and the check that it is writable are not modelled.
- Umalloc.Heap.Malloc: once all is lost, morecore's store to memory it was not given is not modelled, nor what becomes of the process; that the block comes from the first fitting free block after the last one used is not stated.
- Paging.Vm.Walk: addresses are virtual page numbers and tables are sequences of entries, so the shifts and masks on 64-bit words are not modelled, nor is wrap-around of sizes near 2^64; a page holds either bytes, or entries, or a free-list link, and is not reinterpreted.
- Paging.Vm.Mappages: pages given to a mapping that owns them must be allocated and nobody else's, and the permissions include one of R, W and X, as every caller sees to; an entry without these would be read as a pointer to a table.
- Paging.Vm.Kfree: the page must be allocated, as the comment on `kfree` asks; freeing a free page is not modelled.
- Paging.Vm.Uvmunmap: with do_free the pages must be the mapping's own, and without it somebody else's, as every caller sees to; otherwise a page would be lost or freed under its owner.
- ProcWait.EveryRun: proc.c is modelled on values, as steps between lock operations and context switches, not as a class that updates a table; a wakeup is a step on one process at a time, and wakeups on a process's own address reach that process only, which is the only one that sleeps there; pids do not overflow; the value of `killed` is read in the step that uses it.
- ProcWait.SingleExecution: a CPU counts as running a process from the moment its scheduler sets c->proc until it clears it.
- BufferCache.BCache.Brelse: the last reference to a modified buffer is given up only once the buffer is written or pinned, as log_write sees to; writei after a failed user copy does not, and when its buffer is recycled the bytes copied are gone from the store.
- Log.Log.Commit: no buffer of the log area is referenced and no logged one locked when it starts; the log area belongs to the log, and where a reader holds a logged block commit sleeps until it is released, an interleaving that GroupCommit has.
- Log.Log.EndOp: where it commits, as Log.Log.Commit.
- Log.Log.WriteSlot: likewise, of the block it copies.
- Log.Log.WriteLog: likewise.
- Log.Log.InstallOne: likewise.
- Log.Log.InstallTrans: likewise; and it asks for an unreferenced buffer, which commit still has, since write_log found one and gives back every reference it takes.
- Log.Log.RecoverFromLog: starts with no buffer referenced, as at boot.
- GroupCommitRuns.CommitFindsItsBuffers: the cache of this state machine is not limited to NBUF buffers; the buffer commit needs for the log block is the subject of LogCapacity.CommitsHaveABufferIff and Log.UnusedIff.
- GroupCommitRuns.EveryRun: the concurrent log is modelled on values as one state machine; its imperative form is the class in Log, which has one thread.
- VirtioDisk.Disk.Submit: the loop that sleeps for descriptors is a call that answers -1 and is made again.
- Pipe.Pipe.Write: a call that sleeps ends there and is resumed by another with the bytes already written; process numbers stand for sleeping processes.
- Shell.ParseCmd: allocation of tree nodes never fails; a panic ends the parse; the line holds no NUL, being a C string.
