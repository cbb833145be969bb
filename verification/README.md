# Models of the xv6 kernel and its user programs

This project models the hardest parts of xv6 (the RISC-V teaching kernel with its user programs)
in Dafny and proves what the code relies on: crash safety of the file-system log, transparency of
the buffer cache, ownership of disk blocks, page tables and physical memory, the sleep and process
protocols, and a number of self-contained algorithms.

`dafny verify dfyconfig.toml` checks everything.

## How the models are built

**Storage.** `LogProtocol` describes the redo log as a transition system. One step is one critical
section, one disk write, one cache fill or recycling, or a crash, which keeps the disk and loses all
memory. `CrashSafety` proves that every run refines an atomic store, for any number of crashes,
including crashes inside recovery. `LogCode` is log.c as a class with the in-memory log updated in
place; each procedure is proved to follow protocol steps, so the theorems on runs apply at each of
its disk writes. `LogSpace` is about reservations and buffers. `BufferCache` is bio.c with its linked
list. `LogBuffers` runs the log's steps on those buffers: in every state that is reached from binit
the counts add up and pending blocks keep their buffers. `Ownership`, `FileBlocks`, `Truncate` and
`FileIO` are the block map and byte-level file access, `Allocation` interleaves their steps, and
`CrashOwnership` says what a crash leaves of ownership. `Directory` is directories and path names, and
`DirectoryFile` the same on 16-byte entries in file blocks.

**Memory.** `PageTable` gives Sv39 trees (section 4.4 of the RISC-V Privileged Architecture, version
1.12) a meaning as a flat map from page numbers to entries. `Vm`, `UserVm`, `UserGrow`, `UserFree`
and `ProcMem` are kalloc.c, vm.c and the page-table part of proc.c on physical pages. Each says how
the flat map changes and that pages only move between the free list and the address space.
`PagePartition` puts allocproc, fork, growproc and freeproc together for many processes.

**Processes.** `SleepLock` and `ProcLife` (with `ProcLifeSteps`, `ProcLifeRuns` and `ProcLifePaths`) are step-level
protocols over spinlocks held across actions: steps of different processes interleave freely, table
scans advance one slot at a time, and the gap between giving up a lock and being marked SLEEPING is
visible to others.

**Algorithms.** `FreeList` and `Umalloc` (the allocator of section 8.7 of "The C Programming
Language", second edition), `Regex` and `Grep`, `Pipe`, `Virtio` (split rings of sections 2.6 and 5.2
of VIRTIO 1.1), `ShellSyntax`, `ShellPrint` and `Shell`.

Concurrency inside the storage stack is in the steps of the log protocol and of `Allocation`. The file
classes work under an inode lock, with an arbitrary set of blocks in the hands of other processes; the
other classes model the code between taking and giving up the lock that protects it. Fixed C arrays
that several procedures share are sequence fields of the class. Inputs from outside (sbrk's answer,
read sizes, copy failures, the device) are parameters or arbitrary choices. A panic that callers can
run into is a result of the method; others are ruled out by preconditions or proved unreachable.

## What the code does not do

- `log_write` tests the limit before it looks for the block in the list, so re-logging a block in a
  full log panics although no space is needed (`LogSpace.AbsorptionCanPanic`);
  `LogSpace.RelogPanicsIff` says exactly when.
- mkfs makes the log region LOGSIZE blocks long, one less than the reservations need
  (`LogSpace.PanicFreeIff`). With one more, a full log pins all NBUF buffers and `commit` finds none for
  its log blocks (`LogSpace.BuffersSufficeIff`, `LogCode.Log.Commit`). No size avoids both
  (`LogSpace.NoSizeIsSafe`).
- `kill` does not take wait_lock, so a kill that falls between wait's test and its sleep is noticed
  only at the next wakeup (`ProcLifeRuns.KillCanBeLate`). `ProcLifeRuns.KillMissedIff` shows that these are
  the only kills wait can miss.
- `growproc` with a shrink of more than the size wraps around in 64 bits; the size then stays as it
  is and the call reports success (`ProcMem.Growproc`, at one size `ProcMem.ShrinkTooFar`).
- The comment on `uvmdealloc` (kernel/vm.c:258-261) allows an old size above the process's memory; the
  code then panics in uvmunmap unless both sizes end in the same page. `UserVm.Uvmdealloc` has the exact
  condition, `UserFree.DeallocPanics` an input.
- The branch of `proc_pagetable` for a trapframe that cannot be mapped is never taken: the tables it needs are
  there once the trampoline is mapped (`ProcMem.FrameTables`).
- A copy that fails in `writei` can leave bytes in a cached block that no log_write covers; the count
  returned does not include them. `FileIO.Writei` says exactly when, `FileIO.LeavesStrayBytes` is such a
  call.
- A byte that `piperead` has taken out is lost when its copy to the user fails (`Pipe.LosesAByte`);
  `Pipe.DeliveredIff` says exactly when readers get everything.
- `grep` stops at a line that does not fit its buffer (`Grep.LongLineStops`); `Grep.Grep` says what it
  outputs for every input without NULs, and `Grep.AllReadableIff` and `Grep.CompleteIff` exactly when
  that is everything.

## Assumptions on callers

Clients of the log read, change, log and release a buffer in that order. Devices other than 0 are
used. The starting image has metadata bits set and files without holes. RAM has fewer pages than an
address space has below the trapframe. In the source these are conventions, stated here as
`requires` clauses or initial conditions.

## Model

| member | source | states |
|---|---|---|
| LogHeader.HeaderRoundTrip | kernel/log.c:86-114 | whatever the header block held before, read_head finds exactly the block list that write_head stored |
| LogHeader.HeaderLayout | kernel/log.c:35-38 | the count is word 0 of the block and the block numbers follow in order |
| Blocks.WordBytes | kernel/log.c:35-38 | the four bytes of a word are its digits to the base 256, the lowest first |
| LogCode.PackHeader | kernel/log.c:103-114 | write_head's loop yields a block that decodes to the given list |
| LogProtocol.StepKeepsInv | kernel/log.c:68-235 | every step (admission, modification, log_write, each single disk write of commit and recovery, cache fill and recycling, crash) keeps the log invariant |
| LogProtocol.LogWriteKeepsInv | kernel/log.c:214-235 | absorbing or appending a block keeps list, pins and reservations consistent |
| LogProtocol.InstallKeepsInv | kernel/log.c:69-83 | installing one block leaves the rest of the committed list intact in log and cache |
| LogProtocol.CrashKeepsInv | kernel/log.c:117-123 | losing all memory at any point leaves a disk that recovery can start from |
| CrashSafety.WriteHome | kernel/log.c:69-83 | a home write during installation does not change what recovery would yield |
| CrashSafety.ForgetHeader | kernel/log.c:194-203 | once all listed blocks are home, erasing the header does not change what recovery would yield |
| CrashSafety.CommitHeadRefines | kernel/log.c:103-114 | the write of the non-empty header is the one step that makes the current image durable |
| CrashSafety.CrashRefines | kernel/log.c:117-123 | a crash, also inside recovery, takes the store back to its durable image |
| CrashSafety.StepRefines | kernel/log.c:68-235 | every step of the log is a step of an atomic store, or invisible to it |
| CrashSafety.RunRefines | kernel/log.c:68-235 | every run of the log, with any number of crashes, is a run of the atomic store |
| CrashSafety.StoreAtomicity | kernel/log.c:146-203 | in any run of the atomic store the durable image is the current image at the last commit, taken with no operation active |
| CrashSafety.CrashAtomicity | kernel/log.c:68-203 | in every state of every run the recovered home blocks equal the file-system image at the last header write that reached the disk, when no operation was in progress; without one, the initial image |
| CrashSafety.QuiescentDisk | kernel/log.c:146-203 | when no commit is under way the home blocks on disk are the durable image |
| CrashOwnership.GoodAfterCrash | kernel/log.c:68-203 | whatever holds of the file-system image at power-on and at each commit holds of what recovery yields from the disk of every state of every run |
| CrashOwnership.OwnershipAfterCrash | kernel/log.c:68-203 | so after any crash no block has two owners and none is lost, if that is so at commits |
| LogTrace.GoesImage | kernel/log.c:68-235 | the visible events of a stretch of steps determine the store's images before and after |
| LogSpace.RunAdmission | kernel/log.c:126-175 | in every state of every run: committing means no operation outstanding; idle and not committing means an empty log; log length plus unused reservations is at most LOGSIZE; nobody sleeps on the log while its admission test would pass |
| LogSpace.SpaceForUnusedSlot | kernel/log.c:214-223 | with LOGSIZE + 1 log blocks an operation with an unused slot never meets the transaction-too-big panic |
| LogSpace.PanicFreeIff | kernel/log.c:214-223 | operations within their reservation are safe from that panic if and only if the log region has LOGSIZE + 1 blocks |
| LogSpace.AbsorptionCanPanic | kernel/log.c:218-226 | a reachable state in which re-logging a block already in the full log panics, because the limit is tested before absorption |
| LogSpace.RelogPanicsIff | kernel/log.c:218-226 | log_write panics, absorbing or not, exactly when the log is full; in a region of LOGSIZE + 1 blocks only when every operation in progress has used up its reservation |
| LogSpace.BuffersSufficeIff | kernel/bio.c:75-89 | the transactions let through by log_write leave commit a buffer for its log blocks if and only if the log region has at most NBUF blocks; in a larger one the log can pin every buffer |
| LogSpace.NoSizeIsSafe | kernel/log.c:179-235 | no size of the log region is safe from both the transaction-too-big and the no-buffers panic |
| LogCode.Log.Recycle | kernel/bio.c:59-89 | with a buffer unreferenced, one becomes free: the victim is any buffer without pin, lock or reference, and all others stay; at most NBUF blocks are cached |
| LogCode.Log.Fill | kernel/bio.c:93-103 | filling a buffer from disk is invisible to the store |
| LogCode.Log.Bread | kernel/bio.c:93-103 | the cached contents, else the disk's; no buffer exactly when the block is not cached and all NBUF buffers are referenced; referenced buffers stay as they are |
| LogCode.Log.CopyBlock | kernel/log.c:179-191 | one round of write_log puts the cached block into its log block; one buffer to spare is enough, and without one it fails |
| LogCode.Log.WriteLog | kernel/log.c:179-191 | all listed blocks are copied to the log with no visible event; fails exactly when all buffers are referenced at the start, unless another process has the first log block |
| LogCode.Log.WriteHead | kernel/log.c:103-114 | after it the disk header lists exactly the in-memory list, and a non-empty one commits; fails exactly when the header has no buffer and all are referenced |
| LogCode.Log.InstallNext | kernel/log.c:69-83 | one round of install_trans copies a log block home and unpins it unless recovering; needs one spare buffer, two in recovery |
| LogCode.Log.InstallTrans | kernel/log.c:69-83 | every listed block is home, during commit and during recovery, given one spare buffer, or two |
| LogCode.Log.Commit | kernel/log.c:194-203 | write log, header, install, erase: the store sees exactly one commit if the list was not empty; with no references but the pins it completes if and only if fewer than NBUF blocks are listed; when it cannot, the disk is one that recovery handles |
| LogCode.Log.constructor | kernel/log.c:36-49 | the log at power-on: any disk with a readable header, nothing cached, recovery not started |
| LogCode.Log.Refer | kernel/bio.c:93-103 | another process reads a block and keeps its buffer; possible exactly when the block is cached or a buffer is left |
| LogCode.Log.Unrefer | kernel/bio.c:116-137 | it gives the buffer up; the protocol's state is the same |
| LogCode.Log.ReadHead | kernel/log.c:87-97 | the in-memory list becomes the one on disk |
| LogCode.Log.RecoverFromLog | kernel/log.c:117-123 | afterwards every home block holds what the disk before recovery promised, and the log is empty; two free buffers are enough |
| LogCode.Log.BeginOp | kernel/log.c:126-142 | admits exactly when not committing and log length plus MAXOPBLOCKS per operation fits LOGSIZE, else goes to sleep |
| LogCode.Log.Modify | kernel/log.c:205-213 | a client reads, locks and changes a buffer; fails exactly when the block is not cached and all buffers are referenced |
| LogCode.Log.LogWrite | kernel/log.c:214-235 | a listed block is absorbed, another is appended and pinned; panics exactly when the log is full |
| LogCode.Log.Leave | kernel/log.c:146-165 | end_op's first section: the last operation out starts the commit, others wake the sleepers |
| LogCode.Log.Reopen | kernel/log.c:166-175 | end_op's last section wakes all sleepers and reopens the log |
| LogCode.Log.EndOp | kernel/log.c:146-175 | when the last operation leaves, every home block on disk equals what was read through the cache before; with no other references this needs the log to list fewer than NBUF blocks, exactly, and a region of at most NBUF blocks guarantees it |
| LogCode.Initlog | kernel/log.c:53-64 | after it every home block holds what the disk promised, the header is empty and no operation is in progress |
| BufferCache.UnlinkRing | kernel/bio.c:128-129 | the two unlink assignments take exactly that buffer off the circular doubly linked list |
| BufferCache.PushRing | kernel/bio.c:47-51 | the four insertion assignments put the buffer at the front of the list |
| BufferCache.RecycleKeepsView | kernel/bio.c:77-86 | reusing an unreferenced buffer changes no block as seen through the cache |
| BufferCache.Cache.constructor | kernel/bio.c:36-53 | binit leaves all buffers on the list, none valid |
| BufferCache.Cache.FindCached | kernel/bio.c:65-73 | a buffer for the block if and only if there is one |
| BufferCache.Cache.FindUnused | kernel/bio.c:75-87 | the least recently used unreferenced buffer, or none because all are referenced |
| BufferCache.Cache.Bget | kernel/bio.c:58-89 | at most one buffer per block of a device other than 0; a referenced buffer is never recycled; every block reads as before |
| BufferCache.Cache.Lock | kernel/bio.c:83-103 | sleeps while another process has the buffer locked; otherwise the buffer holds the block's latest contents as seen through the cache |
| BufferCache.Cache.Bread | kernel/bio.c:92-103 | a locked buffer with the block's latest contents, or waiting for one that is locked, or no buffer, exactly when the block is not cached and all are referenced |
| BufferCache.Cache.Change | kernel/bio.c:92-103 | a client's change is seen for that block and no other |
| BufferCache.Cache.Bwrite | kernel/bio.c:106-112 | the disk gets the buffer's data; the view through the cache is unchanged |
| BufferCache.Cache.Brelse | kernel/bio.c:116-137 | the list stays a permutation of all buffers, with a buffer nobody uses moved to the front; contents unchanged |
| BufferCache.Cache.ToFront | kernel/bio.c:126-134 | moves one buffer to the front and keeps the others in order |
| BufferCache.Cache.Bpin | kernel/bio.c:139-144 | one more reference, nothing else |
| BufferCache.Cache.Bunpin | kernel/bio.c:146-151 | one reference less, nothing else; the last one only for a buffer equal to the disk |
| LogBuffers.BacksAt | kernel/bio.c:116-151 | a step that changes the contents or the references of one block's buffer, in the protocol's state and in the cache alike, keeps every count equal to its users, pin and change |
| LogBuffers.BacksRecycle | kernel/bio.c:75-87 | reusing a buffer whose count is 0 is an eviction the protocol allows; the buffers of pending blocks stay where they are |
| LogBuffers.LastIsClean | kernel/bio.c:116-137 | a user that drops the last reference drops a buffer equal to the disk, in every state of every run |
| LogBuffers.BacksLogWrite | kernel/log.c:214-235 | bpin for a block not yet listed, and the client's brelse, turn the claim of a changed block into the log's pin |
| LogBuffers.LogDevice.constructor | kernel/bio.c:36-53 | binit on any disk with a readable header is tied to the protocol's state at power-on |
| LogBuffers.LogDevice.PendingKept | kernel/bio.c:75-87 | in every state that the operations of this class lead to, crashes included, a pending block has a buffer with its contents and a count above 0, so that bget never takes it |
| LogBuffers.LogDevice.Bget | kernel/bio.c:58-89 | one more user, or no buffer exactly when the block has none and all are referenced; no referenced buffer of another block is touched, and every block reads as before |
| LogBuffers.LogDevice.Lock | kernel/bio.c:83-103 | the buffer gets its contents as the protocol reads them |
| LogBuffers.LogDevice.Bread | kernel/bio.c:92-103 | to the log, bread only evicts blocks the protocol lets go and loads the one asked for; the data is what the protocol reads; the caller is counted as a user, and waits exactly when the block's buffer is locked |
| LogBuffers.LogDevice.Brelse | kernel/bio.c:116-137 | one user less; allowed to every user that has the buffer locked |
| LogBuffers.LogDevice.Modify | kernel/log.c:205-213 | the client's change of a buffer it has locked is the protocol's step, and its use becomes the claim of a changed block |
| LogBuffers.LogDevice.LogWrite | kernel/log.c:214-235 | log_write and brelse are the protocol's step; the block is pending and its buffer keeps a reference; panics exactly when the log is full |
| LogBuffers.LogDevice.Update | kernel/log.c:205-235 | bread, change, log_write and brelse in a row: the block shows the change and is pending, and all users are as before |
| LogBuffers.LogDevice.CopyRound | kernel/log.c:69-83 | one round of install_trans, or of write_log (lines 179-191), with its two breads, bwrite, bunpin and two brelses, is one protocol step; the disk gets what the source block read, and all users are as before |
| LogBuffers.LogDevice.WriteHead | kernel/log.c:103-114 | the header block on disk decodes to the list, through its buffer; a non-empty one commits |
| LogBuffers.LogDevice.ReadHead | kernel/log.c:87-97 | the list read through the header's buffer is the one on disk |
| LogBuffers.LogDevice.Crash | kernel/log.c:117-123 | at any moment memory may be lost: with the disk as it is and new buffers, everything is tied to the protocol's state after a crash |
| Bitmap.PutThenTest | kernel/fs.c:75-77 | setting or clearing a bit with shift and mask changes that bit only |
| Bitmap.SetBit | kernel/fs.c:92-105 | of a bitmap block's 8192 bits exactly one changes |
| Bitmap.BitLayout | kernel/fs.c:75-76 | bit bi of a bitmap block is binary digit bi % 8 of its byte bi / 8 |
| Ownership.AllocKeeps | kernel/fs.c:66-88 | taking a free block keeps the agreement of bitmap and owners, and no slot named it before |
| Ownership.FreeKeeps | kernel/fs.c:92-105 | freeing a block that no slot names keeps the agreement, and its bit was set |
| Ownership.StoreKeeps | kernel/fs.c:383-421 | storing a held block in an empty slot makes that slot its only owner |
| Ownership.ClearKeeps | kernel/fs.c:426-453 | slots may be emptied together; their blocks are then held and owned by nobody |
| Ownership.DataWrite | kernel/fs.c:520-527 | writing a mapped block changes that block of that file and no other block of any file |
| FileBlocks.FileSystem.FindFree | kernel/fs.c:72-85 | the first free block of the bitmap, or that there is none |
| FileBlocks.FileSystem.Balloc | kernel/fs.c:66-88 | the first free block, zeroed and marked, owned by nobody yet; 0 exactly when the bitmap is full; two blocks logged |
| FileBlocks.FileSystem.Bfree | kernel/fs.c:92-105 | clears one bit; the freed block's bit was set, so the panic on freeing a free block is unreachable |
| FileBlocks.FileSystem.BmapDirect | kernel/fs.c:388-396 | a direct block is mapped, shared with no other slot, at a cost of two logged blocks at most |
| FileBlocks.FileSystem.LoadIndirect | kernel/fs.c:400-406 | the indirect block exists afterwards or the disk is full; its entries start empty |
| FileBlocks.FileSystem.MapEntry | kernel/fs.c:407-417 | an entry of the indirect block is mapped, shared with no other slot |
| FileBlocks.FileSystem.BmapIndirect | kernel/fs.c:397-418 | indirect block and entry together, with their logging cost |
| FileBlocks.FileSystem.Bmap | kernel/fs.c:382-421 | the block at a file position exists afterwards or the disk is full; mapped positions and all file contents stay; ownership stays exact, whatever blocks other processes have in hand |
| Truncate.FreeDirects | kernel/fs.c:432-437 | all direct blocks are given back, other inodes untouched |
| Truncate.FreeEntries | kernel/fs.c:441-446 | the loop over the indirect block frees each listed block once |
| Truncate.FreeIndirect | kernel/fs.c:439-449 | the indirect block and all it lists are given back, other inodes untouched |
| Truncate.Itrunc | kernel/fs.c:426-453 | exactly the inode's own blocks become free; all other bits, inodes and contents are unchanged, blocks in the hands of other processes included; the inode is empty |
| Truncate.FreedExactly | kernel/fs.c:426-453 | an emptied inode and unchanged others mean that the freed blocks are those the inode owned, no more and no less |
| Allocation.StepKeeps | kernel/fs.c:66-453 | with the steps of balloc, bmap, itrunc, bfree and writei of different processes interleaved, each keeps bitmap, slots and blocks in hand in agreement and changes only files the process has locked |
| Allocation.RunOwnership | kernel/fs.c:66-453 | in every state of every interleaving no block is named by two slots, a data block is marked used exactly when one slot names it or one process has it in hand, never both, and no two processes have the same block |
| Allocation.RunStores | kernel/fs.c:383-421 | when bmap stores its block, the slot it found empty still is and the block is still zero, although only the inode is locked; bfree never meets a free block |
| Allocation.NeverBlocked | kernel/fs.c:66-453 | in every state of every interleaving a process in the middle of bmap or itrunc can go on at once, and takes a block if one is free |
| Allocation.StepsEnd | kernel/fs.c:66-453 | each of its own steps brings bmap or itrunc nearer to its end |
| FileIO.PatchWrites | kernel/fs.c:520-527 | changing part of one block changes exactly those bytes of that file |
| FileIO.WriteLoop | kernel/fs.c:516-528 | the bytes written so far are in place, the file has no holes, and logged blocks stay within the cost formula, wherever it stops; stray bytes under the condition of writei |
| FileIO.FailsInside | kernel/fs.c:522-525 | a failing copy delivers part of a block exactly when it delivers anything at all, the source ends inside the request, and not at a block boundary of the file |
| FileIO.Writei | kernel/fs.c:505-539 | replaces exactly [off, off+tot) of that file, sets the size to the maximum of old size and off+tot, changes no other file and makes no hole in any; -1 exactly for the source's three range tests; short only when the disk is full or a copy from the caller failed; stray bytes are left behind the count, and how many, exactly when the copy fails inside a block after delivering some bytes, unless the disk is full before that |
| FileIO.LeavesStrayBytes | kernel/fs.c:516-538 | a disk, a file and a source for which writei returns 0 and has overwritten five bytes of the file |
| FileIO.Readi | kernel/fs.c:471-496 | delivers exactly the bytes of the file in range and changes nothing; fewer than asked for only at the end of the file or when the range wraps around; -1 exactly when the caller has no room for them, though the file has them |
| FileIO.ChunkFits | kernel/file.c:149-175 | filewrite's chunk size keeps the cost formula within MAXOPBLOCKS for every offset |
| FileIO.WriteTransaction | kernel/file.c:162-167 | one transaction of filewrite logs at most MAXOPBLOCKS distinct blocks for any offset, any bitmap and any failing copy; it writes everything unless the range is refused, the source cannot be read that far, or the disk is full |
| FileIO.Filewrite | kernel/file.c:134-181 | whatever other processes do to disk, file and shared offset between its transactions, each puts the next part of the source at the offset it finds, changes nothing else, stays within its reservation, and falls short only if writei refuses the range, the source cannot be read that far, or the disk is full; the result is n exactly when all of it was written, else -1 |
| FileIO.Undisturbed | kernel/file.c:156-175 | without interference the file holds the source from the starting offset on, as far as it was written, and nothing else has changed |
| Directory.Strncmp | kernel/string.c:60-68 | zero exactly when both strings agree up to a NUL or n characters, otherwise the difference of the first two characters that differ |
| Directory.Strncpy | kernel/string.c:70-81 | n characters that compare equal to the source string, padded with NULs |
| Directory.NamesHas | kernel/fs.c:552-575 | with unique names, a name is in the directory's map exactly when a live entry carries it, with that entry's inode |
| Directory.PutNames | kernel/fs.c:580-606 | writing a new name into an unused place keeps names unique and adds that one binding |
| Directory.FileTree.Dirlookup | kernel/fs.c:551-575 | lookup in the finite map from names cut to 14 bytes to inode numbers, with the entry's place |
| Directory.FileTree.Dirlink | kernel/fs.c:579-606 | adds one binding to that map, in the first unused entry or at the end; refuses an existing name and leaves everything as it was on failure |
| DirectoryFile.EntryRoundTrip | kernel/fs.h:56-59 | a directory entry comes back from its 16 bytes |
| DirectoryFile.EntryLayout | kernel/fs.h:56-59 | the two bytes of the inode number, the lower first, then the name |
| DirectoryFile.EntriesWritten | kernel/fs.c:602-603 | writing an encoded entry replaces or appends that entry of that directory and changes no other |
| DirectoryFile.Dirlookup | kernel/fs.c:551-575 | on the bytes read by readi: lookup in the map from names to inode numbers, with the entry's place; nothing changes |
| DirectoryFile.WriteEntry | kernel/fs.c:602-603 | writei of an entry writes all 16 bytes or none, and none only when the disk or the directory is full |
| DirectoryFile.Dirlink | kernel/fs.c:579-606 | on file bytes and blocks: adds exactly one binding; otherwise nothing changes, because the name is there, the directory has its full size or the disk is full; other directories keep their entries |
| Directory.Skipelem | kernel/fs.c:622-645 | splits off the first element of the path cut at slashes with empty parts dropped, truncated to 14 bytes; the cursor strictly advances |
| Directory.PathElements | kernel/fs.c:622-645 | the elements of a path are the names it was written with, whatever the number of slashes before each and behind the last |
| Directory.FileTree.Namex | kernel/fs.c:651-684 | the fold of lookup over the path's elements, or over all but the last with the last left in the name buffer |
| Directory.ParentThenName | kernel/fs.c:686-697 | looking up the last name in nameiparent's directory gives what namei gives |
| PageTable.PteFields | kernel/riscv.h:386-390 | page number and flags come back from an entry |
| PageTable.TableEntry | kernel/vm.c:282-284 | an entry with only the valid bit is a pointer to a table |
| PageTable.PXof | kernel/riscv.h:392-395 | the three 9-bit indexes of an address are those of its page number |
| PageTable.TablesMore | kernel/vm.c:91-101 | the tables missing for a range of pages are those missing for its first part and then for the rest |
| PageTable.TablesBound | kernel/vm.c:91-101 | a range of k pages never needs more than 2k new tables |
| PageTable.SlotInjective | kernel/vm.c:85-103 | two addresses below MAXVA have the same leaf slot exactly when their page numbers agree |
| PageTable.AddL1Keeps | kernel/vm.c:92-99 | a new zeroed level-1 table keeps the tree well formed and the flat map unchanged |
| PageTable.AddL0Keeps | kernel/vm.c:92-99 | a new zeroed level-0 table keeps the tree well formed and the flat map unchanged |
| PageTable.SetLeafKeeps | kernel/vm.c:159-170 | writing a leaf slot changes the flat map at that page number and nowhere else |
| Vm.Machine.Kalloc | kernel/kalloc.c:68-82 | takes the first page off the free list; fails exactly when the list is empty |
| Vm.Machine.Kfree | kernel/kalloc.c:46-63 | puts back a page that was not free; the list stays without duplicates |
| Vm.Machine.Freerange | kernel/kalloc.c:33-40 | frees each page of the range once |
| Vm.Machine.Descend | kernel/vm.c:91-101 | one level of walk: finds or creates the table below, keeping the flat map; a page is used exactly when the table was missing |
| Vm.Machine.Walk | kernel/vm.c:85-103 | the leaf slot of an address, creating missing tables if asked, which succeeds if and only if there are free pages for them; the flat map never changes and pages are conserved |
| Vm.Machine.MapOne | kernel/vm.c:159-170 | one entry installed, if and only if there are free pages for the missing tables; otherwise no mapping changed |
| Vm.Machine.Mappages | kernel/vm.c:143-172 | the flat map changes exactly on the requested pages, to consecutive physical pages; succeeds if and only if there are free pages for the missing tables, otherwise a prefix is mapped |
| UserVm.UnmapOne | kernel/vm.c:185-198 | panics exactly when the page is not mapped; otherwise the mapping is removed and, if asked, its page freed, and nothing else changes |
| UserVm.Uvmunmap | kernel/vm.c:177-199 | panics exactly when some page of the range is not mapped; otherwise the range becomes unmapped and, if asked, exactly its pages become free |
| UserVm.Uvmdealloc | kernel/vm.c:262-274 | for any old size, also above the memory there is: panics exactly when the sizes differ in pages and a page between them is missing; otherwise pages above the new size are unmapped and freed, those below keep mapping and contents |
| UserVm.GrowOne | kernel/vm.c:242-254 | one round of uvmalloc or uvmcopy: a filled page is mapped, if and only if there are free pages for it and its missing tables; otherwise the page goes back and no mapping changed |
| UserGrow.UserCount | kernel/vm.c:232-256 | an address space never has more pages than there is memory |
| UserGrow.RolledBack | kernel/vm.c:242-254 | growing and cutting back restores the flat map and returns every page of memory |
| UserGrow.Uvmalloc | kernel/vm.c:232-256 | succeeds if and only if the free pages suffice for the new pages and the tables they lack; then zeroed pages with the given permissions are added and the rest kept; otherwise the flat map is restored and every page taken for memory returned, for every requested size |
| UserGrow.Uvmcopy | kernel/vm.c:312-340 | succeeds if and only if the free pages suffice for the copies and the tables they lack; then the child has pages of its own with the parent's flags and contents; the parent is untouched; failure restores the child's flat map and returns every page of memory |
| UserGrow.OthersUntouched | kernel/vm.c:232-340 | an operation that conserves pages leaves every other address space's mappings and contents as they were |
| UserFree.BelowSplit | kernel/vm.c:279-294 | a subtree is its table and the subtrees of its 512 entries |
| UserFree.BelowDisjoint | kernel/vm.c:279-294 | subtrees of different entries share no page |
| UserFree.FreeEntry | kernel/vm.c:282-292 | one entry of freewalk's loop frees the subtree below it; the panic on a leaf is unreachable |
| UserFree.Freewalk | kernel/vm.c:278-294 | frees exactly the tables at and below the given one, each once, and touches no other page |
| UserFree.Uvmcreate | kernel/vm.c:203-212 | an address space with nothing mapped, from one free page |
| UserFree.Uvmfree | kernel/vm.c:298-304 | every table and every page of memory becomes free and no other page changes |
| ProcMem.ProcPagetable | kernel/proc.c:176-206 | succeeds if and only if three pages are free; then exactly trampoline and trapframe are mapped; otherwise no page is lost |
| ProcMem.MapFrame | kernel/proc.c:198-203 | the trapframe mapped below the trampoline, or everything undone |
| ProcMem.FrameTables | kernel/proc.c:198-203 | once the trampoline is mapped the trapframe needs no new table, so that its mapping cannot fail |
| ProcMem.ProcFreepagetable | kernel/proc.c:210-216 | all tables and all memory become free; trampoline and trapframe pages stay |
| ProcMem.Growproc | kernel/proc.c:259-275 | memory is cut or extended by zero pages with the kept part unchanged; pages conserved; growing succeeds if and only if the free pages suffice, failure leaves the size; a shrink below zero wraps and changes nothing |
| ProcMem.ForkedImage | kernel/proc.c:291-297 | after the copy in fork parent and child have equal memory in disjoint pages |
| ProcMem.ShrinkTooFar | kernel/proc.c:263-275 | shrinking a process of one page by 4097 bytes reports success and changes nothing |
| UserFree.DeallocPanics | kernel/vm.c:262-274 | cutting an empty address space from a claimed size of one page to nothing panics |
| ProcMem.Lifetime | kernel/proc.c:176-275 | creating an address space, calling growproc any number of times with any arguments, successful or not, and freeing it restores the free set and changes no page outside it |
| PagePartition.ActKeeps | kernel/proc.c:110-325 | an operation of one process keeps free list, fixed pages and the processes' tables, memory and trapframes a partition of RAM, every other address space intact and the contents of all their pages |
| PagePartition.Kernel.Allocproc | kernel/proc.c:110-150 | trapframe, page table and their mappings, if and only if four pages are free; otherwise no page lost |
| PagePartition.Kernel.Freeproc | kernel/proc.c:155-173 | exactly the pages the process held become free |
| PagePartition.Kernel.Growproc | kernel/proc.c:259-275 | only the process's own pages change, to the resized memory; growing succeeds if and only if the free pages suffice |
| PagePartition.Kernel.ForkMemory | kernel/proc.c:280-305 | the child gets equal memory in pages of its own, if and only if the free pages suffice; otherwise every page is returned |
| PagePartition.Kernel.Run | kernel/proc.c:110-325 | for every sequence of allocproc, fork, growproc and freeproc calls: the partition holds, processes nothing is done for keep their pages and contents, and with no process left every page that is not fixed is free |
| SleepLock.StepKeepsOwed | kernel/proc.c:547-592 | no step brings a process past the point of sleeping without a wakeup still to come |
| SleepLock.StepKeepsInv | kernel/sleeplock.c:21-41 | every step of acquiresleep, releasesleep, sleep, wakeup, kill and the scheduler keeps the invariant |
| SleepLock.NoLostWakeup | kernel/proc.c:547-592 | over all interleavings: with the inner spinlock free and the sleep lock not taken, no process is asleep on it or bound to sleep |
| SleepLock.MutualExclusion | kernel/sleeplock.c:21-41 | over all interleavings at most one process owns the sleep lock, and one does exactly when it is marked taken |
| SleepLock.NotStuck | kernel/sleeplock.c:21-41 | over all interleavings, while a process is in the middle of acquiring or releasing and not asleep, some protocol step is possible |
| SleepLock.AcquireTakes | kernel/sleeplock.c:21-31 | over all interleavings: a process that enters acquiresleep is the holder of the lock when it is next outside, and the lock's fields say so |
| SleepLock.ReleaseGives | kernel/sleeplock.c:33-41 | over all interleavings: a process that enters releasesleep has cleared the lock when it is next outside, and does not hold it |
| SleepLock.StepsEnd | kernel/sleeplock.c:21-41 | each of its own steps brings a process nearer to the end of its call, but for the two with which a woken one tries again |
| ProcLifeSteps.AllocKeeps | kernel/proc.c:110-150 | a new process gets an unused slot, with the killed flag the slot had, and a pid no other process has or had |
| ProcLifeSteps.ForkKeeps | kernel/proc.c:280-326 | releasing, linking, starting or giving up the new process keeps families and locks consistent |
| ProcLifeSteps.ReparentKeeps | kernel/proc.c:331-341 | each slot of reparent: no child is left behind the scan, and init is owed a wakeup for a zombie child |
| ProcLifeSteps.WakeInitKeeps | kernel/proc.c:331-341 | each slot of wakeup(init) inside reparent |
| ProcLifeSteps.WakeParentKeeps | kernel/proc.c:373-374 | each slot of wakeup(parent): once past the parent it is not asleep in wait |
| ProcLifeSteps.DieKeeps | kernel/proc.c:376-379 | becoming a zombie, with the status recorded once for its pid, leaves no child behind |
| ProcLifeSteps.ScanKeeps | kernel/proc.c:402-424 | each slot of wait's scan: a zombie child is freed and returned, others are not missed |
| ProcLifeSteps.SleepReleaseKeeps | kernel/proc.c:547-560 | a parent gives up wait_lock to sleep only with no zombie child |
| ProcLifeSteps.KillKeeps | kernel/proc.c:598-616 | kill's early wakeup breaks nothing |
| ProcLifeRuns.StepKeepsInv | kernel/proc.c:279-435 | every step of fork, exit, wait, sleep, kill and the scheduler keeps the invariant |
| ProcLifeRuns.NoOrphans | kernel/proc.c:331-386 | over all interleavings a process's parent is never UNUSED or ZOMBIE, and every process and zombie except init has one |
| ProcLifeRuns.NoSleepingThroughDeath | kernel/proc.c:390-435 | over all interleavings, when wait_lock is free no process asleep in wait, or bound to sleep, has a zombie child |
| ProcLifeRuns.NoChildrenMissed | kernel/proc.c:426-430 | wait returns for lack of children only when there are none |
| ProcLifeRuns.FreedIsGone | kernel/proc.c:402-421 | a child freed by wait has switched away from its kernel stack for good, and its own pid and status are what wait returns |
| ProcLifeRuns.StatusOnce | kernel/proc.c:346-435 | each exited pid is returned by at most one wait, with the status it exited with; one not yet returned is a zombie with a live parent |
| ProcLifeRuns.StatusIsCode | kernel/proc.c:346-435 | over all interleavings, what a process gave to exit is what wait returns for it |
| ProcLifeRuns.RunHistory | kernel/proc.c:346-435 | a pid exits at most once and what wait has returned never changes |
| ProcLifeRuns.KilledStaysAwake | kernel/proc.c:426-433 | over all interleavings a process killed anywhere but between wait's test and sleep's own lock, asleep in wait included, is in no later state asleep in wait or bound to sleep while the flag stands |
| ProcLifeRuns.NapMisses | kernel/proc.c:547-560 | from any reachable state a process killed at that point goes to sleep by its own next four steps |
| ProcLifeRuns.KillMissedIff | kernel/proc.c:597-616 | a kill can be followed by a run that leaves its victim killed and asleep in wait if and only if the victim was at that point when it was killed |
| ProcLifeRuns.KillCanBeLate | kernel/proc.c:426-433 | a run from boot in which this happens |
| ProcLifePaths.ForkGives | kernel/proc.c:280-325 | over all interleavings: when fork returns, the slot it found holds a runnable child of the caller with the fresh pid, or, if memory ran out, is unused again |
| ProcLifePaths.WaitReturns | kernel/proc.c:391-435 | over all interleavings: when wait returns, its last step has freed a zombie child of the caller and returned its pid and status, or failed to copy the status, or there are no children, or the caller was killed |
| ProcLifePaths.ExitDies | kernel/proc.c:347-386 | over all interleavings: exit does not return; until the slot is collected the process stays in exit under its pid, and as a zombie it has the status it gave |
| ProcLifePaths.Orphans | kernel/proc.c:331-342 | the only step that changes a process's parent is reparent, for a child of the caller, and to init |
| ProcLifePaths.NotStuck | kernel/proc.c:279-435 | over all interleavings: while a process is in the middle of fork, exit or wait, and not asleep, some process can take the next step of such a call |
| ProcLifePaths.StepsEnd | kernel/proc.c:279-435 | each of its own steps brings such a call nearer to its end, but for the two with which a woken process scans again |
| ProcLifePaths.KillWakes | kernel/proc.c:598-616 | kill marks its victim, whatever it is doing, and a sleeper on any channel becomes runnable |
| FreeList.InsertOrdered | user/umalloc.c:33-42 | with both merge tests the free list stays in address order, disjoint and without adjacent blocks |
| FreeList.InsertUnits | user/umalloc.c:33-42 | the list covers exactly the units it covered and those of the freed block |
| FreeList.CutOrdered | user/umalloc.c:75-84 | unlinking or cutting a block keeps order and coalescing |
| FreeList.CutUnits | user/umalloc.c:75-84 | the units handed out are exactly those the list loses |
| Umalloc.RelinkLinked | user/umalloc.c:33-43 | free's pointer assignments produce the circular list of the merged blocks, in all four cases |
| Umalloc.SeenAll | user/umalloc.c:74-87 | back at freep a round of malloc has looked at every block |
| Umalloc.RoomForBytes | user/umalloc.c:69 | the payload of the units asked for holds the bytes, with less than one unit to spare |
| Umalloc.Heap.FindPlace | user/umalloc.c:30-32 | free's search ends at the one block after which the freed one belongs, wherever freep points |
| Umalloc.Heap.Free | user/umalloc.c:24-44 | the block leaves the live blocks; free and live units still partition the arena; the list stays circular, ordered and coalesced |
| Umalloc.Heap.Morecore | user/umalloc.c:46-61 | on success the arena grows by the requested units and some free block is large enough |
| Umalloc.Heap.Take | user/umalloc.c:75-84 | the last units of the fitting block, disjoint from all live blocks, and nothing else leave the list |
| Umalloc.Heap.Malloc | user/umalloc.c:63-90 | returns a new live block of the computed size, cut from the end of the first block behind freep that fits; asks sbrk at most once and exactly when no free block fits; fails only when sbrk does; terminates |
| Regex.BeginsOne | user/grep.c:93-94 | one literal or dot takes exactly one fitting character |
| Regex.BeginsStar | user/grep.c:98-106 | a star takes any number of fitting characters |
| Regex.MatchStar | user/grep.c:98-106 | true exactly when some number of the character is followed by a match of the rest |
| Regex.MatchHere | user/grep.c:84-96 | true exactly when the text begins with a match: one piece for each item of the expression, and the end where anchored |
| Regex.Match | user/grep.c:72-82 | true exactly when the text contains a match, at its start for an expression that begins with a caret |
| Regex.ParseShow | user/grep.c:84-96 | an expression written down is read as that expression, for all that can be written |
| Regex.ShowParse | user/grep.c:84-96 | every text is what the expression read from it is written as |
| Regex.AnchoredIff | user/grep.c:72-82 | an expression matches a text if and only if, with a caret, it matches some rest of it |
| Grep.StrchrNewline | user/grep.c:22 | the first newline of the C string in the buffer |
| Grep.TestLine | user/grep.c:23-27 | the line is written, newline included, exactly when it matches |
| Grep.ScanLines | user/grep.c:21-29 | writes the matching lines of the buffer and stops at the unfinished one, which is unharmed |
| Grep.Round | user/grep.c:18-33 | one read of any size: output and buffer still stand for the input read so far |
| Grep.AllReadableIff | user/grep.c:11-35 | nothing is cut off, for any expression, if and only if every terminated line fits the buffer |
| Grep.CompleteIff | user/grep.c:11-35 | for one expression nothing is cut off if and only if no line of the unread part matches |
| Grep.LongLineStops | user/grep.c:18-20 | with a first line of 1023 characters grep outputs nothing, although every line matches the empty expression |
| Grep.Grep | user/grep.c:11-35 | however reads are cut, the output is the matching newline-terminated lines before the first line too long for the buffer; it is all matching lines if and only if the rest has none |
| Pipe.IndexWraps | kernel/pipe.c:95-123 | the ring index is right after a 32-bit counter has wrapped, because PIPESIZE divides 2^32 |
| Pipe.TestsRight | kernel/pipe.c:88-121 | the empty and full tests are right although the counters wrap |
| Pipe.Pipe.constructor | kernel/pipe.c:22-45 | an empty pipe, both ends open |
| Pipe.Pipe.Put | kernel/pipe.c:95 | a byte goes behind all others and overwrites none in the buffer |
| Pipe.Pipe.Get | kernel/pipe.c:123 | the oldest byte in the buffer |
| Pipe.Pipe.PipeWrite | kernel/pipe.c:76-103 | appends the caller's bytes in order until done, full, closed or killed, which is asked before each byte, with the source's result in each case, and enters them in the history |
| Pipe.Pipe.PipeRead | kernel/pipe.c:105-130 | takes bytes from the ring, at most n and at most the reader's room, and enters them in the history; sleeps or fails only when nothing is buffered; one byte is lost if and only if the reader asks for more than it has room for and that much is buffered |
| Pipe.Pipe.PipeClose | kernel/pipe.c:58-74 | closes one end; the pipe is freed when both are closed |
| Pipe.Pipe.Fifo | kernel/pipe.c:76-130 | in every state the bytes taken out by all sections so far are, in order, the first of the bytes put in by all sections, and at most PIPESIZE are on their way |
| Pipe.Life | kernel/pipe.c:21-130 | the same from creation for every sequence of sections of any readers, writers and closers, each entered in the history with the caller's own bytes; the readers together got exactly what was taken out if and only if none met the losing condition, and then a prefix of what was written |
| Pipe.DeliveredIff | kernel/pipe.c:119-126 | over a whole history, the readers got all that was taken out if and only if no read asked for more than its room with that much buffered at the time |
| Pipe.LostLength | kernel/pipe.c:119-126 | what the readers got is what was taken out if and only if no read lost a byte; otherwise it is shorter |
| Pipe.LosesAByte | kernel/pipe.c:105-130 | two bytes written, and a reader of two with room for one: it gets the first, and the second is gone |
| Virtio.IndexWraps | kernel/virtio_disk.c:272-277 | ring positions are right after a 16-bit index has wrapped, because NUM divides 2^16 |
| Virtio.IndexTest | kernel/virtio_disk.c:312 | comparing wrapped indexes tells whether the used ring has unseen entries |
| Virtio.AvailRoom | kernel/virtio_disk.c:271-277 | with a descriptor that heads no request the available ring is not full, so posting overwrites no entry the device has not taken |
| Virtio.UsedRoom | kernel/virtio_disk.c:309-324 | while a request is with the device the used ring is not full |
| Virtio.WriteKeeps | kernel/virtio_disk.c:235-271 | writing out a request and its ring entry, before the index moves, keeps all requests and rings as the device sees them |
| Virtio.PostKeeps | kernel/virtio_disk.c:273-277 | incrementing the index keeps descriptors partitioned into free and held ones and chains of three, and rings and requests matched one to one |
| Virtio.SeeKeeps | kernel/virtio_disk.c:312-324 | every used entry belongs to a request whose buffer waits; noticing it keeps the invariant |
| Virtio.GiveBackKeeps | kernel/virtio_disk.c:288-289 | freeing a seen request's chain keeps the invariant |
| Virtio.Disk.AllocDesc | kernel/virtio_disk.c:155-166 | the first free descriptor, or none because none is |
| Virtio.Disk.FreeDesc | kernel/virtio_disk.c:168-182 | only called on a descriptor in use, so its panics are unreachable |
| Virtio.Disk.Undo | kernel/virtio_disk.c:206-209 | the failure path of alloc3_desc frees exactly the descriptors taken |
| Virtio.Disk.Alloc3 | kernel/virtio_disk.c:199-213 | three different free descriptors, or none, exactly when fewer than three are free, with the free ones as before |
| Virtio.Disk.Format | kernel/virtio_disk.c:235-271 | the chain says what was asked: direction, sector, buffer, status byte; its head is in the next ring entry |
| Virtio.Disk.Prepare | kernel/virtio_disk.c:215-271 | three descriptors hold the request and the device does not see it, or none are taken, exactly when fewer than three are free |
| Virtio.Disk.Announce | kernel/virtio_disk.c:273-277 | the request is the device's, with the next entry number |
| Virtio.Disk.Submit | kernel/virtio_disk.c:215-285 | posts the request with the buffer marked busy, or waits for descriptors, exactly when fewer than three are free, whatever the device does between the ring store and the index increment; other requests only move on |
| Virtio.Disk.FreeChain | kernel/virtio_disk.c:184-197 | follows the chain and frees exactly its three descriptors |
| Virtio.Disk.Finish | kernel/virtio_disk.c:283-292 | returns only when the device has carried out this very request since it was posted, with the transferred data in the buffer and the three descriptors free again |
| Virtio.Disk.IntrRound | kernel/virtio_disk.c:312-324 | one round notices one finished request, and the loop ends exactly when there is none |
| Virtio.Disk.Intr | kernel/virtio_disk.c:294-327 | with the device finishing more requests between rounds: at the end every finished request, new ones included, has been noticed and its buffer released, and all others only move on; the status panic is unreachable when the device reports success |
| Virtio.Disk.DeviceActs | kernel/virtio_disk.c:294-327 | whatever the device does, it leaves what the driver writes and descriptors not posted alone, and requests only move on |
| Shell.Gettoken | user/sh.c:266-309 | the next token with its extent, double > included, and the cursor behind the white space after it |
| Shell.Peek | user/sh.c:311-321 | whether the next character, white space aside, is one of the given ones |
| Shell.ParseRedirs | user/sh.c:375-398 | the redirections that follow, in order, or the missing-file error |
| Shell.ParseExec | user/sh.c:416-447 | arguments and redirections of a simple command, or a block; at most nine arguments |
| Shell.ParseBlock | user/sh.c:400-414 | a parenthesised line with the redirections behind it |
| Shell.ParsePipe | user/sh.c:362-373 | pipelines associate to the right |
| Shell.ParseLine | user/sh.c:345-360 | ampersands apply to what precedes them, semicolons associate to the right |
| Shell.LineSpans | user/sh.c:345-447 | every word of a parsed command is a maximal run of word characters of the line |
| Shell.CutWord | user/sh.c:466-467 | a NUL behind one word harms no other word |
| Shell.Nulterminate | user/sh.c:449-494 | after it every word of the command is followed by a NUL and every word character of the line is intact |
| Shell.TextKept | user/sh.c:449-494 | then each argument and file name, read as a C string, equals the slice of the line it was parsed from |
| Shell.ParseCmd | user/sh.c:328-343 | the whole line is one command or an error; on success all its C strings equal their slices |
| Shell.ParsePrinted | user/sh.c:328-343 | the code reads back what was printed: the C strings of the parsed tree are the words of the printed command |
| ShellPrint.SimpleBack | user/sh.c:374-447 | arguments and redirections in any order are read as those arguments with the redirections around them, the first innermost; ten arguments or more are an error |
| ShellPrint.BodyBack | user/sh.c:345-447 | a command written with the fewest parentheses is read back wherever it stands: pipes bind tighter than &, and & tighter than ;, pipes and lists group to the right |
| ShellPrint.StrayParen | user/sh.c:328-342 | a closing parenthesis too many is an error, whatever comes behind it |
| ShellPrint.OpenParen | user/sh.c:399-414 | so is one that is missing |
| ShellPrint.RoundTrip | user/sh.c:328-447 | parsing the printing of any command tree with proper words and at most nine arguments per command gives that tree |

## Left out

- LogCode.Log.LogWrite: a block that is changed and not logged, as after a failed copy in writei, is outside the discipline modelled here.
- LogCode.Log.Commit: the buffers that other processes refer to stay the same while it runs.
- Vm.Machine.Kalloc: the free list is a sequence of page numbers; its links inside the free pages are not modelled.
- LogCode.Log.BeginOp: one pass of begin_op's loop; that a sleeper tries again after a wakeup is in the protocol's steps.
- LogCode.Log.InstallNext: a home write and the unpinning after it are one step.
- Umalloc.Heap.Malloc: only sizes whose byte count fits an int, as sbrk takes one.
- Umalloc.Heap.Morecore: sbrk's memory is aligned to whole units and lies above the program's data.
- Grep.Grep: inputs without NULs, since the buffer is searched as a C string.
- Virtio.Disk.Intr: the device reports success; an error status is a panic in the source.
- Shell.ParseExec: trees are values, so the sharing of the exec node while redirections are wrapped around it is not modelled.
- Directory.FileTree.Dirlink: a directory is a sequence of entries and writei's outcome a parameter; `DirectoryFile.Dirlink` is the same on file bytes.
- PagePartition.Kernel.Run: each operation runs to its end before the next; the partition is not followed from one kalloc or kfree of a process to that of another.
- CrashOwnership.OwnershipAfterCrash: that ownership holds at commits is a premise, as inodes are values and not yet bytes of blocks; `Allocation.RunOwnership` has it for states in which no process is at work.
- Allocation.StepKeeps: itrunc clears an address of its locked inode after bfree; here the slot is emptied first, which no other process can tell.
- The byte layout of on-disk inodes: inodes are values, and iupdate appears as the logging of the inode's block.
- The inode cache (iget, iput, ilock), link counts, and the system calls built on files.
- copyin, copyout, copyinstr, walkaddr, uvmclear and uvmfirst: page contents are words here, and these would add byte arithmetic on top of Walk.
- The kernel page table, TLB flushes and control registers.
- Spinlock internals, interrupt nesting, context switches as machine state, and memory fences.
- The scheduler's choice: any runnable process may be picked next; fairness is not claimed.
- Open files, working directories and memory in fork, exit and wait: ProcLife keeps states, families, channels, locks and exit statuses.
- Overflow of the pid counter: pids are unbounded there.
- Wakeup of pipe readers and writers: only what passes through the pipe is stated, since a writer killed in the middle returns without waking readers.
- The virtio device registers.
- exec, consoles, printf, the shell's runcmd, the other user programs and mkfs.
