# xv6 with I/O schedulers: a verified model

A Dafny model of the parts of this xv6 RISC-V kernel, and of two of its user programs, in which the code decides
something hard, with proofs of what they promise. One module stands for one component; code that updates things in
place is modelled by classes whose methods are proved against specification functions, and concurrent code by
state machines over its steps with theorems about every run.

- **Write-ahead log over the buffer cache.** `LogLayout` is the disk format, `LogProtocol` the protocol as a state
  machine (operations, each block write, eviction, crash, recovery), `LogCommit` one lemma per kind of step,
  `LogTheorems` the results about every run and `LogProgress` what a run is sure to get done. `CacheModel` and `BufferCache` are kernel/bio.c, with its ring, reference
  counts and pins; `Log` is kernel/log.c as a class on top of that cache, each method with the disk states a crash
  could leave behind in its contract, and `LogOperation` a whole operation on it, from begin_op to end_op.
  `CacheRefines` and `CommitRefines` join the two views: begin_op, an operation's writes, end_op, commit and recovery, as
  the class carries them out on the buffers, are steps of the protocol, each after the evictions its breads cause.
- **K&R allocator.** `HeapModel`, `Malloc` and `HeapConservation`: an address-ordered, coalescing circular free list
  over an arena of header-sized units.
- **Sv39 page tables and page allocator.** `Kalloc`, `PageTableModel` (section 4.4 of the RISC-V Privileged
  Architecture), `Vm`, `VmGrow`, `UserVm`, `VmFree`, `GrowProc`, `ProcTable`, `CopyUser`: a three-level tree that refines a
  flat map from page number to entry, with exact accounting of every physical page through growth, copying, failure
  and freeing, over the whole life of a process's address space.
- **Inode layer.** `FsLayout`, `FsModel`, `FsSteps`, `FsWrites`, `InodeLayer`, `FsTrunc`, `FileWrites`: a consistent
  file system names one owner for every block in use; files are byte sequences. `DurableWrites` puts it on the log:
  a crash at any moment of a filewrite leaves a consistent file system with a first part of the write in it, and one of
  a truncation the file whole or empty.
- **Disk driver.** `VirtioModel`, `VirtioSteps`, `VirtioRuns`, `VirtioProgress` and `VirtioDisk` are the virtio descriptor protocol
  (sections 2.6 and 5.2 of VIRTIO 1.1) with the device as the other party; `MinHeap` and `SstfQueue` the two request
  queues as sequential objects.
- **Sleep and wakeup, exit and wait.** `SleepLock` and `ExitWait` model kernel/sleeplock.c and
  kernel/proc.c lock by lock, every process, the scheduler and kill interleaved in any way; `SleepProgress` and
  `ExitProgress` say what each step gets done and that the processes never all wait; `SleepBound` and `ExitBound` bound
  the steps of every run by the calls made in it, and `ExitReaps` and `ExitCycle` bring any run to where an exited process
  is freed.
- **Regular expressions.** `Grep`: the matcher against a declarative language.

Conventions. A method's result `None`, or `ok == false` where its comment says so, stands for a panic of the source;
a precondition stands for what the source panics on or what its callers must hold (a lock, a reference). Arrays inside
kernel structures are `seq` fields that methods reassign, except in the two request queues, which keep their arrays.
Integer widths are written out where they matter: 16-bit ring indices, 32-bit offsets and block differences, the int
argument of sbrk.

Where the code does not meet what it is for, the model keeps the code and states the exact condition:

- begin_op reserves log space for LOGSIZE blocks. In a log area of at most LOGSIZE blocks, as mkfs makes, log_write
  refuses the last of them, because the header takes a block of the area. In any larger one it refuses, once LOGSIZE
  blocks are logged, even a block that is logged already and needs no room, because it tests before it looks
  (`LogWritePanicsIff`, `ReservationAllowsPanic`, `AbsorptionPanics`).
- insertMinHeap's capacity test admits a 128th request, which goes one past the array (`Insert`, `GuardFails`);
  deleteFromMinHeap of an empty heap, and dequeue of an empty queue, leave a size of -1 (`DeleteMin`, `Dequeue`), from
  which the next insertion overwrites the heap's sentinel and the next request for an earlier block loops for ever
  (`EndlessIff`, `SentinelLost`), or, in the queue and after a second deletion, goes before the array
  (`BeforeTheQueue`, `BeforeTheArray`).
- distance takes blocks 2^31 or more apart for nearer than they are (`DistanceIsGap`, `DistanceWraps`).
- morecore passes a byte count through an int, exact below 2^27 units; malloc(0xffffffff) asks sbrk for 16 bytes and
  returns where they end (`SbrkArgumentExact`, `LargestRequest`).
- virtio_disk_rw computes a sector in 32 bits, twice the block number exactly below block 2^31 (`Sector`,
  `SectorShared`).
- copyout followed by copyin returns the bytes exactly when aliased addresses got equal bytes (`RoundTrip`).

## Model

| member | source | states |
|---|---|---|
| `LogTheorems.RunInv` | kernel/log.c:77-250 | every run of operations, block writes, crashes and recoveries keeps the log, cache, reservation and phase invariants at every step |
| `LogTheorems.RunRefines` | kernel/log.c:77-250 | in every run, cache, log and disk together behave as one block map in memory and one on disk: a store changes the first, the header write copies the first to the second, a crash copies back |
| `LogTheorems.BreadReturnsLatest` | kernel/bio.c:97-110 | in every run bread returns, locked, the latest logical contents of the block |
| `LogTheorems.CrashAtomicity` | kernel/log.c:192-218 | a crash at any point leaves exactly the file system of the last header write, a moment at which no system call was in progress |
| `LogTheorems.RecoveryIdempotent` | kernel/log.c:77-133 | crashes inside recovery, any number of them, move nothing durable; when recovery completes, the home blocks are the durable contents |
| `LogTheorems.RecoveryKeeps` | kernel/log.c:77-133 | whatever is true of the blocks at every moment without a system call in progress is true of the home blocks again once recovery from a crash is complete |
| `LogTheorems.OperationInOneCommit` | kernel/log.c:137-189 | no header write happens while an operation runs, so its writes fall wholly in one commit |
| `LogTheorems.ReservationHolds` | kernel/log.c:137-189 | logged blocks plus unused reservations never exceed LOGSIZE, outstanding counts the running operations, and committing implies outstanding is 0 |
| `LogTheorems.NeverCommittingInsideOp` | kernel/log.c:160-189 | end_op's panic is unreachable, and write_log finds every block it copies pinned in the cache |
| `LogTheorems.LogWritePanicsIff` | kernel/log.c:230-250 | in every state inside an operation log_write's size test panics exactly when the list has LOGSIZE blocks or as many as the log area has slots, whichever is less; an operation with reservation left meets that exactly when the log area is full, which is before LOGSIZE |
| `LogTheorems.ReservationAllowsPanic` | kernel/log.c:230-250 | for every log area of at most LOGSIZE blocks, which mkfs's is, there is a run, each operation within MAXOPBLOCKS, in which one with reservation left reaches that panic on a new block |
| `LogTheorems.AbsorptionPanics` | kernel/log.c:235-248 | for every larger log area there is a run in which an operation that has used its reservation panics in log_write of a block that is logged already and would have been absorbed |
| `LogLayout.HeaderCommits` | kernel/log.c:111-124 | writing the header in one block write turns the durable contents into the logged ones, all at once |
| `LogLayout.InstallInvisible` | kernel/log.c:77-91 | copying a log block home while the header stands changes nothing durable |
| `LogLayout.EraseInvisible` | kernel/log.c:208-218 | once all blocks are home, erasing the header changes nothing durable |
| `LogLayout.SlotWritten` | kernel/log.c:192-206 | writing a log block before the header changes nothing durable |
| `LogCommit.StepRefines` | kernel/log.c:77-250 | each of the sixteen kinds of step keeps the invariant and is one step of the two-map machine |
| `LogCommit.LogWriteGood` | kernel/log.c:229-250 | log_write, absorbing or appending and pinning, keeps the invariant and every block's contents |
| `LogCommit.EndOpGood` | kernel/log.c:159-189 | end_op, committing or not, keeps the invariant; that the last one commits is `LogProgress.LastEndCommits` |
| `LogProgress.AllCommitted` | kernel/log.c:137-218 | in every run, whenever no operation is in progress and no commit or recovery at work, the log is empty and all that was ever written is durable, at home on the disk |
| `LogProgress.LastEndCommits` | kernel/log.c:159-189 | in every run end_op begins a commit exactly when it is the last operation in progress, with everything logged, and a commit of an empty log is done at once |
| `LogProgress.CommitEnds` | kernel/log.c:192-218 | from wherever a commit has got to, where no buffer is locked, its own remaining steps end it: what threads had written by then is durable and the log is empty |
| `LogProgress.CrashRestarts` | kernel/log.c:126-133 | a crash may come in any state that is reached, and leaves a machine just powered on over the same disk |
| `LogProgress.RecoveryEnds` | kernel/log.c:77-133 | recovery from any crash ends by its own steps: threads find what was durable, at home, and an empty log |
| `LogCommit.WriteHeaderGood` | kernel/log.c:111-124 | the header write is the commit point: durable becomes logical |
| `LogCommit.InstallBlockGood` | kernel/log.c:77-91 | installing a block unpins it only when its home copy is current |
| `LogCommit.CrashGood` | kernel/log.c:126-133 | losing all memory at any step leaves the durable contents |
| `LogCommit.ReplayEraseGood` | kernel/log.c:126-133 | recovery ends with the durable contents at home and an empty log |
| `BufferCache.Cache.constructor` | kernel/bio.c:37-57 | binit builds a ring of all buffers, the last one first, none in use |
| `BufferCache.Cache.PushFront` | kernel/bio.c:45-56 | the ring with the buffer at its front is one cycle in both directions |
| `BufferCache.Cache.Unlink` | kernel/bio.c:137-138 | the ring without the buffer is one cycle in both directions |
| `BufferCache.Cache.FindKey` | kernel/bio.c:68-76 | finds the buffer with the key if any has it |
| `BufferCache.Cache.FindUnused` | kernel/bio.c:79-92 | finds, if any buffer is unused, the one released longest ago |
| `BufferCache.Cache.Bget` | kernel/bio.c:61-94 | a hit takes a reference, a miss recycles the least recently released unused buffer, never one that is referenced or pinned; the panic happens exactly when the block is not cached and every buffer is in use; no block's contents change |
| `BufferCache.Cache.AcquireAndFill` | kernel/bio.c:97-110 | after the lock and the read, the buffer holds its block's current contents |
| `BufferCache.Cache.Bread` | kernel/bio.c:97-110 | the buffer comes back locked with the block's current contents and nobody else's contents change; it fails only when every buffer is in use |
| `BufferCache.Cache.Store` | kernel/bio.c:8-14 | a store through a locked buffer changes that block's contents and no other's |
| `BufferCache.Cache.Bwrite` | kernel/bio.c:113-120 | one atomic block write; no block's current contents change |
| `BufferCache.Cache.MoveToFront` | kernel/bio.c:137-142 | the released buffer becomes the most recent of the ring, the order of the others stays |
| `BufferCache.Cache.Brelse` | kernel/bio.c:124-146 | drops the reference and lock; at zero references the buffer moves to the front; contents of all blocks stay |
| `BufferCache.Cache.Bpin` | kernel/bio.c:149-154 | one more reference, which keeps the buffer from being recycled |
| `BufferCache.Cache.Bunpin` | kernel/bio.c:157-162 | one reference fewer |
| `CacheModel.UnlinkKeeps` | kernel/bio.c:137-138 | the two pointer writes that unlink a buffer leave a doubly linked ring of the others in order |
| `CacheModel.PushFrontKeeps` | kernel/bio.c:139-142 | the four pointer writes that insert at the head leave a doubly linked ring with the buffer in front |
| `CacheModel.ReleaseOrder` | kernel/bio.c:124-146 | moving the released buffer to the front keeps the ring sorted by most recent release |
| `CacheModel.TakenKeeps` | kernel/bio.c:79-92 | recycling an unused buffer keeps keys unique, counts right and clean buffers equal to the disk |
| `CacheModel.TakenSame` | kernel/bio.c:79-92 | recycling an unpinned buffer changes no block's current contents |
| `CacheModel.CurrentIs` | kernel/bio.c:61-76 | a valid buffer holding a block holds its current contents |
| `CacheModel.StillPinned` | kernel/bio.c:149-162 | blocks that are logged stay pinned through reads and releases of other buffers |
| `Log.Log.WriteLog` | kernel/log.c:192-206 | every log block gets the cached contents of the block it stands for; every disk state on the way recovers to the old contents |
| `Log.Log.WriteHead` | kernel/log.c:111-124 | the header block on disk lists exactly the logged blocks; the cache afterwards is exactly what bread, the store, bwrite and brelse of the header's buffer leave |
| `Log.Log.InstallTrans` | kernel/log.c:77-91 | every logged block is copied home and, outside recovery, unpinned; every disk state on the way recovers to the committed contents |
| `Log.Log.Publish` | kernel/log.c:208-214 | log blocks then header: crashes before the header write recover to the old contents, the header write commits |
| `Log.Log.Retire` | kernel/log.c:214-217 | installing and erasing keep recovering to the committed contents at every write |
| `Log.Log.Commit` | kernel/log.c:208-218 | whole commit, with other threads holding buffers of other blocks to read them: each disk state of the trace recovers to the old contents before the header write and to the new ones after; on return the disk holds the new contents and the log is empty; it panics only when every buffer is in use |
| `Log.Log.EraseLog` | kernel/log.c:214-217 | the empty header reaches disk without changing anything durable |
| `Log.Log.ReadHead` | kernel/log.c:95-106 | the list read from disk is the one the header encodes; the cache afterwards is what bread and brelse of the header's buffer leave |
| `Log.Log.RecoverFromLog` | kernel/log.c:126-133 | every disk state of recovery recovers to the same contents; afterwards they are at home and the log is empty |
| `Log.Log.BeginOp` | kernel/log.c:136-155 | an operation is admitted exactly when no commit runs and its blocks fit beside what is logged and what every other operation may log; what is reserved then fits the log, and a refusal keeps it so |
| `Log.Log.EndOp` | kernel/log.c:159-189 | the last operation to end commits, with commit's guarantees; any other leaves log, cache and disk alone |
| `Log.Log.LogWrite` | kernel/log.c:229-250 | fails exactly on the source's two guards; otherwise a block of the list is absorbed, with buffers, pins and list as they were, and any other is appended and its buffer, unpinned until then, gets one reference and one pin; no block's contents change |
| `Log.Log.FindLogged` | kernel/log.c:239-242 | the first position of the block in the list, or its end |
| `Log.Log.LogOne` | kernel/log.c:196-205 | one round of write_log: the log block now holds what the cached block holds, every other block what it held; the cache afterwards is exactly what two breads, the copy and two releases leave, with no pin changed |
| `Log.Log.InstallOne` | kernel/log.c:79-90 | one round of install_trans: the home block on disk holds what the log block held; the cache afterwards is exactly what two breads, the copy, the unpinning unless recovering and two releases leave |
| `CacheModel.RoundCopied` | kernel/log.c:79-90 | what such a round leaves behind: the block written reads as the other did, every other block as it did |
| `LogOperation.WriteBlock` | kernel/bio.c:97-146 | bread, a store, log_write and brelse leave buffers, pins and list exactly as the four calls together prescribe and the disk alone; log_write does not panic while there is room |
| `LogOperation.WrittenCurrent` | kernel/bio.c:97-146 | the block then reads as it was stored, every other block as before |
| `LogOperation.WriteBlocks` | kernel/log.c:229-250 | the writes of an admitted operation overlay exactly its blocks on what threads read, and its log holds at most those |
| `LogOperation.Operation` | kernel/log.c:136-218 | begin_op, writes of up to MAXOPBLOCKS blocks and end_op: every disk state recovers to the old contents or to those with all the writes, never to some of them; on return the writes are durable and the log is empty |
| `CacheRefines.BreadIsStep` | kernel/bio.c:61-110 | on the buffers seen as one entry per cached block, bread is the bread step of the protocol, after an eviction where it recycled another block's buffer |
| `CacheRefines.StoreIsStep` | kernel/bio.c:8-14 | a store through the locked buffer is the protocol's modification |
| `CacheRefines.LogWriteIsStep` | kernel/log.c:229-250 | what Log.LogWrite promises of buffers, pins and list, absorbing or pinning, is the protocol's log_write |
| `CacheRefines.BrelseIsStep` | kernel/bio.c:124-146 | brelse is the protocol's release |
| `CacheRefines.WriteRefines` | kernel/bio.c:61-146 | what LogOperation.WriteBlock promises is the protocol's bread, modification, log_write and release in a row, after at most one eviction |
| `CacheRefines.PutRefines` | kernel/log.c:111-124 | what Log.WriteHead promises of the buffers is the protocol's block write after at most one eviction |
| `CacheRefines.TwoEvictions` | kernel/bio.c:79-92 | two breads in a row evict at most one block each, and the second not the one the first has locked |
| `CacheRefines.LogRefines` | kernel/log.c:192-206 | a round of write_log, which holds two buffers at once, is at most two evictions, then a fetch and a block write, whichever buffers were recycled |
| `CacheRefines.InstallRefines` | kernel/log.c:77-91 | a round of install_trans likewise, with the destination unpinned unless recovering, even where reading the log block evicted the block to be overwritten |
| `CommitRefines.LogStep` | kernel/log.c:196-205 | a round of write_log as the class carries it out: where the cache, log and disk stand for a state the protocol reaches, they stand for one afterwards, and the steps between are at most two evictions and DoWriteLogBlock |
| `CommitRefines.InstallStep` | kernel/log.c:79-90 | a round of install_trans likewise, the step being DoInstallBlock at commit and DoReplayBlock during recovery |
| `CommitRefines.HeadStep` | kernel/log.c:111-124 | write_head likewise, the step being the one that the phase calls for: the commit, the erasure or the end of recovery |
| `CommitRefines.CommitSteps` | kernel/log.c:192-218 | write_log, write_head, install_trans and the second write_head take the class from a state that the protocol reaches when it is about to copy the log to one that it reaches when its commit is done |
| `CommitRefines.RecoverSteps` | kernel/log.c:77-133 | read_head, install_trans and write_head take it from a state the protocol reaches when powered on to one it reaches when recovery is done |
| `CommitRefines.WriteSteps` | kernel/bio.c:97-146 | an operation's bread, store, log_write and brelse of a block are those four steps of the protocol after at most one eviction, from a reachable state to a reachable state |
| `CommitRefines.BeginStep` | kernel/log.c:136-155 | begin_op as the class carries it out is the protocol's admission of an operation, and refuses exactly where the protocol cannot admit one |
| `CommitRefines.EndStep` | kernel/log.c:159-189 | end_op of an operation that is not the last, as the class carries it out, is that one step of the protocol, from a reachable state to a reachable one |
| `CommitRefines.EndLast` | kernel/log.c:159-189 | end_op of the last one is the protocol's end of an operation and then the whole commit: it leaves a reachable state with no operation in progress, no commit at work, an empty log and everything durable |
| `Malloc.Allocator.FindSlot` | user/umalloc.c:29-32 | free's search ends, for every block not on the list, at the one it goes after |
| `Malloc.Allocator.Splice` | user/umalloc.c:33-43 | the pointer and size writes of free are those of FreeWrites, of which FreeIsTidy shows what they keep |
| `Malloc.Allocator.Free` | user/umalloc.c:24-44 | the block leaves the allocations; the list stays one ordered, disjoint, coalesced cycle; other allocations are untouched; every free block is as it was but for the one that takes the block in |
| `Malloc.Allocator.Sbrk` | user/umalloc.c:54-58 | fresh memory above everything becomes an allocation |
| `Malloc.Allocator.Morecore` | user/umalloc.c:46-61 | the list afterwards has a block of at least the units asked for, and where there was none before, each such block ends where morecore takes sbrk's memory to end; where sbrk fails nothing changed |
| `Malloc.Allocator.Carve` | user/umalloc.c:75-84 | takes the whole block or its tail, keeping the heap tidy and other allocations untouched |
| `Malloc.Allocator.Search` | user/umalloc.c:74-90 | malloc's search ends and calls morecore at most once; it finds a block exactly when one fitted or sbrk succeeds; where none fitted, the one it finds ends where morecore takes sbrk's memory to end |
| `Malloc.Allocator.Allocate` | user/umalloc.c:74-90 | it fails exactly when nothing fits and sbrk fails; where nothing fitted and sbrk succeeded, it returns the last units of what morecore takes itself to have obtained; other allocations are untouched |
| `Malloc.Allocator.InitList` | user/umalloc.c:70-73 | the list malloc starts from |
| `Malloc.Allocator.Malloc` | user/umalloc.c:63-90 | for every request, returns 0 exactly when nothing fits and sbrk fails, otherwise a new disjoint allocation of the rounded size, whose place is known exactly where sbrk was called; every other allocation is untouched |
| `Malloc.Allocator.UserStore` | user/umalloc.c:8-17 | a program's stores inside its allocations do not disturb the heap |
| `Malloc.SbrkArgumentExact` | user/umalloc.c:46-69 | for every uint request, the int passed to sbrk is the byte count exactly below 2^27 units, negative from there to 2^28, then 0, and 16 for the largest requests, malloc(0xffffffff) among them |
| `Malloc.LargestRequest` | user/umalloc.c:46-90 | for those, where nothing fits and sbrk succeeds, malloc returns the address at which the 16 bytes that sbrk obtained end, with a header that claims the whole request |
| `Malloc.FreeIsTidy` | user/umalloc.c:24-44 | the writes of free keep the ordered, coalesced partition |
| `HeapModel.SlotExists` | user/umalloc.c:29-32 | every block has a place in the cycle, so free's search loop ends |
| `HeapModel.SlotUnique` | user/umalloc.c:29-32 | and only one |
| `HeapModel.FreedOk` | user/umalloc.c:33-43 | linking and the two joins keep cycle, partition and coalescing |
| `HeapModel.JoinedGaps` | user/umalloc.c:33-43 | after the joins no two neighbours touch |
| `HeapModel.FreedBlocks` | user/umalloc.c:33-43 | freeing a block leaves every free block at its place and size, but for the one that takes it in |
| `HeapModel.SplitTidy` | user/umalloc.c:78-82 | taking the tail of a block keeps the heap tidy |
| `HeapModel.UnlinkedTidy` | user/umalloc.c:76-77 | taking a whole block keeps the heap tidy |
| `HeapModel.GrownTidy` | user/umalloc.c:54-58 | memory from sbrk above the top keeps the heap tidy |
| `HeapConservation.UnitsConserved` | user/umalloc.c:24-90 | free units plus allocated units always equal the units obtained from sbrk |
| `Kalloc.Kmem.constructor` | kernel/kalloc.c:26-41 | kinit frees every whole page between the kernel and PHYSTOP once |
| `Kalloc.Kmem.Kfree` | kernel/kalloc.c:43-65 | the page joins the free list, which stays free of repeats, and is filled with ones |
| `Kalloc.Kmem.Kalloc` | kernel/kalloc.c:67-84 | a page leaves the list; fails exactly when the list is empty |
| `Kalloc.Kmem.KfreeMemory` | kernel/kalloc.c:86-98 | counts each free page once |
| `Kalloc.PoolSize` | kernel/kalloc.c:86-98 | a list without repeats has as many entries as pages |
| `PageTableModel.SplitInjective` | kernel/riscv.h:355-363 | below MAXVA the three indices determine the page |
| `PageTableModel.SplitOnto` | kernel/riscv.h:355-363 | every index triple of the lower half is some page below MAXVA |
| `PageTableModel.SplitWraps` | kernel/riscv.h:355-363 | beyond MAXVA they do not: page 2 * MAXVPN has the indices of page 0 |
| `PageTableModel.WordRoundTrip` | kernel/riscv.h:348-352 | an entry's word gives back page number and flags, and every word is some entry's |
| `PageTableModel.SetLeafLookup` | kernel/vm.c:153-153 | writing a leaf changes that page's translation and no other |
| `PageTableModel.SetLeafTree` | kernel/vm.c:153-153 | and keeps the tree |
| `PageTableModel.AddTableTree` | kernel/vm.c:91-94 | hanging a cleared page in an empty slot keeps the tree, each page in one place |
| `PageTableModel.AddTableLookup` | kernel/vm.c:91-94 | and changes no translation |
| `Vm.SetLeafRefines` | kernel/vm.c:153-153 | the tree after a leaf write refines the flat map with that one change |
| `Vm.AddTableRefines` | kernel/vm.c:91-94 | the tree with a new table refines the same flat map |
| `Vm.PageTable.constructor` | kernel/vm.c:190-200 | a new root is an empty table and translates nothing |
| `Vm.PageTable.Descend` | kernel/vm.c:86-95 | one level of walk: the child found, or made from one free page; fails exactly when absent and not allocating, or out of pages |
| `Vm.PageTable.Walk` | kernel/vm.c:80-98 | the level-0 table of the page, with no translation changed; with alloc it takes exactly one page for each table that is missing and fails exactly where there are fewer free, without it changes nothing |
| `Vm.PageTable.MapPages` | kernel/vm.c:137-160 | exactly the pages of the range get consecutive translations, with the permissions asked for and the valid bit, all others keep theirs; on failure a prefix is mapped and no page is free; a single page is mapped exactly where the tables missing for it can be afforded |
| `Vm.WithV` | kernel/vm.c:153-153 | the flags of a mapped page are the permissions asked for in every bit but the valid bit, which is set |
| `Vm.PageTable.MapRange` | kernel/vm.c:146-159 | the loop of mappages, up to the failing page |
| `Vm.PageTable.UvmUnmap` | kernel/vm.c:163-187 | exactly the pages of the range lose their translation and, if asked, their physical pages join the free list in order |
| `UserVm.UvmAlloc` | kernel/vm.c:218-243 | success adds exactly the new pages, each cleared, distinct, and for the user to read, write and execute, with every page of memory accounted for; failure restores every translation and every data page, and comes only when the data pages asked for and the table pages made use up all that was free |
| `UserVm.UvmDealloc` | kernel/vm.c:245-261 | unmaps and frees exactly the whole pages between the sizes |
| `UserVm.Rollback` | kernel/vm.c:231-239 | undoing a partial growth restores translations, data pages and the contents of everything that was in use |
| `UserVm.UvmCopy` | kernel/vm.c:295-328 | success gives the child the parent's flags and bytes on pages of its own; failure, only for want of pages, restores the child and frees every data page taken; the parent is unchanged |
| `UserVm.PagesCover` | kernel/riscv.h:338-338 | a page is below PGROUNDUP(sz) exactly when its first byte is below sz |
| `VmGrow.GrowOneMore` | kernel/vm.c:228-240 | one more page taken, filled and mapped keeps the account of all pages |
| `VmGrow.GrowUndone` | kernel/vm.c:231-239 | unmapping what was added gives back exactly what was taken |
| `VmGrow.GrowCount` | kernel/vm.c:228-240 | growing by k pages leaves at least all but k of the pages that were free or tables |
| `VmGrow.BackOutRestores` | kernel/vm.c:236-240 | freeing the page whose mapping failed leaves at most new table pages behind |
| `VmFree.FreeWalk` | kernel/vm.c:264-282 | every table page of the subtree joins the free list once; the leaf panic is not reached without leaves |
| `VmFree.UvmFree` | kernel/vm.c:284-292 | all data pages and all table pages are free afterwards, each exactly once, counted |
| `GrowProc.GrowthAccounted` | kernel/vm.c:218-243 | a growth that succeeds takes its pages from the free list: every page stays accounted for under the new size, whatever is mapped above |
| `GrowProc.FailureAccounted` | kernel/vm.c:231-239 | a growth that fails leaves every page accounted for under the old size, and what is mapped above mapped |
| `GrowProc.ShrinkAccounted` | kernel/vm.c:250-262 | a shrink puts exactly the pages between the sizes on the free list and leaves what is mapped above |
| `GrowProc.Growproc` | kernel/proc.c:252-268 | whatever int growproc is asked for and however it ends, with the trampoline and trapframe mapped above, every page is accounted for under the size it leaves; it succeeds with the size asked for, kept as it is where that is below zero or from 2^32 up, and fails, with the old size, only in growing, and only where the pages free cannot make the growth |
| `GrowProc.LiveAndFree` | kernel/vm.c:218-292 | any run of uvmalloc and uvmdealloc to any sizes, each reached unless a growth finds no memory, then uvmfree, frees the tables and data pages of the address space |
| `GrowProc.CreateLiveFree` | kernel/vm.c:190-292 | create, any such run, whether or not memory suffices, and free: the same pages are free as before, each once |
| `ProcTable.ProcPagetable` | kernel/proc.c:171-200 | fails exactly where fewer than three pages are free, the same pages being free afterwards; otherwise a table that maps exactly the trampoline, to read and execute, and the trapframe, to read and write, neither for the user, every page accounted for |
| `ProcTable.MapBoth` | kernel/proc.c:180-197 | the two mappages succeed exactly where two pages are free for the tables they share; either failure unwinds to the same pages free |
| `ProcTable.Uvmcreate` | kernel/vm.c:190-200 | an empty page table, from one page, exactly where one is free |
| `ProcTable.ProcFreepagetable` | kernel/proc.c:204-210 | the two top pages are unmapped and not freed; every page the address space had, tables and data, is free |
| `ProcTable.SizeInRam` | kernel/vm.c:218-243 | a process has at most as many pages as there is memory, each another one |
| `ProcTable.Serve` | kernel/proc.c:252-268 | one sbrk or one growth or shrinking of exec's, with the two pages above, keeps the account, and leaves the size wanted unless the pages free cannot make the growth |
| `ProcTable.Life` | kernel/proc.c:171-210 | proc_pagetable, any run of sbrk and of exec's resizes, whether or not memory suffices for any of it, and proc_freepagetable: the same pages are free as before, each once, and the sizes between are those asked for but where a growth found no memory |
| `VmFree.EmptyHasNoLeaves` | kernel/vm.c:264-282 | an address space without translations has no valid entry in any level-0 table |
| `VmFree.NextSubtree` | kernel/vm.c:269-279 | an entry's subtree is disjoint from those before it |
| `CopyUser.WalkAddr` | kernel/vm.c:100-121 | the page number user code reaches, 0 exactly when it may not |
| `CopyUser.CopyOut` | kernel/vm.c:343-365 | succeeds exactly when the whole range is accessible, and stores exactly the bytes before the first inaccessible address, as byte-by-byte stores would, across page boundaries |
| `CopyUser.CopyIn` | kernel/vm.c:368-391 | the bytes user code would load, up to the first inaccessible address; nothing changes |
| `CopyUser.RoundTrip` | kernel/vm.c:343-391 | copyout then copyin returns the bytes exactly when addresses sharing a byte of memory were given the same value |
| `CopyUser.InjectiveConsistent` | kernel/vm.c:343-391 | which holds when the pages of the range have different physical pages |
| `CopyUser.StoredLoad` | kernel/vm.c:343-365 | an address holds what was last stored through an address sharing its byte, or what it held |
| `CopyUser.MoveStores` | kernel/vm.c:356-359 | a memmove within a page is the stores of its bytes |
| `FsLayout.WordSet` | kernel/fs.c:409-412 | storing a block number in an indirect block changes that entry and no other |
| `FsLayout.BitSet` | kernel/fs.c:76-79 | setting or clearing a block's bit changes that bit and no other |
| `InodeLayer.FileSystem.FindFree` | kernel/fs.c:71-88 | the lowest unmarked block, or none when all are marked |
| `InodeLayer.FileSystem.Balloc` | kernel/fs.c:62-90 | marks and clears the lowest free block and logs the bitmap block and it |
| `InodeLayer.FileSystem.MapAddr` | kernel/fs.c:395-404 | a block hung from the inode: the file system stays consistent, all files keep their bytes, existing addresses stay; a bitmap block is logged only for a block the file was given |
| `InodeLayer.FileSystem.MapEntry` | kernel/fs.c:405-415 | a block listed in the indirect block, likewise |
| `InodeLayer.FileSystem.Bmap` | kernel/fs.c:386-420 | the block's address, allocated if absent; no file's bytes change; nothing at all changes where it was present; it panics only when every block of the disk is marked |
| `InodeLayer.FileSystem.ReadI` | kernel/fs.c:468-495 | exactly the clipped slice of the file; never allocates |
| `FsModel.OwnersDistinct` | kernel/fs.c:386-420 | in a consistent file system no two direct, listed or indirect places hold the same block |
| `FsModel.MarkOne` | kernel/fs.c:76-79 | marking or freeing a block changes its bit and no other on the whole disk |
| `FsSteps.AttachOk` | kernel/fs.c:386-420 | attaching a free block to an empty place keeps ownership, bitmap and no-holes |
| `FsSteps.AttachSameFiles` | kernel/fs.c:386-420 | and keeps every byte of every file |
| `FsSteps.AddrAttached` | kernel/fs.c:397-404 | storing balloc's block in the inode attaches it and disturbs no other place |
| `FsSteps.EntryAttached` | kernel/fs.c:408-412 | storing it in the indirect block likewise |
| `FsWrites.DataOk` | kernel/fs.c:516-524 | writing a data block of a file keeps the file system consistent |
| `FsWrites.DataWrote` | kernel/fs.c:516-524 | and changes exactly those bytes of that file |
| `FsWrites.SizeOk` | kernel/fs.c:527-533 | setting the size after the blocks are there leaves no hole |
| `FsWrites.WroteContent` | kernel/fs.c:504-536 | the byte changes and the new size splice the file and leave other files alone |
| `FsWrites.SpliceTwice` | kernel/file.c:156-173 | two adjacent writes are one |
| `FileWrites.WriteI` | kernel/fs.c:497-536 | accepted writes splice exactly their bytes, set the size to the maximum, log only their own blocks, and panic only on a full disk; refused ones return -1 and change nothing |
| `FileWrites.WriteLoop` | kernel/fs.c:514-526 | the loop of writei, block by block |
| `FileWrites.ChunkLogs` | kernel/file.c:149-161 | on a disk of any size and for any alignment a chunk logs at most four data blocks, the indirect block, the inode's block and a bitmap block for each block allocated, of which there are at most four: ten, which is MAXOPBLOCKS |
| `FileWrites.BitKnown` | kernel/fs.c:510-526 | a bitmap block is logged only for a block that may be new, which the block that the offset lies inside of is not |
| `FileWrites.FileWrite` | kernel/file.c:132-181 | returns n exactly where one writei of n bytes would be accepted and then has the same effect; every transaction logs at most MAXOPBLOCKS blocks and writes at most 3072 bytes, and a write that succeeds takes no more of them than that |
| `DurableWrites.ImageKept` | kernel/fs.c:497-536 | a block that a write did not log has the disk image it had, inode blocks included |
| `DurableWrites.LoggedBlocks` | kernel/fs.c:497-536 | the blocks a write logged lie outside the log, and writing them turns the disk image of the file system before into that of the one after |
| `DurableWrites.CommitChunk` | kernel/file.c:162-167 | one transaction of filewrite over the log: every disk state recovers to the image of the file system before the chunk or after it, both consistent |
| `DurableWrites.CommitWrite` | kernel/file.c:132-181 | a whole filewrite over the log: at whatever moment the machine stops, recovery finds a consistent file system in which the file has taken the first d bytes of the write and nothing else has changed, d being n or a whole number of transactions of 3072 bytes; a later moment never finds fewer, nor, where it returns, more than it wrote; what it returns and leaves is as for FileWrite |
| `DurableWrites.OneChunk` | kernel/file.c:146-161 | so a write of at most 3072 bytes is found whole or not at all |
| `DurableWrites.TruncLogs` | kernel/fs.c:422-455 | the blocks a truncation logged, the inode's among them, lie outside the log, and writing them turns the disk image of the file system before into that of the one after |
| `DurableWrites.CommitTrunc` | kernel/fs.c:422-455 | a truncation over the log, where it logs at most MAXOPBLOCKS blocks, as it does on any disk of up to nine bitmap blocks: every disk state recovers to the image of the file system with the file whole or with it empty, both consistent |
| `DurableWrites.ConsistentAfterCrash` | kernel/log.c:77-250 | in every interleaved run whose blocks are consistent whenever no system call is in progress, the home blocks are consistent after every crash, once recovery is complete |
| `FsTrunc.Bfree` | kernel/fs.c:92-108 | the block and no other on the whole disk stops being marked, and only the bitmap block that says so changes and is logged; it panics, with nothing changed, exactly when the block was not marked |
| `FsTrunc.ITrunc` | kernel/fs.c:422-455 | clears exactly the file's bits, never reaches bfree's panic, empties the file and leaves all others as they were; the inode's block is logged, and so is every block in which the file system changed |
| `FsTrunc.NextData` | kernel/fs.c:430-448 | each block freed is marked and not freed yet |
| `FsTrunc.LastBlock` | kernel/fs.c:438-451 | the blocks freed are all of the file's |
| `FsTrunc.EmptiedOk` | kernel/fs.c:422-455 | afterwards the file system is consistent |
| `FsTrunc.IAlloc` | kernel/fs.c:198-222 | the lowest free inode from 1, now an empty file, its block logged and nothing else |
| `VirtioRuns.RunInv` | kernel/virtio_disk.c:723-914 | in every interleaving of submissions, device steps, interrupts and returns, the chains in flight are disjoint triples whose complement is free[], and no unread ring entry is overwritten, across index wrap |
| `VirtioRuns.ChainsDisjoint` | kernel/virtio_disk.c:723-784 | what that says of any two requests and any descriptor |
| `VirtioRuns.PerformedOnce` | kernel/virtio_disk.c:789-914 | a request in flight keeps its descriptors and has been performed once if completed, not at all before |
| `VirtioRuns.ReturnsOnce` | kernel/virtio_disk.c:789-914 | virtio_disk_rw returns only after the device performed its request exactly once |
| `VirtioProgress.FourSteps` | kernel/virtio_disk.c:789-914 | in every run each request is taken, completed, acknowledged and returned in one step each: steps made and steps left add up to four for every request submitted |
| `VirtioProgress.CanMove` | kernel/virtio_disk.c:789-914 | with any request in flight, some party other than a submitter can go on |
| `VirtioProgress.Drains` | kernel/virtio_disk.c:864-914 | from every state the requests in flight can be brought to an end, in exactly the steps left, and then every descriptor is free and blank, both rings are read and no buffer is waited for: no request is stuck, no descriptor lost |
| `VirtioSteps.SubmitInv` | kernel/virtio_disk.c:789-862 | posting a request keeps the invariant |
| `VirtioSteps.TakeReads` | kernel/virtio_disk.c:791-858 | the device sees a new entry exactly when there is one, and the chain it heads decodes to the request that was submitted, with the sector the driver computed for its block |
| `VirtioModel.SectorShared` | kernel/virtio_disk.c:791-791 | the sector, a product in 32 bits, is shared by two blocks exactly when they agree in all but the top bit of a block number |
| `VirtioSteps.AckReads` | kernel/virtio_disk.c:899-912 | the handler sees an entry exactly when there is one, its status is 0 and its buffer is that of a completed request |
| `VirtioSteps.RoomFor` | kernel/virtio_disk.c:850-858 | a ring always has room for one more request |
| `VirtioSteps.SubmitRings` | kernel/virtio_disk.c:850-858 | the new avail entry overwrites no unread one |
| `VirtioSteps.CompleteRings` | kernel/virtio_disk.c:896-901 | the new used entry overwrites no unread one |
| `VirtioSteps.FinishInv` | kernel/virtio_disk.c:869-870 | returning a chain keeps the invariant |
| `VirtioModel.SlotOf` | kernel/virtio_disk.c:852-852 | the slot of a 16-bit index is that of the unbounded count |
| `VirtioModel.IndexDiffers` | kernel/virtio_disk.c:899-899 | 16-bit indices differ exactly when the counts do |
| `VirtioDisk.Disk.constructor` | kernel/virtio_disk.c:669-672 | all descriptors free, both rings empty |
| `VirtioDisk.Disk.AllocDesc` | kernel/virtio_disk.c:723-733 | the lowest free descriptor, or -1 when there is none |
| `VirtioDisk.Disk.FreeDesc` | kernel/virtio_disk.c:737-750 | panics, with nothing changed, exactly when the descriptor is out of range or free; otherwise it is the one descriptor freed, and all free descriptors stay blank |
| `VirtioDisk.Disk.Alloc3Desc` | kernel/virtio_disk.c:772-784 | three descriptors that were free, or, only where fewer than three were, everything as before |
| `VirtioDisk.Disk.SubmitRequest` | kernel/virtio_disk.c:789-862 | the first half of virtio_disk_rw is a submission step; it changes nothing, and sleeps, only when fewer than three descriptors are free |
| `VirtioDisk.Disk.FreeChain` | kernel/virtio_disk.c:754-766 | follows the chain and frees exactly its three descriptors without a panic |
| `VirtioDisk.Disk.FinishRequest` | kernel/virtio_disk.c:864-873 | the second half is a finish step |
| `VirtioDisk.Disk.AckOne` | kernel/virtio_disk.c:899-912 | one round of the handler is an acknowledgement step; the status panic is not reached |
| `VirtioDisk.Disk.Interrupt` | kernel/virtio_disk.c:875-914 | acknowledges every completed request and no other |
| `MinHeap.Heap.constructor` | kernel/virtio_disk.c:675-684 | an empty heap with its sentinel |
| `MinHeap.Heap.Insert` | kernel/virtio_disk.c:192-209 | for every size that insertions and deletions lead to: it panics exactly at 128, writes outside the array exactly at 127 and below -1, never ends exactly where slot 0, and the root if there is one, hold a later block, and otherwise keeps heap order and adds exactly the request, or at -1 overwrites slot 0 with it |
| `MinHeap.EndlessIff` | kernel/virtio_disk.c:201-206 | the loop goes on for any number of rounds exactly where slot 0, and the root if there is one, hold a later block |
| `MinHeap.GuardFails` | kernel/virtio_disk.c:192-199 | 127 insertions into a new heap pass the guard, and so does the next, which writes outside |
| `MinHeap.SentinelLost` | kernel/virtio_disk.c:192-231 | after a deletion from an empty heap an insertion takes the sentinel's slot, and the next one never ends exactly when it is for an earlier block |
| `MinHeap.BeforeTheArray` | kernel/virtio_disk.c:192-231 | after two deletions from an empty heap an insertion writes before the array |
| `MinHeap.Heap.DeleteMin` | kernel/virtio_disk.c:211-231 | for every size: heap order kept and exactly a least request removed, if there is one; an empty heap is left at size -1 with slot 0 copied over slot 1; below that it reads before the array |
| `MinHeap.Heap.SiftUp` | kernel/virtio_disk.c:201-206 | the place where the new request belongs |
| `MinHeap.Heap.SiftDown` | kernel/virtio_disk.c:215-229 | the place where the last request belongs |
| `MinHeap.RootLeast` | kernel/virtio_disk.c:192-231 | the root has the least block number |
| `MinHeap.Heap.Drain` | kernel/virtio_disk.c:211-231 | deletions until nothing is pending take every request once, in nondecreasing order of block number |
| `SstfQueue.DistanceIsGap` | kernel/virtio_disk.c:266-275 | distance is the distance exactly when the blocks are less than 2^31 apart |
| `SstfQueue.DistanceWraps` | kernel/virtio_disk.c:266-275 | blocks 0 and 2^32 - 1 are at distance 1 |
| `SstfQueue.Queue.constructor` | kernel/virtio_disk.c:688-692 | an empty queue |
| `SstfQueue.Queue.Sstf` | kernel/virtio_disk.c:277-287 | the first request stays, a nearest other comes second, the requests stay the same |
| `SstfQueue.Queue.Enqueue` | kernel/virtio_disk.c:290-296 | for every size: it panics exactly when the queue is full, writes before the array exactly when the size is negative, and otherwise adds exactly the request, the first stays and a nearest is second |
| `SstfQueue.Queue.Dequeue` | kernel/virtio_disk.c:299-306 | for every size: exactly the first leaves, the nearest takes its place, a nearest to that is second; an empty queue loses one from its size and nothing else |
| `SstfQueue.BeforeTheQueue` | kernel/virtio_disk.c:290-306 | after a dequeue of an empty queue the next request is written before the array |
| `SstfQueue.Queue.Drain` | kernel/virtio_disk.c:266-306 | dequeues until nothing is pending serve every request once and go each time to a request nearest of all still pending |
| `SstfQueue.ServedNext` | kernel/virtio_disk.c:299-306 | one dequeue continues such a tour |
| `SleepLock.RunInv` | kernel/sleeplock.c:21-41 | every interleaving of acquiresleep, releasesleep, the scheduler and kill keeps the lock invariants |
| `SleepLock.MutualExclusion` | kernel/sleeplock.c:21-41 | no two processes have the sleep lock |
| `SleepLock.NoLostWakeup` | kernel/proc.c:525-573 | a process asleep on the lock, or past the point of no return to it, has the lock taken or a wakeup under way that has yet to examine it |
| `SleepLock.ExaminedAsleep` | kernel/proc.c:525-573 | a process that decided to sleep is asleep on its channel by the time any wakeup examines it |
| `SleepLock.HoldingSleep` | kernel/sleeplock.c:43-52 | holdingsleep is true exactly for the holder |
| `SleepProgress.FreeLockTaken` | kernel/sleeplock.c:21-31 | in every run a process that tests a free lock has it after that step, as its owner, with the spinlock let go and nobody else changed |
| `SleepProgress.LockKept` | kernel/sleeplock.c:21-41 | who has the lock keeps it until releasesleep clears it, and then it is free and ownerless |
| `SleepProgress.WakeupWakes` | kernel/proc.c:563-573 | wakeup makes a process runnable that it finds asleep on the lock, and leaves none behind it asleep |
| `SleepProgress.KillWakes` | kernel/proc.c:586-593 | kill wakes a process that sleeps and changes nothing else of the lock or of anyone |
| `SleepProgress.StepsForward` | kernel/sleeplock.c:21-41 | every step in acquiresleep or releasesleep brings its process nearer to the end, but for one: woken, it begins again; no step of another process sends it back |
| `SleepProgress.NoDeadlock` | kernel/sleeplock.c:21-41 | as long as anyone is using the lock, a process that is using it can go on |
| `SleepBound.StepsBounded` | kernel/sleeplock.c:21-41 | in every interleaving of n processes, all steps together, the scheduler's included, are at most 10n + 8 for each call of acquiresleep, with the releasesleep that follows it, and 9 for each kill: nobody spins, and no two keep waking each other |
| `SleepBound.AllFinish` | kernel/sleeplock.c:21-41 | from wherever a run has got to, it can go on until nobody is using the lock and it is free |
| `SleepBound.AnyoneCanHaveIt` | kernel/sleeplock.c:21-31 | from wherever a run has got to, it can go on until any given process has the lock |
| `ExitWait.RunInv` | kernel/proc.c:320-428 | every interleaving of fork's linking, exit, wait, the scheduler and kill keeps the process table's invariants |
| `ExitWait.ExitNeverMissed` | kernel/proc.c:339-428 | a parent asleep in wait, or past the point of no return to it, has no exited child, unless it is init and is about to be woken for it |
| `ExitWait.FreedOffStack` | kernel/proc.c:384-428 | wait frees a zombie only after the scheduler released its lock |
| `ExitWait.FreedOnce` | kernel/proc.c:148-168 | every exit from a slot but the one whose zombie is still there has been followed by exactly one freeing of it; that wait frees the zombie it finds is `ExitProgress.WaitReaps` |
| `ExitWait.NoOrphans` | kernel/proc.c:320-334 | no process is left with a parent that has exited |
| `ExitWait.NoChildren` | kernel/proc.c:414-420 | wait gives up for want of children only when there are none |
| `ExitProgress.WaitReaps` | kernel/proc.c:392-412 | in every run, wait that finds an exited child frees its slot, once: unused, with no parent, channel or kill mark, counted as freed; every other slot keeps its state, and wait lets go of both locks and returns |
| `ExitProgress.WaitDecides` | kernel/proc.c:386-424 | wait that has looked at the whole table found no exited child, and returns exactly if it has no child at all or has been killed, and otherwise goes on to sleep with wait_lock held |
| `ExitProgress.ForkLinks` | kernel/proc.c:304-315 | a process that fork makes runnable is a child of the process that forked it, and no other slot changes |
| `ExitProgress.ExitGivesAway` | kernel/proc.c:320-376 | exit that has done with reparenting has no child left |
| `ExitProgress.KillMarks` | kernel/proc.c:578-599 | kill marks the process and wakes it where it sleeps, moves nobody, and leaves every other slot alone |
| `ExitProgress.KilledStays` | kernel/proc.c:414-418 | the mark of kill stays until wait frees the slot, and a process that has it never goes to sleep in wait any more |
| `ExitProgress.StepsForward` | kernel/proc.c:320-428 | every step in fork, exit or wait brings its process nearer to the end, but for one: woken, wait looks at its children again |
| `ExitProgress.NoDeadlock` | kernel/proc.c:320-428 | as long as any process is in the midst of fork, exit or wait, and not asleep for want of an exited child, one that is can go on |
| `ExitBound.StepsBounded` | kernel/proc.c:320-428 | in every interleaving the steps of all processes and the scheduler together are bounded by what was begun: so many, in the size of the table, for each exit, wait, fork and kill |
| `ExitReaps.AllSettle` | kernel/proc.c:320-428 | from wherever a run has got to, it can be brought to rest, with nothing begun meanwhile: nobody is in the midst of fork, exit or wait, except asleep for want of an exited child |
| `ExitReaps.RunParents` | kernel/proc.c:304-334 | in every run each process but init has a parent, from when it becomes runnable until it is freed |
| `ExitReaps.EveryZombieFreed` | kernel/proc.c:339-428 | from wherever a run has got to, a process that has exited can be freed, whatever the others are at: no exit goes for nothing |
| `ExitCycle.LifeCanBeLived` | kernel/proc.c:272-428 | from wherever a run has got to, a running process can fork into any unused slot whose lock is free, and the child can run, exit and be freed by wait |
| `Grep.Match` | user/grep.c:70-80 | true exactly when a string of the pattern's language starts somewhere in the text, or at its beginning after ^ |
| `Grep.MatchHere` | user/grep.c:83-94 | true exactly when a string of the language starts the text |
| `Grep.MatchStar` | user/grep.c:97-104 | true exactly when some number of accepted characters is followed by a string of the rest |
| `Grep.HereOne` | user/grep.c:91-92 | a one-character item takes off one character |
| `Grep.HereMany` | user/grep.c:87-88 | a starred item takes off any number of accepted characters |

## Left out

- Malloc.Allocator.Malloc: `top` and `owner` are what malloc takes itself to have obtained, which is what sbrk gave exactly below 2^27 units (`SbrkArgumentExact`); that the header it writes for a larger request may then lie outside the process's memory, and what programs do with such an allocation, is not modelled.
- MinHeap.Heap.Insert: what follows a write outside the array, or a loop that does not end, is not modelled; likewise SstfQueue.Queue.Enqueue.
- Log.Log.Commit: other threads may hold buffers to read them, but only of blocks that commit does not touch, and they do not come and go meanwhile; where one holds a block that commit needs, the source sleeps until it is released. The same holds of the methods that commit, end_op and recovery are made of; threads that come and go are the protocol's (`LogTheorems`).
- LogOperation.Operation: stated for an operation alone on a quiet system; interleaved operations are the protocol's (`LogTheorems`).
- DurableWrites.CommitWrite: each transaction's blocks are written after writei has computed them, not as it goes, with no other thread at work; how an inode block is encoded is a parameter.
- DurableWrites.CommitTrunc: stated for a truncation that logs at most MAXOPBLOCKS blocks, which any does on a disk of up to nine bitmap blocks; of one that logs more, which the callers' begin_op does not allow for, it says only what itrunc does.
- SstfQueue.Queue.Sstf: nearest is stated for block numbers below 2^31, where distance is the distance.
- CommitRefines.CommitSteps: makes the calls of commit again, beside the protocol, rather than being part of Log.Log.Commit; likewise CommitRefines.RecoverSteps and CommitRefines.EndLast.
- ProcTable.Life: stated for at most 2^20 - 1 pages of memory, which the 32-bit size of growproc can count; PHYSTOP leaves 2^15.
- Storage of fixed-size kernel arrays (buffers, log header, descriptors, page-table pages, disk blocks): they are `seq` and `map` fields replaced as a whole, so overlap between array storage is not modelled.
- The deadline scheduler of kernel/virtio_disk.c (red-black tree and ring): its root is never assigned, so there is no tree to prove anything about.
- rw_queue with IO_type 1 to 3: a caller may submit and wait on another caller's request, so only the queues themselves are modelled, as sequential objects.
- Partial failure of a user copy inside writei or readi: copies succeed as a whole.
- That buffers, inodes, blocks or log space never run out: running out is a panic of the source, and a result `None` or `ok == false` here.
- The on-disk encoding of inodes (a parameter where it matters) and directories, and everything above inodes: directories, paths, file descriptors, pipes, devices.
- filewrite and readi for pipes and devices; the locks around inodes and the inode cache.
- Other uses of sleep and wakeup than the sleep lock and wait, and preemption: a process that is not running simply takes no step.
- fork's copying of memory and files, and its failure paths; exec.
- Trap entry, context-switch assembly, interrupts, device registers and memory fences.
- copyinstr, uvminit, uvmclear and the kernel page table: they would add only easy members.
- grep's line buffering, and the other user programs.
- kernel/pipe.c, kernel/string.c, kernel/console.c, kernel/printf.c, kernel/uart.c, kernel/plic.c and kernel/ramdisk.c.
- mkfs: the model starts from a consistent file system and from kernel-made inodes.
