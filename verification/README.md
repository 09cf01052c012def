# Models of xv6 and its lock library

Dafny models of the parts of this system whose correctness is hardest to see, one module for each, with proofs of
what they promise. The system is xv6 for x86 with a user-level lock library.

| module | models |
|---|---|
| `Options`, `Remainder` | a result that may be absent; remainders and the size of a word |
| `RedoLog` | the write-ahead log as a class: `log.c`, each block write one atomic step |
| `LogSystem`, `LogProgress` | the log under every interleaving of processes and every sequence of crashes; that commits complete and ended operations last |
| `McsLock`, `ArrayLock`, `SeqLock` | the locks of `libthread.c`, one step for each access to shared memory |
| `FrisbeeSeq` | the token ring of `frisbee_seq.c` over sequence locks without a mutex |
| `McsProgress`, `ArrayProgress`, `SeqProgress`, `FrisbeeProgress` | that every thread can get on, from every state of every run |
| `Umalloc` | `malloc` and `free` of `umalloc.c` over headers in memory |
| `Vm` | page tables and the frame allocator: `vm.c`, `kalloc.c` |
| `Blocks`, `Fs`, `File` | block allocation, file contents and truncation in `fs.c`, `filewrite` of `file.c` |
| `Bio` | the buffer cache of `bio.c` |
| `SleepLock`, `SleepProgress` | sleep locks over `sleep` and `wakeup`: `sleeplock.c`, `proc.c` |
| `Pipe` | pipes: `pipe.c` |
| `Shell` | the lexer and parser of `sh.c`, against a grammar and a printer |
| `Grep` | the matcher of `grep.c`, against what patterns mean |

Code that runs under one lock, or alone, is a class whose methods follow the source and are proved against
specification functions and lemmas. Code that several processes run at once is a state machine with one step for each
access to shared memory, and the results are about every run. Safety is an invariant of all steps; that nothing gets
stuck is stated as: from every state of every run some schedule leads where it should, and which steps it is made of.

## What the models take for granted

- Memory is sequentially consistent and the compiler keeps the accesses of the C source. For `frisbee_seq` and
  `frisbee_mcs` the generated code does not.
- A disk block write is atomic, a crash loses all memory, and `iderw` keeps the contract at ide.c:134-136.
- What `sbrk` answers is a parameter of `Malloc`: -1, or memory above the static header `base` that it has not given
  before. The frames after the kernel and the place of its data are parameters of the constructor of `Vm.Memory`.
- A panic is an outcome of the method that raises it. Where a panic cannot happen the method proves that it cannot.
- In `Vm` a frame is named by its physical address divided by the page size and a page by its virtual address divided
  by it, since the kernel's pointer to a frame only adds KERNBASE; no sum or product in these functions leaves 32 bits
  but the size of the last entry of `kmap`, which is computed modulo 2^32.
- A process is at most KERNBASE bytes large.
- In `Fs` the free map, the blocks of inodes and the blocks after the free map are three stores of bytes, whose words
  are read in little-endian order. Of an inode the size and the addresses are modelled. `BeginOp` and `EndOp` record
  what the calls between them changed and gave to `log_write`.

## Where the code does less than its comments or intent

- `mcslock_release` says compare and swap, but the read and the clear of `lk->next` are two steps that `mcslock_acquire`
  does not wait for. `OrphanIffRace` says exactly when that drops a waiter and `DroppedWaiter` shows a run. A dropped
  waiter stays unserved as long as the thread that dropped it does not acquire again (`LostForGood`); if it does, the
  waiter may be served after all (`ServedAfterAll`). With a real compare and swap every run is first come, first served
  (`AtomicFirstComeFirstServed`).
- The log accepts operations of MAXOPBLOCKS blocks, but on a log of LOGSIZE blocks, which is what param.h and mkfs.c
  give it, three of them can reach the panic of `log_write` (`TooBigIsReachable`) or, without any panic, fill the list
  so that the commit overwrites the block behind the log, where the inodes start (`LogOverruns`): the test at
  log.c:218 is made before the lock is taken, so two processes can pass it together. A longer log never is outgrown
  (`OverrunIffTooSmall`), but the panic is reached on it all the same (`TooBigIffLimit`). With one block less for each
  operation neither happens (`ModestFits`, `ModestWithin`), and the transactions of `filewrite` log at most seven blocks
  (`FileWrite`, `FileWritesAreAtomic`).
- `malloc` computes its sizes in 32 bits: the last seven requests get a block too small for them, and eight more ask
  `sbrk` for nothing (`RoomForRequest`).
- `allocuvm` gives back the pages it mapped when it fails, but not the page tables it made: they stay with the
  directory until `freevm`. `AllocUvm` says exactly when and which, and `TableLeftBehind` shows it. It also unmaps pages
  of the range that were mapped before the call and lie behind the page it stopped at.
- A writer killed while the pipe is full returns without waking readers; `Write` says exactly when a reader is left
  asleep beside unread bytes, and `StrandedReader` shows it.
- The buffer cache starts with every buffer naming block 0 of device 0 (`Duplicates`), so this block can be named by
  several buffers; but all of them except the first on the list are blank, so that no two in use name the same block
  (`UsedOnce`), and `BRead` holds for this block too.

## Model

| member | source | states |
|---|---|---|
| `RedoLog.Log.InstallTrans` | log.c:69-82 | copies every logged block home: the disk is the old one with the install writes applied, and nothing is pinned any more |
| `RedoLog.Log.ReadHead` | log.c:85-96 | the list in memory is the one the header block holds |
| `RedoLog.Log.WriteHead` | log.c:101-113 | one block write that puts the list in memory into the header and leaves the rest of that block alone |
| `RedoLog.Log.RecoverFromLog` | log.c:115-122 | from any recoverable disk and with nothing in memory, performs exactly the recovery writes and ends with an empty log and the disk's meaning |
| `RedoLog.Log.WriteLog` | log.c:177-190 | copies the cached contents of every listed block into the log, block by block |
| `RedoLog.Log.Commit` | log.c:192-202 | performs exactly the writes CommitWrites lists, in order, and ends with the logged contents at home and an empty log |
| `RedoLog.Log.BeginOp` | log.c:126-141 | waits exactly while a commit runs or the reservation would not fit, and otherwise counts one more operation |
| `RedoLog.Log.EndOp` | log.c:145-174 | the last operation commits all that is logged: its writes are exactly those of commit, so the disk too is said; the panic at line 153 is told apart |
| `RedoLog.Log.LogWrite` | log.c:213-233 | absorbs a block already listed, appends another, pins its contents; the two panics are told apart |
| `RedoLog.LogPrefix` | log.c:177-190 | stopped after k log writes, the disk differs from before only in the first k log blocks, which hold the cached contents |
| `RedoLog.InstallPrefix` | log.c:69-82 | stopped after k install writes, exactly the first k home blocks hold the logged contents |
| `RedoLog.RecoveryPrefix` | log.c:115-122 | a recovery stopped after any number of writes leaves a recoverable disk with the same meaning, so it can be run again |
| `RedoLog.RecoveryEnds` | log.c:115-122 | a completed recovery gives the meaning of the disk it started from, with an empty log |
| `RedoLog.CommitBefore` | log.c:192-202 | a commit stopped before its header write leaves a disk that still means the old home blocks |
| `RedoLog.CommitAfter` | log.c:192-202 | a commit stopped at or after its header write leaves a disk that means all the new home blocks |
| `RedoLog.CommitEnds` | log.c:192-202 | all writes of a commit together give the new home blocks and an empty log |
| `RedoLog.ChainKeepsMeaning` | log.c:69-122 | any number of recoveries, each cut short anywhere, keep a recoverable disk and its meaning |
| `RedoLog.CrashAtomicity` | log.c:69-122 | main result: a crash after any k writes of commit, then any number of crashes inside recovery, then a recovery: home blocks all old or all new, new exactly when the header write had happened |
| `LogSystem.ControlKept` | log.c:126-174 | every step keeps: at most one committer, only with outstanding 0, and lh is not appended to while it commits |
| `LogSystem.SpaceKept` | log.c:126-174 | every step keeps the reservation: what is logged plus what running operations may still add fits the bound; an idle log is empty |
| `LogSystem.MembershipKept` | log.c:126-174 | every step keeps each operation inside one group of the history, and closes a group only when its operations have ended |
| `LogSystem.DurableKept` | log.c:126-233 | every step, crashes and recovery steps included, that leaves the list shorter than the log keeps what the disk would mean after a recovery equal to the committed groups |
| `LogSystem.InvAlways` | log.c:115-233 | the invariant holds at the end of every run that stays within the log, for every number of processes, interleaving and sequence of crashes |
| `LogSystem.GroupCommit` | log.c:126-174 | main result: in every run with at most MAXOPBLOCKS blocks per operation, whatever the size of the log: one committer at most, none running while an operation is inside, the panics at lines 153 and 221 unreachable, the list at most LOGSIZE long; and no panic at all on LOGSIZE blocks when operations append at most MAXOPBLOCKS - 1 |
| `LogSystem.OperationsAreAtomic` | log.c:126-233 | main result: in every run that stays within the log the home blocks are exactly the writes of the committed groups, and each operation's writes are all in one group; which groups are committed is what OnlyCrashesLose and EndedIsDurable say |
| `LogSystem.ReadsSeeLatest` | log.c:213-233 | in every run that stays within the log a read through the cache gives the committed groups and the current one, also between the writes of a commit |
| `LogSystem.FitsWithin` | log.c:126-141 | a log with more blocks than begin_op lets operations fill is never outgrown, so InvAlways, OperationsAreAtomic and ReadsSeeLatest are about all its runs |
| `LogSystem.TooBigIsReachable` | log.c:213-219 | counterexample: on every log of LOGSIZE blocks or more three operations of MAXOPBLOCKS blocks each reach the panic at line 219, since line 218 is tested before absorption |
| `LogSystem.TooBigIffLimit` | log.c:126-219 | main result: on such a log, with at most MAXOPBLOCKS blocks per operation, some run reaches that panic if and only if operations may add all MAXOPBLOCKS |
| `LogSystem.LogOverruns` | log.c:177-219 | counterexample: operations of MAXOPBLOCKS blocks on a log of at most LOGSIZE blocks, as param.h and mkfs.c set them, reach without a panic a commit whose write_log overwrites the block behind the log, because two processes pass the unlocked test at line 218 together |
| `LogSystem.OverrunIffTooSmall` | log.c:126-219 | main result: operations of MAXOPBLOCKS blocks can outgrow the log in some run if and only if it has at most LOGSIZE blocks |
| `LogSystem.ModestRun` | log.c:213-233 | a run whose operations name at most k different blocks each is one in which each appends at most k, absorption included |
| `LogSystem.ModestFits` | log.c:126-219 | runs whose operations name fewer than MAXOPBLOCKS blocks each reach no panic on a log of LOGSIZE blocks |
| `LogSystem.ModestWithin` | log.c:126-219 | and they stay within that log, so OperationsAreAtomic covers them with limit MAXOPBLOCKS and LOGSIZE blocks too |
| `LogSystem.PlannedModest` | log.c:213-233 | a run whose operations log only blocks of given sets of at most k blocks is one whose operations name at most k blocks each |
| `LogProgress.CommitsComplete` | log.c:177-202 | main result: in every run within the log, from every point inside commit() the committing process can finish by its own steps alone, and then the list is empty, the log open and the group in the history as committed |
| `LogProgress.RecoveriesComplete` | log.c:115-122 | in every run within the log a recovery under way can finish by its own steps, and then the header is empty and the home blocks are the committed groups |
| `LogProgress.EveryoneCanBegin` | log.c:126-174 | main result: on a log large enough, from every state of every run that is no panic, every process can begin a new operation, without a crash: nobody sleeps in begin_op for good |
| `LogProgress.OnlyCrashesLose` | log.c:115-233 | in every run the groups lost are as many as the crashes, so no step but a crash loses a group |
| `LogProgress.EndedIsDurable` | log.c:126-202 | main result: in every run within the log, at rest after its last crash, every operation that ended since is in a committed group, and every home block holds the last write a committed group made to it |
| `LogProgress.TransactionsCanBeDone` | log.c:126-233 | main result: on a log large enough, from every state of every run that is no panic, every process can do any transaction of as many writes as an operation may make and have it committed: it is the last group, and its writes are on the disk |
| `McsLock.OneOwnerKept` | libthread.c:90-127 | every step keeps at most one owner of the lock, racing clears included |
| `McsLock.MutualExclusion` | libthread.c:90-127 | main result: in every interleaving of any number of threads at most one is between acquire and release |
| `McsLock.QueueKept` | libthread.c:90-127 | every step that is not a racing clear keeps the queue intact: owner first, lk->next last, every node linked to the next |
| `McsLock.RaceDropsWaiter` | libthread.c:112-115 | a step keeps soundness exactly unless it is the clear at line 114 of a lock word that changed since line 113, which always leaves a waiter that no thread but the releasing one can still serve |
| `McsLock.SoundUntilRace` | libthread.c:90-127 | in every run without a racing clear the queue is intact and grants follow the order of the exchanges at line 97 |
| `McsLock.OrphanIffRace` | libthread.c:112-115 | main result: some waiter is orphaned in a run if and only if some clear in it raced |
| `McsLock.AtomicReleaseNeverRaces` | libthread.c:112-115 | with lines 113 and 114 as one step, the compare-and-swap that the comment at line 109 names, no clear in any run races |
| `McsLock.AtomicFirstComeFirstServed` | libthread.c:90-127 | main result: with that, in every run threads are served in the order of their exchanges, none is orphaned, and some owner, waiter or releaser can always take a real step |
| `McsLock.NoDeadlock` | libthread.c:90-127 | in a sound state with a queue some thread of the queue, or one inside the exchange lock of a release, can take a real step |
| `McsLock.SpinLockAlways` | libthread.c:112-115 | the exchange lock on lk->spin has one holder at most in every run |
| `McsLock.FirstComeFirstServed` | libthread.c:90-127 | main result: in every race-free run threads are served in the order of their exchanges, and while anybody owns or waits for the lock one of those, or of those releasing it, can take a real step |
| `McsLock.DroppedWaiter` | libthread.c:112-115 | counterexample: a run of two threads leaves the second waiting for a lock nobody holds, and it is not served in any continuation in which the first does not acquire again |
| `McsLock.LostForGood` | libthread.c:90-127 | main result: a dropped waiter is not served in any continuation in which the thread that dropped it does not run line 93 again |
| `McsLock.ServedAfterAll` | libthread.c:90-127 | that condition is needed: if the first thread acquires again, its reused node can still lead it to the dropped waiter |
| `McsProgress.EveryoneCanEnter` | libthread.c:90-127 | main result: in a run without a racing clear every thread can still get the lock without one, if and only if no thread is about to make one |
| `McsProgress.AtomicCanEnter` | libthread.c:90-127 | with lines 113 and 114 as one step every thread can get the lock, from every state of every run |
| `ArrayLock.ServedPasses` | libthread.c:150-150 | a waiting thread can pass line 150 exactly when its ticket is the one being served |
| `ArrayLock.InvKept` | libthread.c:141-160 | with at most size threads every step keeps one slot at most set, tickets less than size apart, and lockpos the holder's slot |
| `ArrayLock.InvAlways` | libthread.c:129-160 | the invariant holds in every run from arraylock_init |
| `ArrayLock.MutualExclusion` | libthread.c:141-160 | main result: one holder, at most one slot set, lockpos is the holder's own slot whenever release reads it, and the tickets of different threads have different slots |
| `ArrayLock.RefinesTicketLock` | libthread.c:141-160 | every step is a step of an unbounded ticket lock or none |
| `ArrayLock.FirstComeFirstServed` | libthread.c:141-160 | main result: in every run the threads that have passed line 150 are, in order, the first of those that took tickets at line 145 |
| `ArrayLock.TooManyThreads` | frisbee_array.c:26-41 | the bound is exact: for any number of threads above size some run has two threads past the wait at once |
| `ArrayProgress.EveryoneCanEnter` | libthread.c:141-160 | main result: with at most size threads every thread can get the lock, from every state of every run |
| `SeqLock.InvKept` | libthread.c:57-81 | every step of readers and writers keeps seq in step with the writes made and the one under way |
| `SeqLock.OddWhileWriting` | libthread.c:70-81 | in every run seq is odd exactly while a writer is between lines 73 and 77, and writers exclude each other |
| `SeqLock.ConsistentRead` | libthread.c:57-68 | main result: a read that returns with fewer than 2^31 writes in its window had none in it, and returns the value in memory |
| `SeqLock.StaleRead` | libthread.c:57-68 | the bound is exact: with 2^31 writes in the window a read returns a value long overwritten |
| `SeqProgress.UndisturbedRead` | libthread.c:57-68 | in every run, with no write under way, a reader left alone returns the word in memory in three steps, whatever the count |
| `SeqProgress.EveryoneCanRead` | libthread.c:57-81 | from every state of every run every thread can complete a read of the word in memory |
| `SeqProgress.EveryoneCanWrite` | libthread.c:70-81 | from every state of every run every thread can complete a write of any value |
| `FrisbeeSeq.InvKept` | frisbee_seq.c:53-79 | every step keeps one token owner, and passes and cur_owner in step |
| `FrisbeeSeq.TokenRing` | frisbee_seq.c:53-79 | main result: in every run pass k is made by thread (k - 1) mod numthreads, two threads never pass at once, and a run in which a thread finished made exactly maxpass passes |
| `FrisbeeSeq.NeverFinishes` | frisbee_seq.c:63-63 | the limit on maxpass is exact: from 2^32 - 1 on no thread ever finishes |
| `FrisbeeProgress.EveryoneCanFinish` | frisbee_seq.c:53-79 | main result: below that limit all passes can be made and every thread can finish, from every state of every run |
| `Umalloc.InsertCorrect` | umalloc.c:24-44 | free keeps one address-ordered list with base, no two touching blocks, and adds exactly the units of the block |
| `Umalloc.InsertLinked` | umalloc.c:33-43 | the pointer and size stores of free produce exactly that list in memory |
| `Umalloc.TakeCorrect` | umalloc.c:75-84 | taking a block whole or from its end keeps the list well formed and removes exactly the units returned |
| `Umalloc.TakeAllLinked` | umalloc.c:76-77 | unlinking a block that fits exactly leaves the list without it in memory |
| `Umalloc.TakeSomeLinked` | umalloc.c:78-82 | splitting a block leaves the shortened block in the list in memory |
| `Umalloc.Heap.constructor` | umalloc.c:21-22 | before the first call there is no list, no memory and no live block |
| `Umalloc.Heap.Search` | umalloc.c:30-32 | the search loop of free ends, at the one place where the block belongs in address order |
| `Umalloc.Heap.Free` | umalloc.c:24-44 | the block is no longer live, its units are on the list, merged with its neighbours; free plus live units stay those obtained from sbrk |
| `Umalloc.Heap.MoreCore` | umalloc.c:46-61 | asks for at least 4096 units; on failure nothing changes, else exactly the new units join the list |
| `Umalloc.Heap.Carve` | umalloc.c:75-85 | returns a block of the asked size, disjoint from every live block, and takes exactly its units off the list |
| `Umalloc.Heap.Malloc` | umalloc.c:63-90 | main result: the search ends; the result is 0 with nothing taken, or a new live block of the units line 69 computes, disjoint from all others, out of the first block that fits going round from behind the place freep had, or from behind the place where morecore left it when nothing fitted before |
| `Umalloc.RoomForRequest` | umalloc.c:54-69 | those units are just enough for nbytes and the header exactly when the 32-bit sum of line 69 does not wrap, and sbrk is asked for the bytes of the block exactly when the product of line 54 does not |
| `Umalloc.FreeProof` | umalloc.c:24-44 | after free: live blocks disjoint, list linked, ordered and coalesced, units conserved |
| `Umalloc.CarveProof` | umalloc.c:75-85 | after malloc: live blocks disjoint, list linked, ordered and coalesced, units conserved |
| `Umalloc.GrowProof` | umalloc.c:46-61 | memory fresh from sbrk can be handed to free as a live block |
| `Vm.Memory.constructor` | kalloc.c:31-53 | kinit1 and kinit2 put every frame after the kernel on the free list |
| `Vm.Memory.KFree` | kalloc.c:59-77 | the frame is filled with junk and put on the list; the panic cannot happen for a frame in use |
| `Vm.Memory.KAlloc` | kalloc.c:82-95 | a free frame, or 0 exactly when none is free; no memory changes |
| `Vm.Memory.WalkPgDir` | vm.c:35-55 | finds the word of the page's entry; makes a page table only when asked and absent, out of a free frame, without changing what any page maps to |
| `Vm.Memory.MapPages` | vm.c:60-80 | maps the pages of the range to consecutive frames, user pages and kernel pages, up to the first that is mapped already, which is the panic, or has no page table for want of a frame; takes exactly the page tables missing up to there |
| `Vm.Memory.SetupKvm` | vm.c:118-136 | a new directory with the kernel part mapped, out of 65 free frames; with fewer, every frame is as before |
| `Vm.Memory.DeallocUvm` | vm.c:255-279 | frees exactly the pages mapped in the range and clears their entries, also where whole page tables are absent |
| `Vm.Memory.FreeVm` | vm.c:283-298 | frees exactly the frames of the address space and leaves every other frame in use as it was |
| `Vm.Memory.CopyUvm` | vm.c:315-345 | main result: success gives the child the bytes and flags of every page below sz in frames that were free, nothing else below KERNBASE, and the kernel part; failure, exactly when too few frames are free, leaves owners, free frames and contents as they were; the panics only for an unmapped page |
| `Vm.Memory.AllocUvm` | vm.c:221-249 | main result: the panic exactly when a page mapped before is reached by the frames there are; else zeroed pages when the frames suffice; else 0, with the pages of the range unmapped, those mapped before among them, every other page as it was, and page tables exactly for the pages reached: a frame is left behind if and only if one of these had no table |
| `Vm.TableLeftBehind` | vm.c:221-249 | counterexample: two frames for two pages without a page table: the result is 0, nothing is mapped, and a frame is now a table of the directory |
| `Vm.NoSharing` | vm.c:35-80 | in every valid state no frame is mapped by two user pages, of one address space or of two |
| `Vm.Unbuild` | vm.c:342-344 | freeing an address space gives back exactly the frames it was built from |
| `Vm.UnmappedPte` | vm.c:264-277 | unmapping a range clears the entries of its mapped pages and of no others, in no other directory |
| `Vm.KernelStep` | vm.c:105-115 | mapping the segments of kmap one after the other gives the layout the comment above them describes |
| `Vm.ExtendUndo` | vm.c:232-245 | undoing a partly grown range unmaps the range and leaves only page tables behind |
| `Vm.TablesLeft` | vm.c:232-245 | the owners differ from those with the range freed exactly when a page without a table was reached |
| `Blocks.SetBit` | fs.c:66-69 | setting or clearing one bit of the free map changes that block's bit and no other |
| `Blocks.MarkUsed` | mkfs.c:237-251 | the loop sets exactly the first bits of the free map |
| `Blocks.WordPut` | fs.c:391-394 | storing an entry of an indirect block changes that little-endian word and no other |
| `Fs.FileSystem.constructor` | mkfs.c:237-251 | mkfs.c marks exactly the blocks before the data in the free map; with all inodes empty this satisfies the ownership invariant |
| `Fs.FileSystem.BAlloc` | fs.c:56-78 | the first free block, marked in use and zeroed, so that one block fewer is free; the panic exactly when none is free |
| `Fs.FileSystem.BFree` | fs.c:81-96 | frees exactly the block; the panic cannot happen for a block in use |
| `Fs.FileSystem.BMap` | fs.c:373-401 | gives the block of the slot, with nothing changed if it was there; else fills exactly that slot with a block that was free, and no byte of any file changes; takes exactly the blocks missing, itself and the indirect block, and the panic of balloc comes exactly when fewer are free; a slot from MAXFILE on is the panic and changes nothing |
| `Fs.FileSystem.ITrunc` | fs.c:408-436 | frees exactly the blocks of the inode, direct, indirect and the indirect block itself, and leaves an empty inode in memory and on disk; every changed block is logged |
| `Fs.FileSystem.IUpdate` | fs.c:221-237 | the inode block holds the inode of memory at its place, little-endian, and no other byte of the block or of another changes; the block is logged |
| `Fs.StoreInode` | fs.c:228-234 | storing an inode into its block: decoding gives that inode at its place and every other as before, and no byte outside its size and addresses changes |
| `Fs.FileSystem.ReadI` | fs.c:453-477 | main result: returns the slice of the file's contents, and changes nothing, so it never allocates |
| `Fs.FileSystem.WriteI` | fs.c:482-512 | main result: the contents become the old ones overwritten from off on, of that file alone; inode on disk and in memory agree again, so every allocating write reaches iupdate; takes exactly the blocks missing, and the panic comes exactly when fewer are free; logs only the blocks named and every block it changes |
| `Fs.NeededMore` | fs.c:499-504 | the free blocks a range takes are those its first part takes and then those the rest takes, wherever it is cut |
| `Fs.ReferredOnce` | fs.c:373-436 | main result: between operations a data block's bit is set exactly when an indirect pointer or a block slot of some inode names it, and no two of them name the same block |
| `Fs.FillSlot` | fs.c:380-395 | filling an empty slot with a held block keeps every block referred to by exactly one slot |
| `Fs.FillIndirect` | fs.c:388-389 | so does giving an inode an empty indirect block |
| `Fs.ZeroesAppear` | fs.c:41-51 | a new zeroed block changes no byte of any file |
| `Fs.PutBytes` | fs.c:499-504 | writing a block of a file changes the bytes of that block of that file, of no other |
| `Fs.WriteStep` | fs.c:499-504 | one turn of the loop of writei extends the bytes written by the part of the block it covers |
| `Fs.ProgressStep` | fs.c:499-510 | a turn that allocates ends beyond the old size, so the inode will be written back |
| `Fs.FreeStep` | fs.c:414-430 | one turn of the loops of itrunc frees the block of one slot and keeps the rest owned |
| `File.FileWrite` | file.c:117-156 | main result: writes all bytes or a prefix up to the piece that would pass the largest file size, exactly so many; panics exactly when fewer blocks are free than those bytes take; the call is a chain of transactions, one for each piece begun, from the state before to the state after; each has logged every block it changed, at most 7 when the free map is one block; after transaction k the disk holds exactly the first k pieces, so a crash leaves a prefix; a short write cannot happen |
| `File.WritePiece` | file.c:140-145 | one transaction: all bytes of the piece or none, the offset moved accordingly, every changed block logged; the panic exactly when too few blocks are free |
| `File.WritePieces` | file.c:134-152 | the loop: how far it comes, in how many transactions, what it has written and taken, and when it panics |
| `File.NextPiece` | file.c:135-151 | one turn adds the piece to what was written, taken and logged before |
| `File.SevenBlocks` | file.c:126-133 | 1536 bytes at any offset touch at most 4 data blocks, the indirect block, the free map and the inode |
| `File.SevenFit` | log.c:213-219 | in every run whose operations name at most 7 blocks each the log never gets too big and is never outgrown |
| `File.FileWritesAreAtomic` | log.c:115-233 | main result: in every run, crashes included, whose operations log the blocks of such transactions there is no panic, each operation is in one group, and the disk means the committed groups |
| `Bio.Unlink` | bio.c:133-134 | taking a buffer out leaves a cycle through head and the others in the same order |
| `Bio.LinkFront` | bio.c:135-138 | putting a buffer in after head leaves a cycle with it first |
| `Bio.BufferCache.constructor` | bio.c:38-56 | binit makes a cycle through head and every buffer once |
| `Bio.BufferCache.BGet` | bio.c:61-93 | the buffer that caches the block, or the least recently used one that is clean and unreferenced; the panic exactly when the block is not cached and there is none such; no two buffers in use name the same block |
| `Bio.UsedOnce` | bio.c:61-93 | two buffers name the same block only if it is block 0 of device 0, and then one of them is unused, clean and without contents |
| `Bio.Duplicates` | bio.c:38-56 | counterexample: with two buffers or more binit leaves block 0 of device 0 named twice |
| `Bio.BufferCache.ReadIn` | bio.c:96-106 | the holder of a buffer sees the last contents stored in the block |
| `Bio.BufferCache.IdeRw` | ide.c:134-136 | a dirty buffer reaches the disk, another gets its contents |
| `Bio.BufferCache.LogWrite` | log.c:213-233 | the contents become the last ones stored and the buffer is pinned |
| `Bio.BufferCache.BWrite` | bio.c:109-116 | the contents become the last ones stored and are on the disk |
| `Bio.BufferCache.Put` | bio.c:119-141 | with the last reference the buffer moves to the front, the others keep their order |
| `Bio.BufferCache.BRead` | bio.c:96-106 | main result: gives the last contents stored through log_write or bwrite, else those on the disk, of any block, in the buffer bget gives, and changes no other buffer; when another process has the buffer locked, a reference to it and the wait; the panic exactly when bget panics |
| `Bio.Recycle` | bio.c:77-91 | giving a clean unreferenced buffer to an uncached block keeps the cache consistent with what was stored |
| `SleepLock.InvKept` | proc.c:420-476 | every step of every process, scheduler, yield, kill and wakeup from another channel keeps the invariant, that no wakeup is lost among it; the holder of the lock may sleep on other channels |
| `SleepLock.NoLostWakeups` | sleeplock.c:22-42 | main result: in every run, with the inner lock free, a process asleep on the lock or committed to sleep waits for a lock that is held by a process not asleep on it; that the ones woken do run and get it is FreeLockIsTaken and EveryoneCanHold |
| `SleepLock.MutualExclusion` | sleeplock.c:22-53 | in every run one holder at most, and with the inner lock free holdingsleep is true for it alone, running, preempted or asleep on another channel |
| `SleepLock.AllWoken` | proc.c:459-476 | when releasesleep has made its wakeup nobody is asleep on the lock or on the way there |
| `SleepProgress.FreeLockIsTaken` | sleeplock.c:22-32 | main result: in every reachable state with the locks free every process, one just woken too, can get the sleep lock by its own steps, the scheduler's and wakeups from the other channels it sleeps on |
| `SleepProgress.EveryoneCanHold` | proc.c:420-476 | main result: from every reachable state every process can get to hold the sleep lock |
| `SleepProgress.NoDeadlock` | sleeplock.c:22-42 | in every reachable state in which a process waits for the lock, the one it waits for, or the scheduler for it, can take a real step |
| `Pipe.Pipe.Write` | pipe.c:78-98 | the bytes are appended in order; returns exactly when they fit, else fails exactly when killed or without readers, and sleeps on a full pipe otherwise; readers are left asleep beside bytes exactly when some are asleep and the call fails |
| `Pipe.Pipe.Read` | pipe.c:100-121 | main result: delivers the next bytes stored, in order, once; sleeps only on an empty pipe that is open for writing |
| `Pipe.Pipe.Store` | pipe.c:93-93 | the ring buffer holds the bytes between the counters, although these wrap |
| `Pipe.Pipe.CloseWrite` | pipe.c:63-66 | no reader stays asleep once nothing more can come, whoever sleeps in the pipe |
| `Pipe.Pipe.CloseRead` | pipe.c:66-69 | no writer stays asleep once nobody reads; readers not asleep beside bytes stay so |
| `Pipe.Room` | pipe.c:85-85 | the wrapped counters tell a full and an empty pipe from all others |
| `Pipe.StrandedReader` | pipe.c:85-91 | counterexample: a killed writer returns from a full pipe and leaves a reader asleep |
| `Pipe.Delivered` | pipe.c:59-121 | main result: in every run of any number of readers, writers, closes and kills the bytes delivered are the first of those accepted, in order, and writers sleep only on a full pipe open for reading |
| `Pipe.NoReaderLost` | pipe.c:59-121 | main result: in every run a reader is asleep beside bytes or without writers if and only if some failing write left it so and nothing has woken or emptied since |
| `Pipe.StrandsExactly` | pipe.c:85-91 | the one section that does so is a write that does not fit, killed or without read end, while readers sleep |
| `Shell.Parser.GetToken` | sh.c:265-308 | the loops of gettoken find the next token of the text, and leave the tokens after it |
| `Shell.Parser.Peek` | sh.c:310-320 | skips white space, takes no token, and tells whether the next one is a symbol of those given |
| `Shell.Parser.ParseRedirections` | sh.c:374-397 | the loop of parseredirs takes the redirections the grammar takes, or panics where it has none |
| `Shell.Parser.ParseArguments` | sh.c:429-445 | the loop of parseexec takes the words and redirections the grammar takes, or panics where it has none |
| `Shell.Parser.ParseSingle` | sh.c:415-446 | parseexec gives what the grammar gives, from every position |
| `Shell.Parser.ParseParens` | sh.c:399-413 | parseblock gives what the grammar gives |
| `Shell.Parser.ParseAPipe` | sh.c:361-372 | parsepipe gives what the grammar gives |
| `Shell.Parser.ParseALine` | sh.c:344-359 | parseline gives what the grammar gives |
| `Shell.Parser.ParseCommand` | sh.c:327-342 | parsecmd ends on every input, with the command of the whole text, which ParsesExactly speaks of, or the panic |
| `Shell.ParseCmd` | sh.c:327-342 | a parsed command uses all tokens and has at most 9 plain words each and plain file names |
| `Shell.TokenText` | sh.c:265-308 | the token found stands in the text behind the white space, ends where it should, and what is left is the text after it |
| `Shell.Lexed` | sh.c:265-308 | main result: for every text, its tokens are the one sequence that spells it, with any white space between them and a word as long as it can be |
| `Shell.LineParsed` | sh.c:344-359 | tokens that the grammar makes a line are parsed as that line, up to what follows them |
| `Shell.ParsesExactly` | sh.c:327-446 | main result: tokens parse to a command if and only if the grammar makes them that command, redirections anywhere among the words |
| `Shell.Unambiguous` | sh.c:327-446 | so no text has two commands |
| `Shell.LinePrinted` | sh.c:344-446 | the printed tokens of a command make that command in the grammar |
| `Shell.RoundTrip` | sh.c:327-446 | main result: for every command of at most 9 plain words each and every text that spells its printed tokens, with any white space, parsing gives the command and uses all input |
| `Shell.Stable` | sh.c:327-446 | whatever text was parsed, printing and parsing it again gives the same command |
| `Grep.Match` | grep.c:72-82 | main result: 1 exactly when the text, or with no ^ some suffix of it, starts with what the pattern's items stand for |
| `Grep.MatchHere` | grep.c:84-96 | 1 exactly when the text can be divided among the items, a star first and a $ before the end standing for themselves |
| `Grep.MatchStar` | grep.c:98-106 | 1 exactly when some number of the character, or of any, is followed by what the rest stands for |
| `Grep.FirstItem` | grep.c:84-106 | if the first item takes a prefix and the others begin what follows, all of them begin the text |
| `Grep.FirstTakes` | grep.c:84-106 | and the other way round |

## Left out

- Boot, interrupt and device code, the console and the assembly files: hardware access.
- `clone`, threads' exit and the reference counts of files and inodes.
- `ialloc`, `iget`, `iput`, directories and path names (fs.c:196-353, fs.c:518-671): they would add members of the
  same kind as `BAlloc` and `ReadI`.
- The branches of `readi` and `writei` for devices.
- `exec`, system call argument checks, `loaduvm`, `inituvm`, `clearpteu` and `copyout`.
- The read loop of `grep`, which drops part of a line after a short read.
- `runcmd` and `nulterminate` of the shell.
- The pass counting of `frisbee_array` and `frisbee_mcs` under their locks: with mutual exclusion it is sequential
  code.
- `lock_acquire` and `lock_release` (libthread.c:42-48): the exchange on one word that `McsLock.SpinLockAlways` is
  about.
- The branches of `filewrite` for pipes and for files of no known type.
- Bio.BufferCache.BRead: a caller that has to wait for the buffer's lock ends here with its reference; `ReadIn` is
  what it does once it holds the lock.
- Bio.BufferCache.LogWrite: only what `log_write` does to the buffer; its list and panics are `RedoLog.Log.LogWrite`.
- RedoLog.Log.EndOp: the commit is one call here; in `LogSystem` its writes are steps between those of other
  processes.
- LogSystem.OperationsAreAtomic: a commit of more blocks than the log has is not carried out in the model, so runs
  that outgrow the log are not covered; `LogOverruns` shows that its first writes then change a block no operation
  wrote.
- LogSystem.InvAlways: for runs that stay within the log, as above.
- LogSystem.DurableKept: for steps that stay within the log, as above.
- LogSystem.ReadsSeeLatest: for runs that stay within the log, as above.
- LogProgress.CommitsComplete: for runs that stay within the log, as above.
- LogProgress.EndedIsDurable: for runs that stay within the log, as above.
- Fs.FileSystem.IUpdate: type, device numbers and link count are not modelled; the two words they take are proved to
  stay as they are, which is what the source stores there when they have not changed.
- Shell.Parser.ParseArguments: the source fills `argv` in place after it has wrapped redirections around the node; the
  model collects arguments and redirections as values and builds the tree at the end, so that sharing is not captured.
- SleepProgress.EveryoneCanHold: says that a schedule exists, not that a fair scheduler follows it; a wakeup from
  another channel is one step. The same holds for the other results about getting on.
- Vm.Memory.KAlloc: the lock of the allocator is left out; its critical sections are single method calls.
- File.FileWrite: the pieces follow each other here, while in the source other operations may come between two pieces.
- Fs.FileSystem.WriteI: one operation at a time; that operations do not interfere is what inode locks and the log are
  for.
- Umalloc.Heap.Malloc: memory that `sbrk` gives is taken to have the units asked for, which for the eight requests of
  `RoomForRequest` whose product wraps it has not.
- Pipe.Pipe.Read: a process that sleeps gives up the pipe's lock and joins the sleepers in one step, which is what
  `SleepLock` shows of `sleep`.
