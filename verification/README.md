# A model of txv6 in Dafny

txv6 is a small RISC-V kernel, xv6 with a layer of user transactions on kernel
objects.  This project models its hardest machinery and proves what it is for.

| files | models |
|---|---|
| `Log.dfy`, `LogRuns.dfy`, `LogCode.dfy` | the write-ahead log: commit, recovery, reservation, every run of them with crashes anywhere, and the code on the buffer cache |
| `Tx.dfy`, `TxMachine.dfy`, `TxSteps.dfy`, `TxRuns.dfy`, `TxCommits.dfy`, `TxRaw.dfy`, `LockOrder.dfy` | the transaction layer: worksets, shadow copies, commit and abort, every interleaving of transactions, and the order of their locks |
| `Bitmap.dfy`, `FsImage.dfy`, `Fs.dfy` | block allocation, direct and indirect blocks, readi, writei, itrunc and filewrite's chunks |
| `PageTable.dfy`, `VmState.dfy`, `VmFill.dfy`, `VmFree.dfy`, `Vm.dfy`, `VmCopy.dfy` | three-level page tables, physical pages, process memory, user copies with lazy allocation |
| `Proc.dfy`, `ProcSteps.dfy`, `ProcRuns.dfy`, `ProcFamilies.dfy`, `ProcTold.dfy` | sleep and wakeup, sleeplocks, fork, exit, wait, reparent and kill as a machine of atomic steps |
| `Umalloc.dfy` | the user-level allocator on its circular free list |
| `Lru.dfy`, `Bio.dfy`, `CacheRuns.dfy`, `CacheReads.dfy`, `CacheTold.dfy`, `CacheTrips.dfy`, `CacheLimits.dfy`, `CommitRace.dfy` | the buffer cache and its recency list, every run of it under the log and under transactions, and runs in which something is lost |
| `Virtio.dfy`, `VirtioRuns.dfy`, `VirtioServes.dfy` | the disk driver's descriptors and its protocol with the device |
| `Grep.dfy` | the regular-expression matcher |
| `Counting.dfy` | sizes of finite sets, sequences without repetition |

Code that the kernel runs in place is modelled in place: classes with the
kernel's fields, loops with invariants, arrays and pointer maps.  Each such
method is proved against a specification on values, and the main results are
about that specification.  What runs concurrently is a state machine whose
steps are the code's atomic actions, and its results hold in every reachable
state of every run.  Where a machine keeps books of its own, such as a history or
a set of holders, a theorem says that they are what the events alone tell.
A panic in the kernel is a precondition, where it guards a caller's mistake, or it
is proved unreachable, or it is reported with its exact condition.

## Results that are not what one would hope

- A full log and a repeated block: log_write tests for a full log before it
  looks for the block, so an operation that has logged MAXOPBLOCKS distinct
  blocks panics when it logs one of them again and the log is full
  (`LogRuns.FullLogPanics`).  Operations that stay strictly below the budget at
  every log_write never meet that panic (`LogRuns.ReservationInEveryRun`).
  Logging fewer than MAXOPBLOCKS distinct blocks before each log_write is enough
  for that (`LogRuns.FewBlocksAreDisciplined`), and every operation of filewrite
  does so (`Fs.FileSystem.Filewrite`).
- A full log and the buffer cache: LOGBLOCKS equals NBUF, and each logged block
  pins a buffer.  Three operations within their reservations fill the log, and
  the commit then panics at its first bread (`CacheLimits.FullLogCommitPanics`).
  With nothing else held, a commit of n entries gets through if and only if
  n < NBUF (`LogCode.Logger.CommitNeedsABuffer`, `CacheLimits.CommitFindsBuffer`).
- A log commit and a transaction's commit: sys_txcommit swaps payloads without
  begin_op, so it can swap a shadow in after write_log has copied the block and
  before install_trans copies the log back.  The install then overwrites the
  transaction's change, and the next reader finds the old contents
  (`CommitRace.SwapIsLost`).  An install is harmless if and only if
  nothing was stored since the copy, or what was stored last equals it
  (`CacheReads.InstallExact`, `CacheReads.InstallSince`).  Only a store outside of operations can come in
  between (`CacheReads.OperationsDoNotDisturb`), and without one every read finds
  what was stored last (`CacheReads.ReadsLatest`).
- A change that is not logged: ialloc inside a transaction, where log_write does
  nothing, and writei when its copy-in fails part way release a buffer they have
  changed.  Once the buffer is recycled the change is gone
  (`CacheLimits.UnloggedChangeLost`, `CacheLimits.UnsettledReleaseLoses`).  A
  release is safe if and only if the contents are settled
  (`CacheRuns.UnlockExact`).
- A write outside transactions: a process without an active transaction is given
  an object's stable payload although another process's transaction has shadowed
  the object.  Its write is lost when that transaction commits
  (`TxRaw.RawWriteIsLost`).  The write is harmless if and only if it changes
  nothing or every transaction that has the object is indifferent to its payload
  (`TxRaw.RawWriteExact`), and otherwise a serial order explains the outcome only
  by coincidence (`TxRaw.ExplainedExactly`, `TxRaw.RawWriteUnexplained`).  Runs in
  which objects are reached only through their shadows are serializable
  (`TxRuns.Serializable`).
- An object keeps its last transaction: nothing resets an object's writer when a
  transaction commits or aborts, so until the header is recycled every other
  transaction is refused the object, although nobody has it
  (`TxCommits.RefusedByTheDead`).  The comment in `kernel/tx.c` at lines 85-86
  means to refuse only while another transaction is active.  An access is refused
  exactly if the workset is full or another transaction has taken the object since
  the header was last recycled (`TxCommits.RefusedExactly`), and that is a conflict exactly if that transaction
  is not over (`TxCommits.RefusalIsConflict`).
- A second txbegin: it empties the workset of a running transaction, which then
  has no record of the shadows it owns (`Tx.Transaction.SysTxBegin`).
- A huge malloc: beyond a bound the byte count wraps in sbrk's int
  (`Umalloc.HugeRequestWraps`); up to it, and only up to it, it fits
  (`Umalloc.RequestFitsInt`).  malloc hands out units it never obtained if and
  only if no free block fits and the request is beyond the bound
  (`Umalloc.Heap.Malloc`).

The comments in `kernel/file.c` at lines 135-138 reserve two blocks of slop for
unaligned writes; what makes the count come out is that an unaligned first block
lies below the file's size and so is already allocated (`Fs.FirstBlock`).

## Model

| member | source | states |
|---|---|---|
| `Log.HeaderRoundTrip` | kernel/log.c:85-109 | writing a block list into the header block and reading it back gives the same list, whatever the header held before |
| `Log.CommitCrashAtomic` | kernel/log.c:188-196 | for every number k of disk writes that commit() gets done before a crash, recovery yields all old home blocks if the header is not yet written and all new ones from then on, nothing in between |
| `Log.RecoverCrash` | kernel/log.c:111-116 | recovery interrupted after any of its writes leaves a disk that recovers to the same home blocks |
| `Log.RecoverManyCrashes` | kernel/log.c:111-116 | any number of crashes inside recovery, one after another, changes nothing: the last, completed recovery gives the same home blocks |
| `Log.RecoverEmptiesHeader` | kernel/log.c:111-116 | a completed recovery leaves an empty header and well-formed blocks |
| `Log.InstallsAgain` | kernel/log.c:66-82 | installing the log again after any prefix of an installation is the same as installing once |
| `Log.CommitTraceAt` | kernel/log.c:175-196 | the k-th disk image that commit writes is the specified image, for every k |
| `Log.RecoverTraceAt` | kernel/log.c:111-116 | the k-th disk image that recovery writes is the specified image, for every k |
| `Log.CommitKeepsCache` | kernel/log.c:66-82 | the reads and writes of commit through the cache leave every cached home block as it was |
| `LogCode.CopyOut` | kernel/log.c:179-184 | one round of write_log through the buffer cache: the pinned block goes to the log block, in the cache and on disk, every reference taken is given back, and it gets through exactly if some buffer is unused |
| `LogCode.CopyHome` | kernel/log.c:73-80 | one round of install_trans: the log block goes home, the home block loses exactly the pin log_write took unless this is recovery, and no reference is dropped that may not be |
| `LogCode.Logger.WriteLog` | kernel/log.c:175-186 | the loop produces exactly the sequence of disk images of the log copies, one per block, and no other write; it fails exactly if every buffer is in use, before it has changed anything |
| `LogCode.Logger.InstallTrans` | kernel/log.c:66-82 | the loop produces exactly the installation images, reading each log block through the cache, and drops exactly the pins of the list, none in recovery |
| `LogCode.Logger.WriteHead` | kernel/log.c:99-109 | one disk write, of the in-memory block list; words beyond the list stay; references are unchanged |
| `LogCode.Logger.ReadHead` | kernel/log.c:85-94 | the in-memory list becomes the one the header block stores |
| `LogCode.Logger.RecoverFromLog` | kernel/log.c:111-116 | the disk after recovery is Recover of the disk before, and every intermediate image is one a crash lemma covers |
| `LogCode.Logger.constructor` | kernel/log.c:55-63 | starting the log runs recovery on the disk found |
| `LogCode.Logger.Commit` | kernel/log.c:188-196 | run alone, the disk writes of commit are exactly the images the crash lemmas range over, the cached home blocks do not change, the list is empty and its pins are gone; it gets through exactly if some buffer is unused when it starts, and otherwise panics at its first bread, having changed nothing |
| `LogCode.Logger.CommitNeedsABuffer` | kernel/log.c:175-196 | with nothing but the pins of its n entries in the cache, a commit gets through exactly if n < NBUF |
| `LogCode.Logger.TryBeginOp` | kernel/log.c:119-137 | an operation is admitted exactly when no commit runs and its full reservation still fits the log |
| `LogCode.Logger.LogWrite` | kernel/log.c:207-230 | absorbs a block already logged without a pin, else appends it and takes exactly one pin; fails exactly when the log already has LOGBLOCKS entries or no operation is open; inside a user transaction nothing is logged or pinned |
| `LogCode.Logger.EndOp` | kernel/log.c:141-172 | the last operation to end runs the whole commit, and only then; it fails exactly during a commit or where that commit finds no buffer |
| `LogRuns.StepRefines` | kernel/log.c:119-230 | every step of begin_op, modification, log_write, end_op, each single commit or recovery disk write, and a crash at any point keeps the invariant and does to an atomic store what that event means: only the write of a commit header makes anything durable, and then everything; nobody stores into a listed block while a commit lasts |
| `LogRuns.ReservationInEveryRun` | kernel/log.c:119-172 | in every state of every run: log_write has not panicked, entries plus unused budgets fit the log, entries distinct, nothing outstanding during a commit |
| `LogRuns.RecoveredStateIsABoundary` | kernel/log.c:111-196 | in every run with any crashes, what recovery brings back is exactly the cache at some earlier moment when no operation was in progress, and not before the last moment at which the log served with no operation open |
| `LogRuns.CurrentIsTold` | kernel/log.c:207-230 | in every run, between crashes, the blocks hold what the modifications among the events, in order, have put there |
| `LogRuns.CrashKeepsWholeOperations` | kernel/log.c:111-196 | after a crash the blocks are those that the modifications up to one moment with no operation open had left, none later than it and none of before it missing; that moment is not before the last quiet one |
| `LogRuns.ReservationHolds` | kernel/log.c:119-137 | an operation that has added fewer than MAXOPBLOCKS entries finds room in the log |
| `LogRuns.FewBlocksAreDisciplined` | kernel/log.c:207-230 | in every run, an operation that has handed fewer than MAXOPBLOCKS distinct blocks to log_write has added fewer than MAXOPBLOCKS entries, however often it repeats them and whatever others log |
| `LogRuns.QuiescentMeansDurable` | kernel/log.c:141-172 | whenever the log serves and no operation is open, its list is empty and a crash loses nothing |
| `LogRuns.FullLogPanics` | kernel/log.c:214-216 | a run in which no operation ever logs more than MAXOPBLOCKS distinct blocks, but one logs one of its own blocks again when the log is full, panics: the budget must be strict at every log_write |
| `Tx.InsertedSorted` | kernel/tx.c:112-121 | inserting by bubbling keeps the workset strictly sorted and adds exactly one header |
| `Tx.InsertedElements` | kernel/tx.c:98-121 | the new workset is the old one plus the new entry, as multisets |
| `Tx.Transaction.FindWorksetEntry` | kernel/tx.c:25-39 | binary search succeeds exactly if a linear search would |
| `Tx.Transaction.Insert` | kernel/tx.c:98-121 | the in-place bubbling loop leaves the specified sorted insertion |
| `Tx.Transaction.TxShadow` | kernel/tx.c:71-124 | a later access finds the same shadow; a first access is refused exactly when the workset is full or another transaction has the object; otherwise it copies the payload and records ownership |
| `Tx.Transaction.SysTxBegin` | kernel/systx.c:6-28 | a transaction starts with an empty workset and keeps track of every shadow it owns exactly if it had none: a txbegin inside a transaction that has accessed objects loses track of their shadows |
| `Tx.Transaction.SysTxCommit` | kernel/systx.c:30-68 | every object of the workset has its shadow as payload and no other pointer has moved; exactly the old payloads of those objects are freed; the locks are taken in address order and all come back |
| `Tx.Transaction.SysTxAbort` | kernel/systx.c:70-98 | no payload pointer moves, exactly the shadows are freed, the locks are taken in address order and all come back |
| `Tx.SwapSeesOld` | kernel/systx.c:46-52 | the swap loop frees each old payload exactly once: it never meets a pointer it has already moved |
| `TxRuns.Serializable` | kernel/tx.c:71-124 | in every interleaving of any number of transactions, whenever no commit is half swapped, the stable state is that of running the committed journals one after another in commit order, and every committed read saw what that serial run shows |
| `TxRuns.ExclusiveInEveryRun` | kernel/tx.c:85-95 | in every reachable state no object is in two live worksets |
| `TxRuns.NoAliasing` | kernel/tx.c:97-110 | in every reachable state no two objects share a payload page and no shadow page is anybody's payload |
| `TxCommits.HistoryIsTold` | kernel/systx.c:30-68 | in every run the serial order is the one its events tell: a record for each transaction that got all its locks after asking to commit, with its accesses since txbegin, and for each write outside transactions, and no other |
| `TxCommits.CommitIsRecorded` | kernel/systx.c:30-68 | every transaction that goes from txcommit to its end gets its place in the serial order in between, exactly once, with exactly the accesses it made since txbegin |
| `TxCommits.SwappedInEveryRun` | kernel/systx.c:46-68 | in every run, from the end of the swap loop to the end of the transaction, every object of its workset has the shadow as its payload |
| `TxCommits.NoPageLost` | kernel/systx.c:46-98 | in every run that starts with the payloads alone, every allocated page is the payload of an object or the shadow of a live workset entry; with nobody in a transaction, exactly the payloads are allocated |
| `TxCommits.WriterIsTaker` | kernel/tx.c:85-95 | in every run the writer of an object is the transaction that took it last since its header was recycled, whether that transaction is over or not |
| `TxCommits.RefusedExactly` | kernel/tx.c:80-110 | in every run a first access is refused if and only if the workset is full or another transaction has taken the object since its header was recycled; otherwise the workset gets the object with a copy of its payload |
| `TxCommits.RefusalIsConflict` | kernel/tx.c:85-93 | with room in the workset, an access is refused although no other transaction has the object if and only if the transaction that took it is over |
| `TxCommits.RefusedByTheDead` | kernel/tx.c:85-94 | a run from the initial state in which an access is refused while nobody else is in a transaction |
| `TxSteps.StepKeeps` | kernel/systx.c:30-98 | every single step, each loop iteration of commit and abort included, keeps ownership, agreement with the serial state and the ability of every open transaction to run alone |
| `TxSteps.CommitPointKeeps` | kernel/systx.c:39-45 | with its last lock a transaction takes its place in the serial order without disturbing the others |
| `TxSteps.SwapKeeps` | kernel/systx.c:46-52 | each pointer swap keeps every object equal to its serial value |
| `TxSteps.OpenSeesSerialValue` | kernel/tx.c:107-110 | the payload copied on a first access is the current serial value |
| `TxRuns.LocksNeverContended` | kernel/systx.c:41-45 | an object lock a commit or abort wants is never held by another transaction |
| `TxRaw.RawWriteExact` | kernel/tx.c:129-138 | for every reachable state, object and value: a write by a process outside any transaction takes its place in the serial order without disturbing the invariant if and only if it changes nothing, or every transaction that has the object has stored into its copy before reading it, unless it is aborting, and has no swap of it ahead |
| `TxRaw.RawWriteIsLost` | kernel/tx.c:282-299 | whatever is written outside a transaction to an object a transaction has shadowed, and whatever everybody does meanwhile, the commit leads to the very state it would have led to without the write |
| `TxRaw.ExplainedExactly` | kernel/systx.c:46-52 | some serial order of the lost write and the committed transaction explains what was read and what is left if and only if the write changed nothing, the transaction stored into the object before reading it, or the write stored what the transaction leaves |
| `TxRaw.RawWriteUnexplained` | kernel/tx.c:133-137 | a run from the initial state in which neither order explains the outcome |
| `LockOrder.WaitsIncrease` | kernel/systx.c:41-57 | in the lock phases a waiting transaction wants a header above all it holds |
| `LockOrder.NoDeadlock` | kernel/systx.c:41-57 | the wait-for relation of the lock phases has no cycle |
| `LockOrder.LockKeeps` | kernel/systx.c:41-45 | taking the next lock of a sorted workset keeps every lock with the one transaction that has it |
| `LockOrder.UnlockKeeps` | kernel/systx.c:53-57 | and so does giving the next one back |
| `LockOrder.SomeoneProceeds` | kernel/systx.c:79-88 | as long as a lock or unlock is still to come, some transaction can do its next one, which leaves one less: everybody gets through in any order, overlapping worksets included |
| `FsImage.WordPut` | kernel/fs.c:428-436 | a word put in an indirect block is read back there and nowhere else |
| `FsImage.Disjoint` | kernel/fs.c:404-442 | no two direct slots, indirect words or indirect pointers of any inodes refer to the same block |
| `FsImage.AllocSlot` | kernel/fs.c:409-427 | a zeroed free block linked into an empty slot keeps ownership exact and moves no byte of any file |
| `FsImage.AllocWord` | kernel/fs.c:428-436 | the same for a word of the indirect block |
| `FsImage.DataBlockWrite` | kernel/fs.c:543-550 | writing a file block changes that file there and no other file |
| `FsImage.Truncate` | kernel/fs.c:446-478 | an inode cleared of its blocks leaves all other files and their blocks as they were |
| `Bitmap.MarkUsed` | kernel/fs.c:66-70 | setting a block's bit changes that bit and no other, across bytes |
| `Bitmap.ClearUsed` | kernel/fs.c:88-92 | clearing a block's bit changes that bit and no other |
| `Fs.FileSystem.Balloc` | kernel/fs.c:59-80 | returns 0 exactly if no block is free; otherwise the lowest free block, which no inode refers to, marked and zeroed |
| `Fs.FileSystem.Bfree` | kernel/fs.c:83-95 | clears exactly one bit; fails exactly where the block is already free |
| `Fs.FileSystem.Bmap` | kernel/fs.c:404-442 | the result is the file's block, allocated if there was none; no byte of any file moves; 0 only if no block is free, and an existing block changes nothing at all |
| `Fs.FileSystem.Readi` | kernel/fs.c:495-520 | nothing if off is past the size or off + n wraps; otherwise the bytes of the flat contents from off on, n of them or all up to the size if those are fewer, also across the direct/indirect boundary, and -1 exactly if the destination does not take them all; nothing changes |
| `Fs.FileSystem.WriteThenReadAll` | kernel/fs.c:495-563 | a read of at least the rest of the file after a write returns what was written followed by what the file already held after it |
| `Fs.FileSystem.Writei` | kernel/fs.c:529-563 | the flat contents become the splice of all of src, or, only when no block is free, of a prefix; other files keep theirs; -1 exactly if off is past the end or the range past MAXFILE; the blocks logged stay within the budget |
| `Fs.WriteStep` | kernel/fs.c:539-552 | one loop round splices exactly its bytes into the file |
| `Fs.WithinRound` | kernel/fs.c:539-552 | one loop round logs its data block, at most one bitmap block unless the block existed, and at most one indirect block and its bitmap block in the whole write |
| `Fs.ChunkBudget` | kernel/file.c:135-139 | a chunk of at most 3 blocks at any offset logs at most MAXOPBLOCKS blocks, the inode included |
| `Fs.FileSystem.Itrunc` | kernel/fs.c:446-478 | the file becomes empty, exactly its blocks become free, each freed once, so the panic for freeing a free block is not reached; other files keep their contents |
| `Fs.FileSystem.Filewrite` | kernel/file.c:122-165 | the bytes the offset moved over are spliced into the file; unless the disk is full they are exactly the whole chunks below MAXFILE, or all; each begin_op/end_op operation logs at most MAXOPBLOCKS distinct blocks and fewer at every log_write, under any bitmap layout |
| `Fs.SpliceTwice` | kernel/file.c:141-158 | writing in chunks is writing |
| `Fs.WriteThenRead` | kernel/fs.c:495-563 | a slice of a splice over the same range is the data written |
| `Fs.SpliceOverwrites` | kernel/fs.c:529-563 | the splice has the length both need, the data in its range and the old bytes everywhere else |
| `PageTable.RawRoundTrip` | kernel/riscv.h:281-292 | page number and flags are read back from a stored word as they were put |
| `PageTable.IndexBijection` | kernel/riscv.h:295-303 | the three 9-bit indices and the page numbers below 2^27 determine each other |
| `PageTable.EntriesApart` | kernel/riscv.h:295-303 | no two pages of any address spaces share an entry: a table and an index in it belong to one page of one root |
| `PageTable.HardwareSeesLeaf` | kernel/vm.c:83-106 | Sv39 translation over the stored words, three indexed reads with valid and leaf bits, ends at the word of the flat map for a mapped page and faults on every other page |
| `PageTable.TableAtFound` | kernel/vm.c:90-106 | a walk from a root ends at the one table with that place, or nowhere |
| `PageTable.LinkKeeps` | kernel/vm.c:98-103 | linking a zeroed table page keeps every table in its one place |
| `PageTable.LinkLeaf` | kernel/vm.c:98-103 | and changes the flat map of no root |
| `PageTable.StoreLeaf` | kernel/vm.c:138-164 | writing a leaf changes the flat map of one root at one page |
| `Vm.Memory.Kalloc` | kernel/kalloc.c:62-74 | takes the head of the free list or reports that there is none; the partition of memory stays exact |
| `Vm.Memory.Kfree` | kernel/kalloc.c:42-57 | returns a page to the free list; the partition of memory stays exact |
| `Vm.Memory.Walk` | kernel/vm.c:90-106 | finds the entry's table; with allocation it adds at most two table pages, changes no root's flat map, and fails only when fewer than two pages were free |
| `Vm.Memory.Mappages` | kernel/vm.c:134-165 | maps exactly the requested range, or a prefix of it if there are not two free pages for each page mapped and the next, and changes no other entry of any root |
| `Vm.Memory.Uvmcreate` | kernel/vm.c:169-176 | a fresh root that maps nothing; other roots map what they mapped |
| `Vm.Memory.Uvmunmap` | kernel/vm.c:181-199 | unmaps exactly its range, frees exactly its user pages if asked to, and touches nothing else |
| `Vm.Memory.Uvmalloc` | kernel/vm.c:203-226 | success maps exactly the pages between the sizes, each to a page that was free and reads zero in every byte, with the given permissions, and changes no other mapping and no page in use; failure leaves every mapping and every user page as before and means that there were not three free pages for each page of the range |
| `Vm.Memory.Uvmdealloc` | kernel/vm.c:232-242 | unmaps and frees exactly the pages above the new size |
| `Vm.Memory.Uvmcopy` | kernel/vm.c:276-302 | success gives the child, for each page of the range that the parent maps, the same permissions and a page of its own with the same contents, nothing where the parent maps nothing, and changes no other mapping and no page in use; failure restores the child's mappings and means that there were not three free pages for each page of the range |
| `Vm.Memory.Freewalk` | kernel/vm.c:246-260 | recursively frees exactly the tables under a table, each once, without reaching the leaf panic |
| `Vm.Memory.Uvmfree` | kernel/vm.c:264-268 | every table and user page of the process becomes free, each once, and the rest of memory is as before |
| `VmState.MapUser` | kernel/vm.c:203-226 | mapping a page nothing maps yet keeps every user page mapped exactly once |
| `VmState.ClearedInv` | kernel/vm.c:181-199 | unmapping keeps every remaining user page mapped exactly once, and free and table pages never |
| `VmState.WithTableOk` | kernel/vm.c:98-103 | taking a free page as a table keeps the partition of memory and every mapping |
| `VmFill.FillNext` | kernel/vm.c:211-224 | page by page, the range holds what is wanted in fresh pages |
| `VmFill.FillUndone` | kernel/vm.c:213-223 | taking the pages of a failed growth back leaves the memory as it was but for table pages |
| `VmFree.Reached` | kernel/vm.c:246-260 | every table under a table is reached through its entries, so none is leaked |
| `VmFree.GoneInv` | kernel/vm.c:264-268 | removing an empty root keeps all other processes' tables and pages in order |
| `VmCopy.Vmfault` | kernel/vm.c:422-441 | a promised page is added zeroed; no process sees any byte change; 0 only for an address past the size, a page that is there, or fewer than three free pages |
| `VmCopy.Copyout` | kernel/vm.c:318-348 | the process sees src at the range, or a prefix if it stops; it stops only at a byte the process may not touch or write, or at a promised page with too few free pages; no other byte of any process changes, lazily created pages included |
| `VmCopy.Copyin` | kernel/vm.c:354-375 | returns exactly the bytes the process sees, zero for promised pages; fails only at a byte the process may not touch, or at a promised page with too few free pages |
| `VmCopy.CopyRoundTrip` | kernel/vm.c:318-375 | whatever a successful copyout stores, copyin of the range returns |
| `VmCopy.PokedView` | kernel/vm.c:343 | a byte written through one process's page is seen by that process at that address only |
| `VmCopy.CopiedSees` | kernel/vm.c:276-302 | after uvmcopy the child sees every byte of its size as the parent sees it, promised pages included, and everybody else sees what they saw |
| `VmCopy.ExtendedSees` | kernel/vm.c:203-226 | after uvmalloc a process sees zeros in the pages it got, what it saw elsewhere, and nobody else sees a difference |
| `VmCopy.ClearedSees` | kernel/vm.c:181-199 | after its pages are unmapped a process sees nothing there, what it saw elsewhere, and nobody else sees a difference |
| `ProcRuns.MutualExclusion` | kernel/sleeplock.c:19-35 | in every interleaving a sleeplock has at most one holder, the one its fields name |
| `ProcRuns.NoLostWakeup` | kernel/sleeplock.c:19-35 | in every interleaving, when the inner spinlock is free and the lock is not held, no process is asleep on it or committed to sleeping |
| `ProcRuns.NoMissedExit` | kernel/proc.c:346-389 | in every run of fork, exit, reparent, kill and wait, when wait_lock is free no process asleep in kwait has a zombie child |
| `ProcFamilies.NoDeadParents` | kernel/proc.c:290-342 | in every run every process but init has a parent that has neither exited nor begun to die; a process that hands its children to init has none left among the slots it has passed |
| `ProcFamilies.ExitedHasNoChildren` | kernel/proc.c:290-342 | in every run a process that has exited, and a free slot, is nobody's parent |
| `ProcFamilies.WaitFailsExactly` | kernel/proc.c:346-389 | in every run kwait gives up exactly if its caller is killed or has no child, and goes to sleep only if it has children, none of them a zombie |
| `ProcFamilies.SlotsBalance` | kernel/proc.c:241-389 | in every run as many slots are in use as forks have begun, less those that failed and those reaped, plus init |
| `ProcFamilies.SetUpByOneFork` | kernel/proc.c:241-284 | in every run a slot that is taken but has not started belongs to exactly one fork |
| `ProcFamilies.KeepsFamily` | kernel/proc.c:241-389 | no step gives a process a dead parent, lets a scan forget a child it has passed, or lets two forks share a slot |
| `ProcTold.HeldIsTold` | kernel/sleeplock.c:19-35 | in every run a process holds exactly the sleeplocks it has acquired and not released, told from its calls |
| `ProcTold.OneHolder` | kernel/sleeplock.c:19-35 | in every run at most one process has acquired a sleeplock and not released it |
| `ProcTold.AcquireExactly` | kernel/sleeplock.c:19-27 | in every run acquiresleep goes on exactly if nobody has the lock, after which its caller has it, and goes to sleep exactly if somebody else has it |
| `ProcTold.KilledIsTold` | kernel/proc.c:554-571 | in every run a process is marked killed if and only if somebody has killed it since its slot was taken, and a kill leaves its victim awake |
| `ProcRuns.SpinExclusion` | kernel/proc.c:508-533 | a spinlock is held by the one process the code says holds it |
| `ProcRuns.StepKeeps` | kernel/proc.c:241-389 | every one of the 34 atomic steps of sleep, wakeup, the sleeplock, fork, kwait, kexit, reparent and kkill keeps the invariant |
| `ProcSteps.KeepsExit` | kernel/proc.c:290-342 | no step leaves a waiting parent without the wakeup its exiting child owes it |
| `ProcSteps.KeepsPassed` | kernel/proc.c:537-549 | a wakeup scan that has passed a sleeper leaves it awake |
| `ProcSteps.KeepsLock` | kernel/sleeplock.c:19-35 | through every step the locked flag follows its holder, and a process that sleeps on a free lock has a releaser that has yet to scan it |
| `ProcSteps.KeepsScan` | kernel/proc.c:346-389 | children that kwait has looked at cannot turn zombie behind its back, and no slot is set up by two forks |
| `Umalloc.FreedSound` | user/umalloc.c:24-42 | free keeps the blocks tiling the heap, the list ascending and fully coalesced, and takes exactly the freed block from the program |
| `Umalloc.StopsAtSlot` | user/umalloc.c:28-30 | free's search stops at the block's place in address order and nowhere else, wrap point included |
| `Umalloc.FreedRing` | user/umalloc.c:31-41 | the pointer updates leave one circular list in the new order |
| `Umalloc.RequestFitsInt` | user/umalloc.c:44-50 | the byte count asked of sbrk fits its int exactly for requests up to a bound |
| `Umalloc.HugeRequestWraps` | user/umalloc.c:44-50 | the largest request makes malloc obtain a single unit and record 2^28 + 1 of them |
| `Umalloc.FreedFits` | user/umalloc.c:31-41 | if no free block was large enough before a block is freed, one that is afterwards contains that block and ends within one request of it |
| `Umalloc.Heap.Free` | user/umalloc.c:24-42 | exactly the freed block leaves the program; everything else it holds stays; the search ends |
| `Umalloc.Heap.MoreCore` | user/umalloc.c:44-57 | adds the units asked for as free units, obtains from sbrk the units its int argument stands for, and leaves no block that fits other than the one that contains them |
| `Umalloc.Heap.Malloc` | user/umalloc.c:59-84 | hands out exactly the units needed, disjoint from everything held; asks sbrk once and only if nothing fits; fails only if sbrk then fails; units are conserved; the units handed out were all obtained from sbrk if and only if a free block fitted or the request is at most 2^31 - 32 bytes |
| `Lru.Unlink` | kernel/bio.c:122-123 | the two pointer updates take a node out of the ring |
| `Lru.Insert` | kernel/bio.c:124-127 | the four pointer updates put a node behind the head |
| `Bio.RecycledSafe` | kernel/bio.c:77-86 | recycling an unused buffer loses no block's latest contents |
| `Bio.LoadedSafe` | kernel/bio.c:92-101 | a buffer that somebody refers to and that has not been read holds the latest contents once it is read |
| `Bio.DroppedSafe` | kernel/bio.c:112-143 | giving a reference back keeps every block's latest contents safe from recycling if and only if another reference is left or the contents are on disk |
| `Bio.AllInUse` | kernel/bio.c:75-88 | every buffer is in use exactly when as many distinct blocks are referred to as there are buffers |
| `Bio.Cache.constructor` | kernel/bio.c:36-55 | the list holds every buffer once |
| `Bio.Cache.Bget` | kernel/bio.c:60-89 | finds the one buffer that caches the block, else recycles the least recently released unused one; panics exactly when nobody refers to the block and NBUF other blocks are referred to; changes no block's latest contents |
| `Bio.Cache.Bread` | kernel/bio.c:92-101 | the buffer holds the latest contents of the block, written or only logged, despite any evictions; exactly one reference is added |
| `Bio.Cache.Bwrite` | kernel/bio.c:104-108 | afterwards the disk has the block's latest contents |
| `Bio.Cache.Brelse` | kernel/bio.c:112-131 | drops one reference; the last release makes the buffer the most recently released, the list stays a permutation ordered by release time, and the cache stays safe if and only if the reference may go |
| `Bio.Cache.Bpin` | kernel/bio.c:133-137 | a pinned buffer stays in use |
| `Bio.Cache.Bunpin` | kernel/bio.c:139-143 | drops one reference and leaves the list alone; the cache stays safe if and only if the reference may go |
| `CacheRuns.StepKeeps` | kernel/bio.c:60-143 | every step of bget, the sleeplock, changes, log_write, bwrite, brelse, begin_op, end_op, write_log, install_trans and the pins, swaps and records of transactions, in any interleaving, keeps the count of references exact, the log blocks equal to what was copied to them, and every unsaved change pinned by one log entry, held by the process that made it, or pinned by the transaction that swapped it in |
| `CacheRuns.LoggedPins` | kernel/log.c:220-228 | a new log entry pins its block once, an absorbed one takes no pin, and no other block is affected |
| `CacheRuns.UnlockExact` | kernel/bio.c:112-116 | letting a buffer go keeps the invariant if and only if its contents are on disk, in the log, or swapped in by a transaction that has yet to log them; a holder that logs or writes its changes always meets this |
| `CacheRuns.MayDrop` | kernel/bio.c:118-143 | whenever brelse, install_trans or a transaction's commit or abort gives a reference back, another one is left or the contents are on disk |
| `CacheReads.InstallExact` | kernel/log.c:66-82 | in every state that satisfies the invariant, install_trans puts the copied contents over the latest ones, so it leaves them alone if and only if they are equal |
| `CacheReads.InstallSince` | kernel/log.c:66-82 | in every run, the install of an entry leaves the block alone if and only if nothing was stored into it since its copy to the log, or what was stored last equals the copy |
| `CacheReads.ReadsLatest` | kernel/bio.c:92-101 | in every run in which nobody stores into a block between its copy to the log and its copy home, whatever is evicted, committed or swapped in, a process that reads a block finds what was stored in it last, or what the disk held at the start; an install does not count as a store |
| `CacheReads.OperationsDoNotDisturb` | kernel/log.c:119-170 | in every run, whoever stores into a block between its copy to the log and its copy home does so while no operation is open |
| `CommitRace.SwapIsLost` | kernel/systx.c:46-52 | a run from a machine that has just come up in which a transaction swaps its shadow in between the two halves of a log commit, install_trans puts the old contents back, and the next reader finds them although the swap came last |
| `CacheRuns.DropsAreSafe` | kernel/log.c:73-80 | in every state of every run the references given back by brelse and bunpin may go, and the cache is safe afterwards |
| `CacheRuns.CountsInEveryRun` | kernel/bio.c:26-34 | in every run a buffer's reference count is the number of processes that use its block, plus its shadow, plus one pin if the log has it |
| `CacheTold.ToldInEveryRun` | kernel/bio.c:60-143 | in every run, up to a panic, the events tell who waits for, holds and is leaving which buffer, which blocks are shadowed, what the log lists, what every block holds and what of it is on disk |
| `CacheTold.HolderSeesTold` | kernel/bio.c:92-101 | in every run whoever holds a buffer has in it what was put into its block last |
| `CacheLimits.UnsettledReleaseLoses` | kernel/fs.c:193-199 | from any state in which a buffer is changed but neither logged nor written, as ialloc leaves it inside a transaction, a release leads to a read of the old contents |
| `CacheLimits.UnloggedChangeLost` | kernel/fs.c:193-199 | the same as a whole run of eight steps from a machine that has just come up |
| `CacheLimits.CommitFindsBuffer` | kernel/log.c:175-186 | in every reachable state with nothing else held, bget of a log block at the start of a commit of n entries succeeds if and only if n < NBUF |
| `CacheLimits.FullLogCommitPanics` | kernel/bio.c:88 | a run in which three operations log exactly what they have reserved, which fills the log and pins every buffer, so that the commit's first bread of a log block panics |
| `Virtio.Queue.AllocDesc` | kernel/virtio_disk.c:154-162 | the lowest free descriptor, or -1 exactly if none is free |
| `Virtio.Queue.FreeDesc` | kernel/virtio_disk.c:165-176 | fails exactly for a descriptor out of range or already free |
| `Virtio.Queue.FreeChain` | kernel/virtio_disk.c:179-189 | ends, freeing and clearing exactly the descriptors of its chain, without a panic |
| `Virtio.Queue.Alloc3Desc` | kernel/virtio_disk.c:193-203 | three descriptors, or none taken and then there are not three free |
| `VirtioRuns.StepKeeps` | kernel/virtio_disk.c:205-313 | every step of submitting threads, interrupt handler and device, in any order, keeps chains laid out, phases, rings and buffer flags consistent |
| `VirtioRuns.DescriptorsPartition` | kernel/virtio_disk.c:154-203 | in every run each descriptor is free or belongs to exactly one chain in flight; no panic is reached |
| `VirtioRuns.RingsNeverOverwritten` | kernel/virtio_disk.c:259-265 | in every run both rings hold exactly what was queued and not read, at most two entries, also when the 16-bit indices wrap |
| `VirtioRuns.DeviceDoesRequest` | kernel/virtio_disk.c:223-260 | what the descriptors tell the device is the request that was submitted, the payload marked for its direction, so the device carries it out |
| `VirtioRuns.IntrFindsCompletion` | kernel/virtio_disk.c:298-310 | the handler finds a completed chain, a good status and a pointer to the chain's own buffer, never null |
| `VirtioRuns.ReapOwnChain` | kernel/virtio_disk.c:271-277 | a thread that sees its buffer done frees exactly its own finished chain |
| `VirtioRuns.ReapIsFreeChain` | kernel/virtio_disk.c:276-277 | what the step does to the descriptors is what free_chain does to them |
| `VirtioRuns.RunRefines` | kernel/virtio_disk.c:205-313 | every run is a run of an atomic disk: each request is carried out once, a write by putting its buffer on its block and a read by filling its buffer from it, between submission and return |
| `VirtioServes.TransferExactly` | kernel/virtio_disk.c:223-277 | in every run a completion does exactly the transfer of the request submitted, in its direction; no other step touches a buffer or a block; only a request whose completion the handler has seen returns |
| `VirtioServes.RequestServed` | kernel/virtio_disk.c:205-279 | a request that returns has been carried out exactly once since its submission: a write has put what the buffer held at submission on its block, a read leaves in the buffer, up to its return, what the block held, and nothing else has changed |
| `VirtioServes.BufferWaits` | kernel/virtio_disk.c:250-310 | in every run a buffer is marked as with the disk from submission until the handler has seen its completion |
| `VirtioRuns.NeverThree` | kernel/virtio_disk.c:191-203 | at most two chains are ever in flight |
| `Grep.Match` | user/grep.c:68-76 | true exactly when some substring, or a prefix under a leading ^, is in the declared language of the pattern |
| `Grep.MatchHere` | user/grep.c:79-89 | true exactly when a prefix of the text is in the language |
| `Grep.MatchStar` | user/grep.c:92-98 | true exactly when some run of the starred character is followed by a match |
| `Grep.ManyAt` | user/grep.c:92-98 | the declared language of c* unrolls as the loop does |

The remaining members are the definitions these contracts use and the steps of
their proofs.  Most lemmas of `ProcSteps` show for one group of steps and one
clause of the invariant what the dispatching `Keeps...` lemma states for all.

## Left out

- User transactions in the file system: iupdate and itrunc while a transaction is active, which defer their disk writes, and with them crash atomicity of whole user transactions.
- tx_abort_now: the undo list and the jump back to the system call entry; retries and statistics of transactions.
- TxRuns.Serializable: in its runs a transaction that has begun commits or aborts before it begins again; `Tx.Transaction.SysTxBegin` states what a second txbegin does.  Payloads change only through the steps of the transaction layer, so an install_trans that overwrites a swapped-in buffer is outside of it; `CommitRace.SwapIsLost` has that run.
- Object locks taken outside transactions: in `LockOrder` and `TxRuns` only commits and aborts take them.
- LogRuns.StepRefines: in its runs nobody stores into a listed block while a commit lasts.  Operations keep to that, as none is open then; a transaction's commit need not.  `CacheRuns` has every interleaving of the two.
- LogCode.Logger.Commit: runs alone, with a cache that nobody else modifies meanwhile.
- Locks around single operations of the buffer cache, the file system, the page allocator and the descriptor table: each modelled method runs alone; sleeping for a free descriptor or log space is a refused attempt.
- LogCode.Logger.TryBeginOp: one round of begin_op's loop; the sleep and retry around it are not modelled.
- Inode allocation, the inode table and its reference counts, directories, path names, link counts, pipes, file descriptors, exec, system call arguments.
- Tx.Transaction.SysTxCommit: the commit_fn loop, whose iupdate and iput are not modelled; buf_commit's log_write and bunpin are steps of `CacheRuns`.
- Tx.Transaction.SysTxAbort: of the abort_fn loop only the freeing of shadows; buf_abort's bunpin is a step of `CacheRuns`, its bfree and inode_abort's iput are not modelled.
- CacheRuns: a transaction's lock, swap and unlock of one buffer are one step; crashes, which `LogRuns` has, are left out.
- Fs.FileSystem.Writei: every copy-in is assumed to succeed; a failing one stops the loop with the block changed but not logged.
- Fs.FileSystem.Filewrite: the branch for inodes only, with a length that is not negative and a file that is writable; pipes and devices are not modelled.
- Fs.FileSystem.Itrunc: the blocks it logs are bounded by the bitmap's own blocks and the inode block, not by MAXOPBLOCKS.
- Bio.Cache.Bget: block numbers of device 0 are not looked up.
- Vm.Memory.Mappages: takes page numbers, so the panics for misaligned addresses cannot arise; a size of zero and a remapped page, which panic, are excluded by its precondition.
- Vm.Memory.Uvmunmap: takes page numbers, like mappages; the pages of its range must all be user pages if they are to be freed and none if not.
- Vm.Memory.Kfree: the fill with junk is not kept for free pages; freeing a page that some table still maps, as freeproc does with the trapframe just before unmapping it, is outside the invariant.
- copyinstr, uvmclear, the kernel's own page table, the trampoline's contents, TLB flushes.
- ProcRuns.NoMissedExit: a safety result; that the scheduler eventually runs a runnable process is not modelled.
- Proc: interrupts, yield by timer and per-CPU state; a process that runs may be preempted between any two steps.
- Umalloc.Heap.Malloc: header sizes are unbounded, and sbrk returns aligned memory above the base header that neither it nor the headers had before; a negative byte count, with which sbrk gives memory back, counts as obtaining nothing.
- Grep.Match: grep's line buffering and file reading around the matcher.
- Device set-up, register access, memory fences, queue notification and interrupt acknowledgement of the disk; the device is assumed to carry out every well-formed chain and to report success.
- Console, UART, PLIC, traps, boot and mkfs.
