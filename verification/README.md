# Verified models of xv6

A Dafny model of the parts of this xv6-riscv kernel and user space whose correctness is hardest to
see by reading: the crash-safe storage stack, the sleep/wakeup and process protocols, the virtio
driver, virtual memory, and four user programs. Each part takes the form of its source: classes
with methods that update fields in place for the kernel's data structures, transition systems for
code whose point is interleaving, functions and methods for parsers and matchers. `dafny verify
dfyconfig.toml` checks the whole project.

## How the parts fit together

**Storage.** `CrashSafety` treats the log as a sequence of atomic block writes and says what a crash
after any prefix leaves, over whole runs and with crashes inside recovery. `BufferCache` is the
doubly linked LRU list, reference counts, pins and contents; `Log` runs commit and recovery on
top of it and is proved to issue exactly the write sequences `CrashSafety` reasons about.
`LogClient` is the discipline of its users, from boot to a committed transaction. `Reservation` is
the begin_op/log_write/end_op protocol over any interleaving, and `Footprint` how much of it
operations use. `FsSpec`, `Truncation` and `Fs` are block allocation, inodes and file contents
inside a transaction. `Consistency` and `Histories` join the layers: file writes, updates of several
operations that share a transaction, truncations, cache evictions, panics and crashes in any commit
or recovery, in any number and order, leave a sound file system that holds exactly the transactions
that took effect. `Mkfs` lays out the disk from which such histories start.

**Processes.** `SleepLock` models acquiresleep, releasesleep, sleep, wakeup and kill with every
spinlock explicit; it justifies treating "release the lock and sleep" as one step in `Pipe`.
`ExitWait` is fork, exit, wait and reparent. `Virtio` is the driver and the device.

**Memory.** `PageTable` is the three-level tree and the flat map it stands for, `Vm` the physical
page allocator and the routines of vm.c, `AddressSpaces` the address spaces of all processes.

**User space.** `Umalloc`, `Shell`, `Grep` and `Primes`.

## Conventions

- A disk is a sequence of 1024-byte blocks; a crash keeps the disk and nothing else.
- A method of a class is one critical section, or one use of an object whose sleep lock the caller
  holds; a run is any sequence of calls. Transition systems have an `Enabled`/`Next` pair, and a
  theorem about `Run`, which is any interleaving.
- Spinlocks give mutual exclusion; a process switch is atomic.
- 32-bit and 16-bit counters wrap explicitly. Integers are otherwise unbounded.
- Where the kernel panics because its caller broke a rule (unmapping an unmapped page, freeing a
  bad page), the rule is a precondition, and callers are proved to keep it. Panics that depend on
  the state (log_write's "too big a transaction", bfree's "freeing free block", balloc's "out of
  blocks", the parser's) are results.
- Devices, memory contents supplied by users, failing copies, sbrk's answers and read sizes are
  parameters.

## Where the code does not do what it is meant to do

Each of these has a concrete run and the exact condition on the arguments.

- The log region has LOGSIZE blocks including its header block, so log_write refuses at 29 blocks
  while begin_op admits reservations up to 30: operations can meet the panic exactly when they use
  the full advertised budget of MAXOPBLOCKS (`Reservation.FullBudgetPanics`,
  `Reservation.PanicIffFullBudget`). On a disk with one free-map block, such as mkfs makes, file
  writes and truncations use at most 7 (`Footprint.OneMapNeverPanics`). itrunc keeps to MAXOPBLOCKS
  on every file exactly if fewer than MAXOPBLOCKS free-map blocks cover the data
  (`Footprint.TruncFitsIff`).
- writei releases a buffer it changed without logging it when the copy from user space fails:
  `Mkfs.UnloggedWrite` is such a call, and `Fs.FileSystem.Writei` states for which arguments it
  happens. Only file data can be lost that way: every transaction still takes a sound disk to a
  sound one (`Fs.FileSystem.Filewrite`).
- pipewrite returns without waking readers when it finds it was killed: a reader can stay asleep
  with bytes in the pipe. `Pipe.LostWakeup` is such a run, and `Pipe.Pipe.Write` says for which
  states and arguments it happens.
- growproc adds in 32 bits: a sum outside 0 .. 2^32-1 leaves the size alone and still reports
  success (`AddressSpaces.ShrinkBelowZero`, `AddressSpaces.Kernel.Growproc`).
- grep stops at the first line longer than 1022 bytes: `Grep.LongLineHidesMatch` is an input whose
  second line matches and is not printed. It prints every matching newline-terminated line exactly
  if no line from the first overlong one on matches (`Grep.OutputUpToLong`).
- morecore's byte count is narrowed to int: `Umalloc.LargestRequest` gives the exact largest
  request for which sbrk is asked for the right amount, and the first that fails.

## Model

| member | source | states |
|---|---|---|
| `CrashSafety.ApplyIsFinal` | kernel/log.c:69-83 | a block's contents after a sequence of block writes are those of the last write to it |
| `CrashSafety.RedoAbsorbsPrefix` | kernel/log.c:69-83 | redoing a whole list of writes after any prefix of it gives the same blocks as doing it once: installing is idempotent |
| `CrashSafety.HeaderCommits` | kernel/log.c:103-114 | after the log blocks and the header are written, the log on disk reads back exactly the transaction |
| `CrashSafety.CrashBeforeHeader` | kernel/log.c:179-203 | a crash among the log writes recovers to the old home blocks |
| `CrashSafety.CrashWhileInstalling` | kernel/log.c:69-83 | a crash after the header write, between any two installs, recovers to all of the new home blocks |
| `CrashSafety.CommitCrash` | kernel/log.c:194-203 | after any number of a commit's writes recovery gives the old home blocks or all of the new ones, decided by the header write alone |
| `CrashSafety.RecoveryCrash` | kernel/log.c:117-123 | a crash after any number of recovery's own writes still recovers to the same home blocks and an empty log |
| `CrashSafety.RetriesConverge` | kernel/log.c:117-123 | any number of interrupted recoveries followed by one that completes end like one recovery |
| `CrashSafety.StepIsAtomic` | kernel/log.c:194-203 | one commit, completed or crashed and recovered, takes effect whole or not at all |
| `CrashSafety.RunsAreAtomic` | kernel/log.c:68-203 | over any sequence of transactions and crashes, including inside recovery, the home blocks are those of exactly the transactions whose header write finished, in order |
| `BufferCache.BCache.constructor` | kernel/bio.c:37-53 | every buffer is zeroed and linked into the list, in an order the list's invariant describes |
| `BufferCache.BCache.Bget` | kernel/bio.c:59-89 | a cached block's buffer gains a reference; otherwise the least recently released unused buffer is recycled, never a pinned or referenced one, and only a change nobody logged or wrote is lost |
| `BufferCache.BCache.Lookup` | kernel/bio.c:66-74 | finds the block's buffer if there is one |
| `BufferCache.BCache.FindUnused` | kernel/bio.c:76-87 | finds the unreferenced buffer with the oldest release |
| `BufferCache.BCache.Bread` | kernel/bio.c:93-103 | returns the buffer locked and holding the latest contents, logged or on disk |
| `BufferCache.BCache.Bwrite` | kernel/bio.c:107-112 | the disk block becomes the buffer's data, as one write of the trace |
| `BufferCache.BCache.Brelse` | kernel/bio.c:117-137 | drops the reference, whether or not the buffer was changed without being logged, and the buffer becomes the most recently released when it was the last |
| `BufferCache.BCache.MoveToFront` | kernel/bio.c:127-134 | the six pointer stores move the buffer to the front and keep the rest of the ring in order |
| `BufferCache.BCache.Bpin` | kernel/bio.c:140-144 | the pin is one more reference, and the block counts as logged |
| `BufferCache.BCache.Bunpin` | kernel/bio.c:147-151 | an installed block loses its pin |
| `BufferCache.RelinkMoves` | kernel/bio.c:127-134 | the pointer stores spell the ring with the buffer moved to the front |
| `BufferCache.Recycle` | kernel/bio.c:76-87 | recycling an unreferenced buffer keeps references equal to users plus pin, touches no logged block, and puts a lost change's block back to what is on disk |
| `Log.Log.constructor` | kernel/log.c:55-65 | booting recovers the disk and leaves an empty, idle log and no buffer in use |
| `Log.Log.RecoverFromLog` | kernel/log.c:117-123 | issues exactly the write sequence that the crash theorems call recovery |
| `Log.Log.BeginOp` | kernel/log.c:127-142 | admits an operation exactly when the reservation protocol allows it |
| `Log.Log.EndOp` | kernel/log.c:147-175 | the last operation out commits all that was logged, with the write sequence of a commit; afterwards the logged home blocks on disk are what their holders last saw, the others are as before, and a change nobody logged is still seen by its readers or lost |
| `Log.Log.LogWrite` | kernel/log.c:215-235 | panics exactly when the header is full or no operation is open; otherwise the block is in the header once and pinned; the caller keeps its buffer and nothing is written |
| `Log.Log.FindInHeader` | kernel/log.c:225-228 | the entry of an already logged block, or the first free one |
| `Log.Log.WriteLog` | kernel/log.c:179-191 | copies the cached contents of every logged block to the log, in order |
| `Log.Log.InstallTrans` | kernel/log.c:69-83 | copies every log block home, in order, and drops its pin unless recovering |
| `Log.Log.WriteHead` | kernel/log.c:103-114 | the header block gets n and the block numbers and keeps its other bytes |
| `Log.Log.ReadHead` | kernel/log.c:87-97 | the header in memory becomes the one on disk |
| `Log.Log.Commit` | kernel/log.c:194-203 | issues exactly a commit's write sequence, whatever unlogged changes the cache holds; afterwards the log is empty, the logged home blocks are on disk and no other home block has changed |
| `Log.CommitHome` | kernel/log.c:194-203 | what a commit's writes make of each home block, on disk and in the cache |
| `Log.Log.QuietAtRest` | kernel/log.c:194-203 | when nobody uses a buffer, commit finds all it needs: the log cannot have pinned every buffer |
| `Log.SpareBuffer` | kernel/bio.c:76-88 | with fewer blocks logged than buffers and none in use, bget cannot run out of buffers |
| `LogClient.Update` | kernel/fs.c:50-59 | bread, change, log_write, brelse: the block is logged with the new contents and the disk is untouched |
| `LogClient.Transact` | kernel/log.c:126-175 | any updates made between begin_op and end_op are committed as one transaction, each block once with its last contents, by exactly a commit's writes |
| `LogClient.FirstTransaction` | kernel/log.c:55-65 | from boot on whatever a crash left: recovery's writes, then a commit's, and the home blocks are the recovered ones updated |
| `Reservation.ReservationHolds` | kernel/log.c:127-235 | in every reachable state logged blocks plus unspent budgets fit LOGSIZE, a commit holds no half-finished operation, an idle log is empty |
| `Reservation.FullBudgetPanics` | kernel/log.c:220-221 | a concrete run of three operations of ten blocks meets log_write's panic |
| `Reservation.PanicIffFullBudget` | kernel/log.c:127-235 | operations within a budget can meet the panic if and only if the budget is MAXOPBLOCKS |
| `FsSpec.OwnershipMeans` | kernel/fs.c:369-437 | all block references of all inodes are pairwise distinct, and the free map marks exactly the metadata and the referenced blocks |
| `FsSpec.FillAddr` | kernel/fs.c:378-405 | storing a fresh block in an inode slot keeps ownership and changes no file's bytes |
| `FsSpec.FillEntry` | kernel/fs.c:378-405 | storing a fresh block in an indirect entry keeps ownership and changes no file's bytes |
| `FsSpec.InodeRoundTrip` | kernel/fs.c:222-237 | an inode written to its slot of the inode block reads back equal, and its neighbours in the block are unchanged |
| `Truncation.TruncEnd` | kernel/fs.c:410-437 | once every slot is freed the emptied inode owns nothing and everyone else's ownership stands |
| `Fs.FileSystem.Balloc` | kernel/fs.c:65-86 | the lowest free block, zeroed and marked; fails exactly when every block is used |
| `Fs.FileSystem.Bfree` | kernel/fs.c:90-103 | clears the block's bit and logs that free-map block; false exactly where the kernel panics on a free block |
| `Fs.FileSystem.Bmap` | kernel/fs.c:378-405 | the block of a file block, allocated with its indirect block if missing; every file reads the same before and after, ownership is kept, nothing is allocated if the block was there; fails only when every block is used |
| `Fs.FileSystem.Iupdate` | kernel/fs.c:222-237 | the inode on disk becomes the one in memory, no other block changes |
| `Fs.FileSystem.Writei` | kernel/fs.c:487-517 | the file becomes prefix + data + old suffix; how many bytes it reports and how many it spills are functions of the arguments; exactly the rejected ranges return -1; every changed block is logged exactly if the range is rejected, all bytes can be copied, the block of the first that cannot is new, or the spilled bytes are those already there; three blocks of data add at most MAXOPBLOCKS blocks to those the transaction has logged, 7 with one free-map block; panics only when every block is used and one is missing |
| `Fs.LogsIff` | kernel/fs.c:497-506 | the exact condition, over writei's arguments and the disk before, for every change to be logged |
| `Fs.DataApart` | kernel/fs.c:497-506 | disks that differ only in data or free blocks have the same inodes, references and free map |
| `Fs.FileSystem.Commit` | kernel/log.c:147-175 | the disk gets the logged blocks as the buffers hold them, and what was leaked stays leaked unless it was logged |
| `Fs.FileSystem.HomeSound` | kernel/log.c:147-175 | between transactions the disk is sound, whatever was leaked |
| `Fs.FileSystem.EndTxn` | kernel/log.c:147-175 | a transaction that holds updates of any number of operations takes the disk to a sound one by logged writes alone |
| `Fs.FileSystem.WriteOp` | kernel/file.c:162-167 | one operation's write within a transaction that may hold others' updates: it keeps the file system whole, adds at most MAXOPBLOCKS logged blocks, and patches the file |
| `Fs.FileSystem.Evict` | kernel/bio.c:76-87 | recycling a buffer can lose only a leaked change, and keeps the file system whole |
| `Fs.FileSystem.WriteLoop` | kernel/fs.c:497-506 | each turn patches one block; the blocks logged are the data blocks, the indirect block and the free-map blocks |
| `Fs.FileSystem.Readi` | kernel/fs.c:456-477 | returns the exact slice of the file clipped at its size, -1 exactly when a byte of it cannot be copied out, and allocates nothing |
| `Fs.PatchedContents` | kernel/fs.c:487-517 | after a write of bytes at off the contents are old[..off] + bytes + old[off + n..] |
| `Fs.FileSystem.Itrunc` | kernel/fs.c:410-437 | frees exactly the blocks of the inode, changes no other file, never frees a free block, and logs exactly the free-map blocks of the freed blocks and the inode block |
| `Fs.FileSystem.TruncTxn` | kernel/fs.c:410-437 | as a transaction it takes a sound disk to a sound disk by logged writes alone |
| `Footprint.TruncBound` | kernel/fs.c:410-437 | itrunc logs at most one block more than the free-map blocks that cover data |
| `Footprint.TruncOverflows` | kernel/fs.c:410-437 | with MAXOPBLOCKS or more such free-map blocks some file's truncation logs more than MAXOPBLOCKS blocks |
| `Footprint.TruncFitsIff` | kernel/fs.c:410-437 | every truncation keeps to MAXOPBLOCKS if and only if fewer than MAXOPBLOCKS free-map blocks cover the data |
| `Footprint.OneMapNeverPanics` | kernel/log.c:215-221 | with one free-map block truncations keep to 7 blocks, and operations of at most 7 blocks never meet log_write's panic |
| `Fs.FileSystem.Filewrite` | kernel/file.c:135-181 | for every offset and length, negative ones too, and whatever the copies do: each transaction logs at most MAXOPBLOCKS distinct blocks, 7 with one free-map block, and takes a sound disk to a sound disk by logged writes alone; the whole write patches the file; with good copies it returns -1 exactly for a range that is rejected or negative; it panics only when every block is used |
| `Consistency.SoundHome` | kernel/fs.c:65-437 | whether the file system on disk is sound does not depend on the log region |
| `Consistency.TxnInstalls` | kernel/log.c:69-83 | installing any transaction that lists the logged blocks, in any order, makes exactly the logged change |
| `Consistency.SoundAfterCrashes` | kernel/log.c:68-203 | if every transaction takes a sound file system to a sound one, the disk after any crashes and recoveries is sound |
| `Consistency.CrashInFilewrite` | kernel/file.c:148-175 | a crash after any write of the commit of any transaction of a file write, whatever order its header lists the blocks in, and any interrupted recoveries, leave a sound disk with that transaction whole or absent and all earlier ones present |
| `Consistency.Prefix` | kernel/file.c:148-175 | the first i transactions of an operation lead to the disk on which transaction i starts |
| `Consistency.HistorySound` | kernel/log.c:68-203 | any history of transactions and crashes, in commits and recoveries, leaves a sound disk whose home blocks are those of exactly the transactions that took effect |
| `Consistency.EndOpCommits` | kernel/log.c:179-203 | the transaction end_op writes is one of those the crash theorems are about, for the step whose blocks are in the header and whose result the buffers hold |
| `Consistency.LogCommits` | kernel/log.c:147-203 | what the log's end_op leaves on disk and in the cache is what Fs.FileSystem.Commit and Evict say, with unlogged changes in the cache too |
| `Consistency.RecordsCommit` | kernel/log.c:126-203 | so is the one a client of the log commits |
| `Histories.Mount` | kernel/fs.c:288-313 | from any sound disk the inodes in memory can be set up so that operations may start |
| `Histories.Enact` | kernel/log.c:127-142 | an operation's part of a transaction keeps the file system whole and, where truncations keep to MAXOPBLOCKS, adds at most its reservation; it panics only when every block is used |
| `Histories.Gather` | kernel/log.c:127-175 | updates of several operations share transactions as long as begin_op finds room, each of which takes a sound disk to a sound disk; begin_op's reservation keeps every transaction to LOGSIZE blocks where truncations keep to MAXOPBLOCKS |
| `Histories.Live` | kernel/file.c:135-181 | one operation or group of operations, completed, panicked or cut by a crash, extends the history |
| `Histories.Lives` | kernel/log.c:68-203 | any sequence of file writes, group commits, truncations and evictions with any crashes and panics: the disk after the last recovery is sound and holds exactly the transactions that took effect |
| `Mkfs.Balloc` | mkfs/mkfs.c:235-248 | the loop sets exactly the first `used` bits of the free map |
| `Mkfs.BlankSound` | mkfs/mkfs.c:107-112 | zeroed inode blocks and a free map that marks exactly the metadata make a sound file system |
| `Mkfs.SuperReads` | mkfs/mkfs.c:96-103 | the super block written reads back as the computed geometry and log position |
| `Mkfs.Format` | mkfs/mkfs.c:92-116 | for every size and number of inodes that fit, the layout gives a sound disk with an empty log placed before the inodes, and block 1 reads back as its super block: the start that the soundness theorems need |
| `Mkfs.UnloggedWrite` | kernel/fs.c:497-506 | a concrete write whose copy fails leaves a changed block that was not logged |
| `SleepLock.OwnershipMoves` | kernel/sleeplock.c:22-41 | ownership changes only together with lk->locked and only for the process that steps |
| `SleepLock.StepLosesNoWakeup` | kernel/proc.c:529-573 | while the lock is free, every process asleep on it or committed to sleeping is still ahead of a running wakeup |
| `SleepLock.StepKeepsInv` | kernel/proc.c:529-597 | every step of acquiresleep, releasesleep, sleep, wakeup, kill and the scheduler keeps the invariant |
| `SleepLock.SleepLockSafe` | kernel/sleeplock.c:22-41 | in every interleaving at most one process owns the lock, locked is set exactly when one does, and with the spinlock free and the lock free nobody is asleep on it or committed to sleeping |
| `ExitWait.StepKeepsParent` | kernel/proc.c:273-379 | every parent pointer names a live process, and every process but init that is running or ZOMBIE has one |
| `ExitWait.ActorKeepsExit` | kernel/proc.c:324-379 | reparent leaves no child behind before the process becomes a ZOMBIE |
| `ExitWait.NewZombieSeen` | kernel/proc.c:340-379 | when a process becomes a ZOMBIE its parent is not left asleep in wait |
| `ExitWait.NewSleeper` | kernel/proc.c:384-428 | a process commits to sleeping in wait only when none of its children is a ZOMBIE |
| `ExitWait.StepLosesNoWakeup` | kernel/proc.c:324-428 | nobody sleeps in wait with a ZOMBIE child unless reparent's wakeup of init is still on its way |
| `ExitWait.StepKeepsInv` | kernel/proc.c:273-428 | every step of fork, exit, reparent, wait, sleep, wakeup, kill and the scheduler keeps the invariant |
| `ExitWait.WaitSafe` | kernel/proc.c:273-428 | in every interleaving, whenever wait_lock is free nobody is asleep or committed in wait with a ZOMBIE child, parent pointers name live processes, every ZOMBIE has a parent |
| `ExitWait.StatusesDeliveredOnce` | kernel/proc.c:340-428 | every exit status is handed out at most once, as given to exit, and until then its pid holds a slot |
| `ExitWait.ReapsOwnChild` | kernel/proc.c:396-416 | wait frees only its caller's own child, and only after that child left its kernel stack |
| `ExitWait.WaitGivesUp` | kernel/proc.c:418-423 | wait returns without a child, not killed and with a good copy, only if the caller has no children |
| `Virtio.AtMostTwo` | kernel/virtio_disk.c:189-201 | chains of three and free descriptors partition the eight descriptors, so at most two requests are in flight |
| `Virtio.RingsShort` | kernel/virtio_disk.c:259-265 | the entries pending in both rings together never exceed the requests in flight, so no pending entry is overwritten |
| `Virtio.IndexStep` | kernel/virtio_disk.c:260-265 | a 16-bit index that wraps still counts and still selects the right slot |
| `Virtio.Disk.AllocDesc` | kernel/virtio_disk.c:145-154 | the first free descriptor, or none if none is free |
| `Virtio.Disk.FreeDesc` | kernel/virtio_disk.c:158-170 | the descriptor is zeroed and free, and everyone waiting for descriptors is awake |
| `Virtio.Disk.FreeChain` | kernel/virtio_disk.c:174-185 | follows the next fields and frees exactly the three descriptors of the chain |
| `Virtio.Disk.Alloc3Desc` | kernel/virtio_disk.c:190-201 | three distinct descriptors, or none and no descriptor lost; it fails exactly when fewer than three are free |
| `Virtio.Disk.Submit` | kernel/virtio_disk.c:204-274 | queues the request exactly when fewer than two are in flight, otherwise sleeps; nobody sleeps for descriptors while a request could be queued |
| `Virtio.Disk.Format` | kernel/virtio_disk.c:223-257 | the three descriptors, the command and the info entry describe this request, and no other entry changes |
| `Virtio.Disk.Announce` | kernel/virtio_disk.c:259-265 | the head joins the available ring behind the pending ones |
| `Virtio.Disk.DeviceTake` | kernel/virtio_disk.c:259-269 | the device takes requests in the order they were queued |
| `Virtio.Disk.DeviceComplete` | kernel/virtio_disk.c:204-257 | carried out as found in memory, the request moves the submitted buffer's data to or from the submitted sector and is reported under its head |
| `Virtio.Disk.SeeOne` | kernel/virtio_disk.c:300-312 | a used entry completes exactly the buffer submitted under the head it names, in the order the device reported, and wakes its submitter |
| `Virtio.Disk.Interrupt` | kernel/virtio_disk.c:283-315 | everything reported so far is done, despite index wrap-around, and nobody is asleep on a request that is done |
| `Virtio.Disk.Finish` | kernel/virtio_disk.c:271-280 | the submitter sleeps exactly while its request is not done; then its descriptors are free again and the buffer holds the data that was moved |
| `PageTable.PxIsIndex` | kernel/riscv.h:354-357 | PX of an address is the 9-bit index of its page |
| `PageTable.IndicesDiffer` | kernel/riscv.h:354-363 | different pages differ in at least one of the three indices |
| `PageTable.WordRoundTrip` | kernel/riscv.h:341-352 | what PA2PTE and the flag macros write, PTE2PA and the flag tests read back |
| `PageTable.NewTable` | kernel/vm.c:81-98 | linking a zeroed table page in changes no translation of any address space |
| `PageTable.EntriesApart` | kernel/vm.c:81-98 | two different pages, of one address space or two, never share a page-table entry |
| `PageTable.SetLeaf` | kernel/vm.c:138-160 | writing a level-0 entry changes the translation of exactly one page of one address space |
| `PageTable.DropRoot` | kernel/vm.c:267-282 | removing every table of one root leaves the other trees whole and unchanged |
| `Vm.Memory.constructor` | kernel/kalloc.c:27-40 | every whole page of the range is on the free list exactly once |
| `Vm.Memory.Kalloc` | kernel/kalloc.c:69-82 | pops the first free page; null exactly when none is free |
| `Vm.Memory.Kfree` | kernel/kalloc.c:47-63 | pushes a page that nothing maps |
| `Vm.Memory.Walk` | kernel/vm.c:81-98 | reaches the table of the address with at most two new tables; allocation on the way changes no translation, failure means no free page is left |
| `Vm.Memory.Walkaddr` | kernel/vm.c:104-121 | the physical page exactly of mapped user pages |
| `Vm.Memory.Mappages` | kernel/vm.c:138-160 | maps exactly the pages of the range to consecutive pages; on failure exactly a prefix of them, and no page is free |
| `Vm.Memory.Uvmunmap` | kernel/vm.c:166-187 | unmaps exactly the range and, if asked, frees exactly the pages it mapped |
| `Vm.Memory.Uvmcreate` | kernel/vm.c:192-200 | a new root that maps nothing |
| `Vm.Memory.Uvmalloc` | kernel/vm.c:221-244 | adds exactly the missing pages, zeroed, or undoes every mapping; fails only with at most three free pages per page to add |
| `Vm.Memory.Uvmdealloc` | kernel/vm.c:251-262 | removes and frees exactly the pages between the two sizes |
| `Vm.Memory.Freewalk` | kernel/vm.c:267-282 | frees every table page below the given one exactly once and no other |
| `Vm.Memory.Uvmfree` | kernel/vm.c:287-292 | the address space's user pages and tables are free, every other translation and page is unchanged |
| `Vm.Memory.Uvmcopy` | kernel/vm.c:301-328 | the copy has equal contents and permissions on new pages, or nothing stays allocated; fails only with at most three free pages per page to copy |
| `Vm.Memory.Copyout` | kernel/vm.c:347-366 | user memory of that address space changes exactly in the bytes written; it stops exactly at the first unmapped page |
| `Vm.Memory.Copyin` | kernel/vm.c:372-391 | reads exactly the user's bytes; it stops exactly at the first unmapped page |
| `AddressSpaces.Kernel.ProcPagetable` | kernel/proc.c:172-200 | a root with only trampoline and trapframe, or no page lost; fails only with at most five pages free |
| `AddressSpaces.Kernel.AllocProc` | kernel/proc.c:105-145 | a new address space of size 0 at a cost of at most six pages, or no process and no page allocated; fails only with at most six pages free |
| `AddressSpaces.Kernel.UnmapFixed` | kernel/proc.c:205-210 | trampoline and trapframe are unmapped and nothing else |
| `AddressSpaces.Kernel.FreeProc` | kernel/proc.c:151-167 | exactly the pages of that process are freed, and the others' address spaces are unchanged |
| `AddressSpaces.Kernel.Growproc` | kernel/proc.c:253-268 | for every int: the size changes by exactly n when the sum fits 32 bits and memory suffices, otherwise nothing changes; success is reported also when the sum does not fit, failure only when n > 0 and at most three free pages per page to add are left |
| `AddressSpaces.ShrinkBelowZero` | kernel/proc.c:253-268 | a process of size 0 that gives back a byte is told it succeeded and keeps its size |
| `AddressSpaces.Kernel.Fork` | kernel/proc.c:273-290 | the child has a copy of every user page, or no trace of it is left; fails only if at most three free pages are left per user page, besides six |
| `AddressSpaces.Kernel.Run` | kernel/proc.c:105-290 | after any run of these operations every process maps exactly its pages plus trampoline and trapframe, and no page is lost |
| `AddressSpaces.Conserved` | kernel/kalloc.c:46-82 | every page is free, a table of one live process, or mapped once by one live process; all are free when no process is left |
| `Umalloc.InsertOrdered` | user/umalloc.c:30-42 | joining a freed block with its neighbours keeps the list ordered, disjoint and fully coalesced |
| `Umalloc.InsertGains` | user/umalloc.c:33-42 | joining loses and duplicates no storage |
| `Umalloc.InsertLinked` | user/umalloc.c:33-42 | the header updates turn the circular list into the list with the block inserted |
| `Umalloc.Look` | user/umalloc.c:30-32 | free's two loop tests succeed exactly at the block's place in the ring |
| `Umalloc.TakeLoses` | user/umalloc.c:75-82 | malloc takes exactly the block it returns out of the free storage |
| `Umalloc.Heap.FindPlace` | user/umalloc.c:30-32 | the search ends, at the header after which the block belongs, from any starting point |
| `Umalloc.Heap.Free` | user/umalloc.c:25-44 | the ring stays circular, ordered and coalesced, and gains exactly the freed storage |
| `Umalloc.Heap.Morecore` | user/umalloc.c:47-61 | the ring gains exactly the new memory, or nothing changes |
| `Umalloc.Heap.Carve` | user/umalloc.c:75-85 | the whole block or its tail becomes live and leaves the ring |
| `Umalloc.Heap.Malloc` | user/umalloc.c:64-90 | returns a new live block, large enough and disjoint from all others; asks for memory at most once, and only if no free block is large enough |
| `Umalloc.LargestRequest` | user/umalloc.c:47-55 | sbrk is asked for the right amount if and only if the request is at most 2147483616 bytes; one byte more asks it to shrink |
| `Pipe.CounterStep` | kernel/pipe.c:88-95 | wrapped 32-bit counters still count and still select the right slot |
| `Pipe.Pipe.Write` | kernel/pipe.c:77-103 | inserts exactly a prefix of its bytes in order and sleeps only on a full pipe; it returns -1 exactly if it gets as far as the first position where the read end is closed or it is killed; a reader is left asleep with bytes in the pipe exactly if moreover a reader sleeps and that position is not the first or the reader was stranded before |
| `Pipe.Pipe.Fill` | kernel/pipe.c:83-98 | the loop inserts bytes in order up to where it gives up, finds the pipe full or cannot copy |
| `Pipe.Pipe.Read` | kernel/pipe.c:106-130 | what it returns is the next bytes in order, with one more consumed exactly when a copy failed; it wakes every writer |
| `Pipe.Pipe.Close` | kernel/pipe.c:59-74 | closing an end wakes the other side's sleepers, and both closed frees the pipe |
| `Pipe.Pipe.Kill` | kernel/proc.c:579-597 | a sleeping process becomes runnable, whatever it sleeps on |
| `Pipe.LostWakeup` | kernel/pipe.c:84-87 | a concrete run that leaves a reader asleep on a pipe holding a byte |
| `Shell.ParsePrint` | user/sh.c:328-342 | parsing the fully parenthesised printing of any tree with at most 9 plain, NUL-free words per command gives the tree back |
| `Shell.RoundTrip` | user/sh.c:345-446 | the same anywhere in a line, before a closing parenthesis or the end |
| `Shell.ArgsReadBack` | user/sh.c:416-446 | the argument loop reads back printed words |
| `Shell.TargetReadBack` | user/sh.c:375-397 | a printed redirection is read back with its file name and kind |
| `Shell.NextToken` | user/sh.c:266-308 | the scanning loops compute the token function the grammar is written in |
| `Shell.ParseRedirs` | user/sh.c:375-397 | the loop computes the redirections of the grammar, or reports the missing file |
| `Shell.ParseExec` | user/sh.c:416-446 | computes the grammar's command; never more than nine words, never outside the argument slots |
| `Shell.ParseBlock` | user/sh.c:400-413 | computes the grammar's parenthesised command |
| `Shell.ParsePipe` | user/sh.c:362-372 | computes the grammar's pipeline |
| `Shell.ParseLine` | user/sh.c:345-359 | computes the grammar's line |
| `Shell.Nulterminate` | user/sh.c:450-493 | a NUL after every word of the tree, and no other write |
| `Shell.WordsSurvive` | user/sh.c:450-493 | cutting the words off damages none of them |
| `Shell.ParseCmd` | user/sh.c:328-342 | afterwards each word of the tree is a C string equal to its token; on a syntax error the buffer is untouched |
| `Grep.MatchHere` | user/grep.c:83-94 | true exactly if the text from there on can be divided into pieces that the pattern's items accept one by one |
| `Grep.MatchStar` | user/grep.c:97-104 | the same for a starred character followed by a pattern |
| `Grep.Match` | user/grep.c:71-80 | true exactly if the pattern matches somewhere, or at the start after '^' |
| `Grep.OneLine` | user/grep.c:21-28 | prints the line with its newline exactly if it matches |
| `Grep.Lines` | user/grep.c:20-28 | prints the matching lines of the buffer and keeps the unfinished one |
| `Grep.Grep` | user/grep.c:11-34 | whatever sizes the reads come in, the output is that of the whole input, up to the first line longer than 1022 bytes |
| `Grep.OutputOfLines` | user/grep.c:11-34 | for lines that fit the buffer the output is exactly the matching newline-terminated lines in order |
| `Grep.OutputUpToLong` | user/grep.c:11-34 | for any lines the output is that of the lines before the first one longer than 1022 bytes, and it is all that match if and only if none from there on does |
| `Grep.LongLineHidesMatch` | user/grep.c:18-33 | an input whose matching second line is not printed |
| `Primes.FirstIsPrime` | user/primes.c:15-19 | the first number a stage reads is prime |
| `Primes.NextSurvivors` | user/primes.c:35-38 | a stage passes on exactly the numbers no earlier prime divides |
| `Primes.SieveOfAll` | user/primes.c:6-66 | for every n the chain's specification is the primes up to n in increasing order |
| `Primes.FilterKeepsInv` | user/primes.c:35-42 | every filtering step keeps what each stage was given equal to its left neighbour's filter |
| `Primes.PrintsPrimes` | user/primes.c:6-66 | in every interleaving with bounded pipes the output is a prefix of the sieve of 2..n, all of it primes in increasing order, and every prime up to n once every process has exited |
| `Primes.NoDeadlock` | user/primes.c:6-66 | until every process, main included, has returned from wait and exited, some process can take a step |
| `Primes.RunsEnd` | user/primes.c:6-66 | no run is longer than a bound computed from its first state, so that every schedule ends with every process exited |
| `Primes.WaitKeepsInv` | user/primes.c:41-42 | a return from wait keeps the invariant, by which a process exits only after its child |
| `Primes.StageInput` | user/primes.c:35-38 | once every process has exited, stage k was given exactly the numbers up to n that none of the primes printed before it divides |

## Left out

- Boot, traps, assembly, CSR access, spinlock implementation, UART, PLIC, MMIO set-up, console, exec, system call argument fetching, directories, path lookup, link counts and the remaining user programs are not part of this model.
- The buffer cache knows one device (ROOTDEV); the disk driver behind it is a disk with atomic block writes. "bget: no buffers" is a precondition, because it depends on how many unrelated readers hold buffers.
- BufferCache.BCache.Bread: requires that nobody else holds the buffer; the source waits for its sleep lock, whose protocol is in SleepLock.
- Log.Log.EndOp: for the last operation requires what Commit does.
- Log.Log.Commit: requires that nobody holds a logged buffer or uses the log's own blocks, for which the source waits.
- LogClient.Update: nobody else uses a buffer and every change in the cache is logged; the updates of other operations are in Reservation, leaked changes in Log, Fs and Histories.
- LogClient.Transact: one operation, alone in the log, that uses fewer blocks than log_write's limit; operations that share a transaction are in Reservation and Histories.
- Fs models one file-system operation at a time on the view that buffers present; inode locking and the inode cache are not modelled, and ialloc, iget and iput are left out.
- Histories.Live: the log has more than MAXOPBLOCKS blocks. An update that overfills the log panics at its end instead of in the middle, and a panic at a block already in a full log appears as a crash before the commit's first write; either way nothing of the open transaction reaches the disk.
- Histories.Lives: updates that share a transaction follow one another whole; in the source writei calls on different inodes may also interleave block by block.
- AddressSpaces.Kernel.FreeProc: returns the trapframe page between the two unmappings and uvmfree instead of just before them; no step in between touches the free list, so the resulting free list is the same.
- AddressSpaces.Kernel.Fork: models the memory side of fork only; the process-table side is in ExitWait. exec's page tables, uvmclear and copyinstr are left out.
- The kernel's own page table is not modelled: it maps all of memory directly and has no pages of its own to free.
- ExitWait: pids are unbounded, so their wrap-around after 2^31 forks is not modelled; allocproc takes any unused slot rather than the first.
- Virtio.Disk.Interrupt: the device reports success for every request; an error status would meet the driver's panic. Memory fences are taken as given.
- Mkfs.Format: stops before mkfs adds the root directory and the user programs; the free map is the one of a disk without files.
- Umalloc.Heap.Morecore: requires byte counts below 2^31; above, the narrowed count asks sbrk for a different amount.
- Umalloc.Heap.Malloc: requires requests for which morecore's byte count fits an int, which LargestRequest shows to be at most 2147483616 bytes.
- Pipe: file descriptors' reference counts, which keep a pipe alive while it is used, are not modelled.
- Grep.Grep: requires input without NUL bytes, which the C string functions would stop at.
- Primes: pipe and fork are taken to succeed.
- Liveness of the kernel (that a woken process eventually runs, that a sleeper is eventually woken) is stated only as the absence of lost wakeups.
