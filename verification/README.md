# A verified model of xv6

This project models the parts of the xv6 kernel and its user programs that are hardest
to get right, and proves what they are for.  Constants such as LOGBLOCKS, MAXOPBLOCKS,
NBUF, PIPESIZE and NUM are symbolic, with the relations the proofs need.

* Storage.  `BufferCache` is the cache of disk blocks and its list in order of recency;
  `Coherence` says what the cache and the log owe their readers; `RedoLog` gives the
  writes of commit and recovery and what a crash between any two of them leads to;
  `LogLayer` is the log on the cache, with commit and recovery as sequences of atomic
  block writes; `StorageRuns` shows that every run of it, with readers beside a commit,
  crashes, reboots and boots cut short, is a run of the small machine of
  `StorageMachine`, which has an array of blocks;
  `LogSpace` is the reservation of log space under any interleaving.
* Files.  `Bitmap`, `Inodes` and `FileSystem` are block allocation, the addresses of a
  file with their indirect block, and reading, writing and truncation; `FileWrites` cuts a
  write into transactions; `FileRuns` shows that every run on files is a run on sequences
  of bytes, up to a write with too few blocks free; `DirTree` is directories and link counts.
* Memory.  `PageTable` has the three-level tables as pages of memory and the flat map
  they stand for; `AddressSpaces` the page allocator and all that is done with user
  page tables, from creation to the last page freed; `LazyMemory` what a process sees
  of it, faults and all; `ProcessMemory` the whole life of an address space.
* Processes.  `SleepLocks` and `ExitWait` are state machines over every interleaving
  of any number of processes, one step for each section under a spin lock.
* Allocation and rings.  `FreeRing` and `UserHeap` are the Kernighan and Ritchie
  allocator (section 8.7 of The C Programming Language, second edition); `PipeRing` is
  the pipe; `VirtioDisk` the disk driver together with a device that completes requests
  in any order (sections 2.6 and 5.2 of VIRTIO 1.1).
* Text.  `ShellGrammar`, `ShellParser` and `ShellStrings` are the shell's parser, shown
  to accept exactly a grammar; `ShellPrinter` prints commands so that they are parsed back;
  `Grep` is the matcher and the loop around it.

Whatever the code updates step by step is a class with methods, each proved against a
specification on values.  Where many processes interleave, the model is a machine of
atomic steps, and the theorems range over every run.

What the proofs turned up about the code:

* `log_write()` tests for a full log before it looks for the block in it.  So an
  operation may add one block fewer than it reserves: `LogSpace.PanicsExactlyWhen`
  gives the exact condition.  `filewrite()` keeps to it.
* NBUF equals LOGBLOCKS.  A transaction that fills the log has pinned every buffer and
  cannot be committed: `StorageRuns.FillLog` is the run that gets there, and
  `StorageMachine.FullLogStops` says when it goes through.
* `sbrk()` asked to shrink a process by more than its size succeeds and does nothing:
  the sum wraps around (`LazyMemory.Growproc`).
* `malloc()` of more than 0x7FFFFFE0 bytes asks `sbrk()` for a number that does not
  fit its argument: `UserHeap.SbrkArgument`.
* `grep` stops at the first line of 1023 characters or more, or with a NUL in it, and does
  not look at a last line without a newline: `Grep.Run` says what it writes,
  `Grep.CompleteExactlyWhen` when that is all it should, and `Grep.LongLineLost` has an
  input for which it is not.

## Model

| member | source | states |
|---|---|---|
| `BufferCache.BCache.constructor` | xv6/kernel/bio.c:35-52 | the circular list holds every buffer once, both ways round, last buffer first |
| `BufferCache.BCache.FindCached` | xv6/kernel/bio.c:62-71 | the walk from the head finds the buffer of a block if and only if there is one |
| `BufferCache.BCache.FindUnused` | xv6/kernel/bio.c:73-86 | the walk from the tail finds, of all unused buffers, the one released least recently |
| `BufferCache.BCache.Bget` | xv6/kernel/bio.c:57-88 | returns the one buffer of the block, cached or recycled from the least recently released; panics only if there is neither; no block of a real device ever has two buffers |
| `BufferCache.BCache.Relink` | xv6/kernel/bio.c:124-131 | the six pointer assignments move a buffer to the front and leave a doubly linked permutation |
| `BufferCache.BCache.Brelse` | xv6/kernel/bio.c:116-137 | one reference less; a buffer left without any becomes the most recent; the list stays ordered by recency |
| `BufferCache.BCache.Bpin` | xv6/kernel/bio.c:139-145 | one reference more, nothing else |
| `BufferCache.BCache.Bunpin` | xv6/kernel/bio.c:147-153 | one reference less, nothing else |
| `Coherence.UnusedIsExpendable` | xv6/kernel/bio.c:73-86 | a buffer without references is neither pinned by the log nor newer than the disk, so recycling drops no update |
| `Coherence.Get` | xv6/kernel/bio.c:57-88 | either way of getting a buffer keeps the cache coherent with what was last logged |
| `Coherence.Fill` | xv6/kernel/bio.c:91-102 | a block read into an invalid buffer is the latest: nothing newer was only in the cache |
| `Coherence.Release` | xv6/kernel/bio.c:116-137 | giving a clean buffer back keeps coherence |
| `Coherence.Absorb` | xv6/kernel/log.c:234-238 | logging a block that is in the log already makes its buffer the latest contents, with no second pin |
| `Coherence.LogAndPin` | xv6/kernel/log.c:238-242 | logging a new block pins its buffer, which then holds the latest contents |
| `Coherence.WriteThrough` | xv6/kernel/bio.c:106-112 | a write to the disk keeps coherence |
| `Coherence.Unpin` | xv6/kernel/log.c:67-85 | a block whose latest contents are at home may lose its pin |
| `RedoLog.HeaderRoundTrip` | xv6/kernel/log.c:88-116 | what write_head() stores in the header block is what read_head() reads back |
| `RedoLog.ReplayReadsLogOnly` | xv6/kernel/log.c:67-85 | what recovery does depends on the log alone |
| `RedoLog.PartialInstall` | xv6/kernel/log.c:67-85 | after any part of an installation, replaying the log again gives the same home blocks |
| `RedoLog.RecoveryCrashSafe` | xv6/kernel/log.c:118-125 | a crash after any number of recovery writes leaves a disk that recovers to the same home blocks |
| `RedoLog.LoggingInvisible` | xv6/kernel/log.c:187-200 | log slots written behind an empty header change nothing that recovery does |
| `RedoLog.HeaderWriteCommits` | xv6/kernel/log.c:104-116 | from the header write on, recovery performs exactly the transaction |
| `RedoLog.LogOnDisk` | xv6/kernel/log.c:104-116 | where a committed transaction is on the disk: count and block numbers as the words of the header block, contents in the blocks after it |
| `RedoLog.CommitCrashAtomic` | xv6/kernel/log.c:202-212 | a crash after any number of commit writes recovers to the old home blocks, or, from the header write on, to the new ones |
| `RedoLog.BootCompletes` | xv6/kernel/log.c:118-125 | a recovery that completes leaves an empty log and the replayed home blocks |
| `RedoLog.AfterIsEffect` | xv6/kernel/log.c:202-212 | a commit with crashes, and crashes of the recoveries after it, comes to all of its transaction or nothing |
| `RedoLog.HistoryIsAtomic` | xv6/kernel/log.c:66-125 | over every history of commits and crashes, in recovery too, the home blocks are those of the transactions whose header write reached the disk, in order, and no others |
| `LogLayer.Log.Bread` | xv6/kernel/bio.c:91-102 | a reader gets the latest contents of the block, whatever the log has not yet installed |
| `LogLayer.Log.Bwrite` | xv6/kernel/bio.c:106-112 | one atomic block write |
| `LogLayer.Log.BeginOp` | xv6/kernel/log.c:128-150 | admits an operation exactly when no commit is under way and its reservation fits |
| `LogLayer.Log.LogWrite` | xv6/kernel/log.c:223-244 | panics exactly when the log is full or no operation is under way; otherwise every later read sees the new contents, and logged blocks stay distinct and pinned |
| `LogLayer.Log.WriteLog` | xv6/kernel/log.c:187-200 | writes the cached contents of each logged block to its slot, in order, invisibly to readers |
| `LogLayer.Log.WriteHead` | xv6/kernel/log.c:104-116 | one write puts the in-memory header on the disk |
| `LogLayer.Log.InstallTrans` | xv6/kernel/log.c:67-85 | each slot goes to its home block, in order, and its pin is given up |
| `LogLayer.Log.Commit` | xv6/kernel/log.c:202-212 | issues exactly the writes that are shown crash-atomic, leaves an empty log and readers what they saw; with nobody else at work meanwhile, panics exactly when there is a transaction and no unused buffer, before writing anything |
| `LogLayer.FullLogPinsAll` | xv6/kernel/param.h:10-11 | with as many distinct blocks in the log as there are buffers, no buffer is unused |
| `LogLayer.Log.EndOp` | xv6/kernel/log.c:154-184 | the last operation commits: every prefix of the writes recovers to all or to none of the transaction, and readers see no difference |
| `LogLayer.Log.ReadHead` | xv6/kernel/log.c:88-99 | the in-memory header becomes what the disk says |
| `LogLayer.Log.InstallRecovered` | xv6/kernel/log.c:67-85 | installation at boot issues the replay writes, in order |
| `LogLayer.Log.Recover` | xv6/kernel/log.c:118-125 | recovery brings the home blocks to what was committed and empties the log, safely at every prefix; it panics exactly with fewer than two buffers, or one if the log is empty |
| `StorageMachine.WriteBlock` | xv6/kernel/log.c:214-244 | bread(), a store, log_write() and brelse() change one block, log it once, pin it and leave nothing held |
| `StorageMachine.CommitAlone` | xv6/kernel/log.c:187-212 | a commit whose blocks nobody holds, with a buffer to spare, gets through all of its 2n + 2 writes, and then a crash leaves what readers saw |
| `StorageMachine.ReaderStopsCommit` | xv6/kernel/log.c:187-212 | a reader that takes the last buffer makes a commit panic wherever it has come to, with writes made already |
| `StorageMachine.FullLogStops` | xv6/kernel/param.h:9-11 | operations that fill the log, each within its reservation, get as far as the last end_op(), and its commit panics at the first write if and only if there are no more buffers than log blocks; none of the calls is a misuse |
| `StorageRuns.UsedIsInUse` | xv6/kernel/bio.c:57-88 | there is an unused buffer exactly if the blocks held or pinned are fewer than the buffers |
| `StorageRuns.SlotWritten` | xv6/kernel/log.c:187-200 | a slot written while the header is empty changes nothing about what a crash leaves |
| `StorageRuns.HeaderWritten` | xv6/kernel/log.c:104-116 | from the header write on, a crash leaves what readers see |
| `StorageRuns.HomeWritten` | xv6/kernel/log.c:67-85 | a block put home changes nothing about what a crash leaves |
| `StorageRuns.HeaderCleared` | xv6/kernel/log.c:207-212 | nor does the empty header, once every block is home |
| `StorageRuns.StepCommit` | xv6/kernel/log.c:187-212 | each single write of commit(), with any readers in between, does what the machine says, and waits or panics exactly where it says |
| `StorageRuns.Run` | xv6/kernel/log.c:118-244 | every run of bread(), stores, log_write(), brelse(), begin_op(), end_op() and the single writes of commit(), in any order and with any number of buffers held across calls, does what a machine with an array of blocks does: it stops, in a panic or a wait, exactly where the machine says, its reads return what the machine says, and a crash after any number of its disk writes recovers to the blocks at the last commit whose header was among them |
| `StorageRuns.Boot` | xv6/kernel/log.c:51-125 | booting on any recoverable disk leads to a machine with the committed blocks, ready for the next run; it panics exactly for want of buffers |
| `StorageRuns.FillLog` | xv6/kernel/param.h:9-11 | the run of FullLogStops, on the code: booted on any recoverable disk, all calls get through with more buffers than log blocks, and with as many the commit panics before its first write |
| `StorageRuns.Sessions` | xv6/kernel/log.c:51-244 | over any number of sessions, each a number of boots cut short, a boot, any calls and a crash between any two writes, every session reads what a machine reads that starts with what survived the one before |
| `LogSpace.SpaceIsReserved` | xv6/kernel/log.c:128-184 | in every interleaving the log and the unused reservations fit in LOGBLOCKS, and no operation is under way during a commit |
| `LogSpace.NoPanic` | xv6/kernel/log.c:223-244 | operations that add at most MAXOPBLOCKS - 1 blocks never panic |
| `LogSpace.PanicsExactlyWhen` | xv6/kernel/log.c:229-242 | some run panics if and only if operations may add MAXOPBLOCKS blocks: the test for a full log comes before the search for the block |
| `LogSpace.StepKeeps` | xv6/kernel/log.c:128-184 | every step of begin_op(), log_write(), end_op() and commit keeps the reservation |
| `LogSpace.WaitsForSomeone` | xv6/kernel/log.c:128-184 | in no run does begin_op() wait for nothing: an operation is under way or a commit, and with neither the log is empty |
| `Bitmap.TestOfPut` | xv6/kernel/fs.c:71-107 | setting or clearing a bit changes that bit and no other |
| `Bitmap.InUseOfMarked` | xv6/kernel/fs.c:67-107 | marking a block in the bitmap blocks changes the mark of that block and of no other |
| `Bitmap.WhereTheBitIs` | xv6/kernel/fs.c:71-107 | the mark of a block is bit b % 8 of byte b / 8 of the bitmap |
| `Blocks.LittleEndian` | xv6/kernel/fs.c:443-452 | the words of a block have their least significant byte first |
| `Inodes.NoSharing` | xv6/kernel/fs.c:420-459 | no block is in two slots, of one inode or of two |
| `Inodes.AllocKeeps` | xv6/kernel/fs.c:67-90 | allocating a free block changes no slot, and no slot names it |
| `Inodes.LinkDirect` | xv6/kernel/fs.c:425-441 | a zeroed block put in an empty slot of the inode changes no other slot |
| `Inodes.LinkIndirect` | xv6/kernel/fs.c:443-455 | a block put in an empty entry of the indirect block changes no other slot |
| `FileSystem.FileSys.Balloc` | xv6/kernel/fs.c:67-90 | takes the first free block, marked and zeroed, and shows in no file; 0 exactly when every block is in use |
| `FileSystem.FileSys.Bfree` | xv6/kernel/fs.c:93-107 | clears the mark of one block; panics exactly if it was clear |
| `FileSystem.FileSys.Bmap` | xv6/kernel/fs.c:420-459 | the block of a file, allocated if need be, through the indirect block too, which takes as many free blocks as there are empty slots on the way, or 0 if there are not as many; ownership and all files' contents are kept |
| `FileSystem.FileSys.Readi` | xv6/kernel/fs.c:509-534 | returns exactly the slice from off to the end of the request or of the file, and changes nothing |
| `FileSystem.WhereTheByteIs` | xv6/kernel/fs.c:420-459 | a byte of a file is in the block that the inode names for it, or past the first 12 the indirect block |
| `FileSystem.FileSys.Writei` | xv6/kernel/fs.c:543-579 | splices the source in at off, growing the file as needed; every other file is unchanged; -1 exactly for the three bad requests; without a fault it is short if and only if the blocks it must allocate, the indirect block among them, are more than the free ones; with a fault it ends at the start of the block that faults, unless the disk is full before |
| `FileSystem.FileSys.Itrunc` | xv6/kernel/fs.c:463-491 | frees exactly the blocks of the inode, as many as its slots name, never a free one, and changes no other file |
| `FileSystem.WriteSummary` | xv6/kernel/fs.c:543-579 | block by block copying adds up to one splice of the contents |
| `FileSystem.OneTransaction` | xv6/kernel/file.c:149-165 | with one bitmap block, a chunk logs at most (MAXOPBLOCKS - 4) / 2 + 4 blocks, seven of ten |
| `FileWrites.Filewrite` | xv6/kernel/file.c:134-179 | a write cut into transactions is one splice of the source: all of it, and then no transaction was refused or met a fault; or -1, only if the last transaction was refused, met a fault or found the disk full, and then up to the offset it leaves, which for a fault is the start of the block that faults, and perhaps part of a block more; each transaction takes as much as it may, and with one bitmap block none logs more than MAXOPBLOCKS - 1 blocks |
| `FileSystem.NeedStep` | xv6/kernel/fs.c:420-459 | what a write must allocate is what its first block takes and what the rest takes after that |
| `FileSystem.FreedCount` | xv6/kernel/fs.c:463-491 | freeing the blocks of an inode makes as many free as its slots name |
| `FileRuns.NeedCounted` | xv6/kernel/fs.c:420-459 | what writei() allocates, found slot by slot, is the number of slots on the way that are empty |
| `FileRuns.Run` | xv6/kernel/fs.c:463-579 | every run of reads, writes and truncations on any files returns what sequences of bytes would, and stops exactly at the first write whose empty slots, the indirect block among them, outnumber the free blocks |
| `FileRuns.BlocksConserved` | xv6/kernel/fs.c:67-107 | over every run the free blocks and those in files come to the same number |
| `DirTree.OnePath` | xv6/kernel/sysfile.c:123-307 | every linked directory is reached from the root by exactly one path of entries other than "." and ".." |
| `DirTree.LeadsToOne` | xv6/kernel/fs.c:691-728 | a path leads to at most one inode |
| `DirTree.FileLinkedOk` | xv6/kernel/sysfile.c:145-156 | a new name for a file keeps the tree and the counts |
| `DirTree.DirMadeOk` | xv6/kernel/sysfile.c:275-294 | a new directory, with its link to its parent, keeps the tree and the counts |
| `DirTree.DirUnlinkedOk` | xv6/kernel/sysfile.c:217-233 | an empty directory that goes has one link, and its parent loses one; the tree and the counts are kept |
| `DirTree.DroppedOk` | xv6/kernel/fs.c:349-378 | an inode without links may go |
| `DirTree.Tree.Dirlookup` | xv6/kernel/fs.c:591-615 | finds the entry with a name if and only if there is one |
| `DirTree.Tree.FindVacant` | xv6/kernel/fs.c:619-646 | a place for a new entry, unless the name is taken |
| `DirTree.Tree.Namex` | xv6/kernel/fs.c:691-728 | the inode a path leads to, or none if it leads nowhere; never through a directory that has been unlinked |
| `DirTree.Tree.Isdirempty` | xv6/kernel/sysfile.c:173-186 | whether there is anything but "." and ".." |
| `DirTree.Tree.Link` | xv6/kernel/sysfile.c:123-170 | adds one name, or fails with the count restored, and fails only if there is no such file or no place for the name |
| `DirTree.Tree.Unlink` | xv6/kernel/sysfile.c:188-243 | removes one name, and the inode with its last unless it is held; fails, changing nothing, exactly if there is no entry it may remove; the panic for a count below one is not reached |
| `DirTree.Tree.Create` | xv6/kernel/sysfile.c:245-307 | makes a file, device or directory, or opens the file or device there when a file is wanted; every failure leaves things as they were, and there is one only if neither can be done |
| `DirTree.LinkedLeads` | xv6/kernel/sysfile.c:123-169 | after link the new name leads to the file and every path leads where it led |
| `DirTree.MadeLeads` | xv6/kernel/sysfile.c:245-307 | after create the path leads to the new inode and every path leads where it led |
| `DirTree.UnlinkedLeads` | xv6/kernel/sysfile.c:188-243 | after unlink the path leads nowhere, and no path leads anywhere new |
| `DirTree.Tree.Close` | xv6/kernel/fs.c:349-378 | an unlinked inode goes when its last holder lets go |
| `PageTable.IndicesInjective` | xv6/kernel/riscv.h:408-417 | below MAXVA the three indices determine the page |
| `PageTable.PteRoundTrip` | xv6/kernel/riscv.h:401-406 | an address and its flags survive being packed into an entry |
| `PageTable.LinkMid` | xv6/kernel/vm.c:104-114 | a new middle table changes no translation |
| `PageTable.LinkLow` | xv6/kernel/vm.c:104-114 | a new lowest table changes no translation |
| `PageTable.PteSetLeaf` | xv6/kernel/vm.c:163-173 | setting one entry changes one translation, of one space |
| `PageTable.OthersKept` | xv6/kernel/vm.c:98-326 | an operation on one space is seen by no other |
| `AddressSpaces.Memory.constructor` | xv6/kernel/kalloc.c:26-40 | the free list holds every page of the range |
| `AddressSpaces.Memory.Kalloc` | xv6/kernel/kalloc.c:68-82 | takes the first free page, 0 exactly when there is none |
| `AddressSpaces.Memory.Kfree` | xv6/kernel/kalloc.c:46-63 | the page goes to the front of the list; free and used pages still partition the whole |
| `AddressSpaces.Memory.Walk` | xv6/kernel/vm.c:98-116 | the lowest table of an address, adding tables if asked; every translation stays; fails only with fewer than two free pages |
| `AddressSpaces.Memory.Mappages` | xv6/kernel/vm.c:146-175 | maps exactly the range, up to where memory runs out or a page is mapped already; all else stays |
| `AddressSpaces.Memory.Uvmunmap` | xv6/kernel/vm.c:193-213 | unmaps exactly the range and frees its user pages; all else stays |
| `AddressSpaces.Memory.Uvmalloc` | xv6/kernel/vm.c:217-242 | maps zeroed pages for exactly the new range, or, when memory runs out, changes no mapping |
| `AddressSpaces.Memory.Uvmdealloc` | xv6/kernel/vm.c:248-260 | unmaps exactly the pages beyond the new size; asked to grow, does nothing |
| `AddressSpaces.Memory.Uvmcopy` | xv6/kernel/vm.c:298-326 | every mapped page is copied with its permissions into a fresh page, or, when memory runs out, the child's mappings stay; the parent's stay in any case |
| `AddressSpaces.Memory.Uvmcreate` | xv6/kernel/vm.c:179-188 | an empty space of its own |
| `AddressSpaces.Memory.Freewalk` | xv6/kernel/vm.c:264-280 | frees every table of the tree and nothing else; the panic at a leaf is not reached |
| `AddressSpaces.Memory.Uvmfree` | xv6/kernel/vm.c:284-290 | no page remains the space's own, and no other page is touched |
| `AddressSpaces.Memory.ProcPagetable` | xv6/kernel/proc.c:175-205 | trampoline, trapframe and no user memory; on failure every page is used as before |
| `AddressSpaces.Memory.ProcFreepagetable` | xv6/kernel/proc.c:209-215 | everything the space had is free; trampoline and trapframe are not |
| `AddressSpaces.NoSharing` | xv6/kernel/vm.c:146-326 | no physical page is mapped twice |
| `AddressSpaces.LifetimeLeaksNothing` | xv6/kernel/proc.c:175-215 | a space that came and went, however it was used, leaves the same free pages |
| `LazyMemory.FaultInvisible` | xv6/kernel/vm.c:458-478 | a page of zeros where there was none changes no byte of memory |
| `LazyMemory.GrowthInvisible` | xv6/kernel/vm.c:217-242 | nor does a range of them |
| `LazyMemory.CopySeen` | xv6/kernel/vm.c:298-326 | after fork the child's memory equals the parent's, touched or not |
| `LazyMemory.Ismapped` | xv6/kernel/vm.c:480-491 | whether a page has a valid entry |
| `LazyMemory.Walkaddr` | xv6/kernel/vm.c:121-139 | the physical page, exactly for pages the user may touch |
| `LazyMemory.Vmfault` | xv6/kernel/vm.c:458-478 | maps a page exactly if the address is within the process and not mapped, and memory suffices, readable and writable by the user and not executable; memory as the process sees it never changes |
| `LazyMemory.Copyout` | xv6/kernel/vm.c:344-377 | changes exactly the bytes copied; stops only at a page that is not writable or when memory runs out |
| `LazyMemory.Copyin` | xv6/kernel/vm.c:382-405 | returns exactly the bytes there and changes none; stops only at a page that is not the user's or when memory runs out |
| `LazyMemory.Growproc` | xv6/kernel/proc.c:235-254 | grows without a visible change or shrinks at a page boundary; shrinking by more than there is succeeds and does nothing |
| `LazyMemory.Sbrk` | xv6/kernel/sysproc.c:39-65 | growing at once and growing lazily give the same size and the same memory |
| `ProcessMemory.Live` | xv6/kernel/proc.c:175-285 | over the whole life of an address space, with any sequence of sbrk, faults, stores, fetches and forks, every fetch by the process or a child returns what was stored before it, no store or fetch goes beyond the pages of its size, with enough pages free at the start every operation is carried out in full, no other space sees a difference, and in the end exactly the same pages are free |
| `ProcessMemory.ForkAndReap` | xv6/kernel/proc.c:258-297 | a child sees its parent's memory, and when it is gone every page is as it was |
| `ProcessMemory.ChildShows` | xv6/kernel/vm.c:298-326 | every byte of a child is its parent's |
| `SleepLocks.StepKeeps` | xv6/kernel/sleeplock.c:21-44 | every step of every process, with kills, yields and sleeps elsewhere, keeps the invariant |
| `SleepLocks.WaitKept` | xv6/kernel/proc.c:547-596 | a process waiting for an unlocked lock is one that the wakeup in progress has yet to reach |
| `SleepLocks.MutualExclusion` | xv6/kernel/sleeplock.c:21-44 | in no run do two processes have one sleep lock |
| `SleepLocks.NoLostWakeup` | xv6/kernel/proc.c:547-620 | in every run, while the lock is unlocked and its spin lock is free, no process is registered or asleep on it |
| `SleepLocks.WaiterHasWaker` | xv6/kernel/proc.c:576-596 | a process asleep on a lock has someone to wake it |
| `SleepLocks.ReturnsWithLock` | xv6/kernel/sleeplock.c:22-44 | in every run acquiresleep() returns owning the lock and releasesleep() without it |
| `SleepLocks.LockedByOne` | xv6/kernel/sleeplock.c:22-44 | in every run a locked lock belongs to the process it names |
| `SleepLocks.SomeoneMoves` | xv6/kernel/sleeplock.c:22-44 | in no run do the processes in these calls come to a deadlock |
| `SleepLocks.FreeLockIsTaken` | xv6/kernel/sleeplock.c:22-34 | a free lock is had in five steps |
| `ExitWait.StepKeeps` | xv6/kernel/proc.c:258-419 | every step of fork, exit, wait, kill and wakeup keeps the invariant |
| `ExitWait.NoMissedExit` | xv6/kernel/proc.c:325-419 | in every run, while wait_lock is free, no process registered on its own channel, asleep or not, has a zombie child |
| `ExitWait.ParentsAlive` | xv6/kernel/proc.c:309-365 | in every run, every live or zombie process but init has a parent that is alive |
| `ExitWait.ReapedOnce` | xv6/kernel/proc.c:369-405 | in every run a child is reaped at most once, after it exited, with the status it exited with |
| `ExitWait.ReapedIsOff` | xv6/kernel/proc.c:383-401 | a process is reaped by its parent, once it has left the CPU for good |
| `ExitWait.GivesUpRightly` | xv6/kernel/proc.c:407-411 | a scan that ends without a zombie, and there was none, gives up if and only if the process has been killed or has no child |
| `ExitWait.WaitsForSomeone` | xv6/kernel/proc.c:407-418 | in no run does a process wait, asleep or about to be, or woken by a kill and not yet exiting, that has no child |
| `ExitWait.FindsZombie` | xv6/kernel/proc.c:382-403 | a scan that comes to a zombie reaps it, with the status it exited with, and returns |
| `ExitWait.SomeoneMoves` | xv6/kernel/proc.c:321-420 | in no run do fork, exit and wait come to a deadlock |
| `ExitWait.ForkMakes` | xv6/kernel/proc.c:258-306 | an undisturbed fork makes a child that is ready to run, its parent's, with an id no process has had |
| `FreeRing.NoAdjacentFree` | xv6/user/umalloc.c:33-42 | no two free blocks touch |
| `FreeRing.BlocksApart` | xv6/user/umalloc.c:24-90 | blocks, in use or free, do not overlap |
| `UserHeap.SbrkArgument` | xv6/user/umalloc.c:52-56 | what sbrk is asked for fits its int if and only if the request is at most 0x7FFFFFE0 bytes |
| `UserHeap.PlaceTest` | xv6/user/umalloc.c:30-32 | the tests in the loop of free() hold at a header exactly if the block belongs after it |
| `UserHeap.FreedMem` | xv6/user/umalloc.c:33-42 | the pointer and size updates of free() are an insertion and the joins that touching blocks call for |
| `UserHeap.Heap.FindPlace` | xv6/user/umalloc.c:30-32 | the search ends at the header after which the block belongs, wherever it starts |
| `UserHeap.Heap.Free` | xv6/user/umalloc.c:24-44 | the block is free and joined to its neighbours; every other block in use is untouched; units are conserved |
| `UserHeap.Heap.Morecore` | xv6/user/umalloc.c:46-61 | adds the units sbrk gave to the free blocks, so that one is large enough; fails exactly if sbrk does |
| `UserHeap.Heap.Search` | xv6/user/umalloc.c:74-89 | going once round the ring takes the end of the first free block that is large enough, or there is none |
| `UserHeap.Heap.Malloc` | xv6/user/umalloc.c:63-90 | a block with room for the bytes asked for after its header, and no larger than that takes, of units that no one was using, from the end of the first free block that is large enough; every block in use is untouched; 0 only if no free block is large enough and sbrk fails; sbrk is called at most once |
| `PipeRing.Pipe.FullTest` | xv6/kernel/pipe.c:88-130 | the tests for full and empty on wrapped counters say what they should |
| `PipeRing.Pipe.WriteSome` | xv6/kernel/pipe.c:76-109 | puts in exactly as many of the next bytes as there are, as the source yields and as there is room for, and says which ended it; with no reader, or killed, it breaks off at once and nothing goes in |
| `PipeRing.Pipe.ReadSome` | xv6/kernel/pipe.c:126-141 | takes out exactly as many of the next bytes as are wanted, as can be copied out and as there are |
| `PipeRing.Pipe.MustWait` | xv6/kernel/pipe.c:119-128 | a reader waits exactly while the pipe is empty and open for writing |
| `PipeRing.Pipe.Close` | xv6/kernel/pipe.c:58-74 | the pipe is freed exactly when both ends are closed |
| `PipeRing.Transfers` | xv6/kernel/pipe.c:76-143 | with messages of a size that divides PIPESIZE, in any order of turns, the pipe is a queue: a message goes in whole if fewer than PIPESIZE / size are waiting and otherwise not at all, and a read takes the oldest whole if there is one |
| `Wrapping.PlaceOfWrapped` | xv6/kernel/pipe.c:101-132 | a counter that wraps at a multiple of the ring's size finds the same place as one that does not |
| `VirtioDisk.InFlightBound` | xv6/kernel/virtio_disk.c:156-213 | three descriptors for each request in flight, never more than there are |
| `VirtioDisk.RingsFit` | xv6/kernel/virtio_disk.c:274-330 | neither ring ever holds more than NUM / 3 requests |
| `VirtioDisk.Disk.AllocDesc` | xv6/kernel/virtio_disk.c:156-166 | takes a free descriptor, -1 exactly if there is none |
| `VirtioDisk.Disk.FreeDesc` | xv6/kernel/virtio_disk.c:169-182 | the panics are not reached by one who has the descriptor |
| `VirtioDisk.Disk.Alloc3` | xv6/kernel/virtio_disk.c:201-213 | three descriptors, or none, and none only with fewer than three free |
| `VirtioDisk.Disk.Start` | xv6/kernel/virtio_disk.c:215-284 | the request, for the sectors of the block, is posted with its buffer marked busy, or, with fewer than three descriptors free, nothing is |
| `VirtioDisk.Disk.DeviceFetch` | xv6/kernel/virtio_disk.c:274-284 | the device finds the oldest request it has not taken, across wraparound |
| `VirtioDisk.Disk.DeviceComplete` | xv6/kernel/virtio_disk.c:238-268 | what the chain tells a device that keeps to its flags is what the request asked: sector, direction and buffer |
| `VirtioDisk.Disk.Intr` | xv6/kernel/virtio_disk.c:300-333 | marks the buffers of exactly the completed requests as done; the status panic is not reached |
| `VirtioDisk.Disk.Finish` | xv6/kernel/virtio_disk.c:286-298 | the request is gone and its three descriptors are free; others are untouched |
| `VirtioDisk.Disk.FreeChain` | xv6/kernel/virtio_disk.c:185-197 | follows a chain to its end, freeing each descriptor |
| `ShellGrammar.ParsesWhatIsDerived` | xv6/user/sh.c:350-452 | a whole line is parsed as a tree if and only if the grammar derives it as that tree |
| `ShellGrammar.LineSound` | xv6/user/sh.c:350-365 | what is parsed was spelled by the tree and what follows |
| `ShellGrammar.LineComplete` | xv6/user/sh.c:350-365 | what a tree spells is parsed as that tree |
| `ShellPrinter.ParsedAsPrinted` | xv6/user/sh.c:343-377 | every command, printed with parentheses where they are needed, is parsed back as itself: pipes, lists, background and redirections nest as written |
| `ShellPrinter.InOrder` | xv6/user/sh.c:379-475 | the arguments and the redirections of what is parsed are those of the line, each in the order in which they stand |
| `ShellParser.TokensAre` | xv6/user/sh.c:267-315 | a line is read as some pieces of text if and only if they are its tokens: whitespace separates, words and ">" go on as long as they can |
| `ShellParser.Parser.GetToken` | xv6/user/sh.c:271-314 | the next token of the line, and where it begins and ends |
| `ShellParser.Parser.Peek` | xv6/user/sh.c:316-326 | whether the next token begins with one of some symbols; only space is skipped |
| `ShellParser.Parser.ParseRedirs` | xv6/user/sh.c:380-403 | the redirections of the grammar, or a panic where it has none |
| `ShellParser.Parser.ParseExec` | xv6/user/sh.c:421-452 | the command of the grammar, or a panic where it has none |
| `ShellParser.Parser.ParseBlock` | xv6/user/sh.c:405-419 | the block of the grammar, or a panic where it has none |
| `ShellParser.Parser.ParsePipe` | xv6/user/sh.c:367-378 | the pipeline of the grammar, or a panic where it has none |
| `ShellParser.Parser.ParseLine` | xv6/user/sh.c:350-365 | the line of the grammar, or a panic where it has none |
| `ShellStrings.NulTerminate` | xv6/user/sh.c:455-499 | a NUL after every word of the command, and no other change |
| `ShellStrings.WordIntact` | xv6/user/sh.c:454-499 | a NUL after one word is never inside another, so every word is a string in place |
| `ShellStrings.ParseCmd` | xv6/user/sh.c:333-348 | a command exactly if the grammar derives the line, the one it derives, which is the one whose printing the line is and has its words and redirections in order, with every word of it a string in the buffer |
| `Grep.OneHere` | xv6/user/grep.c:94-95 | a single character matches as its language says |
| `Grep.StarHere` | xv6/user/grep.c:90-91 | a starred character matches as its language says |
| `Grep.ReadAsSpelled` | xv6/user/grep.c:58-108 | every pattern that can be written is read as it was meant |
| `Grep.SpelledAsRead` | xv6/user/grep.c:58-108 | every string is the writing of the pattern it is read as |
| `Grep.MeansAsSpelled` | xv6/user/grep.c:72-82 | with a '^' in front a written pattern must match at the start of the text, without one anywhere in it |
| `Grep.MatchLaws` | xv6/user/grep.c:84-108 | matching at the start of a text, character by character: '.', a literal, a star and a final '$' |
| `Grep.MatchHere` | xv6/user/grep.c:85-97 | matches if and only if a prefix is in the pattern's language, the whole text under a final '$' |
| `Grep.MatchStar` | xv6/user/grep.c:100-108 | matches if and only if the rest does after some characters that fit |
| `Grep.Match` | xv6/user/grep.c:72-82 | matches if and only if the pattern does at some position, the first under '^' |
| `Grep.Lines` | xv6/user/grep.c:20-33 | the complete lines in the buffer are matched and written, and the rest is kept |
| `Grep.Run` | xv6/user/grep.c:11-35 | however the input is chunked, writes the matching lines, in order, up to the first that fills the buffer or holds a NUL |
| `Grep.CompleteExactlyWhen` | xv6/user/grep.c:16-34 | that is every matching line ended by a newline if and only if none matches from the first line on that fills the buffer or holds a NUL |
| `Grep.CompleteIfShort` | xv6/user/grep.c:16-34 | so it is when every line is of at most 1022 characters and has no NUL |
| `Grep.LongLineLost` | xv6/user/grep.c:16-34 | a matching line of 1023 characters is not written |

## Left out

- The boot code, traps, the scheduler's choice of process, devices other than the disk, and the C memory model: assembly and registers; a section under a spin lock is taken to be atomic.
- The dispatch of system calls and the fetching of their arguments: the operations are called directly.
- exec and ELF loading: sequences of operations modelled here.
- mkfs: a well-formed disk is assumed to start with.
- The remaining user programs: they would add only easy members.
- iget, ilock, ialloc and the in-memory inode table: `FileSystem` has one in-memory inode for each on disk, and an inode's own block as a record of its fields, not as bytes.
- skipelem: a path is the sequence of its elements, cut to size.
- copyinstr, uvmclear and the kernel's own page table: they follow the operations modelled here.
- Concurrent interleaving inside link, unlink and create: each is atomic in `DirTree`, as each is one file system operation under locks.
- LogLayer.Log.Bread: the wait for a buffer that is locked is a precondition; in `StorageRuns.Run` it is a place where a run stops.
- LogLayer.Log.WriteLog: that no logged block's buffer is locked is a precondition, for which the source waits; in `StorageRuns.Run` it is a place where a run stops.
- LogLayer.Log.InstallTrans: the same precondition.
- LogLayer.Log.Commit: the same precondition.
- LogLayer.Log.EndOp: the same precondition for the last operation.
- StorageRuns.Run: callers log a change before they give up its buffer or end the last operation, and change blocks only inside operations, as log.c:214-222 asks of them; a write of a commit and its two bread() calls are one step, so a commit that waits for a block does not keep the log block's buffer meanwhile.
- StorageRuns.Sessions: there are at least two buffers, without which a boot may panic.
- StorageMachine.WriteBlock: speaks of the machine, and of the code through `StorageRuns.Run`.
- StorageMachine.CommitAlone: the same.
- StorageMachine.ReaderStopsCommit: the same.
- filealloc, filedup and fileclose: reference counts, easy.
- BufferCache.BCache.Bget: stops before the wait for the buffer's sleep lock, which `SleepLocks` models; the log uses the contract proved here rather than the linked list itself.
- LogLayer.Log.LogWrite: the absorbing search is stated by its result, the list of distinct logged blocks.
- FileSystem.FileSys.Writei: copying from user memory is modelled by how many blocks it delivers before it fails.
- DirTree.Tree.Create: whether there is a free inode, and room for the entries, are parameters; counts are taken to be below 2^15, as nlink is a short with no check.
- FileSystem.FileSys.Bfree: the block is one of the data area, as every caller's is.
- DirTree.Tree.Close: references are a set of inodes that are held, not counts.
- AddressSpaces.Memory.Mappages: pages below the trapframe must be the kernel's to give, as every caller's are.
- AddressSpaces.Memory.Uvmunmap: frees what it unmaps exactly below the trapframe, as every caller asks.
- AddressSpaces.Memory.Walk: an address at or above MAXVA, for which it panics, is a precondition.
- LazyMemory.Copyout: sizes and addresses are unbounded integers; the process's size is below the trapframe, as sbrk and exec keep it.
- ExitWait.ReapedOnce: process ids do not wrap around.
- UserHeap.Heap.Malloc: addresses are in units of a header, so what sbrk returns is taken to be aligned; requests are at most 0x7FFFFFE0 bytes.
- VirtioDisk.Disk.Start: the wait for descriptors is a result, after which the caller tries again.
- ShellParser.Parser.ParseExec: the node of a command is built once its words are known, not filled in place while redirections point to it.
