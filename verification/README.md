# A verified model of xv6-riscv

This project models the parts of xv6 for RISC-V whose correctness is a matter of protocols and invariants
rather than of single functions, and proves what they promise. Every module follows one component:

- `LogDisk`, `LogSystem`, `RingCache`, `BufferCache`, `Log`, `Admission`: the write-ahead log over the buffer cache.
  `LogDisk` is what commit and recovery do to the disk, write by write, with a crash between any two. `LogSystem` is
  the whole as a state machine with any number of operations and readers, over a cache keyed by block number.
  `RingCache` shows that the buffers on the ring refine that cache on every run. `BufferCache` and `Log` are the code
  of kernel/bio.c and kernel/log.c, whose block writes are shown to be those of `LogDisk`. `Admission` is begin_op,
  end_op and the space bookkeeping again, process by process, with the code that performs its steps.
- `FsCodec`, `FsBlocks`, `FsFiles`, `Directory`, `DirFiles`, `Namei`: bitmap and block ownership, files as byte
  sequences, directories as maps and as files of 16-byte entries, paths and the inode table. `FileCrash` puts filewrite
  over the log.
- `PageTable`, `UserVm`, `UserCopy`, `Kalloc`, `Mmap`: the three-level page table as a flat map, conservation of
  pages, copying to and from user memory, the page allocator, and memory-mapped regions.
- `Umalloc`: the Kernighan and Ritchie allocator of user/umalloc.c.
- `Virtio`, `Pipe`, `Console`: the disk queue, pipes with sleep and wakeup, and console line editing, each as a
  state machine with the code that performs its steps.
- `Shell`, `Grep`: the command parser and the regular expression matcher.

Protocols are state machines: a step is what happens under one lock, and theorems are about every run. The code
is a class or methods with the source's loops, each shown to compute the step or the function of the model.
Ownership (of disk blocks, of pages, of heap units, of virtio descriptors) is a map from each unit to its one
owner together with the inverse; "no unit has two owners" and "nothing is lost" are then the same invariant.
Large predicates are kept folded behind a quantifier that a proof opens by naming `Key(0)` or the like; the
folding has no logical content.

## Hypotheses

- Acquiring and releasing a spinlock are atomic, and the code between is one step.
- Callers change a buffer only while holding it, and call log_write or bwrite before brelse.
- There is one disk device. Words of the log header are natural numbers, not 32-bit.
- User copies succeed, except in copyin, copyout and where a page is missing in munmap.
- A device that completes a virtio request writes status 0 and reports each request once; it may take its time and
  complete in any order.
- A page given to mappages is not mapped elsewhere: it is one the caller got from kalloc or one outside the pool.
  Leaf permissions have some bit besides V, and one of R, W and X when the space is freed: freewalk takes a mapping
  without these for a table.
- A panic stops the system, so nothing is claimed of the state after it.

## Where the code does not do what one might expect

- log_write tests for "too big" before it looks for absorption, and mkfs gives the log LOGSIZE blocks of which the
  header takes one, so an operation within its admitted budget can panic (`Admission.BudgetRefusedReachable` is such a
  run, `LogSystem.BudgetRefused` says exactly when).
- malloc of more than 0x7FFFFFE0 bytes passes a wrapped size to sbrk and records more than it got
  (`Umalloc.SbrkExact`, `Umalloc.SbrkWraps`).
- A writer that notices that it was killed leaves pipewrite without waking readers, so a reader can sleep beside
  unread bytes (`Pipe.SleepKept`, `Pipe.KilledWriterLosesWakeup`).
- virtio_disk_rw computes the sector in 32 bits, so a request for a block number from 2^31 on reads or writes the sector
  of another block (`Virtio.SectorExact`, `Virtio.SectorAliases`, `Virtio.SectorFails`).
- dirlink stores 16 bits of the inode number, so the name leads to the inode that was linked exactly when its number
  is between 1 and 0xFFFF (`Directory.RecordedExact`, `Directory.RecordedFails`).

## Model

| member | source | states |
|---|---|---|
| `LogDisk.CrashAtomic` | kernel/log.c:67-123 | a crash after any single block write of commit, followed by any number of interrupted recoveries, is all or nothing: the completed recovery leaves every home block at its old contents if the header write was not reached, else every logged home block at its new contents and no other home block touched; the log is then empty |
| `LogDisk.CommitStep` | kernel/log.c:193-203 | the same for one completed recovery after k of the 2n + 2 block writes of commit: old contents up to the n log-block writes, new contents from the header write on |
| `LogDisk.RecoverStep` | kernel/log.c:116-123 | a crash after any number of block writes of recover_from_log does not change what the next completed recovery yields |
| `LogDisk.ChainKeepsRecovered` | kernel/log.c:116-123 | nor does any chain of interrupted recoveries |
| `LogDisk.HeadedRoundTrip` | kernel/log.c:86-114 | read_head after write_head gives back the block list, for every list log_write can build |
| `LogDisk.InstalledAt` | kernel/log.c:68-83 | after k iterations of install_trans the first k named home blocks hold their log blocks and every other block is unchanged |
| `LogDisk.AppendedAt` | kernel/log.c:178-191 | after k iterations of write_log the first k log blocks hold the cached contents and nothing else on disk has changed |
| `LogDisk.CommitIsRecovery` | kernel/log.c:193-203 | from the header write on, a commit goes through exactly the disks of a recovery |
| `LogDisk.AtHeader` | kernel/log.c:193-203 | right after the single header write a recovery installs the whole transaction |
| `LogDisk.BeforeHeader` | kernel/log.c:178-191 | before the header write a recovery still finds an empty log and changes no home block |
| `LogDisk.RecoveredAt` | kernel/log.c:116-123 | a completed recovery leaves each logged home block equal to its log block, every other home block unchanged, and the log empty |
| `LogDisk.LogHolds` | kernel/log.c:178-203 | from the header write until the log is cleared the log blocks hold the transaction |
| `LogDisk.CommitHome` | kernel/log.c:68-83 | an installed home block keeps its new contents for the rest of the commit |
| `LogSystem.StepKeeps` | kernel/log.c:67-235 | every step of every interleaving keeps the invariant that ties log, cache, disk and budgets together: begin_op with its space test and its sleepers, readers, cache recycling, log_write, end_op, commit, crash, and recovery through the cache |
| `LogSystem.AdmissionSafe` | kernel/log.c:126-175 | on every run: committing implies no operation runs, so end_op's panic is out of reach; lh.n plus all unspent budgets is at most LOGSIZE; a process asleep in begin_op would have to wait again, and a commit or an operation is under way |
| `LogSystem.BudgetRefused` | kernel/log.c:214-235 | an operation within its budget always finds n < LOGSIZE for a new block, and is refused exactly when n >= size - 1: never with size > LOGSIZE, and with size = LOGSIZE exactly at n = LOGSIZE - 1; a block that would be absorbed is refused by either test |
| `LogSystem.HomeWrites` | kernel/log.c:68-83 | no step changes a home block on disk but the iteration of install_trans for that block, in a commit or a recovery |
| `LogSystem.Transparent` | kernel/bio.c:58-137 | on every run, outside recovery, what bread shows for a home block is the logical disk: the initial one with every change that operations made, in order, where a crash takes back what came after the commit point |
| `LogSystem.CrashKeepsOperations` | kernel/log.c:67-235 | on every run, a crash at any moment and any number of interrupted recoveries restore the logical disk as it was when the last committed operations had all ended, none half done |
| `LogSystem.RunRefines` | kernel/log.c:126-235 | state by state: what readers see, what a crash would restore and what a commit is about, as logical disks of the run |
| `LogSystem.LoggedStaysCached` | kernel/log.c:178-235 | from log_write until install_trans reaches it, every logged block has a valid cached buffer with refcnt >= 1 that bget can never recycle, and its data is what readers see |
| `LogSystem.CrashSafe` | kernel/log.c:67-235 | on every run, a crash at any moment followed by any number of interrupted recoveries restores exactly the contents of the last commit point |
| `LogSystem.RunKeeps` | kernel/log.c:126-235 | on every run the recorded durable contents are those of the last commit point |
| `LogSystem.CommitPointIsQuiet` | kernel/log.c:146-175 | a commit point is reached only when no operation runs and no buffer has changes that were not logged |
| `LogSystem.ContentsKept` | kernel/bio.c:58-137 | hits, misses, recycling, releases, write_log, the header writes and install_trans change no contents that bread would show; only a holder's own change does |
| `LogSystem.QuiescentDurable` | kernel/log.c:146-203 | with no operation running and no commit under way, what readers see is what a crash would restore |
| `LogSystem.Durable` | kernel/log.c:116-123 | in every state of the invariant the disk recovers to the contents of the last commit point |
| `LogSystem.InstallSame` | kernel/log.c:68-83 | the log block that install_trans copies home equals the pinned buffer of that home block |
| `LogSystem.ContentsAtCommit` | kernel/log.c:178-191 | the values write_log copies are the contents the operations left in the cache |
| `LogSystem.ForgetKeeps` | kernel/bio.c:75-87 | a buffer that bget may recycle is not logged, so forgetting it is harmless |
| `BufferCache.BCache.constructor` | kernel/bio.c:36-53 | binit makes prev and next one ring through all buffers and the head, no buffer is in use, and every block reads as on disk |
| `BufferCache.BCache.Find` | kernel/bio.c:58-73 | the first loop of bget finds the one buffer of (dev, blockno) or none |
| `BufferCache.BCache.FindUnused` | kernel/bio.c:75-87 | the second loop of bget finds the least recently used unreferenced buffer, and none exactly when all are referenced |
| `BufferCache.BCache.Bget` | kernel/bio.c:58-89 | bget returns the block's buffer with one more reference, or recycles the least recently used unreferenced one; it panics exactly when the block is not cached and none is unreferenced |
| `BufferCache.BCache.Bread` | kernel/bio.c:92-103 | bread changes no contents; it adds one reference and the lock, and panics exactly when the block has no reference and no buffer is free |
| `BufferCache.BCache.Fill` | kernel/bio.c:92-103 | the buffer that bget returned is read from disk unless it is valid |
| `BufferCache.BCache.Bwrite` | kernel/bio.c:106-112 | bwrite puts the cached contents of one block on disk and nothing else |
| `BufferCache.BCache.Brelse` | kernel/bio.c:116-137 | brelse drops the lock and one reference; at the last one the buffer moves to the front of the ring and the others keep their order; no contents change |
| `BufferCache.BCache.Bpin` | kernel/bio.c:139-144 | bpin adds one reference and changes nothing else |
| `BufferCache.BCache.Bunpin` | kernel/bio.c:146-151 | bunpin drops one reference and changes nothing else |
| `BufferCache.BCache.MoveToHead` | kernel/bio.c:123-132 | the relinking keeps one ring through all buffers |
| `BufferCache.MoveToFront` | kernel/bio.c:123-132 | unlinking a buffer and linking it behind the head keeps prev and next inverse of each other on one ring |
| `BufferCache.UniqueBuffer` | kernel/bio.c:58-89 | no two buffers hold the same (dev, blockno) for dev other than the initial 0 |
| `BufferCache.RecycleCache` | kernel/bio.c:75-101 | recycling an unreferenced buffer and reading the new block changes no contents that bread shows |
| `BufferCache.HitCache` | kernel/bio.c:66-73 | a hit changes no contents, only the reference count and the lock |
| `RingCache.RunRefines` | kernel/bio.c:36-151 | on every run of the state machine the NBUF buffers form one ring through all of them and the head, no two hold the same block, and together they are the cache keyed by block number |
| `RingCache.StepRefines` | kernel/bio.c:58-151 | bget with its least recently used victim, bread, bwrite, brelse with its relinking, bpin and bunpin on the ring refine the steps on the keyed cache |
| `RingCache.BgetRefines` | kernel/bio.c:58-87 | whatever bget finds is a step of the state machine: a hit for a cached block, otherwise the recycling of the victim |
| `RingCache.BgetPanics` | kernel/bio.c:75-88 | with every buffer referenced and the block not cached, bget has no hit, no buffer to recycle and no fresh one |
| `RingCache.VictimExists` | kernel/bio.c:75-87 | with some buffer unreferenced bget finds one |
| `RingCache.OrderIsByUse` | kernel/bio.c:116-137 | on every run the ring from the head on is in the order in which the buffers last lost their last reference |
| `RingCache.LeastRecentlyUsed` | kernel/bio.c:75-87 | so the buffer that bget recycles was let go no later than any other unreferenced one |
| `RingCache.LoggedHasOneBuffer` | kernel/bio.c:58-151 | on every run, from log_write until install_trans reaches it, a logged block has exactly one buffer: valid, referenced, never the victim of bget, with the contents that readers see |
| `RingCache.BgetIsSteps` | kernel/bio.c:58-89 | what bget does in one go, BufferCache.BCache.Bget, is the step and then the lock |
| `Log.CommitIsScript` | kernel/log.c:193-203 | the disks of LogDisk.CommitDisk, one per block write, are a commit as the code below performs it |
| `Log.RecoveryIsScript` | kernel/log.c:116-123 | the disks of LogDisk.RecoverDisk are a recovery as the code below performs it |
| `Log.Log.WriteLog` | kernel/log.c:178-191 | write_log, through bread, bwrite and brelse, writes exactly the next disks of the commit; it stops early only if the cache has no unreferenced buffer |
| `Log.Log.WriteHead` | kernel/log.c:102-114 | write_head is one block write of the header that stores lh |
| `Log.Log.InstallTrans` | kernel/log.c:68-83 | install_trans writes exactly the next disks of the commit or recovery and drops each pin of a commit |
| `Log.Log.Commit` | kernel/log.c:193-203 | commit, through the buffer cache, performs the 2n + 2 block writes of LogDisk.CommitDisk in order and leaves lh empty; one unreferenced buffer is enough for it never to panic |
| `Log.Log.ReadHead` | kernel/log.c:86-97 | read_head gives lh the block list stored in the header |
| `Log.Log.RecoverFromLog` | kernel/log.c:116-123 | recover_from_log performs the block writes of LogDisk.RecoverDisk in order; two unreferenced buffers are enough |
| `Log.Log.LogWrite` | kernel/log.c:214-235 | log_write records a block once (absorption), pins its buffer the first time only, keeps the logged numbers distinct and outside the log, and panics exactly on its size tests and its outstanding test, which come before the look for absorption |
| `Admission.AdmissionSafe` | kernel/log.c:126-175 | over every interleaving: end_op never panics, committing implies outstanding = 0, no operation runs during a commit, one committer at most, and lh.n plus all unspent budgets never exceeds LOGSIZE |
| `Admission.NoLostWakeup` | kernel/log.c:126-175 | a process asleep in begin_op would still have to wait, and another process is in an operation or in a commit whose end wakes it |
| `Admission.StepKeeps` | kernel/log.c:126-175 | every section under log.lock keeps the admission invariant |
| `Admission.BudgetRefused` | kernel/log.c:214-221 | with nlog = LOGSIZE (mkfs/mkfs.c:25) log_write refuses an operation within its budget exactly when one slot is left |
| `Admission.BudgetRefusedReachable` | kernel/log.c:214-221 | a run of three operations that reaches that refusal |
| `Admission.LogLock.BeginOp` | kernel/log.c:126-142 | one turn of begin_op is the step of the protocol: it enters the operation exactly when no commit is under way and lh.n + (outstanding + 1) * MAXOPBLOCKS is at most LOGSIZE, and sleeps otherwise |
| `Admission.LogLock.EndOp` | kernel/log.c:146-164 | end_op up to its first release is the step of the protocol: it panics exactly during a commit, and commits exactly when this was the last operation |
| `Admission.LogLock.CommitDone` | kernel/log.c:166-174 | the end of end_op after commit is the step of the protocol |
| `Admission.LogLock.Append` | kernel/log.c:214-235 | log_write of a new block spends one unit of the operation's budget, and panics exactly on its size and outstanding tests |
| `Admission.LogLock.Wakeup` | kernel/proc.c:924-940 | wakeup makes every process that sleeps on the log runnable and no other |
| `Umalloc.Malloc.constructor` | user/umalloc.c:19-22 | before the first call nothing is allocated |
| `Umalloc.Malloc.Free` | user/umalloc.c:24-44 | free keeps the list one ascending ring through base without touching blocks; the block's units end up inside one free block and no unit is lost and no other live block changes; freep is then the last free block below it |
| `Umalloc.Malloc.Allocate` | user/umalloc.c:63-90 | malloc returns a new live block whose units cover nbytes, disjoint from all others; sbrk is asked exactly when there is no list yet or no free block is large enough; if it is not asked, the block is the tail of the first free block from freep on that is large enough; malloc fails only if sbrk was asked and refused |
| `Umalloc.Malloc.Start` | user/umalloc.c:70-73 | the first call makes the list of the one empty block at base, and a later one changes nothing |
| `Umalloc.Search` | user/umalloc.c:29-32 | free's search ends, from any freep, exactly at the free block after which the block belongs |
| `Umalloc.SearchStops` | user/umalloc.c:29-32 | its two tests hold exactly at that place |
| `Umalloc.JoinAfter` | user/umalloc.c:33-37 | the block is linked in and joined to the one above if and only if they touch |
| `Umalloc.JoinBefore` | user/umalloc.c:38-43 | and to the one below if and only if they touch |
| `Umalloc.JoinRing` | user/umalloc.c:33-42 | joining two touching neighbours keeps the ring ascending and closed |
| `Umalloc.JoinOwner` | user/umalloc.c:33-42 | and keeps every unit in exactly one block |
| `Umalloc.FreeBlock` | user/umalloc.c:24-44 | the list stays one ascending ring without touching neighbours, every unit keeps exactly one block, and the freed units lie inside one free block |
| `Umalloc.Scan` | user/umalloc.c:74-90 | malloc's search goes once around the ring: it finds the first block from freep on that is large enough, or nothing exactly when there is none |
| `Umalloc.Take` | user/umalloc.c:75-84 | malloc takes the whole block or its tail, and the rest stays free: what is returned ends where the free block ended |
| `Umalloc.TakeTail` | user/umalloc.c:79-82 | carving the tail off a free block keeps ring and ownership |
| `Umalloc.Grow` | user/umalloc.c:46-61 | morecore's new units join the list through free; the units owned grow by exactly what sbrk gave |
| `Umalloc.FindFit` | user/umalloc.c:74-90 | morecore is called exactly when no free block is large enough; otherwise the first fit is found and nothing changes; after growing, the second look succeeds, so it is called at most once |
| `Umalloc.SbrkExact` | user/umalloc.c:46-58 | the request that morecore passes to sbrk(int) is the one it records if and only if nbytes <= 0x7FFFFFE0 |
| `Umalloc.SbrkWraps` | user/umalloc.c:46-58 | malloc(0xFFFFFFFF) asks sbrk for 16 bytes and records a block of more than 2^28 units |
| `Umalloc.Units` | user/umalloc.c:69 | the unit count is the least that holds the header and nbytes |
| `Grep.Match` | user/grep.c:70-80 | match is true exactly when the pattern's meaning holds: at the start with a leading '^', else at some position |
| `Grep.MatchHere` | user/grep.c:83-94 | matchhere is true exactly when some prefix of the text is in the language of the parsed pattern |
| `Grep.MatchStar` | user/grep.c:97-104 | matchstar is true exactly when some number of fitting characters is followed by a match of the rest |
| `Grep.StarMatches` | user/grep.c:97-104 | 'c*' followed by the rest matches exactly when some number of fitting characters is followed by a match of the rest |
| `Grep.OneMatches` | user/grep.c:83-94 | a literal or '.' followed by the rest matches exactly when the first character fits and the rest matches after it |
| `Grep.EndMatches` | user/grep.c:89-90 | a final '$' matches exactly at the end |
| `Pipe.ReadIsPrefix` | kernel/pipe.c:76-130 | on every run, killed processes included, all bytes ever read are a prefix of all bytes ever written, at most PIPESIZE behind, and neither history is revised |
| `Pipe.WriteIsSource` | kernel/pipe.c:76-103 | from a call of pipewrite with source src to any later state of any run, what that process added to the pipe is a prefix of src: all of it, with its length as the result, when it returned a count, and a result of -1 only with the read end closed or the process killed |
| `Pipe.OnlyWritersWrite` | kernel/pipe.c:76-130 | a step adds bytes to the pipe only for the process that takes it, and only inside pipewrite |
| `Pipe.ReadGets` | kernel/pipe.c:105-130 | a reader that returns gets the next unread bytes, as many as there are up to n, and 0 exactly at the end of a pipe that nobody can write any more; it sleeps only on an empty pipe that may still be written |
| `Pipe.NoLostWakeup` | kernel/pipe.c:76-130 | a sleeping reader means an empty pipe that may still be written, a sleeping writer a full pipe that may still be read, so never both, as long as no killed writer left bytes unheard |
| `Pipe.SleepKept` | kernel/pipe.c:76-130 | a step keeps every sleeper justified if and only if it is not a killed writer that leaves bytes behind while a reader sleeps |
| `Pipe.KilledWriterLosesWakeup` | kernel/pipe.c:84-87 | such a run exists: pipewrite returns -1 for a killed writer without waking the reader |
| `Pipe.DataKept` | kernel/pipe.c:58-130 | every step keeps the prefix property and only adds to both histories |
| `Pipe.PipeObject.constructor` | kernel/pipe.c:22-35 | a fresh pipe is empty, open at both ends and used by nobody |
| `Pipe.PipeObject.Write` | kernel/pipe.c:76-103 | pipewrite up to its return or sleep is the step of the protocol that WriteIsSource is about |
| `Pipe.PipeObject.Read` | kernel/pipe.c:105-130 | piperead up to its return or sleep is the step of the protocol; the bytes returned are the next ones written |
| `Pipe.PipeObject.WriteKilled` | kernel/pipe.c:83-87 | pipewrite of a killed process is the step that stores some bytes, returns -1 and wakes nobody |
| `Pipe.PipeObject.ReadKilled` | kernel/pipe.c:112-130 | piperead of a killed process returns -1 exactly where it would have slept, and reads as ever otherwise |
| `Pipe.PipeObject.Close` | kernel/pipe.c:58-74 | pipeclose is the step of the protocol, and the page is freed exactly when both ends are closed |
| `Pipe.PipeObject.Fill` | kernel/pipe.c:83-98 | the copying loop puts in as much as fits |
| `Pipe.PipeObject.Drain` | kernel/pipe.c:120-126 | the copying loop takes out as much as there is, up to n |
| `Pipe.PipeObject.Full` | kernel/pipe.c:88 | the test on the wrapped 32-bit counters is true exactly when PIPESIZE bytes are unread |
| `Pipe.PipeObject.Empty` | kernel/pipe.c:113 | and exactly when none is |
| `Pipe.PipeObject.Wakeup` | kernel/proc.c:924-940 | wakeup makes every process that sleeps on the channel runnable and no other |
| `Virtio.RunKeeps` | kernel/virtio_disk.c:144-315 | on every run, for any completion order and any number of 16-bit index wraps, the queue invariant holds and no panic of free_desc or virtio_disk_intr is reached |
| `Virtio.ExactlyOnce` | kernel/virtio_disk.c:203-315 | a request is completed if and only if it is in the completion history, at exactly one place, with the transfer that was submitted; CallTransfers ties that to the call |
| `Virtio.CallTransfers` | kernel/virtio_disk.c:203-315 | from a call of virtio_disk_rw for a buffer, block and direction to any later state of any run: the transfer completed for it is of that buffer, in that direction and at sector 2 * blockno for blockno < 2^31, there is at most one, and there is one once the call no longer waits |
| `Virtio.RunAdvances` | kernel/virtio_disk.c:203-315 | over any stretch of a run no request goes back, is forgotten or is completed again |
| `Virtio.FreeSetExact` | kernel/virtio_disk.c:144-201 | a descriptor is free exactly when no live chain holds it, and live chains share none |
| `Virtio.NoLostWakeup` | kernel/virtio_disk.c:215-274 | a process asleep for descriptors lacks them and a live request will give some back; a process asleep on its buffer has a request the handler has not seen |
| `Virtio.StepKeeps` | kernel/virtio_disk.c:203-315 | every step of driver, device and interrupt handler keeps the invariant |
| `Virtio.StepAdvances` | kernel/virtio_disk.c:203-315 | a step moves a request on by at most one stage |
| `Virtio.UsedEntry` | kernel/virtio_disk.c:300-309 | every unprocessed used entry names a live chain with its buffer and status 0 |
| `Virtio.ChainDecodes` | kernel/virtio_disk.c:226-257 | the device reads off the three descriptors exactly the request that was submitted |
| `Virtio.ChainFrees` | kernel/virtio_disk.c:172-185 | free_chain frees exactly the three descriptors of a chain, without a panic |
| `Virtio.SectorExact` | kernel/virtio_disk.c:206 | the 32-bit product is the sector of the block if and only if blockno < 2^31 |
| `Virtio.SectorAliases` | kernel/virtio_disk.c:206 | from block 2^31 on the request goes to the sector of the block 2^31 below |
| `Virtio.SectorFails` | kernel/virtio_disk.c:203-233 | an idle process may start a request for block 2^31, and the device is asked for the transfer of block 0 |
| `Virtio.QueuedFit` | kernel/virtio_disk.c:259-269 | queued requests never overrun the avail ring |
| `Virtio.UsedFit` | kernel/virtio_disk.c:300-312 | unseen completions never overrun the used ring |
| `Virtio.AllocDesc` | kernel/virtio_disk.c:144-154 | alloc_desc takes the first free descriptor, or none exactly when none is free |
| `Virtio.Alloc3` | kernel/virtio_disk.c:187-201 | alloc3_desc takes three free descriptors, or leaves the table as it was exactly when fewer than three are free |
| `Virtio.FreeChainFrom` | kernel/virtio_disk.c:172-185 | the loop of free_chain frees the chain that ChainFrees is about, or panics where that does |
| `Virtio.Format` | kernel/virtio_disk.c:223-257 | the field by field writes of virtio_disk_rw make the chain that ChainDecodes reads back |
| `Virtio.Driver.Attempt` | kernel/virtio_disk.c:208-274 | virtio_disk_rw up to its sleep is the step of the protocol that CallTransfers is about |
| `Virtio.Driver.Resume` | kernel/virtio_disk.c:271-279 | the end of virtio_disk_rw is the step of the protocol |
| `Virtio.Driver.Intr` | kernel/virtio_disk.c:282-315 | virtio_disk_intr handles every completion the device had posted, in order |
| `Virtio.Driver.constructor` | kernel/virtio_disk.c:125-138 | the queue after initialisation: every descriptor is free and both rings are empty |
| `Shell.RoundTrip` | user/sh.c:327-446 | every command tree with legal words and at most 9 arguments per command is recovered from its fully parenthesised text |
| `Shell.StringsReadBack` | user/sh.c:449-493 | on every line that parses, after nulterminate every argument and file name reads back exactly as its token, which is a whole word |
| `Shell.TooManyArgs` | user/sh.c:415-446 | a simple command, its words and redirections mixed in any order and with any blanks, parses if and only if it has fewer than MAXARGS words, and then to those words inside its redirections, the first written innermost |
| `Shell.LineWords` | user/sh.c:344-446 | every string of every parsed line is a whole word of it and no argument vector overflows |
| `Shell.LineParses` | user/sh.c:265-446 | every line made of words, redirections, groups, pipe signs, '&' and ';' with blanks anywhere parses to what it means: words and redirections of each command in the order written, '<', '>' and '>>' with their mode and descriptor, pipes and lists nested to the right; it is refused exactly when some simple command has MAXARGS words or more |
| `Shell.LeftOver` | user/sh.c:327-342 | what follows the last '&' of a line other than '&' and ';', and an unmatched ')' with what follows, is refused as a syntax error |
| `Shell.RowParses` | user/sh.c:344-446 | the same wherever the line stands: at the end, before ')' and, after a '&', before anything that does not continue it |
| `Shell.PartParses` | user/sh.c:399-446 | a simple command or a group followed by a pipe sign, '&', ';', ')' or the end parses to what it means |
| `Shell.ChainParses` | user/sh.c:361-372 | parts joined by pipe signs parse to a pipe nested to the right |
| `Shell.TailPieces` | user/sh.c:429-445 | the loop of parseexec takes words and redirections in any order, keeping both in order, and panics exactly at the MAXARGS-th word |
| `Shell.RedirectedText` | user/sh.c:374-446 | echo hi > f is the command echo hi with standard output truncated to f |
| `Shell.PipedText` | user/sh.c:361-372 | three commands joined by pipe signs are the first piped into the pipe of the other two |
| `Shell.ListedText` | user/sh.c:344-359 | a ; b is the list of a and b |
| `Shell.BackedText` | user/sh.c:327-359 | a & runs a in the background, and a & b is refused |
| `Shell.Parser.NextToken` | user/sh.c:265-308 | gettoken's loops return the token and the cursor of the grammar |
| `Shell.Parser.Peek` | user/sh.c:310-320 | peek skips white space and tests the next character |
| `Shell.Parser.Redirections` | user/sh.c:374-397 | parseredirs ends and agrees with the grammar |
| `Shell.Parser.ReadArgs` | user/sh.c:430-445 | the loop of parseexec ends and agrees with the grammar that TailPieces is about |
| `Shell.Parser.ReadExec` | user/sh.c:415-446 | parseexec ends and agrees with the grammar that PartParses is about |
| `Shell.Parser.ReadBlock` | user/sh.c:399-413 | parseblock ends and agrees with the grammar |
| `Shell.Parser.ReadPipe` | user/sh.c:361-372 | parsepipe ends and agrees with the grammar |
| `Shell.Parser.ReadLine` | user/sh.c:344-359 | parseline ends and agrees with the grammar |
| `Shell.Parser.ReadCmd` | user/sh.c:327-342 | parsecmd up to nulterminate: leftovers are a panic |
| `Shell.NulTerminate` | user/sh.c:449-493 | nulterminate writes a NUL at the end of every string of the command and nowhere else |
| `FsBlocks.Balloc` | kernel/fs.c:63-86 | balloc takes the first block whose bit is clear, marks and zeroes it, and panics exactly when all bits are set |
| `FsBlocks.Bfree` | kernel/fs.c:88-103 | bfree clears the bit, and panics exactly when it was clear |
| `FsBlocks.Bmap` | kernel/fs.c:376-405 | bmap returns the block of the file, mapping a zeroed fresh one if there was none; no other reference, file size or data block changes, and ownership is kept; it panics only beyond the largest file or when the disk is full |
| `FsBlocks.MapIndirect` | kernel/fs.c:388-402 | the same through the indirect block, itself allocated and zeroed if it was missing |
| `FsBlocks.Itrunc` | kernel/fs.c:407-437 | itrunc frees exactly the blocks the inode owned, each once and without the 'freeing free block' panic, and leaves every other block and inode as it was |
| `FsBlocks.OwnedOnce` | kernel/fs.c:376-437 | no block has two owners, and a data block's bitmap bit is set exactly when some inode refers to it |
| `FsBlocks.LinkTargets` | kernel/fs.c:376-405 | storing a fresh zeroed block changes the one reference only: stale numbers in a reused indirect block are never seen |
| `FsBlocks.AllocKeeps` | kernel/fs.c:63-86 | allocation keeps ownership and bitmap in agreement |
| `FsBlocks.FreeKeeps` | kernel/fs.c:88-103 | freeing an owned block with its reference keeps them in agreement |
| `FsBlocks.FreeEntries` | kernel/fs.c:424-430 | the loop over the indirect block frees each of its blocks once |
| `FsBlocks.FreeDirects` | kernel/fs.c:416-421 | the loop over the direct addresses frees each of them once |
| `FsCodec.SetBit` | kernel/fs.c:74-101 | setting or clearing a bitmap bit changes that bit and no other |
| `FsCodec.SetWord` | kernel/fs.c:396-399 | writing a block number into an indirect block changes that word and no other |
| `FsFiles.Readi` | kernel/fs.c:455-477 | readi returns the exact slice of the content clipped at the size, nothing if off is past the end or off + n wraps around, and never allocates |
| `FsFiles.Writei` | kernel/fs.c:486-517 | writei lays the source over the content at off, or returns -1 exactly when off is past the end or the file would be too large; every other file keeps its content |
| `FsFiles.WriteLoop` | kernel/fs.c:497-506 | the loop writes the bytes, keeps ownership and logs only the blocks it maps or writes |
| `FsFiles.WriteChunk` | kernel/file.c:162-168 | one transaction of filewrite logs at most 7 distinct blocks when the bitmap is one block |
| `FsFiles.LoggedFew` | kernel/file.c:148-155 | 3 * BSIZE bytes touch at most four data blocks, one indirect block, one bitmap block and the inode's block |
| `FsFiles.Filewrite` | kernel/file.c:148-175 | the chunks together are one splice; it returns n exactly when off is not past the end and all of it fits, else it returns -1 with exactly the chunks before the first one that does not fit written |
| `FsFiles.SpliceTwice` | kernel/file.c:156-174 | two adjacent splices are one |
| `FsFiles.FileSystem.Read` | kernel/fs.c:455-477 | readi on the file system object returns the exact slice and changes nothing |
| `FsFiles.FileSystem.Write` | kernel/file.c:148-175 | filewrite on the file system object: one splice of this file, or -1 with exactly the chunks before the first one that does not fit, every other file as before |
| `FsFiles.FileSystem.Truncate` | kernel/fs.c:407-437 | itrunc on the file system object: the file is empty, all others are as before |
| `FsFiles.TruncApart` | kernel/fs.c:407-437 | truncating one file changes no other file's content |
| `Directory.SameName` | kernel/fs.c:521-525 | namecmp says equal exactly when the names truncated to DIRSIZ are |
| `Directory.Dirlookup` | kernel/fs.c:529-553 | dirlookup finds the inode number that the directory's map has under the truncated name, 0 exactly when it has none |
| `Directory.Dirlink` | kernel/fs.c:556-583 | dirlink returns -1 exactly when the name is there; else the map gets the name, with the inode number given if and only if that is between 1 and 0xFFFF |
| `Directory.RecordedExact` | kernel/fs.c:576-580 | what is stored leads to the inode that was linked if and only if 0 < inum < 0x10000 |
| `Directory.RecordedFails` | kernel/fs.c:576-580 | inode 0x10001 is recorded as inode 1, and inode 0x10000 not at all |
| `Directory.ClearEntry` | kernel/sysfile.c:218-220 | clearing an entry removes its name from the map and no other |
| `Directory.MapAt` | kernel/fs.c:529-553 | the map holds exactly the live entries |
| `Directory.PadName` | kernel/fs.c:577 | strncpy into an entry and reading it back gives the truncated name |
| `DirFiles.DecodeEncode` | kernel/fs.h:56-59 | an entry read back from its 16 bytes is the entry |
| `DirFiles.SplicedEntries` | kernel/fs.c:577-580 | writing an entry into the content at a multiple of its size replaces that entry or adds one |
| `DirFiles.LookupEntry` | kernel/fs.c:529-553 | dirlookup through readi on the content of the directory finds what the directory's map has, 0 exactly when it has none |
| `DirFiles.LinkEntry` | kernel/fs.c:556-583 | dirlink through readi and writei returns -1 exactly when the name is there; else the map gets the name and every other file is as before; it panics when no entry is free and the directory cannot grow, and otherwise only when the disk is full |
| `FileCrash.ChunksSurvive` | kernel/file.c:148-175 | a crash at any moment of a run whose operations write the chunks, and any number of interrupted recoveries, leave the file as the old one with a whole number of chunks laid over it |
| `FileCrash.WholeChunks` | kernel/file.c:156-174 | whenever no operation runs the file is the old one with a whole number of chunks laid over it |
| `Namei.Skipelem` | kernel/fs.c:599-622 | skipelem returns the next element truncated and the rest without leading slashes, nothing exactly when no element is left |
| `Namei.SkipAll` | kernel/fs.c:599-622 | repeated skipelem splits the path at its slashes and truncates each element |
| `Namei.Iget` | kernel/fs.c:242-273 | iget keeps at most one slot in use per inode and adds one reference; it panics exactly when the inode is absent and no slot is empty |
| `Namei.Idup` | kernel/fs.c:277-284 | idup adds exactly one reference to that inode and keeps one slot per inode |
| `Namei.Iput` | kernel/fs.c:332-358 | iput drops exactly one reference to that inode and keeps one slot per inode |
| `Namei.Namex` | kernel/fs.c:628-661 | namex returns the inode the path means, or the directory of its last element with that element's name; its net effect on the table is one reference for the inode returned and none on failure; it panics only with the inode table full |
| `Namei.WalkPath` | kernel/fs.c:638-660 | the loop of namex keeps exactly one extra reference, to the inode reached so far, and what the rest of the path means from there is what the whole path means |
| `PageTable.PteRoundTrip` | kernel/riscv.h:347-352 | PTE2PA undoes PA2PTE whatever the flags, and PTE_FLAGS gives the flags back |
| `PageTable.Indices` | kernel/riscv.h:354-357 | the three indices tell pages below MAXVA apart |
| `PageTable.SameSlot` | kernel/vm.c:80-98 | distinct pages reach distinct entries |
| `PageTable.EntryAfter` | kernel/vm.c:86-97 | writing one entry of the tree changes that entry of the flat map and no other |
| `PageTable.LinkKeeps` | kernel/vm.c:88-96 | linking a page keeps free, table, leaf and spare pages a partition of the pool |
| `PageTable.ClearKeeps` | kernel/vm.c:172-186 | so does clearing an entry |
| `PageTable.GrowKeeps` | kernel/vm.c:91-95 | a new, zeroed table page changes no translation |
| `PageTable.Walk` | kernel/vm.c:80-98 | walk reaches the table that holds the entry of va; growing the tree changes no translation; without a table, alloc means that no page was left and no alloc that va is not mapped; it panics exactly at MAXVA |
| `PageTable.TakeKeeps` | kernel/kalloc.c:68-82 | kalloc keeps the partition of the pool |
| `PageTable.GiveKeeps` | kernel/kalloc.c:46-63 | kfree keeps the partition of the pool |
| `UserVm.MapPages` | kernel/vm.c:137-160 | mappages maps exactly the pages of the range to consecutive frames; on failure the pages before the failing one are mapped and no page is left for tables; when it panics |
| `UserVm.Uvmunmap` | kernel/vm.c:165-187 | uvmunmap removes exactly the named translations and frees their pages if asked; it panics exactly when va is not aligned or a page is not mapped |
| `UserVm.Uvmalloc` | kernel/vm.c:220-244 | uvmalloc adds zeroed user pages up to the new size; when memory runs out every page it took is free again, every translation is as before, and no more pages are free than were asked for |
| `UserVm.Uvmdealloc` | kernel/vm.c:250-262 | uvmdealloc unmaps and frees exactly the pages between the sizes |
| `UserVm.Uvmcopy` | kernel/vm.c:330-356 | uvmcopy from 0 gives equal contents and flags in fresh frames of the new space; when memory runs out the new space is as before, and no more pages are free than were asked for |
| `UserVm.Freewalk` | kernel/vm.c:266-282 | freewalk panics exactly when a page is still mapped, and otherwise returns every table page of the space exactly once |
| `UserVm.Uvmfree` | kernel/vm.c:286-292 | uvmfree panics exactly when a page below sz cannot be unmapped or one from sz on is mapped; otherwise it returns every table and leaf page of the space to the free list exactly once and changes nothing else |
| `UserVm.EmptyTable` | kernel/vm.c:266-282 | the recursion of freewalk, the lowest level included, panics exactly when a leaf is mapped below the table; otherwise it returns every table page below it once, leaves its entries zero and touches nothing else |
| `UserVm.RolledBack` | kernel/vm.c:228-241 | unmapping what an extension added leaves nothing but table pages |
| `UserVm.Memory.Grow` | kernel/vm.c:220-244 | uvmalloc on the memory object: the same extension or rollback of its state |
| `UserVm.Memory.Shrink` | kernel/vm.c:250-262 | uvmdealloc on the memory object, with the same condition for a panic |
| `UserVm.Memory.Copy` | kernel/vm.c:330-356 | uvmcopy on the memory object: the same copy or rollback of its state |
| `UserVm.Memory.Release` | kernel/vm.c:286-292 | uvmfree on the memory object, with the same condition for a panic: the space is gone and its pages are free |
| `UserCopy.Walkaddr` | kernel/vm.c:103-121 | walkaddr gives the page of a user mapping, else 0 |
| `UserCopy.Copyout` | kernel/vm.c:397-417 | copyout succeeds exactly when every byte of the range is mapped for the user, and then exactly those bytes of the space are src |
| `UserCopy.Copyin` | kernel/vm.c:422-442 | copyin succeeds exactly when every byte of the range is mapped for the user, and returns them |
| `UserCopy.CopyRoundTrip` | kernel/vm.c:397-442 | copyin after a successful copyout returns the same bytes, across page boundaries |
| `Kalloc.Kmem.Kfree` | kernel/kalloc.c:46-63 | kfree pushes the page onto the linked list, and panics exactly on an address that is not a page of the pool |
| `Kalloc.Kmem.Alloc` | kernel/kalloc.c:68-82 | kalloc pops the first page, 0 exactly when the list is empty |
| `Kalloc.Kmem.FreePageCount` | kernel/kalloc.c:86-101 | kfreepagecount ends and returns the length of the list |
| `Console.DeliveredInOrder` | kernel/console.c:79-179 | on every run, what readers got is the committed input up to r, in order and once, without the ^D marks; the buffer is never overrun and committed input is never taken back |
| `Console.InputIsText` | kernel/console.c:135-179 | on every run whose buffer never fills, the input is the text typed as backspace, kill-line and carriage return leave it, of which exactly the finished lines are committed |
| `Console.TypingIsKept` | kernel/console.c:135-179 | without editing keys nothing typed is lost, changed or reordered, except that carriage return is newline |
| `Console.ErasesOnlyEdit` | kernel/console.c:144-157 | backspace takes back exactly the last uncommitted character and kill-line all of them, never a committed one |
| `Console.TypedKeeps` | kernel/console.c:135-179 | every typed character keeps the invariant and never removes committed input; the line being edited holds no newline and no ^D |
| `Console.ConsumedKeeps` | kernel/console.c:99-108 | every consumed byte keeps the invariant, and a ^D after other bytes is held back |
| `Console.ConsoleBuf.KillLine` | kernel/console.c:144-150 | kill-line brings e back to w |
| `Console.ConsoleBuf.Interrupt` | kernel/console.c:135-179 | consoleintr on the ring with 32-bit counters is the step of the protocol |
| `Console.ConsoleBuf.Read` | kernel/console.c:79-127 | consoleread up to its return or sleep delivers the next committed bytes, one line at most, and ends early only at a newline or a ^D |
| `Console.ConsoleBuf.Take` | kernel/console.c:99-108 | one turn of its loop takes the next committed byte off the ring, or holds a ^D back when bytes were copied already |
| `Mmap.RunKeeps` | kernel/sysfile.c:491-591 | on every run of private mmap and munmap with legal lengths, valid regions are page-aligned, pairwise disjoint and inside [cur_max, TRAPFRAME) |
| `Mmap.RegionsOutstanding` | kernel/sysfile.c:491-591 | on every run the valid regions are exactly those mapped and not yet unmapped, and cur_max is TRAPFRAME less the rounded lengths of all mmaps |
| `Mmap.StoredLength` | kernel/sysfile.c:518-521 | the stored length is PGROUNDUP of the request |
| `Mmap.AddKeeps` | kernel/sysfile.c:516-536 | a new region has the rounded length, ends at the old cur_max, and keeps all regions aligned, disjoint and inside |
| `Mmap.OnlyMatch` | kernel/sysfile.c:551-558 | the arguments of munmap find one region at most |
| `Mmap.MapvPages` | kernel/vm.c:490-509 | mapvpages makes tables for the whole range and changes no translation; it fails only when no page is left and panics only at MAXVA or at a mapped page |
| `Mmap.Process.MapRegion` | kernel/sysfile.c:491-540 | sys_mmap puts exactly one region into the first free slot, of the rounded length right below cur_max, none of whose pages was mapped; it returns -1 only when all slots are taken or no page is left for tables, and changes no translation |
| `Mmap.Process.UnmapRegion` | kernel/sysfile.c:544-591 | munmap with the arguments of an mmap removes exactly that region, so that no region matches them afterwards, and every other region and cur_max are as before; none of its pages is mapped for the user any more; -1 exactly when there is no such region |
| `Mmap.Sweep` | kernel/sysfile.c:583-589 | the unmapping loop removes every user mapping of the range and frees its page; all other pages keep their mapping and their bytes |

## Left out

- The shared-region family ring and shared mappings (kernel/proc.c, kernel/vm.c uvmcopyshared): insertion does not
  update the old successor's prev, so link symmetry is no invariant; only private regions are modelled.
- UserVm.Uvmcopy: does not model a start other than 0; rollback is claimed for start = 0, which is what fork uses
  for the process image.
- Multi-level feedback queues, scheduling, exec, fork, wait, traps and page faults.
- Link counts across create, link and unlink.
- Namei.Iput: models the reference count only, not the truncation and freeing of an inode without links.
- The on-disk layout of inodes: they are records; block numbers, bitmap bits and directory entries are modelled in bytes.
- Reading and writing the log header goes through words of unbounded size; 32-bit encoding of the header is not modelled.
- Hardware set-up, assembly, the uart and printf, and the output side of the console.
- grep's line buffering and the other user programs.
- copyinstr, uvmclear, uvminit and the kernel's own page table.
- In freewalk the write of 0 to the parent's entry is placed before kfree of the child's page; the two commute because
  they touch different pages. A table page is seen as 512 entries and a data page as bytes; the code writes a whole page
  before it changes its use.
- The file system and page table code takes and returns the state as a value, with a class around it whose methods
  replace the state; in-place update of a single buffer or entry is modelled as replacing it in the value.
- Shell.LeftOver: other ill-formed lines (a '(' inside a simple command, a redirection without a file name, a group
  without its ')') are refused by the grammar that the code is shown to agree with; no separate law names them.
- In the shell parser the exec node that parseexec fills while redirections already point at it is built at the end from
  the arguments and the list of redirections.
- Umalloc.Malloc.Allocate: claimed for requests up to 0x7FFFFFE0 bytes, beyond which the code is wrong
  (`Umalloc.SbrkExact`); addresses count headers, and the break is header-aligned.
- Mmap.Process.MapRegion: does not model lengths of 0 and lengths above cur_max, for which the source's 64-bit subtraction wraps around.
- Directory.Dirlookup: does not model the panic on an inode that is no directory, which namex tests for beforehand.
- Namei.Namex: directories do not change during a walk.
- Console.ConsoleBuf.Read: does not model the wakeup of readers and their being killed, or echoing.
- Directory.Dirlink: entries are an array that can always grow; the panic when the file cannot is in DirFiles.LinkEntry.
- Namei.WalkPath: directories do not change during a walk.
- UserVm.Memory.Copy: does not model a start other than 0.
- BufferCache.BCache.Bget: does not model the sleep on a buffer that another process has locked; LogSystem does, where
  bget and acquiresleep are two steps.
- BufferCache.BCache.Bread: the same.
- Kalloc.Kmem.Kfree: does not model a page that is on the list already.
- Mmap.Process.UnmapRegion: does not model shared regions.
