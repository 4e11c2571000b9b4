# xv6-riscv in Dafny

A model of the storage stack, the virtual memory system, the process protocol, the disk driver and
some user programs of xv6-riscv (`Sleep e pingpong/kernel`, `Sleep e pingpong/user`), with proofs of
what they are for. Code that updates state in place is written as classes and methods with loops,
proved against functions on values; concurrent code is written as a state machine whose steps
interleave at lock boundaries, with theorems about all runs.

| files | part of the system | main results |
|---|---|---|
| `Log`, `LogDevice`, `LogRuns`, `CommitPanic`, `Reservation` | the redo log | commits are atomic under any crashes; the disk after any run recovers to the durable contents; log space |
| `BufferCache`, `Coherence` | the buffer cache | readers see the latest contents, logged buffers stay |
| `Bitmap`, `Inodes`, `Volume`, `Files`, `Transfers`, `FileSystem`, `Format` | blocks, inodes, files | exact block ownership; files are byte sequences; bounded transactions |
| `Transaction` | file system and log together | a write is a run of the storage layers, and a crash leaves all of it or none |
| `Directory` | directories | a directory is a finite map |
| `PageTable`, `Mappings`, `Teardown`, `Vm` | page tables and page allocator | page tables are flat maps; failures give everything back |
| `ProcMemory`, `Processes` | the memory of processes | after any run every page of RAM has exactly one owner |
| `ExitWait`, `SleepWakeup`, `SleepLock` | fork, exit, wait, sleep, wakeup | no lost wakeup, live parents, each zombie reaped once |
| `Virtio`, `VirtioDisk` | the disk driver with its device | every request is served exactly once, across 16-bit wrap |
| `FreeList`, `Umalloc` | malloc and free | sorted, coalesced, conserved, terminating |
| `Shell`, `ShellRoundTrip`, `ShellParser` | the shell's parser | round trip, termination, safe cutting of the line |
| `Regex`, `Grep` | grep | declarative meaning of patterns; exact output |
| `Pipe` | pipes | first in, first out |

`Params`, `Sets`, `Sequences` and `Bytes` are shared. `dafny verify dfyconfig.toml` checks everything.

The page tables follow section 4.4 (Sv39) of the RISC-V Privileged Architecture, version 1.12; the
disk follows sections 2.6 and 5.2 of VIRTIO 1.1.

How the layers meet: `LogRuns` assumes that a changed buffer is logged before it is released, and
`Fs.Writei` and `Fs.Itrunc` prove that every block they change is logged. `Reservation` assumes at
most MAXOPBLOCKS new blocks per operation; `Fs.Filewrite` proves it of every transaction it makes,
and `Fs.Itrunc` bounds what a truncation logs by the bitmap blocks and the inode block. `Transaction`
joins the two: an operation with such a contract is a run of `LogRuns` from begin_op to end_op
(`Transaction.OperationRuns`), one transaction of `filewrite` is one
(`Transaction.WriteOperation`), and a crash at any moment leaves all of it or none
(`Transaction.CrashIsAtomic`).

Where the code does not do what one would expect of it, the model follows the code:

- `log_write` tests for a full log before it looks for the block in the log. `Reservation.PanicsIff`
  gives the exact condition for its panic. With MAXOPBLOCKS new blocks per operation, which
  `filewrite` can need by its budget, the panic is reachable for every log size
  (`Reservation.PerBlockAlwaysPanics`); with MAXOPBLOCKS calls it is for the log that mkfs makes
  (`Reservation.SafeIffLargeLog`). The comment in `begin_op`, by which an admitted operation cannot
  exhaust log space, promises more.
- `commit` needs a buffer that nobody holds next to the pinned ones. It panics in `bget` exactly when
  every buffer is held or pinned (`LogDevice.LogDev.Commit`, `LogRuns.StuckIff`); a reader that holds
  one buffer is enough when 29 blocks are logged (`CommitPanic.CommitCanPanic`).
- `dirlink` stores 16 bits of the inode number. For a number that is 0 modulo 65536 it succeeds but
  makes no binding, and a larger one is cut off (`Directory.LinkBindsIff`,
  `Directory.LinkOfLargeNumber`).
- `readi` returns 0 and not a short count when `off + n` wraps around 32 bits
  (`FileSystem.Fs.Readi`, `Transfers.ReadsAllIff`, `Transfers.WrappedReadIsEmpty`).
- `grep` stops at the first line that does not fit its buffer with its newline and silently drops the
  rest of the input (`Grep.PrintedIsSelected`, `Grep.LongLineIsLost`); so it does at the first line with a NUL
  (`Grep.ShownIsSelected`, `Grep.NulLineIsLost`).
- `virtio_disk_rw` computes the sector in 32 bits, so block 0x80000000 would be block 0
  (`Virtio.SectorBlock`).
- `piperead` drops one byte when `copyout` fails (`Pipe.PipeBuffer.Read`).
- `morecore` passes `sbrk` an int. From 2 GB on, what it enters in the free list is not what `sbrk`
  gave (`Umalloc.GrantedIff`, `Umalloc.HugeRequestGetsNothing`).

## Model

| member | source | states |
|---|---|---|
| Log.HeadAfterWrite | Sleep e pingpong/kernel/log.c:86-114 | reading back a written header gives exactly the block list that was written, whatever the block held before |
| Log.CommitTraceAt | Sleep e pingpong/kernel/log.c:178-203 | the k-th disk of the commit trace is the disk after k single-block writes, so the crash points are all of them |
| Log.CommitTraceWhole | Sleep e pingpong/kernel/log.c:193-203 | the writes of a commit are the log copies, one header write, the installs and the erasing header write, in that order and no others |
| Log.RecoverTraceAt | Sleep e pingpong/kernel/log.c:116-123 | the same for recovery: the trace lists the disk after each of its writes |
| Log.RecoverTraceWhole | Sleep e pingpong/kernel/log.c:116-123 | recovery writes every home block of the header and then the empty header |
| Log.HeadWriteCommits | Sleep e pingpong/kernel/log.c:99-114 | the single header write is the commit point: from then on the disk redoes to the whole transaction |
| Log.CommitBeforeHead | Sleep e pingpong/kernel/log.c:178-203 | a crash before the header write recovers to the old disk, however many log slots were written |
| Log.CommitAfterHead | Sleep e pingpong/kernel/log.c:193-203 | a crash at any later write recovers to the new disk; after the last write nothing is left to redo |
| Log.RecoveredRedoes | Sleep e pingpong/kernel/log.c:67-83 | installing the logged blocks brings every home block to its target |
| Log.RecoveryCompletes | Sleep e pingpong/kernel/log.c:116-123 | a completed recovery has every home block at its target and an empty log, and recovering again changes nothing |
| Log.AfterCrashes | Sleep e pingpong/kernel/log.c:116-123 | any sequence of recoveries cut short at any write leaves a disk that still recovers to the same target |
| Log.RecoveryReaches | Sleep e pingpong/kernel/log.c:116-123 | after any number of crashes inside recovery, one completed recovery reaches the target |
| Log.CommitIsAtomic | Sleep e pingpong/kernel/log.c:67-203 | crash atomicity: for a crash after any write of a commit and any number of crashes during recovery, home blocks are all old or all new, decided by the header write alone |
| Log.ApplyAt | Sleep e pingpong/kernel/log.c:67-83 | the new disk differs from the old one in exactly the logged blocks |
| Reservation.StepKeepsInv | Sleep e pingpong/kernel/log.c:126-235 | begin_op, log_write and end_op keep: logged blocks plus unspent budgets stay below the peak that reservations allow, entries are distinct, and a commit has no operation active |
| Reservation.ReservationHolds | Sleep e pingpong/kernel/log.c:126-235 | so does every interleaved run of any number of operations, for any budget of up to MAXOPBLOCKS new blocks or calls each |
| Reservation.EndNeverPanics | Sleep e pingpong/kernel/log.c:145-175 | the panic "log.committing" is unreachable |
| Reservation.SafeIffLargeLog | Sleep e pingpong/kernel/log.c:214-235 | with MAXOPBLOCKS log_write calls per operation the panic is reachable if and only if log.size <= LOGSIZE |
| Reservation.PerBlockAlwaysPanics | Sleep e pingpong/kernel/log.c:214-235 | with MAXOPBLOCKS new blocks per operation the panic is reachable for every log size, because the guard is tested before absorption |
| Reservation.RoomNeverPanics | Sleep e pingpong/kernel/log.c:214-235 | no run within budget panics if the log refuses only numbers of blocks that cannot be reached |
| Reservation.ReachedPanics | Sleep e pingpong/kernel/log.c:214-235 | otherwise some run within budget reaches the panic "too big a transaction" |
| Reservation.PanicsIff | Sleep e pingpong/kernel/log.c:126-235 | the exact condition for every log size and every budget, counted in new blocks or in calls: the panic is reachable if and only if min(LOGSIZE, log.size - 1) is at most LOGSIZE - 2 * (MAXOPBLOCKS - budget), less one for calls |
| Reservation.MkfsLogIsSafeIff | Sleep e pingpong/kernel/log.c:214-235 | in the log that mkfs makes, operations are safe if and only if each adds fewer than MAXOPBLOCKS new blocks to the log, however often it logs |
| BufferCache.LinkFront | Sleep e pingpong/kernel/bio.c:44-53 | inserting after the list head keeps a well-formed circular doubly linked list |
| BufferCache.Unlink | Sleep e pingpong/kernel/bio.c:126-130 | unlinking any buffer keeps the list well formed and drops exactly that buffer |
| BufferCache.LookupFinds | Sleep e pingpong/kernel/bio.c:65-73 | the forward scan finds a buffer of the block if there is one, and otherwise there is none |
| BufferCache.VictimIsLeastRecent | Sleep e pingpong/kernel/bio.c:75-88 | the backward scan returns the least recently used buffer without references, or all are referenced |
| BufferCache.ChooseSpec | Sleep e pingpong/kernel/bio.c:58-89 | bget returns the cached buffer, or recycles an unreferenced one only when the block is not cached, and panics only when every buffer is referenced |
| BufferCache.ClaimKeepsUnique | Sleep e pingpong/kernel/bio.c:58-89 | at most one buffer caches a block, whatever bget does |
| BufferCache.Bcache.constructor | Sleep e pingpong/kernel/bio.c:36-53 | binit leaves all NBUF buffers on the list, empty and unreferenced |
| BufferCache.Bcache.InsertFront | Sleep e pingpong/kernel/bio.c:46-52 | the pointer updates of binit put the buffer first in the recency order |
| BufferCache.Bcache.Remove | Sleep e pingpong/kernel/bio.c:128-129 | the pointer updates of brelse take the buffer out of the recency order |
| BufferCache.Bcache.MoveToFront | Sleep e pingpong/kernel/bio.c:126-134 | an unused buffer becomes the most recently used, the others keep their order |
| BufferCache.Bcache.Bget | Sleep e pingpong/kernel/bio.c:58-89 | the two list scans compute the specified choice; no buffer is chosen exactly when bget would panic |
| BufferCache.Bcache.Bread | Sleep e pingpong/kernel/bio.c:92-103 | as bget, and the buffer holds the disk contents if it was not valid |
| BufferCache.Bcache.Bwrite | Sleep e pingpong/kernel/bio.c:106-112 | writes exactly this block, as one entry of the write history |
| BufferCache.Bcache.Brelse | Sleep e pingpong/kernel/bio.c:115-137 | drops one reference and moves the buffer to the front when it was the last |
| BufferCache.Bcache.Bpin | Sleep e pingpong/kernel/bio.c:139-144 | takes one reference and changes nothing else |
| BufferCache.Bcache.Bunpin | Sleep e pingpong/kernel/bio.c:146-151 | gives one reference back and changes nothing else |
| Coherence.GetCoherent | Sleep e pingpong/kernel/bio.c:58-89 | getting a buffer keeps every cached copy current and recycles no logged, held or changed buffer |
| Coherence.FillCoherent | Sleep e pingpong/kernel/bio.c:92-103 | what bread returns is the latest contents of the block |
| Coherence.DropCoherent | Sleep e pingpong/kernel/bio.c:115-137 | releasing keeps the cache coherent unless it gives up a changed, unlogged buffer |
| Coherence.ModifyCoherent | Sleep e pingpong/kernel/bio.c:92-112 | changing a held buffer keeps coherence with the block recorded as changed |
| Coherence.LogCoherent | Sleep e pingpong/kernel/log.c:214-235 | log_write makes the change safe: the block is pinned once and its buffer is no longer dirty |
| Coherence.WriteThroughCoherent | Sleep e pingpong/kernel/bio.c:106-112 | writing a buffer through keeps copy, disk and latest contents equal |
| Coherence.UnpinCoherent | Sleep e pingpong/kernel/log.c:67-83 | unpinning is safe once the home block is on disk |
| Coherence.NoBufferIff | Sleep e pingpong/kernel/bio.c:58-89 | bget panics if and only if the block is not cached and every buffer is held by somebody or pinned by the log |
| LogDevice.CommitShowsNothing | Sleep e pingpong/kernel/log.c:193-203 | readers of home blocks see no difference between before and after a commit |
| LogDevice.LogDev.constructor | Sleep e pingpong/kernel/log.c:54-65 | a log with no operation and no logged block over a fresh cache |
| LogDevice.LogDev.WriteHead | Sleep e pingpong/kernel/log.c:99-114 | writes the header block holding the list, whoever else holds buffers; fails exactly when no buffer is spare |
| LogDevice.LogDev.FormatHead | Sleep e pingpong/kernel/log.c:106-111 | the loop fills in the words of the header block |
| LogDevice.LogDev.ReadHead | Sleep e pingpong/kernel/log.c:86-97 | the list in memory becomes the list on disk |
| LogDevice.LogDev.ParseHead | Sleep e pingpong/kernel/log.c:92-95 | the loop reads the words of the header block |
| LogDevice.LogDev.CopyToSlot | Sleep e pingpong/kernel/log.c:183-190 | one turn: the cached contents of the logged block are written to its log slot |
| LogDevice.LogDev.WriteLog | Sleep e pingpong/kernel/log.c:177-191 | the log slots hold the latest contents, and the writes issued are the first part of the commit trace |
| LogDevice.LogDev.InstallOne | Sleep e pingpong/kernel/log.c:73-82 | one turn: the home block is written from its log slot and unpinned, or not when recovering |
| LogDevice.LogDev.InstallTrans | Sleep e pingpong/kernel/log.c:67-83 | every home block is written, in order, and no other block |
| LogDevice.LogDev.Commit | Sleep e pingpong/kernel/log.c:193-203 | while other processes hold any buffers: the writes issued are exactly the commit trace, every pin is given back, home blocks on disk are the latest; it panics in bget if and only if there is something to commit and every buffer is held or pinned |
| LogDevice.LogDev.RecoverFromLog | Sleep e pingpong/kernel/log.c:116-123 | the writes issued are exactly the recovery trace, the log is empty afterwards, and the cache it leaves agrees with the disk |
| LogDevice.LogDev.LogWrite | Sleep e pingpong/kernel/log.c:205-235 | absorbs a block that is already logged, otherwise appends and pins it; panics exactly as the reservation model says |
| LogDevice.LogDev.TryBegin | Sleep e pingpong/kernel/log.c:125-142 | admits the operation exactly when the reservation allows it |
| LogDevice.LogDev.EndOp | Sleep e pingpong/kernel/log.c:144-175 | the last operation commits and leaves an empty log with home blocks on disk, unless no buffer is spare; earlier ones write nothing |
| LogDevice.LogBlockIff | Sleep e pingpong/kernel/bio.c:58-89 | the log gets a buffer for one of its own blocks if and only if some buffer is neither held nor pinned |
| LogDevice.SpareIffRoom | Sleep e pingpong/kernel/bio.c:58-89 | when nobody else holds a buffer, that is so if and only if fewer than NBUF blocks are pinned |
| LogRuns.BootKeeps | Sleep e pingpong/kernel/log.c:54-65 | the invariant of the storage layers holds after boot from any disk with an empty log and any cache that agrees with it |
| LogRuns.CommitSeesNoDirt | Sleep e pingpong/kernel/log.c:144-175 | while a commit runs, no operation is active and no buffer is changed but unlogged |
| LogRuns.StepKeeps | Sleep e pingpong/kernel/log.c:67-235 | every step of every process, of the committer and of a crash keeps the invariant |
| LogRuns.RunKeeps | Sleep e pingpong/kernel/log.c:67-235 | so does every run |
| LogRuns.ReadersSeeLatest | Sleep e pingpong/kernel/bio.c:58-112 | in every run with crashes, a process that owns a buffer sees the latest contents of its block |
| LogRuns.CrashKeeps | Sleep e pingpong/kernel/log.c:116-123 | a crash with any number of interrupted recoveries returns to the invariant with the durable contents, whatever recovery left in the cache |
| LogRuns.CrashesKeepDurable | Sleep e pingpong/kernel/log.c:67-203 | in every run, whenever the machine crashes, recovery shows exactly the durable contents |
| LogRuns.DurableChangesAtCommit | Sleep e pingpong/kernel/log.c:193-203 | the durable contents change in one step only, the commit header, and then become the latest contents with no operation half done |
| LogRuns.CopyHomeIsDurable | Sleep e pingpong/kernel/log.c:67-83 | installing copies contents that are already durable |
| LogRuns.HomeWrittenOnlyAfterCommit | Sleep e pingpong/kernel/log.c:67-83 | no home block changes on disk before its commit header, and then only to its durable contents |
| LogRuns.LatestChangesOnlyByModify | Sleep e pingpong/kernel/bio.c:92-137 | no step of the cache or the log changes what readers of a home block see |
| LogRuns.ReferencesCounted | Sleep e pingpong/kernel/bio.c:115-151 | a buffer's refcnt is its references plus one exactly when the log pins it, which it does from log_write until the block is installed |
| LogRuns.LoggedBuffersStay | Sleep e pingpong/kernel/bio.c:58-89 | bget never recycles a buffer that is referenced or logged |
| LogRuns.StuckIff | Sleep e pingpong/kernel/bio.c:58-89 | at any moment of any run, bget panics if and only if the block is not cached and every buffer is referenced or pinned |
| CommitPanic.CommitCanPanic | Sleep e pingpong/kernel/log.c:144-203 | a run from boot, within every budget and with the log of LOGSIZE blocks, in which commit has 29 blocks logged, a reader holds the last buffer, and bget panics |
| Bitmap.UsedAfterMark | Sleep e pingpong/kernel/fs.c:65-105 | setting or clearing one bit through bytes and masks changes the use of that block only |
| Inodes.DecodeEncode | Sleep e pingpong/kernel/fs.c:225-241 | an inode read back from its on-disk words is the inode that was written |
| Inodes.LoadSave | Sleep e pingpong/kernel/fs.c:225-317 | writing one inode into its block and reading any inode of that block gives the new one there and the old ones elsewhere |
| Volume.ValidIsExclusive | Sleep e pingpong/kernel/fs.c:65-105 | in a valid volume every used block is metadata or belongs to exactly one slot of one inode, and every block a slot names is used |
| Volume.AllocateValid | Sleep e pingpong/kernel/fs.c:65-88 | a block taken from the bitmap is a data block nobody owns |
| Volume.AttachValid | Sleep e pingpong/kernel/fs.c:382-421 | storing the block in an empty direct, indirect or indirect-block slot gives it exactly one owner |
| Volume.ReleaseValid | Sleep e pingpong/kernel/fs.c:91-105 | a block no slot owns is in use, so freeing it does not panic and keeps ownership exact |
| Volume.ClearValid | Sleep e pingpong/kernel/fs.c:432-437 | clearing a direct entry whose block was freed restores ownership |
| Volume.ClearIndirectValid | Sleep e pingpong/kernel/fs.c:439-449 | clearing the indirect entry after all its blocks were freed restores ownership |
| Files.OverwriteByte | Sleep e pingpong/kernel/fs.c:516-528 | writing a data block changes the bytes of that block of that file and no byte of any other file |
| Files.AttachKeeps | Sleep e pingpong/kernel/fs.c:382-421 | attaching a block changes no stored byte of any file |
| Files.KeepsContents | Sleep e pingpong/kernel/fs.c:382-421 | steps that keep stored bytes keep the contents of every file without holes |
| Transfers.WroteChunk | Sleep e pingpong/kernel/fs.c:516-528 | one turn of writei extends what has been written by its chunk |
| Transfers.WroteDone | Sleep e pingpong/kernel/fs.c:530-538 | after the size update the file is the old one with the bytes spliced in, without holes, and other files are unchanged |
| Transfers.UpdateSyncs | Sleep e pingpong/kernel/fs.c:225-241 | iupdate makes the on-disk inode equal to the one in memory and changes no other |
| Transfers.SplicedTwice | Sleep e pingpong/kernel/fs.c:505-539 | two adjacent writes are one write of the concatenation |
| Transfers.FirstExists | Sleep e pingpong/kernel/fs.c:505-539 | a write that starts inside a block finds that block allocated |
| Transfers.WriteFits | Sleep e pingpong/kernel/file.c:149-175 | a chunk of at most MAXCHUNK bytes logs at most MAXOPBLOCKS blocks at every offset |
| Transfers.LimitIsExact | Sleep e pingpong/kernel/file.c:149-175 | the limit is exact for the budget: n <= MAXCHUNK if and only if the budget of n bytes is at most MAXOPBLOCKS at every offset |
| Transfers.TruncDone | Sleep e pingpong/kernel/fs.c:423-453 | after itrunc the file is empty and other files are unchanged |
| Transfers.TruncFreed | Sleep e pingpong/kernel/fs.c:423-453 | itrunc frees exactly the blocks of this file |
| Transfers.ReadsAllIff | Sleep e pingpong/kernel/fs.c:465-496 | readi delivers what there is of n bytes if and only if off + n does not wrap around 32 bits or nothing is left |
| Transfers.WrappedReadIsEmpty | Sleep e pingpong/kernel/fs.c:472-478 | a failing input: a file of ten bytes read from offset 5 for 0xFFFFFFFF bytes gives nothing |
| Format.FormattedIsGood | Sleep e pingpong/mkfs/mkfs.c:236-250 | a freshly formatted volume without files satisfies everything the operations keep |
| FileSystem.Fs.constructor | Sleep e pingpong/mkfs/mkfs.c:69-175 | such a volume, so the invariant is satisfiable |
| FileSystem.Fs.Balloc | Sleep e pingpong/kernel/fs.c:65-88 | the first free block, zeroed and marked, with the two blocks logged; 0 exactly when every block is used, and then nothing changed |
| FileSystem.Fs.Bzero | Sleep e pingpong/kernel/fs.c:50-59 | zeroes one block and logs it |
| FileSystem.Fs.Bfree | Sleep e pingpong/kernel/fs.c:91-105 | clears the bit; the panic "freeing free block" exactly when the block is free |
| FileSystem.Fs.FillSlot | Sleep e pingpong/kernel/fs.c:388-415 | allocation for one slot keeps ownership and every file; 0 only when the disk is full |
| FileSystem.Fs.Bmap | Sleep e pingpong/kernel/fs.c:374-421 | returns the block of the file, allocating at both levels if needed; out of space at either allocation keeps all invariants, and an allocated block changes nothing |
| FileSystem.Fs.Iupdate | Sleep e pingpong/kernel/fs.c:225-241 | the inode is stored in its place of its block and that block is logged |
| FileSystem.Fs.WriteTurn | Sleep e pingpong/kernel/fs.c:516-528 | one chunk: at most two blocks touched, one if the block existed |
| FileSystem.Fs.WriteLoop | Sleep e pingpong/kernel/fs.c:516-528 | the loop writes a prefix of the source and touches at most the budgeted blocks |
| FileSystem.Fs.Writei | Sleep e pingpong/kernel/fs.c:499-539 | splices src[..r] into this file and no other; -1 exactly for a start past the end or a range beyond the largest file; a short count only when the disk is full or the source unreadable; every changed block is logged and lies behind the log area, and at most Budget(off, n) blocks are |
| FileSystem.Fs.Filewrite | Sleep e pingpong/kernel/file.c:133-181 | the chunked write is one splice; it returns n exactly when all was written, and each of its transactions logs at most MAXOPBLOCKS blocks |
| FileSystem.Fs.Readi | Sleep e pingpong/kernel/fs.c:465-496 | returns the slice of the file that exists, or as far as the destination goes; never allocates, logs or changes anything |
| FileSystem.Fs.FreeSlot | Sleep e pingpong/kernel/fs.c:432-447 | frees the block of one slot; bfree does not panic |
| FileSystem.Fs.FreeIndirect | Sleep e pingpong/kernel/fs.c:439-449 | frees every block of the indirect block and then itself |
| FileSystem.Fs.Itrunc | Sleep e pingpong/kernel/fs.c:423-453 | the file becomes empty, exactly its blocks become free, other files keep their contents, every changed block is logged and lies behind the log area, and only bitmap blocks and the inode block are |
| FileSystem.TruncFits | Sleep e pingpong/kernel/fs.c:423-453 | these are at most MAXOPBLOCKS if and only if there are fewer than MAXOPBLOCKS bitmap blocks |
| Transaction.CanRead | Sleep e pingpong/kernel/bio.c:58-89 | while no buffer is in use and fewer than NBUF blocks are logged, bget does not panic |
| Transaction.ReadsBlock | Sleep e pingpong/kernel/bio.c:58-103 | bread is a run that ends with the buffer locked, valid and holding the block |
| Transaction.RecordsBlock | Sleep e pingpong/kernel/log.c:214-235 | changing the locked buffer and log_write is a run that changes what readers see of this block only and enters it in the log once |
| Transaction.ReleasesBlock | Sleep e pingpong/kernel/bio.c:115-137 | brelse is a run that leaves no buffer in use |
| Transaction.LogsBlock | Sleep e pingpong/kernel/log.c:206-235 | bread, change, log_write and brelse of any block outside the log area is a run, and needs at most one log slot |
| Transaction.LogsAll | Sleep e pingpong/kernel/log.c:206-235 | so every set of changes to at most as many blocks as there are slots left is a run after which readers see exactly these changes |
| Transaction.OperationRuns | Sleep e pingpong/kernel/log.c:126-175 | a file-system operation that logs what it changes, and at most MAXOPBLOCKS blocks, is a run from begin_op to end_op after which readers see the volume as the operation left it |
| Transaction.WriteOperation | Sleep e pingpong/kernel/file.c:162-167 | one transaction of filewrite: writei splices the bytes into the file, and there is such a run for it |
| Transaction.UncommittedKeepsDurable | Sleep e pingpong/kernel/log.c:126-235 | until a commit header is written, no step changes what a crash would leave |
| Transaction.AllOrNothing | Sleep e pingpong/kernel/log.c:67-203 | if readers and disk show the old or the new contents, any run with any commits and crashes in which no further buffer is changed keeps them to one of the two |
| Transaction.CrashIsAtomic | Sleep e pingpong/kernel/log.c:67-235 | a crash between begin_op and end_op leaves nothing of the operation; one at any later moment until another operation changes a buffer, after any commits and crashes, leaves all of it or none |
| Directory.Strncmp | Sleep e pingpong/kernel/string.c:60-68 | 0 exactly when the names agree up to NUL or n bytes; otherwise the difference at the first differing byte |
| Directory.Strncpy | Sleep e pingpong/kernel/string.c:70-81 | the copy has the same key and is padded with NULs |
| Directory.LinkAdds | Sleep e pingpong/kernel/fs.c:592-603 | writing an entry into a free place adds exactly the one binding and keeps names distinct |
| Directory.ReadEntry | Sleep e pingpong/kernel/fs.c:560-563 | reads the entry at an offset of the directory file |
| Directory.Dirlookup | Sleep e pingpong/kernel/fs.c:549-575 | finds the inode number bound to the name, and 0 exactly when it is unbound |
| Directory.FindFree | Sleep e pingpong/kernel/fs.c:592-598 | the first unused entry, or the end |
| Directory.Dirlink | Sleep e pingpong/kernel/fs.c:577-606 | success adds the binding of an unbound name and nothing else, failure changes no binding and has a reason: bound name, full disk or full directory; other files are unchanged |
| Directory.Compare | Sleep e pingpong/kernel/fs.c:563-571 | one entry matches exactly if it is used and has the same key |
| Directory.LinkBindsIff | Sleep e pingpong/kernel/fs.c:594-603 | the name gets bound to the inode number if and only if the number is not 0 and fits 16 bits |
| Directory.LinkOfLargeNumber | Sleep e pingpong/kernel/fs.c:594-603 | a failing input: linking inode 0x10000 in an empty directory binds nothing |
| PageTable.PteParts | Sleep e pingpong/kernel/riscv.h:385-401 | page number and flags packed into an entry come back out |
| PageTable.Indices | Sleep e pingpong/kernel/riscv.h:385-401 | the three 9-bit indices determine the virtual page number |
| PageTable.Path | Sleep e pingpong/kernel/vm.c:70-103 | the tables met on a walk are live tables of the right level, linked from where the walk came |
| PageTable.EntryUnique | Sleep e pingpong/kernel/vm.c:70-103 | two different pages, of one page table or of two, never share an entry |
| PageTable.SetPteMaps | Sleep e pingpong/kernel/vm.c:143-172 | writing one entry changes the flat map of that page table at that page only |
| PageTable.LinkMaps | Sleep e pingpong/kernel/vm.c:86-103 | adding an inner table changes no mapping of any page table |
| PageTable.LinkTree | Sleep e pingpong/kernel/vm.c:86-103 | adding an inner table keeps the trees well formed |
| Mappings.InsertedNext | Sleep e pingpong/kernel/vm.c:143-172 | one turn of mappages inserts one page and keeps the rest of the flat map |
| Mappings.AllocatedNext | Sleep e pingpong/kernel/vm.c:232-256 | one more fresh page extends the mapped range |
| Mappings.AllocatedUndone | Sleep e pingpong/kernel/vm.c:232-274 | allocating pages and removing them again restores every mapping and returns every data page; only tables may remain |
| Mappings.RemovedFree | Sleep e pingpong/kernel/vm.c:178-199 | one turn of uvmunmap deletes one page and frees its frame |
| Teardown.BelongsIsReached | Sleep e pingpong/kernel/vm.c:85-103 | a page belongs to a page table exactly when some walk from its root reaches it |
| Teardown.OneOwner | Sleep e pingpong/kernel/vm.c:276-304 | every table page and every mapped page belongs to some page table |
| Teardown.OnlyOwner | Sleep e pingpong/kernel/vm.c:276-304 | and to only one |
| Teardown.TornDownLast | Sleep e pingpong/kernel/vm.c:276-294 | freewalk frees exactly the tables below |
| Teardown.ReturnedAll | Sleep e pingpong/kernel/vm.c:296-304 | unmapping and freeing the tables returns exactly the pages that belong to the page table |
| Vm.Memory.constructor | Sleep e pingpong/kernel/kalloc.c:26-40 | after kinit exactly the allocatable pages are free |
| Vm.Memory.Kfree | Sleep e pingpong/kernel/kalloc.c:42-63 | the page becomes free, first on the list, and no mapping changes |
| Vm.Memory.Kalloc | Sleep e pingpong/kernel/kalloc.c:65-82 | a page that was free, or 0 exactly when none is |
| Vm.Memory.Walk | Sleep e pingpong/kernel/vm.c:70-103 | finds the entry of va; when it allocates, only tables are added, and it fails only without memory |
| Vm.Memory.Mappages | Sleep e pingpong/kernel/vm.c:138-172 | inserts n pages into the flat map; on failure the first k, with no memory left |
| Vm.Memory.AddPage | Sleep e pingpong/kernel/vm.c:242-254 | one page with given contents and permissions; failure frees it again |
| Vm.Memory.Uvmunmap | Sleep e pingpong/kernel/vm.c:174-199 | deletes n pages from the flat map and frees exactly their frames, or none |
| Vm.Memory.Uvmdealloc | Sleep e pingpong/kernel/vm.c:258-274 | removes exactly the whole pages between the sizes |
| Vm.Memory.Uvmalloc | Sleep e pingpong/kernel/vm.c:230-256 | adds zeroed pages between the sizes; failure restores all mappings and data pages and happens only with at most three free pages per page asked for |
| Vm.Memory.GiveBack | Sleep e pingpong/kernel/vm.c:244-252 | the error path restores mappings and data pages |
| Vm.Memory.Uvmcopy | Sleep e pingpong/kernel/vm.c:306-340 | the child gets the parent's contents and permissions in fresh pages; failure restores all mappings and data pages and happens only with at most three free pages per page to copy |
| Vm.Memory.Freewalk | Sleep e pingpong/kernel/vm.c:276-294 | frees the tables below exactly once and nothing else; the recursion terminates |
| Vm.Memory.Uvmfree | Sleep e pingpong/kernel/vm.c:296-304 | returns each data and table page of this page table and no other; the other page tables keep their maps |
| Vm.Memory.Uvmcreate | Sleep e pingpong/kernel/vm.c:201-212 | an empty page table in a page that was free |
| Vm.Partition | Sleep e pingpong/kernel/vm.c:230-340 | each page is free, handed to the kernel, or belongs to exactly one page table |
| ProcMemory.RemovedApart | Sleep e pingpong/kernel/vm.c:174-199 | unmapping and freeing pages of one page table leaves tables, mappings and contents of every other one alone |
| ProcMemory.ReturnedApart | Sleep e pingpong/kernel/vm.c:296-304 | so does freeing a page table |
| ProcMemory.OwnedStays | Sleep e pingpong/kernel/vm.c:85-103 | what leaves the pages of a page table alone keeps its user pages and their contents |
| ProcMemory.UserFits | Sleep e pingpong/kernel/proc.c:257-275 | no process has more user memory than there is RAM, so growing by any int does not reach the trap frame |
| ProcMemory.GrownUser | Sleep e pingpong/kernel/vm.c:230-256 | growing keeps the contents and permissions that were there |
| ProcMemory.ShrunkUser | Sleep e pingpong/kernel/vm.c:258-274 | shrinking keeps those that are left |
| ProcMemory.CopiedUser | Sleep e pingpong/kernel/vm.c:306-340 | a copied address space has the contents and permissions of the original, page by page |
| ProcMemory.InvStays | Sleep e pingpong/kernel/proc.c:105-215 | an operation on one page table keeps the memory of every process |
| Processes.Keep | Sleep e pingpong/kernel/vm.c:20-55 | boot takes pages for the kernel page table and the stacks and keeps them; all others stay free |
| Processes.BootInv | Sleep e pingpong/kernel/proc.c:33-62 | the memory invariant holds with no process, whatever pages boot kept |
| Processes.Kernel.constructor | Sleep e pingpong/kernel/kalloc.c:26-40 | after kinit and the pages that boot keeps, with no process, every other page is free |
| Processes.Kernel.ProcPagetable | Sleep e pingpong/kernel/proc.c:174-206 | a page table with trampoline and trap frame and no user memory; a failure at any of its three allocations leaves no page table behind |
| Processes.Kernel.ProcFreepagetable | Sleep e pingpong/kernel/proc.c:208-216 | frees user memory and tables, and neither the trampoline nor the trap frame |
| Processes.Kernel.Freeproc | Sleep e pingpong/kernel/proc.c:152-172 | gives back the trap frame and the page table as far as they exist; other processes keep their memory |
| Processes.Kernel.Allocproc | Sleep e pingpong/kernel/proc.c:105-150 | a process without user memory; failure changes no process and happens only without a slot or with at most six free pages |
| Processes.Kernel.Growproc | Sleep e pingpong/kernel/proc.c:257-275 | the size changes as sbrk asked, new pages are zero, the rest of the memory is kept; failure keeps all memory; other processes keep theirs |
| Processes.Kernel.Fork | Sleep e pingpong/kernel/proc.c:277-297 | the child has a copy of the parent's memory and every other process keeps its own; failure changes the memory of no process |
| Processes.Kernel.Run | Sleep e pingpong/kernel/proc.c:105-386 | after any sequence of process creation, growth, fork and exit, every page of RAM has exactly one owner, and those that boot kept are still kept |
| Processes.EveryPageHasOneOwner | Sleep e pingpong/kernel/proc.c:105-386 | each page of RAM is on the free list, kept by the kernel since boot, the trap frame of one process, or in the page table of one process: exactly one of these |
| ExitWait.BootKeeps | Sleep e pingpong/kernel/proc.c:232-257 | the invariant holds with only init running |
| ExitWait.StepKeeps | Sleep e pingpong/kernel/proc.c:279-616 | each of the 25 kinds of step of fork, exit, reparent, wait, sleep, wakeup, kill, yield and the scheduler keeps it |
| ExitWait.RunKeeps | Sleep e pingpong/kernel/proc.c:279-616 | so does every interleaving |
| ExitWait.NoSleeperMissesAZombie | Sleep e pingpong/kernel/proc.c:343-435 | whenever wait_lock is free, no process asleep in wait has a zombie child |
| ExitWait.EveryProcessHasALiveParent | Sleep e pingpong/kernel/proc.c:279-386 | at every point of every run each live or zombie process other than init has a parent that is neither unused nor a zombie |
| ExitWait.ZombiesAreReapedByTheirParent | Sleep e pingpong/kernel/proc.c:388-435 | a zombie goes away only by its parent's wait, after it has switched away for good, with a number not returned before |
| ExitWait.NoNumberIsReapedTwice | Sleep e pingpong/kernel/proc.c:388-435 | no process number is returned by two waits |
| SleepWakeup.StepKeeps | Sleep e pingpong/kernel/proc.c:547-592 | for any condition kept under a lock and any number of channels: every step of sleep, wakeup and the code around them keeps the invariant, if whoever changes the condition wakes the channels that need not wait before it releases the lock |
| SleepWakeup.RunKeeps | Sleep e pingpong/kernel/proc.c:547-592 | so does every interleaving |
| SleepWakeup.NoLostWakeup | Sleep e pingpong/kernel/proc.c:547-592 | for any such condition, whenever the lock is free, a process asleep on a channel still has to wait |
| SleepLock.StepKeeps | Sleep e pingpong/kernel/sleeplock.c:21-52 | every step of acquiresleep, releasesleep, sleep and wakeup keeps the invariant |
| SleepLock.RunKeeps | Sleep e pingpong/kernel/sleeplock.c:21-52 | so does every interleaving of NPROC processes |
| SleepLock.NoLostWakeup | Sleep e pingpong/kernel/proc.c:547-592 | whenever the inner spinlock is free, a process asleep on the lock implies it is locked |
| SleepLock.MutualExclusion | Sleep e pingpong/kernel/sleeplock.c:21-41 | at most one process is between acquiresleep and releasesleep |
| SleepLock.HoldingSleepIsExact | Sleep e pingpong/kernel/sleeplock.c:43-52 | holdingsleep is true exactly for the owner, and a locked lock has one |
| SleepLock.StepRefines | Sleep e pingpong/kernel/sleeplock.c:21-41 | every step of acquiresleep and releasesleep is a run of sleep and wakeup for the condition that the lock is locked |
| SleepLock.RunRefines | Sleep e pingpong/kernel/sleeplock.c:21-41 | so the sleep lock is an instance of it |
| Virtio.RingPush | Sleep e pingpong/kernel/virtio_disk.c:271-277 | storing a head at the 16-bit index overwrites no unconsumed slot |
| Virtio.RingPop | Sleep e pingpong/kernel/virtio_disk.c:309-324 | the slot at the consumer's index is the oldest entry, across index wrap |
| Virtio.IndexEmpty | Sleep e pingpong/kernel/virtio_disk.c:309-324 | equal indices mean an empty ring, never a full one |
| Virtio.SubmitKeeps | Sleep e pingpong/kernel/virtio_disk.c:226-281 | submitting keeps the protocol invariant |
| Virtio.SeeKeeps | Sleep e pingpong/kernel/virtio_disk.c:309-324 | consuming a completion keeps it, and neither the status nor the buffer panics |
| Virtio.FinishKeeps | Sleep e pingpong/kernel/virtio_disk.c:283-291 | freeing the chain after completion keeps it |
| Virtio.TakeKeeps | Sleep e pingpong/kernel/virtio_disk.c:271-281 | the device taking a request, in order of the avail ring, keeps it |
| Virtio.CompleteKeeps | Sleep e pingpong/kernel/virtio_disk.c:295-327 | the device completing any taken request, in any order, keeps it |
| Virtio.DeviceFindsRequest | Sleep e pingpong/kernel/virtio_disk.c:235-265 | the device follows the chain to the header, buffer and direction of the request that was submitted |
| Virtio.StepKeeps | Sleep e pingpong/kernel/virtio_disk.c:155-327 | every driver and device step keeps the invariant and is panic free |
| Virtio.RunKeeps | Sleep e pingpong/kernel/virtio_disk.c:155-327 | so does every run |
| Virtio.BootKeeps | Sleep e pingpong/kernel/virtio_disk.c:62-153 | the invariant holds after initialisation from any 16-bit ring position |
| Virtio.NeverPanics | Sleep e pingpong/kernel/virtio_disk.c:168-327 | no reachable driver step panics |
| Virtio.ChainsAreDisjoint | Sleep e pingpong/kernel/virtio_disk.c:155-292 | requests in flight use disjoint descriptors and different blocks |
| Virtio.RequestIsServed | Sleep e pingpong/kernel/virtio_disk.c:283-292 | when virtio_disk_rw returns, buffer and disk block hold the request's data and its head is in no queue any more |
| Virtio.SectorBlock | Sleep e pingpong/kernel/virtio_disk.c:216-218 | the 32-bit sector number leads back to the block if and only if the block number is below 0x80000000 |
| Virtio.StepCounts | Sleep e pingpong/kernel/virtio_disk.c:155-327 | a step moves a request to its next stage and none back |
| Virtio.EventsBalance | Sleep e pingpong/kernel/virtio_disk.c:155-327 | in every run from boot, requests of a buffer are submitted, taken, completed, reported and finished equally often, up to the one in flight |
| Virtio.ServedExactlyOnce | Sleep e pingpong/kernel/virtio_disk.c:215-327 | between the submission of a request and the return of virtio_disk_rw, the device takes and completes it exactly once and the handler reports it exactly once, anywhere in any run |
| VirtioDisk.Disk.constructor | Sleep e pingpong/kernel/virtio_disk.c:62-153 | all descriptors free, rings empty |
| VirtioDisk.Disk.AllocDesc | Sleep e pingpong/kernel/virtio_disk.c:155-166 | the first free descriptor, -1 exactly when there is none |
| VirtioDisk.Disk.FreeDesc | Sleep e pingpong/kernel/virtio_disk.c:168-182 | clears and frees one descriptor |
| VirtioDisk.Disk.Alloc3Desc | Sleep e pingpong/kernel/virtio_disk.c:199-213 | three different free descriptors, or the free set restored because no three were free |
| VirtioDisk.Disk.FreeChain | Sleep e pingpong/kernel/virtio_disk.c:184-197 | follows the chain and frees exactly its three descriptors |
| VirtioDisk.Disk.Start | Sleep e pingpong/kernel/virtio_disk.c:215-281 | submits the request as the protocol step does; not only when no three descriptors are free |
| VirtioDisk.Disk.End | Sleep e pingpong/kernel/virtio_disk.c:283-292 | completes the request as the protocol step does |
| VirtioDisk.Disk.Intr | Sleep e pingpong/kernel/virtio_disk.c:294-327 | consumes every completion: exactly the completed requests stop being busy |
| FreeList.GiveSorted | Sleep e pingpong/user/umalloc.c:24-44 | putting a block into its gap and joining it with both neighbours keeps the list sorted, disjoint and fully coalesced |
| FreeList.GiveCells | Sleep e pingpong/user/umalloc.c:24-44 | the free cells grow by exactly the block's cells |
| FreeList.TakeSorted | Sleep e pingpong/user/umalloc.c:73-84 | taking the tail of a block, or all of it, keeps the list sorted and coalesced |
| FreeList.TakeCells | Sleep e pingpong/user/umalloc.c:73-84 | the free cells shrink by exactly the cells handed out |
| Umalloc.GapTest | Sleep e pingpong/user/umalloc.c:30-32 | the search loop's two tests stop at the block's gap and nowhere else, including the wrap of the circular list |
| Umalloc.JoinedLinks | Sleep e pingpong/user/umalloc.c:33-43 | the pointer and size updates of free realise the joined list |
| Umalloc.Heap.constructor | Sleep e pingpong/user/umalloc.c:19-22 | the allocator before its first call |
| Umalloc.Heap.Free | Sleep e pingpong/user/umalloc.c:24-44 | the block goes to its place, joined with its neighbours; the search terminates |
| Umalloc.Heap.Join | Sleep e pingpong/user/umalloc.c:33-43 | after free the list, the live blocks and the heap agree again |
| Umalloc.Heap.Morecore | Sleep e pingpong/user/umalloc.c:46-61 | on a grant the free list gains at least the request, and the cells sbrk really gave are those of the argument cut off to an int; without one nothing changes |
| Umalloc.Heap.Malloc | Sleep e pingpong/user/umalloc.c:63-90 | returns a block that overlaps no live one; 0 only if sbrk fails and no free block is large enough; asks sbrk only when none is; the heap stays within what sbrk gave if and only if it asked nothing or the bytes fit an int; the search terminates |
| Umalloc.GrantedIff | Sleep e pingpong/user/umalloc.c:52-58 | for every request: sbrk gives the cells that morecore enters in the free list if and only if the bytes asked for are below 2^31 |
| Umalloc.HugeRequestGetsNothing | Sleep e pingpong/user/umalloc.c:52-58 | a failing input: 0x7FFFFFE1 bytes make the argument negative, and nothing is given |
| Umalloc.Heap.Init | Sleep e pingpong/user/umalloc.c:70-73 | the first call makes a list of the empty base block |
| Umalloc.Heap.Hand | Sleep e pingpong/user/umalloc.c:75-85 | takes the block out of memory links and list alike |
| Umalloc.Units | Sleep e pingpong/user/umalloc.c:69-69 | the least number of units whose body holds nbytes behind one header |
| Umalloc.OneBlockPerCell | Sleep e pingpong/user/umalloc.c:24-90 | conservation: every cell granted by sbrk lies in exactly one free or live block, and no other cell does |
| Umalloc.Heap.Relink | Sleep e pingpong/user/umalloc.c:33-43 | the header updates of free, in place |
| Regex.MatchHere | Sleep e pingpong/user/grep.c:84-96 | computes the recursive definition; terminates |
| Regex.MatchStar | Sleep e pingpong/user/grep.c:98-106 | the loop tries every number of repetitions |
| Regex.Match | Sleep e pingpong/user/grep.c:72-82 | the loop tries every start, or only the first with ^ |
| Regex.HereMeans | Sleep e pingpong/user/grep.c:84-96 | the recursive matcher agrees with splitting a prefix of the text into pieces that fit the pattern's items |
| Regex.StarMeans | Sleep e pingpong/user/grep.c:98-106 | the same for a starred item |
| Regex.AnywhereMeans | Sleep e pingpong/user/grep.c:77-81 | the search loop means: at some position |
| Regex.MatchesMeans | Sleep e pingpong/user/grep.c:72-106 | match is true exactly when the parsed pattern denotes some substring of the text, anchored as written, for all patterns and texts |
| Grep.Strchr | Sleep e pingpong/user/grep.c:22-22 | the first newline at or after p, or none before the first NUL |
| Grep.PrintLines | Sleep e pingpong/user/grep.c:21-29 | the inner loop prints the matching complete lines and leaves the rest |
| Grep.Refill | Sleep e pingpong/user/grep.c:18-20 | appends what read delivered and terminates it |
| Grep.Shift | Sleep e pingpong/user/grep.c:30-33 | moves the unfinished line to the front |
| Grep.Grep | Sleep e pingpong/user/grep.c:11-35 | for every input, and every way read splits it, the output is that of the input up to its first NUL, and depends on the input only; it is the matching lines whenever lines fit the buffer and hold no NUL |
| Grep.PrintedIsSelected | Sleep e pingpong/user/grep.c:11-35 | exact condition for text without NUL: the output is all matching lines if and only if no line matches from the first line on that needs more than 1023 bytes with its newline |
| Grep.ShownIsSelected | Sleep e pingpong/user/grep.c:11-35 | exact condition for any input, NULs included: the output is the matching lines before the first line that does not fit or holds a NUL, so it is all of them if and only if none matches from there on |
| Grep.FittingLinesAreShown | Sleep e pingpong/user/grep.c:11-35 | lines that fit, without a NUL, are enough |
| Grep.NulLineIsLost | Sleep e pingpong/user/grep.c:11-35 | a failing input: a line with a NUL is not printed although it matches |
| Grep.FittingLinesArePrinted | Sleep e pingpong/user/grep.c:11-35 | lines of at most 1023 bytes with their newline are enough |
| Grep.LongLineIsLost | Sleep e pingpong/user/grep.c:11-35 | a failing input: a line of 1023 characters and its newline is not printed although it matches |
| Pipe.TestsExact | Sleep e pingpong/kernel/pipe.c:76-130 | the wrapped counters test full and empty exactly |
| Pipe.PutHolds | Sleep e pingpong/kernel/pipe.c:91-97 | a byte put is last in the queue |
| Pipe.GetHolds | Sleep e pingpong/kernel/pipe.c:120-126 | a byte taken is the first of the queue |
| Pipe.RunHolds | Sleep e pingpong/kernel/pipe.c:76-130 | over any interleaving of puts and takes the ring holds the queue |
| Pipe.PipeIsQueue | Sleep e pingpong/kernel/pipe.c:76-130 | bytes taken are a prefix of bytes put, in order, at most PIPESIZE apart, across wrap of the 32-bit counters |
| Pipe.PipeBuffer.constructor | Sleep e pingpong/kernel/pipe.c:23-56 | a new pipe is empty |
| Pipe.PipeBuffer.Write | Sleep e pingpong/kernel/pipe.c:83-98 | moves source bytes until all are in, the ring is full or the source is unreadable, and says which |
| Pipe.PipeBuffer.Read | Sleep e pingpong/kernel/pipe.c:120-129 | delivers the front of the queue; exactly one further byte is lost when copying to the reader fails |
| Shell.Lex | Sleep e pingpong/user/sh.c:266-309 | a token lies within the line, words are maximal runs of word characters, and 0 is returned exactly at the end |
| Shell.ParseRedirs | Sleep e pingpong/user/sh.c:375-398 | every file name is a token; terminates |
| Shell.ParseExec | Sleep e pingpong/user/sh.c:416-447 | every argument is a token of the line; terminates together with the block parser |
| Shell.ParseBlock | Sleep e pingpong/user/sh.c:400-414 | the same inside parentheses |
| Shell.ParsePipe | Sleep e pingpong/user/sh.c:362-373 | the same for pipes |
| Shell.ParseLine | Sleep e pingpong/user/sh.c:345-360 | the same for lists and background commands |
| Shell.ParseCmd | Sleep e pingpong/user/sh.c:328-343 | on every line the parser stops, and all words of the tree are tokens of the line |
| ShellRoundTrip.ExecRendered | Sleep e pingpong/user/sh.c:416-447 | a rendered simple command parses to its words |
| ShellRoundTrip.LineRendered | Sleep e pingpong/user/sh.c:345-447 | a rendered tree followed by a stop character parses to the tree and stops behind it |
| ShellRoundTrip.RoundTrip | Sleep e pingpong/user/sh.c:328-447 | parsing the parenthesised rendering of any command tree with fewer than MAXARGS words per command gives the same tree |
| ShellParser.Parser.constructor | Sleep e pingpong/user/sh.c:328-335 | the cursor starts at the front of the line |
| ShellParser.Parser.Gettoken | Sleep e pingpong/user/sh.c:266-309 | the loops compute the token and move the cursor behind it |
| ShellParser.Parser.Peek | Sleep e pingpong/user/sh.c:311-321 | skips blanks and looks at the next character |
| ShellParser.Parser.Parseredirs | Sleep e pingpong/user/sh.c:375-398 | the loop collects the redirections the specification gives |
| ShellParser.Parser.Parseexec | Sleep e pingpong/user/sh.c:416-447 | the cursor parser agrees with the specification, errors included |
| ShellParser.Parser.Parseblock | Sleep e pingpong/user/sh.c:400-414 | likewise for blocks |
| ShellParser.Parser.Parsepipe | Sleep e pingpong/user/sh.c:362-373 | likewise for pipes |
| ShellParser.Parser.Parseline | Sleep e pingpong/user/sh.c:345-360 | likewise for lines |
| ShellParser.Nulterminate | Sleep e pingpong/user/sh.c:449-494 | writes a NUL behind every word of the tree and nowhere else |
| ShellParser.CutKeeps | Sleep e pingpong/user/sh.c:449-494 | these NULs fall outside all words, so no word is changed and each is terminated |
| ShellParser.Parsecmd | Sleep e pingpong/user/sh.c:328-343 | the tree is the specified one and every argument in the buffer is exactly its token as a C string |

## Left out

- Boot, traps, interrupts other than the disk's, context switch assembly: register plumbing.
- Spinlock internals and memory ordering: acquire and release are atomic steps.
- Console, UART, printf, exec, system call marshalling: no invariant of their own beyond the layers below.
- Path names, iget, iput, inode reference counts, ialloc and nlink: create does not check for an unlinked parent, so a link-count invariant would need extra hypotheses.
- More than one device: every block is on the root device.
- In-kernel copies: copyin, copyout, either_copyin and either_copyout are all-or-nothing per chunk; a partly failed chunk of writei, which leaves a changed unlogged buffer, is not represented.
- LogDevice.LogDev.TryBegin: one test of begin_op's loop; its sleeping is not modelled here, the interleaving is in Reservation.
- LogDevice.LogDev.Commit: the holders of other buffers do not change while it works; the interleaving is in LogRuns.
- LogRuns.StepKeeps: reading a block from disk into a buffer, and writing one block, are single steps.
- FileSystem.Fs.Filewrite: the bound is on the set of blocks logged by each transaction, not on the number of log_write calls; Reservation.MkfsLogIsSafeIff does not depend on that number.
- FileSystem.Fs.Writei: operations on a volume run one at a time; operations on different inodes that interleave between locked blocks are not modelled.
- Transaction.OperationRuns: the run logs each changed block once, with its final contents, while no other process uses a buffer; other operations may be in progress.
- Transaction.WriteOperation: the MAXOPBLOCKS slots must be below the limit of log_write, which admission alone does not ensure (Reservation.PanicsIff).
- FileSystem.TruncFits: the bound on what itrunc logs, not a volume that reaches it.
- Transfers.LimitIsExact: exact for the budget formula; no volume is built on which a longer chunk logs more than MAXOPBLOCKS blocks.
- Format.FormattedIsGood: a volume without files; the files that mkfs puts on the image are not modelled, and its rounding of the root directory's size is not followed.
- FileSystem.Fs.constructor: the same volume without files.
- Vm.Memory.Mappages: counts whole pages, since the code panics on an unaligned address or size; a mapping that exists already is a precondition, since the code panics.
- Vm.Memory.Uvmalloc: sizes are at most MAXVA, as the callers guarantee.
- Processes.Keep: the pages of the kernel page table and the kernel stacks are a set; what the kernel maps with them is not modelled, and the panic when they run out is the end of the loop.
- Pipe buffers as owners of pages; uvmfirst, uvmclear, walkaddr and exec's new page table: no new kind of step.
- Processes.Kernel.Run: operations on memory run one at a time; a process's memory is freed when it is reaped, and the states of processes are in ExitWait.
- ExitWait.StepKeeps: a short critical section on one process slot is one step; open files, directories and user memory of a process are not part of it.
- SleepLock.StepKeeps: one sleep lock and its sleepers; SleepWakeup has any number of channels.
- Liveness: that a woken process eventually runs, and that a pipe reader is woken when a writer is killed.
- Virtio.StepKeeps: block numbers are below 0x80000000; the device reports success and transfers whole blocks; feature negotiation and memory barriers are left out.
- VirtioDisk.Disk.Alloc3Desc: the loop of three turns is written out.
- VirtioDisk.Disk.Start: one attempt; waiting for descriptors is a later attempt.
- Pipe.PipeBuffer.Write: the part between two sleeps; the early return for a killed writer or a closed reader moves no byte.
- Umalloc.Heap.Malloc: sbrk's answer is a parameter, an address at or above the break; machine addresses, and memory given back by a negative argument, are not modelled.
- Umalloc.Heap.Morecore: likewise.
- Umalloc.Heap.Free: the pointer must be a live block, as the code assumes.
- Shell.ParseCmd: command trees are values; the nodes that the code allocates and fills in place, and running the commands, are not modelled.
- Grep.Grep: reads without errors.
- User programs other than sh, grep and the allocator; mkfs image writing.
