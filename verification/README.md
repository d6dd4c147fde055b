# xv6 in Dafny

A model of the parts of xv6 (with the EDF and rate-monotonic scheduler) where a mistake is hard to
see, and proofs of what those parts are for:

- **Redo log** (`Log`, `LogDevice`, `GroupCommit`, `Reservation`, `LogProgress`). The disk is a sequence of blocks
  with atomic block writes, and a crash may fall between any two of them. A committed transaction
  reaches the disk whole or not at all, through any number of crashes during recovery; over every
  interleaving of operations the recovered disk holds whole finished operations only, what is
  durable stays so, and whatever is open can always be finished.
- **Log and buffer cache together** (`CacheLog`, `CacheSteps`, `CommitBuffers`, `CommitRuns`). One
  machine with operations, readers, commits, recoveries and crashes over the cache's buffers: which
  buffers are dirty and in use at each step, and exactly when a commit runs out of them.
- **Buffer cache** (`Bio`, `BufferCache`). Thirty recycled buffers on a doubly linked ring behave
  like one map from block number to latest contents, and no changed block is lost by recycling.
- **Files** (`FileBlocks`, `FileWrites`, `WriteLog`, `FileSpace`, `FileChunks`, `FileTrunc`, `FileSystem`,
  `TightWrite`). Every block has one owner, files have no holes, `readi` and `writei` read and write byte
  sequences, and every chunk of `filewrite` fits a log transaction, with nothing to spare.
- **Crash consistency** (`DiskLayout`, `FileCalls`, `FileLog`, `CrashConsistency`, `FileProgress`, `TruncLog`). The
  file system as words of disk blocks, its calls as operations of the log: at every moment of every
  run recovery gives the file system after some finished calls, with exact ownership, no holes and
  no old data past the end of a file; and every call can be carried through.
- **Scheduling** (`Scheduler`, `RateMonotonic`, `RateBound`). Every run of EDF, of rate-monotonic and of
  unscheduled processes is the schedule that dispatch by smallest key, or by turn, promises; admission
  by EDF gives a lateness bound, and the rate-monotonic table admits exactly what the condition of Liu
  and Layland (1973) does.
- **Memory** (`Umalloc`, `HeapInvariant`, `UserHeap`, `Vm`, `AddressSpace`, `KernelMap`, `Paging`). The K&R allocator
  keeps its ring and what the program has stored, and page tables and the frame free list never lose
  or share a frame, also when memory runs out half way.
- **Protocols and languages** (`SleepLock`, `SleepLockRuns`, `Pipe`, `PipeProtocol`, `Grep`, `Shell`,
  `ShellLexer`, `ShellGrammar`, `ShellAccepts`, `ShellMeaning`, `ShellRoundTrip`, `ShellParser`). Sleep
  locks exclude, wake and let everybody in, pipes are queues, `match` decides the language of its
  pattern, and the shell's parser accepts exactly the lines of its grammar, each as the command it
  stands for.

Code that updates state in place is a class whose methods are proved against functions or relations
on values; the theorems are about those. Protocols are state machines whose runs are sequences of
atomic steps. Fields named `owner`, `latest`, `ring`, `free`, `alloc` and the like, and the `owner`
component of `Vm.Memory` and `FileBlocks.Fs`, exist for the statements only.

Where the code falls short of a property it suggests, the exact condition is proved:

- The panic "too big a transaction" of `log_write`, which looks at the length of the list before it
  looks for the block in it. For operations that log at most `MAXOPBLOCKS` distinct blocks the panic
  is reachable on a log of any size; it is out of reach if and only if there are too few home blocks
  to fill the list (`Reservation.BlocksMeetGuard`). On a log of more than `LOGSIZE` blocks it stops
  exactly the rewriting of a listed block while the list is full (`GuardStops`). For operations that
  call `log_write` at most `MAXOPBLOCKS` times the panic is out of reach if and only if the log has
  more than `LOGSIZE` blocks or there are too few home blocks (`CallsMeetGuard`). The image builder
  makes the log exactly `LOGSIZE` blocks long. `GuardFires` gives the runs that panic.
- The panic "bget: no buffers" during a commit. A listed block keeps a dirty buffer until it is
  installed, and other processes may use more. The first `bread` for each write (of a log block or the
  header) panics if and only if pending blocks and buffers of others fill the cache and the block
  is not in it; the second (of a home block) never does, nor does recovery
  (`CommitBuffers.CommitReads`). With at most `h` buffers used by others during a commit, no run
  panics if and only if the log can list no block, or its longest list and `h` stay below `NBUF`, or
  there are fewer than `NBUF` home blocks (`CommitRuns.CommitsFindBuffers`). The log the image
  builder makes lists up to 29 blocks, so it takes one buffer of another process. With
  enough home blocks no log size avoids both this panic and the last (`NoSafeLogSize`).
- `itrunc` fits an operation of `MAXOPBLOCKS` blocks if and only if at most nine bitmap blocks mark the
  file (`TruncLog.TruncSize`); a bitmap of at most nine blocks is enough (`TruncFits`), and a file
  spread over ten makes it log eleven (`TruncTooMuch`).
- "The higher rate goes first" holds between two rate-monotonic processes if and only if their
  rates fall into different ones of the priority levels, or the higher rate has the smaller pid
  (`Scheduler.HigherRateFirst`, `RateLevel`).
- Of several redirections of one descriptor the first in the line counts, though all are opened:
  `echo x > a > b` writes to `a` (`ShellMeaning.FirstCounts`).
- `PipeProtocol.SleepersKept`: "a sleeping reader means an empty pipe" is kept by a step if and only
  if the step does not strand a sleeper, which takes a killed process: a writer that fills the pipe
  and finds itself killed returns without waking the readers (`StrandedReader`).

## Model

| member | source | states |
|---|---|---|
| Log.CrashAtomicity | log.c:69-122 | After a crash at any point of a commit, any crashed recoveries and one complete one, the home blocks are all old if the header was not yet written and all new if it was, and the log is empty |
| Log.CommitPrefix | log.c:177-202 | One recovery after any prefix of commit's writes gives all old or all new home blocks, split at the header write |
| Log.BeforeHeader | log.c:177-190 | Copies in the log area without a header do not survive recovery |
| Log.AfterHeader | log.c:69-113 | Once the header is written, recovery gives the same disk wherever commit stopped |
| Log.RecoverPrefix | log.c:115-122 | Recovery can be cut off anywhere and started again with the same outcome |
| Log.CrashedRecoveries | log.c:115-122 | Any number of cut-off recoveries leaves a valid disk with the same recovery |
| Log.RecoverClears | log.c:115-122 | Recovery leaves an empty log |
| Log.RecoverLeaves | log.c:115-122 | Recovery leaves home blocks that the log does not name as they were |
| Log.InstalledHomes | log.c:69-82 | Installing puts every logged block in its home and changes no other home |
| Log.LogDescribes | log.c:84-113 | The header that write_head encodes is the one read_head decodes, next to the logged data |
| LogDevice.Device.WriteLog | log.c:177-190 | Disk and cache take exactly the writes that copy the cached transaction blocks into the log |
| LogDevice.Device.WriteHead | log.c:101-113 | One header write with the count and the block numbers |
| LogDevice.Device.InstallTrans | log.c:69-82 | The writes that copy each logged block home |
| LogDevice.Device.ReadHead | log.c:84-96 | The in-memory header is the one on disk |
| LogDevice.Device.RecoverFromLog | log.c:115-122 | Disk and cache become the recovered disk, by the writes of RecoverWrites in that order |
| LogDevice.Device.Commit | log.c:192-202 | The disk sees exactly CommitWrites in that order; the homes are updated, the log is empty, and cached home blocks are unchanged |
| LogDevice.Device.BeginOp | log.c:125-141 | Admitted if and only if no commit is running and the reservation for one more operation fits; what that means is Reservation.AdmitsExactly |
| LogDevice.Device.EndOp | log.c:143-174 | The last of the outstanding operations commits, others change nothing on disk; it panics just when a commit is running |
| LogDevice.Device.LogWrite | log.c:213-233 | Absorbs a block already logged, appends a new one; both panics, in order |
| LogDevice.CommitAgrees | log.c:192-202 | After a commit the disk's homes hold the cache's contents and disk and cache agree on the log |
| GroupCommit.GroupCommitSafe | log.c:125-202 | In every run with crashes, recovery yields the effect of a prefix of the writes that contains whole finished operations only, all of them when no operation is open and no commit is running; a commit never overlaps an operation, and no panic but "too big a transaction" is reachable |
| GroupCommit.DurableForGood | log.c:125-202 | The durable writes of a state are a prefix of the durable writes of every later state, through any further steps and crashes |
| GroupCommit.Recoverable | log.c:115-202 | In every reachable state the recovered disk is the replay of the durable writes |
| GroupCommit.StepKeeps | log.c:125-233 | Every step of begin_op, log_write, end_op, commit, crash and recovery keeps the invariant |
| GroupCommit.BootOk | log.c:115-122 | Booting on any valid disk establishes the invariant |
| LogProgress.OnwardsCloser | log.c:143-202 | Ending an open operation, or the next write of a commit or recovery, comes closer to an idle log |
| LogProgress.AlwaysFinishes | log.c:125-202 | From every reachable state that has not panicked the open operations can end and be committed without a crash, after which all that was logged is durable and begin_op admits the next one |
| Reservation.ReservationHolds | log.c:125-141 | In every run of operations within their budget, of distinct blocks or of calls, logged blocks and unused budgets together stay within LOGSIZE, so an operation with budget left finds room |
| Reservation.AdmitsExactly | log.c:125-141 | begin_op's test admits an operation if and only if, whatever the running ones have logged within their budgets, all that they and it may still log fits |
| Reservation.BeginReached | log.c:125-141 | Runs with one operation open and any number of blocks listed up to twenty, in which begin_op admits another one up to ten blocks and refuses it from eleven on |
| Reservation.GuardStops | log.c:213-222 | In a reachable state, on a log of more than LOGSIZE blocks, a log_write within the budget of distinct blocks panics if and only if the list is full and the block is in it |
| Reservation.GuardFires | log.c:218-219 | A run within budget that panics: on a log of any size for distinct blocks, of at most LOGSIZE blocks for calls |
| Reservation.BlocksMeetGuard | log.c:213-222 | Within the budget of distinct blocks no run panics if and only if the home blocks are too few to fill the list |
| Reservation.CallsMeetGuard | log.c:213-222 | Within the budget of calls no run panics if and only if the log has more than LOGSIZE blocks or the home blocks are too few |
| Reservation.CallsNeverStopped | log.c:213-222 | On a log of more than LOGSIZE blocks no run within the budget of calls panics |
| CacheSteps.JointStepKeeps | log.c:69-233 | Every step of operations, readers, commit, recovery and crash keeps: exactly the blocks logged and not yet installed have dirty buffers, one each, and buffers in use belong to readers of home blocks or are the one that commit holds |
| CacheSteps.CopyOrder | log.c:69-82 | After each turn of install_trans and write_log its two buffers are the most recently released ones, in the order of the brelse calls |
| CacheSteps.LastReleased | bio.c:118-141 | A buffer released for the last time is the most recently released one |
| CacheLog.WritesWhatIsRead | log.c:69-113 | Each write of commit and recovery goes to the block read first, or to the second one when installing |
| CommitBuffers.BreadPanics | bio.c:58-93 | In any cache, bread panics if and only if dirty buffers and clean ones in use are all of them and none has the block |
| CommitBuffers.ReadPanics | log.c:177-188 | In every state of the invariant the first bread for a write panics if and only if pending blocks and buffers of others fill the cache and the block is not in it |
| CommitBuffers.FinishFinds | log.c:69-82 | The second bread, made while the first buffer is held, never panics: the block has a dirty buffer, or recovery runs alone |
| CommitBuffers.CommitReads | log.c:69-202 | Both over every run, with other processes holding any buffers of home blocks; recovery never panics |
| CommitBuffers.LogOfRun | log.c:125-233 | The log's part of such a run is a run of the log within the same budget |
| CommitRuns.SticksSomewhere | log.c:177-188 | The run that panics: three operations fill the list, readers take the other buffers, and the commit finds none |
| CommitRuns.CommitsFindBuffers | log.c:69-202 | With at most h buffers used by others during a commit, no run panics for lack of a buffer if and only if the log can list no block, or its longest list and h stay below NBUF, or there are fewer than NBUF home blocks; whatever the cache held at boot |
| CommitRuns.NoSafeLogSize | log.c:213-222 | With LOGSIZE home blocks, every log size has a run within budget that meets one of the two panics, for every h |
| BufferCache.Binit | bio.c:38-56 | The next and prev links form one ring through the head with every buffer once |
| BufferCache.BCache.FindCached | bio.c:68-76 | Finds a buffer of the block if and only if there is one |
| BufferCache.BCache.FindRecyclable | bio.c:78-91 | Finds the unused, clean buffer released longest ago, if there is any |
| BufferCache.BCache.Bget | bio.c:58-93 | The cached buffer with one more reference, or the least recently released one recycled; panics if and only if there is neither |
| BufferCache.BCache.Iderw | memide.c:36-60 | A dirty buffer goes to the disk, an invalid one is read; exact panic conditions |
| BufferCache.BCache.Fill | bio.c:101-104 | What the buffer holds afterwards is the latest contents of the block |
| BufferCache.BCache.Bread | bio.c:95-106 | A locked buffer that holds the latest contents of the block; or a reference to wait with, if and only if somebody holds its lock; or one of the two panics; disk unchanged |
| BufferCache.BCache.Bwrite | bio.c:108-116 | Disk and latest contents become the buffer's data; panics if and only if the caller does not hold it |
| BufferCache.BCache.Pin | log.c:223-232 | A buffer passed to log_write is dirty from then on, and its data is the latest |
| BufferCache.BCache.Requeue | bio.c:130-137 | Relinking six pointers moves the buffer to the front of the ring and keeps the order of the others |
| BufferCache.BCache.Brelse | bio.c:118-141 | Drops the reference; the last one moves the buffer to the front with a new release stamp |
| Bio.BgetKeeps | bio.c:58-93 | Getting a buffer keeps one buffer per block, agreement with the latest contents, and the order of release |
| Bio.LoadIsLatest | bio.c:95-106 | A block that must be read from disk has its latest contents there: no dirty buffer was recycled |
| Bio.BwriteKeeps | bio.c:108-116 | Writing through keeps the cache a refinement of the map |
| Bio.PinKeeps | log.c:223-232 | Logging a changed block keeps it |
| Bio.BrelseKeeps | bio.c:118-141 | Releasing keeps it, and keeps the ring in most-recently-released order |
| Bio.OneHolder | bio.c:58-93 | Two buffers of a real device never hold the same block |
| Bio.GetThenRelease | bio.c:58-141 | Getting, locking and releasing a cached buffer leaves it as it was; a recycled one is left unused, for its new block |
| FileBlocks.GetSetWord | fs.c:389-393 | A word stored in an indirect block reads back, and no other word changes |
| FileBlocks.AssignAddr | fs.c:372-396 | Giving a free block to an empty slot changes the address in that slot and in no other, of any file |
| FileBlocks.AssignKeeps | fs.c:56-78 | It keeps ownership exact: one slot for each block in use, and the bitmap marks metadata and owned blocks only |
| FileBlocks.StoreByte | fs.c:498-504 | Storing a data block changes the bytes of that block of that file alone |
| FileBlocks.FirstFree | fs.c:63-75 | The first clear bit: all bits before it are set |
| FileWrites.MappedAddr | fs.c:372-400 | bmap makes the block present, keeps every address there was, and adds at most the data and the indirect block of that file |
| FileWrites.MappedKeeps | fs.c:372-400 | bmap keeps ownership for every block number in range |
| FileWrites.MappedThere | fs.c:372-400 | Where the block is there bmap changes nothing |
| FileWrites.MappedFills | fs.c:372-400 | Writing at or before the end keeps "allocated if and only if the bytes reach it" |
| FileWrites.WithBytesByte | fs.c:498-504 | One turn of writei changes just the bytes written, in any file and at any offset, past the ends too |
| FileWrites.WroteNext | fs.c:498-504 | The loop invariant of writei: bytes so far in place, nothing else changed, no holes, no allocation before the end of the file |
| FileWrites.WroteNoHoles | fs.c:481-511 | After writei every file is allocated exactly up to its size |
| FileWrites.WroteContent | fs.c:481-511 | The file reads as before with the new bytes in place of the old ones at that offset, extended as needed |
| FileWrites.WroteOthers | fs.c:481-511 | Every other file reads as before |
| FileWrites.WroteClean | fs.c:481-511 | Past the end of every file its last block stays zero, so no old data shows when it grows |
| FileTrunc.FreeNext | fs.c:407-431 | In itrunc's order every address names a block still marked, so bfree cannot panic |
| FileTrunc.OwnershipRun | fs.c:56-435 | After any run of bmap and itrunc each block in use has one slot and the bitmap marks exactly metadata and owned blocks; truncating a file would free exactly its own |
| FileTrunc.TruncatedKeeps | fs.c:407-435 | itrunc frees precisely the owned blocks and keeps ownership exact |
| FileTrunc.TruncatedNoHoles | fs.c:407-435 | No file gets a hole |
| FileTrunc.TruncatedClean | fs.c:407-435 | Past the end of every file its last block stays zero |
| FileTrunc.TruncatedContent | fs.c:407-435 | The file is empty, every other file reads as before |
| TruncLog.FreedAreFileBits | fs.c:407-431 | The bitmap blocks that itrunc logs are those that mark the file's blocks |
| TruncLog.TruncSize | fs.c:407-435 | itrunc logs one block more than that, so it fits an operation if and only if they are at most nine |
| TruncLog.TruncFits | fs.c:407-435 | It fits with any bitmap of at most nine blocks |
| TruncLog.TruncTooMuch | fs.c:407-435 | A file system with exact ownership and no holes on which it logs MAXOPBLOCKS + 1 blocks |
| DiskLayout.BitOfWord | fs.c:64-68 | A bit of the free bitmap reads back from the word that stores it |
| DiskLayout.Determined | fs.h:28-48 | The disk determines the bitmap, the inodes and the data blocks |
| DiskLayout.SameFilesOnDisk | fs.h:28-48 | So it determines the bytes of every file |
| FileCalls.WriteIsCall | fs.c:481-511 | A write logs every block in which the file system on disk changes, and keeps exact ownership and no holes |
| FileCalls.TruncIsCall | fs.c:407-435 | So does itrunc |
| FileCalls.UnloggedSame | log.c:204-233 | A block that a call did not log is the same on disk before and after it |
| CrashConsistency.FileStepKeeps | log.c:125-233 | Every step, of a call, of other operations, of a commit, a crash or a recovery, keeps: the durable writes hold the file system after call number mark, and all writes hold the one after the last call, up to the blocks a running call has still to log |
| CrashConsistency.CrashConsistent | log.c:115-202 | In every run, at every moment, the disk that recovery gives holds the file system after the calls up to mark, with exact ownership, no holes and zeros past the ends of files; after all finished calls when no operation is open and no commit is running |
| CrashConsistency.KeptForGood | log.c:125-202 | Calls that recovery would give stay so through any further steps and crashes |
| FileProgress.CallCanRun | file.c:127-152 | From any settled state every call whose blocks the log has room for can be carried through: it logs its blocks, its operation ends, the commit finishes, and recovery gives its result |
| WriteLog.LoopLogNext | fs.c:498-504 | The blocks writei logs, in closed form: data blocks touched, bitmap blocks of new blocks, the indirect block if it grew |
| WriteLog.NewBlock | fs.c:372-400 | A newly marked block belongs to a slot of the written file past its old end |
| WriteLog.ChunkFits | file.c:127-152 | A chunk of filewrite logs at most MAXOPBLOCKS distinct blocks, however many bitmap blocks there are |
| WriteLog.ChunkTight | file.c:127-152 | A write across the direct boundary whose new blocks come from four bitmap blocks logs exactly MAXOPBLOCKS |
| TightWrite.TenReached | file.c:127-152 | A file system with exact ownership and no holes, and a chunk written to it with success, that logs exactly MAXOPBLOCKS blocks |
| TightWrite.ScatteredTight | file.c:127-152 | That happens wherever each free block has a bitmap block of its own |
| TightWrite.WriteSucceeds | fs.c:498-504 | With enough free blocks the loop of writei gets to its end |
| FileSpace.CannotMap | fs.c:372-400 | bmap runs out of blocks if fewer are free than the data and indirect block it must add |
| FileSpace.TookNext | fs.c:498-504 | A write takes exactly the blocks between the old end and the new one, and the indirect block when it passes the direct ones |
| FileSpace.TookAll | fs.c:498-504 | Running out part way means that the free blocks were too few for the whole write |
| FileSystem.Files.constructor | fs.c:97-113 | An empty file system has exact ownership, no holes and all inodes on disk |
| FileSystem.Files.FindFree | fs.c:63-77 | The nested search finds the first free block, if there is one |
| FileSystem.Files.Balloc | fs.c:56-78 | The first free block, marked, zeroed and logged; panics if and only if there is none |
| FileSystem.Files.Bfree | fs.c:81-95 | Clears the bit and logs it; panics if and only if the block was free |
| FileSystem.Files.EnsureAddr | fs.c:378-388 | An address in the inode, allocated if it was zero |
| FileSystem.Files.EnsureEntry | fs.c:389-396 | The same for an entry of the indirect block |
| FileSystem.Files.Bmap | fs.c:372-400 | The block's address, after the allocations of Mapped; panics if and only if it is out of range or blocks run out; everything it changes is logged |
| FileSystem.Files.Itrunc | fs.c:407-435 | Whatever holes the file has, the truncated file system, without a panic, with the bitmap blocks of the freed blocks and the inode logged |
| FileSystem.Files.Readi | fs.c:452-476 | The bytes of the file from the offset, cut at its end; the error cases; nothing is allocated, logged or changed |
| FileSystem.Files.ReadLoop | fs.c:469-474 | Blocks are copied out piece by piece to the bytes of the file |
| FileSystem.Files.WriteLoop | fs.c:498-504 | All bytes in place, with exactly the blocks of LoopLog logged, if and only if the free blocks suffice; else panic |
| FileSystem.Files.WriteSize | fs.c:506-509 | The disk inode equals the one in memory although iupdate runs only when the file grew |
| FileSystem.Files.WriteBody | fs.c:498-511 | The loop and the size together: a write in the sense of the byte sequences, with exactly its blocks logged |
| FileSystem.Files.Writei | fs.c:481-511 | The file reads with the bytes replaced, others unchanged, ownership exact, no holes, zeros past the ends, inodes on disk; exact error cases, and out of blocks if and only if fewer are free than needed; all changes logged, as a call whose log covers all that changes on disk, and within a transaction for a chunk |
| FileSystem.Files.Transaction | file.c:140-145 | One operation of filewrite is one call that logs at most MAXOPBLOCKS blocks, and takes the blocks it needs; out of blocks if and only if fewer are free |
| FileSystem.Files.Filewrite | file.c:117-156 | The written prefix is in place, exactly as many bytes as Fits says; n or -1 as the source returns; every transaction small; panics if and only if the free blocks are too few for those bytes |
| FileChunks.ProgressNext | file.c:134-152 | Chunk after chunk adds up to one write: contents, other files and blocks taken |
| FileChunks.ProgressPanics | file.c:134-152 | Running out in any chunk means that the free blocks were too few for all the bytes that fit |
| FileChunks.FitsStops | file.c:134-152 | A chunk past the largest file ends the loop after the whole chunks that fit |
| FileChunks.ReadBack | fs.c:452-511 | What was written is read back, and the bytes around it are unchanged |
| FileSystem.ByteHere | fs.c:464-470 | Below the size bmap finds the block and logs nothing |
| Scheduler.PTable.Highest | proc.c:355-384 | The runnable process with the smallest key of its policy; DispatchPicks says which that is |
| Scheduler.PTable.Dispatch | proc.c:345-408 | Dispatches the smallest key for the policy of the first runnable process, or finds none runnable |
| Scheduler.DispatchPicks | proc.c:345-396 | Whatever policies are mixed: the process dispatched comes before every other runnable one by (deadline, pid) or by (priority, pid), as the policy of the first one met says; without a policy it is that first one |
| Scheduler.PTable.SchedPolicy | proc.c:613-793 | Both admission tests with the source's integer division, the totals they add, the rejected process, and the division by zero |
| Scheduler.PTable.Rate | proc.c:839-864 | Sets rate and priority of the first process with that pid, and fails if there is none |
| Scheduler.RateLevel | proc.c:851-856 | The priority is 3 (30 - rate) / 29 rounded up and at least 1, which gives levels 1 from rate 21, 2 from 11, 3 from 1 on |
| Scheduler.HigherRateFirst | proc.c:375-383 | The higher of two rates goes first if and only if it is in another level or has the smaller pid |
| Scheduler.PTable.TimerTick | trap.c:100-115 | One tick of the running process: exit at the end of its budget, else yield |
| Scheduler.RoundRunsFirst | proc.c:345-408 | Each dispatch of a closed set of one policy runs the first unfinished process of its order for one tick |
| Scheduler.EdfRun | proc.c:345-408 | Every run is that schedule: processes complete in order after exactly their execution time each |
| Scheduler.EdfRunExists | proc.c:345-408 | That run exists |
| Scheduler.RmRun | proc.c:371-384 | Every run of a closed rate-monotonic set runs the processes by (priority, pid), each for exactly the ticks it has left, and then it exits |
| Scheduler.RmRunExists | proc.c:371-384 | That run exists |
| Scheduler.RoundRobin | proc.c:345-408 | Without a policy, every run gives the runnable processes their turns in table order, again and again |
| Scheduler.EdfAcceptance | proc.c:626-638 | A process is admitted if and only if the total of utilisations, rounded as the source rounds, stays within the bound, and the total kept is that |
| Scheduler.EdfLateness | proc.c:626-638 | For admitted processes the k-th completion, at tick C, has 100 * C < (99 + k) * deadline |
| Scheduler.EdfDeadlines | proc.c:345-408 | In every run of admitted processes that reaches the k-th completion, the first k are complete and the ticks run, times 100, are less than (99 + k) * deadline |
| Scheduler.RmAcceptance | proc.c:639-783 | A process is admitted if and only if the accepted set with it is within its table entry, and the total kept is theirs |
| RateMonotonic.MeansInequality | proc.c:639-783 | The product of positive numbers is at most the power of their mean, for any number of them |
| RateMonotonic.AcceptedProduct | proc.c:639-783 | Any set accepted in pid order from pid 3 on has product of (1 + utilisation) at most 2 |
| RateBound.BoundExact | proc.c:639-783 | For every number of processes l and every total in whole percent: it is within the table entry if and only if l equal shares of it satisfy (1 + share)^l <= 2, so nothing that the condition allows is refused |
| RateBound.EvenGrows | proc.c:644-772 | With more processes a given total never becomes easier to admit, as the table says |
| UserHeap.Heap.constructor | umalloc.c:21-22 | An empty heap is valid |
| UserHeap.Heap.Predecessor | umalloc.c:30-32 | free's search ends at the one place in address order, also across the wrap |
| UserHeap.Heap.Free | umalloc.c:24-44 | The block is back in the list, merged with the neighbours it touches; ring, order, disjointness and units are kept, freep is the node below it, and no unit of another allocated block has changed |
| UserHeap.Heap.MoreCore | umalloc.c:46-61 | The new region is in the list, or nothing changed when sbrk fails |
| UserHeap.FirstFit | umalloc.c:74-88 | The first block that is large enough on the way round, if and only if there is one |
| UserHeap.CutOut | umalloc.c:75-82 | The exact block unlinked, or the tail of a larger one given out |
| UserHeap.Heap.TakeFirstFit | umalloc.c:74-85 | n units of the first block that fits on the way round from freep leave the list, freep is the node before it, and nothing the program has stored changes; or none fits and nothing changed |
| UserHeap.Heap.GrowAndTake | umalloc.c:86-88 | After morecore the search succeeds, so morecore runs at most once |
| UserHeap.Heap.Malloc | umalloc.c:63-90 | Fails if and only if nothing fits and sbrk fails; calls sbrk if and only if nothing fits; takes the first fit from freep on; units are conserved and nothing the program has stored changes |
| HeapInvariant.FreeKeeps | umalloc.c:24-44 | Freeing keeps one address-ordered ring, no two neighbours touching, blocks disjoint, and free plus allocated units equal to those obtained |
| HeapInvariant.CutKeeps | umalloc.c:75-82 | So does cutting a block |
| HeapInvariant.GrowKeeps | umalloc.c:46-61 | So does a new region above all others |
| HeapInvariant.CutKept | umalloc.c:75-82 | Cutting a block changes no unit of an allocated one |
| HeapInvariant.RelinkKept | umalloc.c:33-42 | Nor does relinking a freed one |
| UserHeap.UnitsForEnough | umalloc.c:69 | The units asked for hold a header and nbytes, with less than one unit to spare |
| Umalloc.StopsAtPlace | umalloc.c:30-32 | The stop test of free's search holds at the place in address order and at no other node |
| Umalloc.RelinkRing | umalloc.c:33-42 | The four relinking cases all give the ring of the merged list |
| Umalloc.InsertedOk | umalloc.c:33-42 | Inserting and merging keeps address order with no two neighbours touching |
| Umalloc.InsertedUnits | umalloc.c:33-42 | It conserves units |
| Umalloc.CutRing | umalloc.c:75-82 | Unlinking or shrinking a block gives the ring of the shrunk list |
| Vm.TakenKeeps | kalloc.c:82-95 | kalloc keeps entries and owners in agreement, both ways |
| Vm.GivenKeeps | kalloc.c:59-77 | So does kfree of a frame nobody uses |
| Vm.FreeThenAlloc | kalloc.c:59-95 | A frame just freed is the next one allocated, without its old contents; nothing else changes |
| Vm.WithTableKeeps | vm.c:45-53 | So does a new page table |
| Vm.MappedKeeps | vm.c:69-73 | So does a new page on a frame of its own |
| Vm.UnmappedKeeps | vm.c:269-276 | So does unmapping a page and freeing its frame |
| Vm.DisownedKeeps | vm.c:284-298 | So does taking an empty address space out of use |
| AddressSpace.UnmapRangeClears | vm.c:255-279 | Unmapping page by page clears the range, frees its frames, and changes nothing else |
| AddressSpace.AddedThenCleared | vm.c:234-239 | Adding pages and clearing the range restores every page; only empty page tables remain |
| AddressSpace.FilledThenCleared | vm.c:241-246 | The same when a frame was in hand and is freed last |
| AddressSpace.GrewNext | vm.c:233-247 | One more page as wanted, at the price of a frame and perhaps a page table |
| AddressSpace.TooShort | vm.c:234-246 | Running out part way means that the free list was too short for the whole range |
| AddressSpace.BuiltThenFreed | vm.c:284-298 | Building an address space and freeing it gives every frame its old owner back |
| AddressSpace.ReleaseOne | vm.c:291-296 | Each page table is freed once |
| KernelMap.KmapDisjoint | vm.c:105-115 | The lines of kmap do not overlap and lie above KERNBASE |
| KernelMap.KmapPages | vm.c:105-115 | The frame and the flags of every page, in numbers |
| KernelMap.KernelFlags | vm.c:105-115 | No kernel page has PTE_U, and those without PTE_W are exactly the text below data |
| KernelMap.TablesOfLine | vm.c:105-136 | How many page tables each line needs, wherever the kernel's data begins |
| KernelMap.BuiltThenSpare | vm.c:332-338 | A frame allocated and freed again leaves the child as it was |
| Paging.Machine.KAlloc | kalloc.c:79-95 | The head of the free list, or nothing if it is empty |
| Paging.Machine.KFree | kalloc.c:55-77 | The frame heads the free list and its contents are gone |
| Paging.Machine.Walk | vm.c:35-55 | The page table of a page, allocated and empty if asked for and missing; fails if and only if it may not or cannot |
| Paging.Machine.MapUser | vm.c:60-80 | One page mapped, or nothing changed when no page table could be had |
| Paging.Machine.MapKernel | vm.c:60-80 | One line of kmap mapped to consecutive frames; succeeds if and only if the free list covers the page tables |
| Paging.Machine.SetupKvm | vm.c:117-136 | A directory that maps memory below PHYSTOP one to one from KERNBASE on and the devices at the top onto themselves, kernel text read-only, nothing open to user code, and no other page; succeeds if and only if 65 frames are free, and otherwise every frame is back |
| Paging.Machine.AllocUvm | vm.c:219-249 | New pages from the old to the new size, of zeros, for user code to read and write at both levels, if and only if there are frames for them and their page tables; else every page of every address space as before |
| Paging.Machine.Undo | vm.c:234-246 | The rollback restores all pages |
| Paging.Machine.DeallocUvm | vm.c:251-279 | The jump over missing page tables gives the same memory as unmapping page by page |
| Paging.Jump | vm.c:266-268 | Under a missing page table there is no page |
| Paging.Machine.FreeVm | vm.c:281-298 | Exactly the frames of the address space go back, each once; every other address space is unchanged |
| Paging.Machine.CopyUvm | vm.c:313-345 | A child with the same bytes and flags below sz in frames that were free, the parent and all others unchanged; succeeds if and only if there are frames enough, and otherwise every frame has its old owner |
| Paging.CopiedAll | vm.c:325-340 | The finished loop is a copy with kmap's mappings above it |
| Paging.NothingBelow | vm.c:105-115 | The kernel's mappings leave the user half of a child empty above the copy |
| Paging.FramesApart | vm.c:60-80 | No two pages of any address spaces share a frame |
| SleepLock.StepKeeps | sleeplock.c:22-42 | Every step of any process keeps who holds which lock, who owns the sleep lock, and who may be asleep |
| SleepLock.MutualExclusion | sleeplock.c:22-42 | In every run at most one process is between acquiresleep and releasesleep, and locked and pid say which |
| SleepLock.NoLostWakeup | proc.c:473-530 | With the inner lock free, a process asleep on the lock means that it is held by some process that will release it |
| SleepLock.NoDeadlock | sleeplock.c:22-42 | In every reachable state where some process uses the lock, one that does can take a step, at once or after the rest of the kernel has released ptable.lock, which it then can |
| SleepLockRuns.StepInOrder | sleeplock.c:22-42 | Each step keeps the order outside, in acquiresleep, inside, in releasesleep, outside |
| SleepLockRuns.OnlyThroughInside | sleeplock.c:22-31 | In every run a process that was in acquiresleep and is not any more has had the lock |
| SleepLockRuns.NobodyShutOut | sleeplock.c:22-42 | From every reachable state each process in acquiresleep can still get the lock, and locked and pid then name it |
| SleepLockRuns.HandOver | sleeplock.c:22-42 | A process that sleeps while another one is inside ends up inside |
| Pipe.Ring.constructor | pipe.c:22-57 | An open, empty pipe |
| Pipe.Ring.Put | pipe.c:93 | Appends a byte, also where the counter wraps at 2^32 |
| Pipe.Ring.Get | pipe.c:116 | Removes the first byte |
| Pipe.Ring.WriteSegment | pipe.c:84-97 | Writes up to a full pipe, and whether it returns, fails or sleeps |
| Pipe.Ring.ReadSegment | pipe.c:105-120 | Reads up to n bytes, and whether it returns, fails or sleeps |
| Pipe.WrapFull | pipe.c:85 | The wrapped comparison is full just when PIPESIZE bytes are stored |
| PipeProtocol.StepKeeps | pipe.c:59-121 | Every step keeps stored bytes equal to returned bytes followed by the contents |
| PipeProtocol.Fifo | pipe.c:78-121 | In every run the bytes returned are a prefix of the bytes stored |
| PipeProtocol.OpenEnds | pipe.c:59-75 | In every run an end of the pipe is open until it is closed, and never again |
| PipeProtocol.NoLostWakeup | pipe.c:78-121 | Without kills, a sleeping reader means an empty pipe open for writing, a sleeping writer a full one open for reading |
| PipeProtocol.NoDeadlock | pipe.c:78-121 | So readers and writers never wait for each other |
| PipeProtocol.KilledReturns | pipe.c:84-118 | In every run a killed process is not asleep on the pipe, nor goes to sleep |
| PipeProtocol.ReadReturns | pipe.c:101-121 | In every run a read returns the next bytes as soon as there are any; with none left 0 at the end of the file, -1 for a killed caller, else it sleeps |
| PipeProtocol.WriteReturns | pipe.c:78-98 | In every run a write returns all its bytes as soon as the rest fits; else it fills the pipe, and fails without readers or for a killed caller, or sleeps |
| PipeProtocol.SleepersKept | pipe.c:84-118 | A step keeps that if and only if it strands no sleeper |
| PipeProtocol.StrandedReader | pipe.c:85-92 | A run with a kill in which a reader sleeps on a full pipe |
| Grep.Match | grep.c:72-82 | True if and only if the text contains a string of the pattern's language, from the start for a leading ^ |
| Grep.MatchHere | grep.c:84-96 | True if and only if the pattern matches from here |
| Grep.MatchStar | grep.c:98-106 | True if and only if some repetition of the character, then the rest, matches from here |
| Grep.DenotesCons | grep.c:84-96 | The language of a sequence of items, taken apart at the first |
| Grep.SpellParse | grep.c:84-106 | Every pattern is read as a sequence of items that is spelled like it |
| Grep.ParseSpell | grep.c:84-106 | Every sequence of items that can be written is read back: a dot as any character, a star as repetition, a final $ as the end |
| Grep.ParseWritable | grep.c:84-106 | And what is read off a pattern can be written |
| Grep.PlainSearch | grep.c:72-106 | A pattern without special characters is found just where the text contains it |
| Shell.GetToken | sh.c:265-308 | A token lies at or after the cursor, and reading one that is not the end moves the cursor |
| ShellLexer.ToksConcat | sh.c:265-308 | Cut anywhere but inside a word or a >>, a line has the tokens of its two parts |
| ShellLexer.Separates | sh.c:265-308 | Blanks and symbols separate what is around them; which characters those are |
| ShellLexer.WordToks | sh.c:295-300 | A run of other characters is one word |
| ShellLexer.AppendToks | sh.c:288-294 | Two > in a row are one token |
| ShellAccepts.ParserDecides | sh.c:327-446 | A line is accepted if and only if the grammar derives its tokens (words and redirections in any order, blocks, pipelines, any number of &, lists), with any white space between them |
| ShellGrammar.ReadsGrammar | sh.c:327-446 | Whatever derivation the tokens have, the line is accepted as the command that it stands for |
| ShellGrammar.LineOf | sh.c:344-359 | The same at any place of a longer line, followed by its end or a closing parenthesis |
| ShellGrammar.PipeOf | sh.c:361-372 | A pipeline followed by what may follow one |
| ShellGrammar.GroupOf | sh.c:399-413 | A line in parentheses with any redirections |
| ShellGrammar.ItemsOf | sh.c:415-446 | A simple command: its words in order in one exec, wrapped in its redirections in order, however they are mixed |
| ShellGrammar.RedirsOf | sh.c:374-397 | A sequence of redirections, the later outside; > and >> open the file alike |
| ShellMeaning.SimpleLater | sh.c:374-397 | The later of two redirections is outside, whatever words and redirections come before it |
| ShellMeaning.GroupLater | sh.c:374-397 | The same after parentheses |
| ShellMeaning.RedirMeans | sh.c:415-446 | A line with one more redirection at its end means that redirection of what the line without it means |
| ShellMeaning.GroupRedirMeans | sh.c:399-413 | The same for a line in parentheses |
| ShellMeaning.WordMeans | sh.c:429-445 | A line with one more word at its end means the same with one more argument, up to nine |
| ShellMeaning.ParensMean | sh.c:399-413 | A line in parentheses means what the line means |
| ShellMeaning.BarMeans | sh.c:361-372 | A pipe joins what its first command means with what all the rest means |
| ShellMeaning.AmpMeans | sh.c:344-353 | An ampersand puts the whole pipeline before it in the background |
| ShellMeaning.SemiMeans | sh.c:354-357 | A list joins what its first pipeline means with what all the rest means |
| ShellMeaning.FirstCounts | sh.c:77-85 | With runcmd's order of opening, a descriptor ends up with the file of its first redirection in the line |
| ShellAccepts.AcceptedFrom | sh.c:327-446 | The tokens of an accepted line have a derivation, which stands for the command returned |
| ShellAccepts.LineFrom | sh.c:344-359 | The same for a line read at any place, and the tokens after it |
| ShellAccepts.PipeFrom | sh.c:361-372 | For a pipeline |
| ShellAccepts.BlockFrom | sh.c:399-413 | For a block |
| ShellAccepts.ArgsFrom | sh.c:429-445 | For the words and redirections of a simple command, of which there are at most 9 words |
| ShellAccepts.RedirsFrom | sh.c:374-397 | For redirections |
| ShellAccepts.SameTokens | sh.c:265-308 | Lines with the same tokens are accepted alike and mean the same |
| ShellRoundTrip.SpellReads | sh.c:265-308 | Tokens spelled out with blanks are read back as those tokens |
| ShellRoundTrip.Unambiguous | sh.c:327-446 | Derivations of the same tokens stand for the same command |
| ShellRoundTrip.RoundTrip | sh.c:327-446 | Parsing the canonical rendering, with parentheses, of any tree with at most 9 words for each command gives the tree |
| ShellRoundTrip.CanonOk | sh.c:327-446 | The canonical line is in the grammar and stands for the tree |
| ShellRoundTrip.Canonical | sh.c:327-446 | Every accepted line has a canonical form that parses to the same tree |
| ShellRoundTrip.LineWords | sh.c:344-446 | Every word of an accepted line is a maximal run of word characters, and no command has more than 9 |
| Shell.ParseCmd | sh.c:327-342 | An accepted line is consumed to its end |
| ShellParser.Parser.Gettoken | sh.c:265-308 | The token and cursor of GetToken |
| ShellParser.Parser.PeekFor | sh.c:310-320 | The next character, past white space, is one of those asked for |
| ShellParser.Parser.Parseredirs | sh.c:374-397 | The redirections, in order, or the panic |
| ShellParser.Parser.Parseargs | sh.c:429-445 | The words and redirections of a simple command, or the panics |
| ShellParser.Parser.Parseexec | sh.c:415-446 | A simple command or a block |
| ShellParser.Parser.Parseblock | sh.c:399-413 | A line in parentheses with redirections |
| ShellParser.Parser.Parsepipe | sh.c:361-372 | A pipeline, nested to the right |
| ShellParser.Parser.Parsebacks | sh.c:349-353 | One Back for each & |
| ShellParser.Parser.Parseline | sh.c:344-359 | A list, nested to the right |
| ShellParser.Parser.Parsecmd | sh.c:327-342 | Accepts just what ParseCmd accepts, with its tree, and stops at the end of the line |
| ShellParser.Nulterminate | sh.c:448-493 | A NUL after every word of the tree, and no word character overwritten |
| ShellParser.ReadsWord | sh.c:448-493 | After that, the C string at the start of a word is the word |

## Left out

- Boot code, interrupt controllers, UART, keyboard, display and IDE ports: hardware access.
- Assembly and context switching: a dispatch is one step.
- exec, system-call argument fetching, process creation and reaping, directories and path names.
- Printing, the user utilities, and the buffer handling around grep's matcher.
- mkfs: a well-formed initial disk is assumed; the constructor of FileSystem.Files gives an empty one.
- The setters for execution time and deadline: their values are fields of the process.
- Overflow of user-supplied deadlines, rates, execution times and allocation sizes.
- Spinlocks: a section under a spinlock is one atomic step, except in SleepLock, which has both locks.
- log_write's test before it takes the lock: guard and update are one step.
- Pointers in bio.c and umalloc.c are indices and addresses in header units; sbrk gives regions above all earlier ones.
- The wakeup after bread's wait for a locked buffer: the caller goes on with Lock and Fill.
- CacheLog: readers read home blocks only, and nobody waits for a buffer that another process has locked.
- CacheLog: the same panic met by a reader or an operation in a bread of its own; only the breads of commit and recovery are decided.
- FileLog: calls of the file system run one at a time; begins and ends of other operations, commits, crashes and recoveries fall anywhere between their log_writes.
- FileLog: the calls are writei and itrunc, and any others that log what they change on disk.
- Reference counts and recycling of the inode cache, and the locks on inodes: one in-memory inode for each number.
- Other writers between the chunks of one filewrite: the loop runs alone.
- Device reads and writes: readi and writei say only that the driver is called.
- kfree's junk fill and the free list's links inside free frames: a freed frame has no contents.
- clearpteu, loaduvm, inituvm and the copy routines of vm.c: easy members over the same tables.
- Shell execution (runcmd); the exec node that parseexec fills while redirections already wrap it is built once at the end.
- RateMonotonic.AcceptedProduct: only for processes accepted in pid order from pid 3 on, as the table index is the pid less 2.
- Scheduler.EdfRun: one CPU and a closed set of CPU-bound processes that use their whole tick; the same for RmRun and RoundRobin.
- FileSystem.Files.Writei: after the panic "out of blocks" only that the bitmap is full, since the kernel stops there.
