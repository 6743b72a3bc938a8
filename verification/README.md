# A verified model of xv6 with kernel threads

This project models the parts of the kernel and its user library whose correctness
is a matter of whole runs, and proves what those parts promise. Code that updates
things in place is a class with methods, each proved to make the step of a function
on values; what is promised of every run is proved about machines built from those
functions.

| files | what they model |
|---|---|
| `ProcessTable`, `ThreadGroups`, `PageDirectories`, `ThreadGroupRuns`, `ThreadSleepers`, `KernelTable` | processes, thread groups, wait, join, exit, clone and the barrier in exec (`proc.c`, `exec.c`) |
| `RedoLog`, `GroupCommit`, `LogOverruns`, `LogDevice` | the write-ahead log with group commit, crashes and recovery (`log.c`) |
| `BufferList`, `BufferCache`, `BufferUses` | the buffer cache (`bio.c`) |
| `FileImage`, `FileSystem`, `FileHistory` | bitmap, block map, readi, writei, itrunc and the chunks of filewrite (`fs.c`, `file.c`) |
| `Semaphores`, `SemaphoreProgress`, `SemaphoreObjects`, `TicketLock` | semaphores over park and unpark, and the ticket lock (`ucthreads.c`, `proc.c`) |
| `KRAllocator` | malloc and free (`umalloc.c`, after section 8.7 of The C Programming Language, 2nd edition) |
| `PageTables`, `TableAccounts`, `AddressSpace` | physical pages and two-level page tables (`kalloc.c`, `vm.c`) |
| `PipeRing`, `PipeRuns`, `PipeTransfers` | pipes (`pipe.c`) |
| `ShellGrammar`, `ShellSpelling`, `ShellRoundTrip`, `ShellParser`, `ShellCommand` | the shell's parser (`sh.c`) |
| `Regex` | grep's matcher (`grep.c`) |
| `Common` | sizes, words and bytes that several of these share |

## How concurrency is modelled

- A machine's steps are the critical sections of the source: one step per section under
  `ptable.lock`, `log.lock`, `bcache.lock`, a semaphore's guard or a pipe's lock. A run is any
  sequence of enabled steps of any threads, so scheduling is arbitrary. Steps are sequentially
  consistent, and exchange and fetch-and-add are atomic.
- A panic ends a run. A disk write of one block is atomic, and a crash may come between any two.
- Counters that wrap in the source wrap here: tickets, turns and the pipe's byte counts are taken
  modulo 2^32.

## What the code does not do

Where a property fails of the code as written, the failing case and the exact condition are proved.

- `LogOverruns.GuardTooTight`, `LogOverruns.AbsorbedWriteTrips`: with log.size equal to LOGSIZE, as
  `mkfs.c:25` ships it, the guard of log_write stops operations that are within their budget; and with
  a larger log rewriting a block that is already logged panics when LOGSIZE blocks are.
- `LogOverruns.GuardRace`, `LogOverruns.OverrunCorrupts`, `LogOverruns.ConsistentExactly`: the guard is
  read before the lock is taken, so the log can be overrun, and the commit then writes its last block
  over a home block. A crash before the header write leaves a disk that recovery does not put right.
  This happens exactly when 2 <= log.size <= LOGSIZE and log.size is less than the number of buffers.
- `LogOverruns.ShippedSize`, `LogOverruns.FullCommitPanics`: a log of LOGSIZE blocks escapes this because
  NBUF equals LOGSIZE (`param.h:11-12`), so that the overrun commit finds no buffer for a log block and
  panics before it writes. For the same reason a larger log cannot commit LOGSIZE blocks.
- `Semaphores.NegativeInit`: sem_init with a negative count breaks the semaphore at the first sem_up,
  and only a negative count does.
- `PipeRuns.KillLosesWakeup`, `PipeRuns.LostExactly`: a killed writer that finds the pipe full beside a
  sleeping reader leaves the reader asleep, and nothing else does.
- `ThreadGroupRuns.MemberExecBreaks`, `ThreadGroupRuns.InOrderExactly`, `ThreadGroupRuns.ExecExactly`:
  exec by a thread that is not the leader moves that thread to a new page directory and frees the one
  its leader still names; the directories stay in order in exactly the runs in which only leaders exec.
- `ThreadSleepers.JoinerOversleeps`, `ThreadSleepers.JoinAwakeExactly`: a killed cloner publishes its slot as
  a ZOMBIE without a wakeup, so a thread that has joined the slot already sleeps on, until the cloner
  exits (`ThreadSleepers.JoinSleeperWoken`); nothing else leaves a joiner asleep beside a ZOMBIE.
- In the shell ">>" opens its file as ">" does (`sh.c:387-392`); the model follows the code.

## What the model takes for granted

- Process table: fork's setup (`proc.c:222-269`) is one step and clone copies the parent in one step;
  a pid has one joiner; join and unpark of a pid that is not in the table return -1, where the source
  reads past the end of the table (`proc.c:740`, `proc.c:812`).
- Semaphores: users are not killed, a thread does not exit inside sem_up or sem_down, at most NPROC
  threads exist at a time, and park and unpark are used through the semaphore only.
- Files: the kernel-buffer mode of readi and writei, so copies succeed; a full disk ends the run, as the
  panic of balloc does.
- Allocator: one thread, intact headers, only live blocks passed to free; sbrk returns room at or
  above the break.
- Address spaces: calls do not interleave, and sizes passed to allocuvm are those of the process, so
  nothing is mapped above them.
- Log: operations get the buffers they need; buffers are counted where a commit needs one more than it has
  pinned. A commit or recovery that copies a block to itself waits for its own buffer and takes no
  further step but a crash.
- Pipes: the test for having been killed (`pipe.c:88`, `pipe.c:129`) and the sleep that follows are one step. A
  kill that lands in between leaves a killed thread asleep; it is a kill after the sleep that does not
  wake, and the runs allow that at any time.
- Buffer cache: clients mark or write what they have changed before they release it.

## Model

| member | source | states |
|---|---|---|
| `ThreadGroupRuns.Reachable` | proc.c:338-406 | no run, of any length and interleaving, reaches the panic "undead", and every state it reaches satisfies the table invariant |
| `ThreadGroupRuns.ThreadAccounting` | proc.c:264-267 | in every reachable state a leader's threadcount is the number of SLEEPING, RUNNABLE or RUNNING threads of its group |
| `ThreadGroupRuns.LiveCountIsSize` | proc.c:702-709 | the count that the steps are compared with is the size of the set of live members |
| `ThreadGroupRuns.ExitCountPositive` | proc.c:309-330 | the decrement in exit never takes the unsigned count below zero |
| `ThreadGroupRuns.WaitReapsWholeGroups` | proc.c:338-406 | in every reachable state: wait by a killed caller or one without children returns and changes nothing else; with children and none of their groups dead the caller goes to sleep on its group; otherwise exactly the slots of the first dead child group, all ZOMBIEs, come back UNUSED with all fields cleared, the directory of its leader is freed, and no other slot changes |
| `ThreadGroupRuns.WaitFreesDirectory` | proc.c:378-403 | with exec only by leaders that never fails: the reaped group's directory was allocated and is the one that goes |
| `ThreadGroupRuns.ForkMakesChild` | proc.c:222-269 | fork's child is the only thread of a new group, a child of the caller's group, on a new directory, with a pid and group id that no slot in use has; nothing else changes |
| `ThreadGroupRuns.CloneAddsThread` | proc.c:655-711 | clone adds exactly its slot to the live threads of the caller's group and parent, or a ZOMBIE if the caller was killed |
| `ThreadGroupRuns.ExitLeaves` | proc.c:309-330 | exit takes exactly the caller out of its group's live threads, gives its children to init, and leaves no thread asleep on the group or on its parent |
| `ThreadGroupRuns.QuietSteps` | proc.c:455-591 | kill leaves the first slot with the pid killed and not asleep, wakeup leaves nobody asleep on its channel, a thread that yields can be scheduled again; none changes anything else |
| `ThreadGroupRuns.CallsGoOn` | proc.c:207-770 | in every reachable state a running thread can take the next step of the call it is in, and one in user space can make any call |
| `ThreadGroupRuns.NoLostExit` | proc.c:343-376 | a thread asleep in wait has no child group whose last live thread is gone |
| `ThreadGroupRuns.ProcessPointers` | proc.c:659-660 | a live thread's process pointer names a slot in use that leads the thread's own group; one tgid, one leader |
| `ThreadGroupRuns.JoinReapsOwnGroup` | proc.c:721-770 | in the first pass of join and in every later one: the target is of the caller's group and comes back, cleared, exactly if it is a ZOMBIE, no leader and without the leader's pid; the caller sleeps exactly if the target is no ZOMBIE and it is not killed; no other slot changes; without a target nothing does |
| `ThreadGroupRuns.DirectoriesSafe` | proc.c:378-403 | with exec only by leaders: no page directory is freed twice, live threads run on an allocated directory, the allocated directories are exactly those of the groups in use, and wait will free each of them |
| `ThreadGroupRuns.InOrderExactly` | exec.c:63-68 | all this holds throughout a run if and only if every thread that left exec's waiting loop led its group |
| `ThreadGroupRuns.ExecExactly` | exec.c:63-164 | after a run with exec only by leaders, one more exec, up to its switch of directories, keeps them owned if and only if the caller leads its group |
| `ThreadGroupRuns.MemberExecBreaks` | exec.c:63-164 | a run from boot in which a cloned thread execs after its leader has exited ends with a live thread off its leader's directory |
| `ThreadGroupRuns.OneExec` | exec.c:26-40 | of the threads of one group at most one is past exec's killed check, and no other passes it meanwhile |
| `ThreadGroupRuns.BarrierPassed` | exec.c:43-61 | when exec leaves its waiting loop every other member is a ZOMBIE and none is being cloned |
| `ThreadGroupRuns.BarrierHolds` | exec.c:25-61 | in every continuation of the run the members of the group that are not ZOMBIEs are the exec'ing thread and its offspring |
| `ThreadSleepers.ExecSleeperHasCompany` | exec.c:43-61 | in every run a thread asleep in exec's waiting loop has another live thread in its group, marked as killed, and the exit of any thread of the group wakes it |
| `ThreadSleepers.JoinSleeperWoken` | proc.c:745-751 | in every run a thread asleep in join beside a target that is a ZOMBIE has another live thread in its group that is killed, and the exit of any thread of the group wakes it |
| `ThreadSleepers.JoinStepExactly` | proc.c:702-704 | of all steps exactly the publication by a killed cloner of a slot that a sleeper has joined leaves a joiner asleep beside a ZOMBIE |
| `ThreadSleepers.JoinAwakeExactly` | proc.c:702-751 | throughout a run no thread sleeps in join beside a ZOMBIE target if and only if no such publication occurs in it |
| `ThreadSleepers.JoinerOversleeps` | proc.c:702-751 | a run from boot that ends with a thread asleep in join though its target is a ZOMBIE |
| `ThreadGroups.StepKeeps` | proc.c:207-770 | every step of every thread keeps the table invariant or ends in a fault other than "undead" |
| `ThreadGroups.HarvestZombie` | proc.c:351-361 | a group that wait finds with count zero consists of ZOMBIEs only |
| `ThreadGroups.ReapGroupSlots` | proc.c:378-403 | the reaping loop in closed form: exactly the slots of the group come back |
| `ThreadGroups.ReapGroupBack` | proc.c:378-403 | a reaping loop that completes has found only ZOMBIEs in the group and has cleared exactly its slots |
| `ThreadGroups.PassChildrenClosed` | proc.c:318-325 | exit's loop in closed form: all children go to init, which is woken just when one of them is a ZOMBIE |
| `ThreadGroups.ExitWakes` | proc.c:309-330 | an exit that empties a child group wakes every thread that may be waiting for it |
| `ThreadGroups.AloneCount` | exec.c:67-68 | past the barrier the count is one already |
| `PageDirectories.DirExecCommit` | exec.c:155-164 | the directory that a leader's exec frees is allocated, and no other thread uses it |
| `PageDirectories.ReapGroupDirs` | proc.c:378-403 | wait frees the directory of the leader and no other |
| `ProcessTable.FindHarvest` | proc.c:351-361 | the first child whose group has no thread left |
| `ProcessTable.JoinTarget` | proc.c:728-743 | the slot join works on: the first with the pid, if it has the caller's tgid and leader; none exactly if there is no such slot or it is of another group |
| `KernelTable.Table.constructor` | proc.c:119-166 | the table after userinit |
| `KernelTable.Table.WakeAll` | proc.c:551-559 | the scan of wakeup1 makes the step that the runs use |
| `KernelTable.Table.KillPid` | proc.c:573-591 | the scan of kill makes that step, and reports whether it found the pid |
| `KernelTable.Table.AllocProc` | proc.c:77-90 | the first UNUSED slot becomes an EMBRYO with the next pid; none exactly when no slot is UNUSED |
| `KernelTable.Table.PublishClone` | proc.c:702-711 | the locked end of clone: ZOMBIE if the caller was killed, else RUNNABLE and counted |
| `KernelTable.Table.ExitThread` | proc.c:309-330 | the locked end of exit makes that step |
| `KernelTable.Table.Reap` | proc.c:378-403 | the reaping loop makes that step |
| `KernelTable.Table.WaitScan` | proc.c:347-361 | the scan finds whether there are children, and the first whose group has no thread left |
| `KernelTable.Table.WaitPass` | proc.c:343-406 | one pass of wait makes the step that the runs use; it fails exactly without a child or when killed, sleeps exactly while every child group has threads, and otherwise returns the group id whose slots it has given back |
| `KernelTable.Table.JoinFind` | proc.c:728-743 | the search finds the target |
| `KernelTable.Table.JoinPass` | proc.c:745-770 | one pass of join makes that step, and what it returns |
| `KernelTable.Table.ExecMark` | exec.c:26-40 | the marking loop makes that step; passed exactly when the caller was not killed |
| `KernelTable.Table.ExecPass` | exec.c:43-61 | one pass of the waiting loop; alone exactly when no other member is left |
| `KernelTable.Table.ExecTakeOver` | exec.c:63-68 | the takeover makes that step |
| `RedoLog.HeadRoundTrip` | log.c:85-113 | reading a header back gives what write_head was given |
| `RedoLog.CommitCut` | log.c:177-202 | commit cut after any number of its block writes and recovered: nothing of the transaction before the header write, all of it after |
| `RedoLog.RecoverCut` | log.c:69-122 | recovery cut after any number of its writes and run again gives the same homes |
| `RedoLog.RecoverWorks` | log.c:115-122 | a recovery that completes puts the logged blocks home, leaves all other homes alone and leaves a header that names no block |
| `RedoLog.CrashAtomicity` | log.c:69-202 | a crash anywhere in commit, then any number of crashed recoveries, then one that completes: all or nothing, decided by the first header write alone |
| `GroupCommit.CrashConsistency` | log.c:125-233 | for a log of any size, in every state of every run with crashes in which commit writes in the log area only, recovery would give the homes after the durable prefix of the log_writes |
| `GroupCommit.ClobberExactly` | log.c:177-190 | the first write of a commit behind the log area leaves a disk that recovery puts right if and only if it writes what was there |
| `GroupCommit.WholeOperations` | log.c:125-202 | in every state of every run, for a log of any size, the durable prefix consists of whole, ended operations |
| `GroupCommit.HistoryIsRun` | log.c:213-233 | the history that these theorems speak of lists the log_writes of the run, in order and with what each wrote, less those that crashes undid |
| `GroupCommit.AppendRecords` | log.c:222-232 | a log_write logs its block once and pins the new contents, absorbed or not, and touches no other block |
| `GroupCommit.OperationsGoOn` | log.c:125-174 | in every run an operation can append once past the guard and end otherwise, a new one is admitted exactly if no commit is on and its budget fits, which it does when none is running |
| `GroupCommit.DurableStep` | log.c:192-202 | for a log of any size, only the header write of a commit makes anything durable, all of it at once, and no step takes anything back |
| `GroupCommit.Durability` | log.c:145-202 | for a log of any size, what is durable in one state of a run is durable in every later one; after the last operation out has committed that is everything |
| `GroupCommit.GroupCommitSafe` | log.c:125-174 | for a log of any size, no operation runs during a commit, so "log.committing" is unreachable; logged blocks are distinct homes, LOGSIZE at most; a commit or recovery under way has a next write unless it waits for itself |
| `GroupCommit.ReadersSeeAll` | log.c:205-233 | while commit writes in the log area only, between commits a reader sees all log_writes |
| `GroupCommit.CommitNeedsBuffer` | log.c:177-190 | a commit panics at its first write exactly when its blocks pin all buffers |
| `GroupCommit.BudgetSuffices` | log.c:213-233 | with log.size > LOGSIZE an in-budget log_write trips the guard exactly when the log is full, and then the block was logged already |
| `LogOverruns.GuardTooTight` | log.c:218-219 | an in-budget append of a new block can panic exactly when log.size <= LOGSIZE, as mkfs ships it |
| `LogOverruns.GuardRace` | log.c:218-230 | since the guard is read before the lock, more blocks than the log area holds can be logged exactly when 2 <= log.size <= LOGSIZE |
| `LogOverruns.OverrunCorrupts` | log.c:177-230 | with 2 <= log.size <= LOGSIZE and more buffers than that, a run from a formatted disk in which two operations within budget overrun the log and commit writes over a home, so that recovery does not give the durable prefix |
| `LogOverruns.ConsistentExactly` | log.c:125-233 | on every formatted disk with room behind the log, every reachable state is one that recovery puts right if and only if not 2 <= log.size <= LOGSIZE with log.size less than the number of buffers |
| `LogOverruns.ShippedSize` | param.h:11-12 | with log.size equal to LOGSIZE that is so if and only if there are at most LOGSIZE buffers, and NBUF buffers are |
| `LogOverruns.FullCommitPanics` | log.c:177-190 | with a larger log and at most LOGSIZE buffers a run leads to a commit of LOGSIZE blocks, which panics |
| `LogOverruns.AbsorbedWriteTrips` | log.c:218-230 | however large the log, rewriting a logged block panics once LOGSIZE blocks are logged |
| `LogDevice.Log.constructor` | log.c:53-66 | an empty log over a disk |
| `LogDevice.Log.BeginOp` | log.c:125-141 | admitted exactly when no commit runs and the budget of one more operation fits |
| `LogDevice.Log.LogWrite` | log.c:213-233 | absorption or append; the panics exactly as coded |
| `LogDevice.Log.WriteLog` | log.c:177-190 | the log blocks written one by one, as the disk trace records; the panic, before any write, exactly when the blocks pin all buffers |
| `LogDevice.Log.WriteHeader` | log.c:101-113 | one write of the header |
| `LogDevice.Log.InstallTrans` | log.c:69-82 | the log blocks copied home one by one |
| `LogDevice.Log.ReadHeader` | log.c:85-96 | the in-memory list becomes what the header names |
| `LogDevice.Log.RecoverFromLog` | log.c:115-122 | a whole recovery, with the disks on the way |
| `LogDevice.Log.Commit` | log.c:192-202 | a whole commit, with the disks on the way, or that panic with nothing changed |
| `LogDevice.Log.EndOp` | log.c:145-174 | the last operation out commits; the panics exactly when a commit is running or finds no buffer |
| `LogDevice.CommitTraceSafe` | log.c:192-202 | every disk on the way through commit recovers to all or nothing of the transaction |
| `LogDevice.RecoverTraceSafe` | log.c:115-122 | every disk on the way through recovery recovers to the same homes |
| `LogDevice.CommitWorks` | log.c:192-202 | a commit that completes leaves the transaction at home and the log empty |
| `BufferList.Cached` | bio.c:69-76 | the first buffer for the block in list order, or none |
| `BufferList.Victim` | bio.c:81-91 | the least recently used buffer that is neither referenced nor dirty, or none |
| `BufferList.PutOrder` | bio.c:130-138 | moving a buffer to the front keeps every buffer on the list once |
| `BufferList.Unlink` | bio.c:132-133 | taking a buffer out keeps the ring linked both ways |
| `BufferList.Link` | bio.c:134-137 | putting a buffer behind the head keeps the ring linked both ways |
| `BufferList.Cache.constructor` | bio.c:38-56 | binit builds a ring of all buffers |
| `BufferList.Cache.BGet` | bio.c:61-93 | the two list walks find the cached buffer or recycle the victim |
| `BufferList.Cache.BRelse` | bio.c:128-140 | one reference less, and to the front with the last |
| `BufferUses.PutIs` | bio.c:128-140 | after the last reference goes the buffer is the first of the list and the others keep their order; before that the list stays |
| `BufferCache.StepKeeps` | bio.c:61-141 | every step of every client keeps the cache invariant |
| `BufferCache.BreadReturnsLast` | bio.c:96-106 | after any run, whoever has returned from bread has the last contents installed in the block, alone |
| `BufferCache.OneBufferPerBlock` | bio.c:61-93 | each block of ROOTDEV has at most one buffer; reference counts are the numbers of users |
| `BufferCache.NotRecycled` | bio.c:78-91 | a referenced or dirty buffer keeps its block through every step |
| `BufferCache.DiskCatchesUp` | bio.c:109-116 | once nothing is dirty or being changed the disk is the plain array of blocks |
| `BufferCache.ClientsGoOn` | bio.c:109-141 | after any run the user that holds a buffer, and no other user of it, passes holdingsleep; so bread, bwrite, iderw and brelse do not panic for a client that follows the rules |
| `BufferUses.LockedExactly` | bio.c:71-76 | after any run a buffer is locked if and only if some use holds it, so a use waiting for one that nobody holds gets it |
| `BufferUses.ClientSteps` | bio.c:109-116 | after any run a client back from bread can change its buffer, which becomes the block's contents, mark it, which keeps it from being recycled, and bwrite it, which puts just this block on the disk and leaves the buffer clean |
| `BufferUses.GetPanicsExactly` | bio.c:61-93 | after any run bget panics exactly when no buffer is for the block and every buffer is dirty or has users |
| `BufferUses.LeastRecentlyUsed` | bio.c:78-91 | over any run the buffer that bget recycles is, of all it could recycle, the one whose last user gave it back the longest time ago |
| `Semaphores.SemaphoreLaws` | ucthreads.c:211-244 | in every run, with threads coming and going, at most NPROC at a time: queue length max(0, -count), distinct waiters, ring never full, grants in FIFO order, completed downs at most initial count plus ups |
| `Semaphores.NoLostWakeup` | proc.c:773-828 | a thread asleep in park is queued, or the guard's holder is about to unpark it |
| `Semaphores.GuardExclusive` | ucthreads.c:115-121 | one thread at a time holds the guard |
| `SemaphoreProgress.GuardExactly` | ucthreads.c:115-128 | in every state of every run the guard is set if and only if some thread holds it, and then one thread does |
| `SemaphoreProgress.ThreadsGoOn` | ucthreads.c:115-244 | in every run a thread in a call and not asleep can take a step nearer the end of the call, or spins for a guard whose holder can take a step nearer its release |
| `SemaphoreProgress.SettledExactly` | ucthreads.c:211-244 | over every run the counts are those of the steps taken; once no call on a semaphore is under way the returned sem_downs are the minimum of all sem_downs and initial count plus sem_ups, and exactly the queued threads are asleep |
| `Semaphores.GrantedRuns` | proc.c:773-798 | a thread granted before it parks finds its token and leaves sem_down |
| `Semaphores.UnparkFinds` | proc.c:804-828 | unpark always finds its thread: it has not left and still waits for this semaphore |
| `Semaphores.NegativeInit` | ucthreads.c:211-244 | no run takes from an empty ring if and only if sem_init was given a count of at least zero |
| `Semaphores.RingFits` | ucthreads.c:137-161 | at most NPROC < QMAX threads are ever queued |
| `Semaphores.StepKeeps` | ucthreads.c:218-244 | every step of every thread keeps the invariant over all semaphores |
| `SemaphoreObjects.Queue.Enq` | ucthreads.c:137-142 | the ring gains x at its end |
| `SemaphoreObjects.Queue.Deq` | ucthreads.c:144-151 | the ring loses and returns its oldest entry |
| `SemaphoreObjects.Semaphore.DownLocked` | ucthreads.c:230-244 | sem_down under the guard makes the step that the runs use |
| `SemaphoreObjects.Semaphore.UpLocked` | ucthreads.c:218-228 | sem_up under the guard makes that step and names the oldest waiter |
| `SemaphoreObjects.Semaphore.TryGuard` | ucthreads.c:115-121 | one exchange on the guard |
| `SemaphoreObjects.Semaphore.ReleaseGuard` | ucthreads.c:124-128 | the guard is clear again |
| `TicketLock.MutualExclusion` | ucthreads.c:89-106 | at most one thread inside, and entry in the order of the fetch-and-add, across wraparound |
| `TicketLock.TicketsDistinct` | ucthreads.c:89-99 | outstanding tickets differ as 32-bit words |
| `TicketLock.NextInLineCanEnter` | ucthreads.c:89-106 | with nobody inside the oldest outstanding ticket can enter |
| `TicketLock.Lock.FetchTicket` | ucthreads.c:56-66 | one fetch-and-add |
| `TicketLock.Lock.Unlock` | ucthreads.c:102-106 | one increment of turn |
| `FileImage.NamingConserves` | fs.c:373-401 | naming a newly allocated block keeps the bitmap equal to metadata plus the disjoint blocks of the inodes |
| `FileImage.DirectKeeps` | fs.c:379-389 | a new direct block or table keeps the accounting and shows in no file |
| `FileImage.EntryKeeps` | fs.c:390-397 | a new block in the table keeps the accounting and shows in no file |
| `FileSystem.Fs.BAlloc` | fs.c:56-78 | the first free block, marked and zeroed; fails only when all are used |
| `FileSystem.Fs.BFree` | fs.c:81-95 | clears the bit; the panic exactly when it was clear |
| `FileSystem.Fs.BMap` | fs.c:373-401 | the block of position bn, allocated if need be, without any file showing it; which blocks it logs |
| `FileSystem.Fs.WriteI` | fs.c:489-526 | returns -1 exactly for a bad range and changes nothing then; else the file holds the overwritten bytes, no other file changes |
| `FileSystem.Fs.WriteLoop` | fs.c:504-519 | the loop: bytes done so far, and the log account of data, bitmap, table blocks |
| `FileSystem.Fs.ReadI` | fs.c:453-484 | exactly the slice of the flat byte array, and nothing changes |
| `FileSystem.Fs.ITrunc` | fs.c:408-436 | exactly the inode's own blocks become free, no call of bfree finds its block free, other files stay |
| `FileSystem.Fs.Transaction` | file.c:133-145 | whatever the offset and the alignment, one transaction logs at most MAXOPBLOCKS blocks |
| `FileSystem.Fs.FileWrite` | file.c:126-154 | the split write equals one write of the bytes done, each transaction within budget; stops early only at MAXFILE, beyond the end, or with no block left |
| `FileSystem.ChunkFits` | file.c:127-133 | the bound of a transaction for every offset |
| `FileSystem.TruncConserves` | fs.c:408-436 | after itrunc the bitmap accounts for what is left and no other file has changed |
| `FileHistory.Perform` | fs.c:408-526 | any sequence of writei, itrunc and readi calls over any inodes: unless the disk fills up, every file is the flat byte array and every call returns the answer that the same operations on flat byte arrays give, refusals included |
| `FileHistory.Call` | fs.c:408-526 | one such call |
| `FileHistory.FreshGood` | fs.c:408-436 | the empty file system satisfies the accounting |
| `KRAllocator.Allocator.FindPlace` | umalloc.c:30-32 | the search of free ends, at the last node below the block |
| `KRAllocator.Allocator.Free` | umalloc.c:24-44 | the list stays circular, sorted and coalesced, live and free blocks disjoint and together all of sbrk's units; only bp leaves the live blocks |
| `KRAllocator.Allocator.MoreCore` | umalloc.c:46-61 | one call of sbrk for nunits or 4096 units, whichever is more: all of them on the list if it is granted, nothing changed otherwise |
| `KRAllocator.Allocator.Take` | umalloc.c:75-84 | exact fit or tail split: the block taken was free and is now live, all invariants kept |
| `KRAllocator.Allocator.Malloc` | umalloc.c:63-90 | a new live block large enough for nbytes and disjoint from all others; with a large enough block on the list sbrk is not called, without one it is called once and the result is 0 exactly if it refuses |
| `KRAllocator.Units` | umalloc.c:69 | units for the header and nbytes, with less than one unit to spare |
| `AddressSpace.Vm.constructor` | kalloc.c:46-53 | freerange puts every page on the list once |
| `AddressSpace.Vm.KAlloc` | kalloc.c:82-95 | the head of the list, or 0 exactly when the list is empty |
| `AddressSpace.Vm.KFree` | kalloc.c:59-77 | the page goes to the head; no address space notices |
| `AddressSpace.Vm.WalkPgdir` | vm.c:36-56 | the table for the page, added only with alloc; 0 exactly when absent and not added; no mapping changes |
| `AddressSpace.Vm.MapPages` | vm.c:61-81 | the pages map to consecutive physical pages, user pages passing to the directory; else exactly the first k do, and the next is mapped already ("remap") or there is no page for its table |
| `AddressSpace.Vm.SetupKvm` | vm.c:119-137 | a directory with exactly the kernel's mappings, or the free pages as before; the latter exactly when fewer pages are free than a root and the 64 tables of kmap |
| `AddressSpace.Vm.DeallocUvm` | vm.c:256-280 | the skipping loop frees the pages of a page-by-page loop in the same order, and only those mappings go |
| `AddressSpace.Vm.FreeVm` | vm.c:284-299 | exactly the pages that the directory owned become free, others keep all mappings and contents |
| `AddressSpace.Vm.AllocUvm` | vm.c:222-250 | fresh zeroed pages from oldsz to newsz, or every earlier mapping as before; fails only for want of memory |
| `AddressSpace.Vm.CopyUvm` | vm.c:316-346 | equal contents and permissions on fresh pages plus the kernel's mappings, or the free pages as before; the latter exactly when fewer pages are free than those of setupkvm, the user pages and their tables; the source is untouched |
| `AddressSpace.PagesConserved` | kalloc.c:59-95 | the pages are the free ones, those of directories and the others, none lost or twice |
| `AddressSpace.SpaceTaken` | vm.c:119-137 | the free pages that went since a directory was made are its root, its tables and its user pages |
| `TableAccounts.DirSize` | vm.c:36-81 | a directory owns one page for itself, one for each table and one for each user page |
| `AddressSpace.KernelFree` | vm.c:111-116 | the rows of kmap do not overlap, so "remap" is not raised |
| `PageTables.NoSharing` | vm.c:61-81 | a physical page is mapped by one directory at one user page |
| `PageTables.LeafKeeps` | vm.c:70-74 | setting an entry keeps the ownership of all pages, and no other mapping notices |
| `PageTables.DropDir` | vm.c:284-299 | giving up a directory gives up exactly its own pages |
| `PipeRing.PutPublishes` | pipe.c:95-113 | a round of pipewrite appends its bytes to the stream, or leaves the stream alone when a user copy fails, across wraparound |
| `PipeRing.FrontIsNext` | pipe.c:135-150 | piperead copies out the next bytes of the stream |
| `PipeRing.Occupancy` | pipe.c:87-95 | the wrapped counters measure the bytes in the ring; full and empty are told apart |
| `PipeRing.Buffer.WriteRound` | pipe.c:95-113 | the two-piece copy into the array makes that round |
| `PipeRing.Buffer.ReadRound` | pipe.c:135-150 | the two-piece copy out of the array; nothing consumed when a copy fails |
| `PipeRuns.PipeStream` | pipe.c:80-154 | in every run, with kills and failing copies: bytes read are a prefix of bytes published, at most PIPESIZE lie between, the next read gets the next of them |
| `PipeTransfers.WritesInOrder` | pipe.c:80-119 | in every run: the pieces that a write under way has put into the stream are, one after the other, the first i bytes of what it was called with, so a write that comes to its end has put in all of them |
| `PipeTransfers.WriterMoves` | pipe.c:86-118 | a turn of pipewrite: it returns when done, with no reader left asleep; at a full pipe it gives up exactly if the read end is closed or it was killed, and else sleeps; otherwise it puts in the next bytes, as many as there is room for, unless a copy fails |
| `PipeTransfers.LockGoesOn` | pipe.c:80-154 | in every run the pipe's lock is free for any thread awake in a call, or its holder can take its turn |
| `PipeTransfers.ReaderMoves` | pipe.c:121-154 | a turn of piperead: at an empty pipe with writers it gives up exactly if killed, and else sleeps; otherwise it returns the next bytes, the minimum of those there and those asked for, with no writer left asleep, unless a copy fails |
| `PipeTransfers.TurnIsWriteRound` | pipe.c:95-113 | the turns of the runs put in what the array's round puts in |
| `PipeTransfers.TurnIsReadRound` | pipe.c:135-150 | the turns of the runs take out what the array's round takes out |
| `PipeRuns.WritersWoken` | pipe.c:80-154 | in every run, kills included, a writer sleeps only while the pipe is full and its read end open |
| `PipeRuns.StepReaders` | pipe.c:86-94 | of all steps, kills included, exactly the turn of a killed writer with bytes left, a full pipe, an open read end and a sleeping reader leaves a reader asleep that should be awake |
| `PipeRuns.LostExactly` | pipe.c:86-94 | a run ever has a reader asleep beside bytes, or with no write end, if and only if such a turn occurs in it |
| `PipeRuns.NoLostWakeup` | pipe.c:80-154 | without such a turn no reader sleeps while there are bytes or no writers |
| `PipeRuns.NoKillNoLoss` | pipe.c:80-154 | in a run without kills no state has a reader asleep beside bytes or without writers |
| `PipeRuns.KillLosesWakeup` | pipe.c:86-94 | a run from the empty pipe in which a killed writer leaves a reader asleep beside a full pipe |
| `PipeRuns.StepInv` | pipe.c:59-154 | every step keeps the stream |
| `ShellGrammar.SkipWhiteIs` | sh.c:272-273 | exactly the white space is skipped: all that is skipped is white and what follows is not |
| `ShellGrammar.WordEndIs` | sh.c:295-300 | a word runs to the next delimiter |
| `ShellGrammar.ParsedWords` | sh.c:265-446 | every word a parsed command keeps is a whole token, fewer than MAXARGS to a command |
| `ShellRoundTrip.LexSound` | sh.c:265-308 | the tokens that gettoken finds are what the text consists of, with white space around them |
| `ShellRoundTrip.LexComplete` | sh.c:265-308 | a text that consists of given words and symbols, with any white space around them, is divided into just these |
| `ShellRoundTrip.SimpleSound` | sh.c:415-446 | what parseexec accepts is words and redirections in any order, fewer than MAXARGS words |
| `ShellRoundTrip.SimpleComplete` | sh.c:415-446 | and any such is parsed to its words inside its redirections, the first innermost |
| `ShellRoundTrip.PipeSound` | sh.c:361-372 | what parsepipe accepts is a pipeline of the grammar, and its command is the one spelled |
| `ShellRoundTrip.PipeComplete` | sh.c:361-372 | every spelling of a pipeline is parsed to it; pipes group to the right |
| `ShellRoundTrip.LineSound` | sh.c:344-359 | what parseline accepts is a line of the grammar, and its command is the one spelled |
| `ShellRoundTrip.LineComplete` | sh.c:344-359 | every spelling of a line is parsed to it, up to its end: '&' binds to the pipeline before it, ';' groups to the right |
| `ShellRoundTrip.ParsesExactly` | sh.c:327-342 | parsecmd finds a command in a text if and only if the text spells that command in the grammar, whatever the white space |
| `ShellRoundTrip.AcceptsSpellings` | sh.c:327-342 | parsecmd accepts exactly the texts that spell some command, and no text spells two |
| `ShellSpelling.LineOutSpells` | sh.c:344-446 | printing with parentheses only where a line has to be a command keeps to the grammar |
| `ShellRoundTrip.RoundTrip` | sh.c:327-342 | every command with fewer than MAXARGS delimiter-free words at a time survives printing and parsing |
| `ShellParser.NextToken` | sh.c:265-308 | gettoken finds the token that the grammar says |
| `ShellParser.Look` | sh.c:310-320 | peek moves over white space and tests the next character |
| `ShellParser.Line` | sh.c:344-359 | parseline computes the grammar's line, and ends |
| `ShellParser.Pipeline` | sh.c:361-372 | parsepipe computes the grammar's pipeline, and ends |
| `ShellParser.Redirections` | sh.c:374-397 | parseredirs computes the grammar's redirections, and ends |
| `ShellParser.Block` | sh.c:399-413 | parseblock computes the grammar's block, and ends |
| `ShellParser.Command` | sh.c:415-446 | parseexec computes the grammar's command, and ends |
| `ShellParser.Parse` | sh.c:327-342 | parsecmd up to the check for leftovers |
| `ShellParser.NulTerminate` | sh.c:449-493 | a NUL at the end of every word the command keeps |
| `ShellParser.EndedAt` | sh.c:449-493 | the buffer changes at the ends of words and nowhere else |
| `ShellParser.WordsTerminated` | sh.c:449-493 | after nulterminate each word it came to, read as a string, is exactly its token |
| `ShellCommand.TerminatedTree` | sh.c:449-493 | the command read back from the terminated buffer, every argument and file taken as the string where it begins, is the command that was parsed |
| `ShellCommand.ParseCommand` | sh.c:327-342 | parsecmd on the buffer: it returns a command exactly when the line spells one, and what the command then reads in the buffer is what the line spells; a refused line leaves the buffer alone |
| `Regex.Match` | grep.c:72-82 | 1 exactly when the pattern matches: at the beginning after '^', anywhere otherwise |
| `Regex.MatchHere` | grep.c:85-96 | 1 exactly when a prefix of the text divides into words of the pattern's items |
| `Regex.MatchStar` | grep.c:99-106 | 1 exactly when the text divides with any number of c first |
| `Regex.FirstItem` | grep.c:85-106 | a row of items matches exactly when its first takes some prefix and the others the rest |
| `Regex.PlainIsSubstring` | grep.c:72-82 | a pattern without special characters is searched for as a substring |
| `Regex.PlainAnchored` | grep.c:72-96 | between '^' and '$' such a pattern matches only itself |

## Left out

- Context switching, trap frames, segment descriptors and the TLB: scheduling is a choice of the run.
- Hardware, interrupts and boot code: no property beyond the device.
- ELF loading and the argument stack in exec (`exec.c:77-142`): only the barrier and the directory swap matter to the other threads.
- Parent pointers after a leader has exited while siblings still fork, and the reference counts of cwd: no lock keeps them consistent.
- Directory entries, path names, inode allocation and reference counts (`fs.c:195-361`, `fs.c:532-691`): they use the block layer that is modelled.
- FileSystem.Fs.WriteI: the inode's copy on disk is a log entry only, because iupdate writes what the in-memory inode holds; the bitmap is a sequence of bits rather than the bytes of its blocks.
- FileSystem.Fs.FileWrite: user copies that fail half way (`fs.c:510`) are not modelled.
- AddressSpace.Vm.DeallocUvm: clears an entry before it frees the page, where the source frees first; nobody can look in between.
- AddressSpace.Vm.CopyUvm: the contents of the kernel half and of device memory are not modelled.
- ShellParser.Command: a command and the redirections around it are put together at the end, where the source fills the command it has already wrapped.
- KRAllocator.Allocator.Malloc: sizes that overflow the unit arithmetic are not modelled; bytes inside a block are not modelled.
- growproc, copyout, loaduvm, clearpteu and inituvm: growproc passes a size to allocuvm or deallocuvm, inituvm maps one page with mappages, and the other three write or mark pages that walkpgdir has found; all of these are modelled.
- runcmd, grep's buffering loop and the small user programs: input and output around what is modelled.
- Memory ordering below sequential consistency.
