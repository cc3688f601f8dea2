# Models and proofs for xv6 with a multi-level feedback queue

This project models the parts of xv6 (x86, with a three-level feedback queue instead of round
robin) that carry invariants over whole runs, and proves those invariants in Dafny:

* **The write-ahead log** (`WriteAheadLog`, `LogCrash`, `LogProtocol`, `LogSteps`). The code of `log.c`
  is proved to issue exact lists of disk writes. Every prefix of those lists, followed by any number
  of interrupted recoveries, recovers to all or nothing. A transition system of concurrent
  operations, group commits, crashes and recoveries shows only whole operations, and all of those
  whose commit is over; each call of the code is a run of its steps. `begin_op` admits an operation
  exactly when no commit is under way and those then outstanding cannot overflow the log.
* **Processes and the scheduler** (`ProcTable`, `PtableLists`, `ProcRuns`, `Timer`, `Fairness`,
  `PrioRuns`, `KinRuns`, `SleepRuns`, `KillRuns`). The linked queues in arrays refine sequences of sequences. Every critical section of
  `proc.c` is a step of a transition system whose reachable states keep the queues, the parent/child
  relation, pids and quanta right. A runnable process is never starved. Over every run, the level of
  a process counts the quanta it used up since the last boost; a process is the child of the one that
  forked it, and `wait` returns exactly the pids of exited children; a sleeper wakes exactly when its
  channel is woken or it is killed. Whom `kill` marks is settled by the history of the slot.
* **Files** (`FsBlocks`, `FsState`, `FsFile`, `FsRuns`). Inodes, indirect blocks and the free map refine
  byte sequences; no block has two owners; a chunk of `filewrite` stays within the log's budget; and
  interleaved writes and truncations of different files do not disturb each other.
* **Files on top of the log** (`FsLog`). Both layers in one transition system: pieces of calls become
  log_writes, operations commit in groups, crashes strike anywhere. The disk always recovers to a
  file system that satisfies the invariant and in which every file shows whole calls only.
* **The buffer cache** (`BufCache`), invisible to its clients over any run, with exact LRU victims and reference
  counts that count the references, so that no buffer in use is recycled.
* **malloc and free** (`KrMalloc`): blocks tile the memory obtained from `sbrk`, the free list stays
  circular, ordered and coalesced, and no block in use is ever written.
* **Address spaces** (`VmState`, `Vm`): who owns which physical page, through `copyuvm`, its failures,
  and `freevm`, and how many pages each call needs to succeed.
* **Pipes** (`Pipe`) and **the regular expressions of grep** (`Regex`).
* **The shell's parser** (`Shell`, `ShellGrammar`, `ShellRoundTrip`) accepts exactly the lines of a
  grammar, builds the one tree they derive, and reads back whatever is printed from a tree.

Code that updates state in place is a class or a method with loops, proved against functions on
values; the lemmas about runs are stated on those functions. `Common` holds a few definitions that
several models share. `dafny verify dfyconfig.toml` checks everything.

## Where the code does not do what one would expect

* `log_write` compares with `log.size - 1`, and mkfs makes the log exactly LOGSIZE blocks, one of
  which is the header. So operations with some of their MAXOPBLOCKS left are safe from the panic
  "too big a transaction" if and only if `log.size > LOGSIZE` (`LogProtocol.PanicFree`), which mkfs does
  not give.
* An operation that has spent its budget may still rewrite a block that is logged already, but
  absorption does not help once the log is full: the rewrite panics too. Three operations within
  their budgets can bring that about whatever the size of the log (`LogProtocol.FullLogPanics`). Any
  write by an outstanding operation panics exactly when the list has reached the smaller of LOGSIZE
  and `log.size - 1`; with `log.size > LOGSIZE` every outstanding operation has then spent all of its
  budget (`LogProtocol.PanicsWhenFull`).
* `malloc` rounds up in 32 bits: the block has room for the request if and only if
  `nbytes + 7 < 2^32` (`KrMalloc.RoomIffNoWrap`), and `morecore` asks `sbrk` for as many bytes as it
  then counts if and only if these are below 2^31 (`KrMalloc.CoreIffPositive`).
* `kill` looks at unused slots too, and `allocproc` does not clear `killed`. So `kill(0)`, or a kill with
  the pid of a child whose fork failed, marks an unused slot, and the next process to get the slot is
  killed from the start. This happens exactly for those pids (`KillRuns.KillFinds`, `KillRuns.KillZero`),
  and a child is born killed exactly when a kill found its slot empty (`KillRuns.BornKilled`).
* `allocproc` and `priority_boost` do not reset `ticks_running`; the bound on quanta holds across
  reuse of a slot all the same (`ProcRuns.MustYieldWithinQuantum`).
* In a pattern, the test for `*` comes before the test for a final `$`, so `$*` is a starred dollar
  sign (`Regex.Items`).
* The shell gives `>` and `>>` the same mode, so both parse to the same tree.

## Model

| member | source | states |
|---|---|---|
| `WriteAheadLog.Absorb` | xv6-modularized/kernel/log.c:223-230 | the old list, followed by the block iff it was not in it |
| `WriteAheadLog.FillHead` | xv6-modularized/kernel/log.c:104-110 | the loop builds the header block of a list: the count, the block numbers, the rest of the buffer as it was |
| `WriteAheadLog.Log.constructor` | xv6-modularized/kernel/log.c:53-66 | initlog leaves an empty log and the disk with exactly the recovery writes applied |
| `WriteAheadLog.Log.Bwrite` | xv6-modularized/kernel/memide.c:38-60 | one block reaches the disk and its buffer is no longer dirty; nothing else changes |
| `WriteAheadLog.Log.WriteLog` | xv6-modularized/kernel/log.c:177-190 | the loop issues exactly the writes that copy each logged block, as cached, into the log area, in order |
| `WriteAheadLog.Log.WriteHead` | xv6-modularized/kernel/log.c:101-113 | exactly one write, of the header block with the current list |
| `WriteAheadLog.Log.InstallTrans` | xv6-modularized/kernel/log.c:69-82 | the loop issues exactly the writes that copy each log block home, in order, and cleans those buffers |
| `WriteAheadLog.Log.ReadHead` | xv6-modularized/kernel/log.c:85-96 | the in-memory list becomes the list recorded on disk |
| `WriteAheadLog.Log.RecoverFromLog` | xv6-modularized/kernel/log.c:115-122 | issues exactly the recovery writes and leaves the log empty |
| `WriteAheadLog.Log.Commit` | xv6-modularized/kernel/log.c:192-202 | issues exactly the commit writes: log blocks, header, home blocks, cleared header; nothing stays dirty |
| `WriteAheadLog.Log.BeginOp` | xv6-modularized/kernel/log.c:125-141 | admits an operation iff no commit runs and the log could still take MAXOPBLOCKS for it and every outstanding one |
| `WriteAheadLog.Log.LogWrite` | xv6-modularized/kernel/log.c:213-233 | panics iff the log is full or no operation is outstanding; otherwise the block is in the list once and pinned dirty with its data |
| `WriteAheadLog.Log.EndOp` | xv6-modularized/kernel/log.c:145-174 | the last operation out runs the whole commit; the others leave log and disk alone |
| `WriteAheadLog.Log.EndFirst` | xv6-modularized/kernel/log.c:150-163 | the first critical section of end_op: one operation fewer, and the last one out marks the log as committing; panics iff it was already |
| `WriteAheadLog.Log.EndLast` | xv6-modularized/kernel/log.c:169-172 | the last critical section: the log is no longer committing |
| `LogCrash.HeadRoundTrip` | xv6-modularized/kernel/log.c:84-113 | reading a header back gives the list that was written |
| `LogCrash.InstallPrefix` | xv6-modularized/kernel/log.c:69-82 | after k home writes exactly the first k blocks are installed and the log area is intact |
| `LogCrash.RecoverPrefix` | xv6-modularized/kernel/log.c:115-122 | a recovery cut after any write leaves a disk that recovers to the same home blocks |
| `LogCrash.RecoverFinishes` | xv6-modularized/kernel/log.c:115-122 | a finished recovery leaves exactly the recovered home blocks and an empty header |
| `LogCrash.CommitSplits` | xv6-modularized/kernel/log.c:192-202 | the header write is the commit point: what commit does after it is exactly what recovery would do |
| `LogCrash.CommitPrefix` | xv6-modularized/kernel/log.c:177-202 | a commit cut before its header write recovers to nothing of it, one cut after to all of it |
| `LogCrash.CommitFinishes` | xv6-modularized/kernel/log.c:192-202 | a finished commit leaves every home block as cached and the header empty |
| `LogCrash.CrashesAreInvisible` | xv6-modularized/kernel/log.c:115-122 | any number of recoveries, each cut anywhere, leaves the recovered contents the same |
| `LogCrash.CrashAtomicity` | xv6-modularized/kernel/log.c:69-202 | a commit cut anywhere, then any number of cut recoveries, then a finished one: all home blocks as before or all as after, never a mix |
| `LogProtocol.StepInv` | xv6-modularized/kernel/log.c:126-233 | every step of operations, commit, crash and recovery keeps the invariant; committed groups and history only grow |
| `LogProtocol.RunInv` | xv6-modularized/kernel/log.c:126-233 | the invariant holds after every run |
| `LogProtocol.WholeOperations` | xv6-modularized/kernel/log.c:126-233 | after every interleaving with crashes, recovery shows exactly the committed groups in order; an operation is visible as a whole or not at all, and only after its end_op |
| `LogProtocol.Durability` | xv6-modularized/kernel/log.c:192-202 | once the commit of a group is over, recovery shows every update of the group, after any further operations, commits, crashes and recoveries |
| `LogProtocol.AtRest` | xv6-modularized/kernel/log.c:214-233 | while running, readers see the committed and current updates, logged block numbers are distinct, and the dirty buffers are exactly the logged blocks |
| `LogProtocol.NeverStuck` | xv6-modularized/kernel/log.c:177-202 | a commit or recovery under way can always take its next write or finish |
| `LogProtocol.Reservation` | xv6-modularized/kernel/log.c:126-141 | over every run in which operations keep to MAXOPBLOCKS, the logged blocks and all unused reservations together stay within LOGSIZE |
| `LogProtocol.FillFromBoot` | xv6-modularized/kernel/log.c:214-230 | operations within their budgets can bring the log to any fill the guard allows |
| `LogProtocol.PanicFree` | xv6-modularized/kernel/log.c:218-219 | operations with budget left never meet the panic, in any run within the budgets, iff log.size > LOGSIZE |
| `LogProtocol.PanicsWhenFull` | xv6-modularized/kernel/log.c:218-219 | in every run within the budgets, a log_write by an outstanding operation, adding or rewriting, panics iff the list has reached min(LOGSIZE, log.size - 1); with log.size > LOGSIZE only when every outstanding operation has used MAXOPBLOCKS |
| `LogProtocol.FullLogPanics` | xv6-modularized/kernel/log.c:218-230 | for every log size from 2 on, a run within the budgets reaches three outstanding operations and a list at that capacity, where rewriting a logged block, which the budgets allow, panics |
| `LogSteps.CommitRuns` | xv6-modularized/kernel/log.c:192-202 | the commit steps can be taken to the end from any point of a commit; they make exactly its writes and leave the log empty |
| `LogSteps.RecoveryRuns` | xv6-modularized/kernel/log.c:115-122 | the same for recovery |
| `LogSteps.Admission` | xv6-modularized/kernel/log.c:125-141 | an operation can begin iff the log is running and no choice of at most MAXOPBLOCKS further blocks for each operation then outstanding takes the list past LOGSIZE |
| `LogSteps.BeginOp` | xv6-modularized/kernel/log.c:125-141 | one pass of begin_op, also at any point of a commit: it is refused while a group commits, and otherwise iff the operations then outstanding could overflow the log; admitted, it is the Begin step |
| `LogSteps.LogWrite` | xv6-modularized/kernel/log.c:213-233 | log_write succeeds iff the write step is enabled, and has its effect on list, buffers and disk |
| `LogSteps.WriteOutside` | xv6-modularized/kernel/log.c:217-220 | log_write outside any operation panics and changes nothing |
| `LogSteps.EndFirst` | xv6-modularized/kernel/log.c:150-163 | the first part of end_op is the End step; it leads into a commit iff it was the last operation |
| `LogSteps.CommitOne` | xv6-modularized/kernel/log.c:177-202 | every write of a commit is a CommitWrite step, during which begin_op stays refused |
| `LogSteps.EndOp` | xv6-modularized/kernel/log.c:145-174 | end_op is the End step, and for the last operation the whole run of commit steps after it |
| `LogSteps.Reboot` | xv6-modularized/kernel/log.c:53-66 | a boot after a crash in any reachable state is the Crash step and the whole run of recovery steps |
| `ProcTable.EnqueueQueued` | xv6-modularized/kernel/proc.c:35-50 | enqueue keeps: runnable iff in a queue, in the queue of its priority, once |
| `ProcTable.DispatchQueued` | xv6-modularized/kernel/proc.c:398-411 | so does taking the head of the first non-empty queue |
| `ProcTable.FlattenFacts` | xv6-modularized/kernel/proc.c:441-462 | the queues together list every runnable process once |
| `ProcTable.BoostQueued` | xv6-modularized/kernel/proc.c:428-471 | priority_boost keeps the queues right, all in the first one |
| `ProcTable.WakeEffect` | xv6-modularized/kernel/proc.c:579-587 | wakeup1 makes exactly the sleepers on the channel runnable and only appends to queues |
| `ProcTable.ReparentEffect` | xv6-modularized/kernel/proc.c:316-323 | the loop of exit gives every child of the process to init and wakes init iff one is a zombie |
| `PtableLists.ListAppend` | xv6-modularized/kernel/proc.c:35-43 | the stores of enqueue append to a list with correct first, last and null end |
| `PtableLists.ListRemove` | xv6-modularized/kernel/proc.c:61-78 | the stores of dequeue remove the element, at the front, in the middle or at the end |
| `PtableLists.ListConcat` | xv6-modularized/kernel/proc.c:454-461 | hanging one list behind another concatenates them |
| `PtableLists.SpliceNext` | xv6-modularized/kernel/proc.c:454-459 | one round of the splice appends the next queue to those gathered so far |
| `PtableLists.Ptable.constructor` | xv6-modularized/kernel/proc.c:180-214 | the table starts with one runnable process, init |
| `PtableLists.Ptable.Enqueue` | xv6-modularized/kernel/proc.c:35-50 | refines appending the process to the queue of its priority |
| `PtableLists.Ptable.Predecessor` | xv6-modularized/kernel/proc.c:69-72 | the search finds the element that points to p, and terminates |
| `PtableLists.Ptable.Dequeue` | xv6-modularized/kernel/proc.c:61-78 | refines removing the process from the queue of its priority |
| `PtableLists.Ptable.BusyQueue` | xv6-modularized/kernel/proc.c:398-402 | finds the first non-empty queue and its head |
| `PtableLists.Ptable.Schedule` | xv6-modularized/kernel/proc.c:398-420 | picks the head of the highest non-empty queue, or nobody iff all are empty |
| `PtableLists.Ptable.PriorityBoost` | xv6-modularized/kernel/proc.c:428-471 | refines concatenating all queues in order of priority into the first |
| `PtableLists.Ptable.BusyHead` | xv6-modularized/kernel/proc.c:445-447 | finds the first non-empty queue; if there is none, the first queue is already right |
| `PtableLists.Ptable.Splice` | xv6-modularized/kernel/proc.c:448-462 | links all queues into one list in order |
| `PtableLists.Ptable.AllocProc` | xv6-modularized/kernel/proc.c:131-146 | takes the first unused slot, or fails iff there is none |
| `PtableLists.Ptable.AbandonChild` | xv6-modularized/kernel/proc.c:253-258 | a fork out of memory gives the slot back |
| `PtableLists.Ptable.PublishChild` | xv6-modularized/kernel/proc.c:260-282 | the child gets its parent and joins the queue of its priority |
| `PtableLists.Ptable.YieldCpu` | xv6-modularized/kernel/proc.c:501-513 | demotes by one level at most to the last, resets the ticks and appends to that queue |
| `PtableLists.Ptable.TimerTrap` | xv6-modularized/kernel/trap.c:107-112 | charges one tick and yields iff the quantum of the priority is used up |
| `PtableLists.Ptable.SleepOn` | xv6-modularized/kernel/proc.c:539-573 | the process sleeps on the channel, off every queue |
| `PtableLists.Ptable.Wakeup1` | xv6-modularized/kernel/proc.c:579-587 | the loop refines waking every sleeper on the channel, in slot order |
| `PtableLists.Ptable.KillPid` | xv6-modularized/kernel/proc.c:602-619 | marks the first slot with the pid and wakes it if it sleeps; fails iff there is none |
| `PtableLists.Ptable.ExitProc` | xv6-modularized/kernel/proc.c:295-328 | wakes the parent, hands the children to init, becomes a zombie; init panics instead |
| `PtableLists.Ptable.WaitPass` | xv6-modularized/kernel/proc.c:342-373 | reaps the first zombie child iff there is one; otherwise fails iff there is no child or the caller is killed, and sleeps if not |
| `ProcRuns.QueueStep` | xv6-modularized/kernel/proc.c:35-78 | after every step a process is runnable iff it is in its queue once, and only a dispatch takes anything off the first queue |
| `ProcRuns.ExitEffect` | xv6-modularized/kernel/proc.c:311-328 | exit changes exactly: its own state, its children's parent, and the state of the woken |
| `ProcRuns.ExitWakes` | xv6-modularized/kernel/proc.c:311-328 | after exit nobody sleeps in wait with a zombie child |
| `ProcRuns.StepInv` | xv6-modularized/kernel/proc.c:131-619 | every critical section keeps the invariant on queues, families, waiters, pids and quanta |
| `ProcRuns.ReachableStates` | xv6-modularized/kernel/proc.c:289-374 | in every reachable state nobody sleeps in wait with a zombie child, every process past EMBRYO but init has a live parent, no pid is reaped twice, the queues are right, and ticks stay below the longest quantum |
| `ProcRuns.TicksCount` | xv6-modularized/kernel/trap.c:107-112 | without a yield the ticks of a slot count its charges, whatever else happens |
| `ProcRuns.MustYieldWithinQuantum` | xv6-modularized/kernel/trap.c:107-112 | a slot charged 2^(NPRIO-1) ticks has yielded, in spite of sleeping, boosts and reuse |
| `KillRuns.SlotStep` | xv6-modularized/kernel/proc.c:131-619 | only kill sets the killed flag of a slot and only wait clears it; only fork and wait change its pid and whether it is in use |
| `KillRuns.BornKilled` | xv6-modularized/kernel/proc.c:131-146 | in every run, fork hands out a child that is killed already iff a kill found the slot unused, or inside a fork that then failed, since it was last reaped |
| `KillRuns.KillFinds` | xv6-modularized/kernel/proc.c:602-619 | in every reachable state, a kill that finds a slot finds an unused one iff the pid is 0 or that of a child whose fork failed |
| `KillRuns.KillZero` | xv6-modularized/kernel/proc.c:602-619 | kill(0) right after boot marks the slot of the first child to come |
| `PrioRuns.TickQuantum` | xv6-modularized/kernel/trap.c:106-112 | a tick takes the CPU away iff it completes the quantum of the level, which is 1, 2 or 4 ticks; the count of ticks then starts again, and otherwise goes up by one |
| `PrioRuns.LevelStep` | xv6-modularized/kernel/proc.c:131-619 | every step leaves the level of a slot alone, except that a boost or a new process sets it to 0 and a used-up quantum moves it down by one, to the last at most |
| `PrioRuns.Demotion` | xv6-modularized/kernel/proc.c:501-513 | over every run without a boost or a new process in the slot, the level is the smaller of the last and where it started plus the number of quanta used up |
| `PrioRuns.BoostLevels` | xv6-modularized/kernel/proc.c:428-471 | a boost puts every process at level 0 and leaves one queue: the first, then the second, then the third |
| `PrioRuns.BestFirst` | xv6-modularized/kernel/proc.c:385-424 | the process dispatched is runnable, has the best level of all that are, and is the first of its queue; no other slot changes |
| `KinRuns.LifeStep` | xv6-modularized/kernel/proc.c:131-619 | what every step does to the life and the parent of a slot: only fork starts it, only exit makes a zombie of it, only wait ends that; only fork, the exit of the parent and wait change the parent |
| `KinRuns.ParentSet` | xv6-modularized/kernel/proc.c:260-325 | the end of a fork by p makes p the parent, and the exit of p makes init the parent of all its children |
| `KinRuns.ParentStays` | xv6-modularized/kernel/proc.c:241-373 | over every run a process keeps its parent until the parent exits or the process is reaped |
| `KinRuns.Kinship` | xv6-modularized/kernel/proc.c:241-373 | in every reachable state, each process but init is the child of the one that forked it, or of init if that has exited; the zombies are those that have exited |
| `KinRuns.WaitPass` | xv6-modularized/kernel/proc.c:342-373 | one pass of wait, stated on slots: the exact table and result when it reaps, fails and sleeps |
| `KinRuns.WaitReturns` | xv6-modularized/kernel/proc.c:342-363 | in every reachable state, what wait by p returns is the pid of a process that has exited and that p forked, or, for init, whose forker has exited |
| `KinRuns.WaitFinds` | xv6-modularized/kernel/proc.c:342-373 | in every reachable state, wait by p returns a pid iff some such pid has not been returned yet |
| `KinRuns.ExitWakesParent` | xv6-modularized/kernel/proc.c:311-328 | the exit of a child leaves a zombie and makes a parent asleep in wait runnable |
| `KinRuns.NextWaitReturns` | xv6-modularized/kernel/proc.c:335-373 | whatever happens in between, the next pass of wait by the parent returns the pid of an exited child |
| `SleepRuns.SleepLaw` | xv6-modularized/kernel/proc.c:539-563 | sleep puts the caller to sleep on its channel and changes nothing else |
| `SleepRuns.WakeLaw` | xv6-modularized/kernel/proc.c:579-597 | wakeup, and the tick for the ticks channel, make exactly the sleepers on the channel runnable |
| `SleepRuns.WakeOrder` | xv6-modularized/kernel/proc.c:579-587 | those that a wakeup adds to a queue are in the order of their slots |
| `SleepRuns.KillLaw` | xv6-modularized/kernel/proc.c:602-619 | kill marks the first slot with the pid, makes it runnable iff it sleeps, and changes no other slot |
| `SleepRuns.SleepsOn` | xv6-modularized/kernel/proc.c:539-619 | over every run a sleeper stays asleep on its channel until the channel is woken or it is killed |
| `SleepRuns.WokenAfter` | xv6-modularized/kernel/proc.c:579-619 | and the step that does either makes it runnable |
| `Timer.Clock.Tick` | xv6-modularized/kernel/trap.c:51-57 | one timer interrupt is the clock step of the transition system, followed by its boost step iff BOOSTTIMER divides the new time, in 32 bits |
| `Fairness.PlaceStep` | xv6-modularized/kernel/proc.c:398-411 | a process in the first queue is picked, or moves up on a dispatch, or keeps its place |
| `Fairness.ServedInOrder` | xv6-modularized/kernel/proc.c:398-420 | position k is served by the (k+1)-th dispatch |
| `Fairness.BoostGathers` | xv6-modularized/kernel/proc.c:428-471 | after a boost the first queue holds every runnable process, as many as there are |
| `Fairness.BoundedWaiting` | xv6-modularized/kernel/proc.c:428-471 | a process runnable at a boost is dispatched within as many dispatches as there were runnable processes, at most NPROC, whatever intervenes |
| `Fairness.BoostsAreFrequent` | xv6-modularized/kernel/trap.c:51-57 | at most BOOSTTIMER ticks pass without a boost, also across the wrap-around of ticks |
| `Fairness.StaysRunnable` | xv6-modularized/kernel/proc.c:398-411 | only a dispatch ends being runnable |
| `Fairness.NoStarvation` | xv6-modularized/kernel/trap.c:51-57 | from every reachable state a runnable process gets the CPU before BOOSTTIMER + 1 ticks and then NPROC dispatches are over |
| `FsBlocks.BitOps` | xv6-modularized/kernel/fs.c:66-68 | setting or clearing a bit of a byte changes that bit only |
| `FsBlocks.BitWeight` | xv6-modularized/kernel/fs.c:66-68 | bit k has the weight 2^k: setting a clear bit adds that much, clearing a set one takes it away |
| `FsBlocks.WordPut` | xv6-modularized/kernel/fs.c:390-394 | storing an entry of an indirect block changes that entry only |
| `FsState.OneBit` | xv6-modularized/kernel/fs.c:57-95 | marking or freeing a block changes its bit of the map and nothing else |
| `FsState.MapBit` | xv6-modularized/kernel/fs.c:57-68 | marking block b adds 2^(b mod 8) to byte (b mod 4096) / 8 of block b / 4096 of the map |
| `FsState.AllocBlock` | xv6-modularized/kernel/fs.c:57-78 | a block found free is nobody's data block; marking and zeroing it changes no file |
| `FsState.AttachDirect` | xv6-modularized/kernel/fs.c:378-388 | storing a new block in an inode keeps every block singly owned; a new indirect block has only zero entries |
| `FsState.AttachEntry` | xv6-modularized/kernel/fs.c:389-396 | the same for an entry of the indirect block |
| `FsState.OverwriteData` | xv6-modularized/kernel/fs.c:498-504 | overwriting a data block keeps ownership, the map and all references |
| `FsState.DinodePut` | xv6-modularized/kernel/fs.c:226-233 | writing an inode into its block and reading the inodes of the block back gives that inode, and the others as before |
| `FsState.DinodeBytes` | xv6-modularized/libs/fs.h:29-36 | where size and addrs of an inode are in its block, byte by byte, 64 bytes to an inode, the least significant byte first |
| `FsState.EncodesPut` | xv6-modularized/kernel/fs.c:226-233 | iupdate changes one inode on disk |
| `FsFile.FileOnDisk` | xv6-modularized/kernel/fs.c:373-400 | byte x of a file is byte x mod 512 of the block that addrs names for the first 12 blocks, and that the indirect block names for the others |
| `FsFile.WriteStep` | xv6-modularized/kernel/fs.c:498-504 | writing a piece of a block replaces exactly those bytes of the file |
| `FsFile.ChunkBudget` | xv6-modularized/kernel/file.c:133-152 | what a chunk of at most 1536 bytes logs is at most MAXOPBLOCKS blocks |
| `FsFile.Truncated` | xv6-modularized/kernel/fs.c:408-435 | freeing the blocks of an inode and clearing it keeps the invariant and every other file |
| `FsFile.InodeBlockKeeps` | xv6-modularized/kernel/fs.c:226-234 | storing an inode on disk changes no file and no bit of the map |
| `FsFile.FileSystem.Balloc` | xv6-modularized/kernel/fs.c:57-78 | returns the first free block, marked and zeroed, and logs it and its map block; fails only if none is free |
| `FsFile.FileSystem.ScanMap` | xv6-modularized/kernel/fs.c:65-74 | the inner loop finds the first clear bit of a map block |
| `FsFile.FileSystem.Bfree` | xv6-modularized/kernel/fs.c:82-95 | clears exactly the bit of the block; panics iff it was clear |
| `FsFile.FileSystem.Bmap` | xv6-modularized/kernel/fs.c:373-400 | returns the block of the file, allocating data and indirect blocks as needed, owned by nobody else; no file changes; every block written is logged |
| `FsFile.FileSystem.Readi` | xv6-modularized/kernel/fs.c:453-476 | returns exactly the slice of the contents clamped to the size, or -1 past the end or on wrap-around; changes nothing |
| `FsFile.FileSystem.WritePiece` | xv6-modularized/kernel/fs.c:498-504 | one round replaces exactly its bytes, across direct and indirect blocks, writes map and data blocks only, and logs every block it changes |
| `FsFile.FileSystem.StoreBytes` | xv6-modularized/kernel/fs.c:500-503 | memmove and log_write replace exactly the bytes of the piece, in a logged block |
| `FsFile.FileSystem.WriteLoop` | xv6-modularized/kernel/fs.c:498-504 | the loop replaces exactly the bytes written, counts its map and data blocks, and leaves other files alone |
| `FsFile.FileSystem.FinishWritei` | xv6-modularized/kernel/fs.c:506-510 | the end of writei raises the size to the end of the write iff it lies beyond, updates the inode on disk then and only then, and leaves the bytes and other files alone |
| `FsFile.FileSystem.Iupdate` | xv6-modularized/kernel/fs.c:221-236 | the inode block, which is logged, then holds the in-core inode and the others as before; no file changes |
| `FsFile.FileSystem.Writei` | xv6-modularized/kernel/fs.c:482-511 | replaces exactly bytes off to off + n, extends the size if needed, keeps every other file, leaves the inode on disk equal to the one in core, logs every block it changes, and at most MAXOPBLOCKS for up to 1536 bytes |
| `FsFile.FileSystem.FreeDirect` | xv6-modularized/kernel/fs.c:414-419 | the first loop frees exactly the direct blocks of the inode |
| `FsFile.FileSystem.FreeEntries` | xv6-modularized/kernel/fs.c:421-428 | the second loop frees exactly the blocks in the indirect block |
| `FsFile.FileSystem.Itrunc` | xv6-modularized/kernel/fs.c:408-435 | the file is empty, exactly the blocks it owned are free, every other file is as before, the inode on disk agrees, and every block changed is logged |
| `FsFile.FileSystem.Filewrite` | xv6-modularized/kernel/file.c:118-156 | writes chunk by chunk: the file is overwritten by what was written, short only at the maximal size, and each transaction logs at most MAXOPBLOCKS blocks |
| `FsRuns.FreshInv` | xv6-modularized/mkfs/mkfs.c:248-253 | a zeroed disk with the metadata blocks marked in the map and only empty inodes satisfies the invariant, and its inode blocks hold those inodes |
| `FsRuns.Take` | xv6-modularized/kernel/fs.c:498-510 | a piece of a write, the end of a write or a truncation changes its own file as the step on values does and no other; it fails only on a full disk |
| `FsRuns.Run` | xv6-modularized/kernel/fs.c:408-511 | over every interleaving of such steps on any files, each file ends with the size and bytes that its own steps alone give it |
| `FsLog.WordsDetermine` | xv6-modularized/kernel/log.c:177-190 | the words that the log copies determine the bytes of a block |
| `FsLog.PutsQuiet` | xv6-modularized/kernel/log.c:213-233 | log_writes of a group change neither the groups nor what recovery would show |
| `FsLog.PutsMirror` | xv6-modularized/kernel/log.c:213-233 | the file system that processes see follows the log_writes, block by block |
| `FsLog.PiecePartial` | xv6-modularized/kernel/fs.c:498-504 | a round of one writei leaves all other calls under way, and all files at rest, as they were |
| `FsLog.ClosePartial` | xv6-modularized/kernel/fs.c:506-511 | the end of writei leaves the file at rest with the bytes overwritten, and inode and disk in agreement |
| `FsLog.TruncPartial` | xv6-modularized/kernel/fs.c:408-435 | so does itrunc, with the file empty |
| `FsLog.StepGood` | xv6-modularized/kernel/log.c:53-233 | every step of calls, operations, commits, crashes and recoveries keeps the invariant of the two layers |
| `FsLog.WholeCalls` | xv6-modularized/kernel/log.c:53-233 | after every run with crashes anywhere, the disk recovers to a file system that satisfies the invariant, with inodes and disk in agreement, in which each file is the replay of the whole calls of the kept groups; committed groups are kept, and kept calls are those of operations that ended |
| `FsLog.CallsLast` | xv6-modularized/kernel/log.c:192-202 | once the commit of a group is over, its calls are kept in every later state |
| `FsLog.FreshWhole` | xv6-modularized/mkfs/mkfs.c:248-253 | a freshly made disk, with an empty log header, is one that such runs can start from |
| `FsLog.PieceOf` | xv6-modularized/kernel/fs.c:498-504 | the round of writei makes the step of the combined system, and log_writes of logged blocks bring its disk about |
| `FsLog.CloseOf` | xv6-modularized/kernel/fs.c:506-511 | so does the end of writei |
| `FsLog.TruncOf` | xv6-modularized/kernel/fs.c:408-435 | so does itrunc |
| `BufCache.RingPush` | xv6-modularized/kernel/bio.c:134-137 | the stores put a buffer at the front of the doubly linked list |
| `BufCache.RingRemove` | xv6-modularized/kernel/bio.c:132-133 | the stores take a buffer out of it |
| `BufCache.RecycleKeeps` | xv6-modularized/kernel/bio.c:81-90 | recycling a clean unreferenced buffer changes the contents of no block |
| `BufCache.StoreMeans` | xv6-modularized/kernel/bio.c:110-116 | a store through a locked buffer changes that block to the data and no other |
| `BufCache.StepTransparent` | xv6-modularized/kernel/bio.c:62-141 | every step changes what a block holds only if it stores to that block |
| `BufCache.Transparent` | xv6-modularized/kernel/bio.c:62-141 | after any run every block, and every valid buffer holding it, shows what was stored last, on disk or only pinned |
| `BufCache.Accounts` | xv6-modularized/kernel/bio.c:62-141 | after any run refcnt is its start plus the references taken minus those given up, the sleep lock likewise, and a buffer is dirty from a log_write to a bwrite |
| `BufCache.HeldNotRecycled` | xv6-modularized/kernel/bio.c:79-91 | a buffer with references taken and not given up, or pinned, cannot be recycled at that point of any run |
| `BufCache.HeldKeepsBlock` | xv6-modularized/kernel/bio.c:62-141 | as long as references are left, the buffer stays with its block |
| `BufCache.FrontAged` | xv6-modularized/kernel/bio.c:121-139 | moving a released buffer to the front keeps the list in order of last release |
| `BufCache.Bcache.constructor` | xv6-modularized/kernel/bio.c:39-56 | all buffers are on the list and every block shows the disk |
| `BufCache.Bcache.Lookup` | xv6-modularized/kernel/bio.c:69-76 | finds the buffer of the block iff there is one |
| `BufCache.Bcache.Victim` | xv6-modularized/kernel/bio.c:81-91 | finds the clean unreferenced buffer released longest ago iff there is one |
| `BufCache.Bcache.Bget` | xv6-modularized/kernel/bio.c:62-93 | returns the cached buffer or recycles the oldest idle one; panics iff there is neither; no block changes and no block gets two buffers; a reference or recycling step of the run system |
| `BufCache.Bcache.Acquire` | xv6-modularized/kernel/bio.c:72-74 | locking changes no block |
| `BufCache.Bcache.Load` | xv6-modularized/kernel/bio.c:97-106 | the buffer returned by bread holds the current contents of the block |
| `BufCache.Bcache.LogWrite` | xv6-modularized/kernel/log.c:213-233 | the block holds the new data and its buffer is pinned; one store step of the run system |
| `BufCache.Bcache.Bwrite` | xv6-modularized/kernel/bio.c:110-116 | the block holds the new data, on disk, and its buffer is clean; one store step of the run system |
| `BufCache.Bcache.Release` | xv6-modularized/kernel/bio.c:126 | releasing the sleep lock changes no block and keeps the reference; the unlock step of the run system |
| `BufCache.Bcache.Unref` | xv6-modularized/kernel/bio.c:128-140 | the last reference moves the buffer to the front and stamps it; no block changes; the drop step of the run system |
| `BufCache.Bcache.Brelse` | xv6-modularized/kernel/bio.c:121-141 | brelse is the unlock step followed by the drop step; no block changes |
| `BufCache.Bcache.Unlink` | xv6-modularized/kernel/bio.c:132-133 | takes exactly that buffer out of the list |
| `BufCache.Bcache.PushFront` | xv6-modularized/kernel/bio.c:134-137 | puts it at the front |
| `KrMalloc.RoomIffNoWrap` | xv6-modularized/libs/umalloc.c:69 | the units computed for a request have room for it iff the rounding does not wrap |
| `KrMalloc.NeededLeast` | xv6-modularized/libs/umalloc.c:69 | n units have room for the request and a header iff n is at least the number computed |
| `KrMalloc.CoreIffPositive` | xv6-modularized/libs/umalloc.c:52-54 | sbrk is asked for as many bytes as are then counted iff these are below 2^31 |
| `KrMalloc.MergeTiles` | xv6-modularized/libs/umalloc.c:33-35 | absorbing a block that touches keeps the blocks disjoint and covering the same memory |
| `KrMalloc.SplitTiles` | xv6-modularized/libs/umalloc.c:78-82 | so does splitting off a tail, which is a new block |
| `KrMalloc.GrowTiles` | xv6-modularized/libs/umalloc.c:54-59 | memory from sbrk enters as one new block and nothing else |
| `KrMalloc.UnitsCount` | xv6-modularized/libs/umalloc.c:11-17 | disjoint blocks have as many units together as the memory they cover |
| `KrMalloc.UnitsConserved` | xv6-modularized/libs/umalloc.c:24-90 | free and allocated units sum to what was obtained from sbrk |
| `KrMalloc.InsertCircle` | xv6-modularized/libs/umalloc.c:36-42 | linking a block in at its place keeps the list circular and in address order |
| `KrMalloc.RemoveCircle` | xv6-modularized/libs/umalloc.c:76-77 | so does unlinking one |
| `KrMalloc.TouchesNext` | xv6-modularized/libs/umalloc.c:33-41 | only list neighbours can touch |
| `KrMalloc.AbsorbAbove` | xv6-modularized/libs/umalloc.c:33-37 | after merging upward nothing free touches the end of the block |
| `KrMalloc.ReleasedGood` | xv6-modularized/libs/umalloc.c:24-44 | free keeps the tiling and the circle, leaves no two adjacent free blocks and gives back exactly that block |
| `KrMalloc.ReleasedWrites` | xv6-modularized/libs/umalloc.c:33-43 | free writes only the headers of the block and of its predecessor |
| `KrMalloc.CarvedGood` | xv6-modularized/libs/umalloc.c:75-83 | taking a block or its tail keeps all of that and hands out one new block of exactly the units asked for |
| `KrMalloc.FreeWordsRelease` | xv6-modularized/libs/umalloc.c:33-42 | the stores of free amount to linking the block in and then absorbing its neighbours |
| `KrMalloc.Allocator.constructor` | xv6-modularized/libs/umalloc.c:21-22 | nothing is obtained, free or allocated |
| `KrMalloc.Allocator.Locate` | xv6-modularized/libs/umalloc.c:30-32 | the search ends at the place of the block, from wherever freep stands |
| `KrMalloc.Allocator.LinkIn` | xv6-modularized/libs/umalloc.c:33-43 | makes exactly those stores |
| `KrMalloc.Allocator.FreeBlock` | xv6-modularized/libs/umalloc.c:29-44 | the block leaves the program's hands and ends up inside one free block; the next search begins after the closest free block below it; no word of any other block in use is written |
| `KrMalloc.TakesTail` | xv6-modularized/libs/umalloc.c:74-84 | the block taken is the end of a free block with room for it; the rest of that block stays in the list, which is otherwise the same |
| `KrMalloc.Allocator.Free` | xv6-modularized/libs/umalloc.c:24-44 | the same, given what malloc returned |
| `KrMalloc.Allocator.Morecore` | xv6-modularized/libs/umalloc.c:46-61 | adds exactly the units obtained, at least 4096, after which a block has room; or changes nothing when sbrk fails |
| `KrMalloc.Allocator.Search` | xv6-modularized/libs/umalloc.c:74-89 | the loop ends at the first fit, having called morecore at most once; it fails only if no block has room and sbrk fails |
| `KrMalloc.Allocator.Take` | xv6-modularized/libs/umalloc.c:75-84 | an exact fit is unlinked, a larger block gives its tail, and freep is the predecessor |
| `KrMalloc.Allocator.Give` | xv6-modularized/libs/umalloc.c:75-84 | the first fit gives a block that was not in use, of exactly the units asked for; no word of a block in use is written |
| `KrMalloc.Allocator.Malloc` | xv6-modularized/libs/umalloc.c:63-90 | a new block of exactly the computed units, the tail of the first fit; memory grows only by what sbrk gave; no word of a block in use is written; null iff no free block fits and sbrk fails; Wild iff none fits, sbrk does not fail and its argument was not positive |
| `VmState.AllocKeeps` | xv6-modularized/kernel/kalloc.c:83-95 | popping the free list keeps every page with exactly one owner |
| `VmState.FreeKeeps` | xv6-modularized/kernel/kalloc.c:60-77 | pushing a page nobody refers to does too |
| `VmState.TableKeeps` | xv6-modularized/kernel/vm.c:45-52 | so does making a zeroed page a table under an absent entry |
| `VmState.UserKeeps` | xv6-modularized/kernel/vm.c:69-73 | so does mapping a data page under an absent user entry |
| `VmState.KernelKeeps` | xv6-modularized/kernel/vm.c:69-73 | entries above KERNBASE do not take part in ownership |
| `VmState.UnmapKeeps` | xv6-modularized/kernel/vm.c:269-276 | clearing a user entry leaves its page referred to by nobody |
| `VmState.GivenKeeps` | xv6-modularized/kernel/vm.c:291-297 | giving up a directory and its tables leaves the rest consistent |
| `VmState.PtePut` | xv6-modularized/kernel/vm.c:54-73 | setting one entry changes exactly one translation of the address space |
| `Vm.Memory.constructor` | xv6-modularized/kernel/kalloc.c:31-53 | exactly the pages of the given range are on the free list |
| `Vm.Memory.Kalloc` | xv6-modularized/kernel/kalloc.c:82-95 | returns a page that was free, or 0 iff none is |
| `Vm.Memory.Kfree` | xv6-modularized/kernel/kalloc.c:59-77 | the page becomes free and nothing else changes hands |
| `Vm.Memory.Walk` | xv6-modularized/kernel/vm.c:35-55 | returns the table for the address, making an empty one on a free page if asked; no translation changes; each new table takes one free page; an allocating walk fails only if no page is free |
| `Vm.Memory.NewTable` | xv6-modularized/kernel/vm.c:45-53 | a new table on a free page, or none is free; no translation changes |
| `Vm.Memory.SetEntry` | xv6-modularized/kernel/vm.c:71-73 | exactly one translation changes |
| `Vm.Memory.MapPages` | xv6-modularized/kernel/vm.c:60-80 | maps exactly the range to consecutive pages, or a prefix of it: up to a page mapped already, where it panics, or to one whose table is missing while no page is free; takes one free page for each table the range lacked; other address spaces and user data are untouched |
| `Vm.Memory.Deallocuvm` | xv6-modularized/kernel/vm.c:255-279 | unmaps and frees exactly the user pages of the range, in spite of skipping 4 MB at a time |
| `Vm.Memory.Freevm` | xv6-modularized/kernel/vm.c:283-298 | exactly the user, table and directory pages of the address space become free |
| `Vm.KernelPtes` | xv6-modularized/kernel/vm.c:105-115 | page by page what the table kmap comes to: pages of KERNBASE and up map to their number minus that of KERNBASE, devices to themselves, exactly the text is read-only, none is for users |
| `Vm.Memory.Setupkvm` | xv6-modularized/kernel/vm.c:105-136 | a new address space maps the kernel as Vm.KernelPtes says, and nothing else, and takes a page for its directory and each table; it fails iff there are fewer free pages, and then every page is back where it was |
| `Vm.Memory.MapRegion` | xv6-modularized/kernel/vm.c:129-134 | one round maps the next region, or there are too few free pages for the kernel |
| `Vm.KernelNeeds` | xv6-modularized/kernel/vm.c:105-115 | the kernel's part of an address space has 64 tables, wherever its data starts |
| `Vm.KmapRegions` | xv6-modularized/kernel/vm.c:105-115 | the regions lie above KERNBASE and do not overlap, so mappages cannot panic |
| `Vm.Memory.Attach` | xv6-modularized/kernel/vm.c:332-338 | a filled page that was free is mapped at the place, or nothing is mapped, no page is lost and there was no free page for it or for its table; a panic only if the place was mapped |
| `Vm.Memory.Allocuvm` | xv6-modularized/kernel/vm.c:221-249 | zeroed pages fill exactly the range, or all translations are as before and at most empty tables were added; for a clear range below KERNBASE it succeeds iff there are free pages for the range and for the tables it lacks; nothing changes from KERNBASE on; it panics only if a page of the range was mapped |
| `Vm.Memory.GrowRound` | xv6-modularized/kernel/vm.c:233-246 | one round adds the next page, or the pages and tables still missing exceed the free pages there were |
| `Vm.Memory.CopyPage` | xv6-modularized/kernel/vm.c:326-338 | the child's page has the parent's contents and flags on a page that was free; missing iff the parent has no page there; out of core only if there is no free page for it or its table |
| `Vm.Memory.CopyRound` | xv6-modularized/kernel/vm.c:325-339 | one round copies the next page, or there were fewer free pages than the whole copy needs |
| `Vm.Memory.Copyuvm` | xv6-modularized/kernel/vm.c:315-345 | the child has equal contents and flags on pages that were free, and only the kernel's mappings besides; nothing in use changes; without a panic it fails iff there are fewer free pages than directory, 64 kernel tables, user pages and a table for every 1024 of them, and then the owner of every page is restored; it panics only if a page below the size is missing |
| `Vm.Restored` | xv6-modularized/kernel/vm.c:342-344 | tearing down what was built gives back exactly the pages that were free |
| `Pipe.Occupancy` | xv6-modularized/kernel/pipe.c:85-114 | across wrap-around the counters' difference mod 2^32 is the number of bytes held, and the two tests mean full and empty |
| `Pipe.HoldsPush` | xv6-modularized/kernel/pipe.c:93 | storing into the ring overwrites nothing undelivered |
| `Pipe.Pipe.constructor` | xv6-modularized/kernel/pipe.c:33-36 | an empty pipe open at both ends |
| `Pipe.Pipe.Write` | xv6-modularized/kernel/pipe.c:78-98 | stores exactly the bytes there is room for, in order; sleeps or fails only when full; it is a store step of the run system |
| `Pipe.Pipe.StoreOne` | xv6-modularized/kernel/pipe.c:93 | one byte goes into the ring and overwrites nothing undelivered |
| `Pipe.Pipe.Read` | xv6-modularized/kernel/pipe.c:100-121 | returns the oldest undelivered bytes, as a delivery step of the run system; returns none for n > 0 only when the write end is closed and all is delivered |
| `Pipe.Pipe.TakeOne` | xv6-modularized/kernel/pipe.c:116 | takes the oldest undelivered byte |
| `Pipe.Pipe.Close` | xv6-modularized/kernel/pipe.c:59-75 | closes one end, as a step of the run system, and frees the pipe iff both are closed |
| `Pipe.StepInv` | xv6-modularized/kernel/pipe.c:59-121 | every step by any reader or writer keeps the invariant; nothing is stored after the write end is closed |
| `Pipe.Fifo` | xv6-modularized/kernel/pipe.c:78-121 | over every interleaving, delivered bytes are a prefix of stored ones, at most 512 are undelivered, and each write appears in order without gaps |
| `Pipe.EndOfFile` | xv6-modularized/kernel/pipe.c:100-121 | once a read can return nothing, the stream never changes again |
| `Regex.MatchesOne` | xv6-modularized/user/grep.c:93-94 | a literal or dot matches one character and the rest matches the rest, in both directions |
| `Regex.MatchesStar` | xv6-modularized/user/grep.c:99-106 | admitted characters followed by a match of the rest match a star |
| `Regex.StarMatches` | xv6-modularized/user/grep.c:99-106 | every match of a star is of that form |
| `Regex.MatchHere` | xv6-modularized/user/grep.c:85-96 | true iff some prefix of the text is in the language of the pattern |
| `Regex.MatchStar` | xv6-modularized/user/grep.c:99-106 | true iff some run of admitted characters is followed by a match |
| `Regex.Match` | xv6-modularized/user/grep.c:72-82 | true iff some substring, anchored by ^ and a final $, is in the language of the pattern; for all patterns and texts |
| `Regex.PlainFound` | xv6-modularized/user/grep.c:72-96 | a pattern without special characters is found iff it occurs in the text, with ^ iff it begins it, with $ iff it ends it, with both iff it is the text |
| `Regex.SpecialFound` | xv6-modularized/user/grep.c:85-106 | a dot is any one character, a starred character any number of itself, a starred dot anything |
| `Shell.NextToken` | xv6-modularized/user/sh.c:264-307 | gettoken returns the kind and the exact extent of the next token and the position behind it; ShellGrammar.LexLaws says which tokens these are |
| `Shell.PeekAt` | xv6-modularized/user/sh.c:309-319 | peek says whether the next token starts with one of the characters and skips white space |
| `Shell.Redirs` | xv6-modularized/user/sh.c:373-396 | the loop collects the redirections, or panics iff a file is missing |
| `Shell.Simple` | xv6-modularized/user/sh.c:414-445 | the loop collects words and redirections, or panics on a symbol or a tenth word |
| `Shell.Block` | xv6-modularized/user/sh.c:398-412 | a line in parentheses with redirections behind it, or a panic |
| `Shell.PipeLine` | xv6-modularized/user/sh.c:360-371 | commands joined by bars, to the right |
| `Shell.Backs` | xv6-modularized/user/sh.c:349-352 | the loop wraps the command once per ampersand |
| `Shell.Line` | xv6-modularized/user/sh.c:343-358 | a pipeline, its ampersands, and the line after a semicolon; the mutual recursion terminates |
| `Shell.ParseCmd` | xv6-modularized/user/sh.c:326-341 | every word of a parsed command is a whole token of the line and no command has more than nine |
| `Shell.Nulterminate` | xv6-modularized/user/sh.c:448-492 | stores NUL behind every word of the command and changes nothing else |
| `Shell.TokensRead` | xv6-modularized/user/sh.c:448-492 | after that every word reads, as a C string, exactly as its token |
| `Shell.ParseCommand` | xv6-modularized/user/sh.c:326-341 | parses the line at the front of the buffer and leaves every argument and file name reading as exactly its token; a panic leaves the buffer alone |
| `ShellGrammar.LexLaws` | xv6-modularized/user/sh.c:261-307 | the tokens of a line, character by character: white space is skipped, >> is one token, any other symbol is one, and a longest run of other characters is a word |
| `ShellGrammar.RedirsRead` | xv6-modularized/user/sh.c:373-396 | tokens that derive redirections are parsed to them, up to what follows |
| `ShellGrammar.ArgsRead` | xv6-modularized/user/sh.c:428-444 | words and redirections in any order are parsed to them |
| `ShellGrammar.LineReads` | xv6-modularized/user/sh.c:343-358 | tokens that derive a tree are parsed to that tree, up to the end or a closing parenthesis |
| `ShellGrammar.RedirsDerive` | xv6-modularized/user/sh.c:373-396 | what parseredirs consumes derives the redirections it collects |
| `ShellGrammar.ArgsDerive` | xv6-modularized/user/sh.c:428-444 | what the argument loop consumes derives the words and redirections it collects |
| `ShellGrammar.LineDerives` | xv6-modularized/user/sh.c:343-358 | what parseline consumes derives the tree it builds |
| `ShellGrammar.ParsesIffDerives` | xv6-modularized/user/sh.c:326-445 | a line parses to a tree iff its tokens derive that tree in the grammar |
| `ShellGrammar.AcceptsGrammar` | xv6-modularized/user/sh.c:326-445 | the parser accepts a line iff its tokens derive some tree, and panics on all others |
| `ShellGrammar.Unambiguous` | xv6-modularized/user/sh.c:326-445 | the tokens of a line derive one tree at most |
| `ShellRoundTrip.ToksDerive` | xv6-modularized/user/sh.c:343-445 | the tokens printed for a tree, with parentheses where the level needs them, derive the tree |
| `ShellRoundTrip.ParsesBack` | xv6-modularized/user/sh.c:326-445 | a line whose tokens are those of a tree parses to that tree, however it is spaced |
| `ShellRoundTrip.LexRender` | xv6-modularized/user/sh.c:264-307 | the printed tokens are read back as the same tokens |
| `ShellRoundTrip.RoundTrip` | xv6-modularized/user/sh.c:261-445 | printing any tree and parsing it gives the tree back |
| `ShellRoundTrip.ParsedIsPrintable` | xv6-modularized/user/sh.c:264-445 | every tree the parser builds is one of those |

## Left out

- Hardware and assembly (boot, context switch, interrupts, devices): a context switch is a step, the disk a sequence of blocks.
- Spinlocks, sleeplocks and memory ordering: each critical section is one step; a buffer or inode under its sleep lock is used by one process.
- WriteAheadLog.Log.LogWrite: the two guards are read before log.lock is taken in the source; here the whole of log_write is one step, together with the caller's filling of the buffer.
- WriteAheadLog.Log.BeginOp: one pass of its loop; that a sleeping operation is woken again is not stated.
- WriteAheadLog.Log.EndOp: its wakeups are not stated; as one call it has no other operation between its critical sections, which WriteAheadLog.Log.EndFirst, WriteAheadLog.Log.Commit and WriteAheadLog.Log.EndLast are one by one.
- WriteAheadLog.Log.constructor: the disk holds a header as write_head makes it; the source does not check one read from disk, and what an impossible count or block number would make it do is not modelled.
- WriteAheadLog.Log.ReadHead: the same.
- WriteAheadLog.Log.RecoverFromLog: the same.
- PtableLists.Ptable.PublishChild: the parent is assigned in the step that makes the child runnable; the source assigns it just before.
- PtableLists.Ptable.AllocProc: pids are unbounded; the wrap-around of nextpid after 2^31 forks is not modelled.
- PtableLists.Ptable.SleepOn: the hand-over between the caller's lock and ptable.lock is part of the step.
- Timer.Clock.Tick: what other processors do between the wakeup and the boost is part of the transition system, not of this method.
- Trapframes, names, file tables and kernel stacks of fork and exit: only state, parent, pid, priority, ticks, killed, channel and queue links are kept.
- FsFile.FileSystem.Iupdate: type, major, minor and nlink of an inode are not modelled; their two words stay as they are.
- FsRuns.FreshInv: the root directory and the programs that mkfs puts on the disk are left out.
- FsFile.FileSystem.Balloc: where balloc panics on a full disk the result says so and nothing more is promised.
- FsFile.FileSystem.Filewrite: the inode is unlocked between chunks; what other writers do to the same file there is in FsRuns.Run and FsLog.WholeCalls, not in this method.
- FsRuns.Run: its steps are the piece of a write in one block, with the allocation of that block, the end of a write, and a whole truncation; what happens inside such a step is not interleaved.
- FsLog.WholeCalls: its steps are the same, each with any list of log_writes that brings its disk about; a crash may come after any of these log_writes. Calls that writei refuses are left out, as they change nothing.
- BufCache.Bcache.LogWrite: the list of logged blocks and the panics are in WriteAheadLog.Log.LogWrite.
- Device inodes in readi and writei, the inode cache, link counts, directories and path lookup.
- KrMalloc.Allocator.Malloc: for requests of which morecore makes a non-positive argument to sbrk the result is Wild, and nothing is promised about the state then. What sbrk answers is a parameter.
- Vm.Memory.Deallocuvm: oldsz is at most KERNBASE, as its callers keep it; kfree and the clearing of the entry are made in the other order, as are kfree and deallocuvm where allocuvm fails; only the order of the free list differs.
- Vm.Memory.MapPages: user pages are mapped one at a time, as every caller does; a longer range is mapped only above KERNBASE.
- Vm.Memory.Copyuvm: the size is at most KERNBASE, as growproc and exec keep it; after a panic nothing is promised about the pages.
- Page contents are opaque values; inituvm, loaduvm, clearpteu, copyout and switchuvm are not modelled.
- Pipe.Pipe.Write: a negative count is not modelled (system calls refuse it), and neither are the wakeups; a killed writer returns without one, so freedom from lost wakeups is not claimed.
- Pipe.Pipe.Read: its wakeups are not stated.
- Pipe.Pipe.Close: its wakeups are not stated.
- Shell.Simple: the source fills in argv of a node that redirections may already wrap; here both are collected and put together at the end.
- Running commands, the reading of lines, and the line buffering of grep.
- mkfs, exec, the console, the remaining system calls and user programs, and the measurements: no property harder than the ones above.
