# Verified model of the mos kernel

A small preemptive kernel for RISC-V microcontrollers: a priority scheduler with time slices, blocking
synchronisation with priority inheritance, an asynchronous executor, a message queue, and the board's
systick and LCD terminal. This project models that behaviour in Dafny and proves what it promises.

`dafny verify dfyconfig.toml` checks the whole project.

## How the model is built

The kernel state (task table, ready, sleeping and blocked list, tick counter, tid bitmap, current task) is
a value `K`; every operation of the scheduler and of tasks is a function on it (`KernelSpec`), and so are
the operations on semaphores, mutexes and condition variables (`SyncSpec`). The classes `Kernel`, `Sema`,
`Mutex`, `CondVar` and `TaskList` carry the operations out in place, on arrays and lists, and each of their
methods is proved to have exactly the effect of the function. `World` puts the kernel, any number of
objects and one program position per task together; a step is a critical section up to its first switch,
the continuation of a call after its caller was resumed, or an interrupt, so that its runs are all
interleavings. What the functions and the steps keep is proved over all runs from boot:

- `Place`, `SyncPlace`, `World`, `Safety`: every live task is on exactly one list, and status, `Running` mark and
  tid bit agree with it; hence no list overflows and the "no ready task" panic is not reached. Mutual
  exclusion, hand-off without barging.
- `Service`, `Turns`: the order in which a mutex and a semaphore serve their waiters, in which a notify-all makes
  its own ready, and in which a raised owner is queued.
- `Moves`, `Switch`, `Marks`: the complete account of a step in terms of the state before it. Which tasks it
  puts on which list; when it takes the processor from the current task, and that the front of the ready
  list then gets it; whose time slice it fills up and whom it marks as running.
- `Inherit`: priority inheritance is exact and the own priority of every task is conserved.
- `Ordered`, `Order`, `Strict`, `Inversion`: strict priority scheduling, exactly when an unlock and a run
  lose it, and a run from boot in which it is lost.
- `Slices`, `Fair`, `Witnesses`: bounded waiting; when an interrupt preempts, with runs from boot in which it
  or a yield does not. `Sleep`, `Sleepers`: wake-up at the exact tick and in turn.
- `Tokens`, `Monitor`, `Barrier`: semaphore conservation, and when a call takes a token; no lost wake-up; the
  generation barrier, as a program that runs on `World`.
- `TimerQueue`, `Executor`, `ExecutorRuns`, `Futures`, `AsyncPool`: the timer heap with its wrapping comparison;
  the executor as a step machine and its slots in place, amid ticks and spawns; no task is forgotten, and
  every future runs its script in order, each delay to the tick.
- `MsgQueue`, `Systick`, `Globals`, `Terminal`, `Redraw`, `BitMap`, `Words`: exactly-once delivery and when a
  call returns `Ok`; ticks without drift; the terminal and its redraw loop; the bitmap, and what masks do to
  the bits of a word.

## What turned out not to hold

Each of these is stated in the project with the exact condition under which the code does meet it.

- An unlock by a raised owner lowers the owner's priority where it stands in the ready list. If the owner
  has been selected twice in a row (its status is then `Ready`, not `Running`) and has time left, the switch
  that follows does not move it, and a less urgent task can stand before a more urgent one
  (`Order.UnlockKeepsOrderIff`, over runs `Strict.AlwaysSortedIff`; `Inversion.OrderCanBeLost` is a run from
  boot that gets there).
- For the same reason a voluntary yield to an equal does nothing when the caller's status is `Ready` and
  its slice is not used up (`Order.YieldGivesWayIff`; `Witnesses.YieldCanBeIgnored` is such a run).
- A comment at `core/src/kernel/task.rs:135-138` says that a more urgent task created by `create_raw` gets
  the processor within one tick. `systick_tick` asks for a switch only at the end of the slice or while some
  task sleeps; the model follows the code (`Slices.PreemptedIff`; in `Witnesses.TickCanPassBy` the tick comes
  and the less urgent task goes on).
- `TaskSlot::clear` frees a slot one assignment before it resets its ready flag. A spawn that comes in
  between into that slot is never polled (`ExecutorRuns.SpawnLostIff`, `ExecutorRuns.LostForever`;
  `ExecutorRuns.SpawnCanBeLost` is a run in which it comes).
- `AsyncRuntime::delay(ms)` is over at once if `ms` is more than 2^31 (`ExecutorRuns.DelayOverAtOnceIff`).
- When the 52-bit alarm target wraps, an interrupt in time counts the cut-off number of missed ticks
  (`Systick.OnTimeIff`); an interrupt 102 or more periods late leaves the target in the past
  (`Systick.NextPeriodIff`).

## Model

| member | source | states |
|---|---|---|
| TaskLists.TaskList.InsertInOrder | core/src/kernel/list.rs:50-64 | the new task goes before the first one it precedes, else to the end; a full list is refused and unchanged |
| TaskLists.TaskList.Remove | core/src/kernel/list.rs:22-26 | takes out the first occurrence, if any, and keeps the order |
| TaskLists.TaskList.PushBack | core/src/kernel/list.rs:17-19 | appends, or refuses when full |
| TaskLists.TaskList.PopFront | core/src/kernel/list.rs:29-33 | returns and removes the front, or None on an empty list |
| Lists.InsertMembers | core/src/kernel/list.rs:50-64 | insertion of a task that is not on a list without duplicates always finds room and adds exactly that task |
| Lists.RemoveMembers | core/src/kernel/list.rs:22-26 | removal takes out exactly the named task |
| Ordered.EnqueueKeepsTurn | core/src/kernel/list.rs:50-64 | in an ordered queue the new task stands behind all at least as urgent and before all others, which keep their order (first come, first served among equals) |
| KernelImpl.Kernel.WakeUpSleepers | core/src/kernel/sched.rs:44-61 | the index loop wakes the sleepers as `WakeSleepers` does |
| KernelImpl.Kernel.NextTcb | core/src/kernel/sched.rs:65-93 | the whole effect of `next_tcb`, the re-selected task that stays Ready and the panic included |
| KernelImpl.Kernel.SystickTick | core/src/kernel/sched.rs:98-118 | tick counter (wrapping), slice, and when a switch is asked for |
| KernelImpl.Kernel.SystickTrap | boards/esp32c6/src/trap.rs:115-130 | `missed + 1` ticks are replayed, then one switch if any of them or the deferred flag asks for it |
| KernelImpl.Kernel.AllocTid | core/src/kernel/global.rs:48-57 | the least free identifier is taken, its bit set and its entry reset; None when all are in use |
| KernelImpl.Kernel.FreeTid | core/src/kernel/global.rs:60-65 | the bit is cleared and the task Terminated, nothing else |
| TidBits.UsedAfter | core/src/kernel/global.rs:45-65 | setting or clearing a bit of the word adds or removes exactly that identifier |
| KernelImpl.Kernel.Create | core/src/kernel/task.rs:51-92 | a fresh Ready task in its place, and a switch at once if it is more urgent |
| KernelImpl.Kernel.CreateRaw | core/src/kernel/task.rs:100-143 | the same without a switch |
| KernelImpl.Kernel.Launch | core/src/kernel/sched.rs:24-40 | idle task created, front of the ready list Running and current |
| KernelImpl.Kernel.ExitCurrent | core/src/kernel/task.rs:38-48 | the current task leaves and another is selected |
| KernelImpl.Kernel.Block | core/src/kernel/task.rs:158-170 | a Ready or Running task moves to the blocked list; other tasks are left alone |
| KernelImpl.Kernel.Resume | core/src/kernel/task.rs:173-186 | only a task on the blocked list is resumed; switch if more urgent |
| KernelImpl.Kernel.Terminate | core/src/kernel/task.rs:189-198 | the task leaves all three lists and its identifier is free |
| KernelImpl.Kernel.Delay | core/src/kernel/task.rs:201-216 | zero is a no-op; else the caller sleeps until the wrapped wake point |
| SyncImpl.Sema.Down | core/src/kernel/sync.rs:38-52 | takes a token or queues by priority and blocks |
| SyncImpl.Sema.Up | core/src/kernel/sync.rs:54-72 | gives a token or wakes the first waiter; switch if it is more urgent |
| SyncImpl.Sema.UpFromIsr | core/src/kernel/sync.rs:141-154 | the same without a switch |
| SyncImpl.Sema.TryDown | core/src/kernel/sync.rs:75-85 | takes a token only if there is one |
| SyncImpl.Mutex.Lock | core/src/kernel/sync.rs:194-227 | recursion, boost and re-queueing of the owner, waiting by priority, or taking the free mutex |
| SyncImpl.Mutex.Unlock | core/src/kernel/sync.rs:229-260 | inner level, or restored priority and hand-off to the first waiter, or a free mutex; and whether it switches |
| SyncImpl.CondVar.Wait | core/src/kernel/sync.rs:303-316 | queues and blocks the caller before the unlock, with one switch, inside the unlock or after it |
| SyncImpl.CondVar.Notify | core/src/kernel/sync.rs:318-329 | the first waiter becomes ready, then a switch; nothing on an empty queue |
| SyncImpl.CondVar.NotifyAll | core/src/kernel/sync.rs:331-344 | the loop makes every waiter ready, in order, empties the queue, and switches once if there was any |
| Place.NextTcbPlaced | core/src/kernel/sched.rs:65-93 | a switch moves exactly the due sleepers, to the ready list, leaves the front of that list current, and cannot panic while some task stays ready |
| World.StepInv | core/src/kernel/sync.rs:38-344 | every step of every operation, by any task or interrupt, keeps the invariant of the whole system |
| Safety.OneListPerTask | core/src/kernel/task.rs:38-216 | in every reachable state a task is live iff it is on exactly one list, on the ready list iff Ready or Running, Running only if current, and its bit is set iff it is live; no list has duplicates |
| Safety.NoListOverflows | core/src/kernel/list.rs:50-64 | a list that misses a task has room for it, so no ignored insertion error loses one |
| Safety.NeverPanics | core/src/kernel/sched.rs:82-92 | the "no ready task" panic is unreachable; the executing task and idle are on the ready list |
| Safety.MutualExclusion | core/src/kernel/sync.rs:187-260 | guards exist only at the owner, as many as the recursion depth; a mutex with waiters has an owner |
| Safety.LockReturnsAsOwner | core/src/kernel/sync.rs:203-222 | a task resumed inside `lock` is the owner, at depth one more than its guards |
| Safety.MutexStep | core/src/kernel/sync.rs:194-316 | what every step, those of `CondVar::wait` included, does to a mutex: taken free, one level deeper, queued behind its owner, one level back, freed, handed to the first waiter, or untouched |
| Safety.NoBarging | core/src/kernel/sync.rs:187-316 | whatever the step, an owned mutex changes owner only when that owner gives up its last level, and then its first waiter is owner and ready in the same step; a free one goes to the caller of lock; a lock call on another's mutex only queues and blocks |
| Service.ServedInOrder | core/src/kernel/sync.rs:203-252 | in every run a waiter is served only after each one before it in the queue has been the owner |
| Service.ArrivalInTurn | core/src/kernel/sync.rs:217-222 | a task that has to wait, in `lock` or at the end of `CondVar::wait`, stands behind every waiter at least as urgent and before every other |
| Service.ServedInTurn | core/src/kernel/sync.rs:203-252 | of a task that has to wait and any earlier waiter the more urgent, or the earlier one if they are equal, becomes owner while the other still waits, in every continuation |
| Moves.StepMoves | core/src/kernel/sync.rs:38-344 | each operation puts exactly the tasks it is about on another list: the caller on the object's queue if it has to wait, the first waiter (or all) on the ready list, nobody else anywhere |
| Moves.MovesExactly | core/src/kernel/task.rs:38-216 | over all runs: after any step each list has the tasks the operation puts there and those it had and the operation does not move; a new task has the least free identifier, a blocked one stays until it is resumed or ended |
| Switch.SwitchesExactly | core/src/kernel/sched.rs:65-118 | over all runs: for each operation the exact condition, on the state before, under which it takes the processor from the current task; the front of the ready list then has it and is marked as running |
| Switch.UnlockSwitchesIff | core/src/kernel/sync.rs:236-259 | in every state an unlock takes the processor from the caller iff it is the last one and the first waiter, or with no waiter the front of the ready list, is more urgent than the caller's own priority |
| Switch.UpSwitchesIff | core/src/kernel/sync.rs:54-72 | an up takes the processor from the caller iff somebody waits and the first waiter is more urgent |
| Switch.NotifySwitchesIff | core/src/kernel/sync.rs:318-329 | a notify takes the processor from the caller iff somebody waits and the caller is passed over: put back behind its equals, or behind a more urgent waiter |
| Switch.NotifyAllSwitchesIff | core/src/kernel/sync.rs:331-344 | the same for all waiters |
| Switch.ResumeSwitchesIff | core/src/kernel/task.rs:173-186 | a resume takes the processor from the caller iff the task was blocked and is more urgent |
| Switch.CreateSwitchesIff | core/src/kernel/task.rs:51-92 | a creation takes the processor from the caller iff an identifier is free and the new task is more urgent |
| Switch.TrapSwitchesIff | boards/esp32c6/src/trap.rs:115-130 | an interrupt of any number of ticks takes the processor from the current task iff its slice ends, some task sleeps or a switch was deferred, and a ready or due task then goes before it |
| Switch.LaunchChooses | core/src/kernel/sched.rs:24-40 | the launch gives the processor to a most urgent ready task and marks it as running |
| Marks.MarksExactly | core/src/kernel/sched.rs:65-103 | over all runs: a slice is filled up exactly for a new task and for a current task that is put back, ticks are taken off the current task only, and exactly the task that has just got the processor, or keeps it until it is put back, is marked as running |
| Turns.SemaQueueStep | core/src/kernel/sync.rs:38-72 | a semaphore's queue changes only by a `down` that inserts its caller by priority and an `up` that takes out the first waiter and makes it ready |
| Turns.WokenInOrder | core/src/kernel/sync.rs:38-72 | in every run a waiter leaves a semaphore only after each one before it has been ready |
| Turns.DownInTurn | core/src/kernel/sync.rs:43-50 | in a queue in order, a caller that has to wait stands behind every waiter at least as urgent and before every other |
| Turns.SemaStaysInOrder | core/src/kernel/sync.rs:43-50 | in runs in which `down` is called without a mutex the waiters always stand in order of priority |
| Turns.WokenInTurn | core/src/kernel/sync.rs:38-72 | of a task that has to wait and any earlier waiter the more urgent, or the earlier one if they are equal, is ready while the other still waits, in every continuation |
| Turns.NotifyAllInTurn | core/src/kernel/sync.rs:331-344 | of two waiters the earlier one, if it is at least as urgent, stands first in the ready list |
| Turns.RaisesInTurn | core/src/kernel/sync.rs:203-215 | a ready owner that a lock call raises comes behind the ready tasks at least as urgent as the caller and before all others |
| Inherit.StepExact | core/src/kernel/sync.rs:194-260 | every step of a task with one mutex at a time keeps inheritance exact |
| Inherit.InheritanceIsExact | core/src/kernel/sync.rs:194-260 | in every state of such a run the owner's priority is the minimum of its own and its waiters', the saved priority is there iff it is raised, waiters stand by priority, and who owns nothing is not raised |
| Inherit.BaseIsConserved | core/src/kernel/sync.rs:203-239 | no step changes a live task's own priority, however often it is raised and restored |
| Inherit.CreateBase | core/src/kernel/task.rs:72-75 | the own priority of a new task is the one requested |
| Inherit.OwnPriorityIsTheCreated | core/src/kernel/sync.rs:203-239 | a task created in a run with one mutex at a time has the priority asked for as its own as long as it lives, and runs at it whenever it owns no mutex |
| Inherit.UnlockRestores | core/src/kernel/sync.rs:236-246 | the last unlock gives back the own priority, and the new owner needs no boost |
| Order.StepSorted | core/src/kernel/sched.rs:65-93 | every step but an explicit unlock, `CondVar::wait` included, keeps the ready list in order of priority |
| Order.StrictPriority | core/src/kernel/sched.rs:82-92 | in runs without an explicit unlock every change of the current task is to a most urgent ready task |
| Order.UnlockKeepsOrderIff | core/src/kernel/sync.rs:229-260 | unlock keeps the ready list in order iff the caller is not raised, or not at its last level, or is put back by the switch, or nobody behind it is more urgent than its own priority |
| Strict.AlwaysSortedIff | core/src/kernel/sync.rs:229-260 | over runs with one mutex at a time, the ready list is in order in every state iff every unlock of the run meets that condition |
| Strict.StrictWhileUnlocksKeep | core/src/kernel/sched.rs:82-92 | in such runs, unlocks included, every change of the current task is to a most urgent ready task |
| Inversion.OrderCanBeLost | core/src/kernel/sync.rs:236-252 | a run from boot with one mutex that ends with a task of priority 3 before one of priority 2 |
| Order.YieldGivesWayIff | core/src/kernel/sched.rs:70-89 | a yield to an equal gives way iff the caller is Running or its slice is used up |
| Witnesses.YieldCanBeIgnored | core/src/kernel/sched.rs:70-89 | a run from boot after which a yield to a waiting equal changes nothing |
| Slices.EverySliceIsUsable | core/src/kernel/sched.rs:72-80 | between two steps every task has a time slice of 1 to `TIME_SLICE` ticks |
| Slices.PreemptedIff | core/src/kernel/sched.rs:108-117 | a systick interrupt preempts a task that is not the front iff its slice ends, some task sleeps, or a switch was deferred |
| Witnesses.TickCanPassBy | core/src/kernel/task.rs:135-138 | a run from boot with `create_raw` of a more urgent task after which a tick leaves the less urgent one current |
| Fair.StepWork | core/src/kernel/sched.rs:65-118 | no step without mutexes lengthens the wait of a foremost ready task (slices of those before it, and of the current task while it is not the front), and each systick interrupt shortens it by the ticks it replays, as far as the slice goes |
| Fair.BoundedWaiting | core/src/kernel/sched.rs:65-118 | a ready task with n tasks before it is current within n times `TIME_SLICE` ticks if the current task is the front, and within one slice more if it is not, while nobody more urgent is ready and no mutex is used |
| Fair.BoundedWaitingWithoutUnlock | core/src/kernel/sched.rs:65-118 | the same after every run from boot without an explicit unlock, whose ready list is always in order |
| Sleep.StepNoneDue | core/src/kernel/sched.rs:44-61 | whenever a task executes every wake point is still ahead, so the scan of a voluntary switch does nothing |
| Sleep.StepSleeper | core/src/kernel/sched.rs:44-61 | a sleeper leaves the list only in the interrupt that counts its tick, and then is ready |
| Sleep.SleepIsExact | core/src/kernel/task.rs:201-216 | a task that delays n ticks sleeps through every run that counts fewer and is made ready by the interrupt that counts the n-th |
| Sleepers.SleepersInOrder | core/src/kernel/task.rs:201-216 | in every reachable state the sleepers stand in the order in which they wake; a task that delays goes behind those that wake no later and before all others |
| Sleepers.WakesInTurn | core/src/kernel/sched.rs:44-61 | of two sleepers due in one interrupt the first in the list, if it is at least as urgent, stands first in the ready list |
| Tokens.TokensAreConserved | core/src/kernel/sync.rs:38-85 | initial count plus ups equals acquisitions plus the positive count; waiters make up the negative count; nobody waits while a token is there |
| Tokens.TryDownTakesIff | core/src/kernel/sync.rs:75-85 | in every reachable state `try_down` succeeds iff more tokens have been there or put in than acquired, and then takes one; else it changes nothing |
| Tokens.DownPassesIff | core/src/kernel/sync.rs:38-52 | in every reachable state `down` lets its caller past iff more tokens have been there or put in than acquired, and else queues and blocks it |
| Monitor.CvFifo | core/src/kernel/sync.rs:303-344 | the queue is first in, first out, and only wait and notify touch it |
| Monitor.NoLostWakeUp | core/src/kernel/sync.rs:303-344 | from the step that gives the mutex up the waiter is queued until notified; notify-all, or notify when it is first, makes it ready |
| Monitor.WaitReturnsAsOwner | core/src/kernel/sync.rs:315-315 | `wait` returns only as owner, with a guard |
| Barrier.DoInv | core/src/kernel/sync.rs:371-387 | every step of the barrier program, amid any other steps, keeps its invariant |
| Barrier.OneHolder | core/src/kernel/sync.rs:371-387 | at most one task is in the guarded part of `wait` |
| Barrier.NobodyLeavesEarly | core/src/kernel/sync.rs:371-387 | a task leaves only a generation that has had all its `total` arrivals |
| Barrier.GenerationsStayNear | core/src/kernel/sync.rs:376-385 | with exactly `total` tasks the generation is at most one ahead of any task inside, so the wrapped comparison is exact, and after the last arriver's notify-all nobody of an old generation queues |
| TimerHeap.WrappedOrder | core/src/kernel/async_rt.rs:161-163 | the wrapping comparison agrees with that of the ticks iff these are within half the range |
| TimerQueues.TimerQueue.Push | core/src/kernel/async_rt.rs:124-129 | pushes and sifts up; a full queue drops the entry |
| TimerQueues.TimerQueue.PopFront | core/src/kernel/async_rt.rs:144-155 | returns the first entry, moves the last one up and sifts it down |
| TimerQueues.TimerQueue.SiftUp | core/src/kernel/async_rt.rs:157-174 | the loop terminates with the effect of the recursive sift |
| TimerQueues.TimerQueue.SiftDown | core/src/kernel/async_rt.rs:176-205 | the same downwards |
| TimerQueues.TimerQueue.WakeExpired | core/src/kernel/async_rt.rs:131-142 | pops while the first entry is due and sets the flag of each popped slot |
| TimerHeap.PushMembers | core/src/kernel/async_rt.rs:124-129 | a push with room adds exactly the entry, whatever the order |
| TimerHeap.PushHeap | core/src/kernel/async_rt.rs:157-174 | a push keeps the heap order while all ticks lie in half the range |
| TimerHeap.PopTakesLeast | core/src/kernel/async_rt.rs:144-155 | a pop takes out a least entry and leaves a heap of exactly the others |
| TimerHeap.ExpireExact | core/src/kernel/async_rt.rs:131-142 | the entries woken are the due ones, those left are the others, and still a heap |
| TimerHeap.FlagExact | core/src/kernel/async_rt.rs:87-94 | a flag is set iff it was, or an entry woken carries its slot |
| AsyncPools.AsyncPool.Spawn | core/src/kernel/async_rt.rs:265-280 | the future goes to the first free slot, ready; refused when there is none |
| AsyncPools.AsyncPool.PollAll | core/src/kernel/async_rt.rs:239-256 | a pass, amid any ticks and spawns between its steps, is a run of the step machine from one idle state to the next that begins with waking the due timers; it reports work iff it polled something |
| AsyncPools.AsyncPool.PollFuture | core/src/kernel/async_rt.rs:300-333 | amid any ticks and spawns it continues the run of the step machine, polling at least once, until the future is done and its slot is being cleared, or it is suspended and the scan goes on |
| AsyncPools.AsyncPool.PollStep | core/src/kernel/async_rt.rs:300-333 | one await: created, found complete by the clock of that moment, or found pending |
| Executor.StepInv | core/src/kernel/async_rt.rs:239-333 | every step of the executor, interleaved with ticks and spawns, keeps slots, flags, timers and heap in agreement |
| Executor.PassFlags | core/src/kernel/async_rt.rs:131-142 | at the start of a pass a slot is made ready iff it waited for a timer that is now due |
| Executor.PoppedIsDue | core/src/kernel/async_rt.rs:302-315 | a timer polled after its entry was popped is due, so it never stays pending without an entry |
| Executor.RoomToPush | core/src/kernel/async_rt.rs:124-129 | the full-queue branch of push is not reached |
| ExecutorRuns.NoTaskForgotten | core/src/kernel/async_rt.rs:239-256 | an occupied slot is ready, being polled, or has exactly one timer entry; a free slot has none |
| ExecutorRuns.TimerExact | core/src/kernel/async_rt.rs:302-315 | a polled timer completes iff its tick has come |
| ExecutorRuns.PassServesAll | core/src/kernel/async_rt.rs:239-256 | every pass gets every task on that is ready or due when it begins |
| ExecutorRuns.PassEnds | core/src/kernel/async_rt.rs:243-254 | a pass never gets stuck and every executor step brings its end nearer, whatever is spawned |
| Futures.PollBegins | core/src/kernel/async_rt.rs:282-333 | beginning an item takes exactly the first off the script; with none left the future is complete and its slot free |
| Futures.DelayExact | core/src/kernel/async_rt.rs:282-315 | a delay of `ms` begun at tick n: in every run until it ends, a poll of its slot completes it iff tick n + ms has come, and else leaves it pending; the items after it are left |
| Futures.YieldExact | core/src/kernel/async_rt.rs:317-333 | a yield gives way exactly once: its first poll leaves it pending and ready, its second completes it |
| Futures.SpawnFills | core/src/kernel/async_rt.rs:265-280 | a spawn with a free slot stores its script in one such slot, ready, and touches no other |
| Futures.ScriptRuns | core/src/kernel/async_rt.rs:239-333 | over any run a spawned future works its script off in order, and completes with nothing left, no sooner than the sum of its delays after the spawn |
| ExecutorRuns.DelayOverAtOnceIff | core/src/kernel/async_rt.rs:282-305 | a delay is over at once iff it is zero or more than half the tick range |
| ExecutorRuns.SpawnLostIff | core/src/kernel/async_rt.rs:55-61 | a spawn between the two assignments of `clear` is lost iff the slot being cleared is the first free one |
| ExecutorRuns.SpawnCanBeLost | core/src/kernel/async_rt.rs:245-245 | a run from the start of one task that completes while another is spawned into its slot, which is lost |
| ExecutorRuns.LostForever | core/src/kernel/async_rt.rs:245-245 | a lost task is never polled and its slot never freed |
| MsgQueue.Ring.Push | core/src/kernel/ipc.rs:38-44 | appends to the contents; a full ring is unchanged |
| MsgQueue.Ring.Pop | core/src/kernel/ipc.rs:46-55 | takes the oldest message, or None on an empty ring |
| MsgQueue.StepInv | core/src/kernel/ipc.rs:110-173 | every critical section and every end of a wait keeps calls, queue and history in agreement |
| MsgQueue.ExactlyOnceInOrder | core/src/kernel/ipc.rs:110-173 | a send is accepted once iff it returns Ok; messages received are those accepted first, in order, each by one receive; the rest is in the queue, at most its capacity; a receive that fails has taken nothing |
| MsgQueue.SucceedsIff | core/src/kernel/ipc.rs:110-173 | in every reachable state a critical section of a receive returns Ok iff a message accepted is undelivered, and then the first such; one of a send iff fewer are undelivered than the capacity; a first one that fails waits, a second returns the time-out |
| MsgQueue.FirstTry | core/src/kernel/ipc.rs:110-173 | a new call, whatever other calls do before its first section, then returns Ok iff a message is undelivered or there is room; what is accepted is its own message |
| MsgQueue.SecondTry | core/src/kernel/ipc.rs:124-139 | a call whose first section fails can only wait, whatever others do; a wait that times out returns the time-out, one that ends with Ok leads to one more section, which returns Ok iff a message is undelivered or there is room, and else the time-out |
| Systick.Alarm.AddPeriod | boards/esp32c6/src/bsp.rs:188-190 | the two-word addition with carry is a 52-bit addition |
| Systick.Alarm.SystickIsr | boards/esp32c6/src/bsp.rs:171-204 | the catch-up loop on two words has the effect of `CatchUp` on the 52-bit value |
| Systick.IsrMovesByTicks | boards/esp32c6/src/bsp.rs:183-193 | the target moves by as many periods as ticks are counted, cut off or not |
| Systick.NextPeriodIff | boards/esp32c6/src/bsp.rs:183-193 | without a wrap the new target is in the period after now iff the interrupt is less than 102 periods late, and then the missed count is exact |
| Systick.OnTimeIff | boards/esp32c6/src/bsp.rs:173-187 | an interrupt in time counts one tick iff the target does not wrap |
| Systick.NoTickDrift | boards/esp32c6/src/trap.rs:115-130 | over any run the target has moved by exactly the periods the kernel has counted, modulo 2^52, and the counter by these ticks less whole laps of 2^32 |
| Globals.StepTicks | core/src/kernel/sched.rs:98-103 | only the systick interrupt moves the tick counter, by the ticks it replays |
| Terminals.Terminal.Feed | boards/esp32c6/src/lcd.rs:242-250 | dispatch of line feed, carriage return, backspace, delete and printable bytes |
| Terminals.Terminal.PutChar | boards/esp32c6/src/lcd.rs:253-268 | wraps a full row, writes, extends the length and marks the row |
| Terminals.Terminal.Newline | boards/esp32c6/src/lcd.rs:271-282 | next row, or scroll |
| Terminals.Terminal.Backspace | boards/esp32c6/src/lcd.rs:285-297 | blanks the cell and cuts the row off there |
| Terminals.Terminal.ScrollUp | boards/esp32c6/src/lcd.rs:300-311 | the loop shifts every row up, blanks the last and marks all |
| TermSpec.ScreenIsEndOfTranscript | boards/esp32c6/src/lcd.rs:217-321 | for every byte stream the grid shows the last 11 lines of the unbounded transcript and the cursor in the last |
| TermSpec.FeedAllMarks | boards/esp32c6/src/lcd.rs:252-311 | a row not marked has not changed since the marks were cleared |
| Redraw.Lcd.RenderRow | boards/esp32c6/src/lcd.rs:324-360 | makes one band as in a full redraw and touches no other line |
| Redraw.Lcd.RenderFull | boards/esp32c6/src/lcd.rs:363-394 | makes the frame buffer a full redraw |
| Redraw.Lcd.FlushRow | boards/esp32c6/src/lcd.rs:417-452 | sends exactly one band and leaves every other row's band alone; the bounds guards never skip a row |
| Redraw.Lcd.Pass | boards/esp32c6/src/lcd.rs:498-535 | after each pass the panel equals a full redraw, on the row-wise and on the full path |
| Redraw.Lcd.Run | boards/esp32c6/src/lcd.rs:498-535 | after any batches the panel pictures the end of the transcript of all bytes |
| Words.BitsAfter | core/src/data_type/bitmap.rs:22-48 | setting, clearing and testing a bit of a 32-bit word with the mask `1 << (31 - i)` is setting, clearing and reading element i of its bits |
| Words.BitsZero | core/src/data_type/bitmap.rs:50-74 | a word is zero iff none of its bits is set, and its complement has the other bits |
| BitMaps.BitMap.Set | core/src/data_type/bitmap.rs:22-28 | adds the position; out of range is a no-op; padding stays clear |
| BitMaps.BitMap.Reset | core/src/data_type/bitmap.rs:31-37 | removes the position; out of range is a no-op |
| BitMaps.BitMap.Test | core/src/data_type/bitmap.rs:40-48 | membership; false out of range |
| BitMaps.BitMap.FirstZero | core/src/data_type/bitmap.rs:50-61 | the least position not in the set, or None if all are |
| BitMaps.BitMap.FirstOne | core/src/data_type/bitmap.rs:63-74 | the least member, or None if there is none |
| BitMaps.BitMap.CountOnes | core/src/data_type/bitmap.rs:76-82 | the cardinality of the set |
| BitMaps.BitMap.CountZeros | core/src/data_type/bitmap.rs:85-87 | the cardinality of the complement, without underflow |

## Left out

- World.StepInv: a task that owns or awaits an object, and idle, is not terminated, and idle is not blocked: nothing in the code takes such a task out of the object's queue.
- Inherit.InheritanceIsExact: a task takes no second mutex while it has one, and none is created with priority 255: the code saves a single priority and does not pass a boost on.
- Order.StrictPriority: runs with an unlock are those of `Strict.AlwaysSortedIff` and `Strict.StrictWhileUnlocksKeep`, with one mutex at a time and tick counter and wake points below 2^32.
- Service.ServedInTurn: the run before the task arrives has one mutex at a time, as without it the priority of a waiter, and with it the order of the queue, can change; `Service.ServedInOrder` holds in all runs.
- Turns.WokenInTurn: tasks call `down` without a mutex, and own one at a time: a waiter that owns one can be raised while it waits and keeps its place. `Turns.WokenInOrder` holds in all runs.
- Switch.SwitchesExactly: tick counter and wake points stay below 2^32 and semaphore counts in the range of `i32`; where a switch depends on the order of the ready list, that list is in order.
- Moves.MovesExactly: the same ranges, as for `Marks.MarksExactly` and `Sleepers.SleepersInOrder`.
- Fair.BoundedWaiting: starts with the ready list in order and speaks of a wait during which no mutex is used; an unlock can lose that order.
- Sleep.SleepIsExact: the tick counter and the wake points do not pass 2^32; the kernel compares them without wrapping.
- Tokens.TokensAreConserved: the count does not exceed the range of `i32`.
- ExecutorRuns.NoTaskForgotten: each future awaits one delay or yield at a time, delays and lateness stay below half the tick range together, and nobody spawns into a slot that is just being cleared; the last is the exact condition of `ExecutorRuns.SpawnLostIff`.
- MsgQueue.ExactlyOnceInOrder: how long a call waits and whether the wait ends with Ok or TimeOut is arbitrary; the wait lists of the queue (`core/src/kernel/ipc.rs:69-108`) and their effect on the ready list are not modelled.
- BitMaps.BitMap.Set: a word of the bitmap is the sequence of its bits; the masks on a 32-bit word are tied to it by `Words.BitsAfter` and `Words.BitsZero`, and `leading_zeros` and `count_ones` are defined on the bits.
- `Sema::down_timeout`: its try and its enqueue are separate critical sections, and a later `up` leaves its sleeping-list entry behind, so the task would be on two lists.
- `Task::find_tid`, task names, stacks, closures and their storage: the model knows a task by its identifier only.
- Context save and restore in assembly: a trap is its dispatch followed by the switch it asks for.
- The executor's own delay between passes and its start: lateness bounds stand for them.
- Interrupts forwarded to the WiFi and BLE driver, clock repair, fault recovery, SPI and DMA transfers: hardware and foreign code. How glyphs are drawn is a parameter.
- The character ring in front of the terminal: the batches it delivers are inputs of the redraw loop.
- Shell, line editor, print hooks and the remaining small containers: they would only add easy members.
