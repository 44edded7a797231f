# Verified models of boostthreadcontrol

This project models the three concurrency cores of `boostthreadcontrol` and proves what they keep
under every interleaving.

**The parallel verification queue** (`CheckQueue*.dfy`). `CCheckQueue` and `CCheckQueueControl` are
classes with the source's fields. `CriticalSection` is the code of `Loop` from locking the mutex to
`cond.wait`, to the end of a batch's selection, or to the return; `Wait` on a queue without workers
is the whole master loop. `CheckQueueThreads` is a step machine in which one master and any number
of workers take critical sections, execute checks outside the lock, sleep, are notified and wake up
spuriously, in any order. The machine and the class share the functions of `CheckQueueModel`, and
`CheckQueueReplay` runs any interleaving on the object. `CheckQueueCapacity` and
`CheckQueueOverload` settle which queues are always right; `CheckQueueSessions` adds a client that
constructs controllers, adds, waits and destroys. A check is its identity and the result its call
operator returns; checks move by a genuine swap. `unsigned int` wraps around modulo 2^32 wherever
the source's does.

**The lock-order detector** (`Lock*.dfy`). `LockData` has the two ordered containers, the
thread-specific stacks and a flag for `assert(false)` having stopped the run. `LockHistory` gives
the recorded pairs a meaning that mentions only the history of pushes, pops and deletions.
`LockWaits` and `LockOwners` add recursive mutexes, threads that block on them, and the exact order
in which scopes pop and unlock; `LockRings` has the deadlocks it misses. `LockScopes` executes
nested LOCK, LOCK2, TRY_LOCK and ENTER/LEAVE scopes.

**The counting semaphore and its grants** (`Semaphore*.dfy`). `CSemaphore` and `CSemaphoreGrant` are
classes; a `GrantPool` performs any sequence of grant operations on shared semaphores.
`SemaphoreThreads` is the step machine in which `post` increments and notifies in two separate
events.

Where the code falls short of its documentation the model follows the code, and says exactly when:

- Comparing pairs, as `boostthreadcontrol/sync.cpp:21-29` describes, prevents deadlocks of two
  threads (`LockWaits.NoTwoThreadDeadlock`). A deadlock of n threads around a circle can go
  unnoticed if and only if n is at least three (`LockRings.DeadlockIsMissedIff`).
- The report at `boostthreadcontrol/sync.cpp:73-97` heads its second stack as the previous order; the
  call passes the present one there (`LockOrder.ReportShowsOppositeOrders`).
- `nTodo` is an `unsigned int`. `Wait` is right on every run if and only if the sum, over j from 1 to
  the number of workers, of max(1, min(nBatchSize, (2^32 - 1) / (j + 1))) is below 2^32
  (`CheckQueueOverload.CapacityIsExact`); the queue itself may be longer. Two workers always meet
  this, three if and only if nBatchSize is below 1789569708 (`CheckQueueOverload.FewWorkers`).
  Otherwise there is a run in which `Wait` returns true although a check failed
  (`CheckQueueOverload.MissesAFailure`).
- Batches become smaller and smaller, as `boostthreadcontrol/checkqueue.h:106-107` intends, if and
  only if the queue's length fits the cast at line 110 or the cast cannot matter
  (`CheckQueueModel.DrainShrinksIff`).
- A controller that is given checks after its `Wait` does not wait for them
  (`CheckQueueSessions.AlwaysFreshIff`).

Progress results need none of these conditions.

## Model

| member | source | states |
|---|---|---|
| CheckQueueOverload.CapacityIsExact | boostthreadcontrol/checkqueue.h:80-117 | every return of the master, on every run of a queue with this number of workers and this nBatchSize, is right if and only if the sum of the workers' largest batches stays below 2^32 |
| CheckQueueCapacity.EveryVerdictIsRight | boostthreadcontrol/checkqueue.h:69-127 | with that room, under every interleaving the value the master returns is the conjunction over exactly the checks added since it last returned; every one was called once or skipped, skipped only if a called one failed, and nothing is left behind |
| CheckQueueOverload.MissesAFailure | boostthreadcontrol/checkqueue.h:82-98 | without that room there is a run whose return is true although a check added since the last return fails |
| CheckQueueOverload.FewWorkers | boostthreadcontrol/checkqueue.h:110-110 | two workers always have room, three if and only if nBatchSize is below 1789569708 |
| CheckQueueCapacity.WorkersHoldAtMostCapacity | boostthreadcontrol/checkqueue.h:105-117 | in every reachable state the workers hold at most the sum of max(1, min(nBatchSize, (2^32 - 1) / (j + 1))) over the workers j |
| CheckQueueCapacity.LoadStep | boostthreadcontrol/checkqueue.h:105-117 | every event keeps fewer than j workers above the j-th largest batch |
| CheckQueueSafety.ReturnIsRight | boostthreadcontrol/checkqueue.h:69-127 | whatever the number of workers, a return is right as long as the unreported checks of others fit nTodo at this and the earlier returns |
| CheckQueueSafety.VerdictStep | boostthreadcontrol/checkqueue.h:76-126 | every event (a return if it fits nTodo) keeps the checks conserved (queue, hands, called, skipped) and keeps a failure remembered in fAllOk or some thread's fOk, and in nothing else |
| CheckQueueSafety.CountStep | boostthreadcontrol/checkqueue.h:80-104 | every event, wrap-around included, keeps nTodo equal to queued plus unreported checks, nIdle to the threads inside cond.wait and nTotal to the threads inside Loop |
| CheckQueueSafety.BatchIsFairShare | boostthreadcontrol/checkqueue.h:110-117 | the batch taken is the back of the queue reversed, non-empty, within the bound, leaves an equal share for every registered and again every sleeping thread, and no larger share would |
| CheckQueueSafety.ReturnIsCleanIff | boostthreadcontrol/checkqueue.h:91-100 | a master's return leaves an empty queue, no running thread, nTodo zero and fAllOk true if and only if the other threads' unreported checks fit nTodo |
| CheckQueueSafety.ReturnMakesGoodRound | boostthreadcontrol/checkqueue.h:92-99 | the round completed by a return that fits nTodo is right, from the invariants alone |
| CheckQueueProgress.MasterHasAWaker | boostthreadcontrol/checkqueue.h:83-102 | in every reachable state a sleeping master has an empty queue, a positive nTodo and a worker with a batch still to report |
| CheckQueueProgress.LastReportNotifies | boostthreadcontrol/checkqueue.h:83-85 | a critical section notifies the sleeping master if and only if it brings nTodo to zero |
| CheckQueueProgress.QueuedWorkHasAWorker | boostthreadcontrol/checkqueue.h:149-161 | with checks queued and a registered worker, some registered worker is executing or notified; the notify_one path included |
| CheckQueueProgress.WaitIsNeverStuck | boostthreadcontrol/checkqueue.h:91-104 | while the master is inside Wait some thread can take a step without a spurious wake-up |
| CheckQueueProgress.EventShrinks | boostthreadcontrol/checkqueue.h:76-126 | every event inside Wait lowers one linear measure of the state, a spurious wake-up raises it by at most one |
| CheckQueueProgress.WaitIsBounded | boostthreadcontrol/checkqueue.h:142-146 | any stretch of a run inside Wait has at most one event per thread, three per outstanding check and two per spurious wake-up |
| CheckQueueProgress.EarlyStop | boostthreadcontrol/checkqueue.h:119-124 | after fAllOk is false, the rest of the round calls at most the checks that were live in running batches at that moment |
| CheckQueueProgress.NothingLeaks | boostthreadcontrol/checkqueue.h:184-214 | whenever the master is outside and has added nothing since its last return the queue is as good as new, whatever the workers do meanwhile, as long as the returns so far fitted nTodo |
| CheckQueueSessions.SessionVerdict | boostthreadcontrol/checkqueue.h:192-211 | under every interleaving of a client's sessions with the workers, the verdict of a Wait, or of the destructor's, is the conjunction over the checks the session submitted since its last one and those that earlier sessions left; none are left if no session submits after its last wait |
| CheckQueueSessions.HandsOnFreshIff | boostthreadcontrol/checkqueue.h:207-214 | what a destructor hands on is fresh if and only if every check has been reported by then and none of the uncollected ones fails |
| CheckQueueSessions.AlwaysFreshIff | boostthreadcontrol/checkqueue.h:184-214 | a program's last destructor hands on a fresh queue under every interleaving if and only if it waits itself or no check was submitted after the last Wait |
| CheckQueueSessions.Finishes | boostthreadcontrol/checkqueue.h:192-211 | from any state inside a Wait or a destructor's wait, steps of the threads lead to its return and a clean queue |
| CheckQueueReplay.Replay | boostthreadcontrol/checkqueue.h:69-161 | the queue object, driven through any run by method calls, ends in the run's state and returns the run's verdicts, which are right while the returns fit nTodo |
| CheckQueueMoves.BatchIsCalledInOrder | boostthreadcontrol/checkqueue.h:121-125 | in every run, outside the lock a thread works its batch from front to back whatever the others do: it calls what one loop over the batch would call, and its fOk is the conjunction |
| CheckQueueMoves.EvaluatedIsCalled | boostthreadcontrol/checkqueue.h:121-125 | what a round counts as evaluated is what was called since the last return |
| CheckQueueMoves.AddNotifies | boostthreadcontrol/checkqueue.h:158-160 | one check wakes one sleeping worker if there is one, and after more no worker sleeps; the master is never woken |
| CheckQueueMoves.OthersAreWokenAtMost | boostthreadcontrol/checkqueue.h:76-126 | an event leaves every thread it is not a step of alone, or wakes it |
| CheckQueueModel.LeavesIff | boostthreadcontrol/checkqueue.h:91-100 | a thread leaves Loop if and only if nothing is outstanding and it is the master or shutting down; only the master resets the verdict |
| CheckQueues.CheckQueue.CriticalSection | boostthreadcontrol/checkqueue.h:78-120 | the object's critical section is the machine's, with the same outcome and the same notification of the master |
| CheckQueues.CheckQueue.Add | boostthreadcontrol/checkqueue.h:149-161 | the caller's checks are appended in order and replaced by defaults, nTodo grows by their number, one check notifies one worker and more notify all |
| CheckQueues.CheckQueue.Wait | boostthreadcontrol/checkqueue.h:143-146 | without workers the batches are the queue backwards with the sizes of a draining sequence, the calls are those of one run over it, and the verdict is its conjunction |
| CheckQueues.LoneMasterTakes | boostthreadcontrol/checkqueue.h:110-125 | a batch keeps the relation between the batched loop so far and the simple loop over the reversed queue |
| CheckQueues.Execute | boostthreadcontrol/checkqueue.h:121-124 | exactly the checks up to the first failure are called, and fOk ends as the conjunction |
| CheckQueues.CheckQueueControl.Wait | boostthreadcontrol/checkqueue.h:192-199 | a controller on nothing returns true and is not done; on a queue without workers the verdict is the queue's and the queue is fresh |
| CheckQueues.CheckQueueControl.Add | boostthreadcontrol/checkqueue.h:201-205 | the checks are queued as by the queue's Add and the caller is left with defaults; without a queue nothing is touched |
| CheckQueues.CheckQueueControl.Destroy | boostthreadcontrol/checkqueue.h:207-214 | without workers, the destructor unlocks ControlMutex and hands on a fresh queue if and only if it waits itself or nothing was left queued after a Wait |
| CheckQueueModel.CalledIsPrefixThroughFirstFailure | boostthreadcontrol/checkqueue.h:122-124 | the calls are the prefix up to and including the first failing check |
| CheckQueueModel.CalledAppend | boostthreadcontrol/checkqueue.h:119-124 | executing in batches calls what executing in one run calls |
| CheckQueueModel.BatchFits | boostthreadcontrol/checkqueue.h:105-117 | a batch has at least one and at most min(queue, max(1, nBatchSize)) checks, and leaves divisor - 1 times its size when the queue covers the divisor |
| CheckQueueModel.DrainShrinksIff | boostthreadcontrol/checkqueue.h:106-110 | with a fixed divisor the batches sum to the queue's length, and they never grow if and only if the length is below 2^32 or no batch can be above one |
| LockHistory.KeysAreHistory | boostthreadcontrol/sync.cpp:99-127 | (a, b) is recorded if and only if some thread locked b with a below the first b on its stack, since the last deletion of a or b |
| LockHistory.HaltsIffReversed | boostthreadcontrol/sync.cpp:108-121 | locking c halts the run if and only if a lock below the first c was, since the last deletion of either, itself locked above c |
| LockHistory.StoredStackIsFirst | boostthreadcontrol/sync.cpp:113-115 | the stack stored for a recorded pair is the one of the first push that stands for it since the last deletion of either lock; no later push overwrites it |
| LockHistory.ContinuationHaltsIff | boostthreadcontrol/sync.cpp:108-121 | a continuation of a live history halts if and only if one of its pushes is a reversal, judging by the history alone |
| LockHistory.RankedNeverHalts | boostthreadcontrol/sync.cpp:21-29 | threads that follow one ranking of the locks never trip the detector |
| LockHistory.ExecSound | boostthreadcontrol/sync.cpp:57-69 | after any history the index is the transpose of the map and every stored stack is a witness; until a halt the map is irreflexive and antisymmetric |
| LockHistory.Replay | boostthreadcontrol/sync.cpp:99-176 | the detector object, driven through any history by method calls, ends in the history's state |
| LockOrder.PushRecords | boostthreadcontrol/sync.cpp:104-122 | a push halts exactly on a reversed pair, and otherwise adds exactly the pairs of the locks below the first c; old pairs keep their stack, new ones get the present stack |
| LockOrder.ReportShowsOppositeOrders | boostthreadcontrol/sync.cpp:117-120 | the report names the lowest lock in conflict with c and passes the stack stored for that pair and the present one, which hold the two locks in opposite orders |
| LockOrder.LockData.PushLock | boostthreadcontrol/sync.cpp:99-122 | the loop over the stack computes the specified orders and report, also for a thread's first lock, and a report stops the run |
| LockOrder.LockData.PopLock | boostthreadcontrol/sync.cpp:124-127 | the top of one thread's stack goes, nothing else changes |
| LockOrder.LockData.DeleteLock | boostthreadcontrol/sync.cpp:156-176 | both erasing loops over the ordered containers end, and exactly the pairs that mention cs go from both |
| LockWaits.CircularWaitIsRecorded | boostthreadcontrol/sync.h:116-136 | in every reachable state that has not halted, a circular wait of any length is a closed chain of recorded pairs |
| LockWaits.NoTwoThreadDeadlock | boostthreadcontrol/sync.cpp:21-29 | two threads never wait for each other unless the detector has halted the run |
| LockRings.DeadlockIsMissedIff | boostthreadcontrol/sync.cpp:108-121 | some run without a halt ends with n different threads waiting for each other around a circle if and only if n is at least three |
| LockWaits.ActionExcludes | boostthreadcontrol/sync.h:129-162 | every action keeps every lock owned by one thread at most |
| LockOwners.OwnershipIsCounted | boostthreadcontrol/sync.h:116-136 | in every reachable state a thread owns exactly the locks it acquired or tried with success and has not unlocked, counted from the actions alone, and outside a lock operation its stack lists them |
| LockOwners.TryEndIff | boostthreadcontrol/sync.h:129-136 | a try gives the lock if and only if no other thread owns it, and otherwise leaves the stack as before the try |
| LockOwners.ActionsTellAll | boostthreadcontrol/sync.cpp:124-132 | in every reachable state the detector is where the history told by the actions leads, failed tries included |
| LockOwners.OnlyOwnersBlock | boostthreadcontrol/sync.h:116-125 | a thread in the middle of a lock operation can go on if and only if it does not wait for another thread that owns the lock |
| LockScopes.Execute | boostthreadcontrol/sync.h:109-190 | any nest of scopes, failed tries and null pointers included, tells the detector exactly the pushes and pops of the program text, up to a halt; otherwise it leaves the lock stack as it was, and inside each body the stack lists the locks owned |
| LockScopes.BlockHaltsIff | boostthreadcontrol/sync.h:109-190 | a block of scopes is stopped if and only if, judging by the history and the program text, one of its lock attempts reverses an order recorded since the last deletion of either lock |
| LockScopes.BlockNeutral | boostthreadcontrol/sync.h:109-190 | whatever came before, a block pops only what it pushed and ends with the stack it began with |
| SemaphoreThreads.EventKeeps | boostthreadcontrol/sync.h:201-226 | while a thread sleeps, free units never exceed pending notifications plus woken threads |
| SemaphoreThreads.RunBalances | boostthreadcontrol/sync.h:201-226 | in every run the value is the initial one plus the increments minus the turns and tries that found a unit; notifications owed are increments not yet notified, woken threads are wake-ups not yet followed by a turn |
| SemaphoreThreads.InsideWhileOpen | boostthreadcontrol/sync.h:201-208 | a thread is inside wait exactly while a call of it has not found a unit |
| SemaphoreThreads.NobodySleepsNextToAUnit | boostthreadcontrol/sync.h:219-226 | in every reachable state with nothing outstanding and a free unit, no thread sleeps |
| SemaphoreThreads.Settles | boostthreadcontrol/sync.h:203-206 | outstanding notifications and woken threads are worked off within two events per notification and one per woken thread |
| SemaphoreThreads.SettlingGoesOn | boostthreadcontrol/sync.h:219-226 | while any are outstanding, one such event can happen |
| Semaphore.GrantPool.Run | boostthreadcontrol/sync.h:230-287 | after any operations, value plus grants held is the initial value of each semaphore and no value is negative; once every grant is destroyed all values are the initial ones |
| Semaphore.GrantPool.Perform | boostthreadcontrol/sync.h:237-281 | each operation on the real fields: a release or a destructor posts exactly the unit its grant held, an acquisition takes one exactly if there is one and none is held, a move hands over and gives back what its target held, a constructor that returns without trying holds a unit |
| Semaphore.DestroyedHoldNothing | boostthreadcontrol/sync.h:278-281 | after the destruction of every grant none holds a unit, whatever was done before |
| Semaphore.MoveBalances | boostthreadcontrol/sync.h:260-266 | a move gives back what its target held and nothing else, between different semaphores and onto itself |
| Semaphore.AcquireBalances | boostthreadcontrol/sync.h:237-243 | an acquisition trades one unit of value for one grant |
| Semaphore.CSemaphoreGrant.MoveTo | boostthreadcontrol/sync.h:260-266 | the target gets the semaphore and the grant, the mover keeps none; onto itself the grant is released |
| Semaphore.CSemaphoreGrant.Acquire | boostthreadcontrol/sync.h:237-243 | a grant already held changes nothing; otherwise one unit is taken, or the call would sleep |
| Semaphore.CSemaphoreGrant.Release | boostthreadcontrol/sync.h:245-251 | a held unit is posted once |

## Left out

- EveryVerdictIsRight: stated for queues with room for the workers' batches in nTodo, because it is false for all others; CapacityIsExact has both directions.
- CriticalSection: does not model overflow of the `int` thread counters, which would need 2^31 threads.
- Acquire: a call that sleeps is modelled up to the sleep; SemaphoreThreads models the sleeping.
- GrantPool: grants are not copied. The source's class has an implicit copy constructor and assignment, and a copy of a held grant would post its unit twice.
- CheckQueueControl: the class is for queues without workers; CheckQueueSessions has controllers over queues with workers, as a step machine.
- SessionVerdict, HandsOnFreshIff and AlwaysFreshIff: for queues with room, like EveryVerdictIsRight.
- Perform: operations on a grant after its destruction, which C++ does not allow, act on an empty grant.
- MoveTo: does not model other threads between its release and its assignments, because a grant belongs to one thread; the semaphore itself is covered under all interleavings.
- Overflow of the semaphore's `int` value, which is undefined in the source.
- Exceptions, thread interruption, thread creation and shutdown; `fQuit` is modelled as a field that nothing sets, as in the source.
- Location strings, `ToString`, `LocksHeld`, `PrintLockContention`, `AssertLockHeldInternal` and the `available` flag: reporting and teardown only.
- ControlMutex is a flag: a controller's constructor is modelled from the moment it gets the mutex.
- Self-deadlock on the non-recursive `boost::mutex`, which the detector does not look for.
- A build in which `assert(false)` does nothing: the detector is modelled as stopping the run.
- Compiler annotations (`threadsafety.h`), the demo driver (`main.cpp`, `task_check.*`) and the directories beside `boostthreadcontrol`, which wrap libraries whose code is not part of this model.
