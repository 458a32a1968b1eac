# Verified model of the user-level thread library and its OS simulators

The Dafny project in this directory models the cooperative thread library (mutexes,
condition variables, semaphores, the ring buffer, the deadlock detector and the scheduler) and
the paging, partition and file-system simulators, and proves what they promise, for every
input and every run. `dafny verify dfyconfig.toml` checks it.

## How the thread library is modelled

Control moves only where a thread yields, blocks or exits, so everything between two such
points is one atomic step. A thread is a finite program of operations plus the place where it
will resume: at its next operation, inside `lock`, inside a semaphore's `wait`, or inside a
condition variable's `wait` before it takes its mutex again. Loops of the client threads are
unrolled; `while (guard) cv.wait(mutex)` is one operation that repeats itself.

- `WaitGraph`, `DeadlockDetection`: the wait-for graph, and the detector as a class.
- `Kernel`: what the primitives do to thread states, wait queues, owners, counts and graph,
  and the invariant that ties these together. "Woken" threads, popped and READY but not yet
  resumed, are what the no-lost-wake-up half of the invariant counts.
- `Machine`: thread programs and the two kinds of step (dispatch, one operation); every
  interleaving is a run, whatever the policy.
- `WaitQueues`, `Termination`, `Deadlock`, `LockOrder`, `DeadlockThreads`, `Semaphores`,
  `RingProtocol`, `RingTraffic`, `ReadersWriters`, `Rounds`: theorems over all runs.
- `Scheduling`, `BatchOptimality`, `ShortestJobFirst`, `ShortestJobTicks`: the selection rules,
  the logical clock, round-robin fairness, and the optimality of shortest job first.
- `Threads`, `RuntimeSteps`, `Runtime`: the same library as classes whose methods update their fields in
  place. Each method is proved to take the objects from the machine's state before to the
  machine's state after, so `Runtime.Scheduler.Run` inherits the theorems above. `Tied` says
  that objects and state agree; `View` is the state they are in.
- `PageReplacement`, `FifoFrames` and `VirtualMemorySimulator`, `Partitions`, `FileSystem`: the simulators,
  each a class with its invariant, beside the theory its contracts refer to.

Assumed of the callers, as the library does: one scheduler, a detector that starts empty,
mutexes with distinct ids, primitives called by the running thread, and nobody waking,
removing or clearing threads from outside during a run. The scheduling theorems ask one thing
of the programs: their wait loops run only while they own the mutex. Without that a dispatch
need not end (`Termination.RunsEndUnlessSomeoneSpins`). `num_frames`, ring capacity and total
memory are at least 1, file names contain no NUL, integers are unbounded.

Where the wait edge of a thread is concerned the code is followed, not the intuition: it stays
in the graph from the moment `lock` announces it until the woken thread resumes, so a READY
thread can have one.

## Model

| member | source | states |
|---|---|---|
| DeadlockDetection.DeadlockDetector.Detect | src/deadlock_detector.cpp:39-53 | true exactly when the graph has a directed cycle, for every finite graph; what is reported then is a closed walk, edge by edge, and nothing is reported otherwise |
| DeadlockDetection.DeadlockDetector.Dfs | src/deadlock_detector.cpp:55-95 | without a cycle found, finished nodes have only finished successors and lie on no cycle, path and recursion stack are as before; each call visits a new node, so the search ends |
| DeadlockDetection.DeadlockDetector.AddWaitEdge | src/deadlock_detector.cpp:13-17 | the list of the thread's node gains the mutex's node at its end; no other list changes |
| DeadlockDetection.DeadlockDetector.AddHoldEdge | src/deadlock_detector.cpp:19-23 | the list of the mutex's node gains the thread's node at its end; no other list changes |
| DeadlockDetection.DeadlockDetector.RemoveHoldEdge | src/deadlock_detector.cpp:25-30 | every occurrence of the edge goes, in order; no other list changes |
| DeadlockDetection.DeadlockDetector.RemoveWaitEdge | src/deadlock_detector.cpp:32-37 | every occurrence of the edge goes, in order; no other list changes |
| DeadlockDetection.LeaveNode | src/deadlock_detector.cpp:92-94 | a node whose successors are all finished can be finished: still no cycle through a finished node |
| WaitGraph.NoSinkMeansCycle | src/deadlock_detector.cpp:55-95 | a finite set of nodes in which each has a successor within the set contains a cycle (pigeonhole walk) |
| Kernel.AcquireKeeps | src/mutex.cpp:44-46 | taking a free mutex keeps queues, states, owners, graph and wake-ups in agreement |
| Kernel.LockLoopKeeps | src/mutex.cpp:33-47 | a round of the lock() loop, taken or blocked, keeps them in agreement, even if no other waiter of that mutex was on its way |
| Kernel.UnlockKeeps | src/mutex.cpp:67-85 | unlock keeps them in agreement: a queue that is left non-empty has a woken waiter on its way |
| Kernel.SemLoopKeeps | src/semaphore.cpp:27-32 | a round of the wait() loop keeps them in agreement |
| Kernel.SemSignalKeeps | src/semaphore.cpp:35-46 | signal keeps them in agreement: every unit of the count has a woken waiter while threads wait |
| Kernel.CvWaitKeeps | src/condition_variable.cpp:18-28 | wait up to its switch keeps them in agreement |
| Kernel.CvBroadcastKeeps | src/condition_variable.cpp:43-54 | broadcast keeps them in agreement, for any number of waiters |
| Kernel.PopWakeKeepsQueues | src/scheduler.cpp:185-191 | the head of any wait queue is a BLOCKED thread, so every wakeThread of a primitive takes effect; only that queue and that thread change |
| Kernel.ResumeKeeps | src/scheduler.cpp:216-230 | dispatching a READY thread and finishing the primitive it was suspended in keeps them in agreement |
| Machine.NextKeeps | src/scheduler.cpp:149-175 | every dispatch and every operation, of any program, keeps them in agreement |
| Machine.ReachableInv | src/mutex.cpp:27-85 | in every reachable state: each queue lists exactly the threads blocked in its primitive, once; hold edges are exactly the owners and wait edges exactly the threads suspended inside lock(); a free mutex with waiters has a woken one; at most one thread runs |
| Machine.ExecFrame | src/scheduler.cpp:149-191 | an operation of one thread changes nothing about another except BLOCKED to READY |
| Machine.ExecMovesCaller | src/mutex.cpp:27-85 | when an operation blocks its caller and where it will resume, and which mutexes the caller owns afterwards, for every operation |
| WaitQueues.ActionMoves | src/mutex.cpp:67-85 | in every step, exactly the threads that unlock, signal, broadcast or a wait() releasing its mutex wakes leave their queue, from its front, and are READY; the acting thread joins the end of the queue it waits in; no other queue and no other thread's state changes |
| WaitQueues.QueuesAreFifo | src/mutex.cpp:33-41 | over every run and for every wait queue: those woken followed by those still waiting are those waiting at the start followed by those who blocked during the run, in this order |
| WaitQueues.WokenInOrder | src/semaphore.cpp:21-46 | from the start on, threads are woken from a queue in the order in which they blocked |
| WaitQueues.BroadcastWakesAll | src/condition_variable.cpp:43-54 | after a broadcast nobody waits on the condition variable, all who did are READY, and no other thread's state and no other queue changes |
| Termination.NextDecreases | src/scheduler.cpp:139-143 | every dispatch and every operation lowers a measure that charges failed retries to the operation that woke the thread, unless it is a wait loop run without its mutex |
| Termination.EveryRunIsFinite | src/scheduler.cpp:139-143 | no run of finite programs whose wait loops own their mutex is longer than the measure of its first state; how they return, and calls of wait() outside a loop, make no difference |
| Termination.RunsEndUnlessSomeoneSpins | src/condition_variable.cpp:18-28 | whatever the programs, the lengths of runs are bounded exactly when no run brings a thread to a wait loop whose mutex it does not own: there wait() returns at once |
| Termination.RunStillObeys | src/mutex.cpp:67-85 | either rule, wait loops own their mutex or threads return with no mutex held, survives every run once all threads follow it |
| Deadlock.DeadlockIsPermanent | src/mutex.cpp:33-47 | a cycle of the graph is there after every continuation, and each thread on it is still suspended at the same place with the same locks and the same rest of program, although a woken one removes and re-adds its wait edge |
| Deadlock.ReportedAtBirth | src/mutex.cpp:33-46 | an action that makes an acyclic graph cyclic is a lock() call or retry whose detect() returned true |
| Deadlock.ReportsAreExact | src/mutex.cpp:35-38 | from an acyclic start, the graph is cyclic after a run exactly when some detect() made by lock() in it returned true |
| Deadlock.QuiescenceIsExact | src/scheduler.cpp:124-143 | for threads that only lock, try, unlock and yield: when nobody is READY, all are FINISHED exactly when the graph has no cycle and nobody waits for a mutex whose owner is FINISHED |
| Deadlock.EmptyHandedStrandsNobody | src/mutex.cpp:67-85 | threads that return with no mutex held leave nobody waiting for a FINISHED owner |
| Deadlock.RunsEndDoneOrReported | src/scheduler.cpp:139-143 | a run of such threads that has come to rest ended with all FINISHED exactly when no detect() reported and nobody waits for a FINISHED owner; if all return with no mutex held, exactly when no detect() reported |
| Deadlock.MutexOnlyTerminates | src/scheduler.cpp:139-143 | every run of such threads is finite, with nothing asked of how they lock |
| LockOrder.OrderedMeansNoCycle | test/test_main.cpp:159-194 | if every thread waits only for mutexes above those it holds, the graph has no cycle |
| LockOrder.OrderedLockingCompletes | test/test_main.cpp:159-194 | with programs that lock in ascending order, no detect() ever reports; over mutexes alone every run is finite, and at rest all threads are FINISHED exactly when nobody waits for a FINISHED owner, as when all return with no mutex held |
| DeadlockThreads.OppositeOrdersCanDeadlock | test/test_main.cpp:159-194 | two threads taking two mutexes in opposite orders have a run into a cycle, and a detect() in it reports |
| DeadlockThreads.SameOrderCompletes | test/test_main.cpp:159-194 | taking them in one order, no run is ever reported, every run is finite, and at rest both are FINISHED |
| DeadlockThreads.ExitHoldingStrands | src/mutex.cpp:27-47 | a thread that returns holding a mutex can strand the next one at rest, without any cycle |
| LockOrder.PhilosophersAllEat | test/test_main.cpp:253-275 | any number of philosophers at a table of any size finish under every schedule |
| Rounds.EveryPhilosopherEats | test/test_main.cpp:253-275 | at rest every philosopher has eaten exactly once, owning its left and its right fork |
| Semaphores.SemaphoreConservation | src/semaphore.cpp:18-46 | over every run, count plus completed waits equals initial count plus signals |
| Semaphores.WaitersOnlyAtZero | src/semaphore.cpp:21-46 | at rest a thread is blocked in wait() only if the count is 0 and every unit ever there was taken |
| RingProtocol.PutKeeps | src/ring_buffer.cpp:19-21 | writing below capacity appends to the window of count cells from head on, around the end; tail stays (head + count) mod capacity |
| RingProtocol.TakeKeeps | src/ring_buffer.cpp:36-38 | reading from a non-empty buffer yields the oldest unread item |
| RingProtocol.NextKeepsRing | src/ring_buffer.cpp:14-47 | every step of any number of producers and consumers keeps the buffer invariant, the mutex discipline, and a woken caller for every unit of room or content that a waiter could use |
| RingProtocol.RingIsFifoAndServes | src/ring_buffer.cpp:14-47 | in every interleaving: written items equal read items followed by the circular window, 0 <= count <= capacity, the mutex is free at every switch point, and waiters on either condition variable are covered by woken callers |
| RingProtocol.StuckSides | src/ring_buffer.cpp:14-47 | at rest a blocked thread is a consumer of an empty buffer or a producer of a full one, so never both sides |
| RingProtocol.MatchedCallersFinish | src/ring_buffer.cpp:14-47 | pure producers and pure consumers with equal totals all finish, and every item written was read, in order |
| RingTraffic.ItemsAreTheirs | src/ring_buffer.cpp:14-29 | in every interleaving of any callers, what a thread has written followed by the items of its calls still to come is what its program had to write, in order, and the log of written items grows by just that |
| RingTraffic.TrafficFlows | test/test_main.cpp:197-212 | any number of producer threads and consumer threads, each with its own number of rounds: if as many items are produced as consumed, every run is finite, and at rest all threads are FINISHED, the items read are those written, in that order, each producer wrote tid * 100 + 1, tid * 100 + 2 and so on, in order, nobody else wrote, and every item produced was read as often as it was produced |
| ReadersWriters.TokensAddUp | test/test_main.cpp:215-250 | semaphore count, writers holding a unit and the readers' group token add up to 1 in every reachable state; the shared counter is the number of readers counted in |
| ReadersWriters.ReadersAndWritersExclude | test/test_main.cpp:215-250 | while a writer writes, no other thread writes or reads, in every interleaving |
| ReadersWriters.ReadersAndWritersFinish | test/test_main.cpp:215-250 | every run is finite, and at rest all readers and writers are FINISHED |
| Rounds.VisitsAddUp | test/test_main.cpp:215-250 | over every run, the marked operations a thread has executed, with what it was to hold then, and those still ahead add up to those ahead at the start |
| Rounds.EveryRoundIsDone | test/test_main.cpp:215-250 | at rest every reader has read, and every writer has written, exactly as many times as it has rounds |
| Scheduling.ChosenIsUnique | src/scheduler.cpp:53-122 | a policy never prefers two threads: the choice is determined by the state |
| Scheduling.StepsAreRuns | src/scheduler.cpp:124-143 | whatever the policy, the steps of the scheduler are a run of the machine, so all results about runs apply to them |
| Scheduling.StepsAreBounded | src/scheduler.cpp:139-143 | run() makes at most as many steps as the measure of the state it starts in |
| Scheduling.NobodyReadyMeansQuiescent | src/scheduler.cpp:124-126 | step() has nobody to select exactly when every thread is BLOCKED or FINISHED |
| Scheduling.RunEndsDoneOrDeadlocked | src/scheduler.cpp:139-143 | under any policy, run() over mutex-only threads ends with all FINISHED exactly when there is neither a cycle in the graph nor a thread waiting for a FINISHED owner; the latter is out if all return with no mutex held |
| Scheduling.RoundRobinIsFair | src/scheduler.cpp:63-76 | a READY thread not selected comes closer with each step: it waits for fewer steps than there are threads, and stays READY meanwhile |
| Scheduling.StepTicks | src/scheduler.cpp:241-260 | k steps take at most k quanta of the logical clock |
| Scheduling.SliceIsDispatches | src/scheduler.cpp:241-260 | a slice is a row of at least one and at most a quantum of dispatches of its thread, READY before each, one tick each; it ends only with the thread not READY or the quantum used up |
| Scheduling.StepUsesQuantum | src/scheduler.cpp:124-137 | a step under RR that leaves its thread READY takes exactly a quantum of ticks; a step under another policy takes one |
| Scheduling.RoundRobinTicks | src/scheduler.cpp:63-76 | so a READY thread is selected before more than (n - 1) quanta of ticks have passed |
| Scheduling.RemovalKeepsScanOrder | src/scheduler.cpp:193-206 | after a removal and the index adjustment, round robin scans the old order without the removed tid |
| BatchOptimality.WorkRaisesBound | src/scheduler.cpp:216-239 | giving a tick to any job never lowers the least possible sum of finish ticks, and keeps it when the job has the least work left |
| BatchOptimality.BoundAtEnd | src/scheduler.cpp:235-238 | when all work is done, that bound is the sum of the finish ticks |
| ShortestJobFirst.StepsAreOrder | src/scheduler.cpp:124-143 | the steps of run() under any policy and quantum are one order of dispatches of the jobs |
| ShortestJobFirst.NobodyBlocks | src/scheduler.cpp:139-143 | run() over a batch stops exactly when all its jobs are FINISHED |
| ShortestJobFirst.SliceOfJob | src/scheduler.cpp:241-260 | a round-robin slice of a job takes exactly the smaller of the quantum and the job's dispatches left, and finishes the job exactly in the second case |
| ShortestJobFirst.SjfIsOptimal | src/scheduler.cpp:96-112 | for a batch of threads that yield burst-time times and return, the sum of finish ticks under SJF is at most that under FIFO, PRIORITY, SJF or RR with any quantum |
| ShortestJobFirst.SjfBeatsAnyOrder | src/scheduler.cpp:96-112 | and at most that of any order of dispatches whatever |
| ShortestJobFirst.SjfWaitsLeast | src/scheduler.cpp:216-239 | among FIFO, SJF and PRIORITY, SJF has the least sum of first-run ticks |
| BatchOptimality.LeastWorkIsLeast | src/scheduler.cpp:96-112 | the jobs with the least work have together no more work than as many others |
| ShortestJobTicks.FinishedWorkIsPaid | src/scheduler.cpp:216-239 | in any order of dispatches, under any policy, the jobs finished by a tick have together no more work than the ticks since the start |
| ShortestJobTicks.SjfFinishTicks | src/scheduler.cpp:216-239 | under SJF each job finishes exactly as many ticks after the start as the jobs up to it, by burst time and tid, have bursts + 1 |
| ShortestJobTicks.SjfFinishesFirst | src/scheduler.cpp:96-112 | by any tick, no order of dispatches whatever has finished more jobs than SJF: its j-th completion is never later |
| ShortestJobTicks.SjfFinishesFirstOfAll | src/scheduler.cpp:96-112 | in particular neither FIFO nor PRIORITY nor RR with any quantum has |
| Threads.TCB.SetState | src/tcb.cpp:38-64 | true exactly for READY to RUNNING, RUNNING to READY, BLOCKED or FINISHED, and BLOCKED to READY; only then does the state change |
| Threads.TCB.MarkFinished | src/tcb.cpp:98-103 | a RUNNING thread, and no other, becomes FINISHED and marked so |
| Threads.ThreadPool.CreateThread | src/thread_pool.cpp:10-14 | the new thread gets a tid nobody has or had, the last place, the given priority, burst time and program, and is READY at its start; all other rows of the pool stay |
| Threads.ThreadPool.GetThread | src/thread_pool.cpp:26-33 | the thread of that tid, or nothing exactly when there is none |
| Threads.ThreadPool.RemoveThread | src/thread_pool.cpp:16-24 | true exactly if there is a thread of that tid; it goes, with its row, and the order of the others stays |
| Runtime.Mutex.Lock | src/mutex.cpp:27-47 | nothing for the owner; a free mutex becomes the caller's; else the caller is the last in the wait queue and BLOCKED, with wait edge and verdict, as the machine's lock says |
| Runtime.Mutex.LockRound | src/mutex.cpp:33-46 | one round of the loop, up to blockCurrent() or the end: the mutex is the caller's, or the caller is the last in its wait queue and BLOCKED |
| Runtime.Mutex.Relock | src/mutex.cpp:41-46 | after the switch back: the wait edge goes and the loop goes on |
| Runtime.Mutex.TryLock | src/mutex.cpp:49-65 | true exactly if the mutex was free or already the caller's, which owns it then; else nothing changes; never blocks, never queues |
| Runtime.Mutex.Unlock | src/mutex.cpp:67-85 | without effect unless called by the owner; else free, edge gone, the first waiter READY and out of the queue, nobody else's state changed |
| Runtime.Semaphore.Wait | src/semaphore.cpp:21-33 | one round of the loop: a unit is taken, or at count 0 the caller is the last in the wait queue and BLOCKED |
| Runtime.Semaphore.Signal | src/semaphore.cpp:35-46 | one unit more; the first waiter READY and out of the queue, nobody else's state changed |
| Runtime.ConditionVariable.Wait | src/condition_variable.cpp:18-28 | without effect unless the caller owns the mutex; else the caller is the last in the wait queue and BLOCKED, the mutex is free and its first waiter out of the queue |
| RuntimeSteps.QueueThenUnlock | src/condition_variable.cpp:24-26 | queueing the caller before the mutex is released, as the code does, comes to the same as queueing it afterwards, and the caller is still RUNNING when it blocks |
| Runtime.ConditionVariable.Signal | src/condition_variable.cpp:30-41 | the first waiter, if any, is READY and out of the queue, nobody else's state changed |
| Runtime.ConditionVariable.Broadcast | src/condition_variable.cpp:43-54 | the queue is empty and all who waited are READY, nobody else's state changed |
| Runtime.RingBuffer.Put | src/ring_buffer.cpp:19-21 | the item is in the cell at tail, tail and count move on, no other cell changes: the specification of the write |
| Runtime.RingBuffer.Take | src/ring_buffer.cpp:36-38 | the item in the cell at head is returned, head and count move on, no cell changes: the specification of the read |
| Runtime.Scheduler.WakeThread | src/scheduler.cpp:185-191 | true exactly for a thread that is BLOCKED or RUNNING; then it, and no other, is READY, else nothing changes |
| Runtime.Scheduler.YieldCurrent | src/scheduler.cpp:149-156 | the running thread is READY and the switch reason says yield |
| Runtime.Scheduler.BlockCurrent | src/scheduler.cpp:158-165 | the running thread is BLOCKED and the switch reason says block |
| Runtime.Scheduler.ExitCurrent | src/scheduler.cpp:167-175 | the running thread is FINISHED for good |
| Runtime.Scheduler.RunOp | src/scheduler.cpp:8-15 | one operation of the running thread does to the objects what one step of the machine does to its state |
| Runtime.Scheduler.SelectFIFO | src/scheduler.cpp:53-61 | the READY thread that is first in the pool, or nothing exactly when nobody is READY |
| Runtime.Scheduler.SelectRR | src/scheduler.cpp:63-76 | the READY thread nearest to the index in cyclic order, the index moving one past it |
| Runtime.Scheduler.SelectPriority | src/scheduler.cpp:78-94 | the READY thread with the least priority number, ties to the smaller tid |
| Runtime.Scheduler.SelectSJF | src/scheduler.cpp:96-112 | the READY thread with the least burst time, ties to the smaller tid |
| Runtime.Scheduler.DispatchThread | src/scheduler.cpp:216-239 | the first-run tick once, running until a switch, one tick of the clock, the finish tick of a thread that has finished: the machine's dispatch, and no thread is left RUNNING |
| Runtime.Scheduler.RunRoundRobinSlice | src/scheduler.cpp:241-260 | dispatches of the same thread as long as it yields, a quantum of them: it ends READY only when the whole quantum of ticks is used |
| Runtime.Scheduler.Step | src/scheduler.cpp:124-137 | false exactly when nobody is READY, leaving everything as it was; else one slice of the thread the policy prefers: under RR it ends READY only after a whole quantum of ticks, under the others it has one tick |
| Runtime.Scheduler.Run | src/scheduler.cpp:139-143 | terminates, by steps of the policy, with nobody READY; over mutex-only threads with all FINISHED exactly when the detector's graph has no cycle and nobody waits for a FINISHED owner |
| Runtime.Scheduler.JoinThread | src/uthread.cpp:34-46 | terminates; true exactly when the thread is FINISHED, false only for an unknown tid or when nobody is READY; no step is made once the thread is FINISHED |
| RuntimeSteps.SpawnKeeps | src/uthread.cpp:9-16 | a new READY thread with a fresh tid and a program whose wait loops own their mutex keeps the kernel and scheduler invariants |
| Runtime.Scheduler.CreateThread | src/uthread.cpp:9-16 | a thread with the given priority, burst time and program, READY at its start, at the last place; if its wait loops own their mutex every invariant is kept, and the start state stays a start state |
| RuntimeSteps.RemovalKeeps | src/uthread.cpp:18-28 | the invariants survive the removal exactly when the thread owns no mutex, is not BLOCKED or woken inside lock(), and is not a woken waiter that a unit of a semaphore with further waiters counts on |
| Runtime.Scheduler.RemoveThread | src/uthread.cpp:18-28 | true exactly for a known tid; all tables and the pool lose that thread's row and nothing else, the cyclic scan order is the old one without that tid, and objects and state still agree |
| Runtime.Scheduler.AdjustRRIndex | src/scheduler.cpp:193-206 | the index moves back by one if it was past the place, and to 0 if it is past the end |
| PageReplacement.AccessKeeps | src/virtual_memory.cpp:21-94 | the accessed page is resident, the list has no duplicates, and exactly the oldest (FIFO) or least recently used (LRU) page leaves, only on a fault with all frames taken |
| PageReplacement.LruIsRecencyPrefix | src/virtual_memory.cpp:21-66 | with k frames the LRU list is the k-prefix of the move-to-front list of the whole history |
| PageReplacement.LruInclusion | src/virtual_memory.cpp:82-94 | so it is a prefix of the list with more frames, and more frames never fault more |
| FifoFrames.FifoIsLoadOrder | src/virtual_memory.cpp:68-80 | with k frames the FIFO list is the k pages loaded last, in the order of loading, and every load is a fault |
| FifoFrames.CoveredFaults | src/virtual_memory.cpp:68-80 | a FIFO memory of at least 2k - 1 frames beside one of k: if all but n pages of the smaller are in the larger and not close to leaving it, the larger faults at most n times more, whatever comes |
| FifoFrames.Anomaly | src/virtual_memory.cpp:68-80 | Belady's anomaly for every pair of sizes k < more < 2k - 1: some sequence faults more often with more frames |
| FifoFrames.MoreFramesNeverHurt | src/virtual_memory.cpp:68-80 | FIFO with `more` frames never faults more than with k, whatever the sequence, exactly when more = k or more >= 2k - 1 |
| FifoFrames.FewPages | src/virtual_memory.cpp:68-80 | on sequences with no more distinct pages than frames, it never does either |
| PageReplacement.StretchFaults | src/virtual_memory.cpp:21-94 | in a stretch with at most k distinct pages each page faults at most once, under FIFO and under LRU |
| PageReplacement.Competitive | src/virtual_memory.cpp:21-94 | from an empty memory, FIFO and LRU fault at most k times as often as any replacement schedule with the same k frames |
| VirtualMemorySimulator.FullWhenNoFrameFree | src/virtual_memory.cpp:38-52 | the resident pages are as many as the occupied frames, so a victim is needed exactly when no frame is free |
| VirtualMemorySimulator.FaultKeepsAgreement | src/virtual_memory.cpp:47-63 | a fault keeps page table and frames in bijection and the active list listing exactly the resident pages |
| VirtualMemorySimulator.VirtualMemory.AccessPage | src/virtual_memory.cpp:21-66 | out of range: false and nothing changes; else hit exactly when resident, list and counters as specified, and a fault changes one frame, the first free one if any |
| VirtualMemorySimulator.VirtualMemory.ReplaceFIFO | src/virtual_memory.cpp:68-80 | the oldest page's frame goes to the new page, which joins the back; the old entry is invalid |
| VirtualMemorySimulator.VirtualMemory.ReplaceLRU | src/virtual_memory.cpp:82-94 | the least recently used page's frame goes to the new page, which joins the front; the old entry is invalid |
| VirtualMemorySimulator.VirtualMemory.Reset | src/virtual_memory.cpp:128-138 | memory empty, counters zero, invariant restored from any state |
| VirtualMemorySimulator.VirtualMemory.SetAlgorithm | src/virtual_memory.cpp:109-112 | the new algorithm starts on an empty memory |
| VirtualMemorySimulator.VirtualMemory.RunDemo | src/virtual_memory.cpp:140-158 | over a whole sequence the counters equal the fault function, and from an empty memory the faults are at most num_frames times those of any schedule |
| Partitions.PartitionAllocator.Allocate | src/partition_allocator.cpp:13-62 | -1 exactly when the size is not positive or no free interval of that length exists; first fit returns the lowest address with room, best fit the lowest of the smallest maximal holes; exactly the granted units change owner |
| Partitions.PartitionAllocator.Reclaim | src/partition_allocator.cpp:64-81 | true exactly when the job owns a unit; exactly its units become free, and no two free blocks touch |
| Partitions.PartitionAllocator.MergeAdjacentFree | src/partition_allocator.cpp:83-97 | the loop computes the merge of all neighbouring free blocks |
| Partitions.ReclaimedKeeps | src/partition_allocator.cpp:64-97 | the blocks still tile memory, no two free blocks touch, and the unit map loses exactly the job's units |
| Partitions.AllocatedKeeps | src/partition_allocator.cpp:43-57 | the split keeps the blocks tiling memory without touching free blocks |
| Partitions.AllocateThenReclaim | src/partition_allocator.cpp:13-97 | allocating to a job that owns nothing and reclaiming it restores the block list exactly |
| Partitions.HoleIsFreeBlock | src/partition_allocator.cpp:83-97 | with no two free blocks touching, every maximal free interval is a free block of the list |
| Partitions.FreeBlockIsHole | src/partition_allocator.cpp:83-97 | and every free block is a maximal free interval |
| Partitions.PartitionAllocator.FreeBlockCount | src/partition_allocator.cpp:120-126 | the number of holes of the unit map |
| Partitions.PartitionAllocator.TotalFreeSize | src/partition_allocator.cpp:128-134 | the number of free units |
| FileSystem.VirtualFS.constructor | src/virtual_fs.cpp:8-19 | no files, all 128 blocks free |
| FileSystem.VirtualFS.FindFile | src/virtual_fs.cpp:21-28 | an inode of that name exactly when the file exists |
| FileSystem.VirtualFS.AllocBlock | src/virtual_fs.cpp:30-38 | the lowest free block, or -1 exactly when none is free |
| FileSystem.VirtualFS.FreeBlock | src/virtual_fs.cpp:40-45 | the bit is clear and the block zero; an id that is not a block's is ignored |
| FileSystem.VirtualFS.Create | src/virtual_fs.cpp:47-65 | succeeds exactly for a new name of 1 to 31 characters with fewer than 32 files; the file is empty and has the first unused inode, the others are untouched |
| FileSystem.VirtualFS.Write | src/virtual_fs.cpp:67-106 | succeeds exactly when the file exists, the data has at most 8 * 64 bytes and at most 64 times as many as there are blocks free or its own; then it holds the data, in the least number of blocks; a failed write leaves it empty, without blocks if the data was too large, with all the blocks there were if they ran out; no block is lost and no other file changes |
| FileSystem.VirtualFS.Read | src/virtual_fs.cpp:108-125 | the contents of the file exactly as last written, or nothing |
| FileSystem.VirtualFS.Delete | src/virtual_fs.cpp:127-143 | 0 exactly when the file existed; it is gone, its blocks are free, the others untouched |
| FileSystem.GatherWritten | src/virtual_fs.cpp:88-122 | data cut into chunks over as many blocks as it needs reads back whole |
| FileSystem.ErasedKeeps | src/virtual_fs.cpp:75-80 | giving blocks back keeps each set bit owned by one slot of one used inode and free blocks zero |
| FileSystem.ExtendedKeeps | src/virtual_fs.cpp:89-99 | so does adding a newly allocated block; no other file's contents change |
| FileSystem.RoomForFile | src/virtual_fs.cpp:53-64 | an unused inode exists exactly when there are fewer than 32 files |

## Left out

- The context switch itself, stacks and their allocation (src/context.cpp, src/tcb.cpp:177-180): a switch is the end of an atomic step, and the thread's program and resume point stand for its stack.
- Printing, menus, layouts and the text of the reported cycle: the cycle is a sequence of nodes.
- Wall-clock times, process ids, averages and the fault rate in floating point: ticks and sums are integers.
- Thread programs are finite and loop-free: a client loop is unrolled as often as it runs, so a thread that loops for ever is not modelled.
- Calls made outside a running thread, which the primitives ignore (src/mutex.cpp:29, src/semaphore.cpp:23): primitives are called by the running thread.
- `clear`, and removals as steps of a run: a removal happens between two runs, with the queues, owners and graph as they are.
- Runtime.Scheduler.CreateThread: asks for a finite program whose wait loops run only while it owns the mutex, because one that does not can keep a dispatch from ever ending.
- Runtime.RingBuffer.Take: requires an item to be there, because `consume` checks this under the mutex before it reads.
- UThreadRuntime and ThreadPool wrappers that only forward a call, getters, and the clamping of priorities and burst times: they would only add easy members.
- The C arrays of an inode's name and block ids: a name is a sequence of 1 to 31 characters, and the first block_count ids are a sequence.
- The order in which `detect` tries its roots, which a hash map decides: any order is allowed.
