/** The thread library as the objects it is made of: mutexes, semaphores, condition variables,
    the ring buffer and the scheduler, updated in place. Every method is proved to do to the
    objects exactly what the machine of the other modules does to its state. */
module Runtime {
  import opened Collections
  import opened WaitGraph
  import opened DeadlockDetection
  import opened Kernel
  import opened Machine
  import opened WaitQueues
  import opened Termination
  import opened Deadlock
  import opened RuntimeSteps
  import opened Scheduling
  import opened Threads

  datatype SwitchReason = NONE | YIELD | BLOCK | EXIT

  /** The first of the waiters is out of the queue and, as it was BLOCKED, READY; nobody else
      changes state. */
  ghost predicate FirstWoken(waiters: seq<int>, left: seq<int>, k: Kernel, k': Kernel) {
    if waiters == [] then left == [] && k'.states == k.states
    else
      && left == waiters[1..]
      && (Is(k, waiters[0], BLOCKED) ==> k'.states == k.states[waiters[0] := READY])
  }

  /** The waiters are READY; nobody else changes state. */
  ghost predicate AllWoken(waiters: seq<int>, k: Kernel, k': Kernel) {
    && (forall t :: t in waiters ==> Is(k', t, READY))
    && (forall t :: t in k.states && t !in waiters ==> t in k'.states && k'.states[t] == k.states[t])
  }

  /** The array part of the ring buffer. */
  class RingBuffer {
    const buffer: array<int>
    var head: nat
    var tail: nat
    var count: nat
    ghost var written: seq<int>
    ghost var read: seq<int>

    ghost predicate Valid()
      reads this
    {
      head < buffer.Length && tail < buffer.Length
    }

    ghost function View(): Ring
      reads this, buffer
    {
      Ring(buffer[..], head, tail, count, written, read)
    }

    constructor (capacity: nat)
      requires 0 < capacity
      ensures Valid() && fresh(buffer) && View() == Ring(seq(capacity, _ => 0), 0, 0, 0, [], [])
    {
      buffer := new int[capacity](_ => 0);
      head, tail, count, written, read := 0, 0, 0, [], [];
      new;
      assert buffer[..] == seq(capacity, _ => 0);
    }

    method Put(item: int)
      requires Valid()
      modifies this, buffer
      ensures Valid() && View() == PutItem(old(View()), item)
      ensures buffer[old(tail)] == item && written == old(written) + [item] && count == old(count) + 1
      ensures head == old(head) && read == old(read) && tail == (old(tail) + 1) % buffer.Length
      ensures forall i :: 0 <= i < buffer.Length && i != old(tail) ==> buffer[i] == old(buffer[i])
    {
      buffer[tail] := item;
      tail := (tail + 1) % buffer.Length;
      count := count + 1;
      written := written + [item];
    }

    method Take() returns (item: int)
      requires Valid() && 0 < count
      modifies this, buffer
      ensures Valid() && View() == TakeItem(old(View())) && item == old(buffer[head])
      ensures read == old(read) + [item] && count == old(count) - 1 && head == (old(head) + 1) % buffer.Length
      ensures tail == old(tail) && written == old(written) && buffer[..] == old(buffer[..])
    {
      item := buffer[head];
      read := read + [item];
      head := (head + 1) % buffer.Length;
      count := count - 1;
    }
  }

  /** mutex.cpp; `lock` is split at its switch: LockRound is one round of its loop. */
  class Mutex {
    const id: nat
    var locked: bool
    var ownerTid: int
    var waitQueue: seq<int>

    constructor (mutexId: nat)
      ensures Is(mutexId, NoOwner, [])
    {
      id, locked, ownerTid, waitQueue := mutexId, false, NoOwner, [];
    }

    ghost predicate Is(m: nat, owner: int, queue: seq<int>)
      reads this
    {
      id == m && ownerTid == owner && locked == (owner != NoOwner) && waitQueue == queue
    }

    ghost predicate Of(sched: Scheduler) {
      id < |sched.mutexes| && sched.mutexes[id] == this
    }

    twostate predicate Same()
      reads this
    {
      locked == old(locked) && ownerTid == old(ownerTid) && waitQueue == old(waitQueue)
    }

    /** A free mutex has become the caller's; of a locked one, the caller is the last waiter. */
    twostate predicate TookOrQueued(caller: TCB)
      reads this, caller
    {
      if old(locked) then
        locked && ownerTid == old(ownerTid) && waitQueue == old(waitQueue) + [caller.tid] && caller.state == BLOCKED
      else
        locked && ownerTid == caller.tid && waitQueue == old(waitQueue) && caller.state == RUNNING
    }

    method Lock(sched: Scheduler)
      requires sched.Tied() && sched.Running() && Of(sched)
      modifies sched`owner, sched`queues, sched`verdicts, sched`lastSwitch, sched.pool`table, sched.current, this, sched.detector
      ensures sched.Tied() && sched.View() == WithKernel(old(sched.View()), LockCall(old(sched.K()), sched.current.tid, id))
      ensures sched.Running() || (sched.current.state == BLOCKED && sched.lastSwitch == BLOCK)
      ensures old(ownerTid) == sched.current.tid ==> Same() && sched.Running()
      ensures old(ownerTid) != sched.current.tid ==> TookOrQueued(sched.current)
    {
      if ownerTid == sched.current.tid { return; }
      LockRound(sched);
    }

    method LockRound(sched: Scheduler)
      requires sched.Tied() && sched.Running() && Of(sched)
      modifies sched`owner, sched`queues, sched`verdicts, sched`lastSwitch, sched.pool`table, sched.current, this, sched.detector
      ensures sched.Tied() && sched.View() == WithKernel(old(sched.View()), LockLoop(old(sched.K()), sched.current.tid, id))
      ensures sched.Running() || (sched.current.state == BLOCKED && sched.lastSwitch == BLOCK)
      ensures TookOrQueued(sched.current)
    {
      hide Scheduler.Tied, RingBuffer.View, HasCycle;
      sched.MutexIs(this);
      if locked {
        Announce(sched);
        Enqueue(sched);
        sched.BlockCurrent(InLock(id));
      } else {
        Take(sched);
      }
    }

    /** The wait edge goes in and the detector runs. */
    method Announce(sched: Scheduler)
      requires sched.Tied() && sched.Running() && Of(sched)
      modifies sched`verdicts, sched.detector
      ensures sched.Tied() && sched.K() == AnnounceWait(old(sched.K()), sched.current.tid, id)
    {
      hide ThreadPool.Valid, RingBuffer.Valid, HasCycle;
      hide Scheduler.MutexesTied, Scheduler.SemaphoresTied, Scheduler.ConditionsTied;
      sched.detector.AddWaitEdge(sched.current.tid, id);
      var deadlocked := sched.detector.Detect();
      sched.verdicts := sched.verdicts + [deadlocked];
    }

    method Enqueue(sched: Scheduler)
      requires sched.Tied() && sched.Running() && Of(sched)
      modifies sched`queues, this`waitQueue
      ensures sched.Tied() && sched.queues == old(sched.queues)[MutexQ(id) := QueueIn(old(sched.queues), MutexQ(id)) + [sched.current.tid]]
      ensures waitQueue == old(waitQueue) + [sched.current.tid]
    {
      hide ThreadPool.Valid, RingBuffer.Valid, Scheduler.SemaphoresTied, Scheduler.ConditionsTied;
      sched.MutexAt(id);
      sched.OtherQueues(MutexQ(id), waitQueue + [sched.current.tid]);
      waitQueue := waitQueue + [sched.current.tid];
      sched.queues := sched.queues[MutexQ(id) := waitQueue];
    }

    /** Become the owner of a free mutex. */
    method Take(sched: Scheduler)
      requires sched.Tied() && sched.Running() && Of(sched) && !locked
      modifies sched`owner, this`locked, this`ownerTid, sched.detector
      ensures sched.Tied() && sched.View() == WithKernel(old(sched.View()), Acquire(old(sched.K()), sched.current.tid, id))
      ensures locked && ownerTid == sched.current.tid
    {
      hide ThreadPool.Valid, RingBuffer.Valid, RingBuffer.View;
      hide Scheduler.MutexesTied, Scheduler.SemaphoresTied, Scheduler.ConditionsTied;
      SetOwner(sched, sched.current.tid);
      sched.detector.AddHoldEdge(id, sched.current.tid);
    }

    method SetOwner(sched: Scheduler, tid: int)
      requires sched.Tied() && Of(sched)
      modifies sched`owner, this`locked, this`ownerTid
      ensures sched.Tied() && sched.owner == old(sched.owner)[id := tid]
      ensures ownerTid == tid && locked == (tid != NoOwner)
    {
      hide ThreadPool.Valid, RingBuffer.Valid, Scheduler.SemaphoresTied, Scheduler.ConditionsTied;
      locked := tid != NoOwner;
      ownerTid := tid;
      sched.owner := sched.owner[id := tid];
    }

    /** What follows blockCurrent() in lock(): the wait edge goes, and the loop goes on. */
    method Relock(sched: Scheduler)
      requires sched.Tied() && sched.Running() && Of(sched)
      modifies sched`owner, sched`queues, sched`verdicts, sched`lastSwitch, sched.pool`table, sched.current, this, sched.detector
      ensures sched.Tied()
      ensures var k := old(sched.K());
              var e := k.(graph := RemoveEdge(k.graph, ThreadNode(sched.current.tid), MutexNode(id)));
              sched.View() == WithKernel(old(sched.View()), LockLoop(e, sched.current.tid, id))
      ensures sched.Running() || (sched.current.state == BLOCKED && sched.lastSwitch == BLOCK)
      ensures TookOrQueued(sched.current)
    {
      hide ThreadPool.Valid, RingBuffer.Valid, RingBuffer.View, LockLoop;
      hide Scheduler.MutexesTied, Scheduler.SemaphoresTied, Scheduler.ConditionsTied;
      sched.detector.RemoveWaitEdge(sched.current.tid, id);
      LockRound(sched);
    }

    method TryLock(sched: Scheduler) returns (ok: bool)
      requires sched.Tied() && sched.Running() && Of(sched)
      modifies sched`owner, this`locked, this`ownerTid, sched.detector
      ensures sched.Tied() && sched.View() == WithKernel(old(sched.View()), TryLockCall(old(sched.K()), sched.current.tid, id))
      ensures ok == TryLockResult(old(sched.K()), sched.current.tid, id)
      ensures ok <==> !old(locked) || old(ownerTid) == sched.current.tid
      ensures if ok then locked && ownerTid == sched.current.tid else Same()
    {
      hide ThreadPool.Valid, RingBuffer.Valid, RingBuffer.View;
      hide Scheduler.MutexesTied, Scheduler.SemaphoresTied, Scheduler.ConditionsTied;
      sched.MutexAt(id);
      if ownerTid == sched.current.tid { return true; }
      if locked { return false; }
      Take(sched);
      return true;
    }

    /** Only the owner's call has an effect: the mutex is free and its longest waiter READY. */
    method Unlock(sched: Scheduler)
      requires sched.Tied() && sched.Running() && Of(sched)
      modifies sched`owner, sched`queues, sched.pool`table, sched.pool.threads, this, sched.detector
      ensures sched.Tied() && sched.View() == WithKernel(old(sched.View()), UnlockCall(old(sched.K()), sched.current.tid, id))
      ensures if old(ownerTid) == sched.current.tid
              then !locked && ownerTid == NoOwner && FirstWoken(old(waitQueue), waitQueue, old(sched.K()), sched.K())
              else Same() && sched.K() == old(sched.K())
    {
      hide ThreadPool.Valid, RingBuffer.Valid, RingBuffer.View, PopWake;
      hide Scheduler.MutexesTied, Scheduler.SemaphoresTied, Scheduler.ConditionsTied;
      sched.MutexAt(id);
      if !locked || ownerTid != sched.current.tid { return; }
      GiveUp(sched);
      WakeFirst(sched);
    }

    method GiveUp(sched: Scheduler)
      requires sched.Tied() && sched.Running() && Of(sched)
      modifies sched`owner, this`locked, this`ownerTid, sched.detector
      ensures sched.Tied() && sched.View() == WithKernel(old(sched.View()), Release(old(sched.K()), sched.current.tid, id))
      ensures !locked && ownerTid == NoOwner
    {
      hide ThreadPool.Valid, RingBuffer.Valid, RingBuffer.View;
      hide Scheduler.MutexesTied, Scheduler.SemaphoresTied, Scheduler.ConditionsTied;
      sched.detector.RemoveHoldEdge(id, sched.current.tid);
      SetOwner(sched, NoOwner);
    }

    method WakeFirst(sched: Scheduler)
      requires sched.Tied() && Of(sched)
      modifies sched`queues, sched.pool`table, sched.pool.threads, this`waitQueue
      ensures sched.Tied() && sched.View() == WithKernel(old(sched.View()), PopWake(old(sched.K()), MutexQ(id)))
      ensures FirstWoken(old(waitQueue), waitQueue, old(sched.K()), sched.K())
    {
      hide ThreadPool.Valid, RingBuffer.Valid, RingBuffer.View;
      hide Scheduler.MutexesTied, Scheduler.SemaphoresTied, Scheduler.ConditionsTied;
      sched.MutexAt(id);
      if |waitQueue| != 0 {
        var next := Pop(sched);
        var ok := sched.WakeThread(next);
      }
    }

    method Pop(sched: Scheduler) returns (next: int)
      requires sched.Tied() && Of(sched) && waitQueue != []
      modifies sched`queues, this`waitQueue
      ensures sched.Tied() && next == old(waitQueue[0])
      ensures sched.queues == old(sched.queues)[MutexQ(id) := old(waitQueue)[1..]] && waitQueue == old(waitQueue)[1..]
    {
      hide ThreadPool.Valid, RingBuffer.Valid, Scheduler.SemaphoresTied, Scheduler.ConditionsTied;
      sched.OtherQueues(MutexQ(id), waitQueue[1..]);
      next := waitQueue[0];
      waitQueue := waitQueue[1..];
      sched.queues := sched.queues[MutexQ(id) := waitQueue];
    }
  }

  class Semaphore {
    const id: nat
    var count: nat
    var waitQueue: seq<int>

    constructor (semaphoreId: nat, initialCount: int)
      ensures Is(semaphoreId, if initialCount < 0 then 0 else initialCount, [])
    {
      id, count, waitQueue := semaphoreId, if initialCount < 0 then 0 else initialCount, [];
    }

    ghost predicate Is(s: nat, units: nat, queue: seq<int>)
      reads this
    {
      id == s && count == units && waitQueue == queue
    }
  
    ghost predicate Of(sched: Scheduler) {
      id < |sched.semaphores| && sched.semaphores[id] == this
    }

    /** wait(), up to its return or its switch, from the call or from a resumption: one round
        of its loop. */
    method Wait(sched: Scheduler)
      requires sched.Tied() && sched.Running() && Of(sched)
      modifies sched`count, sched`queues, sched`lastSwitch, sched.pool`table, sched.current, this
      ensures sched.Tied() && sched.View() == WithKernel(old(sched.View()), SemLoop(old(sched.K()), sched.current.tid, id))
      ensures sched.Running() || (sched.current.state == BLOCKED && sched.lastSwitch == BLOCK)
      ensures if old(count) == 0
              then count == 0 && waitQueue == old(waitQueue) + [sched.current.tid] && sched.current.state == BLOCKED
              else count == old(count) - 1 && waitQueue == old(waitQueue) && sched.current.state == RUNNING
    {
      hide Scheduler.Tied, RingBuffer.View;
      sched.SemaphoreIs(this);
      if count == 0 {
        Enqueue(sched);
        sched.BlockCurrent(InSem(id));
      } else {
        SetCount(sched, count - 1);
      }
    }

    method Enqueue(sched: Scheduler)
      requires sched.Tied() && sched.Running() && Of(sched)
      modifies sched`queues, this`waitQueue
      ensures sched.Tied() && sched.queues == old(sched.queues)[SemQ(id) := QueueIn(old(sched.queues), SemQ(id)) + [sched.current.tid]]
      ensures waitQueue == old(waitQueue) + [sched.current.tid]
    {
      hide ThreadPool.Valid, RingBuffer.Valid;
      sched.SemaphoreAt(id);
      waitQueue := waitQueue + [sched.current.tid];
      sched.queues := sched.queues[SemQ(id) := waitQueue];
    }

    method SetCount(sched: Scheduler, units: nat)
      requires sched.Tied() && Of(sched)
      modifies sched`count, this`count
      ensures sched.Tied() && count == units && sched.count == old(sched.count)[id := units]
    {
      hide ThreadPool.Valid, RingBuffer.Valid, Scheduler.MutexesTied, Scheduler.ConditionsTied;
      count := units;
      sched.count := sched.count[id := units];
    }

    method Signal(sched: Scheduler)
      requires sched.Tied() && Of(sched)
      modifies sched`count, sched`queues, sched.pool`table, sched.pool.threads, this
      ensures sched.Tied() && sched.View() == WithKernel(old(sched.View()), SemSignalCall(old(sched.K()), id))
      ensures count == old(count) + 1 && FirstWoken(old(waitQueue), waitQueue, old(sched.K()), sched.K())
    {
      hide ThreadPool.Valid, RingBuffer.Valid, RingBuffer.View;
      hide Scheduler.MutexesTied, Scheduler.SemaphoresTied, Scheduler.ConditionsTied;
      sched.SemaphoreAt(id);
      SetCount(sched, count + 1);
      if |waitQueue| != 0 {
        var next := Pop(sched);
        var ok := sched.WakeThread(next);
      }
    }

    method Pop(sched: Scheduler) returns (next: int)
      requires sched.Tied() && Of(sched) && waitQueue != []
      modifies sched`queues, this`waitQueue
      ensures sched.Tied() && next == old(waitQueue[0])
      ensures sched.queues == old(sched.queues)[SemQ(id) := old(waitQueue)[1..]] && waitQueue == old(waitQueue)[1..]
    {
      hide ThreadPool.Valid, RingBuffer.Valid;
      next := waitQueue[0];
      waitQueue := waitQueue[1..];
      sched.queues := sched.queues[SemQ(id) := waitQueue];
    }
  }

  class ConditionVariable {
    const id: nat
    var waitQueue: seq<int>

    constructor (conditionId: nat)
      ensures Is(conditionId, [])
    {
      id, waitQueue := conditionId, [];
    }

    ghost predicate Is(c: nat, queue: seq<int>)
      reads this
    {
      id == c && waitQueue == queue
    }
  
    ghost predicate Of(sched: Scheduler) {
      id < |sched.conditions| && sched.conditions[id] == this
    }

    /** wait(), up to its switch; a caller that does not own the mutex returns at once. */
    method Wait(sched: Scheduler, mutex: Mutex)
      requires sched.Tied() && sched.Running() && Of(sched) && mutex.Of(sched) && KernelInv(sched.K())
      modifies sched`owner, sched`queues, sched`lastSwitch, sched.pool`table, sched.pool.threads, this, mutex, sched.detector
      ensures sched.Tied()
      ensures sched.View() == WithKernel(old(sched.View()), CvWaitCall(old(sched.K()), sched.current.tid, id, mutex.id))
      ensures sched.Running() || (sched.current.state == BLOCKED && sched.lastSwitch == BLOCK)
      ensures if old(mutex.ownerTid) == sched.current.tid
              then waitQueue == old(waitQueue) + [sched.current.tid] && sched.current.state == BLOCKED
                && !mutex.locked && mutex.waitQueue == old(mutex.waitQueue)[One(old(mutex.waitQueue))..]
              else waitQueue == old(waitQueue) && sched.K() == old(sched.K()) && sched.Running()
    {
      hide Scheduler.Tied, RingBuffer.View, UnlockCall, KernelInv;
      sched.MutexIs(mutex);
      if mutex.ownerTid != sched.current.tid { return; }
      QueueThenUnlock(sched.K(), sched.current.tid, id, mutex.id);
      Enqueue(sched);
      mutex.Unlock(sched);
      sched.StillRunning();
      sched.BlockCurrent(InCv(id, mutex.id));
    }

    method Enqueue(sched: Scheduler)
      requires sched.Tied() && sched.Running() && Of(sched)
      modifies sched`queues, this`waitQueue
      ensures sched.Tied() && sched.queues == old(sched.queues)[CvQ(id) := QueueIn(old(sched.queues), CvQ(id)) + [sched.current.tid]]
      ensures waitQueue == old(waitQueue) + [sched.current.tid]
    {
      hide ThreadPool.Valid, RingBuffer.Valid;
      sched.ConditionAt(id);
      waitQueue := waitQueue + [sched.current.tid];
      sched.queues := sched.queues[CvQ(id) := waitQueue];
    }

    method Signal(sched: Scheduler)
      requires sched.Tied() && Of(sched)
      modifies sched`queues, sched.pool`table, sched.pool.threads, this
      ensures sched.Tied() && sched.View() == WithKernel(old(sched.View()), CvSignalCall(old(sched.K()), id))
      ensures FirstWoken(old(waitQueue), waitQueue, old(sched.K()), sched.K())
    {
      hide ThreadPool.Valid, RingBuffer.Valid, RingBuffer.View;
      hide Scheduler.MutexesTied, Scheduler.SemaphoresTied, Scheduler.ConditionsTied;
      sched.ConditionAt(id);
      if |waitQueue| == 0 { return; }
      var next := Pop(sched);
      var ok := sched.WakeThread(next);
    }

    method Broadcast(sched: Scheduler)
      requires sched.Tied() && Of(sched)
      modifies sched`queues, sched.pool`table, sched.pool.threads, this
      ensures sched.Tied() && sched.View() == WithKernel(old(sched.View()), CvBroadcastCall(old(sched.K()), id))
      ensures waitQueue == [] && (old(KernelInv(sched.K())) ==> AllWoken(old(waitQueue), old(sched.K()), sched.K()))
    {
      hide ThreadPool.Valid, RingBuffer.Valid, RingBuffer.View, PopWake;
      hide Scheduler.MutexesTied, Scheduler.SemaphoresTied, Scheduler.ConditionsTied;
      sched.ConditionAt(id);
      ghost var k := sched.K();
      if KernelInv(k) { BroadcastWakesAll(k, id); }
      while |waitQueue| != 0
        invariant sched.Tied() && waitQueue == Queue(sched.K(), CvQ(id))
        invariant sched.View() == WithKernel(old(sched.View()), sched.K())
        invariant CvBroadcastCall(sched.K(), id) == CvBroadcastCall(old(sched.K()), id)
        decreases |waitQueue|
      {
        PopShortens(sched.K(), CvQ(id));
        Signal(sched);
        sched.ConditionAt(id);
      }
    }

    method Pop(sched: Scheduler) returns (next: int)
      requires sched.Tied() && Of(sched) && waitQueue != []
      modifies sched`queues, this`waitQueue
      ensures sched.Tied() && next == old(waitQueue[0])
      ensures sched.queues == old(sched.queues)[CvQ(id) := old(waitQueue)[1..]] && waitQueue == old(waitQueue)[1..]
    {
      hide ThreadPool.Valid, RingBuffer.Valid;
      next := waitQueue[0];
      waitQueue := waitQueue[1..];
      sched.queues := sched.queues[CvQ(id) := waitQueue];
    }
  }

  class Scheduler {
    const pool: ThreadPool
    var policy: Policy
    var quantum: nat
    var rrIndex: nat
    var clock: nat
    var current: TCB?
    var lastSwitch: SwitchReason
    const mutexes: seq<Mutex>
    const semaphores: seq<Semaphore>
    const conditions: seq<ConditionVariable>
    const detector: DeadlockDetector
    const ring: RingBuffer
    var shared: int
    ghost var owner: map<nat, int>
    ghost var count: map<nat, nat>
    ghost var queues: map<Channel, seq<int>>
    ghost var verdicts: seq<bool>

    /** The kernel state that the objects are in. */
    ghost function K(): Kernel
      reads this, pool, detector
    {
      Kernel(pool.table.states, pool.table.at, queues, owner, count, detector.graph, verdicts)
    }

    /** The state of the machine and the scheduler that the objects are in. */
    ghost function View(): Sched
      reads this, pool, detector, ring, ring.buffer
    {
      var v := pool.table;
      Sched(State(K(), v.prog, Memory(shared, ring.View())), v.order, v.priority, v.burst, v.firstRun, v.finish,
            policy, quantum, rrIndex, clock)
    }

    ghost predicate MutexesTied(owners: map<nat, int>, lists: map<Channel, seq<int>>)
      reads mutexes
    {
      forall m: nat :: m < |mutexes| ==> mutexes[m].Is(m, OwnerIn(owners, m), QueueIn(lists, MutexQ(m)))
    }

    ghost predicate SemaphoresTied(counts: map<nat, nat>, lists: map<Channel, seq<int>>)
      reads semaphores
    {
      forall s: nat :: s < |semaphores| ==> semaphores[s].Is(s, CountIn(counts, s), QueueIn(lists, SemQ(s)))
    }

    ghost predicate ConditionsTied(lists: map<Channel, seq<int>>)
      reads conditions
    {
      forall c: nat :: c < |conditions| ==> conditions[c].Is(c, QueueIn(lists, CvQ(c)))
    }

    /** The objects hold what K() and View() say. */
    ghost predicate Tied()
      reads this, pool, pool.threads, mutexes, semaphores, conditions, ring
    {
      && pool.Valid() && ring.Valid()
      && MutexesTied(owner, queues) && SemaphoresTied(count, queues) && ConditionsTied(queues)
    }

    ghost predicate Running()
      reads this, pool, detector, current
    {
      && current != null && current in pool.threads && current.state == RUNNING
      && 0 < current.tid && Is(K(), current.tid, RUNNING)
    }

    lemma MutexAt(m: nat)
      requires MutexesTied(owner, queues) && m < |mutexes|
      ensures mutexes[m].Is(m, Owner(K(), m), Queue(K(), MutexQ(m)))
    {
    }

    /** A change of one queue leaves the primitives of the other kinds tied. */
    lemma OtherQueues(ch: Channel, q: seq<int>)
      requires MutexesTied(owner, queues) && SemaphoresTied(count, queues) && ConditionsTied(queues)
      ensures !ch.MutexQ? ==> MutexesTied(owner, queues[ch := q])
      ensures !ch.SemQ? ==> SemaphoresTied(count, queues[ch := q])
      ensures !ch.CvQ? ==> ConditionsTied(queues[ch := q])
    {
    }

    lemma MutexIs(mutex: Mutex)
      requires Tied() && mutex.Of(this)
      ensures mutex.Is(mutex.id, Owner(K(), mutex.id), Queue(K(), MutexQ(mutex.id)))
    {
    }

    lemma MutexOf(m: nat)
      requires Tied() && m < |mutexes|
      ensures mutexes[m].Of(this) && mutexes[m].id == m
    {
      MutexAt(m);
    }

    lemma ConditionOf(c: nat)
      requires Tied() && c < |conditions|
      ensures conditions[c].Of(this) && conditions[c].id == c
    {
      ConditionAt(c);
    }

    lemma SemaphoreOf(s: nat)
      requires Tied() && s < |semaphores|
      ensures semaphores[s].Of(this) && semaphores[s].id == s
    {
      SemaphoreAt(s);
    }

    lemma SemaphoreIs(semaphore: Semaphore)
      requires Tied() && semaphore.Of(this)
      ensures semaphore.Is(semaphore.id, Count(K(), semaphore.id), Queue(K(), SemQ(semaphore.id)))
    {
    }

    lemma SemaphoreAt(s: nat)
      requires SemaphoresTied(count, queues) && s < |semaphores|
      ensures semaphores[s].Is(s, Count(K(), s), Queue(K(), SemQ(s)))
    {
    }

    lemma ConditionAt(c: nat)
      requires ConditionsTied(queues) && c < |conditions|
      ensures conditions[c].Is(c, Queue(K(), CvQ(c)))
    {
    }

    /** A new scheduler over an empty pool and primitives nobody uses yet. */
    constructor (p: ThreadPool, ms: seq<Mutex>, ss: seq<Semaphore>, cs: seq<ConditionVariable>, d: DeadlockDetector, r: RingBuffer)
      requires p.Valid() && p.table == Table([], map[], map[], map[], map[], map[], map[], map[])
      requires d.graph == map[] && r.Valid()
      requires forall m: nat :: m < |ms| ==> ms[m].Is(m, NoOwner, [])
      requires forall s: nat :: s < |ss| ==> ss[s].Is(s, ss[s].count, [])
      requires forall c: nat :: c < |cs| ==> cs[c].Is(c, [])
      ensures Tied() && Initial(View().ms) && SchedOk(View()) && current == null
      ensures pool == p && mutexes == ms && semaphores == ss && conditions == cs && detector == d && ring == r
      ensures policy == Policy.FIFO && quantum == 2 && clock == 0
    {
      pool, mutexes, semaphores, conditions, detector, ring := p, ms, ss, cs, d, r;
      policy, quantum, rrIndex, clock, current, lastSwitch, shared := Policy.FIFO, 2, 0, 0, null, NONE, 0;
      owner, queues, verdicts := map[], map[], [];
      count := map s: nat | s < |ss| :: ss[s].count;
    }

    /** blockCurrent(), up to the switch; `w` is where the thread will resume. */
    method BlockCurrent(w: Where)
      requires Tied() && Running()
      modifies this`lastSwitch, pool`table, current`state, current`at
      ensures Tied() && lastSwitch == BLOCK && current.state == BLOCKED
      ensures var k := old(K());
              View() == WithKernel(old(View()), k.(states := k.states[current.tid := BLOCKED], at := k.at[current.tid := w]))
    {
      hide ThreadPool.Valid, RingBuffer.Valid, RingBuffer.View, MutexesTied, SemaphoresTied, ConditionsTied;
      lastSwitch := BLOCK;
      pool.Block(current, w);
    }

    /** A thread of that tid becomes READY if it was BLOCKED (or RUNNING); true exactly then. */
    method WakeThread(tid: int) returns (ok: bool)
      requires Tied()
      modifies pool`table, pool.threads
      ensures Tied() && View() == WithKernel(old(View()), Wake(old(K()), tid))
      ensures ok <==> Is(old(K()), tid, BLOCKED) || Is(old(K()), tid, RUNNING)
      ensures ok ==> K().states == old(K()).states[tid := READY]
      ensures !ok ==> K() == old(K())
    {
      hide RingBuffer.Valid, RingBuffer.View, MutexesTied, SemaphoresTied, ConditionsTied, ThreadPool.Complete, ThreadPool.Numbered;
      var target := pool.GetThread(tid);
      pool.Known(tid);
      if target == null { return false; }
      ok := pool.SetState(target, READY);
    }

    /** The table says about the current thread what the object says. */
    lemma StillRunning()
      requires Tied() && current != null && current in pool.threads && Is(K(), current.tid, RUNNING)
      ensures Running()
    {
    }

    /** yield(), up to the switch. */
    method YieldCurrent()
      requires Tied() && Running()
      modifies this`lastSwitch, pool`table, current`state
      ensures Tied() && View() == WithKernel(old(View()), SetState(old(K()), current.tid, READY))
      ensures lastSwitch == SwitchReason.YIELD && current.state == READY
    {
      hide ThreadPool.Valid, RingBuffer.Valid, RingBuffer.View, MutexesTied, SemaphoresTied, ConditionsTied;
      lastSwitch := SwitchReason.YIELD;
      var ok := pool.SetState(current, READY);
    }

    /** exitCurrent(), up to the switch. */
    method ExitCurrent()
      requires Tied() && Running()
      modifies this`lastSwitch, pool`table, current`state, current`finished
      ensures Tied() && View() == WithKernel(old(View()), SetState(old(K()), current.tid, FINISHED))
      ensures lastSwitch == EXIT && current.state == FINISHED
    {
      hide ThreadPool.Valid, RingBuffer.Valid, RingBuffer.View, MutexesTied, SemaphoresTied, ConditionsTied;
      lastSwitch := EXIT;
      pool.MarkFinished(current);
    }

    // ---- one operation of the running thread ----

    ghost predicate Fit()
      reads this, pool, detector, ring, ring.buffer
    {
      AllFit(View().ms, |mutexes|, |semaphores|, |conditions|)
    }

    /** After a switch, its reason tells a yield from the rest. */
    ghost predicate Told()
      reads this, current
    {
      current != null && (current.state != RUNNING ==> (lastSwitch == SwitchReason.YIELD <==> current.state == READY))
    }

    /** What the object of the running thread says its next operation is. */
    lemma NextOp()
      requires Tied() && Running() && Fit()
      ensures current.tid in View().ms.prog && View().ms.prog[current.tid] == current.rest
      ensures Fits(current.rest, |mutexes|, |semaphores|, |conditions|)
    {
    }

    method Advance(next: Prog)
      requires Tied() && Running()
      modifies pool`table, current`rest
      ensures Tied() && Running() && K() == old(K())
      ensures View() == old(View()).(ms := old(View()).ms.(prog := old(View()).ms.prog[current.tid := next]))
    {
      hide RingBuffer.Valid, RingBuffer.View, MutexesTied, SemaphoresTied, ConditionsTied;
      pool.Advance(current, next);
    }

    function Test(g: Guard): bool
      reads this, ring
    {
      match g
      case RingFull => ring.count == ring.buffer.Length
      case RingEmpty => ring.count == 0
      case VarIs(value) => shared == value
    }

    method PerformAct(a: Act)
      requires Tied() && Running()
      modifies this`shared, ring, ring.buffer
      ensures Tied() && Running()
      ensures View() == old(View()).(ms := old(View()).ms.(mem := Perform(a, old(View()).ms.mem)))
      ensures a.AddVar? ==> shared == old(shared) + a.delta && unchanged(ring) && unchanged(ring.buffer)
      ensures a.Put? ==>
                && shared == old(shared) && ring.written == old(ring.written) + [a.item] && ring.read == old(ring.read)
                && ring.buffer[old(ring.tail)] == a.item && ring.count == old(ring.count) + 1
      ensures a.Take? && old(ring.count) > 0 ==>
                && shared == old(shared) && ring.read == old(ring.read) + [old(ring.buffer[ring.head])]
                && ring.written == old(ring.written) && ring.count == old(ring.count) - 1
    {
      hide ThreadPool.Valid, MutexesTied, SemaphoresTied, ConditionsTied;
      match a {
        case AddVar(delta) => shared := shared + delta;
        case Put(item) => ring.Put(item);
        case Take =>
          if 0 < ring.count {
            var item := ring.Take();
          }
      }
    }

    ghost predicate Runnable()
      reads this, pool, pool.threads, mutexes, semaphores, conditions, detector, ring, ring.buffer, current
    {
      Tied() && Running() && Fit() && Inv(View().ms) && Enabled(View().ms, Action.Run(current.tid))
    }

    method RunMutexOp()
      requires Runnable() && (current.rest.Lock? || current.rest.TryLock? || current.rest.Unlock?)
      modifies this`owner, this`queues, this`verdicts, this`lastSwitch, pool`table, pool.threads, mutexes, detector
      ensures Tied() && Told() && View() == old(View()).(ms := Ran(old(View()).ms, current.tid))
    {
      hide Tied, RingBuffer.View;
      hide LockCall, TryLockCall, UnlockCall, AllFit, KernelInv;
      NextOp();
      match current.rest {
        case Lock(m, next) =>
          Advance(next);
          MutexOf(m);
          mutexes[m].Lock(this);
        case TryLock(m, yes, no) =>
          MutexOf(m);
          var ok := mutexes[m].TryLock(this);
          Advance(if ok then yes else no);
        case Unlock(m, next) =>
          Advance(next);
          MutexOf(m);
          UnlockKeeps(K(), current.tid, m);
          mutexes[m].Unlock(this);
          StillRunning();
      }
    }

    method RunSemaphoreOp()
      requires Runnable() && (current.rest.SemWait? || current.rest.SemSignal?)
      modifies this`count, this`queues, this`lastSwitch, pool`table, pool.threads, semaphores
      ensures Tied() && Told() && View() == old(View()).(ms := Ran(old(View()).ms, current.tid))
    {
      hide Tied, RingBuffer.View;
      hide SemLoop, SemSignalCall, AllFit, KernelInv;
      NextOp();
      match current.rest {
        case SemWait(i, next) =>
          Advance(next);
          SemaphoreOf(i);
          semaphores[i].Wait(this);
        case SemSignal(i, next) =>
          Advance(next);
          SemaphoreOf(i);
          SemSignalLeavesRunning(K(), current.tid, i);
          semaphores[i].Signal(this);
          StillRunning();
      }
    }

    method RunConditionOp()
      requires Runnable() && (current.rest.CvSignal? || current.rest.CvBroadcast?)
      modifies this`queues, pool`table, pool.threads, conditions
      ensures Tied() && Told() && View() == old(View()).(ms := Ran(old(View()).ms, current.tid))
    {
      hide Tied, RingBuffer.View, CvSignalCall, CvBroadcastCall, AllFit, KernelInv;
      NextOp();
      match current.rest {
        case CvSignal(c, next) =>
          Advance(next);
          ConditionOf(c);
          SignalLeavesRunning(K(), current.tid, c);
          conditions[c].Signal(this);
          StillRunning();
        case CvBroadcast(c, next) =>
          Advance(next);
          ConditionOf(c);
          BroadcastLeavesRunning(K(), current.tid, c);
          conditions[c].Broadcast(this);
          StillRunning();
      }
    }

    method RunLocalOp()
      requires Runnable() && (current.rest.Done? || current.rest.Yield? || current.rest.Do? || current.rest.If?)
      modifies this`lastSwitch, this`shared, pool`table, pool.threads, ring, ring.buffer
      ensures Tied() && Told() && View() == old(View()).(ms := Ran(old(View()).ms, current.tid))
    {
      hide ThreadPool.Valid, RingBuffer.Valid, MutexesTied, SemaphoresTied, ConditionsTied;
      hide AllFit, KernelInv;
      NextOp();
      match current.rest {
        case Done =>
          ExitCurrent();
        case Yield(next) =>
          Advance(next);
          YieldCurrent();
        case Do(a, next) =>
          Advance(next);
          PerformAct(a);
        case If(g, yes, no) =>
          Advance(if Test(g) then yes else no);
      }
    }

    /** cv.wait(mutex), or one test of the guard of while (guard) cv.wait(mutex). */
    method RunWaitOp()
      requires Runnable() && (current.rest.CvWait? || current.rest.WaitWhile?)
      modifies this`owner, this`queues, this`lastSwitch, pool`table, pool.threads, mutexes, conditions, detector
      ensures Tied() && Told() && View() == old(View()).(ms := Ran(old(View()).ms, current.tid))
    {
      hide Tied;
      hide CvWaitCall, AllFit, KernelInv;
      NextOp();
      match current.rest {
        case CvWait(c, m, next) =>
          Advance(next);
          ConditionOf(c);
          MutexOf(m);
          conditions[c].Wait(this, mutexes[m]);
        case WaitWhile(g, c, m, next) =>
          if Test(g) {
            ConditionOf(c);
            MutexOf(m);
            conditions[c].Wait(this, mutexes[m]);
          } else {
            Advance(next);
          }
      }
    }

    /** One operation of the running thread, up to its return or its switch. */
    method RunOp()
      requires Runnable()
      modifies this`owner, this`count, this`queues, this`verdicts, this`lastSwitch, this`shared
      modifies pool`table, pool.threads, mutexes, semaphores, conditions, detector, ring, ring.buffer
      ensures Tied() && Told() && View() == old(View()).(ms := Ran(old(View()).ms, current.tid)) && Fit()
    {
      hide Tied, RingBuffer.View, AllFit, Inv, Ran, Enabled, K;
      RanFits(View().ms, current.tid, |mutexes|, |semaphores|, |conditions|);
      match current.rest {
        case Lock(_, _) => RunMutexOp();
        case TryLock(_, _, _) => RunMutexOp();
        case Unlock(_, _) => RunMutexOp();
        case SemWait(_, _) => RunSemaphoreOp();
        case SemSignal(_, _) => RunSemaphoreOp();
        case CvWait(_, _, _) => RunWaitOp();
        case CvSignal(_, _) => RunConditionOp();
        case CvBroadcast(_, _) => RunConditionOp();
        case WaitWhile(_, _, _, _) => RunWaitOp();
        case Done => RunLocalOp();
        case Yield(_) => RunLocalOp();
        case Do(_, _) => RunLocalOp();
        case If(_, _, _) => RunLocalOp();
      }
    }

    // ---- dispatching ----

    /** The selected thread becomes the current one; `w` is where it was suspended. */
    method SwitchTo(selected: TCB) returns (w: Where)
      requires Tied() && selected in pool.threads && selected.state == READY
      modifies this`current, this`lastSwitch, pool`table, selected`state, selected`at, selected`firstRunTick
      ensures Tied() && Running() && current == selected && w == old(selected.at)
      ensures View() == old(View()).(
                ms := old(View()).ms.(k := old(K()).(states := old(K()).states[selected.tid := RUNNING],
                                                     at := old(K()).at[selected.tid := Outside])),
                firstRun := FirstRun(old(View()).firstRun, selected.tid, clock))
    {
      hide RingBuffer.Valid, RingBuffer.View, MutexesTied, SemaphoresTied, ConditionsTied, ThreadPool.Row, ThreadPool.Complete, FirstRun;
      w := pool.Dispatch(selected, clock);
      current := selected;
      lastSwitch := NONE;
    }

    /** The current thread finishes the primitive it was suspended in. */
    method Resumption(w: Where)
      requires Tied() && Running() && WhereFits(w, |mutexes|, |semaphores|, |conditions|)
      modifies this`owner, this`count, this`queues, this`verdicts, this`lastSwitch
      modifies pool`table, current, mutexes, semaphores, detector
      ensures Tied() && (Running() || (current.state == BLOCKED && lastSwitch == BLOCK))
      ensures View() == WithKernel(old(View()), Resumed(old(K()), current.tid, w))
    {
      hide Tied, RingBuffer.View;
      hide LockLoop, SemLoop, LockCall;
      match w {
        case Outside =>
        case InLock(m) =>
          MutexOf(m);
          mutexes[m].Relock(this);
        case InSem(i) =>
          SemaphoreOf(i);
          semaphores[i].Wait(this);
        case InCv(_, m) =>
          MutexOf(m);
          mutexes[m].Lock(this);
      }
    }

    method Start(selected: TCB)
      requires Tied() && Fit() && Inv(View().ms) && Enabled(View().ms, Begin(selected.tid))
      requires selected in pool.threads && selected.state == READY
      modifies this`owner, this`count, this`queues, this`verdicts, this`lastSwitch, this`current
      modifies pool`table, pool.threads, mutexes, semaphores, detector
      ensures Tied() && Told() && current == selected && Fit()
      ensures View() == old(View()).(ms := Begun(old(View()).ms, selected.tid),
                                     firstRun := FirstRun(old(View()).firstRun, selected.tid, clock))
    {
      hide Tied, RingBuffer.View, Resume, Resumed, AllFit, Inv, FirstRun, Enabled;
      StateInTable(selected);
      BegunFits(View().ms, selected.tid, |mutexes|, |semaphores|, |conditions|);
      var w := SwitchTo(selected);
      Resumption(w);
    }

    /** The thread has the processor until it yields, blocks or exits. */
    method RunUntilSwitch()
      requires Tied() && Fit() && Told() && current in pool.threads && Good(View().ms)
      modifies this`owner, this`count, this`queues, this`verdicts, this`lastSwitch, this`shared
      modifies pool`table, pool.threads, mutexes, semaphores, conditions, detector, ring, ring.buffer
      ensures Tied() && Fit() && Told() && current.state != RUNNING
      ensures View() == old(View()).(ms := RunOut(old(View()).ms, current.tid))
    {
      hide Tied, Fit, Told, Good, Inv, Enabled, Ran, Fuel, K, View;
      ghost var s, tid := View().ms, current.tid;
      StateInTable(current);
      while current.state == RUNNING
        invariant Tied() && Fit() && Told() && Good(View().ms) && Is(View().ms.k, tid, current.state)
        invariant 0 < tid && Is(K(), tid, current.state)
        invariant View() == old(View()).(ms := View().ms)
        invariant RunOut(View().ms, tid) == RunOut(s, tid)
        decreases Fuel(View().ms)
      {
        OneMoreOp(View().ms, tid);
        RunOp();
        StateInTable(current);
      }
      NoMoreOp(View().ms, tid);
    }

    /** Back from the switch: the clock ticks, and an exited thread gets its finish tick. */
    method Account(selected: TCB)
      requires Tied() && selected in pool.threads
      modifies this`clock, pool`table, selected`finishTick
      ensures Tied() && (old(Fit()) ==> Fit()) && (old(Told()) ==> Told())
      ensures var c := old(View());
              View() == c.(clock := c.clock + 1,
                           finish := if selected.state == FINISHED then c.finish[selected.tid := c.clock + 1] else c.finish)
    {
      hide ThreadPool.Valid, RingBuffer.Valid, RingBuffer.View, MutexesTied, SemaphoresTied, ConditionsTied, AllFit;
      clock := clock + 1;
      RecordFinish(selected);
    }

    method RecordFinish(selected: TCB)
      requires Tied() && selected in pool.threads
      modifies pool`table, selected`finishTick
      ensures Tied()
      ensures View() == if selected.state == FINISHED then old(View()).(finish := old(View()).finish[selected.tid := clock])
                        else old(View())
    {
      hide RingBuffer.Valid, RingBuffer.View, MutexesTied, SemaphoresTied, ConditionsTied;
      if selected.finished {
        pool.SetFinishTick(selected, clock);
      }
    }

    /** dispatchThread: the first-run tick, the switch there and back, one tick of the clock, and
        the finish tick of a thread that exited. */
    method DispatchThread(selected: TCB)
      requires Tied() && Fit() && SchedOk(View()) && selected in pool.threads && selected.state == READY
      modifies this`owner, this`count, this`queues, this`verdicts, this`lastSwitch, this`shared, this`current, this`clock
      modifies pool`table, pool.threads, mutexes, semaphores, conditions, detector, ring, ring.buffer
      ensures Tied() && Fit() && SchedOk(View()) && Told() && current == selected && selected.state != RUNNING
      ensures Is(old(K()), selected.tid, READY) && View() == Scheduling.DispatchThread(old(View()), selected.tid)
      ensures clock == old(clock) + 1
      ensures selected.firstRunTick == if old(selected.firstRunTick) == -1 then old(clock) else old(selected.firstRunTick)
      ensures selected.finishTick == if selected.state == FINISHED then clock else old(selected.finishTick)
    {
      hide Tied, Fit, SchedOk, K, RingBuffer.View, Told, Scheduling.DispatchThread;
      ghost var c, tid := View(), selected.tid;
      StateInTable(selected);
      TicksInTable(selected);
      DispatchTicks(c, tid);
      SwitchThereAndBack(selected);
      StateInTable(selected);
      TicksInTable(selected);
    }

    method SwitchThereAndBack(selected: TCB)
      requires Tied() && Fit() && SchedOk(View()) && selected in pool.threads && selected.state == READY
      modifies this`owner, this`count, this`queues, this`verdicts, this`lastSwitch, this`shared, this`current, this`clock
      modifies pool`table, pool.threads, mutexes, semaphores, conditions, detector, ring, ring.buffer
      ensures Tied() && Fit() && SchedOk(View()) && Told() && current == selected && selected.state != RUNNING
      ensures Is(old(K()), selected.tid, READY) && View() == Scheduling.DispatchThread(old(View()), selected.tid)
    {
      hide Tied, Fit, SchedOk, Good, Inv, Tables, NobodyRuns, K, Begun, Enabled, RunOut, RingBuffer.View, Told;
      hide Scheduling.DispatchThread, FirstRun;
      ghost var c, tid := View(), selected.tid;
      StateInTable(selected);
      DispatchParts(c, tid);
      Start(selected);
      RunUntilSwitch();
      StateInTable(selected);
      Account(selected);
    }

    lemma TicksInTable(t: TCB)
      requires Tied() && t in pool.threads
      ensures t.tid in View().firstRun && View().firstRun[t.tid] == t.firstRunTick
      ensures t.tid in View().finish && View().finish[t.tid] == t.finishTick
    {
    }

    /** The table says about a thread of the pool what the object says. */
    lemma StateInTable(t: TCB)
      requires Tied() && t in pool.threads
      ensures Is(K(), t.tid, t.state) && Is(View().ms.k, t.tid, t.state)
      ensures t.tid in View().ms.k.at && View().ms.k.at[t.tid] == t.at
      ensures 0 < t.tid && t.finished == (t.state == FINISHED)
    {
    }

    // ---- selection ----

    /** What the selection loops read off the objects. */
    lemma Rows()
      requires Tied() && SchedOk(View())
      ensures View().policy == policy && View().rrIndex == rrIndex && (pool.threads != [] ==> rrIndex < |pool.threads|)
      ensures |View().order| == |pool.threads|
      ensures forall i :: 0 <= i < |pool.threads| ==>
                var t := pool.threads[i];
                && View().order[i] == t.tid && Is(View().ms.k, t.tid, t.state)
                && t.tid in View().burst && View().burst[t.tid] == t.burst
                && t.tid in View().priority && View().priority[t.tid] == t.priority
      ensures forall i, j :: 0 <= i < j < |pool.threads| ==> pool.threads[i].tid != pool.threads[j].tid
    {
      forall i | 0 <= i < |pool.threads| ensures pool.threads[i] in pool.threads && pool.Row(pool.threads[i]) { }
    }

    /** What a selection returns: nothing when nobody is READY, else the thread the policy prefers. */
    ghost predicate Selects(c: Sched, best: TCB?, at: nat)
      requires SchedOk(c)
      reads pool
    {
      if best == null then forall i: nat :: !ReadyAt(c, i)
      else at < |pool.threads| && best == pool.threads[at] && Chosen(c, at)
    }

    lemma ReadyObject(c: Sched, selected: TCB, at: nat)
      requires Tied() && SchedOk(c) && Selects(c, selected, at) && View().ms == c.ms && View().order == c.order
      ensures selected in pool.threads && selected.state == READY && c.order[at] == selected.tid
      ensures Is(View().ms.k, selected.tid, READY)
    {
    }

    method SelectFIFO() returns (best: TCB?, ghost at: nat)
      requires Tied() && SchedOk(View()) && policy == Policy.FIFO
      ensures Selects(View(), best, at)
      ensures best == null <==> forall i: nat :: !ReadyAt(View(), i)
      ensures best != null ==> best in pool.threads && best.state == READY
      ensures best != null ==> forall j :: 0 <= j < at ==> pool.threads[j].state != READY
    {
      hide Tied, SchedOk, Tables, View, K;
      ghost var c := View();
      Rows();
      at := 0;
      var i := 0;
      while i < |pool.threads|
        invariant 0 <= i <= |pool.threads|
        invariant forall j: nat :: j < i ==> !ReadyAt(c, j) && pool.threads[j].state != READY
      {
        if pool.threads[i].state == READY { return pool.threads[i], i; }
        i := i + 1;
      }
      return null, 0;
    }

    /** The cyclic scan from rrIndex on; rrIndex moves one past the thread found. */
    method SelectRR() returns (best: TCB?, ghost at: nat)
      requires Tied() && SchedOk(View()) && policy == Policy.RR
      modifies this`rrIndex
      ensures Tied() && View() == if best == null then old(View()) else Selected(old(View()), at)
      ensures Selects(old(View()), best, at)
      ensures best != null ==> best.state == READY && rrIndex == (at + 1) % |pool.threads|
    {
      hide Tied, SchedOk, Tables, View, K;
      ghost var c := View();
      Rows();
      at := 0;
      if |pool.threads| == 0 { return null, 0; }
      var size := |pool.threads|;
      var i := 0;
      while i < size
        invariant 0 <= i <= size && rrIndex == old(rrIndex)
        invariant forall j: nat :: j < size && Distance(rrIndex, j, size) < i ==> !ReadyAt(c, j)
      {
        ScanAt(rrIndex, i, size);
        var idx := (rrIndex + i) % size;
        if pool.threads[idx].state == READY {
          SetRRIndex((idx + 1) % size);
          return pool.threads[idx], idx;
        }
        i := i + 1;
      }
      forall j: nat ensures !ReadyAt(c, j) {
        if j < size { DistanceInRange(rrIndex, j, size); }
      }
      return null, 0;
    }

    method SetRRIndex(i: nat)
      requires Tied()
      modifies this`rrIndex
      ensures Tied() && View() == old(View()).(rrIndex := i) && rrIndex == i
    {
      rrIndex := i;
    }

    method SelectSJF() returns (best: TCB?, ghost at: nat)
      requires Tied() && SchedOk(View()) && policy == SJF
      ensures Selects(View(), best, at)
      ensures best == null <==> forall i: nat :: !ReadyAt(View(), i)
      ensures best != null ==> best in pool.threads && best.state == READY
      ensures best != null ==> forall j :: 0 <= j < |pool.threads| && j != at && pool.threads[j].state == READY ==>
                best.burst < pool.threads[j].burst || (best.burst == pool.threads[j].burst && best.tid < pool.threads[j].tid)
    {
      hide Tied, SchedOk, Tables, View, K;
      ghost var c := View();
      Rows();
      best, at := null, 0;
      var i := 0;
      while i < |pool.threads|
        invariant 0 <= i <= |pool.threads|
        invariant best == null ==> forall j: nat :: j < i ==> !ReadyAt(c, j)
        invariant best != null ==> at < i && best == pool.threads[at] && ReadyAt(c, at)
        invariant best != null ==> forall j: nat :: j < i && ReadyAt(c, j) && j != at ==>
                    Before(c.burst, c.order[at], c.order[j])
      {
        var t := pool.threads[i];
        if t.state == READY {
          if best == null {
            best, at := t, i;
          } else if t.burst < best.burst {
            best, at := t, i;
          } else if t.burst == best.burst && t.tid < best.tid {
            best, at := t, i;
          }
        }
        i := i + 1;
      }
    }

    method SelectPriority() returns (best: TCB?, ghost at: nat)
      requires Tied() && SchedOk(View()) && policy == PRIORITY
      ensures Selects(View(), best, at)
      ensures best == null <==> forall i: nat :: !ReadyAt(View(), i)
      ensures best != null ==> best in pool.threads && best.state == READY
      ensures best != null ==> forall j :: 0 <= j < |pool.threads| && j != at && pool.threads[j].state == READY ==>
                best.priority < pool.threads[j].priority || (best.priority == pool.threads[j].priority && best.tid < pool.threads[j].tid)
    {
      hide Tied, SchedOk, Tables, View, K;
      ghost var c := View();
      Rows();
      best, at := null, 0;
      var i := 0;
      while i < |pool.threads|
        invariant 0 <= i <= |pool.threads|
        invariant best == null ==> forall j: nat :: j < i ==> !ReadyAt(c, j)
        invariant best != null ==> at < i && best == pool.threads[at] && ReadyAt(c, at)
        invariant best != null ==> forall j: nat :: j < i && ReadyAt(c, j) && j != at ==>
                    Before(c.priority, c.order[at], c.order[j])
      {
        var t := pool.threads[i];
        if t.state == READY {
          if best == null {
            best, at := t, i;
          } else if t.priority < best.priority {
            best, at := t, i;
          } else if t.priority == best.priority && t.tid < best.tid {
            best, at := t, i;
          }
        }
        i := i + 1;
      }
    }

    method SelectNext() returns (best: TCB?, ghost at: nat)
      requires Tied() && SchedOk(View())
      modifies this`rrIndex
      ensures Tied() && Selects(old(View()), best, at)
      ensures View() == if best == null then old(View()) else Selected(old(View()), at)
    {
      hide Tied, SchedOk, Chosen;
      match policy {
        case FIFO => best, at := SelectFIFO();
        case SJF => best, at := SelectSJF();
        case RR => best, at := SelectRR();
        case PRIORITY => best, at := SelectPriority();
      }
    }

    // ---- steps and runs ----

    /** Up to a quantum of dispatches, as long as the thread yields. */
    method RunRoundRobinSlice(selected: TCB)
      requires Tied() && Fit() && SchedOk(View()) && selected in pool.threads && selected.state == READY
      modifies this`owner, this`count, this`queues, this`verdicts, this`lastSwitch, this`shared, this`current, this`clock
      modifies pool`table, pool.threads, mutexes, semaphores, conditions, detector, ring, ring.buffer
      ensures Tied() && Fit() && SchedOk(View())
      ensures Is(old(K()), selected.tid, READY) && 0 < old(quantum) && View() == Slice(old(View()), selected.tid, old(quantum))
      ensures selected.state == READY ==> clock == old(clock) + old(quantum)
      ensures old(clock) < clock <= old(clock) + old(quantum) && selected.state != RUNNING
    {
      hide Tied, Fit, SchedOk, K, Scheduling.DispatchThread, RingBuffer.View;
      ghost var c, tid := View(), selected.tid;
      StateInTable(selected);
      QuantumIs(c);
      SliceUsesQuantum(c, tid, quantum);
      var remaining := quantum;
      while remaining > 0
        invariant Tied() && Fit() && SchedOk(View()) && selected.state == READY && Is(View().ms.k, tid, READY)
        invariant 0 < remaining && Slice(View(), tid, remaining) == Slice(c, tid, c.quantum)
        decreases remaining
      {
        ghost var before := View();
        DispatchThreadOk(before, tid);
        DispatchThread(selected);
        StateInTable(selected);
        if selected.finished || selected.state == BLOCKED { return; }
        if lastSwitch != SwitchReason.YIELD { return; }
        remaining := remaining - 1;
        if remaining == 0 { return; }
      }
    }

    lemma QuantumIs(c: Sched)
      requires SchedOk(c)
      ensures 0 < c.quantum
    {
    }

    method ClearCurrent()
      requires Tied() && Fit()
      modifies this`current, this`lastSwitch
      ensures Tied() && Fit() && View() == old(View()) && current == null
    {
      current := null;
      lastSwitch := NONE;
    }

    /** One step: nothing when nobody is READY, else a slice of the thread the policy prefers. */
    method Step() returns (moved: bool, ghost at: nat)
      requires Tied() && Fit() && SchedOk(View())
      modifies this`owner, this`count, this`queues, this`verdicts, this`lastSwitch, this`shared, this`current, this`clock
      modifies this`rrIndex, pool`table, pool.threads, mutexes, semaphores, conditions, detector, ring, ring.buffer
      ensures Tied() && Fit() && SchedOk(View())
      ensures moved ==> Chosen(old(View()), at) && View() == StepWith(old(View()), at) && current == null
      ensures !moved ==> View() == old(View()) && Quiescent(View().ms)
      ensures moved ==> at < |pool.threads| && old(pool.threads[at].state) == READY
      ensures moved && policy == Policy.RR && pool.threads[at].state == READY ==> clock == old(clock) + quantum
      ensures moved && policy != Policy.RR ==> clock == old(clock) + 1
      ensures moved ==> old(clock) < clock <= old(clock) + quantum
    {
      hide Tied, Fit, SchedOk, RingBuffer.View, StepWith, Quiescent;
      ghost var c := View();
      Rows();
      moved, at := SelectAndRun();
      if moved {
        StepUsesQuantum(c, at);
        StateInTable(pool.threads[at]);
      }
    }

    method SelectAndRun() returns (moved: bool, ghost at: nat)
      requires Tied() && Fit() && SchedOk(View())
      modifies this`owner, this`count, this`queues, this`verdicts, this`lastSwitch, this`shared, this`current, this`clock
      modifies this`rrIndex, pool`table, pool.threads, mutexes, semaphores, conditions, detector, ring, ring.buffer
      ensures Tied() && Fit() && SchedOk(View())
      ensures moved ==> Chosen(old(View()), at) && View() == StepWith(old(View()), at) && current == null
      ensures !moved ==> View() == old(View()) && Quiescent(View().ms)
    {
      hide Tied, AllFit, SchedOk, K, Scheduling.DispatchThread, RingBuffer.View, Tables, Inv, Slice, Preferred, Quiescent;
      ghost var c := View();
      var selected: TCB?;
      selected, at := SelectNext();
      if selected == null {
        NobodyReadyMeansQuiescent(c);
        return false, 0;
      }
      SelectedOk(c, at);
      ReadyObject(c, selected, at);
      if policy == Policy.RR {
        RunRoundRobinSlice(selected);
      } else {
        OneDispatch(View(), selected.tid);
        DispatchThread(selected);
      }
      StepOk(c, at);
      ClearCurrent();
      return true, at;
    }

    /** run(): steps until nobody is READY. When threads only block on mutexes, all of them are
        FINISHED then exactly if the detector's graph has no cycle and nobody waits for a mutex
        that its owner exited with; and programs that exit empty-handed strand nobody. */
    method Run() returns (ghost picks: seq<nat>)
      requires Tied() && Fit() && SchedOk(View())
      modifies this`owner, this`count, this`queues, this`verdicts, this`lastSwitch, this`shared, this`current, this`clock
      modifies this`rrIndex, pool`table, pool.threads, mutexes, semaphores, conditions, detector, ring, ring.buffer
      ensures Tied() && Fit() && SchedOk(View())
      ensures Steps(old(View()), picks) && View() == AfterSteps(old(View()), picks) && Quiescent(View().ms)
      ensures AllMutexOnly(old(View()).ms) ==>
                && (AllFinished(View().ms) <==> !HasCycle(detector.graph) && !Stranded(View().ms.k))
                && (AllObey(ExitEmptyHanded, old(View()).ms) ==> !Stranded(View().ms.k))
    {
      hide Tied, Fit, SchedOk, K, RingBuffer.View, Chosen, StepWith, Quiescent, AllMutexOnly, AllFinished, HasCycle, Stranded, AllObey, Measure;
      ghost var c := View();
      picks := [];
      while true
        invariant Tied() && Fit() && SchedOk(View())
        invariant Steps(c, picks) && View() == AfterSteps(c, picks)
        decreases Left(View())
      {
        ghost var before := View();
        var moved, at := Step();
        if !moved { break; }
        OneMoreStep(c, picks, at);
        LessLeft(before, at);
        picks := picks + [at];
      }
      EndOfRun(c, picks);
      GraphIs();
    }

    lemma GraphIs()
      ensures View().ms.k.graph == detector.graph
    {
    }

    /** joinThread: steps until the thread is finished; false if there is no such thread or
        nobody is READY any more. */
    method JoinThread(tid: int) returns (joined: bool, ghost picks: seq<nat>)
      requires Tied() && Fit() && SchedOk(View())
      modifies this`owner, this`count, this`queues, this`verdicts, this`lastSwitch, this`shared, this`current, this`clock
      modifies this`rrIndex, pool`table, pool.threads, mutexes, semaphores, conditions, detector, ring, ring.buffer
      ensures Tied() && Fit() && SchedOk(View())
      ensures Steps(old(View()), picks) && View() == AfterSteps(old(View()), picks)
      ensures joined <==> Is(K(), tid, FINISHED)
      ensures !joined ==> tid !in old(K()).states || Quiescent(View().ms)
      ensures NotFinishedDuring(old(View()), picks, tid)
    {
      hide Tied, Fit, SchedOk, View, K, RingBuffer.View, Chosen, StepWith, Quiescent, Measure;
      ghost var c := View();
      picks := [];
      var target := pool.GetThread(tid);
      if target == null {
        NoSuchThread(tid);
        return false, [];
      }
      StateInTable(target);
      while !target.finished
        invariant Tied() && Fit() && SchedOk(View())
        invariant Steps(c, picks) && View() == AfterSteps(c, picks) && NotFinishedDuring(c, picks, tid)
        invariant target.finished == (target.state == FINISHED)
        invariant Is(K(), tid, target.state) && Is(View().ms.k, tid, target.state)
        decreases Left(View())
      {
        ghost var before := View();
        var moved, at := Step();
        StateInTable(target);
        if !moved { return false, picks; }
        OneMoreStep(c, picks, at);
        OneMoreUnfinished(c, picks, at, tid);
        LessLeft(before, at);
        picks := picks + [at];
      }
      return true, picks;
    }

    lemma NoSuchThread(tid: int)
      requires Tied() && forall t :: t in pool.threads ==> t.tid != tid
      ensures tid !in K().states
    {
      pool.Known(tid);
    }

    method SetPolicy(p: Policy)
      requires Tied() && SchedOk(View())
      modifies this`policy, this`rrIndex
      ensures Tied() && SchedOk(View()) && View() == old(View()).(policy := p, rrIndex := 0)
    {
      policy := p;
      rrIndex := 0;
    }

    // ---- adding and removing threads ----

    /** A new thread, READY at the start of its program, with a tid of its own. */
    method CreateThread(priority: int, burst: int, program: Prog) returns (tid: int)
      requires Tied() && Fit() && SchedOk(View())
      requires Obeys(WaitOwning, program, {}) && Fits(program, |mutexes|, |semaphores|, |conditions|)
      modifies pool
      ensures Tied() && Fit() && SchedOk(View()) && tid !in old(K()).states
      ensures View() == WithThread(old(View()), tid, priority, burst, program)
      ensures old(Initial(View().ms)) ==> Initial(View().ms)
      ensures pool.threads != [] && pool.threads[..|pool.threads| - 1] == old(pool.threads)
      ensures NewThread(pool.threads[|pool.threads| - 1], tid, priority, burst, program)
      ensures View().order == old(View()).order + [tid] && tid in View().priority && tid in View().burst
      ensures View().priority[tid] == priority && View().burst[tid] == burst
    {
      hide Tied, SchedOk, AllFit, Fits, Initial, WithThread;
      ghost var c := View();
      tid := Register(priority, burst, program);
      SpawnKeeps(c, tid, priority, burst, program);
      SpawnSettings(c, tid, priority, burst, program);
      SpawnFits(c, tid, priority, burst, program, |mutexes|, |semaphores|, |conditions|);
      if Initial(c.ms) { SpawnStarts(c, tid, priority, burst, program); }
    }

    method Register(priority: int, burst: int, program: Prog) returns (tid: int)
      requires Tied()
      modifies pool
      ensures Tied() && 0 < tid && tid !in old(K()).states
      ensures pool.threads != [] && pool.threads[..|pool.threads| - 1] == old(pool.threads)
      ensures NewThread(pool.threads[|pool.threads| - 1], tid, priority, burst, program)
      ensures View() == WithThread(old(View()), tid, priority, burst, program)
    {
      hide RingBuffer.Valid, RingBuffer.View, MutexesTied, SemaphoresTied, ConditionsTied;
      tid := pool.CreateThread(priority, burst, program);
    }

    /** removeThread: everything is as before, minus the thread; the threads left are scanned in
        the same cyclic order. Whatever else refers to the thread stays. */
    method RemoveThread(tid: int) returns (removed: bool)
      requires Tied() && (rrIndex < |pool.threads| || (rrIndex == 0 && pool.threads == []))
      modifies this`rrIndex, pool`threads, pool`table
      ensures Tied() && removed == (tid in old(K()).states)
      ensures View() == if removed then WithoutThread(old(View()), tid, rrIndex) else old(View())
      ensures rrIndex < |pool.threads| || (rrIndex == 0 && pool.threads == [])
      ensures ScanOrder(Tids(pool.threads), rrIndex) == Without(ScanOrder(Tids(old(pool.threads)), old(rrIndex)), tid)
      ensures removed && old(SchedOk(View())) ==> (SchedOk(View()) <==> Removable(old(K()), tid))
    {
      hide ScanOrder, Without, AdjustedIndex, SchedOk, MutexesTied, SemaphoresTied, ConditionsTied, RingBuffer.Valid, RingBuffer.View;
      ghost var tids, c := Tids(pool.threads), View();
      pool.Known(tid);
      var i := 0;
      while i < |pool.threads|
        invariant 0 <= i <= |pool.threads|
        invariant forall j :: 0 <= j < i ==> pool.threads[j].tid != tid
      {
        if pool.threads[i].tid == tid {
          Erase(tid, i);
          if SchedOk(c) { RemovalKeeps(c, tid, rrIndex); }
          return true;
        }
        i := i + 1;
      }
      assert tid !in tids;
      WithoutAbsent(tids, tid);
      ScanWithoutAbsent(tids, rrIndex, tid);
      return false;
    }

    method Erase(tid: int, i: nat)
      requires Tied() && rrIndex < |pool.threads| && i < |pool.threads| && pool.threads[i].tid == tid
      modifies this`rrIndex, pool`threads, pool`table
      ensures Tied() && View() == WithoutThread(old(View()), tid, rrIndex)
      ensures rrIndex < |pool.threads| || (rrIndex == 0 && pool.threads == [])
      ensures ScanOrder(Tids(pool.threads), rrIndex) == Without(ScanOrder(Tids(old(pool.threads)), old(rrIndex)), tid)
    {
      hide ScanOrder, Without, AdjustedIndex, MutexesTied, SemaphoresTied, ConditionsTied, RingBuffer.Valid, RingBuffer.View, ThreadPool.Row, ThreadPool.Complete, Others, NoDup;
      ghost var tids := Tids(pool.threads);
      TidsIn(pool.threads, tid);
      RemovalKeepsScanOrder(tids, rrIndex, i);
      WithoutThis(tids, i);
      OthersAre(pool.threads, tid);
      var removed := pool.RemoveThread(tid);
      AdjustRRIndex(i);
      assert pool.table == Parted(old(pool.table), tid);
    }

    method AdjustRRIndex(removed: nat)
      modifies this`rrIndex
      ensures rrIndex == AdjustedIndex(old(rrIndex), removed, |pool.threads|)
      ensures rrIndex < |pool.threads| || (rrIndex == 0 && pool.threads == [])
    {
      var size := |pool.threads|;
      if size == 0 {
        rrIndex := 0;
        return;
      }
      if rrIndex > removed {
        rrIndex := rrIndex - 1;
      }
      if rrIndex >= size {
        rrIndex := 0;
      }
    }
  }
}
