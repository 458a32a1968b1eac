/** The thread states, wait queues, mutex owners, semaphore counts and wait-for graph that
    the synchronisation primitives share, and what each primitive does to them between two
    context switches (src/tcb.cpp, src/scheduler.cpp, src/mutex.cpp, src/semaphore.cpp,
    src/condition_variable.cpp). */
module Kernel {
  import opened Collections
  import opened WaitGraph

  datatype ThreadState = READY | RUNNING | BLOCKED | FINISHED

  /** The transitions TCB::setState accepts. */
  predicate LegalTransition(from: ThreadState, to: ThreadState) {
    match from
    case READY => to == RUNNING
    case RUNNING => to == READY || to == BLOCKED || to == FINISHED
    case BLOCKED => to == READY
    case FINISHED => false
  }

  /** Where a thread that is not running will resume: at the next operation of its program,
      or inside a primitive that blocked it. */
  datatype Where =
    | Outside
    | InLock(m: nat)
    | InSem(s: nat)
    | InCv(c: nat, cm: nat)  // inside wait(cm) of condition variable c

  datatype Channel = MutexQ(m: nat) | SemQ(s: nat) | CvQ(c: nat)

  predicate OnChannel(w: Where, ch: Channel) {
    match w
    case Outside => false
    case InLock(m) => ch == MutexQ(m)
    case InSem(s) => ch == SemQ(s)
    case InCv(c, _) => ch == CvQ(c)
  }

  const NoOwner := -1

  /** `at` is what a suspended thread's stack stands for; `verdicts` lists what the calls
      of detect() made by lock() returned, oldest first. */
  datatype Kernel = Kernel(
    states: map<int, ThreadState>,
    at: map<int, Where>,
    queues: map<Channel, seq<int>>,
    owner: map<nat, int>,
    count: map<nat, nat>,
    graph: Graph,
    verdicts: seq<bool>)

  function QueueIn(queues: map<Channel, seq<int>>, ch: Channel): seq<int> {
    if ch in queues then queues[ch] else []
  }

  function OwnerIn(owner: map<nat, int>, m: nat): int {
    if m in owner then owner[m] else NoOwner
  }

  function CountIn(count: map<nat, nat>, s: nat): nat {
    if s in count then count[s] else 0
  }

  function Queue(k: Kernel, ch: Channel): seq<int> {
    QueueIn(k.queues, ch)
  }

  function Owner(k: Kernel, m: nat): int {
    OwnerIn(k.owner, m)
  }

  function Count(k: Kernel, s: nat): nat {
    CountIn(k.count, s)
  }

  predicate Is(k: Kernel, t: int, st: ThreadState) {
    t in k.states && k.states[t] == st
  }

  // ---- the pieces of the primitives ----

  function SetState(k: Kernel, t: int, st: ThreadState): Kernel
    requires t in k.states
  {
    if LegalTransition(k.states[t], st) then k.(states := k.states[t := st]) else k
  }

  /** wakeThread: an unknown tid is ignored. */
  function Wake(k: Kernel, t: int): Kernel {
    if t in k.states then SetState(k, t, READY) else k
  }

  /** Queue the running thread and block it; `w` is where it will resume. */
  function Block(k: Kernel, t: int, ch: Channel, w: Where): Kernel
    requires Is(k, t, RUNNING)
  {
    k.(states := k.states[t := BLOCKED], at := k.at[t := w],
       queues := k.queues[ch := Queue(k, ch) + [t]])
  }

  /** Pop the longest waiter of the queue, if any, and wake it. */
  function PopWake(k: Kernel, ch: Channel): Kernel {
    if Queue(k, ch) == [] then k
    else Wake(k.(queues := k.queues[ch := Queue(k, ch)[1..]]), Queue(k, ch)[0])
  }

  function Acquire(k: Kernel, t: int, m: nat): Kernel {
    k.(owner := k.owner[m := t], graph := AddEdge(k.graph, MutexNode(m), ThreadNode(t)))
  }

  function Release(k: Kernel, t: int, m: nat): Kernel {
    k.(owner := k.owner[m := NoOwner], graph := RemoveEdge(k.graph, MutexNode(m), ThreadNode(t)))
  }

  /** The wait edge goes in, the detector runs, its verdict is on record. */
  ghost function AnnounceWait(k: Kernel, t: int, m: nat): Kernel {
    var g := AddEdge(k.graph, ThreadNode(t), MutexNode(m));
    k.(graph := g, verdicts := k.verdicts + [HasCycle(g)])
  }

  // ---- the primitives, from a call or a resumption to the next switch or the return ----

  /** The loop of Mutex::lock: either the thread owns the mutex afterwards or it is blocked. */
  ghost function LockLoop(k: Kernel, t: int, m: nat): Kernel
    requires Is(k, t, RUNNING)
  {
    if Owner(k, m) != NoOwner then Block(AnnounceWait(k, t, m), t, MutexQ(m), InLock(m))
    else Acquire(k, t, m)
  }

  ghost function LockCall(k: Kernel, t: int, m: nat): Kernel
    requires Is(k, t, RUNNING)
  {
    if Owner(k, m) == t then k else LockLoop(k, t, m)
  }

  function TryLockResult(k: Kernel, t: int, m: nat): bool {
    Owner(k, m) == t || Owner(k, m) == NoOwner
  }

  function TryLockCall(k: Kernel, t: int, m: nat): Kernel {
    if Owner(k, m) == NoOwner then Acquire(k, t, m) else k
  }

  function UnlockCall(k: Kernel, t: int, m: nat): Kernel {
    if Owner(k, m) != t then k else PopWake(Release(k, t, m), MutexQ(m))
  }

  function SemLoop(k: Kernel, t: int, s: nat): Kernel
    requires Is(k, t, RUNNING)
  {
    if Count(k, s) == 0 then Block(k, t, SemQ(s), InSem(s))
    else k.(count := k.count[s := Count(k, s) - 1])
  }

  function SemSignalCall(k: Kernel, s: nat): Kernel {
    PopWake(k.(count := k.count[s := Count(k, s) + 1]), SemQ(s))
  }

  /** ConditionVariable::wait up to its blockCurrent: a caller that does not own the mutex returns at once. */
  function CvWaitCall(k: Kernel, t: int, c: nat, m: nat): Kernel
    requires Is(k, t, RUNNING)
  {
    if Owner(k, m) != t then k
    else
      var u := UnlockCall(k, t, m);
      if Is(u, t, RUNNING) then Block(u, t, CvQ(c), InCv(c, m)) else u
  }

  function CvSignalCall(k: Kernel, c: nat): Kernel {
    PopWake(k, CvQ(c))
  }

  function CvBroadcastCall(k: Kernel, c: nat): Kernel
    decreases |Queue(k, CvQ(c))|
  {
    if Queue(k, CvQ(c)) == [] then k else CvBroadcastCall(PopWake(k, CvQ(c)), c)
  }

  /** The rest of the primitive that thread t was suspended in at w. */
  ghost function Resumed(r: Kernel, t: int, w: Where): Kernel
    requires Is(r, t, RUNNING)
  {
    match w
    case Outside => r
    case InLock(m) => LockLoop(r.(graph := RemoveEdge(r.graph, ThreadNode(t), MutexNode(m))), t, m)
    case InSem(s) => SemLoop(r, t, s)
    case InCv(_, m) => LockCall(r, t, m)
  }

  /** dispatchThread: the chosen thread runs, first finishing the primitive it was suspended in. */
  ghost function Resume(k: Kernel, t: int): Kernel
    requires Is(k, t, READY) && t in k.at
  {
    Resumed(k.(states := k.states[t := RUNNING], at := k.at[t := Outside]), t, k.at[t])
  }

  // ---- what every reachable state satisfies ----

  /** Blocked in the primitive that owns this queue. */
  predicate Waiting(k: Kernel, t: int, ch: Channel) {
    Is(k, t, BLOCKED) && t in k.at && OnChannel(k.at[t], ch)
  }

  /** Popped from the queue and made READY, but not yet resumed. */
  predicate Woken(k: Kernel, t: int, ch: Channel) {
    Is(k, t, READY) && t in k.at && OnChannel(k.at[t], ch)
  }

  function WokenSet(k: Kernel, ch: Channel): set<int> {
    set t | t in k.states && Woken(k, t, ch)
  }

  ghost predicate ThreadsOk(k: Kernel) {
    && k.at.Keys == k.states.Keys
    && (forall t :: t in k.states ==> 0 <= t)
    && (forall t :: Is(k, t, BLOCKED) ==> k.at[t] != Outside)
    && (forall t :: Is(k, t, RUNNING) || Is(k, t, FINISHED) ==> k.at[t] == Outside)
    && (forall t, u :: Is(k, t, RUNNING) && Is(k, u, RUNNING) ==> t == u)
  }

  /** The queue of each primitive lists exactly the threads blocked in it, each once. */
  ghost predicate QueuesOk(k: Kernel) {
    && (forall ch :: NoDup(Queue(k, ch)))
    && (forall ch, t :: t in Queue(k, ch) <==> Waiting(k, t, ch))
  }

  ghost predicate OwnersOk(k: Kernel) {
    && (forall m: nat :: Owner(k, m) != NoOwner ==> Owner(k, m) in k.states)
    && (forall t :: t in k.at && k.at[t].InLock? ==> Owner(k, k.at[t].m) != t)
  }

  /** The one outgoing edge a node should have, as a list. */
  function TrueEdges(k: Kernel, n: int): seq<int> {
    if 0 <= n then
      if n in k.at && k.at[n].InLock? then [MutexNode(k.at[n].m)] else []
    else
      if Owner(k, -n - 1) != NoOwner then [ThreadNode(Owner(k, -n - 1))] else []
  }

  /** Hold edges are exactly the owners, wait edges exactly the threads suspended inside lock(). */
  ghost predicate GraphOk(k: Kernel) {
    forall n :: Out(k.graph, n) == TrueEdges(k, n)
  }

  /** While threads wait, a free mutex has a woken thread on its way, and every unit of a
      semaphore's count has one. */
  ghost predicate WakeOk(k: Kernel, ch: Channel) {
    Queue(k, ch) != [] ==>
      match ch
      case MutexQ(m) => Owner(k, m) != NoOwner || WokenSet(k, ch) != {}
      case SemQ(s) => Count(k, s) <= |WokenSet(k, ch)|
      case CvQ(_) => true
  }

  ghost predicate NoLostWakeup(k: Kernel) {
    forall ch :: WakeOk(k, ch)
  }

  ghost predicate KernelInv(k: Kernel) {
    ThreadsOk(k) && QueuesOk(k) && OwnersOk(k) && GraphOk(k) && NoLostWakeup(k)
  }

  // ---- each piece keeps it ----

  lemma WokenSame(k: Kernel, k': Kernel, ch: Channel)
    requires forall t :: Woken(k, t, ch) <==> Woken(k', t, ch)
    ensures WokenSet(k, ch) == WokenSet(k', ch)
  {
  }

  lemma BlockKeepsQueues(k: Kernel, t: int, ch: Channel, w: Where)
    requires ThreadsOk(k) && QueuesOk(k) && Is(k, t, RUNNING) && OnChannel(w, ch)
    ensures ThreadsOk(Block(k, t, ch, w)) && QueuesOk(Block(k, t, ch, w))
    ensures forall c :: WokenSet(Block(k, t, ch, w), c) == WokenSet(k, c)
  {
    var b := Block(k, t, ch, w);
    KeysWith(k.states, t, BLOCKED);
    KeysWith(k.at, t, w);
    BlockedRows(k, t, ch, w);
    forall c
      ensures WokenSet(b, c) == WokenSet(k, c)
    {
      WokenSame(k, b, c);
    }
    assert t !in Queue(k, ch) by { assert !Waiting(k, t, ch); }
    forall c
      ensures NoDup(Queue(b, c)) && forall u :: u in Queue(b, c) <==> Waiting(b, u, c)
    {
      assert NoDup(Queue(k, c));
      forall u
        ensures u in Queue(b, c) <==> Waiting(b, u, c)
      {
        assert u in Queue(k, c) <==> Waiting(k, u, c);
      }
    }
  }

  lemma BlockedRows(k: Kernel, t: int, ch: Channel, w: Where)
    requires Is(k, t, RUNNING) && t in k.at && k.at[t] == Outside && OnChannel(w, ch)
    ensures var b := Block(k, t, ch, w);
            && (forall u, st :: Is(b, u, st) <==> if u == t then st == BLOCKED else Is(k, u, st))
            && (forall u, c :: Waiting(b, u, c) <==> Waiting(k, u, c) || (u == t && c == ch))
            && (forall u, c :: Woken(b, u, c) <==> Woken(k, u, c))
            && (forall c :: Queue(b, c) == if c == ch then Queue(k, c) + [t] else Queue(k, c))
  {
  }

  /** Popping wakes the head, which was blocked, so the wake-up takes effect. */
  lemma PopWakeKeepsQueues(k: Kernel, ch: Channel)
    requires ThreadsOk(k) && QueuesOk(k)
    ensures ThreadsOk(PopWake(k, ch)) && QueuesOk(PopWake(k, ch))
    ensures forall c :: c != ch ==> WokenSet(PopWake(k, ch), c) == WokenSet(k, c) && Queue(PopWake(k, ch), c) == Queue(k, c)
    ensures Queue(k, ch) == [] ==> PopWake(k, ch) == k
    ensures Queue(k, ch) != [] ==>
      var u := Queue(k, ch)[0];
      && Waiting(k, u, ch)
      && PopWake(k, ch) == k.(states := k.states[u := READY], queues := k.queues[ch := Queue(k, ch)[1..]])
      && u !in WokenSet(k, ch) && WokenSet(PopWake(k, ch), ch) == WokenSet(k, ch) + {u}
  {
    if Queue(k, ch) != [] {
      var q := Queue(k, ch);
      var u := q[0];
      assert u in q;
      assert Waiting(k, u, ch);
      var p := PopWake(k, ch);
      assert forall t :: Is(p, t, RUNNING) <==> Is(k, t, RUNNING);
      forall c
        ensures c != ch ==> WokenSet(p, c) == WokenSet(k, c)
      {
        if c != ch {
          assert !Waiting(k, u, c);
          WokenSame(k, p, c);
        }
      }
      forall t
        ensures t in WokenSet(p, ch) <==> t in WokenSet(k, ch) + {u}
      {
        assert Woken(p, t, ch) <==> Woken(k, t, ch) || t == u;
      }
      forall c
        ensures NoDup(Queue(p, c)) && forall t :: t in Queue(p, c) <==> Waiting(p, t, c)
      {
        NoDupTail(q);
        assert Queue(p, c) == if c == ch then q[1..] else Queue(k, c);
        forall t
          ensures t in Queue(p, c) <==> Waiting(p, t, c)
        {
          assert t in Queue(k, c) <==> Waiting(k, t, c);
          if t == u { assert c != ch ==> !Waiting(k, u, c); }
        }
      }
    }
  }

  lemma AcquireKeeps(k: Kernel, t: int, m: nat)
    requires ThreadsOk(k) && QueuesOk(k) && OwnersOk(k) && GraphOk(k)
    requires forall ch :: ch != MutexQ(m) ==> WakeOk(k, ch)
    requires Is(k, t, RUNNING) && Owner(k, m) == NoOwner
    ensures KernelInv(Acquire(k, t, m))
  {
    var a := Acquire(k, t, m);
    assert forall i: nat :: Owner(a, i) == if i == m then t else Owner(k, i);
    assert forall u, st :: Is(a, u, st) <==> Is(k, u, st);
    assert forall u, ch :: Waiting(a, u, ch) <==> Waiting(k, u, ch);
    assert forall ch :: Queue(a, ch) == Queue(k, ch);
    forall ch
      ensures WakeOk(a, ch)
    {
      WokenSame(k, a, ch);
      assert ch != MutexQ(m) ==> WakeOk(k, ch);
    }
    forall n
      ensures Out(a.graph, n) == TrueEdges(a, n)
    {
      assert Out(k.graph, n) == TrueEdges(k, n);
    }
  }

  lemma LockLoopKeeps(k: Kernel, t: int, m: nat)
    requires ThreadsOk(k) && QueuesOk(k) && OwnersOk(k) && GraphOk(k)
    requires forall ch :: ch != MutexQ(m) ==> WakeOk(k, ch)
    requires Is(k, t, RUNNING) && Owner(k, m) != t
    ensures KernelInv(LockLoop(k, t, m))
  {
    if Owner(k, m) == NoOwner {
      AcquireKeeps(k, t, m);
    } else {
      var w := AnnounceWait(k, t, m);
      var b := LockLoop(k, t, m);
      assert ThreadsOk(w) && QueuesOk(w) by {
        assert forall u, st :: Is(w, u, st) <==> Is(k, u, st);
        assert forall u, ch :: Waiting(w, u, ch) <==> Waiting(k, u, ch);
        assert forall ch :: Queue(w, ch) == Queue(k, ch);
      }
      BlockKeepsQueues(w, t, MutexQ(m), InLock(m));
      assert forall i: nat :: Owner(b, i) == Owner(k, i);
      forall ch
        ensures WakeOk(b, ch)
      {
        WokenSame(k, w, ch);
        assert ch != MutexQ(m) ==> WakeOk(k, ch);
      }
      forall n
        ensures Out(b.graph, n) == TrueEdges(b, n)
      {
        assert Out(k.graph, n) == TrueEdges(k, n);
      }
    }
  }

  lemma UnlockKeeps(k: Kernel, t: int, m: nat)
    requires KernelInv(k) && Is(k, t, RUNNING)
    ensures KernelInv(UnlockCall(k, t, m))
    ensures Is(UnlockCall(k, t, m), t, RUNNING) && UnlockCall(k, t, m).at == k.at
  {
    if Owner(k, m) == t {
      var r := Release(k, t, m);
      assert ThreadsOk(r) && QueuesOk(r) by {
        assert forall u, st :: Is(r, u, st) <==> Is(k, u, st);
        assert forall u, ch :: Waiting(r, u, ch) <==> Waiting(k, u, ch);
        assert forall ch :: Queue(r, ch) == Queue(k, ch);
      }
      assert forall i: nat :: Owner(r, i) == if i == m then NoOwner else Owner(k, i);
      assert Out(k.graph, MutexNode(m)) == TrueEdges(k, MutexNode(m));
      WithoutOnly(t);
      PopWakeKeepsQueues(r, MutexQ(m));
      var p := UnlockCall(k, t, m);
      assert forall i: nat :: Owner(p, i) == Owner(r, i);
      forall ch
        ensures WakeOk(p, ch)
      {
        WokenSame(k, r, ch);
        assert WakeOk(k, ch);
      }
      forall n
        ensures Out(p.graph, n) == TrueEdges(p, n)
      {
        assert Out(k.graph, n) == TrueEdges(k, n);
      }
    }
  }

  lemma SemLoopKeeps(k: Kernel, t: int, s: nat)
    requires ThreadsOk(k) && QueuesOk(k) && OwnersOk(k) && GraphOk(k)
    requires forall ch :: ch != SemQ(s) ==> WakeOk(k, ch)
    requires Queue(k, SemQ(s)) != [] ==> Count(k, s) <= |WokenSet(k, SemQ(s))| + 1
    requires Is(k, t, RUNNING)
    ensures KernelInv(SemLoop(k, t, s))
  {
    var b := SemLoop(k, t, s);
    if Count(k, s) == 0 {
      BlockKeepsQueues(k, t, SemQ(s), InSem(s));
    } else {
      assert ThreadsOk(b) && QueuesOk(b) by {
        assert forall u, st :: Is(b, u, st) <==> Is(k, u, st);
        assert forall u, ch :: Waiting(b, u, ch) <==> Waiting(k, u, ch);
        assert forall ch :: Queue(b, ch) == Queue(k, ch);
      }
      forall ch ensures WokenSet(b, ch) == WokenSet(k, ch) { WokenSame(k, b, ch); }
    }
    assert forall i: nat :: Owner(b, i) == Owner(k, i);
    forall ch
      ensures WakeOk(b, ch)
    {
      assert ch != SemQ(s) ==> WakeOk(k, ch);
    }
    forall n
      ensures Out(b.graph, n) == TrueEdges(b, n)
    {
      assert Out(k.graph, n) == TrueEdges(k, n);
    }
  }

  lemma PopWakeKeeps(k: Kernel, ch: Channel)
    requires ThreadsOk(k) && QueuesOk(k) && OwnersOk(k) && GraphOk(k)
    requires forall c :: c != ch ==> WakeOk(k, c)
    requires match ch
             case MutexQ(_) => WakeOk(k, ch)
             case SemQ(s) => Queue(k, ch) != [] ==> Count(k, s) <= |WokenSet(k, ch)| + 1
             case CvQ(_) => true
    ensures KernelInv(PopWake(k, ch))
  {
    PopWakeKeepsQueues(k, ch);
    var p := PopWake(k, ch);
    assert forall i: nat :: Owner(p, i) == Owner(k, i);
    forall c
      ensures WakeOk(p, c)
    {
      assert c != ch ==> WakeOk(k, c);
    }
    forall n
      ensures Out(p.graph, n) == TrueEdges(p, n)
    {
      assert Out(k.graph, n) == TrueEdges(k, n);
    }
  }

  lemma SemSignalKeeps(k: Kernel, s: nat)
    requires KernelInv(k)
    ensures KernelInv(SemSignalCall(k, s))
  {
    var c := k.(count := k.count[s := Count(k, s) + 1]);
    assert ThreadsOk(c) && QueuesOk(c) by {
      assert forall u, st :: Is(c, u, st) <==> Is(k, u, st);
      assert forall u, ch :: Waiting(c, u, ch) <==> Waiting(k, u, ch);
      assert forall ch :: Queue(c, ch) == Queue(k, ch);
    }
    assert forall i: nat :: Owner(c, i) == Owner(k, i);
    forall ch
      ensures WokenSet(c, ch) == WokenSet(k, ch) && (ch != SemQ(s) ==> WakeOk(c, ch))
    {
      WokenSame(k, c, ch);
      assert WakeOk(k, ch);
    }
    forall n
      ensures Out(c.graph, n) == TrueEdges(c, n)
    {
      assert Out(k.graph, n) == TrueEdges(k, n);
    }
    assert WakeOk(k, SemQ(s));
    PopWakeKeeps(c, SemQ(s));
  }

  lemma CvWaitKeeps(k: Kernel, t: int, c: nat, m: nat)
    requires KernelInv(k) && Is(k, t, RUNNING)
    ensures KernelInv(CvWaitCall(k, t, c, m))
  {
    if Owner(k, m) == t {
      UnlockKeeps(k, t, m);
      var u := UnlockCall(k, t, m);
      BlockKeepsQueues(u, t, CvQ(c), InCv(c, m));
      var b := CvWaitCall(k, t, c, m);
      assert forall i: nat :: Owner(b, i) == Owner(u, i);
      forall ch
        ensures WakeOk(b, ch)
      {
        assert WakeOk(u, ch);
      }
      forall n
        ensures Out(b.graph, n) == TrueEdges(b, n)
      {
        assert Out(u.graph, n) == TrueEdges(u, n);
      }
    }
  }

  lemma {:induction false} CvBroadcastKeeps(k: Kernel, c: nat)
    requires KernelInv(k)
    ensures KernelInv(CvBroadcastCall(k, c))
    decreases |Queue(k, CvQ(c))|
  {
    if Queue(k, CvQ(c)) != [] {
      PopWakeKeeps(k, CvQ(c));
      CvBroadcastKeeps(PopWake(k, CvQ(c)), c);
    }
  }

  lemma LockCallKeeps(k: Kernel, t: int, m: nat)
    requires KernelInv(k) && Is(k, t, RUNNING)
    ensures KernelInv(LockCall(k, t, m))
  {
    if Owner(k, m) != t { LockLoopKeeps(k, t, m); }
  }

  lemma TryLockKeeps(k: Kernel, t: int, m: nat)
    requires KernelInv(k) && Is(k, t, RUNNING)
    ensures KernelInv(TryLockCall(k, t, m))
  {
    if Owner(k, m) == NoOwner { AcquireKeeps(k, t, m); }
  }

  lemma SemWaitKeeps(k: Kernel, t: int, s: nat)
    requires KernelInv(k) && Is(k, t, RUNNING)
    ensures KernelInv(SemLoop(k, t, s))
  {
    assert WakeOk(k, SemQ(s));
    SemLoopKeeps(k, t, s);
  }

  lemma CvSignalKeeps(k: Kernel, c: nat)
    requires KernelInv(k)
    ensures KernelInv(CvSignalCall(k, c))
  {
    PopWakeKeeps(k, CvQ(c));
  }

  lemma SetStateKeeps(k: Kernel, t: int, st: ThreadState)
    requires KernelInv(k) && Is(k, t, RUNNING) && (st == READY || st == FINISHED)
    ensures KernelInv(SetState(k, t, st))
  {
    var r := SetState(k, t, st);
    assert k.at[t] == Outside;
    assert forall u, ch :: Waiting(r, u, ch) <==> Waiting(k, u, ch);
    assert forall u, ch :: Woken(r, u, ch) <==> Woken(k, u, ch);
    assert forall ch :: Queue(r, ch) == Queue(k, ch);
    assert forall i: nat :: Owner(r, i) == Owner(k, i);
    assert forall u :: Is(r, u, RUNNING) ==> Is(k, u, RUNNING);
    forall ch
      ensures WakeOk(r, ch)
    {
      WokenSame(k, r, ch);
      assert WakeOk(k, ch);
    }
    forall n
      ensures Out(r.graph, n) == TrueEdges(r, n)
    {
      assert Out(k.graph, n) == TrueEdges(k, n);
    }
  }

  ghost predicate NobodyRuns(k: Kernel) {
    forall t :: !Is(k, t, RUNNING)
  }

  lemma ResumeKeeps(k: Kernel, t: int)
    requires KernelInv(k) && NobodyRuns(k) && Is(k, t, READY)
    ensures KernelInv(Resume(k, t))
  {
    var r := k.(states := k.states[t := RUNNING], at := k.at[t := Outside]);
    var w := k.at[t];
    assert forall u, ch :: Waiting(r, u, ch) <==> Waiting(k, u, ch);
    assert forall ch :: Queue(r, ch) == Queue(k, ch);
    assert forall i: nat :: Owner(r, i) == Owner(k, i);
    assert ThreadsOk(r) && QueuesOk(r) && OwnersOk(r);
    forall ch
      ensures WokenSet(r, ch) == WokenSet(k, ch) - {t}
      ensures !OnChannel(w, ch) ==> WakeOk(r, ch)
      ensures t in WokenSet(k, ch) <==> OnChannel(w, ch)
    {
      forall u
        ensures u in WokenSet(r, ch) <==> u in WokenSet(k, ch) - {t}
      {
        assert Woken(r, u, ch) <==> Woken(k, u, ch) && u != t;
      }
      assert WakeOk(k, ch);
    }
    match w {
      case Outside =>
        ResumedGraphOk(k, t, r);
      case InLock(m) =>
        var e := r.(graph := RemoveEdge(r.graph, ThreadNode(t), MutexNode(m)));
        assert forall u, st :: Is(e, u, st) <==> Is(r, u, st);
        assert forall u, ch :: Waiting(e, u, ch) <==> Waiting(r, u, ch);
        assert forall ch :: Queue(e, ch) == Queue(r, ch);
        assert forall i: nat :: Owner(e, i) == Owner(k, i);
        assert ThreadsOk(e) && QueuesOk(e) && OwnersOk(e);
        forall ch | ch != MutexQ(m) ensures WakeOk(e, ch) { WokenSame(r, e, ch); assert WakeOk(r, ch); }
        ResumedGraphOk(k, t, e);
        LockLoopKeeps(e, t, m);
      case InSem(s) =>
        ResumedGraphOk(k, t, r);
        assert WakeOk(k, SemQ(s));
        SemLoopKeeps(r, t, s);
      case InCv(c, m) =>
        ResumedGraphOk(k, t, r);
        assert NoLostWakeup(r) by {
          forall ch ensures WakeOk(r, ch) { assert ch != CvQ(c) ==> WakeOk(r, ch); }
        }
        if Owner(r, m) != t { LockLoopKeeps(r, t, m); }
    }
  }

  /** Taking out the wait edge of the resumed thread leaves exactly the edges that should be there. */
  lemma ResumedGraphOk(k: Kernel, t: int, e: Kernel)
    requires KernelInv(k) && Is(k, t, READY)
    requires e.at == k.at[t := Outside] && e.owner == k.owner
    requires e.graph == if k.at[t].InLock? then RemoveEdge(k.graph, ThreadNode(t), MutexNode(k.at[t].m)) else k.graph
    ensures GraphOk(e)
  {
    assert forall i: nat :: Owner(e, i) == Owner(k, i);
    assert Out(k.graph, t) == TrueEdges(k, t);
    if k.at[t].InLock? { WithoutOnly(MutexNode(k.at[t].m)); }
    forall n
      ensures Out(e.graph, n) == TrueEdges(e, n)
    {
      assert Out(k.graph, n) == TrueEdges(k, n);
    }
  }
}
