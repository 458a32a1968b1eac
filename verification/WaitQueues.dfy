/** Wait queues are queues: threads join them at the end when they block, leave them at the
    front when they are woken, and nothing else happens to them, in every run. */
module WaitQueues {
  import opened WaitGraph
  import opened Kernel
  import opened Machine

  /** The caller t joins the queue in which it is waiting afterwards. */
  function Joining(k': Kernel, t: int, ch: Channel): seq<int> {
    if Waiting(k', t, ch) then [t] else []
  }

  /** What is left of queue ch when the n first of queue `from` have gone. */
  function Rest(k: Kernel, ch: Channel, from: Channel, n: nat): seq<int> {
    if ch == from && n <= |Queue(k, ch)| then Queue(k, ch)[n..] else Queue(k, ch)
  }

  ghost predicate QueuesMoved(k: Kernel, k': Kernel, t: int, from: Channel, n: nat) {
    forall ch :: Queue(k', ch) == Rest(k, ch, from, n) + Joining(k', t, ch)
  }

  ghost predicate StatesMoved(k: Kernel, k': Kernel, t: int, from: Channel, n: nat)
    requires n <= |Queue(k, from)|
  {
    forall u :: u in k.states && u != t ==>
      u in k'.states && k'.states[u] == if u in Queue(k, from)[..n] then READY else k.states[u]
  }

  /** The n first waiters of queue `from` leave it and are READY, the caller joins the queue it
      waits in, and no other queue and no other thread's state changes. */
  ghost predicate Moved(k: Kernel, k': Kernel, t: int, from: Channel, n: nat) {
    n <= |Queue(k, from)| && QueuesMoved(k, k', t, from, n) && StatesMoved(k, k', t, from, n)
  }

  /** Nobody leaves a queue. */
  ghost predicate Stays(k: Kernel, k': Kernel, t: int) {
    forall from :: Moved(k, k', t, from, 0)
  }

  lemma StaysPut(k: Kernel, k': Kernel, t: int)
    requires forall ch :: Queue(k', ch) == Queue(k, ch) + Joining(k', t, ch)
    requires forall u :: u in k.states && u != t ==> u in k'.states && k'.states[u] == k.states[u]
    ensures Stays(k, k', t)
  {
  }

  lemma BlockMoves(k: Kernel, t: int, ch: Channel, w: Where)
    requires ThreadsOk(k) && Is(k, t, RUNNING) && OnChannel(w, ch)
    ensures Stays(k, Block(k, t, ch, w), t)
  {
    BlockedRows(k, t, ch, w);
    assert forall c :: !Waiting(k, t, c);
    StaysPut(k, Block(k, t, ch, w), t);
  }

  lemma LockLoopMoves(k: Kernel, t: int, m: nat)
    requires ThreadsOk(k) && Is(k, t, RUNNING)
    ensures Stays(k, LockLoop(k, t, m), t)
  {
    var k' := LockLoop(k, t, m);
    if Owner(k, m) != NoOwner {
      var w := AnnounceWait(k, t, m);
      assert ThreadsOk(w) by { assert forall u, st :: Is(w, u, st) <==> Is(k, u, st); }
      BlockMoves(w, t, MutexQ(m), InLock(m));
      assert forall ch :: Queue(w, ch) == Queue(k, ch);
      assert Moved(w, k', t, MutexQ(m), 0);
      assert forall ch :: Queue(k', ch) == Queue(w, ch) + Joining(k', t, ch);
    }
    StaysPut(k, k', t);
  }

  lemma SemLoopMoves(k: Kernel, t: int, s: nat)
    requires ThreadsOk(k) && Is(k, t, RUNNING)
    ensures Stays(k, SemLoop(k, t, s), t)
  {
    if Count(k, s) == 0 {
      BlockMoves(k, t, SemQ(s), InSem(s));
    } else {
      StaysPut(k, SemLoop(k, t, s), t);
    }
  }

  /** 1 unless the queue is empty. */
  function One(q: seq<int>): nat {
    if q == [] then 0 else 1
  }

  /** t is the running thread, or no thread at all. */
  predicate NotWaiting(k: Kernel, t: int) {
    t in k.states ==> k.states[t] == RUNNING
  }

  lemma PopMoves(k: Kernel, t: int, ch: Channel)
    requires ThreadsOk(k) && QueuesOk(k) && NotWaiting(k, t)
    ensures Moved(k, PopWake(k, ch), t, ch, One(Queue(k, ch))) && NotWaiting(PopWake(k, ch), t)
  {
    PopWakeKeepsQueues(k, ch);
    var k' := PopWake(k, ch);
    assert forall c :: !Waiting(k', t, c);
    if Queue(k, ch) != [] { assert Queue(k, ch)[..1] == [Queue(k, ch)[0]]; }
  }

  lemma ReleaseRows(k: Kernel, t: int, m: nat)
    requires ThreadsOk(k) && QueuesOk(k)
    ensures ThreadsOk(Release(k, t, m)) && QueuesOk(Release(k, t, m))
    ensures forall ch :: Queue(Release(k, t, m), ch) == Queue(k, ch)
  {
    var r := Release(k, t, m);
    assert forall u, st :: Is(r, u, st) <==> Is(k, u, st);
    assert forall u, ch :: Waiting(r, u, ch) <==> Waiting(k, u, ch);
    assert forall ch :: Queue(r, ch) == Queue(k, ch);
  }

  lemma SameRowsMove(k: Kernel, c: Kernel, e: Kernel, t: int, from: Channel, n: nat)
    requires c.states == k.states && c.queues == k.queues && Moved(c, e, t, from, n)
    ensures Moved(k, e, t, from, n)
  {
    assert forall ch :: Queue(c, ch) == Queue(k, ch);
    assert forall ch :: Rest(c, ch, from, n) == Rest(k, ch, from, n);
  }

  lemma UnlockMoves(k: Kernel, t: int, m: nat)
    requires ThreadsOk(k) && QueuesOk(k) && Is(k, t, RUNNING)
    ensures Moved(k, UnlockCall(k, t, m), t, MutexQ(m), if Owner(k, m) == t then One(Queue(k, MutexQ(m))) else 0)
  {
    if Owner(k, m) == t {
      ReleaseRows(k, t, m);
      PopMoves(Release(k, t, m), t, MutexQ(m));
      SameRowsMove(k, Release(k, t, m), UnlockCall(k, t, m), t, MutexQ(m), One(Queue(k, MutexQ(m))));
    } else {
      StaysPut(k, k, t);
    }
  }

  lemma SemSignalMoves(k: Kernel, t: int, s: nat)
    requires ThreadsOk(k) && QueuesOk(k) && Is(k, t, RUNNING)
    ensures Moved(k, SemSignalCall(k, s), t, SemQ(s), One(Queue(k, SemQ(s))))
  {
    hide Moved;
    var c := k.(count := k.count[s := Count(k, s) + 1]);
    assert ThreadsOk(c) && QueuesOk(c) by {
      assert forall u, st :: Is(c, u, st) <==> Is(k, u, st);
      assert forall u, ch :: Waiting(c, u, ch) <==> Waiting(k, u, ch);
      assert forall ch :: Queue(c, ch) == Queue(k, ch);
    }
    PopMoves(c, t, SemQ(s));
    SameRowsMove(k, c, SemSignalCall(k, s), t, SemQ(s), One(Queue(k, SemQ(s))));
  }

  /** Broadcast: all waiters of the condition variable leave, in one step. */
  lemma {:induction false} BroadcastMoves(k: Kernel, t: int, c: nat)
    requires ThreadsOk(k) && QueuesOk(k) && NotWaiting(k, t)
    ensures Moved(k, CvBroadcastCall(k, c), t, CvQ(c), |Queue(k, CvQ(c))|)
    decreases |Queue(k, CvQ(c))|
  {
    var q := Queue(k, CvQ(c));
    if q == [] {
      StaysPut(k, k, t);
    } else {
      var p := PopWake(k, CvQ(c));
      PopWakeKeepsQueues(k, CvQ(c));
      PopMoves(k, t, CvQ(c));
      BroadcastMoves(p, t, c);
      PopThenRest(k, p, CvBroadcastCall(k, c), t, CvQ(c));
    }
  }

  lemma PopThenRest(k: Kernel, p: Kernel, e: Kernel, t: int, ch: Channel)
    requires Queue(k, ch) != [] && Queue(p, ch) == Queue(k, ch)[1..] && (forall c :: !Waiting(p, t, c))
    requires Moved(k, p, t, ch, 1) && Moved(p, e, t, ch, |Queue(p, ch)|)
    ensures Moved(k, e, t, ch, |Queue(k, ch)|)
  {
    var q := Queue(k, ch);
    assert forall u :: u in q <==> u in q[..1] || u in q[1..] by { assert q == q[..1] + q[1..]; }
    assert q[..|q|] == q && Queue(p, ch)[..|Queue(p, ch)|] == q[1..];
    forall c ensures Queue(e, c) == Rest(k, c, ch, |q|) + Joining(e, t, c) {
      assert Queue(e, c) == Rest(p, c, ch, |q| - 1) + Joining(e, t, c);
      assert c != ch ==> Queue(p, c) == Queue(k, c) + Joining(p, t, c);
    }
  }

  /** What a broadcast comes to: nobody waits on the condition variable any more, everybody who
      did is READY, and no other queue and no other thread's state changes. */
  lemma BroadcastWakesAll(k: Kernel, c: nat)
    requires KernelInv(k)
    ensures var e := CvBroadcastCall(k, c);
            && Queue(e, CvQ(c)) == []
            && (forall u :: u in Queue(k, CvQ(c)) ==> Is(k, u, BLOCKED) && Is(e, u, READY))
            && (forall u :: u in k.states && u !in Queue(k, CvQ(c)) ==> u in e.states && e.states[u] == k.states[u])
            && (forall ch :: ch != CvQ(c) ==> Queue(e, ch) == Queue(k, ch))
  {
    var e, q := CvBroadcastCall(k, c), Queue(k, CvQ(c));
    BroadcastMoves(k, -1, c);
    BroadcastThreads(k, c);
    assert q[..|q|] == q;
    forall u | u in q ensures Is(k, u, BLOCKED) && Is(e, u, READY) { assert Waiting(k, u, CvQ(c)); }
    forall ch ensures Queue(e, ch) == if ch == CvQ(c) then [] else Queue(k, ch) {
      assert Queue(e, ch) == Rest(k, ch, CvQ(c), |q|) + Joining(e, -1, ch);
    }
  }

  lemma {:induction false} BroadcastThreads(k: Kernel, c: nat)
    requires ThreadsOk(k) && QueuesOk(k)
    ensures CvBroadcastCall(k, c).states.Keys == k.states.Keys
    decreases |Queue(k, CvQ(c))|
  {
    if Queue(k, CvQ(c)) != [] {
      PopWakeKeepsQueues(k, CvQ(c));
      BroadcastThreads(PopWake(k, CvQ(c)), c);
    }
  }

  /** wait(): the mutex's longest waiter leaves, and the caller joins the condition's queue. */
  lemma CvWaitMoves(k: Kernel, t: int, c: nat, m: nat)
    requires ThreadsOk(k) && QueuesOk(k) && Is(k, t, RUNNING)
    ensures Moved(k, CvWaitCall(k, t, c, m), t, MutexQ(m), if Owner(k, m) == t then One(Queue(k, MutexQ(m))) else 0)
  {
    if Owner(k, m) == t {
      ReleaseRows(k, t, m);
      var r := Release(k, t, m);
      PopWakeKeepsQueues(r, MutexQ(m));
      var u := UnlockCall(k, t, m);
      UnlockMoves(k, t, m);
      BlockMoves(u, t, CvQ(c), InCv(c, m));
      ThenBlock(k, u, CvWaitCall(k, t, c, m), t, MutexQ(m), One(Queue(k, MutexQ(m))));
    } else {
      StaysPut(k, k, t);
    }
  }

  lemma ThenBlock(k: Kernel, u: Kernel, e: Kernel, t: int, from: Channel, n: nat)
    requires Moved(k, u, t, from, n) && Stays(u, e, t) && Is(u, t, RUNNING)
    ensures Moved(k, e, t, from, n)
  {
    assert Moved(u, e, t, from, 0);
    forall ch ensures Queue(e, ch) == Rest(k, ch, from, n) + Joining(e, t, ch) {
      assert Queue(u, ch) == Rest(k, ch, from, n) + Joining(u, t, ch);
      assert Queue(e, ch) == Rest(u, ch, from, 0) + Joining(e, t, ch);
    }
  }

  lemma ResumeMoves(k: Kernel, t: int)
    requires KernelInv(k) && NobodyRuns(k) && Is(k, t, READY)
    ensures Stays(k, Resume(k, t), t)
  {
    hide OwnersOk, GraphOk, NoLostWakeup;
    var r := k.(states := k.states[t := RUNNING], at := k.at[t := Outside]);
    assert ThreadsOk(r) && (forall ch :: Queue(r, ch) == Queue(k, ch));
    match k.at[t]
    case Outside => StaysPut(k, r, t);
    case InLock(m) =>
      var e := r.(graph := RemoveEdge(r.graph, ThreadNode(t), MutexNode(m)));
      assert ThreadsOk(e) by { assert forall u, st :: Is(e, u, st) <==> Is(r, u, st); }
      assert forall ch :: Queue(e, ch) == Queue(k, ch);
      LockLoopMoves(e, t, m);
      OthersAsBefore(k, e, Resume(k, t), t);
    case InSem(s) =>
      SemLoopMoves(r, t, s);
      OthersAsBefore(k, r, Resume(k, t), t);
    case InCv(_, m) =>
      if Owner(r, m) == t { StaysPut(r, r, t); } else { LockLoopMoves(r, t, m); }
      OthersAsBefore(k, r, Resume(k, t), t);
  }

  lemma OthersAsBefore(k: Kernel, r: Kernel, e: Kernel, t: int)
    requires (forall ch :: Queue(r, ch) == Queue(k, ch)) && Stays(r, e, t)
    requires forall u :: u in k.states && u != t ==> u in r.states && r.states[u] == k.states[u]
    ensures Stays(k, e, t)
  {
    assert Moved(r, e, t, MutexQ(0), 0);
    forall ch ensures Queue(e, ch) == Queue(k, ch) + Joining(e, t, ch) {
      assert Queue(e, ch) == Rest(r, ch, MutexQ(0), 0) + Joining(e, t, ch);
    }
    StaysPut(k, e, t);
  }

  // ---- the machine's steps ----

  /** The queue at whose front an action wakes threads, and how many: one for unlock(), signal()
      and a wait() that releases its mutex, if there is one; all of them for broadcast(). */
  ghost function Wakes(s: State, a: Action): (Channel, nat)
    requires Enabled(s, a)
  {
    if a.Begin? then (MutexQ(0), 0)
    else
      match s.prog[a.t]
      case Unlock(m, _) => (MutexQ(m), if Owner(s.k, m) == a.t then One(Queue(s.k, MutexQ(m))) else 0)
      case SemSignal(i, _) => (SemQ(i), One(Queue(s.k, SemQ(i))))
      case CvSignal(c, _) => (CvQ(c), One(Queue(s.k, CvQ(c))))
      case CvBroadcast(c, _) => (CvQ(c), |Queue(s.k, CvQ(c))|)
      case CvWait(_, m, _) => (MutexQ(m), if Owner(s.k, m) == a.t then One(Queue(s.k, MutexQ(m))) else 0)
      case WaitWhile(g, _, m, _) =>
        (MutexQ(m), if Holds(g, s.mem) && Owner(s.k, m) == a.t then One(Queue(s.k, MutexQ(m))) else 0)
      case _ => (MutexQ(0), 0)
  }

  /** One action of any program: exactly the waiters that the operation wakes leave their queue,
      from its front, and are READY; the acting thread joins the end of the queue it waits in;
      no other queue and no other thread's state changes. */
  lemma ActionMoves(s: State, a: Action)
    requires Inv(s) && Enabled(s, a)
    ensures Moved(s.k, Next(s, a).k, a.t, Wakes(s, a).0, Wakes(s, a).1)
  {
    hide OwnersOk, GraphOk, NoLostWakeup, Moved;
    var t := a.t;
    if a.Begin? {
      ResumeMoves(s.k, t);
      assert Stays(s.k, Next(s, a).k, t);
    } else {
      match s.prog[t]
      case Done => SwitchMoves(s.k, t, FINISHED);
      case Yield(_) => SwitchMoves(s.k, t, READY);
      case Lock(m, _) => if Owner(s.k, m) != t { LockLoopMoves(s.k, t, m); } else { NothingMoves(s.k, s.k, t); }
      case TryLock(m, _, _) => NothingMoves(s.k, TryLockCall(s.k, t, m), t);
      case Unlock(m, _) => UnlockMoves(s.k, t, m);
      case SemWait(i, _) => SemLoopMoves(s.k, t, i);
      case SemSignal(i, _) => SemSignalMoves(s.k, t, i);
      case CvWait(c, m, _) => CvWaitMoves(s.k, t, c, m);
      case CvSignal(c, _) => PopMoves(s.k, t, CvQ(c));
      case CvBroadcast(c, _) => BroadcastMoves(s.k, t, c);
      case WaitWhile(g, c, m, _) => if Holds(g, s.mem) { CvWaitMoves(s.k, t, c, m); } else { NothingMoves(s.k, s.k, t); }
      case Do(_, _) => NothingMoves(s.k, s.k, t);
      case If(_, _, _) => NothingMoves(s.k, s.k, t);
    }
  }

  lemma NothingMoves(k: Kernel, k': Kernel, t: int)
    requires Is(k, t, RUNNING) && k'.states == k.states && k'.queues == k.queues
    ensures Stays(k, k', t)
  {
    assert forall ch :: !Waiting(k', t, ch);
    StaysPut(k, k', t);
  }

  lemma SwitchMoves(k: Kernel, t: int, st: ThreadState)
    requires ThreadsOk(k) && Is(k, t, RUNNING) && (st == READY || st == FINISHED)
    ensures Stays(k, SetState(k, t, st), t)
  {
    var e := SetState(k, t, st);
    assert forall ch :: !Waiting(e, t, ch);
    StaysPut(k, e, t);
  }

  // ---- whole runs ----

  /** Who blocked in the primitive of ch during the run, in this order. */
  ghost function Arrivals(s: State, acts: seq<Action>, ch: Channel): seq<int>
    requires IsRun(s, acts)
    decreases |acts|
  {
    if acts == [] then []
    else Joining(Next(s, acts[0]).k, acts[0].t, ch) + Arrivals(Next(s, acts[0]), acts[1..], ch)
  }

  /** Who was woken from ch during the run, in this order. */
  ghost function Departures(s: State, acts: seq<Action>, ch: Channel): seq<int>
    requires IsRun(s, acts)
    decreases |acts|
  {
    if acts == [] then [] else Leaving(s, acts[0], ch) + Departures(Next(s, acts[0]), acts[1..], ch)
  }

  ghost function Leaving(s: State, a: Action, ch: Channel): seq<int>
    requires Enabled(s, a)
  {
    var (from, n) := Wakes(s, a);
    if ch == from && n <= |Queue(s.k, ch)| then Queue(s.k, ch)[..n] else []
  }

  lemma StepIsFifo(s: State, a: Action, ch: Channel)
    requires Inv(s) && Enabled(s, a)
    ensures Leaving(s, a, ch) + Queue(Next(s, a).k, ch) == Queue(s.k, ch) + Joining(Next(s, a).k, a.t, ch)
    ensures forall u :: u in Leaving(s, a, ch) ==> Is(s.k, u, BLOCKED) && Is(Next(s, a).k, u, READY)
  {
    hide OwnersOk, GraphOk, NoLostWakeup, Next, Wakes;
    ActionMoves(s, a);
    var k, k', q := s.k, Next(s, a).k, Queue(s.k, ch);
    var from, n := Wakes(s, a).0, Wakes(s, a).1;
    assert Queue(k', ch) == Rest(k, ch, from, n) + Joining(k', a.t, ch);
    if ch == from {
      assert q == q[..n] + q[n..];
      forall u | u in q[..n] ensures Is(k, u, BLOCKED) && Is(k', u, READY) {
        assert u in q && Waiting(k, u, ch);
      }
    }
  }

  /** First come, first served: in every run, those who were waiting and those who blocked during
      the run are woken in the order in which they came, and those not woken wait in that order. */
  lemma {:induction false} QueuesAreFifo(s: State, acts: seq<Action>, ch: Channel)
    requires Inv(s) && IsRun(s, acts)
    ensures Departures(s, acts, ch) + Queue(After(s, acts).k, ch) == Queue(s.k, ch) + Arrivals(s, acts, ch)
    decreases |acts|
  {
    hide Inv, Enabled, Next, Leaving, Joining, Queue;
    if acts != [] {
      var s', rest := Next(s, acts[0]), acts[1..];
      NextKeeps(s, acts[0]);
      StepIsFifo(s, acts[0], ch);
      QueuesAreFifo(s', rest, ch);
      var l, d, e := Leaving(s, acts[0], ch), Departures(s', rest, ch), Queue(After(s', rest).k, ch);
      var q, j, r := Queue(s.k, ch), Joining(s'.k, acts[0].t, ch), Arrivals(s', rest, ch);
      assert (l + d) + e == l + (d + e) && l + (Queue(s'.k, ch) + r) == (l + Queue(s'.k, ch)) + r && (q + j) + r == q + (j + r);
    }
  }

  /** From the start on: whoever blocked first is woken first, and the others are still waiting,
      in the order in which they blocked. */
  lemma WokenInOrder(s: State, acts: seq<Action>, ch: Channel)
    requires Initial(s) && IsRun(s, acts)
    ensures Departures(s, acts, ch) <= Arrivals(s, acts, ch)
    ensures Queue(After(s, acts).k, ch) == Arrivals(s, acts, ch)[|Departures(s, acts, ch)|..]
  {
    InitialInv(s);
    QueuesAreFifo(s, acts, ch);
    assert [] + Arrivals(s, acts, ch) == Arrivals(s, acts, ch);
  }
}
