/** What a primitive called by one thread can do to the others, and to what that thread holds. */
module KernelFrame {
  import opened WaitGraph
  import opened Kernel

  function Held(k: Kernel, t: int): set<nat> {
    set m | m in k.owner && k.owner[m] == t
  }

  /** A thread that did not run may have been woken; nothing else about it changed. */
  ghost predicate Bystander(k: Kernel, k': Kernel, u: int)
    requires k.at.Keys == k.states.Keys && k'.at.Keys == k'.states.Keys && u in k.states && u in k'.states
  {
    && k'.at[u] == k.at[u]
    && (k'.states[u] == k.states[u] || (k.states[u] == BLOCKED && k'.states[u] == READY))
    && Held(k', u) == Held(k, u)
  }

  ghost predicate Frame(k: Kernel, k': Kernel, t: int) {
    && k.at.Keys == k.states.Keys && k'.at.Keys == k'.states.Keys
    && k'.states.Keys == k.states.Keys
    && (forall u :: u in k.states && u != t ==> Bystander(k, k', u))
  }

  /** What became of the calling thread: its state, where it is suspended, what it holds. */
  ghost predicate Caller(k': Kernel, t: int, st: ThreadState, w: Where, held: set<nat>) {
    Is(k', t, st) && t in k'.at && k'.at[t] == w && Held(k', t) == held
  }

  lemma AcquireFrame(k: Kernel, t: int, m: nat)
    requires ThreadsOk(k) && Is(k, t, RUNNING) && Owner(k, m) == NoOwner
    ensures Frame(k, Acquire(k, t, m), t)
    ensures Caller(Acquire(k, t, m), t, RUNNING, k.at[t], Held(k, t) + {m})
  {
    var a := Acquire(k, t, m);
    forall u | u in k.states && u != t
      ensures Held(a, u) == Held(k, u)
    {
    }
  }

  lemma LockLoopFrame(k: Kernel, t: int, m: nat)
    requires ThreadsOk(k) && Is(k, t, RUNNING)
    ensures Frame(k, LockLoop(k, t, m), t)
    ensures Owner(k, m) == NoOwner ==> Caller(LockLoop(k, t, m), t, RUNNING, k.at[t], Held(k, t) + {m})
    ensures Owner(k, m) != NoOwner ==> Caller(LockLoop(k, t, m), t, BLOCKED, InLock(m), Held(k, t))
  {
    if Owner(k, m) == NoOwner { AcquireFrame(k, t, m); }
  }

  lemma PopWakeFrame(k: Kernel, ch: Channel)
    requires ThreadsOk(k) && QueuesOk(k)
    ensures PopWake(k, ch).states.Keys == k.states.Keys && PopWake(k, ch).at.Keys == k.states.Keys
    ensures forall u :: u in k.states ==> Bystander(k, PopWake(k, ch), u)
  {
    PopWakeKeepsQueues(k, ch);
  }

  lemma UnlockFrame(k: Kernel, t: int, m: nat)
    requires ThreadsOk(k) && QueuesOk(k) && Is(k, t, RUNNING)
    ensures Frame(k, UnlockCall(k, t, m), t)
    ensures Caller(UnlockCall(k, t, m), t, RUNNING, k.at[t], Held(k, t) - {m})
  {
    if Owner(k, m) == t {
      var r := Release(k, t, m);
      assert ThreadsOk(r) && QueuesOk(r) by {
        assert forall u, st :: Is(r, u, st) <==> Is(k, u, st);
        assert forall u, ch :: Waiting(r, u, ch) <==> Waiting(k, u, ch);
        assert forall ch :: Queue(r, ch) == Queue(k, ch);
      }
      assert Held(r, t) == Held(k, t) - {m};
      forall u | u in k.states && u != t
        ensures Held(r, u) == Held(k, u)
      {
      }
      PopWakeFrame(r, MutexQ(m));
    } else {
      assert Held(k, t) - {m} == Held(k, t);
    }
  }

  lemma SemLoopFrame(k: Kernel, t: int, s: nat)
    requires ThreadsOk(k) && Is(k, t, RUNNING)
    ensures Frame(k, SemLoop(k, t, s), t)
    ensures Count(k, s) == 0 ==> Caller(SemLoop(k, t, s), t, BLOCKED, InSem(s), Held(k, t))
    ensures Count(k, s) != 0 ==> Caller(SemLoop(k, t, s), t, RUNNING, k.at[t], Held(k, t))
  {
  }

  lemma SignalFrame(k: Kernel, t: int, ch: Channel)
    requires ThreadsOk(k) && QueuesOk(k) && Is(k, t, RUNNING)
    ensures Frame(k, PopWake(k, ch), t)
    ensures Caller(PopWake(k, ch), t, RUNNING, k.at[t], Held(k, t))
  {
    PopWakeFrame(k, ch);
  }

  lemma SemSignalFrame(k: Kernel, t: int, s: nat)
    requires ThreadsOk(k) && QueuesOk(k) && Is(k, t, RUNNING)
    ensures Frame(k, SemSignalCall(k, s), t)
    ensures Caller(SemSignalCall(k, s), t, RUNNING, k.at[t], Held(k, t))
  {
    var c := k.(count := k.count[s := Count(k, s) + 1]);
    assert ThreadsOk(c) && QueuesOk(c) by {
      assert forall u, st :: Is(c, u, st) <==> Is(k, u, st);
      assert forall u, ch :: Waiting(c, u, ch) <==> Waiting(k, u, ch);
      assert forall ch :: Queue(c, ch) == Queue(k, ch);
    }
    PopWakeFrame(c, SemQ(s));
  }

  lemma {:induction false} BroadcastFrame(k: Kernel, t: int, c: nat)
    requires ThreadsOk(k) && QueuesOk(k) && Is(k, t, RUNNING)
    ensures Frame(k, CvBroadcastCall(k, c), t)
    ensures Caller(CvBroadcastCall(k, c), t, RUNNING, k.at[t], Held(k, t))
    decreases |Queue(k, CvQ(c))|
  {
    if Queue(k, CvQ(c)) != [] {
      var p := PopWake(k, CvQ(c));
      SignalFrame(k, t, CvQ(c));
      PopWakeKeepsQueues(k, CvQ(c));
      BroadcastFrame(p, t, c);
      assert forall u :: u in k.states && u != t ==> Bystander(k, p, u);
    }
  }

  lemma CvWaitFrame(k: Kernel, t: int, c: nat, m: nat)
    requires ThreadsOk(k) && QueuesOk(k) && Is(k, t, RUNNING) && Owner(k, m) == t
    ensures Frame(k, CvWaitCall(k, t, c, m), t)
    ensures Caller(CvWaitCall(k, t, c, m), t, BLOCKED, InCv(c, m), Held(k, t) - {m})
  {
    UnlockFrame(k, t, m);
    var u := UnlockCall(k, t, m);
    var b := CvWaitCall(k, t, c, m);
    assert forall v :: Held(b, v) == Held(u, v);
    assert forall v :: v in k.states && v != t ==> Bystander(k, u, v);
  }

  lemma SetStateFrame(k: Kernel, t: int, st: ThreadState)
    requires ThreadsOk(k) && Is(k, t, RUNNING) && (st == READY || st == FINISHED)
    ensures Frame(k, SetState(k, t, st), t)
    ensures Caller(SetState(k, t, st), t, st, k.at[t], Held(k, t))
  {
  }

  /** Where the resumed thread stands after the first part of its dispatch. */
  lemma ResumeFrame(k: Kernel, t: int)
    requires KernelInv(k) && NobodyRuns(k) && Is(k, t, READY)
    ensures Frame(k, Resume(k, t), t)
    ensures match k.at[t]
            case Outside => Caller(Resume(k, t), t, RUNNING, Outside, Held(k, t))
            case InSem(s) =>
              if Count(k, s) == 0 then Caller(Resume(k, t), t, BLOCKED, InSem(s), Held(k, t))
              else Caller(Resume(k, t), t, RUNNING, Outside, Held(k, t))
            case InLock(m) =>
              if Owner(k, m) == NoOwner then Caller(Resume(k, t), t, RUNNING, Outside, Held(k, t) + {m})
              else Caller(Resume(k, t), t, BLOCKED, InLock(m), Held(k, t))
            case InCv(_, m) =>
              if Owner(k, m) == NoOwner || Owner(k, m) == t then Caller(Resume(k, t), t, RUNNING, Outside, Held(k, t) + {m})
              else Caller(Resume(k, t), t, BLOCKED, InLock(m), Held(k, t))
  {
    var r := k.(states := k.states[t := RUNNING], at := k.at[t := Outside]);
    var f := Resume(k, t);
    assert ThreadsOk(r);
    assert forall v :: Held(r, v) == Held(k, v);
    assert forall i: nat :: Owner(r, i) == Owner(k, i);
    assert Frame(k, r, t);
    match k.at[t] {
      case Outside =>
      case InSem(s) =>
        SemLoopFrame(r, t, s);
        FrameThen(k, r, f, t);
      case InLock(m) =>
        var e := r.(graph := RemoveEdge(r.graph, ThreadNode(t), MutexNode(m)));
        assert ThreadsOk(e) by { assert forall u, st :: Is(e, u, st) <==> Is(r, u, st); }
        assert forall v :: Held(e, v) == Held(k, v);
        assert Frame(k, e, t);
        LockLoopFrame(e, t, m);
        FrameThen(k, e, f, t);
      case InCv(_, m) =>
        if Owner(r, m) == t {
          assert Held(r, t) + {m} == Held(k, t);
        } else {
          LockLoopFrame(r, t, m);
          FrameThen(k, r, f, t);
        }
    }
  }

  lemma FrameThen(k: Kernel, j: Kernel, l: Kernel, t: int)
    requires Frame(k, j, t) && Frame(j, l, t)
    ensures Frame(k, l, t)
  {
    forall u | u in k.states && u != t
      ensures Bystander(k, l, u)
    {
      assert Bystander(k, j, u) && Bystander(j, l, u);
    }
  }
}
