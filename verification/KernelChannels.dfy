/** What each primitive does to the wait queues and to the sets of woken threads. */
module KernelChannels {
  import opened Kernel
  import opened KernelFrame

  ghost predicate SameChannel(k: Kernel, k': Kernel, ch: Channel) {
    Queue(k', ch) == Queue(k, ch) && WokenSet(k', ch) == WokenSet(k, ch)
  }

  lemma AcquireChannels(k: Kernel, t: int, m: nat)
    ensures forall ch :: SameChannel(k, Acquire(k, t, m), ch)
  {
    forall ch ensures SameChannel(k, Acquire(k, t, m), ch) { WokenSame(k, Acquire(k, t, m), ch); }
  }

  lemma UnlockChannels(k: Kernel, t: int, m: nat)
    requires KernelInv(k) && Is(k, t, RUNNING)
    ensures forall ch :: ch != MutexQ(m) ==> SameChannel(k, UnlockCall(k, t, m), ch)
  {
    if Owner(k, m) == t {
      var r := Release(k, t, m);
      assert ThreadsOk(r) && QueuesOk(r) by {
        assert forall u, st :: Is(r, u, st) <==> Is(k, u, st);
        assert forall u, ch :: Waiting(r, u, ch) <==> Waiting(k, u, ch);
        assert forall ch :: Queue(r, ch) == Queue(k, ch);
      }
      PopWakeKeepsQueues(r, MutexQ(m));
      forall ch | ch != MutexQ(m)
        ensures SameChannel(k, UnlockCall(k, t, m), ch)
      {
        WokenSame(k, r, ch);
      }
    }
  }

  lemma SetStateChannels(k: Kernel, t: int, st: ThreadState)
    requires ThreadsOk(k) && Is(k, t, RUNNING)
    ensures forall ch :: SameChannel(k, SetState(k, t, st), ch)
  {
    var r := SetState(k, t, st);
    assert k.at[t] == Outside;
    forall ch
      ensures SameChannel(k, r, ch)
    {
      assert forall u :: Woken(r, u, ch) <==> Woken(k, u, ch);
      WokenSame(k, r, ch);
    }
  }

  lemma CvWaitChannels(k: Kernel, t: int, c: nat, m: nat)
    requires KernelInv(k) && Is(k, t, RUNNING) && Owner(k, m) == t
    ensures forall ch :: ch != MutexQ(m) && ch != CvQ(c) ==> SameChannel(k, CvWaitCall(k, t, c, m), ch)
    ensures Queue(CvWaitCall(k, t, c, m), CvQ(c)) == Queue(k, CvQ(c)) + [t]
    ensures WokenSet(CvWaitCall(k, t, c, m), CvQ(c)) == WokenSet(k, CvQ(c))
  {
    UnlockKeeps(k, t, m);
    UnlockChannels(k, t, m);
    var u := UnlockCall(k, t, m);
    BlockKeepsQueues(u, t, CvQ(c), InCv(c, m));
    assert SameChannel(k, u, CvQ(c));
    forall ch | ch != MutexQ(m) && ch != CvQ(c)
      ensures SameChannel(k, CvWaitCall(k, t, c, m), ch)
    {
      assert SameChannel(k, u, ch);
    }
  }

  /** A resumption that does not block again only takes the thread out of its set of woken threads. */
  lemma ResumeChannels(k: Kernel, t: int)
    requires KernelInv(k) && NobodyRuns(k) && Is(k, t, READY) && Is(Resume(k, t), t, RUNNING)
    ensures forall ch :: Queue(Resume(k, t), ch) == Queue(k, ch)
    ensures forall ch :: WokenSet(Resume(k, t), ch) == WokenSet(k, ch) - {t}
  {
    var f := Resume(k, t);
    ResumeFrame(k, t);
    forall ch
      ensures WokenSet(f, ch) == WokenSet(k, ch) - {t}
    {
      forall u
        ensures u in WokenSet(f, ch) <==> u in WokenSet(k, ch) - {t}
      {
        ResumeOthers(k, t, u);
        assert Woken(f, u, ch) <==> Woken(k, u, ch) && u != t;
      }
    }
  }

  /** A resumption wakes nobody. */
  lemma ResumeOthers(k: Kernel, t: int, u: int)
    requires KernelInv(k) && NobodyRuns(k) && Is(k, t, READY)
    ensures u != t && u in k.states ==>
              && u in Resume(k, t).states && Resume(k, t).states[u] == k.states[u]
              && u in Resume(k, t).at && Resume(k, t).at[u] == k.at[u]
    ensures u in Resume(k, t).states <==> u in k.states
  {
    ResumeFrame(k, t);
    if u != t && u in k.states { assert Bystander(k, Resume(k, t), u); }
  }
}
