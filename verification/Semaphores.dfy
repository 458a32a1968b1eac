/** Semaphores over whole runs: counts are conserved and no signal is lost. */
module Semaphores {
  import opened Kernel
  import opened KernelFrame
  import opened Machine
  import opened Deadlock

  /** 1 if this action is a signal() on semaphore i. */
  ghost function SignalsIn(s: State, a: Action, i: nat): nat
    requires Enabled(s, a)
  {
    if a.Run? && s.prog[a.t].SemSignal? && s.prog[a.t].s == i then 1 else 0
  }

  /** 1 if a wait() on semaphore i returns in this action, whether called or resumed in it. */
  ghost function WaitsCompletedIn(s: State, a: Action, i: nat): nat
    requires Enabled(s, a)
  {
    match a
    case Begin(t) => if s.k.at[t] == InSem(i) && Next(s, a).k.at[t] == Outside then 1 else 0
    case Run(t) =>
      if s.prog[t].SemWait? && s.prog[t].s == i && Is(Next(s, a).k, t, RUNNING) then 1 else 0
  }

  ghost function Signals(s: State, acts: seq<Action>, i: nat): nat
    requires IsRun(s, acts)
    decreases |acts|
  {
    if acts == [] then 0 else SignalsIn(s, acts[0], i) + Signals(Next(s, acts[0]), acts[1..], i)
  }

  ghost function WaitsCompleted(s: State, acts: seq<Action>, i: nat): nat
    requires IsRun(s, acts)
    decreases |acts|
  {
    if acts == [] then 0 else WaitsCompletedIn(s, acts[0], i) + WaitsCompleted(Next(s, acts[0]), acts[1..], i)
  }

  lemma {:induction false} BroadcastKeepsCounts(k: Kernel, c: nat)
    ensures CvBroadcastCall(k, c).count == k.count
    decreases |Queue(k, CvQ(c))|
  {
    if Queue(k, CvQ(c)) != [] { BroadcastKeepsCounts(PopWake(k, CvQ(c)), c); }
  }

  lemma CountOnBegin(s: State, t: int, i: nat)
    requires Inv(s) && Enabled(s, Begin(t))
    ensures Count(Resume(s.k, t), i) + WaitsCompletedIn(s, Begin(t), i) == Count(s.k, i)
  {
    ResumeFrame(s.k, t);
    assert Count(s.k.(states := s.k.states[t := RUNNING], at := s.k.at[t := Outside]), i) == Count(s.k, i);
  }

  lemma CountOnWait(s: State, t: int, i: nat)
    requires Is(s.k, t, RUNNING) && t in s.prog && s.prog[t].SemWait?
    ensures Count(Exec(s, t).k, i) + WaitsCompletedIn(s, Run(t), i) == Count(s.k, i)
  {
  }

  lemma CvWaitKeepsCounts(k: Kernel, t: int, c: nat, m: nat)
    requires Is(k, t, RUNNING)
    ensures CvWaitCall(k, t, c, m).count == k.count
  {
    assert UnlockCall(k, t, m).count == k.count;
  }

  lemma CountOnMutexOrCv(s: State, t: int)
    requires Is(s.k, t, RUNNING) && t in s.prog
    requires match s.prog[t]
             case Lock(_, _) => true
             case TryLock(_, _, _) => true
             case Unlock(_, _) => true
             case CvWait(_, _, _) => true
             case WaitWhile(_, _, _, _) => true
             case _ => false
    ensures Exec(s, t).k.count == s.k.count
  {
    match s.prog[t]
    case CvWait(c, m, _) => CvWaitKeepsCounts(s.k, t, c, m);
    case WaitWhile(_, c, m, _) => CvWaitKeepsCounts(s.k, t, c, m);
    case _ =>
  }

  lemma CountOnRun(s: State, t: int, i: nat)
    requires Is(s.k, t, RUNNING) && t in s.prog
    ensures Count(Exec(s, t).k, i) + WaitsCompletedIn(s, Run(t), i) == Count(s.k, i) + SignalsIn(s, Run(t), i)
  {
    match s.prog[t]
    case SemWait(_, _) => CountOnWait(s, t, i);
    case CvBroadcast(c, _) => BroadcastKeepsCounts(s.k, c);
    case Lock(_, _) => CountOnMutexOrCv(s, t);
    case TryLock(_, _, _) => CountOnMutexOrCv(s, t);
    case Unlock(_, _) => CountOnMutexOrCv(s, t);
    case CvWait(_, _, _) => CountOnMutexOrCv(s, t);
    case WaitWhile(_, _, _, _) => CountOnMutexOrCv(s, t);
    case _ =>
  }

  lemma CountStep(s: State, a: Action, i: nat)
    requires Inv(s) && Enabled(s, a)
    ensures Count(Next(s, a).k, i) + WaitsCompletedIn(s, a, i) == Count(s.k, i) + SignalsIn(s, a, i)
  {
    match a
    case Begin(t) => CountOnBegin(s, t, i);
    case Run(t) => CountOnRun(s, t, i);
  }

  /** The count always equals the initial count plus the signals minus the completed waits. */
  lemma {:induction false} SemaphoreConservation(s: State, acts: seq<Action>, i: nat)
    requires Inv(s) && IsRun(s, acts)
    ensures Count(After(s, acts).k, i) + WaitsCompleted(s, acts, i) == Count(s.k, i) + Signals(s, acts, i)
    decreases |acts|
  {
    if acts != [] {
      NextKeeps(s, acts[0]);
      CountStep(s, acts[0], i);
      SemaphoreConservation(Next(s, acts[0]), acts[1..], i);
    }
  }

  lemma NobodyWoken(s: State, ch: Channel)
    requires Quiescent(s)
    ensures WokenSet(s.k, ch) == {}
  {
    assert forall u :: !Woken(s.k, u, ch);
  }

  /** When nobody is READY, a thread is left waiting only if there is nothing to take. */
  lemma WaitersOnlyAtZero(s: State, acts: seq<Action>, t: int, i: nat)
    requires Inv(s) && IsRun(s, acts) && Quiescent(After(s, acts))
    requires Waiting(After(s, acts).k, t, SemQ(i))
    ensures Count(After(s, acts).k, i) == 0
    ensures WaitsCompleted(s, acts, i) == Count(s.k, i) + Signals(s, acts, i)
  {
    var e := After(s, acts);
    ReachableInv(s, acts);
    NobodyWoken(e, SemQ(i));
    assert t in Queue(e.k, SemQ(i));
    assert WakeOk(e.k, SemQ(i));
    SemaphoreConservation(s, acts, i);
  }
}
