/** What the objects of the runtime have to do, step by step, and why that keeps the
    invariants: the part of their correctness that needs no heap. */
module RuntimeSteps {
  import opened Collections
  import opened WaitGraph
  import opened Kernel
  import opened KernelFrame
  import opened Machine
  import opened Termination
  import opened Deadlock
  import opened Scheduling
  import opened Threads

  /** A program that only names primitives that exist. */
  predicate Fits(p: Prog, mutexes: nat, semaphores: nat, conditions: nat) {
    match p
    case Done => true
    case Yield(next) => Fits(next, mutexes, semaphores, conditions)
    case Lock(m, next) => m < mutexes && Fits(next, mutexes, semaphores, conditions)
    case TryLock(m, yes, no) =>
      m < mutexes && Fits(yes, mutexes, semaphores, conditions) && Fits(no, mutexes, semaphores, conditions)
    case Unlock(m, next) => m < mutexes && Fits(next, mutexes, semaphores, conditions)
    case SemWait(s, next) => s < semaphores && Fits(next, mutexes, semaphores, conditions)
    case SemSignal(s, next) => s < semaphores && Fits(next, mutexes, semaphores, conditions)
    case CvWait(c, m, next) => c < conditions && m < mutexes && Fits(next, mutexes, semaphores, conditions)
    case CvSignal(c, next) => c < conditions && Fits(next, mutexes, semaphores, conditions)
    case CvBroadcast(c, next) => c < conditions && Fits(next, mutexes, semaphores, conditions)
    case WaitWhile(_, c, m, next) => c < conditions && m < mutexes && Fits(next, mutexes, semaphores, conditions)
    case Do(_, next) => Fits(next, mutexes, semaphores, conditions)
    case If(_, yes, no) => Fits(yes, mutexes, semaphores, conditions) && Fits(no, mutexes, semaphores, conditions)
  }

  predicate WhereFits(w: Where, mutexes: nat, semaphores: nat, conditions: nat) {
    match w
    case Outside => true
    case InLock(m) => m < mutexes
    case InSem(s) => s < semaphores
    case InCv(c, m) => c < conditions && m < mutexes
  }

  ghost predicate AllFit(s: State, mutexes: nat, semaphores: nat, conditions: nat) {
    && (forall t :: t in s.prog ==> Fits(s.prog[t], mutexes, semaphores, conditions))
    && (forall t :: t in s.k.at ==> WhereFits(s.k.at[t], mutexes, semaphores, conditions))
  }

  lemma FitsAfter(s: State, t: int, mutexes: nat, semaphores: nat, conditions: nat)
    requires Inv(s) && Is(s.k, t, RUNNING) && AllFit(s, mutexes, semaphores, conditions)
    ensures t in Exec(s, t).k.at && WhereFits(Exec(s, t).k.at[t], mutexes, semaphores, conditions)
  {
    hide KernelInv, Exec;
    ExecMovesCaller(s, t);
    assert Fits(s.prog[t], mutexes, semaphores, conditions);
  }

  /** Programs only shrink, and threads only wait where their programs said. */
  lemma ExecFits(s: State, t: int, mutexes: nat, semaphores: nat, conditions: nat)
    requires Inv(s) && Is(s.k, t, RUNNING) && AllFit(s, mutexes, semaphores, conditions)
    ensures AllFit(Exec(s, t), mutexes, semaphores, conditions)
  {
    var s' := Exec(s, t);
    FitsAfter(s, t, mutexes, semaphores, conditions);
    ExecFrame(s, t);
    forall u | u in s'.k.at ensures WhereFits(s'.k.at[u], mutexes, semaphores, conditions) {
      if u != t { assert Bystander(s.k, s'.k, u); }
    }
  }

  lemma BegunFits(s: State, t: int, mutexes: nat, semaphores: nat, conditions: nat)
    requires Inv(s) && Enabled(s, Begin(t)) && AllFit(s, mutexes, semaphores, conditions)
    ensures AllFit(Begun(s, t), mutexes, semaphores, conditions) && WhereFits(s.k.at[t], mutexes, semaphores, conditions)
    ensures var r := s.k.(states := s.k.states[t := RUNNING], at := s.k.at[t := Outside]);
            Begun(s, t) == s.(k := Resumed(r, t, s.k.at[t]))
  {
    BeginFits(s, t, mutexes, semaphores, conditions);
  }

  lemma RanFits(s: State, t: int, mutexes: nat, semaphores: nat, conditions: nat)
    requires Inv(s) && AllFit(s, mutexes, semaphores, conditions)
    ensures AllFit(Ran(s, t), mutexes, semaphores, conditions)
  {
    hide AllFit, Inv;
    if Enabled(s, Run(t)) { ExecFits(s, t, mutexes, semaphores, conditions); }
  }

  lemma BeginFits(s: State, t: int, mutexes: nat, semaphores: nat, conditions: nat)
    requires Inv(s) && Enabled(s, Begin(t)) && AllFit(s, mutexes, semaphores, conditions)
    ensures AllFit(Next(s, Begin(t)), mutexes, semaphores, conditions)
  {
    var s' := Next(s, Begin(t));
    ResumeFrame(s.k, t);
    forall u | u in s'.k.at ensures WhereFits(s'.k.at[u], mutexes, semaphores, conditions) {
      if u != t { assert Bystander(s.k, s'.k, u); }
    }
  }

  /** One operation of thread t, if it is running. */
  ghost function Ran(s: State, t: int): State {
    if Enabled(s, Run(t)) then Exec(s, t) else s
  }

  /** Thread t dispatched, if it can be. */
  ghost function Begun(s: State, t: int): State {
    if Enabled(s, Begin(t)) then Next(s, Begin(t)) else s
  }

  ghost function Fuel(s: State): nat {
    if Good(s) then Measure(s) else 0
  }

  lemma OneMoreOp(s: State, t: int)
    requires Good(s) && Is(s.k, t, RUNNING)
    ensures Inv(s) && Enabled(s, Run(t)) && Good(Ran(s, t)) && Fuel(Ran(s, t)) < Fuel(s)
    ensures RunOut(s, t) == RunOut(Ran(s, t), t)
  {
    hide KernelInv, AllObey;
    ExecIsGood(s, t);
  }

  lemma DispatchParts(c: Sched, t: int)
    requires SchedOk(c) && Is(c.ms.k, t, READY)
    ensures Inv(c.ms) && Enabled(c.ms, Begin(t)) && t in c.firstRun && Good(Begun(c.ms, t))
    ensures SchedOk(Scheduling.DispatchThread(c, t))
    ensures var e := RunOut(Begun(c.ms, t), t);
            Scheduling.DispatchThread(c, t) ==
            c.(ms := e, firstRun := FirstRun(c.firstRun, t, c.clock), clock := c.clock + 1,
               finish := if Is(e.k, t, FINISHED) then c.finish[t := c.clock + 1] else c.finish)
  {
    hide KernelInv, AllObey, RunOut, Begun, Dispatch;
    CanBegin(c, t);
    DispatchIsRunOut(c.ms, t);
    DispatchThreadOk(c, t);
  }

  /** The ticks of the dispatched thread: its first-run tick once, and its finish tick when it ends. */
  lemma DispatchTicks(c: Sched, t: int)
    requires SchedOk(c) && Is(c.ms.k, t, READY)
    ensures var d := Scheduling.DispatchThread(c, t);
            && d.clock == c.clock + 1 && t in c.firstRun && t in c.finish && t in d.firstRun && t in d.finish
            && d.firstRun[t] == (if c.firstRun[t] == -1 then c.clock else c.firstRun[t])
            && d.finish[t] == (if Is(d.ms.k, t, FINISHED) then d.clock else c.finish[t])
  {
    hide Good, Dispatch;
    CanBegin(c, t);
  }

  lemma DispatchIsRunOut(s: State, t: int)
    requires Good(s) && Enabled(s, Begin(t))
    ensures Good(Begun(s, t)) && Dispatch(s, t) == RunOut(Begun(s, t), t)
  {
    hide KernelInv, AllObey, RunOut, Resume;
    BeginIsGood(s, t);
  }

  /** The i-th place of the cyclic scan is the one at distance i. */
  lemma ScanAt(rr: nat, i: nat, size: nat)
    requires rr < size && i < size
    ensures var idx := (rr + i) % size;
            && idx < size && Distance(rr, idx, size) == i && (idx + 1) % size == IndexAfter(idx, size)
            && forall j: nat :: j < size && Distance(rr, j, size) == i ==> j == idx
  {
    WrapsOnce(rr + i, size);
    WrapsOnce((rr + i) % size + 1, size);
  }

  lemma OneDispatch(c: Sched, t: int)
    requires SchedOk(c) && Is(c.ms.k, t, READY)
    ensures Slice(c, t, 1) == Scheduling.DispatchThread(c, t)
  {
  }

  ghost function Left(c: Sched): nat {
    if SchedOk(c) then Measure(c.ms) else 0
  }

  lemma LessLeft(c: Sched, i: nat)
    requires SchedOk(c) && Chosen(c, i)
    ensures Left(StepWith(c, i)) < Left(c)
  {
    hide SchedOk, Chosen, Measure;
    StepOk(c, i);
  }

  /** Thread tid was not FINISHED before any of the steps. */
  ghost predicate NotFinishedDuring(c: Sched, picks: seq<nat>, tid: int)
    requires SchedOk(c)
  {
    forall j :: 0 <= j < |picks| ==> UnfinishedAfter(c, picks[..j], tid)
  }

  ghost predicate UnfinishedAfter(c: Sched, picks: seq<nat>, tid: int)
    requires SchedOk(c)
  {
    Steps(c, picks) && !Is(AfterSteps(c, picks).ms.k, tid, FINISHED)
  }

  lemma OneMoreUnfinished(c: Sched, picks: seq<nat>, at: nat, tid: int)
    requires SchedOk(c) && NotFinishedDuring(c, picks, tid) && UnfinishedAfter(c, picks, tid)
    ensures NotFinishedDuring(c, picks + [at], tid)
  {
    hide SchedOk, UnfinishedAfter;
    var all := picks + [at];
    forall j | 0 <= j < |all| ensures UnfinishedAfter(c, all[..j], tid) {
      assert all[..j] == if j < |picks| then picks[..j] else picks;
    }
  }

  lemma EndOfRun(c: Sched, picks: seq<nat>)
    requires SchedOk(c) && Steps(c, picks) && Quiescent(AfterSteps(c, picks).ms)
    ensures AllMutexOnly(c.ms) ==>
              var e := AfterSteps(c, picks).ms;
              && (AllFinished(e) <==> !HasCycle(e.k.graph) && !Stranded(e.k))
              && (AllObey(ExitEmptyHanded, c.ms) ==> !Stranded(e.k))
  {
    if AllMutexOnly(c.ms) {
      RunEndsDoneOrDeadlocked(c, picks);
    }
  }

  /** The state with a new READY thread. */
  ghost function WithThread(c: Sched, tid: int, priority: int, burst: int, program: Prog): Sched {
    var k := c.ms.k;
    c.(ms := State(k.(states := k.states[tid := READY], at := k.at[tid := Outside]), c.ms.prog[tid := program], c.ms.mem),
       order := c.order + [tid], priority := c.priority[tid := priority], burst := c.burst[tid := burst],
       firstRun := c.firstRun[tid := -1], finish := c.finish[tid := -1])
  }

  lemma SpawnKeepsInv(s: State, tid: int, program: Prog)
    requires Inv(s) && 0 < tid && tid !in s.k.states
    ensures Inv(State(s.k.(states := s.k.states[tid := READY], at := s.k.at[tid := Outside]), s.prog[tid := program], s.mem))
  {
    var k, k' := s.k, s.k.(states := s.k.states[tid := READY], at := s.k.at[tid := Outside]);
    KeysWith(s.prog, tid, program);
    KeysWith(k.states, tid, READY);
    SpawnKeepsQueues(k, k', tid);
    SpawnKeepsGraph(k, k', tid);
  }

  lemma SpawnKeepsQueues(k: Kernel, k': Kernel, tid: int)
    requires ThreadsOk(k) && QueuesOk(k) && NoLostWakeup(k) && 0 < tid && tid !in k.states
    requires k' == k.(states := k.states[tid := READY], at := k.at[tid := Outside])
    ensures ThreadsOk(k') && QueuesOk(k') && NoLostWakeup(k')
  {
    KeysWith(k.states, tid, READY);
    KeysWith(k.at, tid, Outside);
    assert forall t, st :: Is(k', t, st) <==> Is(k, t, st) || (t == tid && st == READY);
    assert forall ch :: Queue(k', ch) == Queue(k, ch);
    assert forall t, ch :: Waiting(k', t, ch) <==> Waiting(k, t, ch);
    forall ch ensures WakeOk(k', ch) {
      WokenSame(k, k', ch);
      assert WakeOk(k, ch);
    }
  }

  lemma SpawnKeepsGraph(k: Kernel, k': Kernel, tid: int)
    requires k.at.Keys == k.states.Keys && OwnersOk(k) && GraphOk(k) && 0 < tid && tid !in k.states
    requires k' == k.(states := k.states[tid := READY], at := k.at[tid := Outside])
    ensures OwnersOk(k') && GraphOk(k')
  {
    assert forall m: nat :: Owner(k', m) == Owner(k, m);
    forall n ensures Out(k'.graph, n) == TrueEdges(k', n) {
      assert Out(k.graph, n) == TrueEdges(k, n);
    }
  }

  lemma SpawnKeepsTables(c: Sched, tid: int, priority: int, burst: int, program: Prog)
    requires Tables(c, c.ms.k.states.Keys) && tid !in c.ms.k.states
    ensures Tables(WithThread(c, tid, priority, burst, program), WithThread(c, tid, priority, burst, program).ms.k.states.Keys)
  {
    var d := WithThread(c, tid, priority, burst, program);
    KeysWith(c.ms.k.states, tid, READY);
    KeysWith(c.priority, tid, priority);
    KeysWith(c.burst, tid, burst);
    KeysWith(c.firstRun, tid, -1);
    KeysWith(c.finish, tid, -1);
    assert tid !in c.order by { assert tid !in (set t | t in c.order); }
    assert (set t | t in d.order) == (set t | t in c.order) + {tid};
  }

  lemma SpawnKeeps(c: Sched, tid: int, priority: int, burst: int, program: Prog)
    requires SchedOk(c) && 0 < tid && tid !in c.ms.k.states && Obeys(WaitOwning, program, {})
    ensures SchedOk(WithThread(c, tid, priority, burst, program))
  {
    hide Tables, KernelInv, AllObey, Obeys;
    var d := WithThread(c, tid, priority, burst, program);
    SpawnKeepsTables(c, tid, priority, burst, program);
    SpawnKeepsInv(c.ms, tid, program);
    SpawnObeys(c.ms, d.ms, tid);
    forall u ensures !Is(d.ms.k, u, RUNNING) {
      assert !Is(c.ms.k, u, RUNNING);
    }
  }

  lemma SpawnSettings(c: Sched, tid: int, priority: int, burst: int, program: Prog)
    ensures var d := WithThread(c, tid, priority, burst, program);
            && d.order == c.order + [tid] && tid in d.priority && d.priority[tid] == priority
            && tid in d.burst && d.burst[tid] == burst
  {
  }

  lemma SpawnFits(c: Sched, tid: int, priority: int, burst: int, program: Prog, mutexes: nat, semaphores: nat, conditions: nat)
    requires AllFit(c.ms, mutexes, semaphores, conditions) && Fits(program, mutexes, semaphores, conditions)
    ensures AllFit(WithThread(c, tid, priority, burst, program).ms, mutexes, semaphores, conditions)
  {
    hide Fits;
  }

  lemma SpawnStarts(c: Sched, tid: int, priority: int, burst: int, program: Prog)
    requires Initial(c.ms) && 0 < tid
    ensures Initial(WithThread(c, tid, priority, burst, program).ms)
  {
  }

  lemma SpawnObeys(s: State, s': State, tid: int)
    requires Inv(s) && AllObey(WaitOwning, s) && Inv(s') && tid !in s.k.states && tid in s'.k.states && Obeys(WaitOwning, s'.prog[tid], {})
    requires s'.k.owner == s.k.owner && s'.k.states[tid] == READY && s'.k.at[tid] == Outside
    requires forall t :: t in s'.k.states && t != tid ==>
               t in s.k.states && s'.k.states[t] == s.k.states[t] && s'.k.at[t] == s.k.at[t] && s'.prog[t] == s.prog[t]
    ensures AllObey(WaitOwning, s')
  {
    forall t | t in s'.k.states ensures ThreadObeys(WaitOwning, s', t) {
      if t == tid {
        forall m: nat ensures m !in Held(s'.k, tid) {
          assert Owner(s.k, m) != NoOwner ==> Owner(s.k, m) in s.k.states;
        }
        assert 0 <= tid;
        assert Held(s'.k, tid) == {} && HeldOnReturn(s'.k, tid) == {};
      } else {
        assert ThreadObeys(WaitOwning, s, t);
        assert Held(s'.k, t) == Held(s.k, t);
      }
    }
  }

  // ---- removing a thread ----

  /** The kernel without the thread's row; queues, owners and graph are left as they are. */
  function RowGone(k: Kernel, tid: int): Kernel {
    k.(states := k.states - {tid}, at := k.at - {tid})
  }

  /** The state without the thread, and with this round-robin index. */
  ghost function WithoutThread(c: Sched, tid: int, rr: nat): Sched {
    c.(ms := State(RowGone(c.ms.k, tid), c.ms.prog - {tid}, c.ms.mem),
       order := Without(c.order, tid), priority := c.priority - {tid}, burst := c.burst - {tid},
       firstRun := c.firstRun - {tid}, finish := c.finish - {tid}, rrIndex := rr)
  }

  /** The thread owns nothing, and no queue, wait edge or unit of a semaphore is left for it. */
  predicate Removable(k: Kernel, tid: int)
    requires tid in k.at
  {
    && (forall m: nat :: m in k.owner ==> k.owner[m] != tid)
    && !Is(k, tid, BLOCKED)
    && match k.at[tid]
       case Outside => true
       case InLock(_) => false
       case InSem(s) => Queue(k, SemQ(s)) == [] || Count(k, s) < |WokenSet(k, SemQ(s))|
       case InCv(_, _) => true
  }

  lemma RowGoneRows(k: Kernel, tid: int)
    requires KernelInv(k) && tid in k.states
    ensures var k' := RowGone(k, tid);
            && (forall t, st :: Is(k', t, st) <==> Is(k, t, st) && t != tid)
            && (forall t, ch :: Waiting(k', t, ch) <==> Waiting(k, t, ch) && t != tid)
            && (forall ch :: Queue(k', ch) == Queue(k, ch))
            && (forall m: nat :: Owner(k', m) == Owner(k, m))
  {
  }

  lemma RowGoneWoken(k: Kernel, tid: int, ch: Channel)
    requires KernelInv(k) && tid in k.states
    ensures WokenSet(RowGone(k, tid), ch) == WokenSet(k, ch) - {tid}
    ensures tid in WokenSet(k, ch) <==> Woken(k, tid, ch)
  {
    forall t ensures t in WokenSet(RowGone(k, tid), ch) <==> t in WokenSet(k, ch) - {tid} {
      assert Woken(RowGone(k, tid), t, ch) <==> Woken(k, t, ch) && t != tid;
    }
  }

  lemma RemovedKeepsWakeups(k: Kernel, tid: int)
    requires KernelInv(k) && tid in k.states && Removable(k, tid)
    ensures NoLostWakeup(RowGone(k, tid))
  {
    forall ch ensures WakeOk(RowGone(k, tid), ch) {
      RowGoneRows(k, tid);
      RowGoneWoken(k, tid, ch);
      assert WakeOk(k, ch);
    }
  }

  lemma RemovedKeepsGraph(k: Kernel, tid: int)
    requires KernelInv(k) && tid in k.states && Removable(k, tid)
    ensures OwnersOk(RowGone(k, tid)) && GraphOk(RowGone(k, tid))
  {
    RowGoneRows(k, tid);
    forall n ensures Out(k.graph, n) == TrueEdges(RowGone(k, tid), n) {
      assert Out(k.graph, n) == TrueEdges(k, n);
    }
  }

  lemma RemovedKeepsQueues(k: Kernel, tid: int)
    requires KernelInv(k) && tid in k.states && Removable(k, tid)
    ensures ThreadsOk(RowGone(k, tid)) && QueuesOk(RowGone(k, tid))
  {
    hide OwnersOk, GraphOk, NoLostWakeup;
    RowGoneRows(k, tid);
    forall ch, t ensures t in Queue(k, ch) <==> Waiting(RowGone(k, tid), t, ch) {
      assert t in Queue(k, ch) <==> Waiting(k, t, ch);
    }
  }

  /** What a thread that is still needed leaves behind breaks the invariant. */
  lemma NeededIsMissed(k: Kernel, tid: int)
    requires KernelInv(k) && tid in k.states && !Removable(k, tid)
    ensures !KernelInv(RowGone(k, tid))
  {
    var k' := RowGone(k, tid);
    RowGoneRows(k, tid);
    if m: nat :| m in k.owner && k.owner[m] == tid {
      assert Owner(k', m) == tid && tid !in k'.states;
    } else {
      match k.at[tid]
      case Outside =>
      case InLock(m) =>
        assert Out(k.graph, tid) == TrueEdges(k, tid);
        assert Out(k'.graph, tid) != TrueEdges(k', tid);
      case InSem(s) =>
        assert Is(k, tid, BLOCKED) ==> tid in Queue(k', SemQ(s)) && !Waiting(k', tid, SemQ(s));
        RowGoneWoken(k, tid, SemQ(s));
        assert Is(k, tid, READY) ==> !WakeOk(k', SemQ(s));
      case InCv(c, _) =>
        assert tid in Queue(k', CvQ(c)) && !Waiting(k', tid, CvQ(c));
    }
  }

  lemma RemovedObeys(s: State, s': State, tid: int)
    requires Inv(s) && AllObey(WaitOwning, s) && s'.k == RowGone(s.k, tid) && s'.prog == s.prog - {tid}
    ensures AllObey(WaitOwning, s')
  {
    forall t | t in s'.k.states ensures ThreadObeys(WaitOwning, s', t) {
      assert ThreadObeys(WaitOwning, s, t);
      assert Held(s'.k, t) == Held(s.k, t);
    }
  }

  lemma RemovedKeepsTables(c: Sched, tid: int, rr: nat)
    requires Tables(c, c.ms.k.states.Keys) && tid in c.ms.k.states
    requires rr < |Without(c.order, tid)| || (rr == 0 && Without(c.order, tid) == [])
    ensures Tables(WithoutThread(c, tid, rr), c.ms.k.states.Keys - {tid})
  {
    hide Without;
    var d := WithoutThread(c, tid, rr);
    WithoutIs(c.order, tid);
    assert (set t | t in d.order) == (set t | t in c.order) - {tid};
    KeysWithout(c.priority, tid);
    KeysWithout(c.burst, tid);
    KeysWithout(c.firstRun, tid);
    KeysWithout(c.finish, tid);
  }

  /** Nothing checks whether a thread is still needed when it is removed. The invariants survive,
      and with them all that is proved about runs, exactly when it is not. */
  lemma RemovalKeeps(c: Sched, tid: int, rr: nat)
    requires SchedOk(c) && tid in c.ms.k.states
    requires rr < |Without(c.order, tid)| || (rr == 0 && Without(c.order, tid) == [])
    ensures SchedOk(WithoutThread(c, tid, rr)) <==> Removable(c.ms.k, tid)
  {
    hide Tables, AllObey, Without, QueuesOk, OwnersOk, GraphOk, NoLostWakeup, Removable;
    var d := WithoutThread(c, tid, rr);
    if Removable(c.ms.k, tid) {
      RemovedKeepsQueues(c.ms.k, tid);
      RemovedKeepsGraph(c.ms.k, tid);
      RemovedKeepsWakeups(c.ms.k, tid);
      RemovedObeys(c.ms, d.ms, tid);
      RemovedKeepsTables(c, tid, rr);
      assert d.ms.k.states.Keys == c.ms.k.states.Keys - {tid};
      forall u ensures !Is(d.ms.k, u, RUNNING) { assert !Is(c.ms.k, u, RUNNING); }
    } else {
      NeededIsMissed(c.ms.k, tid);
    }
  }

  lemma NoMoreOp(s: State, t: int)
    requires Good(s) && !Is(s.k, t, RUNNING)
    ensures RunOut(s, t) == s
  {
  }

  ghost function WithKernel(c: Sched, k: Kernel): Sched {
    c.(ms := c.ms.(k := k))
  }

  /** The order in which wait() queues the caller and releases the mutex makes no difference. */
  lemma QueueThenUnlock(k: Kernel, t: int, c: nat, m: nat)
    requires KernelInv(k) && Is(k, t, RUNNING) && Owner(k, m) == t
    ensures var p := k.(queues := k.queues[CvQ(c) := Queue(k, CvQ(c)) + [t]]);
            var u := UnlockCall(p, t, m);
            && Is(u, t, RUNNING)
            && u.(states := u.states[t := BLOCKED], at := u.at[t := InCv(c, m)]) == CvWaitCall(k, t, c, m)
  {
    hide KernelInv, PopWake;
    UnlockKeeps(k, t, m);
    PopWakeElsewhere(Release(k, t, m), MutexQ(m), CvQ(c), Queue(k, CvQ(c)) + [t]);
  }

  /** Popping one queue and assigning another do not interfere. */
  lemma PopWakeElsewhere(k: Kernel, ch: Channel, other: Channel, q: seq<int>)
    requires ch != other
    ensures PopWake(k.(queues := k.queues[other := q]), ch) ==
            PopWake(k, ch).(queues := PopWake(k, ch).queues[other := q])
    ensures Queue(PopWake(k, ch), other) == Queue(k, other)
  {
    if Queue(k, ch) != [] {
      SwapUpdates(k.queues, other, q, ch, Queue(k, ch)[1..]);
    }
  }

  lemma SignalLeavesRunning(k: Kernel, t: int, c: nat)
    requires KernelInv(k) && Is(k, t, RUNNING)
    ensures Is(CvSignalCall(k, c), t, RUNNING)
  {
    PopWakeKeepsQueues(k, CvQ(c));
  }

  lemma BroadcastLeavesRunning(k: Kernel, t: int, c: nat)
    requires KernelInv(k) && Is(k, t, RUNNING)
    ensures Is(CvBroadcastCall(k, c), t, RUNNING)
  {
    BroadcastFrame(k, t, c);
  }

  lemma SemSignalLeavesRunning(k: Kernel, t: int, s: nat)
    requires KernelInv(k) && Is(k, t, RUNNING)
    ensures Is(SemSignalCall(k, s), t, RUNNING)
  {
    SemSignalFrame(k, t, s);
  }

  lemma PopShortens(k: Kernel, ch: Channel)
    requires Queue(k, ch) != []
    ensures Queue(PopWake(k, ch), ch) == Queue(k, ch)[1..]
  {
  }
}
