/** Deadlock: once there it stays, it is reported by the very lock() call that closes it, and
    a run that only blocks on mutexes stops exactly when everybody is done or it is there. */
module Deadlock {
  import opened WaitGraph
  import opened Kernel
  import opened KernelFrame
  import opened Machine
  import opened Termination

  // ---- permanence ----

  /** A node on a cycle is a thread inside lock() of a mutex on the cycle, or a mutex owned by
      a thread on the cycle. */
  lemma OnCycle(k: Kernel, p: seq<int>, x: int)
    requires KernelInv(k) && IsCycle(k.graph, p) && x in p
    ensures 0 <= x ==> x in k.at && k.at[x].InLock? && MutexNode(k.at[x].m) in p
    ensures x < 0 ==> Owner(k, -x - 1) != NoOwner && Owner(k, -x - 1) in p
  {
    CycleNodeHasSuccessor(k.graph, p, x);
    assert Out(k.graph, x) == TrueEdges(k, x);
  }

  /** What keeps a cycle in place: its threads stay suspended where they are and keep what they hold. */
  lemma StuckThread(s: State, a: Action, p: seq<int>, x: int)
    requires Inv(s) && Enabled(s, a) && IsCycle(s.k.graph, p) && x in p && 0 <= x
    ensures x in s.k.at && x in Next(s, a).k.at && x in s.prog && x in Next(s, a).prog
    ensures Next(s, a).k.at[x] == s.k.at[x] && Next(s, a).prog[x] == s.prog[x]
    ensures Held(Next(s, a).k, x) == Held(s.k, x)
  {
    OnCycle(s.k, p, x);
    OnCycle(s.k, p, MutexNode(s.k.at[x].m));
    match a {
      case Begin(t) =>
        ResumeFrame(s.k, t);
        if x != t { assert Bystander(s.k, Next(s, a).k, x); }
      case Run(t) =>
        ExecFrame(s, t);
        assert x != t;
        assert Bystander(s.k, Next(s, a).k, x);
    }
  }

  lemma CycleSurvives(s: State, a: Action, p: seq<int>)
    requires Inv(s) && Enabled(s, a) && IsCycle(s.k.graph, p)
    ensures IsCycle(Next(s, a).k.graph, p)
  {
    NextKeeps(s, a);
    var s' := Next(s, a);
    forall x, y | x in p && Edge(s.k.graph, x, y)
      ensures Edge(s'.k.graph, x, y)
    {
      assert Out(s.k.graph, x) == TrueEdges(s.k, x);
      assert Out(s'.k.graph, x) == TrueEdges(s'.k, x);
      OnCycle(s.k, p, x);
      if 0 <= x {
        StuckThread(s, a, p, x);
      } else {
        var m, o := -x - 1, Owner(s.k, -x - 1);
        assert m in Held(s.k, o);
        assert o in s.k.states;
        StuckThread(s, a, p, o);
        assert m in Held(s'.k, o);
      }
    }
    CycleTransfer(s.k.graph, s'.k.graph, p);
  }

  /** Once the graph has a cycle, the same cycle is there after every later action under every
      policy; its threads stay inside the same lock() call with the same mutexes and the same
      rest of program, so none of them ever acquires its mutex, releases one or finishes. */
  lemma {:induction false} DeadlockIsPermanent(s: State, acts: seq<Action>, p: seq<int>)
    requires Inv(s) && IsRun(s, acts) && IsCycle(s.k.graph, p)
    ensures IsCycle(After(s, acts).k.graph, p)
    ensures forall x :: x in p && 0 <= x ==>
              && x in s.k.at && x in After(s, acts).k.at
              && s.k.at[x].InLock? && After(s, acts).k.at[x] == s.k.at[x]
              && x in s.prog && x in After(s, acts).prog && After(s, acts).prog[x] == s.prog[x]
              && Held(After(s, acts).k, x) == Held(s.k, x)
              && !Is(After(s, acts).k, x, FINISHED) && !Is(After(s, acts).k, x, RUNNING)
    decreases |acts|
  {
    if acts == [] {
      forall x | x in p && 0 <= x
        ensures x in s.k.at && x in s.prog && s.k.at[x].InLock? && !Is(s.k, x, FINISHED) && !Is(s.k, x, RUNNING)
      {
        OnCycle(s.k, p, x);
      }
    } else {
      NextKeeps(s, acts[0]);
      CycleSurvives(s, acts[0], p);
      DeadlockIsPermanent(Next(s, acts[0]), acts[1..], p);
      forall x | x in p && 0 <= x
        ensures x in s.k.at && x in Next(s, acts[0]).k.at && Next(s, acts[0]).k.at[x] == s.k.at[x]
        ensures x in s.prog && x in Next(s, acts[0]).prog && Next(s, acts[0]).prog[x] == s.prog[x]
        ensures Held(Next(s, acts[0]).k, x) == Held(s.k, x)
      {
        StuckThread(s, acts[0], p, x);
      }
    }
  }

  // ---- every deadlock is reported at birth ----

  /** The graph gained no cycle and the detector was not asked. */
  ghost predicate Quiet(k: Kernel, k': Kernel) {
    k'.verdicts == k.verdicts && (HasCycle(k'.graph) ==> HasCycle(k.graph))
  }

  /** The detector was asked about the graph as it is now. */
  ghost predicate Asked(k: Kernel, k': Kernel) {
    k'.verdicts == k.verdicts + [HasCycle(k'.graph)]
  }

  lemma AcquireQuiet(k: Kernel, t: int, m: nat)
    requires Out(k.graph, t) == [] && 0 <= t
    ensures Quiet(k, Acquire(k, t, m))
  {
    var g := Acquire(k, t, m).graph;
    if HasCycle(g) {
      var p :| IsCycle(g, p);
      EdgeIntoSinkClosesNothing(k.graph, MutexNode(m), t, p);
    }
  }

  lemma RemovalQuiet(k: Kernel, k': Kernel, a: int, b: int)
    requires k'.graph == RemoveEdge(k.graph, a, b) && k'.verdicts == k.verdicts
    ensures Quiet(k, k')
  {
    if HasCycle(k'.graph) {
      var p :| IsCycle(k'.graph, p);
      RemovalCreatesNoCycle(k.graph, a, b, p);
    }
  }

  lemma LockLoopReport(k: Kernel, t: int, m: nat)
    requires Is(k, t, RUNNING) && Out(k.graph, t) == [] && 0 <= t
    ensures Owner(k, m) == NoOwner ==> Quiet(k, LockLoop(k, t, m))
    ensures Owner(k, m) != NoOwner ==> Asked(k, LockLoop(k, t, m))
  {
    if Owner(k, m) == NoOwner { AcquireQuiet(k, t, m); }
  }

  lemma RunnerIsSink(k: Kernel, t: int)
    requires KernelInv(k) && Is(k, t, RUNNING)
    ensures Out(k.graph, t) == [] && 0 <= t
  {
    assert Out(k.graph, t) == TrueEdges(k, t);
  }

  lemma UnlockQuiet(k: Kernel, t: int, m: nat)
    ensures Quiet(k, UnlockCall(k, t, m))
  {
    if Owner(k, m) == t {
      RemovalQuiet(k, UnlockCall(k, t, m), MutexNode(m), ThreadNode(t));
    }
  }

  lemma {:induction false} BroadcastQuiet(k: Kernel, c: nat)
    ensures CvBroadcastCall(k, c).graph == k.graph && CvBroadcastCall(k, c).verdicts == k.verdicts
    decreases |Queue(k, CvQ(c))|
  {
    if Queue(k, CvQ(c)) != [] { BroadcastQuiet(PopWake(k, CvQ(c)), c); }
  }

  lemma RunReport(s: State, t: int)
    requires Inv(s) && Is(s.k, t, RUNNING)
    ensures Quiet(s.k, Exec(s, t).k) || Asked(s.k, Exec(s, t).k)
  {
    hide KernelInv, HasCycle;
    RunnerIsSink(s.k, t);
    match s.prog[t]
    case Lock(m, _) => if Owner(s.k, m) != t { LockLoopReport(s.k, t, m); }
    case TryLock(m, _, _) => if Owner(s.k, m) == NoOwner { AcquireQuiet(s.k, t, m); }
    case Unlock(m, _) => UnlockQuiet(s.k, t, m);
    case CvWait(_, m, _) => UnlockQuiet(s.k, t, m);
    case WaitWhile(_, _, m, _) => UnlockQuiet(s.k, t, m);
    case CvBroadcast(c, _) => BroadcastQuiet(s.k, c);
    case _ =>
  }

  lemma BeginReport(s: State, t: int)
    requires Inv(s) && Enabled(s, Begin(t))
    ensures Quiet(s.k, Resume(s.k, t)) || Asked(s.k, Resume(s.k, t))
  {
    var k := s.k;
    var r := k.(states := k.states[t := RUNNING], at := k.at[t := Outside]);
    assert Out(k.graph, t) == TrueEdges(k, t);
    match k.at[t] {
      case InLock(m) =>
        var e := r.(graph := RemoveEdge(r.graph, ThreadNode(t), MutexNode(m)));
        WithoutOnly(MutexNode(m));
        RemovalQuiet(k, e, ThreadNode(t), MutexNode(m));
        LockLoopReport(e, t, m);
      case InCv(_, m) =>
        if Owner(r, m) != t { LockLoopReport(r, t, m); }
      case _ =>
    }
  }

  /** At most one call of detect() per action, and the graph it judged is the graph at the end
      of the action; the action that makes the graph cyclic contains that call, answering true. */
  lemma ReportedAtBirth(s: State, a: Action)
    requires Inv(s) && Enabled(s, a)
    ensures Quiet(s.k, Next(s, a).k) || Asked(s.k, Next(s, a).k)
    ensures HasCycle(Next(s, a).k.graph) && !HasCycle(s.k.graph) ==> Next(s, a).k.verdicts == s.k.verdicts + [true]
  {
    match a
    case Begin(t) => BeginReport(s, t);
    case Run(t) => RunReport(s, t);
  }

  /** Over a whole run, detect() has answered true at least once if and only if there is a deadlock now. */
  lemma {:induction false} ReportsAreExact(s: State, acts: seq<Action>)
    requires Inv(s) && IsRun(s, acts)
    requires true in s.k.verdicts <==> HasCycle(s.k.graph)
    ensures true in After(s, acts).k.verdicts <==> HasCycle(After(s, acts).k.graph)
    decreases |acts|
  {
    if acts != [] {
      var s' := Next(s, acts[0]);
      NextKeeps(s, acts[0]);
      ReportedAtBirth(s, acts[0]);
      if HasCycle(s.k.graph) {
        var p :| IsCycle(s.k.graph, p);
        CycleSurvives(s, acts[0], p);
      }
      ReportsAreExact(s', acts[1..]);
    }
  }

  // ---- quiescence ----

  /** Programs that block on nothing but mutexes. */
  predicate MutexOnly(p: Prog) {
    match p
    case Done => true
    case Yield(next) => MutexOnly(next)
    case Lock(_, next) => MutexOnly(next)
    case TryLock(_, yes, no) => MutexOnly(yes) && MutexOnly(no)
    case Unlock(_, next) => MutexOnly(next)
    case SemWait(_, _) => false
    case SemSignal(_, next) => MutexOnly(next)
    case CvWait(_, _, _) => false
    case CvSignal(_, next) => MutexOnly(next)
    case CvBroadcast(_, next) => MutexOnly(next)
    case WaitWhile(_, _, _, _) => false
    case Do(_, next) => MutexOnly(next)
    case If(_, yes, no) => MutexOnly(yes) && MutexOnly(no)
  }

  ghost predicate AllMutexOnly(s: State)
    requires s.k.at.Keys == s.prog.Keys
  {
    forall t :: t in s.prog ==> MutexOnly(s.prog[t]) && (s.k.at[t].Outside? || s.k.at[t].InLock?)
  }

  lemma MutexOnlyStays(s: State, a: Action)
    requires Inv(s) && Enabled(s, a) && AllMutexOnly(s)
    ensures Inv(Next(s, a)) && AllMutexOnly(Next(s, a))
  {
    NextKeeps(s, a);
    var s' := Next(s, a);
    match a {
      case Begin(t) =>
        ResumeFrame(s.k, t);
        forall u | u in s'.prog ensures MutexOnly(s'.prog[u]) && (s'.k.at[u].Outside? || s'.k.at[u].InLock?) {
          if u != t { assert Bystander(s.k, s'.k, u); }
        }
      case Run(t) =>
        ExecFrame(s, t);
        MutexOnlyCaller(s, t);
        forall u | u in s'.prog ensures MutexOnly(s'.prog[u]) && (s'.k.at[u].Outside? || s'.k.at[u].InLock?) {
          if u != t { assert Bystander(s.k, s'.k, u); }
        }
    }
  }

  lemma MutexOnlyCaller(s: State, t: int)
    requires Inv(s) && Is(s.k, t, RUNNING) && AllMutexOnly(s) && Inv(Exec(s, t))
    ensures MutexOnly(Exec(s, t).prog[t])
    ensures Exec(s, t).k.at[t].Outside? || Exec(s, t).k.at[t].InLock?
  {
    match s.prog[t]
    case Lock(m, _) => if Owner(s.k, m) != t { LockLoopFrame(s.k, t, m); }
    case Unlock(m, _) => UnlockFrame(s.k, t, m);
    case SemSignal(i, _) => SemSignalFrame(s.k, t, i);
    case CvSignal(c, _) => SignalFrame(s.k, t, CvQ(c));
    case CvBroadcast(c, _) => BroadcastFrame(s.k, t, c);
    case _ =>
  }

  /** step() finds nobody READY. */
  ghost predicate Quiescent(s: State) {
    forall t :: t in s.k.states ==> s.k.states[t] == BLOCKED || s.k.states[t] == FINISHED
  }

  ghost predicate AllFinished(s: State) {
    forall t :: t in s.k.states ==> s.k.states[t] == FINISHED
  }

  /** Somebody waits for a mutex whose owner has exited with it. */
  ghost predicate Stranded(k: Kernel) {
    exists m: nat :: Queue(k, MutexQ(m)) != [] && Is(k, Owner(k, m), FINISHED)
  }

  /** When nobody is READY, a blocked thread's mutex is owned by another blocked thread, or by
      one that exited with it. */
  lemma BlockedOnBlocked(s: State, t: int)
    requires Inv(s) && AllMutexOnly(s) && Quiescent(s) && Is(s.k, t, BLOCKED)
    ensures t in s.k.at && s.k.at[t].InLock?
    ensures Is(s.k, Owner(s.k, s.k.at[t].m), BLOCKED) || Stranded(s.k)
  {
    var m := s.k.at[t].m;
    var ch := MutexQ(m);
    assert Waiting(s.k, t, ch);
    assert t in Queue(s.k, ch);
    assert forall u :: !Woken(s.k, u, ch);
    assert WokenSet(s.k, ch) == {};
    assert WakeOk(s.k, ch);
    assert Owner(s.k, m) in s.k.states;
  }

  function BlockedThreads(s: State): set<int> {
    set t | t in s.k.states && Is(s.k, t, BLOCKED)
  }

  /** The blocked threads and the mutexes they wait for. */
  function StuckNodes(s: State): set<int> {
    BlockedThreads(s) + set t | t in BlockedThreads(s) && t in s.k.at && s.k.at[t].InLock? :: MutexNode(s.k.at[t].m)
  }

  lemma StuckNodesHaveSuccessors(s: State, x: int)
    requires Inv(s) && AllMutexOnly(s) && Quiescent(s) && !Stranded(s.k) && x in StuckNodes(s)
    ensures HasSuccessorIn(s.k.graph, StuckNodes(s), x)
  {
    assert Out(s.k.graph, x) == TrueEdges(s.k, x);
    if x in BlockedThreads(s) {
      BlockedOnBlocked(s, x);
      var y := MutexNode(s.k.at[x].m);
      assert y in StuckNodes(s) && Edge(s.k.graph, x, y);
    } else {
      var t :| t in BlockedThreads(s) && t in s.k.at && s.k.at[t].InLock? && x == MutexNode(s.k.at[t].m);
      BlockedOnBlocked(s, t);
      var y := Owner(s.k, s.k.at[t].m);
      assert y in StuckNodes(s) && Edge(s.k.graph, x, y);
    }
  }

  lemma FinishedMeansNoCycle(s: State)
    requires Inv(s) && AllFinished(s)
    ensures !HasCycle(s.k.graph)
  {
    if HasCycle(s.k.graph) {
      var p :| IsCycle(s.k.graph, p);
      OnCycle(s.k, p, p[0]);
      var o := if 0 <= p[0] then p[0] else Owner(s.k, -p[0] - 1);
      OnCycle(s.k, p, o);
      assert Is(s.k, o, FINISHED);
      assert false;
    }
  }

  lemma StrandedIsNotFinished(s: State)
    requires Inv(s) && Stranded(s.k)
    ensures !AllFinished(s)
  {
    var m: nat :| Queue(s.k, MutexQ(m)) != [] && Is(s.k, Owner(s.k, m), FINISHED);
    var t := Queue(s.k, MutexQ(m))[0];
    assert t in Queue(s.k, MutexQ(m));
    assert Waiting(s.k, t, MutexQ(m));
  }

  /** When step() finds nobody, all threads are FINISHED exactly when there is neither a deadlock
      nor a mutex that somebody exited with and somebody else waits for. */
  lemma QuiescenceIsExact(s: State)
    requires Inv(s) && AllMutexOnly(s) && Quiescent(s)
    ensures AllFinished(s) <==> !HasCycle(s.k.graph) && !Stranded(s.k)
  {
    if AllFinished(s) {
      FinishedMeansNoCycle(s);
      if Stranded(s.k) { StrandedIsNotFinished(s); }
    } else if !Stranded(s.k) {
      var some :| some in s.k.states && s.k.states[some] != FINISHED;
      assert some in StuckNodes(s);
      forall x | x in StuckNodes(s)
        ensures HasSuccessorIn(s.k.graph, StuckNodes(s), x)
      {
        StuckNodesHaveSuccessors(s, x);
      }
      NoSinkMeansCycle(s.k.graph, StuckNodes(s));
    }
  }

  /** Threads that exit empty-handed strand nobody. */
  lemma EmptyHandedStrandsNobody(s: State)
    requires Inv(s) && AllObey(ExitEmptyHanded, s)
    ensures !Stranded(s.k)
  {
    forall m: nat | Owner(s.k, m) in s.k.states ensures !Is(s.k, Owner(s.k, m), FINISHED) {
      var o := Owner(s.k, m);
      assert o != NoOwner ==> m in Held(s.k, o);
      assert ThreadObeys(ExitEmptyHanded, s, o);
    }
  }

  lemma {:induction false} RunStaysMutexOnly(s: State, acts: seq<Action>)
    requires Inv(s) && AllMutexOnly(s) && IsRun(s, acts)
    ensures Inv(After(s, acts)) && AllMutexOnly(After(s, acts))
    decreases |acts|
  {
    if acts != [] {
      MutexOnlyStays(s, acts[0]);
      RunStaysMutexOnly(Next(s, acts[0]), acts[1..]);
    }
  }

  lemma NoEdgesNoCycle(g: Graph)
    requires g == map[]
    ensures !HasCycle(g)
  {
    if HasCycle(g) {
      var p :| IsCycle(g, p);
      CycleNodeHasSuccessor(g, p, p[0]);
      assert false;
    }
  }

  /** From the start of any mutex programs, when step() finds nobody: all threads are FINISHED
      exactly when detect() has never answered true and nobody is stranded; and if all programs
      exit empty-handed, exactly when detect() has never answered true. */
  lemma RunsEndDoneOrReported(s: State, acts: seq<Action>)
    requires Initial(s) && AllMutexOnly(s) && IsRun(s, acts)
    requires Quiescent(After(s, acts))
    ensures var e := After(s, acts).k;
            && (AllFinished(After(s, acts)) <==> !HasCycle(e.graph) && !Stranded(e))
            && (HasCycle(e.graph) <==> true in e.verdicts)
            && (AllObey(ExitEmptyHanded, s) ==> !Stranded(e))
  {
    InitialInv(s);
    NoEdgesNoCycle(s.k.graph);
    RunStaysMutexOnly(s, acts);
    ReportsAreExact(s, acts);
    QuiescenceIsExact(After(s, acts));
    if AllObey(ExitEmptyHanded, s) {
      RunStillObeys(ExitEmptyHanded, s, acts);
      EmptyHandedStrandsNobody(After(s, acts));
    }
  }

  lemma {:induction false} MutexOnlyOwnsItsWaits(p: Prog, held: set<nat>)
    requires MutexOnly(p)
    ensures Obeys(WaitOwning, p, held)
  {
    match p
    case Done =>
    case Yield(next) => MutexOnlyOwnsItsWaits(next, held);
    case Lock(m, next) => MutexOnlyOwnsItsWaits(next, held + {m});
    case TryLock(m, yes, no) => MutexOnlyOwnsItsWaits(yes, held + {m}); MutexOnlyOwnsItsWaits(no, held);
    case Unlock(m, next) => MutexOnlyOwnsItsWaits(next, held - {m});
    case SemSignal(_, next) => MutexOnlyOwnsItsWaits(next, held);
    case CvSignal(_, next) => MutexOnlyOwnsItsWaits(next, held);
    case CvBroadcast(_, next) => MutexOnlyOwnsItsWaits(next, held);
    case Do(_, next) => MutexOnlyOwnsItsWaits(next, held);
    case If(_, yes, no) => MutexOnlyOwnsItsWaits(yes, held); MutexOnlyOwnsItsWaits(no, held);
  }

  /** Mutex programs have no wait loops, so they need no rule to terminate. */
  lemma MutexOnlyTerminates(s: State, acts: seq<Action>)
    requires Inv(s) && AllMutexOnly(s) && IsRun(s, acts)
    ensures AllObey(WaitOwning, s) && |acts| <= Measure(s)
  {
    forall t | t in s.k.states ensures ThreadObeys(WaitOwning, s, t) {
      MutexOnlyOwnsItsWaits(s.prog[t], HeldOnReturn(s.k, t));
    }
    EveryRunIsFinite(s, acts);
  }
}
