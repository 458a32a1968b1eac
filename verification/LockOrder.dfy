/** Ordered locking: a thread that only requests mutex ids above all those it holds never
    takes part in a deadlock, so every run of such programs ends with everybody FINISHED. */
module LockOrder {
  import opened WaitGraph
  import opened Kernel
  import opened KernelFrame
  import opened Machine
  import opened Termination
  import opened Deadlock

  ghost predicate Above(m: nat, held: set<nat>) {
    forall h :: h in held ==> h < m
  }

  /** A program that, started holding `held`, blocks only on mutexes above all those it holds.
      tryLock never blocks, so it may ask for any mutex. */
  ghost predicate Ordered(p: Prog, held: set<nat>) {
    match p
    case Done => true
    case Yield(next) => Ordered(next, held)
    case Lock(m, next) => (m in held || Above(m, held)) && Ordered(next, held + {m})
    case TryLock(m, yes, no) => Ordered(yes, held + {m}) && (m in held || Ordered(no, held))
    case Unlock(m, next) => Ordered(next, held - {m})
    case SemWait(_, next) => Ordered(next, held)
    case SemSignal(_, next) => Ordered(next, held)
    case CvWait(_, m, next) => (m in held ==> Above(m, held - {m})) && Ordered(next, held)
    case CvSignal(_, next) => Ordered(next, held)
    case CvBroadcast(_, next) => Ordered(next, held)
    case WaitWhile(_, _, m, next) => (m in held ==> Above(m, held - {m})) && Ordered(next, held)
    case Do(_, next) => Ordered(next, held)
    case If(_, yes, no) => Ordered(yes, held) && Ordered(no, held)
  }

  /** The suspended primitive, too, asks only for a mutex above those held. */
  ghost predicate WaitsAbove(k: Kernel, t: int)
    requires t in k.at
  {
    forall m :: m in Reacquired(k.at[t]) ==> Above(m, Held(k, t))
  }

  ghost predicate ThreadOrdered(s: State, t: int)
    requires t in s.k.at && t in s.prog && t in s.k.states
  {
    s.k.states[t] != FINISHED ==> Ordered(s.prog[t], HeldOnReturn(s.k, t)) && WaitsAbove(s.k, t)
  }

  ghost predicate AllOrdered(s: State)
    requires s.k.at.Keys == s.k.states.Keys == s.prog.Keys
  {
    forall t :: t in s.k.states ==> ThreadOrdered(s, t)
  }

  lemma OthersStayOrdered(s: State, s': State, t: int)
    requires Inv(s) && Inv(s') && AllOrdered(s)
    requires Frame(s.k, s'.k, t)
    requires forall u :: u in s.prog && u != t ==> s'.prog[u] == s.prog[u]
    requires t in s.k.states && ThreadOrdered(s', t)
    ensures AllOrdered(s')
  {
    forall u | u in s'.k.states
      ensures ThreadOrdered(s', u)
    {
      if u != t {
        assert Bystander(s.k, s'.k, u);
        assert ThreadOrdered(s, u);
      }
    }
  }

  lemma CallerWaitsAbove(s: State, t: int)
    requires Inv(s) && Is(s.k, t, RUNNING) && Inv(Exec(s, t)) && ThreadOrdered(s, t)
    ensures WaitsAbove(Exec(s, t).k, t)
  {
    hide QueuesOk, OwnersOk, GraphOk, NoLostWakeup, Exec;
    assert HeldOnReturn(s.k, t) == Held(s.k, t);
    ExecMovesCaller(s, t);
    assert Ordered(s.prog[t], Held(s.k, t));
    match s.prog[t]
    case Lock(m, _) => assert m in Held(s.k, t) || Above(m, Held(s.k, t));
    case CvWait(c, m, _) => assert m in Held(s.k, t) ==> Above(m, Held(s.k, t) - {m});
    case WaitWhile(_, c, m, _) => assert m in Held(s.k, t) ==> Above(m, Held(s.k, t) - {m});
    case _ =>
  }

  lemma CallerStaysOrdered(s: State, t: int)
    requires Inv(s) && Is(s.k, t, RUNNING) && Inv(Exec(s, t)) && ThreadOrdered(s, t)
    ensures ThreadOrdered(Exec(s, t), t)
  {
    assert HeldOnReturn(s.k, t) == Held(s.k, t);
    CallerWaitsAbove(s, t);
    match s.prog[t]
    case Done => SetStateFrame(s.k, t, FINISHED);
    case Lock(_, _) => MutexOpHeld(s, t);
    case TryLock(m, _, _) => MutexOpHeld(s, t);
    case Unlock(_, _) => MutexOpHeld(s, t);
    case _ => OtherOpHeld(s, t);
  }

  lemma NextStaysOrdered(s: State, a: Action)
    requires Inv(s) && AllOrdered(s) && Enabled(s, a)
    ensures Inv(Next(s, a)) && AllOrdered(Next(s, a))
  {
    hide QueuesOk, OwnersOk, GraphOk, NoLostWakeup;
    NextKeeps(s, a);
    match a
    case Begin(t) =>
      ResumeFrame(s.k, t);
      assert ThreadOrdered(s, t);
      assert HeldOnReturn(Next(s, a).k, t) == HeldOnReturn(s.k, t);
      OthersStayOrdered(s, Next(s, a), t);
    case Run(t) =>
      ExecFrame(s, t);
      assert ThreadOrdered(s, t);
      CallerStaysOrdered(s, t);
      OthersStayOrdered(s, Next(s, a), t);
  }

  /** The smallest element, that is, the mutex with the largest id when there is a mutex at all. */
  lemma {:induction false} Smallest(p: seq<int>) returns (x: int)
    requires p != []
    ensures x in p && forall y :: y in p ==> x <= y
  {
    if |p| == 1 {
      x := p[0];
    } else {
      var r := Smallest(p[1..]);
      x := if p[0] <= r then p[0] else r;
      assert forall y :: y in p ==> y == p[0] || y in p[1..];
    }
  }

  /** The owner of a mutex on a cycle waits for a larger mutex on the cycle. */
  lemma LargerMutexOnCycle(s: State, p: seq<int>, x: int) returns (y: int)
    requires Inv(s) && AllOrdered(s) && IsCycle(s.k.graph, p) && x in p && x < 0
    ensures y in p && y < x
  {
    OnCycle(s.k, p, x);
    var m, o := -x - 1, Owner(s.k, -x - 1);
    assert o in s.k.states && m in Held(s.k, o);
    OnCycle(s.k, p, o);
    assert ThreadOrdered(s, o);
    assert s.k.at[o].m in Reacquired(s.k.at[o]);
    y := MutexNode(s.k.at[o].m);
  }

  /** Ordered locking keeps the graph acyclic. */
  lemma OrderedMeansNoCycle(s: State)
    requires Inv(s) && AllOrdered(s)
    ensures !HasCycle(s.k.graph)
  {
    if HasCycle(s.k.graph) {
      var p :| IsCycle(s.k.graph, p);
      OnCycle(s.k, p, p[0]);
      var x := Smallest(p);
      var y := LargerMutexOnCycle(s, p, x);
      assert false;
    }
  }

  lemma {:induction false} RunStaysOrdered(s: State, acts: seq<Action>)
    requires Inv(s) && AllOrdered(s) && IsRun(s, acts)
    ensures Inv(After(s, acts)) && AllOrdered(After(s, acts))
    decreases |acts|
  {
    if acts != [] {
      NextStaysOrdered(s, acts[0]);
      RunStaysOrdered(Next(s, acts[0]), acts[1..]);
    }
  }

  /** Ordered locking always completes: the graph is acyclic throughout and detect() never
      answers true; runs of mutex programs are no longer than the measure of their start, and
      wherever no thread is READY any more they are all FINISHED, unless one exited with a mutex
      that another waits for. */
  lemma OrderedLockingCompletes(s: State, acts: seq<Action>)
    requires Initial(s) && AllOrdered(s) && IsRun(s, acts)
    ensures !HasCycle(After(s, acts).k.graph) && true !in After(s, acts).k.verdicts
    ensures AllObey(WaitOwning, s) ==> |acts| <= Measure(s)
    ensures AllMutexOnly(s) ==> |acts| <= Measure(s)
    ensures AllMutexOnly(s) && Quiescent(After(s, acts)) ==>
              && (AllFinished(After(s, acts)) <==> !Stranded(After(s, acts).k))
              && (AllObey(ExitEmptyHanded, s) ==> AllFinished(After(s, acts)))
  {
    InitialInv(s);
    NoEdgesNoCycle(s.k.graph);
    RunStaysOrdered(s, acts);
    OrderedMeansNoCycle(After(s, acts));
    ReportsAreExact(s, acts);
    if AllObey(WaitOwning, s) { EveryRunIsFinite(s, acts); }
    if AllMutexOnly(s) {
      MutexOnlyTerminates(s, acts);
      if Quiescent(After(s, acts)) { RunsEndDoneOrReported(s, acts); }
    }
  }

  // ---- the dining philosophers, for any number of seats ----

  /** Philosopher `id` of n; the forks are consecutive mutexes starting with `fork0`. */
  function Philosopher(id: nat, n: nat, fork0: nat): Prog
    requires id < n
  {
    var left, right := id, (id + 1) % n;
    var first, second := if left < right then left else right, if left < right then right else left;
    Yield(Lock(fork0 + first, Yield(Lock(fork0 + second, Yield(
      Unlock(fork0 + second, Unlock(fork0 + first, Done)))))))
  }

  /** Thread id + 1 is philosopher id. */
  ghost predicate Dinner(s: State, n: nat, fork0: nat) {
    && Initial(s)
    && (forall t :: t in s.prog <==> 1 <= t <= n)
    && (forall t :: t in s.prog ==> s.prog[t] == Philosopher(t - 1, n, fork0))
  }

  lemma PhilosopherIsOrdered(id: nat, n: nat, fork0: nat)
    requires id < n
    ensures Ordered(Philosopher(id, n, fork0), {}) && Obeys(ExitEmptyHanded, Philosopher(id, n, fork0), {}) && MutexOnly(Philosopher(id, n, fork0))
  {
    var left, right := id, (id + 1) % n;
    var first, second := fork0 + if left < right then left else right, fork0 + if left < right then right else left;
    var none: set<nat> := {};
    var both := none + {first} + {second};
    var afterMeal := Unlock(second, Unlock(first, Done));
    assert both - {second} - {first} == none;
    assert Ordered(afterMeal, both) && Obeys(ExitEmptyHanded, afterMeal, both) && MutexOnly(afterMeal);
    var withFirst := Yield(Lock(second, Yield(afterMeal)));
    assert Ordered(Yield(afterMeal), both) && Obeys(ExitEmptyHanded, Yield(afterMeal), both) && MutexOnly(Yield(afterMeal));
    assert Ordered(withFirst, none + {first}) && Obeys(ExitEmptyHanded, withFirst, none + {first}) && MutexOnly(withFirst);
    assert Philosopher(id, n, fork0) == Yield(Lock(first, withFirst));
  }

  /** All philosophers finish, under every policy and in every interleaving. */
  lemma PhilosophersAllEat(s: State, n: nat, fork0: nat, acts: seq<Action>)
    requires Dinner(s, n, fork0) && IsRun(s, acts)
    ensures true !in After(s, acts).k.verdicts
    ensures |acts| <= Measure(s)
    ensures Quiescent(After(s, acts)) ==> AllFinished(After(s, acts))
  {
    forall t | t in s.prog
      ensures ThreadOrdered(s, t) && ThreadObeys(ExitEmptyHanded, s, t) && MutexOnly(s.prog[t])
    {
      PhilosopherIsOrdered(t - 1, n, fork0);
      assert HeldOnReturn(s.k, t) == {};
      assert Held(s.k, t) == {};
    }
    OrderedLockingCompletes(s, acts);
  }
}
