/** The two threads of the deadlock demonstration: taking two mutexes in opposite orders can
    deadlock, and then it is reported; taking them in one order cannot. */
module DeadlockThreads {
  import opened WaitGraph
  import opened Kernel
  import opened KernelFrame
  import opened Machine
  import opened Termination
  import opened Deadlock
  import opened LockOrder

  function TwoLocks(first: nat, second: nat): Prog {
    Lock(first, Yield(Lock(second, Rest(first, second))))
  }

  function Rest(first: nat, second: nat): Prog {
    Unlock(second, Unlock(first, Done))
  }

  ghost predicate Two(s: State) {
    forall t :: (t in s.k.states <==> t == 1 || t == 2) && (t in s.k.at <==> t == 1 || t == 2) && (t in s.prog <==> t == 1 || t == 2)
  }

  datatype Position = Position(st: ThreadState, w: Where, p: Prog)

  ghost predicate Here(s: State, t: int, x: Position)
    requires Two(s) && (t == 1 || t == 2)
  {
    s.k.states[t] == x.st && s.k.at[t] == x.w && s.prog[t] == x.p
  }

  /** Where both threads are, and who owns the two mutexes. */
  ghost predicate Scene(s: State, x: Position, y: Position, a: nat, b: nat, ownerA: int, ownerB: int) {
    && Two(s) && Here(s, 1, x) && Here(s, 2, y)
    && Owner(s.k, a) == ownerA && Owner(s.k, b) == ownerB
  }

  /** The scene with thread t at z. */
  ghost predicate Moved(s: State, t: int, x: Position, y: Position, z: Position, a: nat, b: nat, ownerA: int, ownerB: int) {
    Scene(s, if t == 1 then z else x, if t == 1 then y else z, a, b, ownerA, ownerB)
  }

  lemma BeginMoves(s: State, t: int, x: Position, y: Position, a: nat, b: nat, ownerA: int, ownerB: int)
    requires Scene(s, x, y, a, b, ownerA, ownerB) && (t == 1 || t == 2) && x.st != RUNNING && y.st != RUNNING
    requires var z := if t == 1 then x else y; z.st == READY && z.w == Outside
    ensures var p := (if t == 1 then x else y).p;
            Enabled(s, Begin(t)) && Moved(Next(s, Begin(t)), t, x, y, Position(RUNNING, Outside, p), a, b, ownerA, ownerB)
  {
  }

  lemma YieldMoves(s: State, t: int, x: Position, y: Position, a: nat, b: nat, ownerA: int, ownerB: int)
    requires Scene(s, x, y, a, b, ownerA, ownerB) && (t == 1 || t == 2)
    requires var z := if t == 1 then x else y; z.st == RUNNING && z.w == Outside && z.p.Yield?
    ensures var p := (if t == 1 then x else y).p;
            Enabled(s, Run(t)) && Moved(Next(s, Run(t)), t, x, y, Position(READY, Outside, p.next), a, b, ownerA, ownerB)
  {
  }

  lemma LockMoves(s: State, t: int, x: Position, y: Position, a: nat, b: nat, ownerA: int, ownerB: int)
    requires Scene(s, x, y, a, b, ownerA, ownerB) && (t == 1 || t == 2) && a != b
    requires var z := if t == 1 then x else y;
             z.st == RUNNING && z.w == Outside && z.p.Lock? && (z.p.m == a || z.p.m == b) && Owner(s.k, z.p.m) != t
    ensures var p := (if t == 1 then x else y).p;
            var s' := if Enabled(s, Run(t)) then Next(s, Run(t)) else s;
            && Enabled(s, Run(t))
            && if Owner(s.k, p.m) != NoOwner then
                 Moved(s', t, x, y, Position(BLOCKED, InLock(p.m), p.next), a, b, ownerA, ownerB)
               else
                 Moved(s', t, x, y, Position(RUNNING, Outside, p.next), a, b,
                       if p.m == a then t else ownerA, if p.m == b then t else ownerB)
  {
  }

  /** Both threads blocked in lock() of what the other holds: a cycle. */
  lemma EmbraceIsCycle(s: State, a: nat, b: nat, p: Prog, q: Prog)
    requires Inv(s) && Scene(s, Position(BLOCKED, InLock(b), p), Position(BLOCKED, InLock(a), q), a, b, 1, 2)
    ensures HasCycle(s.k.graph)
  {
    var g, c := s.k.graph, [1, MutexNode(b), 2, MutexNode(a), 1];
    assert Out(g, 1) == TrueEdges(s.k, 1) && Out(g, 2) == TrueEdges(s.k, 2);
    assert Out(g, MutexNode(a)) == TrueEdges(s.k, MutexNode(a)) && Out(g, MutexNode(b)) == TrueEdges(s.k, MutexNode(b));
    assert Edge(g, 1, c[1]) && Edge(g, c[1], 2) && Edge(g, 2, c[3]) && Edge(g, c[3], 1);
    assert IsCycle(g, c);
  }

  /** One thread takes its first mutex and yields. */
  lemma TakesFirst(s: State, t: int, x: Position, y: Position, a: nat, b: nat, ownerA: int, ownerB: int) returns (e: State)
    requires Scene(s, x, y, a, b, ownerA, ownerB) && (t == 1 || t == 2) && a != b && x.st != RUNNING && y.st != RUNNING
    requires var z := if t == 1 then x else y;
             z == Position(READY, Outside, if t == 1 then TwoLocks(a, b) else TwoLocks(b, a))
    requires if t == 1 then ownerA == NoOwner else ownerB == NoOwner
    ensures IsRunTo(s, [Begin(t), Run(t), Run(t)], e)
    ensures var p := if t == 1 then Lock(b, Rest(a, b)) else Lock(a, Rest(b, a));
            Moved(e, t, x, y, Position(READY, Outside, p), a, b, if t == 1 then 1 else ownerA, if t == 2 then 2 else ownerB)
  {
    var p := if t == 1 then TwoLocks(a, b) else TwoLocks(b, a);
    BeginMoves(s, t, x, y, a, b, ownerA, ownerB);
    var s1 := Next(s, Begin(t));
    var z1 := Position(RUNNING, Outside, p);
    LockMoves(s1, t, if t == 1 then z1 else x, if t == 1 then y else z1, a, b, ownerA, ownerB);
    var s2 := Next(s1, Run(t));
    var z2 := Position(RUNNING, Outside, p.next);
    YieldMoves(s2, t, if t == 1 then z2 else x, if t == 1 then y else z2, a, b,
               if t == 1 then 1 else ownerA, if t == 2 then 2 else ownerB);
    e := Next(s2, Run(t));
    ThreeActions(s, Begin(t), s1, Run(t), s2, Run(t), e);
  }

  /** One thread asks for its second mutex, which is taken. */
  lemma AsksSecond(s: State, t: int, x: Position, y: Position, a: nat, b: nat) returns (e: State)
    requires Scene(s, x, y, a, b, 1, 2) && (t == 1 || t == 2) && a != b && x.st != RUNNING && y.st != RUNNING
    requires var z := if t == 1 then x else y;
             z == Position(READY, Outside, if t == 1 then Lock(b, Rest(a, b)) else Lock(a, Rest(b, a)))
    ensures IsRunTo(s, [Begin(t), Run(t)], e)
    ensures var z := if t == 1 then Position(BLOCKED, InLock(b), Rest(a, b)) else Position(BLOCKED, InLock(a), Rest(b, a));
            Moved(e, t, x, y, z, a, b, 1, 2)
  {
    BeginMoves(s, t, x, y, a, b, 1, 2);
    var s1 := Next(s, Begin(t));
    var z1 := Position(RUNNING, Outside, if t == 1 then Lock(b, Rest(a, b)) else Lock(a, Rest(b, a)));
    LockMoves(s1, t, if t == 1 then z1 else x, if t == 1 then y else z1, a, b, 1, 2);
    e := Next(s1, Run(t));
    TwoActions(s, Begin(t), s1, Run(t), e);
  }

  lemma TwoActions(s: State, a: Action, s1: State, b: Action, e: State)
    requires Enabled(s, a) && Next(s, a) == s1 && Enabled(s1, b) && Next(s1, b) == e
    ensures IsRunTo(s, [a, b], e)
  {
    ActionThenRun(s1, b, [], e);
    assert [b] + [] == [b];
    ActionThenRun(s, a, [b], e);
    assert [a] + [b] == [a, b];
  }

  lemma ThreeActions(s: State, a: Action, s1: State, b: Action, s2: State, c: Action, e: State)
    requires Enabled(s, a) && Next(s, a) == s1 && Enabled(s1, b) && Next(s1, b) == s2 && Enabled(s2, c) && Next(s2, c) == e
    ensures IsRunTo(s, [a, b, c], e)
  {
    TwoActions(s1, b, s2, c, e);
    ActionThenRun(s, a, [b, c], e);
    assert [a] + [b, c] == [a, b, c];
  }

  /** Two threads ready to take the same two mutexes, in the given programs. */
  ghost predicate Demo(s: State, p: Prog, q: Prog) {
    Initial(s) && Two(s) && s.prog[1] == p && s.prog[2] == q
  }

  /** In opposite orders there is a run into a deadlock, which detect() reports. */
  lemma OppositeOrdersCanDeadlock(s: State, a: nat, b: nat) returns (acts: seq<Action>)
    requires a != b && Demo(s, TwoLocks(a, b), TwoLocks(b, a))
    ensures IsRun(s, acts) && HasCycle(After(s, acts).k.graph) && true in After(s, acts).k.verdicts
  {
    var x, y := Position(READY, Outside, TwoLocks(a, b)), Position(READY, Outside, TwoLocks(b, a));
    var e1 := TakesFirst(s, 1, x, y, a, b, NoOwner, NoOwner);
    var x1, y1 := Position(READY, Outside, Lock(b, Rest(a, b))), Position(READY, Outside, Lock(a, Rest(b, a)));
    var e2 := TakesFirst(e1, 2, x1, y, a, b, 1, NoOwner);
    RunToThen(s, [Begin(1), Run(1), Run(1)], e1, [Begin(2), Run(2), Run(2)], e2);
    var e3 := AsksSecond(e2, 1, x1, y1, a, b);
    RunToThen(s, [Begin(1), Run(1), Run(1)] + [Begin(2), Run(2), Run(2)], e2, [Begin(1), Run(1)], e3);
    var e4 := AsksSecond(e3, 2, Position(BLOCKED, InLock(b), Rest(a, b)), y1, a, b);
    acts := [Begin(1), Run(1), Run(1)] + [Begin(2), Run(2), Run(2)] + [Begin(1), Run(1)];
    RunToThen(s, acts, e3, [Begin(2), Run(2)], e4);
    acts := acts + [Begin(2), Run(2)];
    InitialInv(s);
    ReachableInv(s, acts);
    EmbraceIsCycle(e4, a, b, Rest(a, b), Rest(b, a));
    NoEdgesNoCycle(s.k.graph);
    ReportsAreExact(s, acts);
  }

  lemma ExitMoves(s: State, t: int, x: Position, y: Position, a: nat, b: nat, ownerA: int, ownerB: int)
    requires Scene(s, x, y, a, b, ownerA, ownerB) && (t == 1 || t == 2)
    requires (if t == 1 then x else y) == Position(RUNNING, Outside, Done)
    ensures Enabled(s, Run(t)) && Moved(Next(s, Run(t)), t, x, y, Position(FINISHED, Outside, Done), a, b, ownerA, ownerB)
  {
  }

  /** The first thread exits with the mutex, the second asks for it. */
  lemma ExitThenAsk(s: State, a: nat, b: nat) returns (acts: seq<Action>, e: State)
    requires a != b && Demo(s, Lock(a, Done), Lock(a, Done))
    ensures IsRunTo(s, acts, e)
    ensures Scene(e, Position(FINISHED, Outside, Done), Position(BLOCKED, InLock(a), Done), a, b, 1, NoOwner)
  {
    var x, none := Position(READY, Outside, Lock(a, Done)), NoOwner;
    BeginMoves(s, 1, x, x, a, b, none, none);
    var s1 := Next(s, Begin(1));
    LockMoves(s1, 1, Position(RUNNING, Outside, Lock(a, Done)), x, a, b, none, none);
    var s2 := Next(s1, Run(1));
    ExitMoves(s2, 1, Position(RUNNING, Outside, Done), x, a, b, 1, none);
    var s3 := Next(s2, Run(1));
    var gone := Position(FINISHED, Outside, Done);
    ThreeActions(s, Begin(1), s1, Run(1), s2, Run(1), s3);
    BeginMoves(s3, 2, gone, x, a, b, 1, none);
    var s4 := Next(s3, Begin(2));
    LockMoves(s4, 2, gone, Position(RUNNING, Outside, Lock(a, Done)), a, b, 1, none);
    e := Next(s4, Run(2));
    TwoActions(s3, Begin(2), s4, Run(2), e);
    RunToThen(s, [Begin(1), Run(1), Run(1)], s3, [Begin(2), Run(2)], e);
    acts := [Begin(1), Run(1), Run(1)] + [Begin(2), Run(2)];
  }

  /** The third way for run() to end: a thread that exits with a mutex strands the next one, and
      no cycle tells. */
  lemma ExitHoldingStrands(s: State, a: nat, b: nat) returns (acts: seq<Action>)
    requires a != b && Demo(s, Lock(a, Done), Lock(a, Done))
    ensures IsRun(s, acts) && Quiescent(After(s, acts))
    ensures !AllFinished(After(s, acts)) && !HasCycle(After(s, acts).k.graph) && Stranded(After(s, acts).k)
  {
    var e: State;
    acts, e := ExitThenAsk(s, a, b);
    InitialInv(s);
    ReachableInv(s, acts);
    StrandedIsNoCycle(e, Position(FINISHED, Outside, Done), Position(BLOCKED, InLock(a), Done), a, b);
    assert s.k.at.Keys == s.prog.Keys;
    RunsEndDoneOrReported(s, acts);
  }

  lemma StrandedIsNoCycle(s: State, x: Position, y: Position, a: nat, b: nat)
    requires Inv(s) && Scene(s, x, y, a, b, 1, NoOwner) && x.w == Outside && y.w == InLock(a)
    ensures !HasCycle(s.k.graph)
  {
    if HasCycle(s.k.graph) {
      var p :| IsCycle(s.k.graph, p);
      var n := p[0];
      OnCycle(s.k, p, n);
      if n < 0 {
        n := Owner(s.k, -n - 1);
        OnCycle(s.k, p, n);
      }
      OnCycle(s.k, p, MutexNode(s.k.at[n].m));
      OnCycle(s.k, p, 1);
      assert false;
    }
  }

  lemma TwoLocksIsOrdered(a: nat, b: nat)
    requires a < b
    ensures Ordered(TwoLocks(a, b), {}) && Obeys(ExitEmptyHanded, TwoLocks(a, b), {}) && MutexOnly(TwoLocks(a, b))
  {
    var none: set<nat> := {};
    var both := none + {a} + {b};
    assert both - {b} - {a} == none;
    assert Ordered(Rest(a, b), both) && Obeys(ExitEmptyHanded, Rest(a, b), both) && MutexOnly(Rest(a, b));
    var second := Yield(Lock(b, Rest(a, b)));
    assert Ordered(second, none + {a}) && Obeys(ExitEmptyHanded, second, none + {a}) && MutexOnly(second);
  }

  /** In one order no run is reported, and when nobody is READY both are FINISHED. */
  lemma SameOrderCompletes(s: State, a: nat, b: nat, acts: seq<Action>)
    requires a < b && Demo(s, TwoLocks(a, b), TwoLocks(a, b)) && IsRun(s, acts)
    ensures true !in After(s, acts).k.verdicts
    ensures |acts| <= Measure(s)
    ensures Quiescent(After(s, acts)) ==> AllFinished(After(s, acts))
  {
    forall t | t in s.prog
      ensures ThreadOrdered(s, t) && ThreadObeys(ExitEmptyHanded, s, t) && MutexOnly(s.prog[t])
    {
      TwoLocksIsOrdered(a, b);
      assert HeldOnReturn(s.k, t) == {};
      assert Held(s.k, t) == {};
    }
    OrderedLockingCompletes(s, acts);
  }
}
