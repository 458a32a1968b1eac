/** Every run of finite programs is finite, as long as their wait loops own the mutex they wait
    with: each failed retry of a blocked thread is charged to the operation that woke it. Also
    the two rules about locks that programs may follow, and that runs keep them. */
module Termination {
  import opened Collections
  import opened Kernel
  import opened KernelFrame
  import opened KernelChannels
  import opened Machine

  /** WaitOwning: a wait loop runs only while its thread owns the mutex. ExitEmptyHanded: a
      thread's function returns with no mutex held. */
  datatype Rule = WaitOwning | ExitEmptyHanded

  /** The program, started holding `held`, follows the rule. */
  ghost predicate Obeys(rule: Rule, p: Prog, held: set<nat>) {
    match p
    case Done => rule == ExitEmptyHanded ==> held == {}
    case Yield(next) => Obeys(rule, next, held)
    case Lock(m, next) => Obeys(rule, next, held + {m})
    case TryLock(m, yes, no) => Obeys(rule, yes, held + {m}) && (m in held || Obeys(rule, no, held))
    case Unlock(m, next) => Obeys(rule, next, held - {m})
    case SemWait(_, next) => Obeys(rule, next, held)
    case SemSignal(_, next) => Obeys(rule, next, held)
    case CvWait(_, _, next) => Obeys(rule, next, held)
    case CvSignal(_, next) => Obeys(rule, next, held)
    case CvBroadcast(_, next) => Obeys(rule, next, held)
    case WaitWhile(_, _, m, next) => (rule == WaitOwning ==> m in held) && Obeys(rule, next, held)
    case Do(_, next) => Obeys(rule, next, held)
    case If(_, yes, no) => Obeys(rule, yes, held) && Obeys(rule, no, held)
  }

  /** The mutex that the primitive a thread is suspended in takes before it returns. */
  function Reacquired(w: Where): set<nat> {
    match w
    case InLock(m) => {m}
    case InCv(_, m) => {m}
    case _ => {}
  }

  function HeldOnReturn(k: Kernel, t: int): set<nat>
    requires t in k.at
  {
    Held(k, t) + Reacquired(k.at[t])
  }

  ghost predicate ThreadObeys(rule: Rule, s: State, t: int)
    requires t in s.k.at && t in s.prog && t in s.k.states
  {
    if s.k.states[t] == FINISHED then rule == ExitEmptyHanded ==> Held(s.k, t) == {}
    else Obeys(rule, s.prog[t], HeldOnReturn(s.k, t))
  }

  ghost predicate AllObey(rule: Rule, s: State)
    requires s.k.at.Keys == s.k.states.Keys == s.prog.Keys
  {
    forall t :: t in s.k.states ==> ThreadObeys(rule, s, t)
  }

  lemma OthersStillObey(rule: Rule, s: State, s': State, t: int)
    requires Inv(s) && Inv(s') && AllObey(rule, s)
    requires Frame(s.k, s'.k, t)
    requires forall u :: u in s.prog && u != t ==> s'.prog[u] == s.prog[u]
    requires t in s.k.states && ThreadObeys(rule, s', t)
    ensures AllObey(rule, s')
  {
    forall u | u in s'.k.states
      ensures ThreadObeys(rule, s', u)
    {
      if u != t {
        assert Bystander(s.k, s'.k, u);
        assert ThreadObeys(rule, s, u);
      }
    }
  }

  /** What the running thread holds, or will hold once its primitive returns, after one operation. */
  function HeldNext(s: State, t: int): set<nat>
    requires t in s.prog
  {
    var held := Held(s.k, t);
    match s.prog[t]
    case Lock(m, _) => held + {m}
    case TryLock(m, _, _) => if TryLockResult(s.k, t, m) then held + {m} else held
    case Unlock(m, _) => held - {m}
    case _ => held
  }

  lemma MutexOpHeld(s: State, t: int)
    requires Inv(s) && Is(s.k, t, RUNNING) && Inv(Exec(s, t))
    requires s.prog[t].Lock? || s.prog[t].TryLock? || s.prog[t].Unlock?
    ensures HeldOnReturn(Exec(s, t).k, t) == HeldNext(s, t) && !Is(Exec(s, t).k, t, FINISHED)
  {
    var held := Held(s.k, t);
    match s.prog[t]
    case Lock(m, _) =>
      if Owner(s.k, m) == t { assert held + {m} == held; } else { LockLoopFrame(s.k, t, m); }
    case TryLock(m, _, _) =>
      if Owner(s.k, m) == NoOwner { AcquireFrame(s.k, t, m); }
      if Owner(s.k, m) == t { assert held + {m} == held; }
    case Unlock(m, _) => UnlockFrame(s.k, t, m);
  }

  lemma OtherOpHeld(s: State, t: int)
    requires Inv(s) && Is(s.k, t, RUNNING) && Inv(Exec(s, t))
    requires !(s.prog[t].Lock? || s.prog[t].TryLock? || s.prog[t].Unlock? || s.prog[t].Done?)
    ensures HeldOnReturn(Exec(s, t).k, t) == Held(s.k, t) && !Is(Exec(s, t).k, t, FINISHED)
  {
    hide QueuesOk, OwnersOk, GraphOk, NoLostWakeup, Exec;
    ExecMovesCaller(s, t);
    assert forall m :: m in Held(s.k, t) ==> Held(s.k, t) - {m} + {m} == Held(s.k, t);
  }

  lemma CallerStillObeys(rule: Rule, s: State, t: int)
    requires Inv(s) && Is(s.k, t, RUNNING) && Inv(Exec(s, t)) && ThreadObeys(rule, s, t)
    ensures ThreadObeys(rule, Exec(s, t), t)
  {
    hide QueuesOk, OwnersOk, GraphOk, NoLostWakeup;
    assert HeldOnReturn(s.k, t) == Held(s.k, t);
    match s.prog[t]
    case Done => SetStateFrame(s.k, t, FINISHED);
    case Lock(_, _) => MutexOpHeld(s, t);
    case TryLock(m, _, _) => MutexOpHeld(s, t);
    case Unlock(_, _) => MutexOpHeld(s, t);
    case _ => OtherOpHeld(s, t);
  }

  lemma ExecStillObeys(rule: Rule, s: State, t: int)
    requires Inv(s) && AllObey(rule, s) && Is(s.k, t, RUNNING)
    ensures Inv(Exec(s, t)) && AllObey(rule, Exec(s, t))
  {
    ExecKeeps(s, t);
    ExecFrame(s, t);
    assert ThreadObeys(rule, s, t);
    CallerStillObeys(rule, s, t);
    OthersStillObey(rule, s, Exec(s, t), t);
  }

  lemma BeginStillObeys(rule: Rule, s: State, t: int)
    requires Inv(s) && AllObey(rule, s) && Enabled(s, Begin(t))
    ensures Inv(Next(s, Begin(t))) && AllObey(rule, Next(s, Begin(t)))
  {
    var s' := Next(s, Begin(t));
    NextKeeps(s, Begin(t));
    ResumeFrame(s.k, t);
    assert ThreadObeys(rule, s, t);
    assert HeldOnReturn(s'.k, t) == HeldOnReturn(s.k, t);
    OthersStillObey(rule, s, s', t);
  }

  lemma NextStillObeys(rule: Rule, s: State, a: Action)
    requires Inv(s) && AllObey(rule, s) && Enabled(s, a)
    ensures Inv(Next(s, a)) && AllObey(rule, Next(s, a))
  {
    match a
    case Begin(t) => BeginStillObeys(rule, s, t);
    case Run(t) => ExecStillObeys(rule, s, t);
  }

  /** Either rule, once followed by all threads, is followed throughout every run. */
  lemma {:induction false} RunStillObeys(rule: Rule, s: State, acts: seq<Action>)
    requires Inv(s) && AllObey(rule, s) && IsRun(s, acts)
    ensures Inv(After(s, acts)) && AllObey(rule, After(s, acts))
    decreases |acts|
  {
    if acts != [] {
      NextStillObeys(rule, s, acts[0]);
      RunStillObeys(rule, Next(s, acts[0]), acts[1..]);
    }
  }

  // ---- the measure ----

  /** The operations on the costliest path through the program, each worth `op`. */
  function Cost(p: Prog, op: nat): nat {
    match p
    case Done => 0
    case Yield(next) => op + Cost(next, op)
    case Lock(_, next) => op + Cost(next, op)
    case TryLock(_, yes, no) => op + Max(Cost(yes, op), Cost(no, op))
    case Unlock(_, next) => op + Cost(next, op)
    case SemWait(_, next) => op + Cost(next, op)
    case SemSignal(_, next) => op + Cost(next, op)
    case CvWait(_, _, next) => op + Cost(next, op)
    case CvSignal(_, next) => op + Cost(next, op)
    case CvBroadcast(_, next) => op + Cost(next, op)
    case WaitWhile(_, _, _, next) => op + Cost(next, op)
    case Do(_, next) => op + Cost(next, op)
    case If(_, yes, no) => op + Max(Cost(yes, op), Cost(no, op))
  }

  function Max(a: nat, b: nat): nat {
    if a < b then b else a
  }

  /** How many actions a thread can still take without completing an operation and without being woken. */
  function Phase(st: ThreadState, w: Where): nat {
    match st
    case FINISHED => 0
    case RUNNING => 2
    case READY => if w.InCv? then 4 else 3
    case BLOCKED => if w.InLock? then 2 else 0
  }

  /** What an operation is worth: it may wake every other thread. */
  function OpWorth(s: State): nat {
    4 * |s.k.states| + 4
  }

  function Weights(s: State): map<int, nat>
    requires s.k.at.Keys == s.k.states.Keys == s.prog.Keys
  {
    map t | t in s.k.states :: Cost(s.prog[t], OpWorth(s)) + Phase(s.k.states[t], s.k.at[t])
  }

  ghost function Measure(s: State): nat
    requires s.k.at.Keys == s.k.states.Keys == s.prog.Keys
  {
    Total(Weights(s))
  }

  lemma SameKeysSameSize(s: State, s': State)
    requires s.k.states.Keys == s'.k.states.Keys
    ensures |s.k.states| == |s'.k.states|
  {
    assert |s.k.states| == |s.k.states.Keys|;
    assert |s'.k.states| == |s'.k.states.Keys|;
  }

  lemma WeightsSize(s: State)
    requires s.k.at.Keys == s.k.states.Keys == s.prog.Keys
    ensures |Weights(s)| == |s.k.states|
  {
    assert Weights(s).Keys == s.k.states.Keys;
    assert |Weights(s)| == |Weights(s).Keys|;
    assert |s.k.states| == |s.k.states.Keys|;
  }

  lemma BystandersGainLittle(s: State, s': State, t: int)
    requires Inv(s) && Inv(s') && Frame(s.k, s'.k, t) && t in s.k.states
    requires forall u :: u in s.prog && u != t ==> s'.prog[u] == s.prog[u]
    ensures Weights(s').Keys == Weights(s).Keys
    ensures forall u :: u in Weights(s) && u != t ==> Weights(s')[u] <= Weights(s)[u] + 4
  {
    hide QueuesOk, OwnersOk, GraphOk, NoLostWakeup, Cost;
    SameKeysSameSize(s, s');
    forall u | u in Weights(s) && u != t
      ensures Weights(s')[u] <= Weights(s)[u] + 4
    {
      assert Bystander(s.k, s'.k, u);
      assert Phase(s'.k.states[u], s'.k.at[u]) <= Phase(s.k.states[u], s.k.at[u]) + 4;
    }
  }

  /** An operation that is used up pays for all the wake-ups it can cause. */
  lemma UsedOperationPays(s: State, s': State, t: int)
    requires Inv(s) && Inv(s') && Frame(s.k, s'.k, t) && Is(s.k, t, RUNNING)
    requires forall u :: u in s.prog && u != t ==> s'.prog[u] == s.prog[u]
    requires Cost(s'.prog[t], OpWorth(s)) + OpWorth(s) <= Cost(s.prog[t], OpWorth(s))
    ensures Measure(s') < Measure(s)
  {
    hide QueuesOk, OwnersOk, GraphOk, NoLostWakeup, Bystander, Total;
    WeightsSize(s);
    BystandersGainLittle(s, s', t);
    CallerPays(s, s', t);
    hide Weights;
    TotalDrop(Weights(s), Weights(s'), t, 4);
  }

  lemma CallerPays(s: State, s': State, t: int)
    requires s.k.at.Keys == s.k.states.Keys == s.prog.Keys == s'.k.at.Keys == s'.k.states.Keys == s'.prog.Keys
    requires Is(s.k, t, RUNNING) && Cost(s'.prog[t], OpWorth(s)) + OpWorth(s) <= Cost(s.prog[t], OpWorth(s))
    ensures Weights(s')[t] + 4 * |s.k.states| < Weights(s)[t] + 4
  {
    hide Cost;
    SameKeysSameSize(s, s');
  }

  lemma OneThreadMoves(s: State, s': State, t: int)
    requires Inv(s) && Inv(s') && t in s.k.states
    requires s'.k.states.Keys == s.k.states.Keys
    requires forall u :: u in s.k.states && u != t ==> s'.k.states[u] == s.k.states[u] && s'.k.at[u] == s.k.at[u]
    requires s'.prog == s.prog
    requires Phase(s'.k.states[t], s'.k.at[t]) < Phase(s.k.states[t], s.k.at[t])
    ensures Measure(s') < Measure(s)
  {
    hide QueuesOk, OwnersOk, GraphOk, NoLostWakeup, Cost, Phase, Total;
    SameKeysSameSize(s, s');
    TotalOfOne(Weights(s), Weights(s'), t);
  }

  lemma TwoThreadsMove(s: State, s': State, t: int, u: int)
    requires Inv(s) && Inv(s') && t in s.k.states && u in s.k.states && t != u
    requires s'.k.states.Keys == s.k.states.Keys
    requires forall v :: v in s.k.states && v != t && v != u ==> s'.k.states[v] == s.k.states[v] && s'.k.at[v] == s.k.at[v]
    requires s'.prog == s.prog
    requires Phase(s'.k.states[t], s'.k.at[t]) + Phase(s'.k.states[u], s'.k.at[u]) <
             Phase(s.k.states[t], s.k.at[t]) + Phase(s.k.states[u], s.k.at[u])
    ensures Measure(s') < Measure(s)
  {
    hide QueuesOk, OwnersOk, GraphOk, NoLostWakeup, Cost, Phase, Total;
    SameKeysSameSize(s, s');
    TotalOfTwo(Weights(s), Weights(s'), t, u);
  }

  lemma BeginDecreases(s: State, t: int)
    requires Inv(s) && Enabled(s, Begin(t))
    ensures Inv(Next(s, Begin(t)))
    ensures Measure(Next(s, Begin(t))) < Measure(s)
  {
    var s' := Next(s, Begin(t));
    NextKeeps(s, Begin(t));
    ResumeFrame(s.k, t);
    forall u | u in s.k.states && u != t
      ensures s'.k.states[u] == s.k.states[u] && s'.k.at[u] == s.k.at[u]
    {
      ResumeOthers(s.k, t, u);
    }
    OneThreadMoves(s, s', t);
  }

  /** Which thread an unlock wakes, if any: nobody else moves. */
  lemma UnlockWakesOne(k: Kernel, t: int, m: nat) returns (u: int)
    requires KernelInv(k) && Is(k, t, RUNNING) && Owner(k, m) == t
    ensures u in k.states && UnlockCall(k, t, m).at == k.at && UnlockCall(k, t, m).states.Keys == k.states.Keys
    ensures forall v :: v in k.states && v != u ==> UnlockCall(k, t, m).states[v] == k.states[v]
    ensures u != t ==> Is(k, u, BLOCKED) && Is(UnlockCall(k, t, m), u, READY) && k.at[u].InLock?
    ensures Is(UnlockCall(k, t, m), t, RUNNING)
  {
    var r := Release(k, t, m);
    assert ThreadsOk(r) && QueuesOk(r) by {
      assert forall v, st :: Is(r, v, st) <==> Is(k, v, st);
      assert forall v, ch :: Waiting(r, v, ch) <==> Waiting(k, v, ch);
      assert forall ch :: Queue(r, ch) == Queue(k, ch);
    }
    PopWakeKeepsQueues(r, MutexQ(m));
    u := if Queue(r, MutexQ(m)) == [] then t else Queue(r, MutexQ(m))[0];
  }

  /** Going back to sleep wakes at most one mutex waiter, which the sleeper pays for. */
  lemma WaitDecreases(s: State, t: int, c: nat, m: nat)
    requires Inv(s) && Is(s.k, t, RUNNING) && Owner(s.k, m) == t
    ensures Inv(s.(k := CvWaitCall(s.k, t, c, m)))
    ensures Measure(s.(k := CvWaitCall(s.k, t, c, m))) < Measure(s)
  {
    hide QueuesOk, OwnersOk, GraphOk, NoLostWakeup, Measure, Weights, Bystander;
    var s' := s.(k := CvWaitCall(s.k, t, c, m));
    CvWaitKeeps(s.k, t, c, m);
    CvWaitFrame(s.k, t, c, m);
    var u := UnlockWakesOne(s.k, t, m);
    if u == t {
      OneThreadMoves(s, s', t);
    } else {
      TwoThreadsMove(s, s', t, u);
    }
  }

  lemma OperationUsed(s: State, t: int)
    requires Is(s.k, t, RUNNING) && t in s.prog && !s.prog[t].Done?
    requires s.prog[t].WaitWhile? ==> !Holds(s.prog[t].g, s.mem)
    ensures Exec(s, t).prog.Keys == s.prog.Keys
    ensures Cost(Exec(s, t).prog[t], OpWorth(s)) + OpWorth(s) <= Cost(s.prog[t], OpWorth(s))
    ensures forall u :: u in s.prog && u != t ==> Exec(s, t).prog[u] == s.prog[u]
  {
  }

  /** A wait loop whose mutex its thread does not own: wait() returns at once, and nothing changes. */
  predicate Spins(s: State, t: int) {
    Is(s.k, t, RUNNING) && t in s.prog && s.prog[t].WaitWhile? && Holds(s.prog[t].g, s.mem) && Owner(s.k, s.prog[t].cm) != t
  }

  ghost predicate SomeoneSpins(s: State) {
    exists t :: Spins(s, t)
  }

  lemma NobodySpins(s: State)
    requires Inv(s) && AllObey(WaitOwning, s)
    ensures !SomeoneSpins(s)
  {
    hide QueuesOk, OwnersOk, GraphOk, NoLostWakeup;
    forall t ensures !Spins(s, t) {
      if Is(s.k, t, RUNNING) { assert ThreadObeys(WaitOwning, s, t); }
    }
  }

  lemma ReturnDecreases(s: State, t: int)
    requires Inv(s) && Is(s.k, t, RUNNING) && s.prog[t].Done?
    ensures Inv(Exec(s, t)) && Measure(Exec(s, t)) < Measure(s)
  {
    hide QueuesOk, OwnersOk, GraphOk, NoLostWakeup, Measure;
    ExecKeeps(s, t);
    OneThreadMoves(s, Exec(s, t), t);
  }

  lemma RunDecreases(s: State, t: int)
    requires Inv(s) && !Spins(s, t) && Is(s.k, t, RUNNING)
    ensures Inv(Exec(s, t)) && Measure(Exec(s, t)) < Measure(s)
  {
    hide QueuesOk, OwnersOk, GraphOk, NoLostWakeup, Cost, Measure, Frame;
    ExecKeeps(s, t);
    ExecFrame(s, t);
    var s' := Exec(s, t);
    if s.prog[t].Done? {
      ReturnDecreases(s, t);
    } else if s.prog[t].WaitWhile? && Holds(s.prog[t].g, s.mem) {
      WaitDecreases(s, t, s.prog[t].c, s.prog[t].cm);
    } else {
      OperationUsed(s, t);
      UsedOperationPays(s, s', t);
    }
  }

  lemma NextDecreases(s: State, a: Action)
    requires Inv(s) && !SomeoneSpins(s) && Enabled(s, a)
    ensures Inv(Next(s, a)) && Measure(Next(s, a)) < Measure(s)
  {
    match a
    case Begin(t) => BeginDecreases(s, t);
    case Run(t) => RunDecreases(s, t);
  }

  /** No run is longer than the measure of its first state: run() terminates under every policy. */
  lemma {:induction false} EveryRunIsFinite(s: State, acts: seq<Action>)
    requires Inv(s) && AllObey(WaitOwning, s) && IsRun(s, acts)
    ensures |acts| <= Measure(s)
    decreases |acts|
  {
    if acts != [] {
      NextStillObeys(WaitOwning, s, acts[0]);
      NobodySpins(s);
      NextDecreases(s, acts[0]);
      EveryRunIsFinite(Next(s, acts[0]), acts[1..]);
    }
  }

  lemma {:induction false} UnownedWaitSpins(s: State, t: int, n: nat) returns (acts: seq<Action>)
    requires Spins(s, t)
    ensures |acts| == n && IsRun(s, acts) && After(s, acts) == s
  {
    acts := [];
    if n > 0 {
      assert Next(s, Run(t)) == s;
      var rest := UnownedWaitSpins(s, t, n - 1);
      acts := [Run(t)] + rest;
      assert acts[1..] == rest;
    }
  }

  ghost predicate NoRunSpins(s: State) {
    forall acts :: IsRun(s, acts) ==> !SomeoneSpins(After(s, acts))
  }

  ghost predicate RunsBounded(s: State, n: nat) {
    forall acts :: IsRun(s, acts) ==> |acts| <= n
  }

  lemma {:induction false} MeasureBounds(s: State, acts: seq<Action>)
    requires Inv(s) && NoRunSpins(s) && IsRun(s, acts)
    ensures |acts| <= Measure(s)
    decreases |acts|
  {
    if acts != [] {
      assert IsRun(s, []) && After(s, []) == s;
      NextDecreases(s, acts[0]);
      var s' := Next(s, acts[0]);
      forall more | IsRun(s', more) ensures !SomeoneSpins(After(s', more)) {
        ActionThenRun(s, acts[0], more, After(s', more));
      }
      MeasureBounds(s', acts[1..]);
    }
  }

  /** Exactly when runs end: whatever the programs, their lengths are bounded if and only if no
      run brings a thread to a wait loop that it does not own the mutex of. */
  lemma RunsEndUnlessSomeoneSpins(s: State)
    requires Inv(s)
    ensures (exists n: nat :: RunsBounded(s, n)) <==> NoRunSpins(s)
  {
    if NoRunSpins(s) {
      forall acts | IsRun(s, acts) ensures |acts| <= Measure(s) { MeasureBounds(s, acts); }
      assert RunsBounded(s, Measure(s));
    }
    if acts :| IsRun(s, acts) && SomeoneSpins(After(s, acts)) {
      forall n: nat ensures !RunsBounded(s, n) {
        var t :| Spins(After(s, acts), t);
        var more := UnownedWaitSpins(After(s, acts), t, n + 1);
        RunThenRun(s, acts, more);
        assert IsRun(s, acts + more);
      }
    }
  }
}
