/** The scheduler's bookkeeping around the machine: which READY thread a policy selects, one
    dispatch up to the switch back, round-robin slices, the logical clock and the tick fields. */
module Scheduling {
  import opened Collections
  import opened WaitGraph
  import opened Kernel
  import opened KernelFrame
  import opened KernelChannels
  import opened Machine
  import opened Termination
  import opened Deadlock

  datatype Policy = FIFO | SJF | RR | PRIORITY

  /** `order` is the pool's vector of tids; ticks are -1 until they are set. */
  datatype Sched = Sched(
    ms: State, order: seq<int>, priority: map<int, int>, burst: map<int, int>,
    firstRun: map<int, int>, finish: map<int, int>,
    policy: Policy, quantum: nat, rrIndex: nat, clock: nat)

  ghost predicate Good(s: State) {
    Inv(s) && AllObey(WaitOwning, s)
  }

  /** Every table has an entry for every thread, and the round-robin index is in range. */
  ghost predicate Tables(c: Sched, tids: set<int>) {
    && NoDup(c.order) && (set t | t in c.order) == tids
    && c.priority.Keys == tids && c.burst.Keys == tids && c.firstRun.Keys == tids && c.finish.Keys == tids
    && 0 < c.quantum
    && c.rrIndex <= |c.order| && (c.order != [] ==> c.rrIndex < |c.order|)
  }

  ghost predicate SchedOk(c: Sched) {
    Good(c.ms) && NobodyRuns(c.ms.k) && Tables(c, c.ms.k.states.Keys)
  }

  // ---- one dispatch ----

  lemma ExecIsGood(s: State, t: int)
    requires Good(s) && Is(s.k, t, RUNNING)
    ensures Good(Exec(s, t)) && Exec(s, t).k.states.Keys == s.k.states.Keys && Measure(Exec(s, t)) < Measure(s)
  {
    ExecStillObeys(WaitOwning, s, t);
    NobodySpins(s);
    RunDecreases(s, t);
    ExecFrame(s, t);
  }

  lemma BeginIsGood(s: State, t: int)
    requires Good(s) && Enabled(s, Begin(t))
    ensures Good(Next(s, Begin(t))) && Next(s, Begin(t)).k.states.Keys == s.k.states.Keys
    ensures Measure(Next(s, Begin(t))) < Measure(s)
  {
    BeginStillObeys(WaitOwning, s, t);
    BeginDecreases(s, t);
    ResumeFrame(s.k, t);
  }

  /** The running thread keeps the processor until it yields, blocks or exits. */
  ghost function RunOut(s: State, t: int): State
    requires Good(s)
    decreases Measure(s)
  {
    if Is(s.k, t, RUNNING) then
      ExecIsGood(s, t);
      RunOut(Exec(s, t), t)
    else s
  }

  ghost function Dispatch(s: State, t: int): State
    requires Good(s) && Enabled(s, Begin(t))
  {
    BeginIsGood(s, t);
    RunOut(Next(s, Begin(t)), t)
  }

  lemma {:induction false} RunOutIsGood(s: State, t: int)
    requires Good(s)
    ensures Good(RunOut(s, t)) && RunOut(s, t).k.states.Keys == s.k.states.Keys && !Is(RunOut(s, t).k, t, RUNNING)
    ensures Measure(RunOut(s, t)) <= Measure(s)
    decreases Measure(s)
  {
    if Is(s.k, t, RUNNING) {
      ExecIsGood(s, t);
      RunOutIsGood(Exec(s, t), t);
    }
  }

  /** A thread that was READY or FINISHED and did not run still is. */
  lemma {:induction false} RunOutSparesOthers(s: State, t: int, u: int)
    requires Good(s) && u != t
    ensures Is(s.k, u, READY) ==> Is(RunOut(s, t).k, u, READY)
    ensures Is(s.k, u, FINISHED) ==> Is(RunOut(s, t).k, u, FINISHED)
    ensures Is(RunOut(s, t).k, u, RUNNING) ==> Is(s.k, u, RUNNING)
    decreases Measure(s)
  {
    if Is(s.k, t, RUNNING) {
      ExecIsGood(s, t);
      ExecFrame(s, t);
      if u in s.k.states { assert Bystander(s.k, Exec(s, t).k, u); }
      RunOutSparesOthers(Exec(s, t), t, u);
    }
  }

  lemma DispatchSparesOthers(s: State, t: int, u: int)
    requires Good(s) && Enabled(s, Begin(t)) && u != t
    ensures Is(s.k, u, READY) ==> Is(Dispatch(s, t).k, u, READY)
    ensures Is(s.k, u, FINISHED) ==> Is(Dispatch(s, t).k, u, FINISHED)
    ensures !Is(Dispatch(s, t).k, u, RUNNING)
  {
    BeginIsGood(s, t);
    ResumeOthers(s.k, t, u);
    assert !Is(s.k, u, RUNNING);
    assert !Is(Next(s, Begin(t)).k, u, RUNNING);
    RunOutSparesOthers(Next(s, Begin(t)), t, u);
  }

  lemma DispatchIsGood(s: State, t: int)
    requires Good(s) && Enabled(s, Begin(t))
    ensures Good(Dispatch(s, t)) && NobodyRuns(Dispatch(s, t).k)
    ensures Dispatch(s, t).k.states.Keys == s.k.states.Keys && Measure(Dispatch(s, t)) < Measure(s)
  {
    BeginIsGood(s, t);
    RunOutIsGood(Next(s, Begin(t)), t);
    forall u
      ensures !Is(Dispatch(s, t).k, u, RUNNING)
    {
      if u != t { DispatchSparesOthers(s, t, u); }
    }
  }

  /** The tick fields and the clock after t was switched to at tick c.clock and came back in state e. */
  ghost function Tick(c: Sched, t: int, e: State): Sched
    requires t in c.firstRun
  {
    c.(ms := e,
       firstRun := if c.firstRun[t] == -1 then c.firstRun[t := c.clock] else c.firstRun,
       clock := c.clock + 1,
       finish := if Is(e.k, t, FINISHED) then c.finish[t := c.clock + 1] else c.finish)
  }

  lemma CanBegin(c: Sched, t: int)
    requires SchedOk(c) && Is(c.ms.k, t, READY)
    ensures Enabled(c.ms, Begin(t)) && t in c.firstRun
  {
  }

  /** dispatchThread: the first-run tick, the switch, one tick of the clock, the finish tick. */
  ghost function DispatchThread(c: Sched, t: int): Sched
    requires SchedOk(c) && Is(c.ms.k, t, READY)
  {
    CanBegin(c, t);
    Tick(c, t, Dispatch(c.ms, t))
  }

  /** The settings a dispatch does not touch. */
  ghost predicate SameSettings(c: Sched, d: Sched) {
    d.order == c.order && d.rrIndex == c.rrIndex && d.policy == c.policy && d.quantum == c.quantum
    && d.burst == c.burst && d.priority == c.priority
  }

  lemma DispatchThreadOk(c: Sched, t: int)
    requires SchedOk(c) && Is(c.ms.k, t, READY)
    ensures SchedOk(DispatchThread(c, t)) && SameSettings(c, DispatchThread(c, t))
    ensures Measure(DispatchThread(c, t).ms) < Measure(c.ms)
    ensures DispatchThread(c, t).clock == c.clock + 1
  {
    CanBegin(c, t);
    DispatchIsGood(c.ms, t);
    TicksKeepTables(c, t, Dispatch(c.ms, t));
  }

  lemma TicksKeepTables(c: Sched, t: int, e: State)
    requires Tables(c, e.k.states.Keys) && t in c.firstRun
    ensures Tables(Tick(c, t, e), e.k.states.Keys)
  {
    var d := Tick(c, t, e);
    assert d.firstRun.Keys == c.firstRun.Keys && d.finish.Keys == c.finish.Keys;
  }

  /** runRoundRobinSlice: up to `left` dispatches of the same thread, as long as it yields. */
  ghost function Slice(c: Sched, t: int, left: nat): Sched
    requires SchedOk(c) && Is(c.ms.k, t, READY) && 0 < left
    decreases left
  {
    DispatchThreadOk(c, t);
    var d := DispatchThread(c, t);
    if left > 1 && Is(d.ms.k, t, READY) then Slice(d, t, left - 1) else d
  }

  lemma {:induction false} SliceOk(c: Sched, t: int, left: nat)
    requires SchedOk(c) && Is(c.ms.k, t, READY) && 0 < left
    ensures SchedOk(Slice(c, t, left)) && SameSettings(c, Slice(c, t, left))
    ensures Measure(Slice(c, t, left).ms) < Measure(c.ms)
    ensures c.clock < Slice(c, t, left).clock <= c.clock + left
    decreases left
  {
    hide SchedOk, Measure, DispatchThread;
    DispatchThreadOk(c, t);
    var d := DispatchThread(c, t);
    if left > 1 && Is(d.ms.k, t, READY) { SliceOk(d, t, left - 1); }
  }

  ghost predicate DispatchedTo(c: Sched, d: Sched, t: int) {
    SchedOk(c) && Is(c.ms.k, t, READY) && d == DispatchThread(c, t)
  }

  /** One dispatch of thread t after the other, each with the thread READY before. */
  ghost predicate DispatchesOf(t: int, trace: seq<Sched>) {
    forall i, j :: 0 <= i < j < |trace| && j == i + 1 ==> DispatchedTo(trace[i], trace[j], t)
  }

  /** A slice is at least one and at most `left` dispatches of its thread, in a row, one tick
      each; it ends only when the thread is not READY any more or all of them are used up. */
  lemma {:induction false} SliceIsDispatches(c: Sched, t: int, left: nat) returns (trace: seq<Sched>)
    requires SchedOk(c) && Is(c.ms.k, t, READY) && 0 < left
    ensures 2 <= |trace| <= left + 1 && trace[0] == c && trace[|trace| - 1] == Slice(c, t, left)
    ensures DispatchesOf(t, trace)
    ensures Slice(c, t, left).clock == c.clock + |trace| - 1
    ensures Is(Slice(c, t, left).ms.k, t, READY) ==> |trace| == left + 1
    decreases left
  {
    hide SchedOk, DispatchThread, Measure;
    DispatchThreadOk(c, t);
    var d := DispatchThread(c, t);
    assert DispatchedTo(c, d, t);
    if left > 1 && Is(d.ms.k, t, READY) {
      var rest := SliceIsDispatches(d, t, left - 1);
      trace := [c] + rest;
      assert forall i :: 0 < i < |trace| ==> trace[i] == rest[i - 1];
    } else {
      trace := [c, d];
    }
  }

  lemma SliceUsesQuantum(c: Sched, t: int, left: nat)
    requires SchedOk(c) && Is(c.ms.k, t, READY) && 0 < left
    ensures c.clock < Slice(c, t, left).clock <= c.clock + left
    ensures Is(Slice(c, t, left).ms.k, t, READY) ==> Slice(c, t, left).clock == c.clock + left
  {
    var trace := SliceIsDispatches(c, t, left);
  }

  // ---- selection ----

  predicate ReadyAt(c: Sched, i: nat) {
    i < |c.order| && Is(c.ms.k, c.order[i], READY)
  }

  /** How far index i is from the round-robin index, going up and around. */
  function Distance(rr: nat, i: nat, n: nat): int {
    if rr <= i then i - rr else i - rr + n
  }

  /** Strictly better for selectSJF and selectPriority: smaller key, then smaller tid. */
  predicate Before(key: map<int, int>, t: int, u: int)
    requires t in key && u in key
  {
    key[t] < key[u] || (key[t] == key[u] && t < u)
  }

  lemma InTables(c: Sched, i: nat)
    requires Tables(c, c.ms.k.states.Keys) && i < |c.order|
    ensures c.order[i] in c.burst && c.order[i] in c.priority && c.order[i] in c.ms.k.states
  {
    assert c.order[i] in (set t | t in c.order);
  }

  /** The policy prefers the thread at index i to the one at index j. */
  ghost predicate Preferred(c: Sched, i: nat, j: nat)
    requires Tables(c, c.ms.k.states.Keys) && i < |c.order| && j < |c.order|
  {
    InTables(c, i);
    InTables(c, j);
    match c.policy
    case FIFO => i < j
    case RR => Distance(c.rrIndex, i, |c.order|) < Distance(c.rrIndex, j, |c.order|)
    case SJF => Before(c.burst, c.order[i], c.order[j])
    case PRIORITY => Before(c.priority, c.order[i], c.order[j])
  }

  /** The index of the thread that selectNext returns. */
  ghost predicate Chosen(c: Sched, i: nat)
    requires SchedOk(c)
  {
    ReadyAt(c, i) && forall j: nat :: ReadyAt(c, j) && j != i ==> Preferred(c, i, j)
  }

  lemma ChosenIsUnique(c: Sched, i: nat, j: nat)
    requires SchedOk(c) && Chosen(c, i) && Chosen(c, j)
    ensures i == j
  {
    hide Good, NobodyRuns, Tables;
    InTables(c, i);
    InTables(c, j);
  }

  /** selectRR's new index: one past the selected thread, around the end. */
  function IndexAfter(i: nat, n: nat): nat {
    if i + 1 == n then 0 else i + 1
  }

  /** The state in which selectNext leaves the scheduler. */
  ghost function Selected(c: Sched, i: nat): Sched {
    if c.policy == RR then c.(rrIndex := IndexAfter(i, |c.order|)) else c
  }

  lemma SelectedOk(c: Sched, i: nat)
    requires SchedOk(c) && i < |c.order|
    ensures SchedOk(Selected(c, i)) && Selected(c, i).ms == c.ms
  {
  }

  /** step() with the thread at index i selected. */
  ghost function StepWith(c: Sched, i: nat): Sched
    requires SchedOk(c) && Chosen(c, i)
  {
    SelectedOk(c, i);
    Slice(Selected(c, i), c.order[i], if c.policy == RR then c.quantum else 1)
  }

  lemma StepOk(c: Sched, i: nat)
    requires SchedOk(c) && Chosen(c, i)
    ensures SchedOk(StepWith(c, i)) && SameSettings(Selected(c, i), StepWith(c, i))
    ensures Measure(StepWith(c, i).ms) < Measure(c.ms)
    ensures c.clock < StepWith(c, i).clock <= c.clock + c.quantum
  {
    SelectedOk(c, i);
    SliceOk(Selected(c, i), c.order[i], if c.policy == RR then c.quantum else 1);
  }

  /** Under round robin a step ends with its thread READY only when the quantum is used up;
      under the other policies a step is one dispatch. */
  lemma StepUsesQuantum(c: Sched, i: nat)
    requires SchedOk(c) && Chosen(c, i)
    ensures c.policy == RR && Is(StepWith(c, i).ms.k, c.order[i], READY) ==> StepWith(c, i).clock == c.clock + c.quantum
    ensures c.policy != RR ==> StepWith(c, i).clock == c.clock + 1
    ensures c.clock < StepWith(c, i).clock <= c.clock + c.quantum
  {
    SelectedOk(c, i);
    SliceUsesQuantum(Selected(c, i), c.order[i], if c.policy == RR then c.quantum else 1);
  }

  // ---- every execution under a policy is a run of the machine ----

  /** A sequence of steps, each with the thread its policy selects. */
  ghost predicate Steps(c: Sched, picks: seq<nat>)
    requires SchedOk(c)
    decreases |picks|
  {
    picks == [] || (Chosen(c, picks[0]) && (StepOk(c, picks[0]); Steps(StepWith(c, picks[0]), picks[1..])))
  }

  ghost function AfterSteps(c: Sched, picks: seq<nat>): Sched
    requires SchedOk(c) && Steps(c, picks)
    decreases |picks|
  {
    if picks == [] then c
    else
      StepOk(c, picks[0]);
      AfterSteps(StepWith(c, picks[0]), picks[1..])
  }

  lemma {:induction false} RunOutIsRun(s: State, t: int) returns (acts: seq<Action>)
    requires Good(s)
    ensures IsRunTo(s, acts, RunOut(s, t))
    decreases Measure(s)
  {
    acts := [];
    if Is(s.k, t, RUNNING) {
      ExecIsGood(s, t);
      var rest := RunOutIsRun(Exec(s, t), t);
      ActionThenRun(s, Run(t), rest, RunOut(s, t));
      acts := [Run(t)] + rest;
    }
  }

  lemma DispatchThreadIsRun(c: Sched, t: int) returns (acts: seq<Action>)
    requires SchedOk(c) && Is(c.ms.k, t, READY)
    ensures IsRunTo(c.ms, acts, DispatchThread(c, t).ms)
  {
    CanBegin(c, t);
    BeginIsGood(c.ms, t);
    var rest := RunOutIsRun(Next(c.ms, Begin(t)), t);
    ActionThenRun(c.ms, Begin(t), rest, Dispatch(c.ms, t));
    acts := [Begin(t)] + rest;
  }

  lemma {:induction false} SliceIsRun(c: Sched, t: int, left: nat) returns (acts: seq<Action>)
    requires SchedOk(c) && Is(c.ms.k, t, READY) && 0 < left
    ensures IsRunTo(c.ms, acts, Slice(c, t, left).ms)
    decreases left
  {
    acts := DispatchThreadIsRun(c, t);
    DispatchThreadOk(c, t);
    var d := DispatchThread(c, t);
    if left > 1 && Is(d.ms.k, t, READY) {
      var more := SliceIsRun(d, t, left - 1);
      RunToThen(c.ms, acts, d.ms, more, Slice(d, t, left - 1).ms);
      acts := acts + more;
    }
  }

  /** Whatever the policy, the steps of the scheduler are a run of the machine, so everything
      proved about all runs holds under FIFO, SJF, RR and PRIORITY alike. */
  lemma {:induction false} StepsAreRuns(c: Sched, picks: seq<nat>) returns (acts: seq<Action>)
    requires SchedOk(c) && Steps(c, picks)
    ensures IsRunTo(c.ms, acts, AfterSteps(c, picks).ms)
    decreases |picks|
  {
    acts := [];
    if picks != [] {
      SelectedOk(c, picks[0]);
      var first := SliceIsRun(Selected(c, picks[0]), c.order[picks[0]], if c.policy == RR then c.quantum else 1);
      StepOk(c, picks[0]);
      var rest := StepsAreRuns(StepWith(c, picks[0]), picks[1..]);
      RunToThen(c.ms, first, StepWith(c, picks[0]).ms, rest, AfterSteps(c, picks).ms);
      acts := first + rest;
    }
  }

  lemma {:induction false} OneMoreStep(c: Sched, picks: seq<nat>, i: nat)
    requires SchedOk(c) && Steps(c, picks)
    ensures SchedOk(AfterSteps(c, picks))
    ensures Chosen(AfterSteps(c, picks), i) ==>
              Steps(c, picks + [i]) && AfterSteps(c, picks + [i]) == StepWith(AfterSteps(c, picks), i)
    decreases |picks|
  {
    hide SchedOk, Chosen, StepWith, Measure;
    var all := picks + [i];
    if picks == [] {
      assert all[1..] == [];
      if Chosen(c, i) { StepOk(c, i); }
    } else {
      StepOk(c, picks[0]);
      assert all[1..] == picks[1..] + [i];
      OneMoreStep(StepWith(c, picks[0]), picks[1..], i);
    }
  }

  /** When only mutexes block, run() ends with all threads finished exactly when there is neither
      a cycle in the graph nor a thread stranded by one that exited with a mutex. */
  lemma RunEndsDoneOrDeadlocked(c: Sched, picks: seq<nat>)
    requires SchedOk(c) && AllMutexOnly(c.ms) && Steps(c, picks) && Quiescent(AfterSteps(c, picks).ms)
    ensures var e := AfterSteps(c, picks).ms;
            && (AllFinished(e) <==> !HasCycle(e.k.graph) && !Stranded(e.k))
            && (AllObey(ExitEmptyHanded, c.ms) ==> !Stranded(e.k))
  {
    var acts := StepsAreRuns(c, picks);
    RunStaysMutexOnly(c.ms, acts);
    QuiescenceIsExact(AfterSteps(c, picks).ms);
    if AllObey(ExitEmptyHanded, c.ms) {
      RunStillObeys(ExitEmptyHanded, c.ms, acts);
      EmptyHandedStrandsNobody(AfterSteps(c, picks).ms);
    }
  }

  /** run() makes at most as many steps as the measure of the state it starts in. */
  lemma {:induction false} StepsAreBounded(c: Sched, picks: seq<nat>)
    requires SchedOk(c) && Steps(c, picks)
    ensures |picks| <= Measure(c.ms)
    decreases |picks|
  {
    if picks != [] {
      StepOk(c, picks[0]);
      StepsAreBounded(StepWith(c, picks[0]), picks[1..]);
    }
  }

  /** step() can go on exactly as long as the machine is not quiescent. */
  lemma NobodyReadyMeansQuiescent(c: Sched)
    requires SchedOk(c)
    ensures (forall i: nat :: !ReadyAt(c, i)) <==> Quiescent(c.ms)
  {
    if forall i: nat :: !ReadyAt(c, i) {
      forall t | t in c.ms.k.states
        ensures c.ms.k.states[t] == BLOCKED || c.ms.k.states[t] == FINISHED
      {
        assert t in (set u | u in c.order);
        var i: nat :| i < |c.order| && c.order[i] == t;
        assert !ReadyAt(c, i);
        assert !Is(c.ms.k, t, RUNNING);
      }
    }
    if Quiescent(c.ms) {
      forall i: nat
        ensures !ReadyAt(c, i)
      {
        if i < |c.order| { InTables(c, i); }
      }
    }
  }

  // ---- round robin ----

  lemma {:induction false} SliceSparesOthers(c: Sched, t: int, u: int, left: nat)
    requires SchedOk(c) && Is(c.ms.k, t, READY) && 0 < left && u != t && Is(c.ms.k, u, READY)
    ensures Is(Slice(c, t, left).ms.k, u, READY)
    decreases left
  {
    CanBegin(c, t);
    DispatchSparesOthers(c.ms, t, u);
    DispatchThreadOk(c, t);
    var d := DispatchThread(c, t);
    if left > 1 && Is(d.ms.k, t, READY) { SliceSparesOthers(d, t, u, left - 1); }
  }

  /** The first READY index in scan order moves the round-robin index past itself, closer to the others. */
  lemma DistanceShrinks(rr: nat, i: nat, x: nat, n: nat)
    requires rr < n && i < n && x < n && Distance(rr, i, n) < Distance(rr, x, n)
    ensures Distance(IndexAfter(i, n), x, n) < Distance(rr, x, n) < n
  {
  }

  lemma DistanceInRange(rr: nat, x: nat, n: nat)
    requires rr < n && x < n
    ensures 0 <= Distance(rr, x, n) < n
  {
  }

  /** A step that selects somebody else brings the round-robin index closer to a READY thread. */
  lemma OtherStepComesCloser(c: Sched, i: nat, x: nat)
    requires SchedOk(c) && c.policy == RR && Chosen(c, i) && ReadyAt(c, x) && i != x
    ensures ReadyAt(StepWith(c, i), x)
    ensures Distance(StepWith(c, i).rrIndex, x, |c.order|) < Distance(c.rrIndex, x, |c.order|)
  {
    StepOk(c, i);
    SelectedOk(c, i);
    assert Preferred(c, i, x);
    DistanceShrinks(c.rrIndex, i, x, |c.order|);
    SliceSparesOthers(Selected(c, i), c.order[i], c.order[x], c.quantum);
  }

  /** Round robin starves nobody: as long as the READY thread at index x is not selected, every
      step comes closer to it, so it waits for fewer steps than there are threads. */
  lemma {:induction false} RoundRobinIsFair(c: Sched, x: nat, picks: seq<nat>)
    requires SchedOk(c) && c.policy == RR && ReadyAt(c, x)
    requires Steps(c, picks) && x !in picks
    ensures |picks| <= Distance(c.rrIndex, x, |c.order|) < |c.order|
    ensures ReadyAt(AfterSteps(c, picks), x)
    decreases |picks|
  {
    DistanceInRange(c.rrIndex, x, |c.order|);
    if picks != [] {
      StepOk(c, picks[0]);
      OtherStepComesCloser(c, picks[0], x);
      RoundRobinIsFair(StepWith(c, picks[0]), x, picks[1..]);
    }
  }

  /** `steps` quanta. */
  function Ticks(steps: nat, quantum: nat): nat {
    steps * quantum
  }

  lemma TicksAddUp(steps: nat, quantum: nat)
    requires steps > 0
    ensures Ticks(steps, quantum) == quantum + Ticks(steps - 1, quantum)
  {
  }

  /** Each step takes at most one quantum of ticks; with RoundRobinIsFair, a READY thread is
      selected within n - 1 quanta. */
  lemma {:induction false} StepTicks(c: Sched, picks: seq<nat>)
    requires SchedOk(c) && Steps(c, picks)
    ensures AfterSteps(c, picks).clock <= c.clock + Ticks(|picks|, c.quantum)
    decreases |picks|
  {
    hide SchedOk, Chosen, StepWith, Measure;
    if picks != [] {
      StepOk(c, picks[0]);
      StepTicks(StepWith(c, picks[0]), picks[1..]);
      TicksAddUp(|picks|, c.quantum);
    }
  }

  /** So under round robin a READY thread is selected within n - 1 quanta. */
  lemma RoundRobinTicks(c: Sched, x: nat, picks: seq<nat>)
    requires SchedOk(c) && c.policy == RR && ReadyAt(c, x)
    requires Steps(c, picks) && x !in picks
    ensures 0 < |c.order| && AfterSteps(c, picks).clock <= c.clock + Ticks(|c.order| - 1, c.quantum)
  {
    hide SchedOk, Steps, AfterSteps, Chosen;
    RoundRobinIsFair(c, x, picks);
    StepTicks(c, picks);
    MoreTicks(|picks|, |c.order| - 1, c.quantum);
  }

  lemma {:induction false} MoreTicks(few: nat, many: nat, quantum: nat)
    requires few <= many
    ensures Ticks(few, quantum) <= Ticks(many, quantum)
    decreases many
  {
    if few < many {
      MoreTicks(few, many - 1, quantum);
      TicksAddUp(many, quantum);
    }
  }

  // ---- removing a thread ----

  /** The order in which selectRR looks at the threads. */
  function ScanOrder(order: seq<int>, rr: nat): seq<int>
    requires rr <= |order|
  {
    order[rr..] + order[..rr]
  }

  /** adjustRRIndex after the thread at index `removed` was erased; n threads are left. */
  function AdjustedIndex(rr: nat, removed: nat, n: nat): nat {
    var r := if removed < rr then rr - 1 else rr;
    if n == 0 || r >= n then 0 else r
  }

  lemma ScanWithoutAbsent(order: seq<int>, rr: nat, x: int)
    requires rr <= |order| && x !in order
    ensures Without(ScanOrder(order, rr), x) == ScanOrder(order, rr)
  {
    WithoutAbsent(ScanOrder(order, rr), x);
  }

  lemma ScanSplit(low: seq<int>, high: seq<int>)
    ensures ScanOrder(low + high, |low|) == high + low
    ensures ScanOrder(low, 0) == low
  {
  }

  lemma RemovedBehind(a: seq<int>, x: int, b: seq<int>, high: seq<int>)
    requires x !in a + b + high && high != []
    ensures var order, rest := a + [x] + b + high, a + b + high;
            && Without(ScanOrder(order, |a| + 1 + |b|), x) == ScanOrder(rest, |a| + |b|)
            && AdjustedIndex(|a| + 1 + |b|, |a|, |rest|) == |a| + |b|
  {
    ScanSplit(a + [x] + b, high);
    ScanSplit(a + b, high);
    WithoutMiddle(high + a, x, b);
    assert high + (a + [x] + b) == high + a + [x] + b && high + (a + b) == high + a + b;
  }

  lemma RemovedAhead(low: seq<int>, a: seq<int>, x: int, b: seq<int>)
    requires x !in low + a + b
    ensures var order, rest := low + (a + [x] + b), low + (a + b);
            var index := AdjustedIndex(|low|, |low| + |a|, |rest|);
            index <= |rest| && Without(ScanOrder(order, |low|), x) == ScanOrder(rest, index)
  {
    ScanSplit(low, a + [x] + b);
    ScanSplit(low, a + b);
    WithoutMiddle(a, x, b + low);
    assert a + [x] + b + low == a + [x] + (b + low) && a + (b + low) == a + b + low;
    if a + b == [] {
      assert low + (a + b) == low && a + b + low == low;
      ScanSplit(low, []);
    }
  }

  /** Removing a thread leaves the scan order as it was, minus that thread. */
  lemma RemovalKeepsScanOrder(order: seq<int>, rr: nat, removed: nat)
    requires NoDup(order) && rr < |order| && removed < |order|
    ensures var rest := order[..removed] + order[removed + 1..];
            var index := AdjustedIndex(rr, removed, |rest|);
            index <= |rest| && ScanOrder(rest, index) == Without(ScanOrder(order, rr), order[removed])
  {
    hide ScanOrder, Without, AdjustedIndex;
    var x, above := order[removed], order[removed + 1..];
    if removed < rr {
      var a, b, high := order[..removed], order[removed + 1..rr], order[rr..];
      assert order == a + [x] + b + high && order[..removed] + above == a + b + high;
      RemovedBehind(a, x, b, high);
    } else {
      var low, a := order[..rr], order[rr..removed];
      assert order == low + (a + [x] + above) && order[..removed] + above == low + (a + above);
      RemovedAhead(low, a, x, above);
    }
  }
}
