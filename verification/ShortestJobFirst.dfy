/** Batches of CPU-bound threads (demoThreadFunc in test/test_main.cpp): each yields burst_time
    times and returns. Shortest job first gives the smallest sum of finish ticks of all policies,
    and of all dispatch orders. */
module ShortestJobFirst {
  import opened Collections
  import opened Kernel
  import opened Machine
  import opened Termination
  import opened Deadlock
  import opened Scheduling
  import opened BatchOptimality

  /** demoThreadFunc with n slices to go. */
  function Yields(n: nat): Prog {
    if n == 0 then Done else Yield(Yields(n - 1))
  }

  predicate OnlyYields(p: Prog) {
    p.Done? || (p.Yield? && OnlyYields(p.next))
  }

  /** Dispatches until the thread has finished: one per yield and one for the return. */
  function Slices(p: Prog): nat {
    if p.Yield? then 1 + Slices(p.next) else 1
  }

  lemma {:induction false} YieldsSlices(n: nat)
    ensures OnlyYields(Yields(n)) && Slices(Yields(n)) == n + 1
  {
    if n > 0 { YieldsSlices(n - 1); }
  }

  ghost predicate JobOk(c: Sched, t: int)
    requires t in c.ms.k.states && t in c.ms.k.at && t in c.ms.prog && t in c.finish
  {
    && c.ms.k.at[t] == Outside && OnlyYields(c.ms.prog[t])
    && (c.ms.k.states[t] == READY || (c.ms.k.states[t] == FINISHED && c.ms.prog[t] == Done && 0 <= c.finish[t]))
  }

  /** Every thread is such a job, READY or FINISHED. */
  ghost predicate BatchOk(c: Sched) {
    SchedOk(c) && forall t :: t in c.ms.k.states ==> JobOk(c, t)
  }

  /** Dispatches left, per job. */
  function Left(c: Sched): map<int, nat>
    requires c.ms.prog.Keys == c.ms.k.states.Keys
  {
    map t | t in c.ms.k.states :: if c.ms.k.states[t] == FINISHED then 0 else Slices(c.ms.prog[t])
  }

  /** Finish ticks of the jobs that have finished. */
  function Finished(c: Sched): map<int, nat>
    requires c.finish.Keys == c.ms.k.states.Keys
  {
    map t | t in c.ms.k.states :: if c.ms.k.states[t] == FINISHED && 0 <= c.finish[t] then c.finish[t] else 0
  }

  ghost function SumOfFinishTicks(c: Sched): nat
    requires c.finish.Keys == c.ms.k.states.Keys
  {
    Total(Finished(c))
  }

  /** What one dispatch does to a job: a yield is used up, or the thread returns. */
  function JobOutcome(s: State, t: int): State
    requires t in s.prog
  {
    var done := s.prog[t].Done?;
    s.(k := s.k.(states := s.k.states[t := RUNNING][t := if done then FINISHED else READY], at := s.k.at[t := Outside]),
       prog := if s.prog[t].Yield? then s.prog[t := s.prog[t].next] else s.prog)
  }

  lemma BeginJob(s: State, t: int)
    requires Enabled(s, Begin(t)) && s.k.at[t] == Outside
    ensures Next(s, Begin(t)) == s.(k := s.k.(states := s.k.states[t := RUNNING], at := s.k.at[t := Outside]))
  {
  }

  lemma RunJob(s: State, t: int)
    requires Enabled(s, Begin(t)) && s.k.at[t] == Outside && t in s.prog && (s.prog[t].Yield? || s.prog[t].Done?)
    ensures Is(Next(s, Begin(t)).k, t, RUNNING) && Exec(Next(s, Begin(t)), t) == JobOutcome(s, t)
  {
    BeginJob(s, t);
  }

  lemma RunOutStops(s: State, t: int)
    requires Good(s) && Is(s.k, t, RUNNING) && !Is(Exec(s, t).k, t, RUNNING)
    ensures RunOut(s, t) == Exec(s, t)
  {
    ExecIsGood(s, t);
    assert RunOut(Exec(s, t), t) == Exec(s, t);
  }

  lemma JobDispatch(s: State, t: int)
    requires Good(s) && Enabled(s, Begin(t)) && s.k.at[t] == Outside && OnlyYields(s.prog[t])
    ensures Dispatch(s, t) == JobOutcome(s, t)
  {
    BeginIsGood(s, t);
    RunJob(s, t);
    RunOutStops(Next(s, Begin(t)), t);
  }

  /** The part of the tables that one dispatch of job t changes. */
  ghost predicate JobDone(c: Sched, d: Sched, t: int) {
    && c.ms.k.states.Keys == d.ms.k.states.Keys == c.ms.prog.Keys == d.ms.prog.Keys == c.finish.Keys == d.finish.Keys
    && t in c.ms.k.states && c.ms.k.at.Keys == c.ms.k.states.Keys && d.ms.k.at.Keys == c.ms.k.states.Keys
    && d.clock == c.clock + 1
    && d.ms.k.at[t] == Outside
    && (if c.ms.prog[t].Yield?
        then d.ms.k.states[t] == READY && d.ms.prog[t] == c.ms.prog[t].next && d.finish == c.finish
        else d.ms.k.states[t] == FINISHED && d.ms.prog[t] == c.ms.prog[t] && d.finish == c.finish[t := c.clock + 1])
    && forall u :: u in c.ms.k.states && u != t ==>
         d.ms.k.states[u] == c.ms.k.states[u] && d.ms.prog[u] == c.ms.prog[u] && d.ms.k.at[u] == c.ms.k.at[u]
  }

  lemma OutcomeDoesJob(c: Sched, t: int)
    requires c.ms.k.states.Keys == c.ms.prog.Keys == c.finish.Keys == c.ms.k.at.Keys == c.firstRun.Keys
    requires Is(c.ms.k, t, READY) && (c.ms.prog[t].Yield? || c.ms.prog[t].Done?)
    ensures JobDone(c, Tick(c, t, JobOutcome(c.ms, t)), t)
  {
  }

  lemma DispatchDoesJob(c: Sched, t: int)
    requires SchedOk(c) && Is(c.ms.k, t, READY) && JobOk(c, t)
    ensures JobDone(c, DispatchThread(c, t), t)
    ensures DispatchThread(c, t).firstRun == if c.firstRun[t] == -1 then c.firstRun[t := c.clock] else c.firstRun
  {
    hide QueuesOk, OwnersOk, GraphOk, NoLostWakeup, AllObey, Dispatch;
    CanBegin(c, t);
    JobDispatch(c.ms, t);
    OutcomeDoesJob(c, t);
  }

  lemma JobDoneWorks(c: Sched, d: Sched, t: int)
    requires JobDone(c, d, t) && Is(c.ms.k, t, READY)
    requires forall u :: u in c.ms.k.states ==> JobOk(c, u)
    ensures forall u :: u in d.ms.k.states ==> JobOk(d, u)
    ensures Worked(Left(c), Left(d), Finished(c), Finished(d), c.clock, t)
  {
    assert JobOk(c, t);
    forall u | u in d.ms.k.states && u != t
      ensures JobOk(d, u) && Left(d)[u] == Left(c)[u] && Finished(d)[u] == Finished(c)[u]
    {
      assert JobOk(c, u);
    }
    SameMap(Left(c)[t := Left(c)[t] - 1], Left(d));
    SameMap(if Left(c)[t] == 1 then Finished(c)[t := c.clock + 1] else Finished(c), Finished(d));
  }

  lemma DispatchWorks(c: Sched, t: int)
    requires BatchOk(c) && Is(c.ms.k, t, READY)
    ensures BatchOk(DispatchThread(c, t)) && JobDone(c, DispatchThread(c, t), t)
    ensures Worked(Left(c), Left(DispatchThread(c, t)), Finished(c), Finished(DispatchThread(c, t)), c.clock, t)
  {
    DispatchDoesJob(c, t);
    DispatchThreadOk(c, t);
    JobDoneWorks(c, DispatchThread(c, t), t);
  }

  ghost function BatchBound(c: Sched): nat
    requires c.ms.prog.Keys == c.ms.k.states.Keys == c.finish.Keys
  {
    Bound(Left(c), Finished(c), c.clock)
  }

  // ---- the lower bound, for any order of dispatches ----

  /** Any sequence of dispatches of READY threads, chosen in any way whatever. */
  ghost predicate AnyOrder(c: Sched, ts: seq<int>)
    requires BatchOk(c)
    decreases |ts|
  {
    ts == [] || (Is(c.ms.k, ts[0], READY) && (DispatchWorks(c, ts[0]); AnyOrder(DispatchThread(c, ts[0]), ts[1..])))
  }

  ghost function AfterOrder(c: Sched, ts: seq<int>): Sched
    requires BatchOk(c) && AnyOrder(c, ts)
    decreases |ts|
  {
    if ts == [] then c
    else
      DispatchWorks(c, ts[0]);
      AfterOrder(DispatchThread(c, ts[0]), ts[1..])
  }

  lemma WorkMeansHigherBound(c: Sched, d: Sched, t: int)
    requires c.ms.prog.Keys == c.ms.k.states.Keys == c.finish.Keys
    requires d.ms.prog.Keys == d.ms.k.states.Keys == d.finish.Keys && d.clock == c.clock + 1
    requires Worked(Left(c), Left(d), Finished(c), Finished(d), c.clock, t)
    ensures BatchBound(c) <= BatchBound(d)
    ensures Least(Left(c), t) ==> BatchBound(c) == BatchBound(d)
  {
    hide Left, Finished, Bound, Worked, Least;
    WorkRaisesBound(Left(c), Left(d), Finished(c), Finished(d), c.clock, t);
  }

  lemma DispatchRaisesBound(c: Sched, t: int)
    requires BatchOk(c) && Is(c.ms.k, t, READY)
    ensures BatchOk(DispatchThread(c, t)) && BatchBound(c) <= BatchBound(DispatchThread(c, t))
  {
    DispatchWorks(c, t);
    WorkMeansHigherBound(c, DispatchThread(c, t), t);
  }

  /** No job ever blocks, so run() ends only when all have finished. */
  lemma NobodyBlocks(c: Sched)
    requires BatchOk(c)
    ensures Quiescent(c.ms) <==> AllFinished(c.ms)
  {
    if Quiescent(c.ms) {
      forall t | t in c.ms.k.states ensures c.ms.k.states[t] == FINISHED && c.ms.prog[t] == Done { assert JobOk(c, t); }
    }
  }

  lemma AllDone(c: Sched)
    requires BatchOk(c) && Quiescent(c.ms)
    ensures BatchBound(c) == SumOfFinishTicks(c)
  {
    NobodyBlocks(c);
    BoundAtEnd(Left(c), Finished(c), c.clock);
  }

  lemma {:induction false} AnyOrderBound(c: Sched, ts: seq<int>)
    requires BatchOk(c) && AnyOrder(c, ts)
    ensures BatchOk(AfterOrder(c, ts)) && BatchBound(c) <= BatchBound(AfterOrder(c, ts))
    decreases |ts|
  {
    if ts != [] {
      DispatchRaisesBound(c, ts[0]);
      AnyOrderBound(DispatchThread(c, ts[0]), ts[1..]);
    }
  }

  // ---- every policy makes some such order ----

  lemma {:induction false} OrderThenOrder(c: Sched, a: seq<int>, b: seq<int>)
    requires BatchOk(c) && AnyOrder(c, a)
    ensures BatchOk(AfterOrder(c, a))
    ensures AnyOrder(AfterOrder(c, a), b) ==>
              AnyOrder(c, a + b) && AfterOrder(c, a + b) == AfterOrder(AfterOrder(c, a), b)
    decreases |a|
  {
    hide SchedOk, JobOk, DispatchThread, JobDone, Worked, Left, Finished;
    if a == [] {
      assert a + b == b;
    } else {
      DispatchWorks(c, a[0]);
      assert (a + b)[1..] == a[1..] + b;
      OrderThenOrder(DispatchThread(c, a[0]), a[1..], b);
    }
  }

  lemma {:induction false} SliceIsOrder(c: Sched, t: int, left: nat) returns (ts: seq<int>)
    requires BatchOk(c) && Is(c.ms.k, t, READY) && 0 < left
    ensures AnyOrder(c, ts) && AfterOrder(c, ts) == Slice(c, t, left)
    decreases left
  {
    hide SchedOk, JobOk, DispatchThread, JobDone, Worked, Left, Finished;
    ts := [t];
    DispatchWorks(c, t);
    var d := DispatchThread(c, t);
    if left > 1 && Is(d.ms.k, t, READY) {
      var more := SliceIsOrder(d, t, left - 1);
      ts := ts + more;
      assert ts[1..] == more;
    } else {
      assert ts[1..] == [];
    }
  }

  lemma TickIgnoresIndex(c: Sched, rr: nat, t: int)
    requires SchedOk(c) && SchedOk(c.(rrIndex := rr)) && Is(c.ms.k, t, READY)
    ensures DispatchThread(c.(rrIndex := rr), t) == DispatchThread(c, t).(rrIndex := rr)
  {
    hide KernelInv, AllObey, Tables, Dispatch;
    CanBegin(c, t);
  }

  /** A slice of a job takes as many ticks as it has dispatches left, but no more than allowed. */
  lemma {:induction false} SliceOfJob(c: Sched, t: int, left: nat)
    requires BatchOk(c) && Is(c.ms.k, t, READY) && 0 < left
    ensures t in c.ms.prog
    ensures var d, todo := Slice(c, t, left), Slices(c.ms.prog[t]);
            && BatchOk(d) && t in d.ms.prog
            && d.clock == c.clock + (if todo <= left then todo else left)
            && (if todo <= left then Is(d.ms.k, t, FINISHED) && d.finish[t] == d.clock
                else Is(d.ms.k, t, READY) && Slices(d.ms.prog[t]) == todo - left)
    decreases left
  {
    hide SchedOk, DispatchThread, Worked, Left, Finished;
    TablesHaveAll(c);
    assert JobOk(c, t);
    DispatchWorks(c, t);
    var d := DispatchThread(c, t);
    if left > 1 && Is(d.ms.k, t, READY) { SliceOfJob(d, t, left - 1); }
  }

  lemma DispatchIgnoresIndex(c: Sched, rr: nat, t: int)
    requires BatchOk(c) && SchedOk(c.(rrIndex := rr)) && Is(c.ms.k, t, READY)
    ensures BatchOk(c.(rrIndex := rr)) && BatchOk(DispatchThread(c, t)) && SchedOk(DispatchThread(c, t).(rrIndex := rr))
    ensures DispatchThread(c.(rrIndex := rr), t) == DispatchThread(c, t).(rrIndex := rr)
  {
    hide SchedOk, JobOk, DispatchThread, JobDone, Worked, Left, Finished;
    JobsIgnoreSettings(c, c.(rrIndex := rr));
    DispatchWorks(c, t);
    DispatchThreadOk(c.(rrIndex := rr), t);
    TickIgnoresIndex(c, rr, t);
  }

  lemma JobsIgnoreSettings(c: Sched, d: Sched)
    requires BatchOk(c) && SchedOk(d) && d.ms == c.ms && d.finish == c.finish
    ensures BatchOk(d)
  {
    hide SchedOk;
    TablesHaveAll(c);
    forall u | u in c.ms.k.states ensures JobOk(d, u) { assert JobOk(c, u); }
  }

  lemma TablesHaveAll(c: Sched)
    requires SchedOk(c)
    ensures c.ms.prog.Keys == c.ms.k.states.Keys == c.ms.k.at.Keys == c.finish.Keys
  {
  }

  lemma {:induction false} OrderIgnoresIndex(c: Sched, rr: nat, ts: seq<int>)
    requires BatchOk(c) && SchedOk(c.(rrIndex := rr)) && AnyOrder(c, ts)
    ensures BatchOk(c.(rrIndex := rr)) && AnyOrder(c.(rrIndex := rr), ts)
    ensures AfterOrder(c.(rrIndex := rr), ts) == AfterOrder(c, ts).(rrIndex := rr)
    decreases |ts|
  {
    hide SchedOk, JobOk, DispatchThread;
    JobsIgnoreSettings(c, c.(rrIndex := rr));
    if ts != [] {
      DispatchIgnoresIndex(c, rr, ts[0]);
      OrderIgnoresIndex(DispatchThread(c, ts[0]), rr, ts[1..]);
    }
  }

  lemma SelectedBatch(c: Sched, i: nat)
    requires BatchOk(c) && i < |c.order|
    ensures BatchOk(Selected(c, i)) && Selected(c, i).(rrIndex := c.rrIndex) == c && SchedOk(c)
  {
    SelectedOk(c, i);
    JobsIgnoreSettings(c, c.(rrIndex := Selected(c, i).rrIndex));
  }

  lemma StepIsOrder(c: Sched, i: nat) returns (ts: seq<int>)
    requires BatchOk(c) && Chosen(c, i)
    ensures AnyOrder(c, ts) && BatchOk(StepWith(c, i)) && BatchOk(AfterOrder(c, ts))
    ensures StepWith(c, i).(rrIndex := c.rrIndex) == AfterOrder(c, ts)
  {
    SelectedBatch(c, i);
    var t, left := c.order[i], if c.policy == RR then c.quantum else 1;
    ts := SliceIsOrder(Selected(c, i), t, left);
    OrderIgnoresIndex(Selected(c, i), c.rrIndex, ts);
    OrderThenOrder(c, ts, []);
    OrderThenOrder(Selected(c, i), ts, []);
  }

  lemma {:induction false} StepsKeepOk(c: Sched, picks: seq<nat>)
    requires SchedOk(c) && Steps(c, picks)
    ensures SchedOk(AfterSteps(c, picks))
    decreases |picks|
  {
    if picks != [] {
      StepOk(c, picks[0]);
      StepsKeepOk(StepWith(c, picks[0]), picks[1..]);
    }
  }

  /** The index moves differently in the two, and nothing else does. */
  lemma {:induction false} StepsAreOrder(c: Sched, picks: seq<nat>) returns (ts: seq<int>)
    requires BatchOk(c) && Steps(c, picks)
    ensures AnyOrder(c, ts) && AfterOrder(c, ts) == AfterSteps(c, picks).(rrIndex := c.rrIndex)
    decreases |picks|
  {
    ts := [];
    if picks != [] {
      var d := StepWith(c, picks[0]);
      ts := StepIsOrder(c, picks[0]);
      var more := StepsAreOrder(d, picks[1..]);
      OrderIgnoresIndex(d, c.rrIndex, more);
      OrderThenOrder(c, ts, more);
      ts := ts + more;
    }
  }

  // ---- shortest job first meets the bound ----

  ghost predicate KeysOk(c: Sched) {
    c.ms.k.states.Keys == c.ms.prog.Keys == c.finish.Keys == c.firstRun.Keys == c.burst.Keys
  }

  /** Dispatched already, but not finished. */
  ghost predicate Started(c: Sched, t: int)
    requires KeysOk(c) && t in c.ms.k.states
  {
    c.ms.k.states[t] == READY && Slices(c.ms.prog[t]) < c.burst[t] + 1
  }

  /** Nobody has more work left than its burst time says, and whoever has started comes before
      every other unfinished job. */
  ghost predicate SjfOk(c: Sched)
    requires KeysOk(c)
  {
    && c.policy == SJF
    && (forall t :: t in c.ms.k.states ==> Slices(c.ms.prog[t]) <= c.burst[t] + 1)
    && (forall t, u :: t in c.ms.k.states && u in c.ms.k.states && t != u && Started(c, t) && c.ms.k.states[u] == READY ==>
          Before(c.burst, t, u))
  }

  lemma IndexOfTid(c: Sched, t: int) returns (i: nat)
    requires SchedOk(c) && t in c.ms.k.states
    ensures i < |c.order| && c.order[i] == t
  {
    assert t in (set u | u in c.order);
    i :| i < |c.order| && c.order[i] == t;
  }

  /** selectSJF's choice comes before every other READY thread. */
  lemma SjfChoosesFirst(c: Sched, i: nat, u: int)
    requires SchedOk(c) && c.policy == SJF && Chosen(c, i) && Is(c.ms.k, u, READY) && u != c.order[i]
    ensures c.order[i] in c.burst && u in c.burst && Before(c.burst, c.order[i], u)
  {
    var j := IndexOfTid(c, u);
    InTables(c, i);
    InTables(c, j);
    assert ReadyAt(c, j);
    assert Preferred(c, i, j);
  }

  lemma SjfChoosesLeast(c: Sched, i: nat)
    requires BatchOk(c) && SjfOk(c) && Chosen(c, i)
    ensures Least(Left(c), c.order[i])
  {
    var t := c.order[i];
    forall u | u in Left(c) && u != t
      ensures Left(c)[u] == 0 || Left(c)[t] <= Left(c)[u]
    {
      assert JobOk(c, u);
      if c.ms.k.states[u] == READY {
        SjfChoosesFirst(c, i, u);
        assert !Started(c, u);
      }
    }
  }

  lemma SjfStep(c: Sched, i: nat)
    requires BatchOk(c) && SjfOk(c) && Chosen(c, i)
    ensures BatchOk(StepWith(c, i)) && SjfOk(StepWith(c, i)) && BatchBound(StepWith(c, i)) == BatchBound(c)
  {
    var t := c.order[i];
    assert StepWith(c, i) == DispatchThread(c, t);
    SjfChoosesLeast(c, i);
    DispatchWorks(c, t);
    DispatchThreadOk(c, t);
    WorkMeansHigherBound(c, DispatchThread(c, t), t);
    SjfStays(c, DispatchThread(c, t), i);
  }

  /** Nobody but the chosen thread has started and not finished. */
  lemma SjfStarted(c: Sched, i: nat, u: int)
    requires SchedOk(c) && KeysOk(c) && SjfOk(c) && Chosen(c, i)
    requires u in c.ms.k.states && Started(c, u)
    ensures u == c.order[i]
  {
    hide Good, Tables, Preferred;
    if u != c.order[i] {
      SjfChoosesFirst(c, i, u);
      assert false;
    }
  }

  lemma SjfStays(c: Sched, d: Sched, i: nat)
    requires SchedOk(c) && KeysOk(c) && SjfOk(c) && Chosen(c, i)
    requires KeysOk(d) && JobDone(c, d, c.order[i]) && SameSettings(c, d)
    ensures SjfOk(d)
  {
    forall u, v | u in d.ms.k.states && v in d.ms.k.states && u != v && Started(d, u) && d.ms.k.states[v] == READY
      ensures Before(d.burst, u, v)
    {
      if u == c.order[i] {
        SjfChoosesFirst(c, i, v);
      } else {
        SjfStarted(c, i, u);
      }
    }
  }

  lemma {:induction false} SjfMeetsBound(c: Sched, picks: seq<nat>)
    requires BatchOk(c) && SjfOk(c) && Steps(c, picks)
    ensures BatchOk(AfterSteps(c, picks)) && BatchBound(AfterSteps(c, picks)) == BatchBound(c)
    decreases |picks|
  {
    if picks != [] {
      SjfStep(c, picks[0]);
      SjfMeetsBound(StepWith(c, picks[0]), picks[1..]);
    }
  }

  // ---- the theorems ----

  /** A batch before its first dispatch: everybody READY with burst_time slices to go. */
  ghost predicate BatchStart(c: Sched) {
    && SchedOk(c)
    && forall t :: t in c.ms.k.states ==>
         && c.ms.k.states[t] == READY && c.ms.k.at[t] == Outside
         && 0 <= c.burst[t] && c.ms.prog[t] == Yields(c.burst[t])
         && c.firstRun[t] == -1
  }

  lemma StartIsBatch(c: Sched, p: Policy)
    requires BatchStart(c)
    ensures BatchOk(c.(policy := p)) && BatchBound(c.(policy := p)) == BatchBound(c)
    ensures p == SJF ==> SjfOk(c.(policy := p))
  {
    var d := c.(policy := p);
    assert SchedOk(d);
    forall t | t in c.ms.k.states
      ensures JobOk(d, t) && Slices(d.ms.prog[t]) == d.burst[t] + 1
    {
      YieldsSlices(c.burst[t]);
    }
    assert Left(d) == Left(c) && Finished(d) == Finished(c);
  }

  /** For any batch, the sum of finish ticks under SJF is at most the sum under any other order
      of dispatches, preemptive or not. */
  lemma SjfBeatsAnyOrder(c: Sched, sjf: seq<nat>, ts: seq<int>)
    requires BatchStart(c) && SchedOk(c.(policy := SJF)) && BatchOk(c)
    requires Steps(c.(policy := SJF), sjf) && Quiescent(AfterSteps(c.(policy := SJF), sjf).ms)
    requires AnyOrder(c, ts) && Quiescent(AfterOrder(c, ts).ms)
    ensures BatchOk(AfterSteps(c.(policy := SJF), sjf)) && BatchOk(AfterOrder(c, ts))
    ensures SumOfFinishTicks(AfterSteps(c.(policy := SJF), sjf)) <= SumOfFinishTicks(AfterOrder(c, ts))
  {
    StartIsBatch(c, SJF);
    SjfMeetsBound(c.(policy := SJF), sjf);
    AllDone(AfterSteps(c.(policy := SJF), sjf));
    AnyOrderBound(c, ts);
    AllDone(AfterOrder(c, ts));
  }

  lemma StepsRaiseBound(c: Sched, picks: seq<nat>)
    requires BatchOk(c) && Steps(c, picks)
    ensures BatchOk(AfterSteps(c, picks)) && BatchBound(c) <= BatchBound(AfterSteps(c, picks))
  {
    hide SchedOk, JobOk, Steps, AfterSteps, AnyOrder, AfterOrder;
    var ts := StepsAreOrder(c, picks);
    AnyOrderBound(c, ts);
    StepsKeepOk(c, picks);
    BoundIgnoresIndex(AfterOrder(c, ts), AfterSteps(c, picks).rrIndex);
  }

  lemma BoundIgnoresIndex(c: Sched, rr: nat)
    requires BatchOk(c) && SchedOk(c.(rrIndex := rr))
    ensures BatchOk(c.(rrIndex := rr)) && BatchBound(c.(rrIndex := rr)) == BatchBound(c)
  {
    JobsIgnoreSettings(c, c.(rrIndex := rr));
    assert Left(c.(rrIndex := rr)) == Left(c) && Finished(c.(rrIndex := rr)) == Finished(c);
  }

  /** In particular it is at most the sum under FIFO, PRIORITY or RR with any quantum. */
  lemma SjfIsOptimal(c: Sched, p: Policy, quantum: nat, sjf: seq<nat>, other: seq<nat>)
    requires BatchStart(c) && 0 < quantum && SchedOk(c.(policy := SJF)) && SchedOk(c.(quantum := quantum).(policy := p))
    requires Steps(c.(policy := SJF), sjf) && Quiescent(AfterSteps(c.(policy := SJF), sjf).ms)
    requires Steps(c.(quantum := quantum).(policy := p), other)
    requires Quiescent(AfterSteps(c.(quantum := quantum).(policy := p), other).ms)
    ensures BatchOk(AfterSteps(c.(policy := SJF), sjf)) && BatchOk(AfterSteps(c.(quantum := quantum).(policy := p), other))
    ensures SumOfFinishTicks(AfterSteps(c.(policy := SJF), sjf))
         <= SumOfFinishTicks(AfterSteps(c.(quantum := quantum).(policy := p), other))
  {
    var a, b := c.(policy := SJF), c.(quantum := quantum).(policy := p);
    StartIsBatch(c, SJF);
    StartIsBatch(c.(quantum := quantum), p);
    SjfMeetsBound(a, sjf);
    AllDone(AfterSteps(a, sjf));
    StepsRaiseBound(b, other);
    AllDone(AfterSteps(b, other));
  }

  // ---- first-run ticks, among the policies that never preempt ----

  /** FIFO, SJF and PRIORITY go on choosing a thread that has started until it finishes. */
  ghost predicate RunsThrough(c: Sched, t: int)
    requires BatchOk(c) && t in c.ms.k.states
  {
    if c.ms.k.states[t] == FINISHED then 0 <= c.firstRun[t] && c.finish[t] == c.firstRun[t] + c.burst[t] + 1
    else if c.firstRun[t] == -1 then Slices(c.ms.prog[t]) == c.burst[t] + 1
    else
      && 0 <= c.firstRun[t] && c.clock == c.firstRun[t] + c.burst[t] + 1 - Slices(c.ms.prog[t])
      && exists i: nat :: i < |c.order| && c.order[i] == t && Chosen(c, i)
  }

  ghost predicate NeverPreempts(c: Sched)
    requires BatchOk(c)
  {
    c.policy != RR && forall t :: t in c.ms.k.states ==> RunsThrough(c, t)
  }

  /** The thread that ran and is READY again is still the policy's choice. */
  lemma ChoiceStays(c: Sched, d: Sched, i: nat)
    requires BatchOk(c) && Chosen(c, i) && c.policy != RR
    requires BatchOk(d) && JobDone(c, d, c.order[i]) && SameSettings(c, d) && Is(d.ms.k, c.order[i], READY)
    ensures Chosen(d, i)
  {
    forall j: nat | ReadyAt(d, j) && j != i
      ensures Preferred(d, i, j)
    {
      InTables(c, j);
      assert c.order[j] != c.order[i];
      assert ReadyAt(c, j);
      assert Preferred(c, i, j);
    }
  }

  lemma OthersRunThrough(c: Sched, d: Sched, i: nat, u: int)
    requires BatchOk(c) && NeverPreempts(c) && Chosen(c, i)
    requires BatchOk(d) && JobDone(c, d, c.order[i]) && SameSettings(c, d)
    requires u in c.ms.k.states && u != c.order[i] && d.firstRun[u] == c.firstRun[u] && d.finish[u] == c.finish[u]
    ensures RunsThrough(d, u)
  {
    assert RunsThrough(c, u);
    assert JobOk(c, u);
    if c.ms.k.states[u] == READY && c.firstRun[u] != -1 {
      var j: nat :| j < |c.order| && c.order[j] == u && Chosen(c, j);
      ChosenIsUnique(c, i, j);
      assert false;
    }
  }

  lemma ChosenRunsThrough(c: Sched, d: Sched, i: nat)
    requires BatchOk(c) && NeverPreempts(c) && Chosen(c, i)
    requires BatchOk(d) && JobDone(c, d, c.order[i]) && SameSettings(c, d)
    requires d.firstRun == if c.firstRun[c.order[i]] == -1 then c.firstRun[c.order[i] := c.clock] else c.firstRun
    ensures RunsThrough(d, c.order[i])
  {
    var t := c.order[i];
    assert RunsThrough(c, t);
    assert JobOk(c, t);
    if Is(d.ms.k, t, READY) { ChoiceStays(c, d, i); }
  }

  lemma DispatchOfJob(c: Sched, t: int)
    requires BatchOk(c) && Is(c.ms.k, t, READY)
    ensures BatchOk(DispatchThread(c, t)) && JobDone(c, DispatchThread(c, t), t) && SameSettings(c, DispatchThread(c, t))
    ensures DispatchThread(c, t).firstRun == if c.firstRun[t] == -1 then c.firstRun[t := c.clock] else c.firstRun
  {
    assert JobOk(c, t);
    DispatchDoesJob(c, t);
    DispatchWorks(c, t);
    DispatchThreadOk(c, t);
  }

  lemma NeverPreemptsStays(c: Sched, d: Sched, i: nat)
    requires BatchOk(c) && NeverPreempts(c) && Chosen(c, i)
    requires BatchOk(d) && JobDone(c, d, c.order[i]) && SameSettings(c, d)
    requires d.firstRun == if c.firstRun[c.order[i]] == -1 then c.firstRun[c.order[i] := c.clock] else c.firstRun
    ensures NeverPreempts(d)
  {
    hide Good, Tables, Preferred;
    ChosenRunsThrough(c, d, i);
    forall u | u in d.ms.k.states && u != c.order[i] ensures RunsThrough(d, u) { OthersRunThrough(c, d, i, u); }
  }

  lemma NeverPreemptsStep(c: Sched, i: nat)
    requires BatchOk(c) && NeverPreempts(c) && Chosen(c, i)
    ensures BatchOk(StepWith(c, i)) && NeverPreempts(StepWith(c, i))
    ensures StepWith(c, i).burst == c.burst && StepWith(c, i).ms.k.states.Keys == c.ms.k.states.Keys
  {
    assert StepWith(c, i) == DispatchThread(c, c.order[i]);
    DispatchOfJob(c, c.order[i]);
    NeverPreemptsStays(c, DispatchThread(c, c.order[i]), i);
  }

  lemma {:induction false} NeverPreemptsRun(c: Sched, picks: seq<nat>)
    requires BatchOk(c) && NeverPreempts(c) && Steps(c, picks)
    ensures BatchOk(AfterSteps(c, picks)) && NeverPreempts(AfterSteps(c, picks))
    ensures AfterSteps(c, picks).burst == c.burst && AfterSteps(c, picks).ms.k.states.Keys == c.ms.k.states.Keys
    decreases |picks|
  {
    if picks != [] {
      NeverPreemptsStep(c, picks[0]);
      NeverPreemptsRun(StepWith(c, picks[0]), picks[1..]);
    }
  }

  /** First-run ticks of the threads that have run, which is how long each of them waited. */
  function FirstRuns(c: Sched): map<int, nat>
    requires c.firstRun.Keys == c.ms.k.states.Keys
  {
    map t | t in c.ms.k.states :: if 0 <= c.firstRun[t] then c.firstRun[t] else 0
  }

  /** burst + 1 ticks per job. */
  function Costs(tids: set<int>, burst: map<int, int>): map<int, nat>
    requires burst.Keys == tids
  {
    map t | t in tids :: if 0 <= burst[t] then burst[t] + 1 else 0
  }

  lemma FinishIsFirstRunPlusCost(c: Sched)
    requires BatchOk(c) && NeverPreempts(c) && AllFinished(c.ms)
    requires forall t :: t in c.burst ==> 0 <= c.burst[t]
    ensures SumOfFinishTicks(c) == Total(FirstRuns(c)) + Total(Costs(c.ms.k.states.Keys, c.burst))
  {
    forall t | t in c.ms.k.states
      ensures Finished(c)[t] == FirstRuns(c)[t] + Costs(c.ms.k.states.Keys, c.burst)[t]
    {
      assert RunsThrough(c, t);
    }
    TotalOfSums(Finished(c), FirstRuns(c), Costs(c.ms.k.states.Keys, c.burst));
  }

  lemma StartNeverPreempts(c: Sched)
    requires BatchStart(c) && BatchOk(c) && c.policy != RR
    ensures NeverPreempts(c)
  {
    forall t | t in c.ms.k.states ensures RunsThrough(c, t) { YieldsSlices(c.burst[t]); }
  }

  /** Among the policies that never preempt, SJF also has the smallest sum of first-run ticks,
      the waiting times of the batch. */
  lemma SjfWaitsLeast(c: Sched, p: Policy, sjf: seq<nat>, other: seq<nat>)
    requires BatchStart(c) && p != RR && SchedOk(c.(policy := SJF)) && SchedOk(c.(policy := p))
    requires Steps(c.(policy := SJF), sjf) && Quiescent(AfterSteps(c.(policy := SJF), sjf).ms)
    requires Steps(c.(policy := p), other) && Quiescent(AfterSteps(c.(policy := p), other).ms)
    ensures BatchOk(AfterSteps(c.(policy := SJF), sjf)) && BatchOk(AfterSteps(c.(policy := p), other))
    ensures Total(FirstRuns(AfterSteps(c.(policy := SJF), sjf))) <= Total(FirstRuns(AfterSteps(c.(policy := p), other)))
  {
    hide SchedOk, JobOk, Steps, AfterSteps, RunsThrough, Bound, Left, Finished, FirstRuns;
    var a, b := c.(policy := SJF), c.(policy := p);
    StartIsBatch(c, SJF);
    StartIsBatch(c, p);
    StartNeverPreempts(a);
    StartNeverPreempts(b);
    BurstsAreNatural(c);
    NeverPreemptsRun(a, sjf);
    NeverPreemptsRun(b, other);
    SjfMeetsBound(a, sjf);
    StepsRaiseBound(b, other);
    EndOfBatch(AfterSteps(a, sjf));
    EndOfBatch(AfterSteps(b, other));
  }

  lemma BurstsAreNatural(c: Sched)
    requires BatchStart(c)
    ensures forall t :: t in c.burst ==> 0 <= c.burst[t]
  {
    assert c.burst.Keys == c.ms.k.states.Keys;
  }

  lemma EndOfBatch(c: Sched)
    requires BatchOk(c) && NeverPreempts(c) && Quiescent(c.ms)
    requires forall t :: t in c.burst ==> 0 <= c.burst[t]
    ensures BatchBound(c) == Total(FirstRuns(c)) + Total(Costs(c.ms.k.states.Keys, c.burst))
  {
    AllDone(c);
    NobodyBlocks(c);
    FinishIsFirstRunPlusCost(c);
  }
}
