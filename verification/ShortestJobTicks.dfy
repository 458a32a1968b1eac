/** The finish ticks of a batch one by one: when each job finishes under shortest job first, and
    that by any tick no other order of dispatches has finished more jobs. */
module ShortestJobTicks {
  import opened Collections
  import opened Kernel
  import opened Deadlock
  import opened Scheduling
  import opened BatchOptimality
  import opened ShortestJobFirst

  ghost predicate Ended(c: Sched, t: int) {
    Is(c.ms.k, t, FINISHED)
  }

  /** The jobs whose finish tick is no later than this. */
  ghost function FinishedBy(c: Sched, tick: int): set<int> {
    set t | t in c.finish && Ended(c, t) && c.finish[t] <= tick
  }

  /** Every tick since `start` went into one of the jobs, which had this much work then. */
  ghost predicate Accounted(c: Sched, work: map<int, nat>, start: nat) {
    && c.ms.prog.Keys == c.ms.k.states.Keys == c.finish.Keys == work.Keys
    && (forall t :: t in work ==> ShortestJobFirst.Left(c)[t] <= work[t])
    && c.clock + Total(ShortestJobFirst.Left(c)) == start + Total(work)
  }

  lemma TickAccounted(c: Sched, d: Sched, t: int, work: map<int, nat>, start: nat)
    requires Accounted(c, work, start) && JobDone(c, d, t)
    requires Worked(Left(c), Left(d), Finished(c), Finished(d), c.clock, t)
    ensures Accounted(d, work, start)
  {
    TotalUpdate(Left(c), t, Left(d)[t]);
  }

  /** The work of the jobs that have finished was done by the clock's present tick. */
  lemma EndedIsPaid(c: Sched, s: set<int>, work: map<int, nat>, start: nat)
    requires Accounted(c, work, start) && forall t :: t in s ==> Ended(c, t)
    ensures start + Total(Part(work, s)) <= c.clock
    ensures (forall t :: t in work && t !in s ==> Left(c)[t] == work[t]) ==> start + Total(Part(work, s)) == c.clock
  {
    DoneAndLeft(work, Left(c), s);
  }

  // ---- any order: what finished by a tick was paid for by then ----

  ghost predicate Paid(c: Sched, work: map<int, nat>, start: nat, tick: int) {
    var s := FinishedBy(c, tick);
    s != {} ==> start + Total(Part(work, s)) <= tick
  }

  lemma DispatchPays(c: Sched, t: int, work: map<int, nat>, start: nat, tick: int)
    requires BatchOk(c) && Is(c.ms.k, t, READY) && Accounted(c, work, start) && Paid(c, work, start, tick)
    ensures BatchOk(DispatchThread(c, t))
    ensures Accounted(DispatchThread(c, t), work, start) && Paid(DispatchThread(c, t), work, start, tick)
  {
    hide SchedOk, JobOk, DispatchThread, Total, Left, Finished, Worked;
    DispatchWorks(c, t);
    var d := DispatchThread(c, t);
    TickAccounted(c, d, t, work, start);
    if d.clock <= tick {
      EndedIsPaid(d, FinishedBy(d, tick), work, start);
    } else {
      assert FinishedBy(d, tick) == FinishedBy(c, tick);
    }
  }

  lemma {:induction false} OrderPays(c: Sched, ts: seq<int>, work: map<int, nat>, start: nat, tick: int)
    requires BatchOk(c) && AnyOrder(c, ts) && Accounted(c, work, start) && Paid(c, work, start, tick)
    ensures Accounted(AfterOrder(c, ts), work, start) && Paid(AfterOrder(c, ts), work, start, tick)
    decreases |ts|
  {
    hide SchedOk, JobOk, DispatchThread, Accounted, Paid;
    if ts != [] {
      DispatchPays(c, ts[0], work, start, tick);
      OrderPays(DispatchThread(c, ts[0]), ts[1..], work, start, tick);
    }
  }

  // ---- shortest job first: every job in its turn ----

  /** The jobs that are not after u for selectSJF, u among them. */
  function Upto(burst: map<int, int>, u: int): set<int>
    requires u in burst
  {
    set t | t in burst && (t == u || Before(burst, t, u))
  }

  /** Whoever has finished did so when all the work up to it was done, and is before all others. */
  ghost predicate OnTime(c: Sched, work: map<int, nat>, start: nat)
    requires KeysOk(c)
  {
    && (forall u :: Ended(c, u) ==> c.finish[u] == start + Total(Part(work, Upto(c.burst, u))))
    && (forall u, v :: Ended(c, u) && v in c.ms.k.states && !Ended(c, v) ==> Before(c.burst, u, v))
  }

  /** Each job's work is its burst time and one more. */
  ghost predicate WorkIsBurst(work: map<int, nat>, burst: map<int, int>) {
    work.Keys == burst.Keys && forall t :: t in work ==> work[t] == burst[t] + 1
  }

  lemma JobEndsOnTime(c: Sched, d: Sched, i: nat, work: map<int, nat>, start: nat)
    requires BatchOk(c) && SjfOk(c) && Chosen(c, i) && OnTime(c, work, start) && WorkIsBurst(work, c.burst)
    requires KeysOk(d) && JobDone(c, d, c.order[i]) && SameSettings(c, d)
    requires Accounted(d, work, start) && Ended(d, c.order[i])
    ensures d.clock == start + Total(Part(work, Upto(c.burst, c.order[i])))
  {
    var t := c.order[i];
    forall u | u in work && u != t
      ensures u in Upto(c.burst, t) <==> Ended(d, u)
      ensures !Ended(d, u) ==> Left(d)[u] == work[u]
    {
      assert JobOk(c, u);
      if !Ended(d, u) {
        SjfChoosesFirst(c, i, u);
        if Started(c, u) { SjfStarted(c, i, u); }
      }
    }
    EndedIsPaid(d, Upto(c.burst, t), work, start);
  }

  lemma StaysOnTime(c: Sched, d: Sched, i: nat, work: map<int, nat>, start: nat)
    requires BatchOk(c) && SjfOk(c) && Chosen(c, i) && OnTime(c, work, start) && WorkIsBurst(work, c.burst)
    requires KeysOk(d) && JobDone(c, d, c.order[i]) && SameSettings(c, d) && Accounted(d, work, start)
    ensures OnTime(d, work, start)
  {
    hide Good, Tables, SjfOk, Accounted, Upto, Total, Part, WorkIsBurst;
    var t := c.order[i];
    if Ended(d, t) { JobEndsOnTime(c, d, i, work, start); }
    forall u | Ended(d, u) ensures d.finish[u] == start + Total(Part(work, Upto(d.burst, u))) {
      if u != t { assert Ended(c, u); }
    }
    forall u, v | Ended(d, u) && v in d.ms.k.states && !Ended(d, v) ensures Before(d.burst, u, v) {
      ComesBefore(c, d, i, u, v);
      if u != t { assert Ended(c, u); }
    }
  }

  lemma ComesBefore(c: Sched, d: Sched, i: nat, u: int, v: int)
    requires BatchOk(c) && SjfOk(c) && Chosen(c, i) && JobDone(c, d, c.order[i])
    requires v in d.ms.k.states && !Ended(d, v)
    ensures !Ended(c, v)
    ensures v != c.order[i] ==> c.order[i] in c.burst && v in c.burst && Before(c.burst, c.order[i], v)
  {
    assert JobOk(c, v);
    if v != c.order[i] { SjfChoosesFirst(c, i, v); }
  }

  lemma SjfStepOnTime(c: Sched, i: nat, work: map<int, nat>, start: nat)
    requires BatchOk(c) && SjfOk(c) && Chosen(c, i)
    requires Accounted(c, work, start) && WorkIsBurst(work, c.burst) && OnTime(c, work, start)
    ensures BatchOk(StepWith(c, i)) && SjfOk(StepWith(c, i)) && StepWith(c, i).burst == c.burst
    ensures Accounted(StepWith(c, i), work, start) && OnTime(StepWith(c, i), work, start)
  {
    hide SchedOk, JobOk, JobDone, Worked, Accounted, WorkIsBurst, OnTime, Left, Finished, StepWith;
    SjfStepWorks(c, i);
    TickAccounted(c, StepWith(c, i), c.order[i], work, start);
    StaysOnTime(c, StepWith(c, i), i, work, start);
  }

  lemma SjfStepWorks(c: Sched, i: nat)
    requires BatchOk(c) && SjfOk(c) && Chosen(c, i)
    ensures BatchOk(StepWith(c, i)) && SjfOk(StepWith(c, i)) && StepWith(c, i).burst == c.burst
    ensures KeysOk(StepWith(c, i)) && JobDone(c, StepWith(c, i), c.order[i]) && SameSettings(c, StepWith(c, i))
    ensures Worked(Left(c), Left(StepWith(c, i)), Finished(c), Finished(StepWith(c, i)), c.clock, c.order[i])
  {
    hide Good, JobOk, Preferred, JobDone, Worked, Left, Finished, Dispatch;
    var t := c.order[i];
    SjfStep(c, i);
    DispatchWorks(c, t);
    DispatchThreadOk(c, t);
    assert StepWith(c, i) == DispatchThread(c, t);
  }

  lemma {:induction false} SjfRunOnTime(c: Sched, sjf: seq<nat>, work: map<int, nat>, start: nat)
    requires BatchOk(c) && SjfOk(c) && Steps(c, sjf)
    requires Accounted(c, work, start) && WorkIsBurst(work, c.burst) && OnTime(c, work, start)
    ensures BatchOk(AfterSteps(c, sjf)) && AfterSteps(c, sjf).burst == c.burst
    ensures Accounted(AfterSteps(c, sjf), work, start) && OnTime(AfterSteps(c, sjf), work, start)
    decreases |sjf|
  {
    hide SchedOk, JobOk, StepWith, Accounted, OnTime, WorkIsBurst;
    if sjf != [] {
      SjfStepOnTime(c, sjf[0], work, start);
      SjfRunOnTime(StepWith(c, sjf[0]), sjf[1..], work, start);
    }
  }

  // ---- from the start of a batch ----

  lemma BatchAccounted(c: Sched)
    requires BatchStart(c) && BatchOk(c)
    ensures Accounted(c, Left(c), c.clock) && WorkIsBurst(Left(c), c.burst)
    ensures forall t :: !Ended(c, t)
  {
    forall t | t in c.ms.k.states ensures Left(c)[t] == c.burst[t] + 1 { YieldsSlices(c.burst[t]); }
  }

  lemma SjfFromStart(c: Sched, sjf: seq<nat>)
    requires BatchStart(c) && BatchOk(c) && c.policy == SJF && Steps(c, sjf)
    ensures var e := AfterSteps(c, sjf);
            BatchOk(e) && e.burst == c.burst && Accounted(e, Left(c), c.clock) && OnTime(e, Left(c), c.clock)
  {
    hide SchedOk, JobOk, Accounted, Steps, AfterSteps, Upto;
    StartIsBatch(c, SJF);
    assert c.(policy := SJF) == c;
    BatchAccounted(c);
    SjfRunOnTime(c, sjf, Left(c), c.clock);
  }

  /** Under shortest job first every job finishes burst + 1 ticks after the one before it: by
      the work of all jobs that are not after it. */
  lemma SjfFinishTicks(c: Sched, sjf: seq<nat>, u: int)
    requires BatchStart(c) && BatchOk(c) && c.policy == SJF && Steps(c, sjf)
    requires Ended(AfterSteps(c, sjf), u)
    ensures BatchOk(AfterSteps(c, sjf)) && u in AfterSteps(c, sjf).finish && u in c.burst
    ensures AfterSteps(c, sjf).finish[u] == c.clock + Total(Part(Left(c), Upto(c.burst, u)))
  {
    hide Steps, AfterSteps, Upto, Total, Part;
    SjfFromStart(c, sjf);
  }

  lemma {:induction false} FirstOf(burst: map<int, int>, s: set<int>) returns (t: int)
    requires s != {} && s <= burst.Keys
    ensures t in s && forall u :: u in s && u != t ==> Before(burst, t, u)
    decreases s
  {
    var x := Member(s);
    var rest := s - {x};
    t := x;
    if rest == {} {
      assert forall u :: u in s ==> u == x || u in rest;
    } else {
      var y := FirstOf(burst, rest);
      t := if Before(burst, y, x) then y else x;
      forall u | u in s && u != t ensures Before(burst, t, u) {
        assert u == x || u in rest;
      }
    }
  }

  lemma UptoIsLeastWork(burst: map<int, int>, work: map<int, nat>, t: int)
    requires WorkIsBurst(work, burst) && t in burst
    ensures LeastWork(work, Upto(burst, t))
  {
    assert Upto(burst, t) <= work.Keys;
    forall x, y | x in Upto(burst, t) && y in work && y !in Upto(burst, t) ensures work[x] <= work[y] {
      assert burst[x] <= burst[t] <= burst[y];
    }
  }

  /** In whatever order the jobs of a batch are dispatched, and whether or not they all get to
      finish: by any tick, shortest job first has finished at least as many of them. So its j-th
      completion is never later than theirs. */
  lemma SjfFinishesFirst(c: Sched, p: Policy, quantum: nat, sjf: seq<nat>, ts: seq<int>, tick: int)
    requires BatchStart(c) && BatchOk(c) && c.policy == SJF
    requires Steps(c, sjf) && Quiescent(AfterSteps(c, sjf).ms)
    requires BatchOk(c.(policy := p, quantum := quantum)) && AnyOrder(c.(policy := p, quantum := quantum), ts)
    ensures |FinishedBy(AfterOrder(c.(policy := p, quantum := quantum), ts), tick)| <= |FinishedBy(AfterSteps(c, sjf), tick)|
  {
    hide SchedOk, JobOk, Steps, AfterSteps, AnyOrder, AfterOrder, Total, Part, LeastWork, Left;
    TablesHaveAll(c);
    var b, work := c.(policy := p, quantum := quantum), Left(c);
    BatchAccounted(c);
    FinishedWorkIsPaid(c, p, quantum, ts, tick);
    var few, many := FinishedBy(AfterSteps(c, sjf), tick), FinishedBy(AfterOrder(b, ts), tick);
    if |few| < |many| {
      var t := NextJob(c.burst, work, few, many);
      LateJob(c, sjf, tick, t);
      assert false;
    }
  }

  /** In whatever order the jobs are dispatched, those finished by a tick had that much work. */
  lemma FinishedWorkIsPaid(c: Sched, p: Policy, quantum: nat, ts: seq<int>, tick: int)
    requires BatchStart(c) && BatchOk(c)
    requires BatchOk(c.(policy := p, quantum := quantum)) && AnyOrder(c.(policy := p, quantum := quantum), ts)
    ensures var s := FinishedBy(AfterOrder(c.(policy := p, quantum := quantum), ts), tick);
            s <= Left(c).Keys && (s != {} ==> c.clock + Total(Part(Left(c), s)) <= tick)
  {
    hide SchedOk, JobOk, AnyOrder, AfterOrder, Total, Part, Left;
    TablesHaveAll(c);
    var b := c.(policy := p, quantum := quantum);
    SettingsDoNotMatter(c, b, tick);
    OrderPays(b, ts, Left(c), c.clock, tick);
    InBatch(c, AfterOrder(b, ts), tick, Left(c));
  }

  lemma SettingsDoNotMatter(c: Sched, b: Sched, tick: int)
    requires BatchStart(c) && BatchOk(c) && b.ms == c.ms && b.clock == c.clock && b.finish == c.finish
    ensures Accounted(b, Left(c), c.clock) && Paid(b, Left(c), c.clock, tick)
  {
    BatchAccounted(c);
    assert Left(b) == Left(c);
    assert FinishedBy(b, tick) == {};
  }

  /** So under FIFO, PRIORITY or RR with any quantum, never more jobs have finished by a tick. */
  lemma SjfFinishesFirstOfAll(c: Sched, p: Policy, quantum: nat, sjf: seq<nat>, other: seq<nat>, tick: int)
    requires BatchStart(c) && BatchOk(c) && c.policy == SJF
    requires Steps(c, sjf) && Quiescent(AfterSteps(c, sjf).ms)
    requires SchedOk(c.(policy := p, quantum := quantum)) && Steps(c.(policy := p, quantum := quantum), other)
    ensures |FinishedBy(AfterSteps(c.(policy := p, quantum := quantum), other), tick)| <= |FinishedBy(AfterSteps(c, sjf), tick)|
  {
    hide SchedOk, JobOk, Steps, AfterSteps, AnyOrder, AfterOrder;
    var b := c.(policy := p, quantum := quantum);
    JobsIgnoreSettings(c, b);
    var ts := StepsAreOrder(b, other);
    SjfFinishesFirst(c, p, quantum, sjf, ts, tick);
    assert FinishedBy(AfterOrder(b, ts), tick) == FinishedBy(AfterSteps(b, other), tick);
  }

  /** The first of the jobs that are not among the few. */
  lemma NextJob(burst: map<int, int>, work: map<int, nat>, few: set<int>, many: set<int>) returns (t: int)
    requires WorkIsBurst(work, burst) && many <= work.Keys && |few| < |many|
    ensures t in burst && t !in few
    ensures Total(Part(work, Upto(burst, t))) <= Total(Part(work, many))
  {
    SubsetSize(many, work.Keys);
    if work.Keys - few == {} {
      assert forall u :: u in work.Keys ==> u in work.Keys - few || u in few;
      SubsetSize(work.Keys, few);
      assert false;
    }
    t := FirstOf(burst, work.Keys - few);
    UptoIsLeastWork(burst, work, t);
    UptoFirst(burst, few, t);
    LeastWorkIsLeast(work, Upto(burst, t), many);
  }

  lemma UptoFirst(burst: map<int, int>, few: set<int>, t: int)
    requires t in burst && t !in few
    requires forall u :: u in burst && u !in few && u != t ==> Before(burst, t, u)
    ensures |Upto(burst, t)| <= |few| + 1
  {
    SubsetSize(Upto(burst, t), few + {t});
  }

  lemma InBatch(c: Sched, f: Sched, tick: int, work: map<int, nat>)
    requires Accounted(f, work, c.clock)
    ensures FinishedBy(f, tick) <= work.Keys
  {
  }

  lemma LateJob(c: Sched, sjf: seq<nat>, tick: int, t: int)
    requires BatchStart(c) && BatchOk(c) && c.policy == SJF
    requires Steps(c, sjf) && Quiescent(AfterSteps(c, sjf).ms)
    requires t in c.burst && t !in FinishedBy(AfterSteps(c, sjf), tick)
    ensures tick < c.clock + Total(Part(Left(c), Upto(c.burst, t)))
  {
    hide Steps, AfterSteps, Upto, Total, Part;
    SjfFromStart(c, sjf);
    NobodyBlocks(AfterSteps(c, sjf));
  }
}
