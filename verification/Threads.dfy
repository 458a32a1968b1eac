/** Thread control blocks and the pool that lists them (src/tcb.cpp, src/thread_pool.cpp). */
module Threads {
  import opened Collections
  import opened Kernel
  import opened Machine

  /** `rest` and `at` stand for the thread's stack: the operations still to come, and the
      primitive it is suspended in. */
  class TCB {
    const tid: int
    const priority: int
    const burst: int
    var state: ThreadState
    var finished: bool
    var firstRunTick: int
    var finishTick: int
    var at: Where
    var rest: Prog

    constructor (id: int, level: int, length: int, program: Prog)
      ensures tid == id && priority == level && burst == length && rest == program
      ensures state == READY && !finished && firstRunTick == -1 && finishTick == -1 && at == Outside
    {
      tid, priority, burst, rest := id, level, length, program;
      state, finished, firstRunTick, finishTick, at := READY, false, -1, -1, Outside;
    }

    /** Only the legal transitions take effect. */
    method SetState(next: ThreadState) returns (ok: bool)
      modifies this`state
      ensures ok <==> LegalTransition(old(state), next)
      ensures ok <==> (old(state), next) in {(READY, RUNNING), (RUNNING, READY), (RUNNING, BLOCKED), (RUNNING, FINISHED), (BLOCKED, READY)}
      ensures state == if ok then next else old(state)
    {
      ok := false;
      match state {
        case READY =>
          if next == RUNNING { state := next; ok := true; }
        case RUNNING =>
          if next == READY || next == BLOCKED || next == FINISHED { state := next; ok := true; }
        case BLOCKED =>
          if next == READY { state := next; ok := true; }
        case FINISHED =>
      }
    }

    /** Marks a running thread, and no other, as finished. */
    method MarkFinished()
      modifies this`state, this`finished
      ensures old(state) == RUNNING ==> state == FINISHED && finished
      ensures old(state) != RUNNING ==> state == old(state) && finished == old(finished)
    {
      var ok := SetState(FINISHED);
      if ok { finished := true; }
    }
  }

  function Tids(threads: seq<TCB>): (tids: seq<int>)
    ensures |tids| == |threads| && forall i :: 0 <= i < |tids| ==> tids[i] == threads[i].tid
  {
    seq(|threads|, i requires 0 <= i < |threads| => threads[i].tid)
  }

  /** The pool as tables, the way the machine and the scheduling theory have it. */
  datatype Table = Table(
    order: seq<int>, states: map<int, ThreadState>, at: map<int, Where>, prog: map<int, Prog>,
    priority: map<int, int>, burst: map<int, int>, firstRun: map<int, int>, finish: map<int, int>)

  ghost predicate RowIn(v: Table, t: TCB)
    reads t
  {
    && t.tid in v.states && v.states[t.tid] == t.state && t.finished == (t.state == FINISHED)
    && t.tid in v.at && v.at[t.tid] == t.at
    && t.tid in v.prog && v.prog[t.tid] == t.rest
    && t.tid in v.priority && v.priority[t.tid] == t.priority
    && t.tid in v.burst && v.burst[t.tid] == t.burst
    && t.tid in v.firstRun && v.firstRun[t.tid] == t.firstRunTick
    && t.tid in v.finish && v.finish[t.tid] == t.finishTick
  }

  /** A thread at its start, with these settings. */
  ghost predicate NewThread(t: TCB, tid: int, priority: int, burst: int, program: Prog)
    reads t
  {
    && t.tid == tid && t.priority == priority && t.burst == burst && t.rest == program
    && t.state == READY && !t.finished && t.at == Outside && t.firstRunTick == -1 && t.finishTick == -1
  }

  class ThreadPool {
    var threads: seq<TCB>
    var nextTid: int
    ghost var table: Table

    /** Tids are positive, all different, and below the next one. */
    ghost predicate Numbered()
      reads this
    {
      && 0 < nextTid
      && (forall t :: t in threads ==> 0 < t.tid < nextTid)
      && (forall i, j :: 0 <= i < j < |threads| ==> threads[i].tid != threads[j].tid)
    }

    ghost predicate Row(t: TCB)
      reads this, t
    {
      RowIn(table, t)
    }

    ghost predicate Complete()
      reads this
    {
      && table.order == Tids(threads)
      && table.states.Keys == (set t | t in table.order)
    }

    ghost predicate Valid()
      reads this, threads
    {
      Numbered() && Complete() && forall t :: t in threads ==> Row(t)
    }

    constructor ()
      ensures Valid() && threads == [] && nextTid == 1 && table.order == [] && table.states == map[]
      ensures table.at == map[] && table.prog == map[] && table.priority == map[] && table.burst == map[]
      ensures table.firstRun == map[] && table.finish == map[]
    {
      threads, nextTid := [], 1;
      table := Table([], map[], map[], map[], map[], map[], map[], map[]);
    }

    /** Tids being distinct, different threads of the pool have different ones. */
    lemma Distinct(t: TCB, u: TCB)
      requires Numbered() && t in threads && u in threads && t != u
      ensures t.tid != u.tid
    {
      var i :| 0 <= i < |threads| && threads[i] == t;
      var j :| 0 <= j < |threads| && threads[j] == u;
      assert i != j;
    }

    lemma Known(tid: int)
      requires Valid()
      ensures tid in table.states <==> exists t :: t in threads && t.tid == tid
    {
      if tid in table.states {
        assert tid in (set t | t in table.order);
        var i :| 0 <= i < |threads| && table.order[i] == tid;
        assert threads[i] in threads && threads[i].tid == tid;
      }
    }

    // ---- what the scheduler does to one thread ----

    method SetState(t: TCB, next: ThreadState) returns (ok: bool)
      requires Valid() && t in threads && next != FINISHED
      modifies this`table, t`state
      ensures Valid() && ok == LegalTransition(old(t.state), next)
      ensures t.state == if ok then next else old(t.state)
      ensures table == if ok then old(table).(states := old(table).states[t.tid := next]) else old(table)
    {
      ok := t.SetState(next);
      if ok {
        table := table.(states := table.states[t.tid := next]);
        forall u | u in threads ensures Row(u) {
          assert old(Row(u));
          if u != t { Distinct(u, t); }
        }
      }
    }

    method MarkFinished(t: TCB)
      requires Valid() && t in threads && t.state == RUNNING
      modifies this`table, t`state, t`finished
      ensures Valid() && t.state == FINISHED
      ensures table == old(table).(states := old(table).states[t.tid := FINISHED])
    {
      t.MarkFinished();
      table := table.(states := table.states[t.tid := FINISHED]);
      forall u | u in threads ensures Row(u) {
        assert old(Row(u));
        if u != t { Distinct(u, t); }
      }
    }

    /** Where the thread will resume. */
    method Suspend(t: TCB, w: Where)
      requires Valid() && t in threads
      modifies this`table, t`at
      ensures Valid() && t.at == w && table == old(table).(at := old(table).at[t.tid := w])
    {
      t.at := w;
      table := table.(at := table.at[t.tid := w]);
      forall u | u in threads ensures Row(u) {
        assert old(Row(u));
        if u != t { Distinct(u, t); }
      }
    }

    /** What the thread still has to do. */
    method Advance(t: TCB, rest: Prog)
      requires Valid() && t in threads
      modifies this`table, t`rest
      ensures Valid() && t.rest == rest && table == old(table).(prog := old(table).prog[t.tid := rest])
    {
      t.rest := rest;
      table := table.(prog := table.prog[t.tid := rest]);
      forall u | u in threads ensures Row(u) {
        assert old(Row(u));
        if u != t { Distinct(u, t); }
      }
    }

    method SetFirstRunTick(t: TCB, tick: int)
      requires Valid() && t in threads
      modifies this`table, t`firstRunTick
      ensures Valid() && t.firstRunTick == tick && table == old(table).(firstRun := old(table).firstRun[t.tid := tick])
    {
      t.firstRunTick := tick;
      table := table.(firstRun := table.firstRun[t.tid := tick]);
      forall u | u in threads ensures Row(u) {
        assert old(Row(u));
        if u != t { Distinct(u, t); }
      }
    }

    method SetFinishTick(t: TCB, tick: int)
      requires Valid() && t in threads
      modifies this`table, t`finishTick
      ensures Valid() && t.finishTick == tick && table == old(table).(finish := old(table).finish[t.tid := tick])
    {
      t.finishTick := tick;
      table := table.(finish := table.finish[t.tid := tick]);
      forall u | u in threads ensures Row(u) {
        assert old(Row(u));
        if u != t { Distinct(u, t); }
      }
    }

    /** A READY thread starts or goes on running, from where it was suspended; the first time, the
        tick is recorded. */
    method Dispatch(t: TCB, tick: int) returns (w: Where)
      requires Valid() && t in threads && t.state == READY
      modifies this`table, t`state, t`at, t`firstRunTick
      ensures Valid() && t.state == RUNNING && w == old(t.at)
      ensures table == old(table).(states := old(table).states[t.tid := RUNNING], at := old(table).at[t.tid := Outside],
                                   firstRun := FirstRun(old(table).firstRun, t.tid, tick))
    {
      var ok := SetState(t, RUNNING);
      if t.firstRunTick == -1 {
        SetFirstRunTick(t, tick);
      }
      w := t.at;
      Suspend(t, Outside);
    }

    /** A running thread is BLOCKED, and will resume at w. */
    method Block(t: TCB, w: Where)
      requires Valid() && t in threads && t.state == RUNNING
      modifies this`table, t`state, t`at
      ensures Valid() && t.state == BLOCKED
      ensures table == old(table).(states := old(table).states[t.tid := BLOCKED], at := old(table).at[t.tid := w])
    {
      var ok := SetState(t, BLOCKED);
      Suspend(t, w);
    }

    // ---- the list of threads ----

    /** A new thread gets a tid no thread has or had, and the last place in the pool. */
    method CreateThread(priority: int, burst: int, program: Prog) returns (tid: int)
      requires Valid()
      modifies this
      ensures Valid() && tid == old(nextTid) && nextTid == old(nextTid) + 1 && tid !in old(table).states
      ensures |threads| == |old(threads)| + 1 && threads[..|old(threads)|] == old(threads) && fresh(threads[|old(threads)|])
      ensures NewThread(threads[|old(threads)|], tid, priority, burst, program)
      ensures table == Joined(old(table), tid, priority, burst, program)
    {
      var tcb := new TCB(nextTid, priority, burst, program);
      tid := nextTid;
      threads := threads + [tcb];
      nextTid := nextTid + 1;
      table := Joined(table, tid, priority, burst, program);
      assert table.order == Tids(threads);
      forall u | u in threads ensures Row(u) {
        if u != tcb { assert u in old(threads); assert old(Row(u)); }
      }
      assert table.states.Keys == (set t | t in table.order);
    }

    method GetThread(tid: int) returns (t: TCB?)
      ensures t != null ==> t in threads && t.tid == tid
      ensures t == null ==> forall u :: u in threads ==> u.tid != tid
    {
      var i := 0;
      while i < |threads|
        invariant 0 <= i <= |threads|
        invariant forall j :: 0 <= j < i ==> threads[j].tid != tid
      {
        if threads[i].tid == tid { return threads[i]; }
        i := i + 1;
      }
      return null;
    }

    /** std::remove_if and erase: every thread with that tid goes, and the others close up. */
    method RemoveThread(tid: int) returns (removed: bool)
      requires Valid()
      modifies this`threads, this`table
      ensures Valid() && threads == Others(old(threads), tid)
      ensures removed <==> exists t :: t in old(threads) && t.tid == tid
      ensures table == if removed then Parted(old(table), tid) else old(table)
    {
      hide Without, Tids, NoDup, Others, RowIn;
      var kept := KeptWithout(tid);
      OthersAre(threads, tid);
      TidsIn(threads, tid);
      WithoutIs(Tids(threads), tid);
      removed := |kept| < |threads|;
      if !removed {
        NoneLeft(threads, tid);
        return false;
      }
      PartedKeys(table, tid);
      threads, table := kept, Parted(table, tid);
      AllDiffer(threads);
      forall u | u in threads ensures Row(u) {
        assert u in old(threads) && u.tid != tid;
        assert old(Row(u));
        RowLeft(u, old(table), tid);
      }
    }

    lemma RowLeft(u: TCB, before: Table, tid: int)
      requires table == Parted(before, tid) && u.tid != tid && RowIn(before, u)
      ensures Row(u)
    {
    }

    method KeptWithout(tid: int) returns (kept: seq<TCB>)
      ensures kept == Others(threads, tid)
    {
      kept := [];
      var i := 0;
      while i < |threads|
        invariant 0 <= i <= |threads|
        invariant kept + Others(threads[i..], tid) == Others(threads, tid)
      {
        NextOther(threads, tid, i, kept);
        if threads[i].tid != tid { kept := kept + [threads[i]]; }
        i := i + 1;
      }
      assert threads[i..] == [];
    }
  }

  lemma NextOther(threads: seq<TCB>, tid: int, i: nat, kept: seq<TCB>)
    requires i < |threads|
    ensures kept + Others(threads[i..], tid) ==
            kept + (if threads[i].tid == tid then [] else [threads[i]]) + Others(threads[i + 1..], tid)
  {
    assert threads[i..][1..] == threads[i + 1..];
  }

  lemma TidsIn(threads: seq<TCB>, tid: int)
    requires forall i, j :: 0 <= i < j < |threads| ==> threads[i].tid != threads[j].tid
    ensures NoDup(Tids(threads))
    ensures tid in Tids(threads) <==> exists t :: t in threads && t.tid == tid
  {
    if tid in Tids(threads) {
      var i :| 0 <= i < |threads| && Tids(threads)[i] == tid;
      assert threads[i] in threads;
    }
    if t :| t in threads && t.tid == tid {
      var i :| 0 <= i < |threads| && threads[i] == t;
      assert Tids(threads)[i] == tid;
    }
  }

  lemma AllDiffer(threads: seq<TCB>)
    requires NoDup(Tids(threads))
    ensures forall i, j :: 0 <= i < j < |threads| ==> threads[i].tid != threads[j].tid
  {
    forall i, j | 0 <= i < j < |threads| ensures threads[i].tid != threads[j].tid {
      assert Tids(threads)[i] != Tids(threads)[j];
    }
  }

  lemma PartedKeys(v: Table, tid: int)
    requires v.states.Keys == (set t | t in v.order)
    requires NoDup(v.order)
    ensures Parted(v, tid).states.Keys == (set t | t in Parted(v, tid).order)
  {
    WithoutIs(v.order, tid);
    KeysWithout(v.states, tid);
    assert (set t | t in Without(v.order, tid)) == (set t | t in v.order) - {tid};
  }

  /** The threads with another tid. */
  function Others(threads: seq<TCB>, tid: int): seq<TCB> {
    if threads == [] then []
    else (if threads[0].tid == tid then [] else [threads[0]]) + Others(threads[1..], tid)
  }

  lemma {:induction false} OthersAre(threads: seq<TCB>, tid: int)
    ensures Tids(Others(threads, tid)) == Without(Tids(threads), tid)
    ensures forall t :: t in Others(threads, tid) <==> t in threads && t.tid != tid
  {
    if threads != [] {
      assert Tids(threads)[1..] == Tids(threads[1..]);
      assert threads == [threads[0]] + threads[1..];
      hide NoDup;
      OthersAre(threads[1..], tid);
    }
  }

  lemma {:induction false} NoneLeft(threads: seq<TCB>, tid: int)
    requires forall t :: t in threads ==> t.tid != tid
    ensures Others(threads, tid) == threads
  {
    if threads != [] { NoneLeft(threads[1..], tid); }
  }

  /** The first-run ticks once t has run, at this tick if for the first time. */
  function FirstRun(firstRun: map<int, int>, t: int, tick: int): map<int, int> {
    if t in firstRun && firstRun[t] == -1 then firstRun[t := tick] else firstRun
  }

  /** The tables without the row of that tid. */
  ghost function Parted(v: Table, tid: int): Table {
    Table(Without(v.order, tid), v.states - {tid}, v.at - {tid}, v.prog - {tid},
          v.priority - {tid}, v.burst - {tid}, v.firstRun - {tid}, v.finish - {tid})
  }

  /** The tables with a new READY thread at the end. */
  ghost function Joined(v: Table, tid: int, priority: int, burst: int, program: Prog): Table {
    Table(v.order + [tid], v.states[tid := READY], v.at[tid := Outside], v.prog[tid := program],
          v.priority[tid := priority], v.burst[tid := burst], v.firstRun[tid := -1], v.finish[tid := -1])
  }
}
