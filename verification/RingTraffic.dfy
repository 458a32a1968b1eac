/** Whose items go through the ring buffer: in every interleaving, what produce() was called with
    is what consume() gets, each producer's items in the order of its calls. */
module RingTraffic {
  import opened Collections
  import opened Kernel
  import opened Machine
  import opened Termination
  import opened Deadlock
  import opened RingProtocol

  // ---- the items of a program, and the items written in a run ----

  /** The arguments of the calls of produce() that have not transferred their item yet. */
  function Items(p: Prog): seq<int> {
    match p
    case Yield(next) => Items(next)
    case Lock(_, next) => Items(next)
    case WaitWhile(_, _, _, next) => Items(next)
    case Do(a, next) => if a.Put? then [a.item] + Items(next) else Items(next)
    case CvSignal(_, next) => Items(next)
    case Unlock(_, next) => Items(next)
    case _ => []
  }

  datatype Entry = Entry(t: int, item: int)

  /** What an action appends to the log of written items. */
  ghost function Appended(s: State, a: Action): seq<int>
    requires Enabled(s, a)
  {
    var w, w' := s.mem.ring.written, Next(s, a).mem.ring.written;
    if |w| <= |w'| then w'[|w|..] else []
  }

  function Tagged(t: int, items: seq<int>): seq<Entry> {
    if items == [] then [] else [Entry(t, items[0])] + Tagged(t, items[1..])
  }

  /** Every item written in the run, with the thread that wrote it. */
  ghost function Log(s: State, acts: seq<Action>): seq<Entry>
    requires IsRun(s, acts)
    decreases |acts|
  {
    if acts == [] then [] else Tagged(acts[0].t, Appended(s, acts[0])) + Log(Next(s, acts[0]), acts[1..])
  }

  function Values(log: seq<Entry>): seq<int> {
    if log == [] then [] else [log[0].item] + Values(log[1..])
  }

  /** The items that thread t wrote. */
  function By(log: seq<Entry>, t: int): seq<int> {
    if log == [] then []
    else if log[0].t == t then [log[0].item] + By(log[1..], t)
    else By(log[1..], t)
  }

  lemma {:induction false} LogsJoin(a: seq<Entry>, b: seq<Entry>, t: int)
    ensures Values(a + b) == Values(a) + Values(b) && By(a + b, t) == By(a, t) + By(b, t)
  {
    if a == [] {
      assert a + b == b;
    } else {
      assert (a + b)[0] == a[0] && (a + b)[1..] == a[1..] + b;
      LogsJoin(a[1..], b, t);
    }
  }

  lemma {:induction false} TaggedIs(t: int, items: seq<int>, u: int)
    ensures Values(Tagged(t, items)) == items && By(Tagged(t, items), u) == if u == t then items else []
    ensures forall e :: e in Tagged(t, items) ==> e.t == t
  {
    if items != [] {
      TaggedIs(t, items[1..], u);
      assert Tagged(t, items)[1..] == Tagged(t, items[1..]);
    }
  }

  // ---- every item comes from the program of the thread that writes it ----

  lemma OperationItems(s: State, r: RingIds, t: int)
    requires RingInv(s, r) && Is(s.k, t, RUNNING)
    ensures var s' := Exec(s, t);
            && s'.prog.Keys == s.prog.Keys && (forall u :: u in s.prog && u != t ==> s'.prog[u] == s.prog[u])
            && s'.mem.ring.written + Items(s'.prog[t]) == s.mem.ring.written + Items(s.prog[t])
            && s.mem.ring.written <= s'.mem.ring.written
  {
    hide QueuesOk, OwnersOk, GraphOk, NoLostWakeup, Served;
    OneProgramMoves(s, t);
    assert RingThreadOk(s, r, t);
    var ring, w := s.mem.ring, s.mem.ring.written;
    match s.prog[t]
    case Do(Put(item), next) =>
      PutKeeps(ring, item);
      assert (w + [item]) + Items(next) == w + ([item] + Items(next));
    case Do(Take, next) =>
      TakeKeeps(ring);
    case _ =>
  }

  lemma ActionItems(s: State, r: RingIds, a: Action)
    requires RingInv(s, r) && Enabled(s, a)
    ensures var s' := Next(s, a);
            && s'.prog.Keys == s.prog.Keys && a.t in s.prog
            && (forall u :: u in s.prog && u != a.t ==> s'.prog[u] == s.prog[u])
            && s'.mem.ring.written == s.mem.ring.written + Appended(s, a)
            && Appended(s, a) + Items(s'.prog[a.t]) == Items(s.prog[a.t])
  {
    hide RingInv, ThreadsOk, QueuesOk, OwnersOk, GraphOk, NoLostWakeup, Exec, Resume;
    RunnerHasProgram(s, r, a);
    if a.Run? {
      OperationItems(s, r, a.t);
      SameSuffix(s.mem.ring.written, Next(s, a).mem.ring.written, Items(Next(s, a).prog[a.t]), Items(s.prog[a.t]));
    } else {
      assert Appended(s, a) == [];
      assert [] + Items(s.prog[a.t]) == Items(s.prog[a.t]);
    }
  }

  lemma RunnerHasProgram(s: State, r: RingIds, a: Action)
    requires RingInv(s, r) && Enabled(s, a)
    ensures a.t in s.prog
  {
  }

  lemma SameSuffix(w: seq<int>, w': seq<int>, left: seq<int>, all: seq<int>)
    requires w <= w' && w' + left == w + all
    ensures w' == w + w'[|w|..] && w'[|w|..] + left == all
  {
    assert w' == w + w'[|w|..];
    assert w + (w'[|w|..] + left) == w + all;
    assert (w + (w'[|w|..] + left))[|w|..] == (w + all)[|w|..];
  }

  /** What thread t wrote in a run, followed by what it has still to write, is what it had to
      write before, in order; the log of written items grows by what was written. */
  lemma {:induction false} ItemsAreTheirs(s: State, r: RingIds, acts: seq<Action>, t: int)
    requires RingInv(s, r) && IsRun(s, acts) && t in s.prog
    ensures After(s, acts).mem.ring.written == s.mem.ring.written + Values(Log(s, acts))
    ensures t in After(s, acts).prog && By(Log(s, acts), t) + Items(After(s, acts).prog[t]) == Items(s.prog[t])
    ensures forall e :: e in Log(s, acts) ==> e.t in s.prog
    decreases |acts|
  {
    hide RingInv, Enabled, Next, Appended, Items;
    if acts == [] {
      assert s.mem.ring.written + [] == s.mem.ring.written && [] + Items(s.prog[t]) == Items(s.prog[t]);
    } else {
      var a, s', rest := acts[0], Next(s, acts[0]), acts[1..];
      ActionItems(s, r, a);
      NextKeepsRing(s, r, a);
      ItemsAreTheirs(s', r, rest, t);
      TaggedIs(a.t, Appended(s, a), t);
      LogsJoin(Tagged(a.t, Appended(s, a)), Log(s', rest), t);
      Regroup(s.mem.ring.written, Appended(s, a), Values(Log(s', rest)));
      Regroup(By(Tagged(a.t, Appended(s, a)), t), By(Log(s', rest), t), Items(After(s', rest).prog[t]));
      assert [] + Items(s.prog[t]) == Items(s.prog[t]);
    }
  }

  lemma Regroup(a: seq<int>, b: seq<int>, c: seq<int>)
    ensures (a + b) + c == a + (b + c)
  {
  }

  // ---- the threads of the demonstration, in any number and for any number of rounds ----

  /** Rounds i to last of producer `tid`. */
  function Producer(r: RingIds, tid: int, i: nat, last: nat): Prog
    decreases last + 1 - i
  {
    if i > last then Done else Produce(r, tid * 100 + i, Yield(Producer(r, tid, i + 1, last)))
  }

  function Consumer(r: RingIds, rounds: nat): Prog {
    if rounds == 0 then Done else Consume(r, Yield(Consumer(r, rounds - 1)))
  }

  lemma CallsCounted(r: RingIds, item: int, next: Prog)
    ensures Puts(Produce(r, item, next)) == 1 + Puts(next) && Takes(Produce(r, item, next)) == Takes(next)
    ensures Puts(Consume(r, next)) == Puts(next) && Takes(Consume(r, next)) == 1 + Takes(next)
  {
    var last := Unlock(r.lock, next);
    assert Puts(Do(Put(item), CvSignal(r.notEmpty, last))) == 1 + Puts(last);
    assert Takes(Do(Take, CvSignal(r.notFull, last))) == 1 + Takes(last);
    assert Takes(Do(Put(item), CvSignal(r.notEmpty, last))) == Takes(last);
    assert Puts(Do(Take, CvSignal(r.notFull, last))) == Puts(last);
  }

  lemma {:induction false} ProducerIsOneSided(r: RingIds, tid: int, i: nat, last: nat)
    requires i <= last + 1
    ensures var p := Producer(r, tid, i, last);
            AtCall(p) && RingShape(p, r) && Puts(p) == last + 1 - i && Takes(p) == 0
    decreases last + 1 - i
  {
    if i <= last {
      ProducerIsOneSided(r, tid, i + 1, last);
      CallsHaveShape(r, tid * 100 + i, Yield(Producer(r, tid, i + 1, last)));
      CallsCounted(r, tid * 100 + i, Yield(Producer(r, tid, i + 1, last)));
    }
  }

  lemma {:induction false} ConsumerIsOneSided(r: RingIds, rounds: nat)
    ensures var p := Consumer(r, rounds);
            AtCall(p) && RingShape(p, r) && Puts(p) == 0 && Takes(p) == rounds
  {
    if rounds > 0 {
      ConsumerIsOneSided(r, rounds - 1);
      CallsHaveShape(r, 0, Yield(Consumer(r, rounds - 1)));
      CallsCounted(r, 0, Yield(Consumer(r, rounds - 1)));
    }
  }

  /** Thread t makes producing[t] calls of produce(), or consuming[t] calls of consume(). */
  ghost predicate Traffic(s: State, r: RingIds, producing: map<int, nat>, consuming: map<int, nat>) {
    && FreshRing(s, r)
    && s.prog.Keys == producing.Keys + consuming.Keys && producing.Keys !! consuming.Keys
    && (forall t :: t in producing ==> s.prog[t] == Producer(r, t, 1, producing[t]))
    && (forall t :: t in consuming ==> s.prog[t] == Consumer(r, consuming[t]))
  }

  lemma TrafficCounted(s: State, r: RingIds, producing: map<int, nat>, consuming: map<int, nat>)
    requires Traffic(s, r, producing, consuming)
    ensures RingStart(s, r) && OneSided(s)
    ensures PutsLeft(s) == Total(producing) && TakesLeft(s) == Total(consuming)
  {
    forall t | t in s.prog
      ensures AtCall(s.prog[t]) && RingShape(s.prog[t], r)
      ensures Puts(s.prog[t]) == if t in producing then producing[t] else 0
      ensures Takes(s.prog[t]) == if t in consuming then consuming[t] else 0
    {
      if t in producing { ProducerIsOneSided(r, t, 1, producing[t]); } else { ConsumerIsOneSided(r, consuming[t]); }
    }
    TotalOfPart(producing, PutMap(s.prog));
    TotalOfPart(consuming, TakeMap(s.prog));
  }

  // ---- their items ----

  /** The items of rounds i to last of producer `tid`. */
  function Batch(tid: int, i: nat, last: nat): seq<int>
    decreases last + 1 - i
  {
    if i > last then [] else [tid * 100 + i] + Batch(tid, i + 1, last)
  }

  /** All the items of all producers, each as often as it is produced. */
  ghost function AllItems(producing: map<int, nat>): multiset<int>
    decreases |producing|
  {
    if producing == map[] then multiset{}
    else
      var t := Some(producing);
      multiset(Batch(t, 1, producing[t])) + AllItems(producing - {t})
  }

  lemma {:induction false} ProducerItems(r: RingIds, tid: int, i: nat, last: nat)
    ensures Items(Producer(r, tid, i, last)) == Batch(tid, i, last)
    decreases last + 1 - i
  {
    if i <= last {
      ProducerItems(r, tid, i + 1, last);
      CallItems(r, tid * 100 + i, Yield(Producer(r, tid, i + 1, last)));
    }
  }

  lemma {:induction false} ConsumerItems(r: RingIds, rounds: nat)
    ensures Items(Consumer(r, rounds)) == []
  {
    if rounds > 0 {
      ConsumerItems(r, rounds - 1);
      CallItems(r, 0, Yield(Consumer(r, rounds - 1)));
    }
  }

  lemma CallItems(r: RingIds, item: int, next: Prog)
    ensures Items(Produce(r, item, next)) == [item] + Items(next) && Items(Consume(r, next)) == Items(next)
  {
    var last := Unlock(r.lock, next);
    assert Items(Do(Put(item), CvSignal(r.notEmpty, last))) == [item] + Items(last);
    assert Items(Do(Take, CvSignal(r.notFull, last))) == Items(last);
  }

  /** The entries of the other threads. */
  function NotBy(log: seq<Entry>, t: int): seq<Entry> {
    if log == [] then []
    else if log[0].t == t then NotBy(log[1..], t)
    else [log[0]] + NotBy(log[1..], t)
  }

  lemma {:induction false} SplitLog(log: seq<Entry>, t: int)
    ensures multiset(Values(log)) == multiset(By(log, t)) + multiset(Values(NotBy(log, t)))
  {
    if log != [] {
      var x, rest := log[0].item, log[1..];
      SplitLog(rest, t);
      assert multiset([x] + Values(rest)) == multiset{x} + multiset(Values(rest));
      if log[0].t == t {
        assert multiset([x] + By(rest, t)) == multiset{x} + multiset(By(rest, t));
      } else {
        assert NotBy(log, t)[1..] == NotBy(rest, t);
        assert multiset([x] + Values(NotBy(rest, t))) == multiset{x} + multiset(Values(NotBy(rest, t)));
      }
    }
  }

  lemma {:induction false} NotByIs(log: seq<Entry>, t: int, u: int)
    ensures forall e :: e in NotBy(log, t) ==> e in log && e.t != t
    ensures u != t ==> By(NotBy(log, t), u) == By(log, u)
  {
    if log != [] {
      NotByIs(log[1..], t, u);
      if log[0].t != t {
        assert NotBy(log, t)[1..] == NotBy(log[1..], t);
      }
    }
  }

  lemma EmptyOrEntry(log: seq<Entry>)
    ensures log == [] || exists e :: e in log
  {
    if log != [] { assert log[0] in log; }
  }

  /** If each producer wrote its items and nobody else wrote, all the items were written. */
  lemma {:induction false} LogHasAll(log: seq<Entry>, producing: map<int, nat>)
    requires forall e :: e in log ==> e.t in producing
    requires forall t :: t in producing ==> By(log, t) == Batch(t, 1, producing[t])
    ensures multiset(Values(log)) == AllItems(producing)
    decreases |producing|
  {
    if producing == map[] {
      EmptyOrEntry(log);
    } else {
      var t := Some(producing);
      SplitLog(log, t);
      NotByIs(log, t, t);
      forall u | u in producing - {t} ensures By(NotBy(log, t), u) == Batch(u, 1, producing[u]) { NotByIs(log, t, u); }
      LogHasAll(NotBy(log, t), producing - {t});
    }
  }

  lemma OnlyProducersWrite(log: seq<Entry>, producing: map<int, nat>, all: set<int>)
    requires forall e :: e in log ==> e.t in all
    requires forall t :: t in all && t !in producing ==> By(log, t) == []
    ensures forall e :: e in log ==> e.t in producing
  {
    forall e | e in log ensures e.t in producing {
      if e.t !in producing { InBy(log, e); }
    }
  }

  lemma {:induction false} InBy(log: seq<Entry>, e: Entry)
    requires e in log
    ensures By(log, e.t) != []
  {
    if log[0].t != e.t { InBy(log[1..], e); }
  }

  lemma TrafficItems(s: State, r: RingIds, producing: map<int, nat>, consuming: map<int, nat>, t: int)
    requires Traffic(s, r, producing, consuming) && t in s.prog
    ensures Items(s.prog[t]) == if t in producing then Batch(t, 1, producing[t]) else []
  {
    if t in producing { ProducerItems(r, t, 1, producing[t]); } else { ConsumerItems(r, consuming[t]); }
  }

  /** Once all threads are FINISHED, each producer has written its items, in order, and nobody
      else has written anything. */
  lemma TrafficWritten(s: State, r: RingIds, producing: map<int, nat>, consuming: map<int, nat>, acts: seq<Action>)
    requires Traffic(s, r, producing, consuming) && RingStart(s, r) && IsRun(s, acts) && AllFinished(After(s, acts))
    ensures forall t :: t in producing ==> By(Log(s, acts), t) == Batch(t, 1, producing[t])
    ensures forall e :: e in Log(s, acts) ==> e.t in producing
    ensures After(s, acts).mem.ring.written == Values(Log(s, acts))
  {
    hide QueuesOk, OwnersOk, GraphOk, NoLostWakeup, RingShape, Log, After, IsRun, Initial, Served;
    RingStartInv(s, r);
    RingIsFifoAndServes(s, r, acts);
    var e, log := After(s, acts), Log(s, acts);
    assert s.mem.ring.written == [] && [] + Values(log) == Values(log);
    forall t | t in s.prog ensures By(log, t) == if t in producing then Batch(t, 1, producing[t]) else [] {
      ItemsAreTheirs(s, r, acts, t);
      TrafficItems(s, r, producing, consuming, t);
      assert RingThreadOk(e, r, t) && e.prog[t] == Done;
      assert By(log, t) + [] == By(log, t);
    }
    if s.prog.Keys == {} {
      NobodyWrites(s, acts);
    } else {
      var t := Member(s.prog.Keys);
      ItemsAreTheirs(s, r, acts, t);
    }
    OnlyProducersWrite(log, producing, s.prog.Keys);
  }

  lemma NobodyWrites(s: State, acts: seq<Action>)
    requires s.prog.Keys == s.k.states.Keys == {} && IsRun(s, acts)
    ensures After(s, acts) == s && Log(s, acts) == []
  {
  }

  /** As many calls of produce() as of consume(), spread in any way over any number of producers
      and consumers: they all finish; what is read is what was written, in that order; each
      producer wrote the items it was to produce, in order, and nobody else wrote, so every item
      produced is read exactly as often as it is produced. */
  lemma TrafficFlows(s: State, r: RingIds, producing: map<int, nat>, consuming: map<int, nat>, acts: seq<Action>)
    requires Traffic(s, r, producing, consuming) && Total(producing) == Total(consuming)
    requires IsRun(s, acts)
    ensures |acts| <= Measure(s)
    ensures Quiescent(After(s, acts)) ==>
              && AllFinished(After(s, acts))
              && After(s, acts).mem.ring.read == After(s, acts).mem.ring.written == Values(Log(s, acts))
              && |After(s, acts).mem.ring.read| == Total(producing)
              && (forall e :: e in Log(s, acts) ==> e.t in producing)
              && (forall t :: t in producing ==> By(Log(s, acts), t) == Batch(t, 1, producing[t]))
              && multiset(After(s, acts).mem.ring.read) == AllItems(producing)
  {
    hide Traffic, RingStart, Log, After, IsRun;
    TrafficCounted(s, r, producing, consuming);
    MatchedCallersFinish(s, r, acts);
    if Quiescent(After(s, acts)) {
      TrafficWritten(s, r, producing, consuming, acts);
      LogHasAll(Log(s, acts), producing);
    }
  }
}
