/** The bounded buffer of src/ring_buffer.cpp in every interleaving of its callers: it is a
    FIFO queue, and it never strands a thread. */
module RingProtocol {
  import opened Collections
  import opened Kernel
  import opened KernelFrame
  import opened KernelChannels
  import opened Machine
  import opened Termination
  import opened Deadlock
  import opened Semaphores

  // ---- the buffer as a window on an unbounded log ----

  /** The count cells from head on, around the end of the array. */
  function Window(r: Ring): seq<int>
    requires r.buffer != []
  {
    seq(r.count, i requires 0 <= i => r.buffer[(r.head + i) % |r.buffer|])
  }

  /** Everything written is what was read followed by what is in the buffer. */
  ghost predicate RingOk(r: Ring) {
    && r.buffer != []
    && r.head < |r.buffer| && r.count <= |r.buffer|
    && r.tail == (r.head + r.count) % |r.buffer|
    && r.written == r.read + Window(r)
  }

  /** Two cells less than a whole turn apart are different cells. */
  lemma DistinctCells(head: nat, i: nat, j: nat, n: nat)
    requires head < n && i < j < n
    ensures (head + i) % n != (head + j) % n
  {
    WrapsOnce(head + i, n);
    WrapsOnce(head + j, n);
  }

  lemma NextCell(head: nat, i: nat, n: nat)
    requires head < n && i < n
    ensures ((head + i) % n + 1) % n == (head + i + 1) % n
    ensures ((head + 1) % n + i) % n == (head + i + 1) % n
  {
    WrapsOnce(head + i, n);
    var a := if head + i < n then head + i else head + i - n;
    WrapsOnce(head + 1, n);
    var b := if head + 1 < n then head + 1 else head + 1 - n;
    WrapsOnce(a + 1, n);
    WrapsOnce(b + i, n);
    if head + i + 1 < 2 * n { WrapsOnce(head + i + 1, n); }
  }

  /** Writing into a buffer that is not full appends to the log and loses nothing. */
  lemma PutKeeps(r: Ring, item: int)
    requires RingOk(r) && r.count < |r.buffer|
    ensures RingOk(PutItem(r, item))
    ensures PutItem(r, item).written == r.written + [item] && PutItem(r, item).read == r.read
    ensures Window(PutItem(r, item)) == Window(r) + [item] && |PutItem(r, item).buffer| == |r.buffer|
  {
    var n, q := |r.buffer|, PutItem(r, item);
    NextCell(r.head, r.count, n);
    forall i | 0 <= i < r.count
      ensures Window(q)[i] == Window(r)[i]
    {
      DistinctCells(r.head, i, r.count, n);
    }
    assert Window(q) == Window(r) + [item];
    assert r.read + (Window(r) + [item]) == r.read + Window(r) + [item];
  }

  /** Reading from a buffer that is not empty yields the oldest unread item. */
  lemma TakeKeeps(r: Ring)
    requires RingOk(r) && 0 < r.count
    ensures RingOk(TakeItem(r))
    ensures TakeItem(r).written == r.written && TakeItem(r).read == r.read + [Window(r)[0]]
    ensures Window(TakeItem(r)) == Window(r)[1..] && TakeItem(r).buffer == r.buffer
  {
    var n, q := |r.buffer|, TakeItem(r);
    WrapsOnce(r.head, n);
    NextCell(r.head, r.count - 1, n);
    forall i | 0 <= i < q.count
      ensures Window(q)[i] == Window(r)[i + 1]
    {
      NextCell(r.head, i, n);
    }
    assert Window(q) == Window(r)[1..];
    assert Window(r) == [Window(r)[0]] + Window(r)[1..];
    assert r.read + ([Window(r)[0]] + Window(r)[1..]) == r.read + [Window(r)[0]] + Window(r)[1..];
  }

  // ---- the threads that call produce() and consume() ----

  datatype RingIds = RingIds(lock: nat, notFull: nat, notEmpty: nat)

  function Produce(r: RingIds, item: int, next: Prog): Prog {
    Lock(r.lock, WaitWhile(RingFull, r.notFull, r.lock, Do(Put(item), CvSignal(r.notEmpty, Unlock(r.lock, next)))))
  }

  function Consume(r: RingIds, next: Prog): Prog {
    Lock(r.lock, WaitWhile(RingEmpty, r.notEmpty, r.lock, Do(Take, CvSignal(r.notFull, Unlock(r.lock, next)))))
  }

  /** Outside produce() and consume(). */
  predicate AtCall(p: Prog) {
    p.Done? || p.Yield? || p.Lock?
  }

  /** The rest of any program made of produce(), consume() and yield() calls. */
  predicate RingShape(p: Prog, r: RingIds) {
    match p
    case Done => true
    case Yield(next) => AtCall(next) && RingShape(next, r)
    case Lock(m, next) => m == r.lock && next.WaitWhile? && RingShape(next, r)
    case WaitWhile(g, c, m, next) =>
      && m == r.lock && next.Do? && RingShape(next, r)
      && ((g == RingFull && c == r.notFull && next.a.Put?) || (g == RingEmpty && c == r.notEmpty && next.a == Take))
    case Do(a, next) =>
      && next.CvSignal? && RingShape(next, r)
      && ((a.Put? && next.c == r.notEmpty) || (a == Take && next.c == r.notFull))
    case CvSignal(c, next) => (c == r.notEmpty || c == r.notFull) && next.Unlock? && RingShape(next, r)
    case Unlock(m, next) => m == r.lock && AtCall(next) && RingShape(next, r)
    case _ => false
  }

  lemma CallsHaveShape(r: RingIds, item: int, next: Prog)
    requires AtCall(next) && RingShape(next, r)
    ensures RingShape(Produce(r, item, next), r) && AtCall(Produce(r, item, next))
    ensures RingShape(Consume(r, next), r) && AtCall(Consume(r, next))
  {
    var last := Unlock(r.lock, next);
    assert RingShape(Do(Put(item), CvSignal(r.notEmpty, last)), r);
    assert RingShape(Do(Take, CvSignal(r.notFull, last)), r);
  }

  /** What a consumer (on notEmpty) or a producer (on notFull) could use now. */
  function Available(ring: Ring, r: RingIds, c: nat): int {
    if c == r.notEmpty then ring.count else |ring.buffer| - ring.count
  }

  /** The running thread is about to use up one unit that c's waiters count on, to go back to
      sleep on c, or to signal c. */
  predicate Owes(p: Prog, r: RingIds, c: nat) {
    match p
    case WaitWhile(_, d, _, _) => d == c
    case Do(Put(_), _) => c == r.notFull
    case Do(Take, _) => c == r.notEmpty
    case CvSignal(d, _) => d == c
    case _ => false
  }

  ghost predicate SomeoneOwes(s: State, r: RingIds, c: nat) {
    exists t :: Is(s.k, t, RUNNING) && t in s.prog && Owes(s.prog[t], r, c)
  }

  /** No thread is stranded: while threads wait on c, every available unit has a woken thread on its way. */
  ghost predicate Served(s: State, r: RingIds, c: nat) {
    Queue(s.k, CvQ(c)) != [] ==>
      Available(s.mem.ring, r, c) <= |WokenSet(s.k, CvQ(c))| + (if SomeoneOwes(s, r, c) then 1 else 0)
  }

  ghost predicate RingThreadOk(s: State, r: RingIds, t: int)
    requires t in s.k.states && t in s.k.at && t in s.prog
  {
    var p := s.prog[t];
    && RingShape(p, r)
    && match s.k.states[t]
       case RUNNING =>
         && (if AtCall(p) then Owner(s.k, r.lock) == NoOwner else Owner(s.k, r.lock) == t)
         && (p.Do? && p.a.Put? ==> s.mem.ring.count < |s.mem.ring.buffer|)
         && (p.Do? && p.a.Take? ==> 0 < s.mem.ring.count)
       case FINISHED => p == Done
       case _ =>
         || (s.k.at[t] == Outside && AtCall(p))
         || (p.WaitWhile? && s.k.at[t] == InCv(p.c, r.lock))
  }

  /** Every thread is at a sensible place, the mutex is free at every switch point, the buffer
      is a FIFO window, and nobody is stranded. */
  ghost predicate RingInv(s: State, r: RingIds) {
    && Inv(s)
    && r.notFull != r.notEmpty
    && RingOk(s.mem.ring)
    && (Owner(s.k, r.lock) != NoOwner ==> Is(s.k, Owner(s.k, r.lock), RUNNING))
    && (forall t :: t in s.k.states ==> RingThreadOk(s, r, t))
    && Served(s, r, r.notEmpty) && Served(s, r, r.notFull)
  }

  lemma OthersStayInPlace(s: State, s': State, r: RingIds, t: int)
    requires RingInv(s, r) && Inv(s') && Frame(s.k, s'.k, t) && t in s.k.states
    requires Is(s.k, t, RUNNING) || NobodyRuns(s.k)
    requires forall u :: u in s.prog && u != t ==> s'.prog[u] == s.prog[u]
    requires RingThreadOk(s', r, t)
    ensures forall u :: u in s'.k.states ==> RingThreadOk(s', r, u)
  {
    forall u | u in s'.k.states
      ensures RingThreadOk(s', r, u)
    {
      if u != t {
        assert Bystander(s.k, s'.k, u);
        assert RingThreadOk(s, r, u);
        assert !Is(s.k, u, RUNNING);
      }
    }
  }

  /** Who owes what is decided by the running thread alone. */
  lemma OnlyRunnerOwes(s: State, r: RingIds, t: int, c: nat)
    requires Inv(s) && Is(s.k, t, RUNNING)
    ensures SomeoneOwes(s, r, c) <==> Owes(s.prog[t], r, c)
  {
  }

  lemma NobodyOwes(s: State, r: RingIds, c: nat)
    requires NobodyRuns(s.k)
    ensures !SomeoneOwes(s, r, c)
  {
  }

  lemma BeginKeepsRing(s: State, r: RingIds, t: int)
    requires RingInv(s, r) && Enabled(s, Begin(t))
    ensures RingInv(Next(s, Begin(t)), r)
  {
    var s' := Next(s, Begin(t));
    assert RingThreadOk(s, r, t);
    NextKeeps(s, Begin(t));
    ResumeFrame(s.k, t);
    ResumeChannels(s.k, t);
    OthersStayInPlace(s, s', r, t);
    forall c | c == r.notEmpty || c == r.notFull
      ensures Served(s', r, c)
    {
      OnlyRunnerOwes(s', r, t, c);
      NobodyOwes(s, r, c);
      if t in WokenSet(s.k, CvQ(c)) { assert Owes(s.prog[t], r, c); }
    }
  }

  /** The operations that touch neither the buffer nor the two condition variables. */
  lemma PlainRunKeepsRing(s: State, r: RingIds, t: int)
    requires RingInv(s, r) && Is(s.k, t, RUNNING)
    requires AtCall(s.prog[t]) || s.prog[t].Unlock?
    ensures RingInv(Exec(s, t), r)
  {
    var s' := Exec(s, t);
    assert RingThreadOk(s, r, t);
    ExecKeeps(s, t);
    ExecFrame(s, t);
    match s.prog[t] {
      case Done =>
        SetStateFrame(s.k, t, FINISHED);
        SetStateChannels(s.k, t, FINISHED);
      case Yield(_) =>
        SetStateFrame(s.k, t, READY);
        SetStateChannels(s.k, t, READY);
      case Lock(m, _) =>
        AcquireFrame(s.k, t, m);
        AcquireChannels(s.k, t, m);
      case Unlock(m, _) =>
        UnlockFrame(s.k, t, m);
        UnlockChannels(s.k, t, m);
        assert m !in Held(s'.k, t);
        UnlockedOwner(s.k, t, m);
    }
    OthersStayInPlace(s, s', r, t);
    forall c | c == r.notEmpty || c == r.notFull
      ensures Served(s', r, c)
    {
      OnlyRunnerOwes(s, r, t, c);
      assert SameChannel(s.k, s'.k, CvQ(c));
    }
  }

  lemma UnlockedOwner(k: Kernel, t: int, m: nat)
    requires Is(k, t, RUNNING) && Owner(k, m) == t
    ensures Owner(UnlockCall(k, t, m), m) == NoOwner
  {
  }

  lemma CvWaitOwner(k: Kernel, t: int, c: nat, m: nat)
    requires Is(k, t, RUNNING) && Owner(k, m) == t
    ensures Owner(CvWaitCall(k, t, c, m), m) == NoOwner
  {
    UnlockedOwner(k, t, m);
  }

  /** The guard of a wait loop holds, and the caller goes back to sleep: the other side stays served. */
  lemma SleepServes(s: State, r: RingIds, t: int, c: nat)
    requires RingInv(s, r) && Is(s.k, t, RUNNING) && s.prog[t].WaitWhile? && Holds(s.prog[t].g, s.mem)
    requires c == r.notEmpty || c == r.notFull
    ensures Served(Exec(s, t), r, c)
  {
    hide OwnersOk, GraphOk, NoLostWakeup, RingOk;
    var p := s.prog[t];
    assert RingThreadOk(s, r, t);
    CvWaitChannels(s.k, t, p.c, r.lock);
    OnlyRunnerOwes(s, r, t, c);
    if c != p.c { assert SameChannel(s.k, Exec(s, t).k, CvQ(c)); }
  }

  lemma SleepKeepsRing(s: State, r: RingIds, t: int)
    requires RingInv(s, r) && Is(s.k, t, RUNNING) && s.prog[t].WaitWhile? && Holds(s.prog[t].g, s.mem)
    ensures RingInv(Exec(s, t), r)
  {
    hide QueuesOk, OwnersOk, GraphOk, NoLostWakeup, RingOk, Served;
    var p := s.prog[t];
    assert RingThreadOk(s, r, t);
    ExecKeeps(s, t);
    ExecFrame(s, t);
    CvWaitFrame(s.k, t, p.c, r.lock);
    CvWaitOwner(s.k, t, p.c, r.lock);
    SleepServes(s, r, t, r.notEmpty);
    SleepServes(s, r, t, r.notFull);
    OthersStayInPlace(s, Exec(s, t), r, t);
  }

  lemma TestKeepsRing(s: State, r: RingIds, t: int)
    requires RingInv(s, r) && Is(s.k, t, RUNNING) && s.prog[t].WaitWhile?
    ensures RingInv(Exec(s, t), r)
  {
    hide QueuesOk, OwnersOk, GraphOk, NoLostWakeup;
    if Holds(s.prog[t].g, s.mem) {
      SleepKeepsRing(s, r, t);
    } else {
      var s' := Exec(s, t);
      assert RingThreadOk(s, r, t);
      ExecKeeps(s, t);
      ExecFrame(s, t);
      OthersStayInPlace(s, s', r, t);
      forall c | c == r.notEmpty || c == r.notFull
        ensures Served(s', r, c)
      {
        OnlyRunnerOwes(s, r, t, c);
        OnlyRunnerOwes(s', r, t, c);
      }
    }
  }

  lemma TransferKeepsRing(s: State, r: RingIds, t: int)
    requires RingInv(s, r) && Is(s.k, t, RUNNING) && s.prog[t].Do?
    ensures RingInv(Exec(s, t), r)
  {
    var s' := Exec(s, t);
    assert RingThreadOk(s, r, t);
    ExecKeeps(s, t);
    match s.prog[t].a {
      case Put(item) => PutKeeps(s.mem.ring, item);
      case Take => TakeKeeps(s.mem.ring);
      case AddVar(_) =>
    }
    forall u | u in s'.k.states
      ensures RingThreadOk(s', r, u)
    {
      assert RingThreadOk(s, r, u);
    }
    forall c | c == r.notEmpty || c == r.notFull
      ensures Served(s', r, c)
    {
      OnlyRunnerOwes(s, r, t, c);
      OnlyRunnerOwes(s', r, t, c);
    }
  }

  lemma SignalKeepsRing(s: State, r: RingIds, t: int)
    requires RingInv(s, r) && Is(s.k, t, RUNNING) && s.prog[t].CvSignal?
    ensures RingInv(Exec(s, t), r)
  {
    hide OwnersOk, GraphOk, NoLostWakeup;
    var s' := Exec(s, t);
    assert RingThreadOk(s, r, t);
    ExecKeeps(s, t);
    ExecFrame(s, t);
    var d := s.prog[t].c;
    SignalFrame(s.k, t, CvQ(d));
    OthersStayInPlace(s, s', r, t);
    forall c | c == r.notEmpty || c == r.notFull
      ensures Served(s', r, c)
    {
      SignalServes(s, r, t, c);
    }
  }

  /** A signal pays what the transfer before it owed. */
  lemma SignalServes(s: State, r: RingIds, t: int, c: nat)
    requires RingInv(s, r) && Is(s.k, t, RUNNING) && s.prog[t].CvSignal? && (c == r.notEmpty || c == r.notFull)
    ensures Served(Exec(s, t), r, c)
  {
    hide OwnersOk, GraphOk, NoLostWakeup;
    assert RingThreadOk(s, r, t);
    PopWakeKeepsQueues(s.k, CvQ(s.prog[t].c));
    OnlyRunnerOwes(s, r, t, c);
  }

  lemma NextKeepsRing(s: State, r: RingIds, a: Action)
    requires RingInv(s, r) && Enabled(s, a)
    ensures RingInv(Next(s, a), r)
  {
    match a
    case Begin(t) => BeginKeepsRing(s, r, t);
    case Run(t) =>
      assert RingThreadOk(s, r, t);
      match s.prog[t]
      case WaitWhile(_, _, _, _) => TestKeepsRing(s, r, t);
      case Do(_, _) => TransferKeepsRing(s, r, t);
      case CvSignal(_, _) => SignalKeepsRing(s, r, t);
      case _ => PlainRunKeepsRing(s, r, t);
  }

  /** In every interleaving the buffer is a FIFO queue: all items written so far are the items
      read so far followed by the circular window of `count` cells from `head`. At every switch
      point the mutex is free, and while threads wait on a condition variable, every unit they
      could use has a woken thread on its way. */
  lemma {:induction false} RingIsFifoAndServes(s: State, r: RingIds, acts: seq<Action>)
    requires RingInv(s, r) && IsRun(s, acts)
    ensures RingInv(After(s, acts), r)
    ensures var e := After(s, acts);
            && e.mem.ring.written == e.mem.ring.read + Window(e.mem.ring)
            && (NobodyRuns(e.k) ==>
                  && Owner(e.k, r.lock) == NoOwner
                  && (Queue(e.k, CvQ(r.notEmpty)) != [] ==> e.mem.ring.count <= |WokenSet(e.k, CvQ(r.notEmpty))|)
                  && (Queue(e.k, CvQ(r.notFull)) != [] ==>
                        |e.mem.ring.buffer| - e.mem.ring.count <= |WokenSet(e.k, CvQ(r.notFull))|))
    decreases |acts|
  {
    if acts == [] {
      if NobodyRuns(s.k) {
        NobodyOwes(s, r, r.notEmpty);
        NobodyOwes(s, r, r.notFull);
      }
    } else {
      NextKeepsRing(s, r, acts[0]);
      RingIsFifoAndServes(Next(s, acts[0]), r, acts[1..]);
    }
  }

  ghost predicate FreshRing(s: State, r: RingIds) {
    && Initial(s)
    && r.notFull != r.notEmpty
    && s.mem.ring.buffer != [] && s.mem.ring.head == 0 && s.mem.ring.tail == 0 && s.mem.ring.count == 0
    && s.mem.ring.written == [] && s.mem.ring.read == []
  }

  /** A fresh buffer and any callers. */
  ghost predicate RingStart(s: State, r: RingIds) {
    FreshRing(s, r) && forall t :: t in s.prog ==> AtCall(s.prog[t]) && RingShape(s.prog[t], r)
  }

  lemma RingStartInv(s: State, r: RingIds)
    requires RingStart(s, r)
    ensures RingInv(s, r)
  {
    InitialInv(s);
    WrapsOnce(0, |s.mem.ring.buffer|);
    assert Window(s.mem.ring) == [];
    forall t | t in s.k.states ensures RingThreadOk(s, r, t) { }
  }

  // ---- termination and completion ----

  /** Which mutex a thread at this place holds or will hold when it runs again. */
  function RingHeld(p: Prog, r: RingIds): set<nat> {
    if AtCall(p) then {} else {r.lock}
  }

  lemma {:induction false} RingShapeObeys(p: Prog, r: RingIds)
    requires RingShape(p, r)
    ensures Obeys(WaitOwning, p, RingHeld(p, r))
  {
    var none: set<nat> := {};
    assert none + {r.lock} == {r.lock} && {r.lock} - {r.lock} == none;
    match p
    case Done =>
    case Yield(next) => RingShapeObeys(next, r);
    case Lock(_, next) => RingShapeObeys(next, r);
    case WaitWhile(_, _, _, next) => RingShapeObeys(next, r);
    case Do(_, next) => RingShapeObeys(next, r);
    case CvSignal(_, next) => RingShapeObeys(next, r);
    case Unlock(_, next) => RingShapeObeys(next, r);
  }

  function Puts(p: Prog): nat {
    match p
    case Yield(next) => Puts(next)
    case Lock(_, next) => Puts(next)
    case WaitWhile(_, _, _, next) => Puts(next)
    case Do(a, next) => (if a.Put? then 1 else 0) + Puts(next)
    case CvSignal(_, next) => Puts(next)
    case Unlock(_, next) => Puts(next)
    case _ => 0
  }

  function Takes(p: Prog): nat {
    match p
    case Yield(next) => Takes(next)
    case Lock(_, next) => Takes(next)
    case WaitWhile(_, _, _, next) => Takes(next)
    case Do(a, next) => (if a.Take? then 1 else 0) + Takes(next)
    case CvSignal(_, next) => Takes(next)
    case Unlock(_, next) => Takes(next)
    case _ => 0
  }

  function PutMap(p: map<int, Prog>): map<int, nat> {
    map t | t in p :: Puts(p[t])
  }

  function TakeMap(p: map<int, Prog>): map<int, nat> {
    map t | t in p :: Takes(p[t])
  }

  /** Calls of produce() and consume() that have not transferred their item yet, over all threads. */
  ghost function PutsLeft(s: State): nat {
    Total(PutMap(s.prog))
  }

  ghost function TakesLeft(s: State): nat {
    Total(TakeMap(s.prog))
  }

  /** Pure producers and pure consumers. */
  ghost predicate OneSided(s: State) {
    forall t :: t in s.prog ==> Puts(s.prog[t]) == 0 || Takes(s.prog[t]) == 0
  }

  lemma OneProgramMoves(s: State, t: int)
    requires Is(s.k, t, RUNNING) && t in s.prog
    ensures Exec(s, t).prog.Keys == s.prog.Keys
    ensures forall u :: u in s.prog && u != t ==> Exec(s, t).prog[u] == s.prog[u]
  {
  }

  lemma CallerCounted(s: State, r: RingIds, t: int)
    requires RingInv(s, r) && Is(s.k, t, RUNNING)
    ensures t in Exec(s, t).prog
    ensures |Exec(s, t).mem.ring.written| + Puts(Exec(s, t).prog[t]) == |s.mem.ring.written| + Puts(s.prog[t])
    ensures |Exec(s, t).mem.ring.read| + Takes(Exec(s, t).prog[t]) == |s.mem.ring.read| + Takes(s.prog[t])
  {
    assert RingThreadOk(s, r, t);
  }

  lemma RunCounted(s: State, r: RingIds, t: int)
    requires RingInv(s, r) && Is(s.k, t, RUNNING)
    ensures |Exec(s, t).mem.ring.written| + PutsLeft(Exec(s, t)) == |s.mem.ring.written| + PutsLeft(s)
    ensures |Exec(s, t).mem.ring.read| + TakesLeft(Exec(s, t)) == |s.mem.ring.read| + TakesLeft(s)
  {
    OneProgramMoves(s, t);
    CallerCounted(s, r, t);
    CountedTotals(s.prog, Exec(s, t).prog, t);
  }

  lemma RunStaysOneSided(s: State, r: RingIds, t: int)
    requires RingInv(s, r) && Is(s.k, t, RUNNING) && OneSided(s)
    ensures OneSided(Exec(s, t))
  {
    OneProgramMoves(s, t);
    assert RingThreadOk(s, r, t);
    assert Puts(Exec(s, t).prog[t]) <= Puts(s.prog[t]) && Takes(Exec(s, t).prog[t]) <= Takes(s.prog[t]);
  }

  lemma TransfersCounted(s: State, r: RingIds, a: Action)
    requires RingInv(s, r) && Enabled(s, a)
    ensures |Next(s, a).mem.ring.written| + PutsLeft(Next(s, a)) == |s.mem.ring.written| + PutsLeft(s)
    ensures |Next(s, a).mem.ring.read| + TakesLeft(Next(s, a)) == |s.mem.ring.read| + TakesLeft(s)
    ensures OneSided(s) ==> OneSided(Next(s, a))
  {
    if a.Run? {
      RunCounted(s, r, a.t);
      if OneSided(s) { RunStaysOneSided(s, r, a.t); }
    }
  }

  lemma CountedTotals(p: map<int, Prog>, p': map<int, Prog>, t: int)
    requires p'.Keys == p.Keys && t in p && forall u :: u in p && u != t ==> p'[u] == p[u]
    ensures Total(PutMap(p')) + Puts(p[t]) == Total(PutMap(p)) + Puts(p'[t])
    ensures Total(TakeMap(p')) + Takes(p[t]) == Total(TakeMap(p)) + Takes(p'[t])
  {
    var w, w' := PutMap(p), PutMap(p');
    SameMap(w[t := w'[t]], w');
    TotalUpdate(w, t, w'[t]);
    var x, x' := TakeMap(p), TakeMap(p');
    SameMap(x[t := x'[t]], x');
    TotalUpdate(x, t, x'[t]);
  }

  lemma {:induction false} RunTransfersCounted(s: State, r: RingIds, acts: seq<Action>)
    requires RingInv(s, r) && IsRun(s, acts)
    ensures |After(s, acts).mem.ring.written| + PutsLeft(After(s, acts)) == |s.mem.ring.written| + PutsLeft(s)
    ensures |After(s, acts).mem.ring.read| + TakesLeft(After(s, acts)) == |s.mem.ring.read| + TakesLeft(s)
    ensures OneSided(s) ==> OneSided(After(s, acts))
    decreases |acts|
  {
    if acts != [] {
      TransfersCounted(s, r, acts[0]);
      NextKeepsRing(s, r, acts[0]);
      RunTransfersCounted(Next(s, acts[0]), r, acts[1..]);
    }
  }

  /** At quiescence a thread is stuck in consume() only on an empty buffer, in produce() only
      on a full one; so they are never both stuck. */
  lemma StuckSides(s: State, r: RingIds, t: int)
    requires RingInv(s, r) && Quiescent(s) && Is(s.k, t, BLOCKED)
    ensures s.prog[t].WaitWhile?
    ensures s.prog[t].c == r.notEmpty ==> s.mem.ring.count == 0 && Takes(s.prog[t]) > 0
    ensures s.prog[t].c == r.notFull ==> s.mem.ring.count == |s.mem.ring.buffer| && Puts(s.prog[t]) > 0
    ensures s.prog[t].c == r.notEmpty || s.prog[t].c == r.notFull
  {
    assert RingThreadOk(s, r, t);
    assert s.k.at[t] != Outside;
    var c := s.prog[t].c;
    assert Waiting(s.k, t, CvQ(c));
    assert t in Queue(s.k, CvQ(c));
    NobodyWoken(s, CvQ(c));
    NobodyOwes(s, r, c);
    assert Served(s, r, c);
  }

  lemma SomethingLeft(w: map<int, nat>, t: int)
    requires t in w
    ensures w[t] <= Total(w)
  {
    TotalAt(w, t);
  }

  /** A stuck consumer would have seen every producer finish and the buffer drained. */
  lemma NobodyStuck(s: State, r: RingIds, t: int, n: nat)
    requires RingInv(s, r) && Quiescent(s) && OneSided(s)
    requires |s.mem.ring.written| + PutsLeft(s) == n && |s.mem.ring.read| + TakesLeft(s) == n
    ensures !Is(s.k, t, BLOCKED)
  {
    if Is(s.k, t, BLOCKED) {
      StuckSides(s, r, t);
      var w, x := PutMap(s.prog), TakeMap(s.prog);
      SomethingLeft(w, t);
      SomethingLeft(x, t);
      assert |s.mem.ring.written| == |s.mem.ring.read| + s.mem.ring.count;
      forall u | u in s.prog
        ensures s.prog[t].c == r.notEmpty ==> w[u] == 0
        ensures s.prog[t].c == r.notFull ==> x[u] == 0
      {
        assert RingThreadOk(s, r, u);
        if Is(s.k, u, BLOCKED) { StuckSides(s, r, u); }
      }
      if s.prog[t].c == r.notEmpty { AllZero(w); } else { AllZero(x); }
      assert false;
    }
  }

  lemma RingThreadsObey(s: State, r: RingIds)
    requires RingStart(s, r)
    ensures s.k.at.Keys == s.k.states.Keys == s.prog.Keys && AllObey(WaitOwning, s)
  {
    forall t | t in s.k.states
      ensures ThreadObeys(WaitOwning, s, t)
    {
      RingShapeObeys(s.prog[t], r);
      assert HeldOnReturn(s.k, t) == {};
    }
  }

  /** Pure producers and pure consumers whose calls match in number all finish, in every
      interleaving and under every policy, having read exactly what was written, in order. */
  lemma MatchedCallersFinish(s: State, r: RingIds, acts: seq<Action>)
    requires RingStart(s, r) && OneSided(s) && PutsLeft(s) == TakesLeft(s)
    requires IsRun(s, acts)
    ensures |acts| <= Measure(s)
    ensures Quiescent(After(s, acts)) ==>
              AllFinished(After(s, acts)) && After(s, acts).mem.ring.read == After(s, acts).mem.ring.written
              && |After(s, acts).mem.ring.read| == TakesLeft(s)
  {
    RingStartInv(s, r);
    RingThreadsObey(s, r);
    EveryRunIsFinite(s, acts);
    RingIsFifoAndServes(s, r, acts);
    RunTransfersCounted(s, r, acts);
    var e := After(s, acts);
    if Quiescent(e) {
      forall t | t in e.k.states
        ensures e.k.states[t] == FINISHED && e.prog[t] == Done
      {
        NobodyStuck(e, r, t, PutsLeft(s));
        assert RingThreadOk(e, r, t);
      }
      AllZero(PutMap(e.prog));
      AllZero(TakeMap(e.prog));
      assert Window(e.mem.ring) == [];
    }
  }
}
