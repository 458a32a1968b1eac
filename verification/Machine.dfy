/** Thread programs over the kernel primitives, and the steps of the cooperative scheduler:
    control moves only when the running thread yields, blocks or exits. */
module Machine {
  import opened Kernel
  import opened KernelFrame

  /** The fields of a RingBuffer besides its mutex and condition variables; the two logs
      list every item ever written to and read from the buffer. */
  datatype Ring = Ring(buffer: seq<int>, head: nat, tail: nat, count: nat, written: seq<int>, read: seq<int>)

  /** What the threads share besides the primitives: one integer and one ring buffer. */
  datatype Memory = Memory(v: int, ring: Ring)

  datatype Guard = RingFull | RingEmpty | VarIs(value: int)

  datatype Act = AddVar(delta: int) | Put(item: int) | Take

  predicate Holds(g: Guard, mem: Memory) {
    match g
    case RingFull => mem.ring.count == |mem.ring.buffer|
    case RingEmpty => mem.ring.count == 0
    case VarIs(value) => mem.v == value
  }

  function PutItem(r: Ring, item: int): Ring {
    if r.tail < |r.buffer| then
      r.(buffer := r.buffer[r.tail := item], tail := (r.tail + 1) % |r.buffer|, count := r.count + 1,
         written := r.written + [item])
    else r
  }

  function TakeItem(r: Ring): Ring {
    if r.head < |r.buffer| && 0 < r.count then
      r.(head := (r.head + 1) % |r.buffer|, count := r.count - 1, read := r.read + [r.buffer[r.head]])
    else r
  }

  function Perform(a: Act, mem: Memory): Memory {
    match a
    case AddVar(delta) => mem.(v := mem.v + delta)
    case Put(item) => mem.(ring := PutItem(mem.ring, item))
    case Take => mem.(ring := TakeItem(mem.ring))
  }

  /** The rest of a thread's function, as the operations still to come; WaitWhile is the
      loop `while (guard) cv.wait(mutex)`. Every loop of the thread is unrolled. */
  datatype Prog =
    | Done
    | Yield(next: Prog)
    | Lock(m: nat, next: Prog)
    | TryLock(m: nat, yes: Prog, no: Prog)
    | Unlock(m: nat, next: Prog)
    | SemWait(s: nat, next: Prog)
    | SemSignal(s: nat, next: Prog)
    | CvWait(c: nat, cm: nat, next: Prog)
    | CvSignal(c: nat, next: Prog)
    | CvBroadcast(c: nat, next: Prog)
    | WaitWhile(g: Guard, c: nat, cm: nat, next: Prog)
    | Do(a: Act, next: Prog)
    | If(g: Guard, yes: Prog, no: Prog)

  /** A suspended primitive returns into prog[t]: while blocked in lock() the program is
      already what follows the lock. */
  datatype State = State(k: Kernel, prog: map<int, Prog>, mem: Memory)

  /** One operation of the running thread, up to its return or its switch. */
  ghost function Exec(s: State, t: int): State
    requires Is(s.k, t, RUNNING) && t in s.prog
  {
    match s.prog[t]
    case Done => s.(k := SetState(s.k, t, FINISHED))
    case Yield(next) => State(SetState(s.k, t, READY), s.prog[t := next], s.mem)
    case Lock(m, next) => State(LockCall(s.k, t, m), s.prog[t := next], s.mem)
    case TryLock(m, yes, no) =>
      State(TryLockCall(s.k, t, m), s.prog[t := if TryLockResult(s.k, t, m) then yes else no], s.mem)
    case Unlock(m, next) => State(UnlockCall(s.k, t, m), s.prog[t := next], s.mem)
    case SemWait(i, next) => State(SemLoop(s.k, t, i), s.prog[t := next], s.mem)
    case SemSignal(i, next) => State(SemSignalCall(s.k, i), s.prog[t := next], s.mem)
    case CvWait(c, m, next) => State(CvWaitCall(s.k, t, c, m), s.prog[t := next], s.mem)
    case CvSignal(c, next) => State(CvSignalCall(s.k, c), s.prog[t := next], s.mem)
    case CvBroadcast(c, next) => State(CvBroadcastCall(s.k, c), s.prog[t := next], s.mem)
    case WaitWhile(g, c, m, next) =>
      if Holds(g, s.mem) then s.(k := CvWaitCall(s.k, t, c, m)) else s.(prog := s.prog[t := next])
    case Do(a, next) => State(s.k, s.prog[t := next], Perform(a, s.mem))
    case If(g, yes, no) => s.(prog := s.prog[t := if Holds(g, s.mem) then yes else no])
  }

  /** Begin dispatches a READY thread, whatever the policy that chose it; Run lets the
      running thread do one operation. */
  datatype Action = Begin(t: int) | Run(t: int)

  ghost predicate Enabled(s: State, a: Action) {
    match a
    case Begin(t) => NobodyRuns(s.k) && Is(s.k, t, READY) && t in s.k.at
    case Run(t) => Is(s.k, t, RUNNING) && t in s.prog
  }

  ghost function Next(s: State, a: Action): State
    requires Enabled(s, a)
  {
    match a
    case Begin(t) => s.(k := Resume(s.k, t))
    case Run(t) => Exec(s, t)
  }

  ghost predicate IsRun(s: State, acts: seq<Action>)
    decreases |acts|
  {
    acts == [] || (Enabled(s, acts[0]) && IsRun(Next(s, acts[0]), acts[1..]))
  }

  ghost function After(s: State, acts: seq<Action>): State
    requires IsRun(s, acts)
    decreases |acts|
  {
    if acts == [] then s else After(Next(s, acts[0]), acts[1..])
  }

  ghost predicate Inv(s: State) {
    KernelInv(s.k) && s.prog.Keys == s.k.states.Keys
  }

  /** All threads READY at the start of their functions, every mutex free, every queue
      empty, the graph empty; semaphores and memory may hold anything. */
  ghost predicate Initial(s: State) {
    && s.prog.Keys == s.k.states.Keys == s.k.at.Keys
    && (forall t :: t in s.k.states ==> 0 <= t && s.k.states[t] == READY && s.k.at[t] == Outside)
    && s.k.queues == map[] && s.k.owner == map[] && s.k.graph == map[] && s.k.verdicts == []
  }

  lemma InitialInv(s: State)
    requires Initial(s)
    ensures Inv(s) && NobodyRuns(s.k)
  {
  }

  /** No operation touches the other threads except by waking them. */
  lemma ExecFrame(s: State, t: int)
    requires Inv(s) && Is(s.k, t, RUNNING)
    ensures Frame(s.k, Exec(s, t).k, t)
  {
    hide QueuesOk, OwnersOk, GraphOk, NoLostWakeup;
    match s.prog[t]
    case Done => SetStateFrame(s.k, t, FINISHED);
    case Yield(_) => SetStateFrame(s.k, t, READY);
    case Lock(m, _) => if Owner(s.k, m) != t { LockLoopFrame(s.k, t, m); }
    case TryLock(m, _, _) => if Owner(s.k, m) == NoOwner { AcquireFrame(s.k, t, m); }
    case Unlock(m, _) => UnlockFrame(s.k, t, m);
    case SemWait(i, _) => SemLoopFrame(s.k, t, i);
    case SemSignal(i, _) => SemSignalFrame(s.k, t, i);
    case CvWait(c, m, _) => if Owner(s.k, m) == t { CvWaitFrame(s.k, t, c, m); }
    case CvSignal(c, _) => SignalFrame(s.k, t, CvQ(c));
    case CvBroadcast(c, _) => BroadcastFrame(s.k, t, c);
    case WaitWhile(g, c, m, _) => if Holds(g, s.mem) && Owner(s.k, m) == t { CvWaitFrame(s.k, t, c, m); }
    case Do(_, _) =>
    case If(_, _, _) =>
  }

  /** What an operation does to its caller: when it blocks and where, and what it holds then. */
  ghost predicate CallerMoved(s: State, k': Kernel, t: int)
    requires t in s.prog
  {
    var k, held := s.k, Held(s.k, t);
    match s.prog[t]
    case Done => Caller(k', t, FINISHED, Outside, held)
    case Yield(_) => Caller(k', t, READY, Outside, held)
    case Lock(m, _) =>
      if m in held || Owner(k, m) == NoOwner then Caller(k', t, RUNNING, Outside, held + {m})
      else Caller(k', t, BLOCKED, InLock(m), held)
    case TryLock(m, _, _) =>
      Caller(k', t, RUNNING, Outside, if Owner(k, m) == NoOwner then held + {m} else held)
    case Unlock(m, _) => Caller(k', t, RUNNING, Outside, held - {m})
    case SemWait(i, _) =>
      if Count(k, i) > 0 then Caller(k', t, RUNNING, Outside, held) else Caller(k', t, BLOCKED, InSem(i), held)
    case CvWait(c, m, _) =>
      if m in held then Caller(k', t, BLOCKED, InCv(c, m), held - {m}) else Caller(k', t, RUNNING, Outside, held)
    case WaitWhile(g, c, m, _) =>
      if Holds(g, s.mem) && m in held then Caller(k', t, BLOCKED, InCv(c, m), held - {m})
      else Caller(k', t, RUNNING, Outside, held)
    case _ => Caller(k', t, RUNNING, Outside, held)
  }

  lemma ExecMovesCaller(s: State, t: int)
    requires Inv(s) && Is(s.k, t, RUNNING)
    ensures CallerMoved(s, Exec(s, t).k, t)
  {
    hide QueuesOk, OwnersOk, GraphOk, NoLostWakeup, Bystander;
    match s.prog[t]
    case Done => SetStateFrame(s.k, t, FINISHED);
    case Yield(_) => SetStateFrame(s.k, t, READY);
    case Lock(m, _) => if Owner(s.k, m) != t { LockLoopFrame(s.k, t, m); } else { assert Held(s.k, t) + {m} == Held(s.k, t); }
    case TryLock(m, _, _) => if Owner(s.k, m) == NoOwner { AcquireFrame(s.k, t, m); }
    case Unlock(m, _) => UnlockFrame(s.k, t, m);
    case SemWait(i, _) => SemLoopFrame(s.k, t, i);
    case SemSignal(i, _) => SemSignalFrame(s.k, t, i);
    case CvWait(c, m, _) => if Owner(s.k, m) == t { CvWaitFrame(s.k, t, c, m); }
    case CvSignal(c, _) => SignalFrame(s.k, t, CvQ(c));
    case CvBroadcast(c, _) => BroadcastFrame(s.k, t, c);
    case WaitWhile(g, c, m, _) => if Holds(g, s.mem) && Owner(s.k, m) == t { CvWaitFrame(s.k, t, c, m); }
    case Do(_, _) =>
    case If(_, _, _) =>
  }

  lemma ExecKeeps(s: State, t: int)
    requires Inv(s) && Is(s.k, t, RUNNING)
    ensures Inv(Exec(s, t))
  {
    hide KernelInv, Bystander;
    ExecFrame(s, t);
    match s.prog[t]
    case Done => SetStateKeeps(s.k, t, FINISHED);
    case Yield(_) => SetStateKeeps(s.k, t, READY);
    case Lock(m, _) => LockCallKeeps(s.k, t, m);
    case TryLock(m, _, _) => TryLockKeeps(s.k, t, m);
    case Unlock(m, _) => UnlockKeeps(s.k, t, m);
    case SemWait(i, _) => SemWaitKeeps(s.k, t, i);
    case SemSignal(i, _) => SemSignalKeeps(s.k, i);
    case CvWait(c, m, _) => CvWaitKeeps(s.k, t, c, m);
    case CvSignal(c, _) => CvSignalKeeps(s.k, c);
    case CvBroadcast(c, _) => CvBroadcastKeeps(s.k, c);
    case WaitWhile(_, c, m, _) => CvWaitKeeps(s.k, t, c, m);
    case Do(_, _) =>
    case If(_, _, _) =>
  }

  lemma NextKeeps(s: State, a: Action)
    requires Inv(s) && Enabled(s, a)
    ensures Inv(Next(s, a))
  {
    match a
    case Begin(t) => ResumeKeeps(s.k, t); ResumeFrame(s.k, t);
    case Run(t) => ExecKeeps(s, t);
  }

  /** Queues, states, owners and graph agree in every reachable state, whatever the programs. */
  lemma {:induction false} ReachableInv(s: State, acts: seq<Action>)
    requires Inv(s) && IsRun(s, acts)
    ensures Inv(After(s, acts))
    decreases |acts|
  {
    if acts != [] {
      NextKeeps(s, acts[0]);
      ReachableInv(Next(s, acts[0]), acts[1..]);
    }
  }

  ghost predicate IsRunTo(s: State, acts: seq<Action>, e: State) {
    IsRun(s, acts) && After(s, acts) == e
  }

  lemma {:induction false} RunThenRun(s: State, a: seq<Action>, b: seq<Action>)
    requires IsRun(s, a) && IsRun(After(s, a), b)
    ensures IsRun(s, a + b) && After(s, a + b) == After(After(s, a), b)
    decreases |a|
  {
    if a == [] {
      assert a + b == b;
    } else {
      assert (a + b)[0] == a[0] && (a + b)[1..] == a[1..] + b;
      hide Next, Enabled;
      RunThenRun(Next(s, a[0]), a[1..], b);
    }
  }

  lemma RunToThen(s: State, a: seq<Action>, e: State, b: seq<Action>, f: State)
    requires IsRunTo(s, a, e) && IsRunTo(e, b, f)
    ensures IsRunTo(s, a + b, f)
  {
    RunThenRun(s, a, b);
  }

  lemma ActionThenRun(s: State, a: Action, acts: seq<Action>, e: State)
    requires Enabled(s, a) && IsRunTo(Next(s, a), acts, e)
    ensures IsRunTo(s, [a] + acts, e)
  {
    assert ([a] + acts)[1..] == acts;
  }
}
