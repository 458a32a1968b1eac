/** How often the threads of the demonstrations do what they came for: readers read and writers
    write once a round, and every philosopher eats once, with both forks in hand. */
module Rounds {
  import opened Kernel
  import opened KernelFrame
  import opened Machine
  import opened Termination
  import opened Deadlock
  import opened LockOrder
  import opened ReadersWriters

  // ---- marked operations of a program ----

  /** What the threads of the demonstrations do between two switches: read, write, or eat. */
  datatype Mark = Read | Write | Eat

  /** The yield of a thread that is reading or writing, or that has forks to put down next. */
  predicate Marked(mark: Mark, p: Prog) {
    && p.Yield?
    && match mark
       case Read => At(p) == Reading
       case Write => At(p) == Writing
       case Eat => p.next.Unlock?
  }

  /** The marked operations ahead, if both branches of a choice have as many. */
  function Ahead(p: Prog, mark: Mark): nat {
    match p
    case Done => 0
    case Yield(next) => One(p, mark) + Ahead(next, mark)
    case Lock(_, next) => Ahead(next, mark)
    case TryLock(_, _, no) => Ahead(no, mark)
    case Unlock(_, next) => Ahead(next, mark)
    case SemWait(_, next) => Ahead(next, mark)
    case SemSignal(_, next) => Ahead(next, mark)
    case CvWait(_, _, next) => Ahead(next, mark)
    case CvSignal(_, next) => Ahead(next, mark)
    case CvBroadcast(_, next) => Ahead(next, mark)
    case WaitWhile(_, _, _, next) => Ahead(next, mark)
    case Do(_, next) => Ahead(next, mark)
    case If(_, _, no) => Ahead(no, mark)
  }

  function One(p: Prog, mark: Mark): nat {
    if Marked(mark, p) then 1 else 0
  }

  /** Started with `held`, the program has as many marked operations on both branches of each
      choice, and holds `want` at every one of them. */
  ghost predicate Even(p: Prog, mark: Mark, held: set<nat>, want: set<nat>) {
    match p
    case Done => true
    case Yield(next) => (Marked(mark, p) ==> want <= held) && Even(next, mark, held, want)
    case Lock(m, next) => Even(next, mark, held + {m}, want)
    case TryLock(m, yes, no) =>
      && Ahead(yes, mark) == Ahead(no, mark)
      && Even(yes, mark, held + {m}, want) && (m in held || Even(no, mark, held, want))
    case Unlock(m, next) => Even(next, mark, held - {m}, want)
    case SemWait(_, next) => Even(next, mark, held, want)
    case SemSignal(_, next) => Even(next, mark, held, want)
    case CvWait(_, _, next) => Even(next, mark, held, want)
    case CvSignal(_, next) => Even(next, mark, held, want)
    case CvBroadcast(_, next) => Even(next, mark, held, want)
    case WaitWhile(_, _, _, next) => Even(next, mark, held, want)
    case Do(_, next) => Even(next, mark, held, want)
    case If(_, yes, no) =>
      Ahead(yes, mark) == Ahead(no, mark) && Even(yes, mark, held, want) && Even(no, mark, held, want)
  }

  ghost predicate ThreadEven(s: State, t: int, mark: Mark, want: set<nat>) {
    && t in s.k.states && t in s.k.at && t in s.prog
    && if s.k.states[t] == FINISHED then s.prog[t] == Done
       else Even(s.prog[t], mark, HeldOnReturn(s.k, t), want)
  }

  /** 1 if in this action thread t executes a marked operation, holding `want`. */
  ghost function VisitIn(s: State, a: Action, t: int, mark: Mark, want: set<nat>): nat
    requires Enabled(s, a)
  {
    if a == Run(t) && Marked(mark, s.prog[t]) && want <= Held(s.k, t) then 1 else 0
  }

  ghost function Visits(s: State, acts: seq<Action>, t: int, mark: Mark, want: set<nat>): nat
    requires IsRun(s, acts)
    decreases |acts|
  {
    if acts == [] then 0 else VisitIn(s, acts[0], t, mark, want) + Visits(Next(s, acts[0]), acts[1..], t, mark, want)
  }

  // ---- every marked operation is executed once ----

  lemma CallerHeldNext(s: State, t: int)
    requires Inv(s) && Is(s.k, t, RUNNING) && Inv(Exec(s, t))
    ensures !s.prog[t].Done? ==> HeldOnReturn(Exec(s, t).k, t) == HeldNext(s, t) && !Is(Exec(s, t).k, t, FINISHED)
    ensures s.prog[t].Done? ==> Is(Exec(s, t).k, t, FINISHED)
    ensures HeldOnReturn(s.k, t) == Held(s.k, t)
  {
    hide QueuesOk, OwnersOk, GraphOk, NoLostWakeup;
    if s.prog[t].Lock? || s.prog[t].TryLock? || s.prog[t].Unlock? {
      MutexOpHeld(s, t);
    } else if !s.prog[t].Done? {
      OtherOpHeld(s, t);
    }
  }

  lemma RunVisits(s: State, t: int, mark: Mark, want: set<nat>)
    requires Inv(s) && Is(s.k, t, RUNNING) && Inv(Exec(s, t)) && ThreadEven(s, t, mark, want)
    ensures ThreadEven(Exec(s, t), t, mark, want)
    ensures VisitIn(s, Run(t), t, mark, want) + Ahead(Exec(s, t).prog[t], mark) == Ahead(s.prog[t], mark)
  {
    hide QueuesOk, OwnersOk, GraphOk, NoLostWakeup, Held, Even, Ahead, Exec;
    CallerHeldNext(s, t);
    OneProgramOn(s, t, mark, want);
  }

  lemma OneProgramOn(s: State, t: int, mark: Mark, want: set<nat>)
    requires Is(s.k, t, RUNNING) && t in s.prog && t in s.k.at && s.k.at[t] == Outside
    requires Even(s.prog[t], mark, Held(s.k, t), want)
    ensures t in Exec(s, t).prog && VisitIn(s, Run(t), t, mark, want) + Ahead(Exec(s, t).prog[t], mark) == Ahead(s.prog[t], mark)
    ensures !s.prog[t].Done? ==> Even(Exec(s, t).prog[t], mark, HeldNext(s, t), want)
    ensures s.prog[t].Done? ==> Exec(s, t).prog[t] == Done
  {
    hide Held, Even;
    EvenStep(s.prog[t], mark, Held(s.k, t), want);
    match s.prog[t]
    case TryLock(m, _, _) => TryFails(s.k, t, m);
    case _ =>
  }

  lemma EvenStep(p: Prog, mark: Mark, held: set<nat>, want: set<nat>)
    requires Even(p, mark, held, want)
    ensures Marked(mark, p) ==> want <= held
    ensures p.Lock? ==> Even(p.next, mark, held + {p.m}, want)
    ensures p.TryLock? ==>
              && Ahead(p.yes, mark) == Ahead(p.no, mark)
              && Even(p.yes, mark, held + {p.m}, want) && (p.m in held || Even(p.no, mark, held, want))
    ensures p.Unlock? ==> Even(p.next, mark, held - {p.m}, want)
    ensures p.If? ==> Ahead(p.yes, mark) == Ahead(p.no, mark) && Even(p.yes, mark, held, want) && Even(p.no, mark, held, want)
    ensures !(p.Done? || p.Lock? || p.TryLock? || p.Unlock? || p.If?) ==> Even(p.next, mark, held, want)
  {
  }

  lemma TryFails(k: Kernel, t: int, m: nat)
    ensures m in Held(k, t) ==> TryLockResult(k, t, m)
  {
  }

  lemma OtherThreadSame(s: State, s': State, u: int, t: int, mark: Mark, want: set<nat>)
    requires Inv(s) && Inv(s') && Frame(s.k, s'.k, u) && u != t && ThreadEven(s, t, mark, want)
    requires t in s'.prog && s'.prog[t] == s.prog[t]
    ensures ThreadEven(s', t, mark, want)
  {
    assert Bystander(s.k, s'.k, t);
  }

  lemma ActionVisits(s: State, a: Action, t: int, mark: Mark, want: set<nat>)
    requires Inv(s) && Enabled(s, a) && ThreadEven(s, t, mark, want)
    ensures ThreadEven(Next(s, a), t, mark, want)
    ensures VisitIn(s, a, t, mark, want) + Ahead(Next(s, a).prog[t], mark) == Ahead(s.prog[t], mark)
  {
    hide QueuesOk, OwnersOk, GraphOk, NoLostWakeup, Even, Ahead, Held;
    NextKeeps(s, a);
    match a
    case Begin(u) =>
      ResumeFrame(s.k, u);
      if u != t { OtherThreadSame(s, Next(s, a), u, t, mark, want); } else { BegunHoldsSame(s, t); }
    case Run(u) =>
      ExecFrame(s, u);
      if u != t { OtherThreadSame(s, Next(s, a), u, t, mark, want); } else { RunVisits(s, t, mark, want); }
  }

  lemma BegunHoldsSame(s: State, t: int)
    requires Inv(s) && Enabled(s, Begin(t))
    ensures var k' := Next(s, Begin(t)).k;
            t in k'.at && HeldOnReturn(k', t) == HeldOnReturn(s.k, t) && !Is(k', t, FINISHED)
  {
    hide QueuesOk, OwnersOk, GraphOk, NoLostWakeup;
    ResumeFrame(s.k, t);
  }

  /** Marked operations executed and marked operations ahead add up to those ahead at the start. */
  lemma {:induction false} VisitsAddUp(s: State, acts: seq<Action>, t: int, mark: Mark, want: set<nat>)
    requires Inv(s) && IsRun(s, acts) && ThreadEven(s, t, mark, want)
    ensures ThreadEven(After(s, acts), t, mark, want)
    ensures Visits(s, acts, t, mark, want) + Ahead(After(s, acts).prog[t], mark) == Ahead(s.prog[t], mark)
    decreases |acts|
  {
    hide Inv, ThreadEven, Next, Enabled, Ahead, VisitIn;
    if acts != [] {
      NextKeeps(s, acts[0]);
      ActionVisits(s, acts[0], t, mark, want);
      VisitsAddUp(Next(s, acts[0]), acts[1..], t, mark, want);
    }
  }

  lemma AllVisited(s: State, acts: seq<Action>, t: int, mark: Mark, want: set<nat>)
    requires Initial(s) && IsRun(s, acts) && t in s.prog && Even(s.prog[t], mark, {}, want)
    ensures Is(After(s, acts).k, t, FINISHED) ==> Visits(s, acts, t, mark, want) == Ahead(s.prog[t], mark)
  {
    hide Even;
    InitialInv(s);
    assert Held(s.k, t) == {} && HeldOnReturn(s.k, t) == {};
    VisitsAddUp(s, acts, t, mark, want);
  }

  // ---- readers and writers ----

  lemma LeaveIsEven(r: RwIds, again: Prog, mark: Mark, held: set<nat>)
    requires Even(again, mark, held + {r.countLock} - {r.countLock}, {})
    ensures Even(LeaveAndRest(r, again), mark, held, {}) && Ahead(LeaveAndRest(r, again), mark) == Ahead(again, mark)
  {
    var rest := Unlock(r.countLock, again);
    var inside := held + {r.countLock};
    assert Even(rest, mark, inside, {}) && Ahead(rest, mark) == Ahead(again, mark);
    var signal := SemSignal(r.writeSem, rest);
    assert Even(signal, mark, inside, {}) && Ahead(signal, mark) == Ahead(rest, mark);
    var test := If(VarIs(0), signal, rest);
    assert Even(test, mark, inside, {}) && Ahead(test, mark) == Ahead(rest, mark);
    assert Even(Do(AddVar(-1), test), mark, inside, {}) && Ahead(Do(AddVar(-1), test), mark) == Ahead(test, mark);
  }

  lemma EnterIsEven(r: RwIds, leave: Prog, mark: Mark, held: set<nat>)
    requires Even(leave, mark, held + {r.countLock} - {r.countLock}, {})
    ensures Even(EnterAndRead(r, leave), mark, held, {})
    ensures Ahead(EnterAndRead(r, leave), mark) == One(Yield(leave), mark) + Ahead(leave, mark)
  {
    var open := Unlock(r.countLock, Yield(leave));
    var inside := held + {r.countLock};
    assert Even(Yield(leave), mark, inside - {r.countLock}, {});
    assert Even(open, mark, inside, {}) && Ahead(open, mark) == Ahead(Yield(leave), mark);
    var wait := SemWait(r.writeSem, open);
    assert Even(wait, mark, inside, {}) && Ahead(wait, mark) == Ahead(open, mark);
    var test := If(VarIs(1), wait, open);
    assert Even(test, mark, inside, {}) && Ahead(test, mark) == Ahead(open, mark);
    assert Even(Do(AddVar(1), test), mark, inside, {}) && Ahead(Do(AddVar(1), test), mark) == Ahead(test, mark);
  }

  /** A reader's program has one reading a round, and no writing. */
  lemma {:induction false} ReaderRounds(r: RwIds, rounds: nat, mark: Mark, held: set<nat>)
    requires mark != Eat
    ensures Even(Reader(r, rounds), mark, held, {})
    ensures Ahead(Reader(r, rounds), mark) == if mark == Read then rounds else 0
  {
    if rounds > 0 {
      hide At, RwShape, Even, EnterAndRead, LeaveAndRest;
      ReaderRounds(r, rounds - 1, mark, AfterRound(r, held));
      ReaderHasShape(r, rounds - 1);
      OneRound(r, Reader(r, rounds - 1), mark, held);
    }
  }

  function AfterRound(r: RwIds, held: set<nat>): set<nat> {
    held + {r.countLock} - {r.countLock} + {r.countLock} - {r.countLock}
  }

  lemma OneRound(r: RwIds, next: Prog, mark: Mark, held: set<nat>)
    requires mark != Eat && RwShape(next, r) && (next.Done? || At(next) == Enter)
    requires Even(next, mark, AfterRound(r, held), {})
    ensures var round := EnterAndRead(r, LeaveAndRest(r, Yield(next)));
            Even(round, mark, held, {}) && Ahead(round, mark) == (if mark == Read then 1 else 0) + Ahead(next, mark)
  {
    hide RwShape, Even, Ahead, EnterAndRead, LeaveAndRest;
    var again := Yield(next);
    RestOfRound(r, next, mark, AfterRound(r, held));
    ReaderLeaves(r, again);
    LeaveIsEven(r, again, mark, held + {r.countLock} - {r.countLock});
    var leave := LeaveAndRest(r, again);
    LeavingIsReading(leave);
    EnterIsEven(r, leave, mark, held);
  }

  /** The yield between two rounds. */
  lemma RestOfRound(r: RwIds, next: Prog, mark: Mark, held: set<nat>)
    requires RwShape(next, r) && (next.Done? || At(next) == Enter || At(next) == Ask) && Even(next, mark, held, {})
    requires mark != Eat
    ensures At(Yield(next)) == Rest && RwShape(Yield(next), r)
    ensures Even(Yield(next), mark, held, {}) && Ahead(Yield(next), mark) == Ahead(next, mark)
  {
  }

  lemma LeavingIsReading(leave: Prog)
    requires At(leave) == Leave
    ensures At(Yield(leave)) == Reading
  {
  }

  /** A writer's program has one writing a round, and no reading. */
  lemma {:induction false} WriterRounds(r: RwIds, rounds: nat, mark: Mark, held: set<nat>)
    requires mark != Eat
    ensures Even(Writer(r, rounds), mark, held, {})
    ensures Ahead(Writer(r, rounds), mark) == if mark == Write then rounds else 0
  {
    if rounds > 0 {
      WriterRounds(r, rounds - 1, mark, held);
      WriterHasShape(r, rounds - 1);
      RestOfRound(r, Writer(r, rounds - 1), mark, held);
      WriteThenRest(r, Yield(Writer(r, rounds - 1)), mark, held);
    }
  }

  lemma WriteThenRest(r: RwIds, again: Prog, mark: Mark, held: set<nat>)
    requires At(again) == Rest && Even(again, mark, held, {})
    requires mark != Eat
    ensures var p := SemWait(r.writeSem, Yield(SemSignal(r.writeSem, again)));
            Even(p, mark, held, {}) && Ahead(p, mark) == (if mark == Write then 1 else 0) + Ahead(again, mark)
  {
    var release := SemSignal(r.writeSem, again);
    assert At(release) == Release && Even(release, mark, held, {});
    assert Ahead(release, mark) == Ahead(again, mark);
    var write := Yield(release);
    assert At(write) == Writing && Even(write, mark, held, {});
    assert Ahead(write, mark) == One(write, mark) + Ahead(release, mark);
    assert Ahead(SemWait(r.writeSem, write), mark) == Ahead(write, mark);
  }

  /** When all is at rest, every reader has read as many times as it has rounds, and every writer
      has written as many times; readers never write and writers never read. */
  lemma EveryRoundIsDone(s: State, r: RwIds, acts: seq<Action>, t: int, rounds: nat)
    requires RwStart(s, r) && IsRun(s, acts) && Quiescent(After(s, acts)) && t in s.prog
    ensures s.prog[t] == Reader(r, rounds) ==>
              Visits(s, acts, t, Read, {}) == rounds && Visits(s, acts, t, Write, {}) == 0
    ensures s.prog[t] == Writer(r, rounds) ==>
              Visits(s, acts, t, Write, {}) == rounds && Visits(s, acts, t, Read, {}) == 0
  {
    RoundsDone(s, r, acts, t, rounds, Read);
    RoundsDone(s, r, acts, t, rounds, Write);
  }

  lemma RoundsDone(s: State, r: RwIds, acts: seq<Action>, t: int, rounds: nat, mark: Mark)
    requires RwStart(s, r) && IsRun(s, acts) && Quiescent(After(s, acts)) && t in s.prog && mark != Eat
    ensures s.prog[t] == Reader(r, rounds) ==> Visits(s, acts, t, mark, {}) == if mark == Read then rounds else 0
    ensures s.prog[t] == Writer(r, rounds) ==> Visits(s, acts, t, mark, {}) == if mark == Write then rounds else 0
  {
    hide Reader, Writer, RwStart, IsRun, After, Visits, Even, Ahead;
    AllAtRest(s, r, acts, t);
    ReaderRounds(r, rounds, mark, {});
    WriterRounds(r, rounds, mark, {});
    if s.prog[t] == Reader(r, rounds) || s.prog[t] == Writer(r, rounds) { AllVisited(s, acts, t, mark, {}); }
  }

  lemma AllAtRest(s: State, r: RwIds, acts: seq<Action>, t: int)
    requires RwStart(s, r) && IsRun(s, acts) && Quiescent(After(s, acts)) && t in s.prog
    ensures Initial(s) && Is(After(s, acts).k, t, FINISHED)
  {
    ReadersAndWritersFinish(s, r, acts);
    SameThreads(s, acts);
  }

  lemma SameThreads(s: State, acts: seq<Action>)
    requires Initial(s) && IsRun(s, acts)
    ensures After(s, acts).k.states.Keys == s.k.states.Keys
  {
    InitialInv(s);
    RunKeepsThreads(s, acts);
  }

  lemma {:induction false} RunKeepsThreads(s: State, acts: seq<Action>)
    requires Inv(s) && IsRun(s, acts)
    ensures After(s, acts).k.states.Keys == s.k.states.Keys
    decreases |acts|
  {
    hide KernelInv, Bystander;
    if acts != [] {
      var a := acts[0];
      NextKeeps(s, a);
      if a.Begin? { ResumeFrame(s.k, a.t); } else { ExecFrame(s, a.t); }
      RunKeepsThreads(Next(s, a), acts[1..]);
    }
  }

  // ---- philosophers ----

  /** The left and the right fork of philosopher t - 1. */
  function Forks(t: int, n: nat, fork0: nat): set<nat>
    requires 1 <= t <= n
  {
    {fork0 + t - 1, fork0 + t % n}
  }

  lemma PhilosopherEatsOnce(t: int, n: nat, fork0: nat)
    requires 1 <= t <= n
    ensures Even(Philosopher(t - 1, n, fork0), Eat, {}, Forks(t, n, fork0)) && Ahead(Philosopher(t - 1, n, fork0), Eat) == 1
  {
    var left, right, want := t - 1, t % n, Forks(t, n, fork0);
    var first, second := fork0 + if left < right then left else right, fork0 + if left < right then right else left;
    var none: set<nat> := {};
    var both := none + {first} + {second};
    assert want <= both;
    assert Ahead(Done, Eat) == 0;
    var last := Unlock(first, Done);
    var after := Unlock(second, last);
    assert Even(Done, Eat, both - {second} - {first}, want);
    assert Even(last, Eat, both - {second}, want);
    assert Ahead(last, Eat) == Ahead(Done, Eat);
    assert Even(after, Eat, both, want) && Ahead(after, Eat) == 0;
    var meal := Yield(after);
    assert Even(meal, Eat, both, want) && Ahead(meal, Eat) == 1;
    var ask := Lock(second, meal);
    assert Even(ask, Eat, none + {first}, want) && Ahead(ask, Eat) == 1;
    assert Even(Yield(ask), Eat, none + {first}, want) && Ahead(Yield(ask), Eat) == 1;
    assert !Marked(Eat, Yield(ask));
    var sit := Lock(first, Yield(ask));
    assert Even(sit, Eat, none, want) && Ahead(sit, Eat) == 1;
    assert Philosopher(t - 1, n, fork0) == Yield(sit);
  }

  /** When all is at rest, every philosopher has eaten exactly once, holding its left and its
      right fork, which then nobody else holds. */
  lemma EveryPhilosopherEats(s: State, n: nat, fork0: nat, acts: seq<Action>, t: int)
    requires Dinner(s, n, fork0) && IsRun(s, acts) && Quiescent(After(s, acts)) && 1 <= t <= n
    ensures Visits(s, acts, t, Eat, Forks(t, n, fork0)) == 1
  {
    hide Philosopher, IsRun, After, Visits, Even, Ahead;
    PhilosophersAllEat(s, n, fork0, acts);
    SameThreads(s, acts);
    PhilosopherEatsOnce(t, n, fork0);
    AllVisited(s, acts, t, Eat, Forks(t, n, fork0));
  }

  lemma ForksAreExclusive(k: Kernel, t: int, u: int)
    requires t != u
    ensures Held(k, t) !! Held(k, u)
  {
  }
}
