/** The readers and writers of test/test_main.cpp: a count guarded by a mutex, and a binary
    semaphore taken by each writer and by the group of readers as a whole. */
module ReadersWriters {
  import opened Collections
  import opened Kernel
  import opened KernelFrame
  import opened Machine
  import opened Termination
  import opened Deadlock
  import opened Semaphores

  datatype RwIds = RwIds(countLock: nat, writeSem: nat)

  /** A reader's way in, and what follows its reading. */
  function EnterAndRead(r: RwIds, leave: Prog): Prog {
    var open := Unlock(r.countLock, Yield(leave));
    Lock(r.countLock, Do(AddVar(1), If(VarIs(1), SemWait(r.writeSem, open), open)))
  }

  /** A reader's way out, and what follows. */
  function LeaveAndRest(r: RwIds, again: Prog): Prog {
    var rest := Unlock(r.countLock, again);
    Lock(r.countLock, Do(AddVar(-1), If(VarIs(0), SemSignal(r.writeSem, rest), rest)))
  }

  /** readerThread with `rounds` rounds to go; the shared integer is the reader count. */
  function Reader(r: RwIds, rounds: nat): Prog {
    if rounds == 0 then Done
    else EnterAndRead(r, LeaveAndRest(r, Yield(Reader(r, rounds - 1))))
  }

  /** writerThread with `rounds` rounds to go. */
  function Writer(r: RwIds, rounds: nat): Prog {
    if rounds == 0 then Done
    else SemWait(r.writeSem, Yield(SemSignal(r.writeSem, Yield(Writer(r, rounds - 1)))))
  }

  /** The next thing a thread will do, told from the operations ahead of it. */
  datatype Point =
    | Enter | Count1 | Test1 | Wait1 | Open | Reading | Leave | Count0 | Test0 | Signal0 | Close
    | Ask | Writing | Release | Rest

  function At(p: Prog): Point {
    match p
    case Lock(_, next) => if At(next) == Count1 then Enter else Leave
    case Do(a, _) => if a == AddVar(1) then Count1 else Count0
    case If(g, _, _) => if g == VarIs(1) then Test1 else Test0
    case SemWait(_, next) => if At(next) == Open then Wait1 else Ask
    case SemSignal(_, next) => if At(next) == Close then Signal0 else Release
    case Unlock(_, next) => if At(next) == Reading then Open else Close
    case Yield(next) =>
      (match At(next)
       case Leave => Reading
       case Release => Writing
       case _ => Rest)
    case _ => Rest
  }

  /** Each operation is followed by the one readerThread or writerThread has there. */
  predicate RwShape(p: Prog, r: RwIds) {
    match p
    case Done => true
    case Lock(m, next) => m == r.countLock && RwShape(next, r) && (At(next) == Count1 || At(next) == Count0)
    case Do(a, next) =>
      RwShape(next, r) && ((a == AddVar(1) && At(next) == Test1) || (a == AddVar(-1) && At(next) == Test0))
    case If(g, yes, no) =>
      && RwShape(yes, r) && RwShape(no, r)
      && ((g == VarIs(1) && At(yes) == Wait1 && At(no) == Open) || (g == VarIs(0) && At(yes) == Signal0 && At(no) == Close))
    case SemWait(i, next) => i == r.writeSem && RwShape(next, r) && (At(next) == Open || At(next) == Writing)
    case SemSignal(i, next) => i == r.writeSem && RwShape(next, r) && (At(next) == Close || (next.Yield? && At(next) == Rest))
    case Unlock(m, next) => m == r.countLock && RwShape(next, r) && (At(next) == Reading || (next.Yield? && At(next) == Rest))
    case Yield(next) => RwShape(next, r) && (next.Done? || At(next) in {Enter, Leave, Ask, Release})
    case _ => false
  }

  lemma ReaderLeaves(r: RwIds, again: Prog)
    requires again.Yield? && At(again) == Rest && RwShape(again, r)
    ensures At(LeaveAndRest(r, again)) == Leave && RwShape(LeaveAndRest(r, again), r)
  {
    var rest := Unlock(r.countLock, again);
    assert At(rest) == Close && RwShape(rest, r);
    var test := If(VarIs(0), SemSignal(r.writeSem, rest), rest);
    assert At(test.yes) == Signal0 && RwShape(test.yes, r);
    assert RwShape(test, r);
    var leave := Lock(r.countLock, Do(AddVar(-1), test));
    assert At(leave.next) == Count0 && RwShape(leave.next, r);
  }

  lemma ReaderEnters(r: RwIds, leave: Prog)
    requires At(leave) == Leave && RwShape(leave, r)
    ensures At(EnterAndRead(r, leave)) == Enter && RwShape(EnterAndRead(r, leave), r)
  {
    var open := Unlock(r.countLock, Yield(leave));
    assert At(open.next) == Reading && RwShape(open.next, r) && At(open) == Open && RwShape(open, r);
    var test := If(VarIs(1), SemWait(r.writeSem, open), open);
    assert At(test.yes) == Wait1 && RwShape(test.yes, r);
    assert RwShape(test, r) && RwShape(Do(AddVar(1), test), r);
  }

  lemma {:induction false} ReaderHasShape(r: RwIds, rounds: nat)
    ensures RwShape(Reader(r, rounds), r)
    ensures Reader(r, rounds).Done? || At(Reader(r, rounds)) == Enter
  {
    if rounds > 0 {
      ReaderHasShape(r, rounds - 1);
      var again := Yield(Reader(r, rounds - 1));
      assert At(again) == Rest && RwShape(again, r);
      hide At, RwShape;
      ReaderLeaves(r, again);
      ReaderEnters(r, LeaveAndRest(r, again));
    }
  }

  lemma {:induction false} WriterHasShape(r: RwIds, rounds: nat)
    ensures RwShape(Writer(r, rounds), r)
    ensures Writer(r, rounds).Done? || At(Writer(r, rounds)) == Ask
  {
    if rounds > 0 {
      WriterHasShape(r, rounds - 1);
      var again := Yield(Writer(r, rounds - 1));
      assert At(again) == Rest && RwShape(again, r);
      var release := SemSignal(r.writeSem, again);
      assert At(release) == Release && RwShape(release, r);
      assert At(Yield(release)) == Writing && RwShape(Yield(release), r);
    }
  }

  // ---- where each thread is in the protocol ----

  datatype Stage = Away | Counting | Testing1 | Waiting1 | Opening | Inside | Discounting | Testing0 | Signalling0 | Closing | Owning

  /** The stage of a thread suspended at w with p to go. A thread suspended inside a primitive
      has p still ahead of it once the primitive returns. */
  function StageOf(w: Where, p: Prog): Stage {
    match w
    case InLock(_) => if At(p) == Count0 then Inside else Away
    case InSem(_) => if At(p) == Open then Waiting1 else Away
    case _ =>
      match At(p)
      case Count1 => Counting
      case Test1 => Testing1
      case Wait1 => Waiting1
      case Open => Opening
      case Reading => Inside
      case Leave => Inside
      case Count0 => Discounting
      case Test0 => Testing0
      case Signal0 => Signalling0
      case Close => Closing
      case Writing => Owning
      case Release => Owning
      case _ => Away
  }

  /** Stages with the count mutex held. */
  predicate Holding(g: Stage) {
    g != Away && g != Inside && g != Owning
  }

  /** Stages of the readers that the count includes. */
  predicate Counted(g: Stage) {
    g == Testing1 || g == Waiting1 || g == Opening || g == Inside || g == Discounting
  }

  function Stages(s: State): map<int, Stage>
    requires s.k.at.Keys == s.prog.Keys
  {
    map t | t in s.prog :: StageOf(s.k.at[t], s.prog[t])
  }

  function CountedSet(g: map<int, Stage>): set<int> {
    set t | t in g && Counted(g[t])
  }

  function OwningSet(g: map<int, Stage>): set<int> {
    set t | t in g && g[t] == Owning
  }

  /** 1 while the readers as a group have the semaphore, judged by the stage of the mutex holder. */
  function GroupToken(holder: Stage, v: int): nat {
    match holder
    case Waiting1 => 0
    case Testing1 => if v == 1 then 0 else 1
    case Signalling0 => 1
    case Testing0 => 1
    case _ => if 1 <= v then 1 else 0
  }

  function HolderStage(g: map<int, Stage>, owner: int): Stage {
    if owner in g then g[owner] else Away
  }

  /** The protocol's bookkeeping, over the stages alone. */
  ghost predicate Books(g: map<int, Stage>, owner: int, v: int, count: nat) {
    && (owner != NoOwner ==> owner in g)
    && (forall t :: t in g ==> 0 <= t && (Holding(g[t]) <==> t == owner))
    && v == |CountedSet(g)|
    && (HolderStage(g, owner) == Waiting1 ==> v == 1)
    && (HolderStage(g, owner) == Signalling0 ==> v == 0)
    && count + |OwningSet(g)| + GroupToken(HolderStage(g, owner), v) == 1
  }

  lemma OneElementMoves(a: set<int>, b: set<int>, t: int)
    requires forall u :: u != t ==> (u in a <==> u in b)
    ensures |a| + (if t in b then 1 else 0) == |b| + (if t in a then 1 else 0)
  {
    var rest := a - {t};
    assert forall u :: u in rest <==> u in b - {t};
    assert rest == b - {t};
    assert |rest| == |a| - (if t in a then 1 else 0);
    assert |rest| == |b| - (if t in b then 1 else 0);
  }

  lemma MoveCounted(g: map<int, Stage>, t: int, b: Stage)
    requires t in g
    ensures |CountedSet(g[t := b])| + (if Counted(g[t]) then 1 else 0) == |CountedSet(g)| + (if Counted(b) then 1 else 0)
    ensures |OwningSet(g[t := b])| + (if g[t] == Owning then 1 else 0) == |OwningSet(g)| + (if b == Owning then 1 else 0)
  {
    OneElementMoves(CountedSet(g[t := b]), CountedSet(g), t);
    OneElementMoves(OwningSet(g[t := b]), OwningSet(g), t);
  }

  /** One thread moves from stage to stage; these are all the moves of the two programs. */
  ghost predicate Move(a: Stage, b: Stage, t: int, owner: int, owner': int, v: int, v': int, count: nat, count': nat) {
    match (a, b)
    case (Away, Counting) => owner == NoOwner && owner' == t && v' == v && count' == count
    case (Counting, Testing1) => owner' == owner && v' == v + 1 && count' == count
    case (Testing1, Waiting1) => owner' == owner && v == 1 && v' == v && count' == count
    case (Testing1, Opening) => owner' == owner && v != 1 && v' == v && count' == count
    case (Waiting1, Opening) => owner' == owner && v' == v && count > 0 && count' == count - 1
    case (Opening, Inside) => owner' == NoOwner && v' == v && count' == count
    case (Inside, Discounting) => owner == NoOwner && owner' == t && v' == v && count' == count
    case (Discounting, Testing0) => owner' == owner && v' == v - 1 && count' == count
    case (Testing0, Signalling0) => owner' == owner && v == 0 && v' == v && count' == count
    case (Testing0, Closing) => owner' == owner && v != 0 && v' == v && count' == count
    case (Signalling0, Closing) => owner' == owner && v' == v && count' == count + 1
    case (Closing, Away) => owner' == NoOwner && v' == v && count' == count
    case (Away, Owning) => owner' == owner && v' == v && count > 0 && count' == count - 1
    case (Owning, Away) => owner' == owner && v' == v && count' == count + 1
    case _ => a == b && owner' == owner && v' == v && count' == count
  }

  lemma MoveKeepsBooks(g: map<int, Stage>, t: int, b: Stage, owner: int, owner': int, v: int, v': int, count: nat, count': nat)
    requires Books(g, owner, v, count) && t in g && t != NoOwner
    requires Move(g[t], b, t, owner, owner', v, v', count, count')
    ensures Books(g[t := b], owner', v', count')
  {
    MoveCounted(g, t, b);
    var h := g[t := b];
    assert Holding(g[t]) <==> t == owner;
    assert v' == |CountedSet(h)|;
    if t == owner {
      assert HolderStage(g, owner) == g[t];
    } else {
      assert HolderStage(h, owner) == HolderStage(g, owner);
    }
    assert forall u :: u in h ==> (Holding(h[u]) <==> u == owner');
    if Counted(g[t]) { assert t in CountedSet(g); }
    if Counted(b) { assert t in CountedSet(h); }
  }

  // ---- the protocol on the machine ----

  ghost predicate RwThreadOk(s: State, r: RwIds, t: int)
    requires t in s.k.states && t in s.k.at && t in s.prog
  {
    var p := s.prog[t];
    && RwShape(p, r)
    && (s.k.states[t] == FINISHED ==> p == Done)
    && match s.k.at[t]
       case Outside => true
       case InLock(m) => m == r.countLock && (At(p) == Count1 || At(p) == Count0)
       case InSem(i) => i == r.writeSem && (At(p) == Open || At(p) == Writing)
       case InCv(_, _) => false
  }

  ghost predicate RwInv(s: State, r: RwIds) {
    && Inv(s)
    && (forall t :: t in s.k.states ==> RwThreadOk(s, r, t))
    && Books(Stages(s), Owner(s.k, r.countLock), s.mem.v, Count(s.k, r.writeSem))
  }

  /** What the acting thread has to show for itself. */
  ghost predicate Acted(s: State, s': State, r: RwIds, t: int) {
    && t in s.k.states && t in s'.k.states && t in s.k.at && t in s'.k.at && t in s.prog && t in s'.prog
    && Frame(s.k, s'.k, t)
    && (Is(s.k, t, RUNNING) || NobodyRuns(s.k))
    && (forall u :: u in s.prog && u != t ==> u in s'.prog && s'.prog[u] == s.prog[u])
    && RwThreadOk(s', r, t)
    && Move(StageOf(s.k.at[t], s.prog[t]), StageOf(s'.k.at[t], s'.prog[t]), t,
            Owner(s.k, r.countLock), Owner(s'.k, r.countLock),
            s.mem.v, s'.mem.v, Count(s.k, r.writeSem), Count(s'.k, r.writeSem))
  }

  lemma BystanderOk(s: State, s': State, r: RwIds, t: int, u: int)
    requires Frame(s.k, s'.k, t) && u in s.k.states && u != t
    requires u in s.prog && u in s'.prog && s'.prog[u] == s.prog[u] && !Is(s.k, u, RUNNING)
    requires RwThreadOk(s, r, u)
    ensures RwThreadOk(s', r, u)
    ensures StageOf(s'.k.at[u], s'.prog[u]) == StageOf(s.k.at[u], s.prog[u])
  {
    assert Bystander(s.k, s'.k, u);
  }

  lemma StagesAfter(s: State, s': State, r: RwIds, t: int)
    requires RwInv(s, r) && Inv(s') && Acted(s, s', r, t)
    ensures Stages(s') == Stages(s)[t := StageOf(s'.k.at[t], s'.prog[t])]
    ensures forall u :: u in s'.k.states ==> RwThreadOk(s', r, u)
  {
    forall u | u in s.k.states && u != t
      ensures RwThreadOk(s', r, u) && StageOf(s'.k.at[u], s'.prog[u]) == StageOf(s.k.at[u], s.prog[u])
    {
      BystanderOk(s, s', r, t, u);
    }
    SameStages(Stages(s)[t := StageOf(s'.k.at[t], s'.prog[t])], Stages(s'));
  }

  /** It is enough to follow the thread that acts. */
  lemma ActorDecides(s: State, s': State, r: RwIds, t: int)
    requires RwInv(s, r) && Inv(s') && Acted(s, s', r, t)
    ensures RwInv(s', r)
  {
    StagesAfter(s, s', r, t);
    MoveKeepsBooks(Stages(s), t, StageOf(s'.k.at[t], s'.prog[t]), Owner(s.k, r.countLock), Owner(s'.k, r.countLock),
                   s.mem.v, s'.mem.v, Count(s.k, r.writeSem), Count(s'.k, r.writeSem));
  }

  lemma SameStages(g: map<int, Stage>, h: map<int, Stage>)
    requires g.Keys == h.Keys && forall t :: t in g ==> h[t] == g[t]
    ensures g == h
  {
    assert forall t :: t in g ==> g[t] == h[t];
  }

  // ---- the moves, program by program ----

  /** Taking the count mutex is a move when it is free; waiting for it changes no stage. */
  lemma LockMoves(p: Prog, r: RwIds, t: int, v: int, c: nat)
    requires RwShape(p, r) && p.Lock?
    ensures RwShape(p.next, r) && (At(p.next) == Count1 || At(p.next) == Count0)
    ensures StageOf(InLock(p.m), p.next) == StageOf(Outside, p)
    ensures Move(StageOf(Outside, p), StageOf(Outside, p.next), t, NoOwner, t, v, v, c, c)
  {
  }

  lemma UnlockMoves(p: Prog, r: RwIds, t: int, owner: int, v: int, c: nat)
    requires RwShape(p, r) && p.Unlock?
    ensures RwShape(p.next, r) && Holding(StageOf(Outside, p))
    ensures Move(StageOf(Outside, p), StageOf(Outside, p.next), t, owner, NoOwner, v, v, c, c)
  {
  }

  lemma SemWaitMoves(p: Prog, r: RwIds, t: int, owner: int, v: int, c: nat)
    requires RwShape(p, r) && p.SemWait?
    ensures RwShape(p.next, r) && (At(p.next) == Open || At(p.next) == Writing)
    ensures StageOf(InSem(p.s), p.next) == StageOf(Outside, p)
    ensures c > 0 ==> Move(StageOf(Outside, p), StageOf(Outside, p.next), t, owner, owner, v, v, c, c - 1)
  {
  }

  lemma SemSignalMoves(p: Prog, r: RwIds, t: int, owner: int, v: int, c: nat)
    requires RwShape(p, r) && p.SemSignal?
    ensures RwShape(p.next, r)
    ensures Move(StageOf(Outside, p), StageOf(Outside, p.next), t, owner, owner, v, v, c, c + 1)
  {
  }

  lemma YieldMoves(p: Prog, r: RwIds, t: int, owner: int, v: int, c: nat)
    requires RwShape(p, r) && p.Yield?
    ensures RwShape(p.next, r)
    ensures Move(StageOf(Outside, p), StageOf(Outside, p.next), t, owner, owner, v, v, c, c)
  {
  }

  lemma DoMoves(p: Prog, r: RwIds, t: int, owner: int, mem: Memory, c: nat)
    requires RwShape(p, r) && p.Do?
    ensures RwShape(p.next, r)
    ensures Move(StageOf(Outside, p), StageOf(Outside, p.next), t, owner, owner, mem.v, Perform(p.a, mem).v, c, c)
  {
  }

  lemma IfMoves(p: Prog, r: RwIds, t: int, owner: int, mem: Memory, c: nat)
    requires RwShape(p, r) && p.If?
    ensures var q := if Holds(p.g, mem) then p.yes else p.no;
            RwShape(q, r) && Move(StageOf(Outside, p), StageOf(Outside, q), t, owner, owner, mem.v, mem.v, c, c)
  {
  }

  /** A thread suspended in lock() or wait() moves exactly as one that did not have to wait. */
  lemma WakeMoves(w: Where, p: Prog, r: RwIds, t: int, owner: int, v: int, c: nat)
    requires RwShape(p, r)
    ensures w.InLock? && (At(p) == Count1 || At(p) == Count0) ==>
              Move(StageOf(w, p), StageOf(Outside, p), t, NoOwner, t, v, v, c, c)
    ensures w.InSem? && (At(p) == Open || At(p) == Writing) && c > 0 ==>
              Move(StageOf(w, p), StageOf(Outside, p), t, owner, owner, v, v, c, c - 1)
  {
  }

  lemma StayingPut(a: Stage, t: int, owner: int, v: int, c: nat)
    requires a == Away || a == Waiting1 || a == Inside
    ensures Move(a, a, t, owner, owner, v, v, c, c)
  {
  }

  // ---- the steps ----

  /** What a resumption does to the owner of a mutex and the count of a semaphore. */
  lemma ResumeBooks(k: Kernel, t: int, m: nat, i: nat)
    requires Is(k, t, READY) && t in k.at && !k.at[t].InCv?
    ensures Owner(Resume(k, t), m) == if k.at[t] == InLock(m) && Owner(k, m) == NoOwner then t else Owner(k, m)
    ensures Count(Resume(k, t), i) == if k.at[t] == InSem(i) && Count(k, i) > 0 then Count(k, i) - 1 else Count(k, i)
  {
  }

  lemma BeginMoves(s: State, r: RwIds, t: int)
    requires Inv(s) && Enabled(s, Begin(t)) && RwThreadOk(s, r, t)
    ensures Acted(s, Next(s, Begin(t)), r, t)
  {
    ResumeFrame(s.k, t);
    ResumeBooks(s.k, t, r.countLock, r.writeSem);
    WakeMoves(s.k.at[t], s.prog[t], r, t, Owner(s.k, r.countLock), s.mem.v, Count(s.k, r.writeSem));
  }

  lemma LockActs(s: State, r: RwIds, t: int)
    requires Inv(s) && Is(s.k, t, RUNNING) && s.prog[t].Lock? && RwThreadOk(s, r, t)
    requires Owner(s.k, r.countLock) != t
    ensures Acted(s, Exec(s, t), r, t)
  {
    ExecFrame(s, t);
    LockMoves(s.prog[t], r, t, s.mem.v, Count(s.k, r.writeSem));
    LockLoopFrame(s.k, t, r.countLock);
    LockBooks(s.k, t, r.countLock);
    StayingPut(StageOf(Outside, s.prog[t]), t, Owner(s.k, r.countLock), s.mem.v, Count(s.k, r.writeSem));
  }

  lemma LockBooks(k: Kernel, t: int, m: nat)
    requires Is(k, t, RUNNING)
    ensures LockLoop(k, t, m).count == k.count
    ensures Owner(LockLoop(k, t, m), m) == if Owner(k, m) == NoOwner then t else Owner(k, m)
  {
  }

  lemma UnlockActs(s: State, r: RwIds, t: int)
    requires Inv(s) && Is(s.k, t, RUNNING) && s.prog[t].Unlock? && RwThreadOk(s, r, t)
    requires Owner(s.k, r.countLock) == t
    ensures Acted(s, Exec(s, t), r, t)
  {
    ExecFrame(s, t);
    UnlockMoves(s.prog[t], r, t, Owner(s.k, r.countLock), s.mem.v, Count(s.k, r.writeSem));
    UnlockFrame(s.k, t, r.countLock);
    UnlockBooks(s.k, t, r.countLock);
  }

  lemma UnlockBooks(k: Kernel, t: int, m: nat)
    requires Owner(k, m) == t
    ensures Owner(UnlockCall(k, t, m), m) == NoOwner && UnlockCall(k, t, m).count == k.count
  {
  }

  lemma SemWaitActs(s: State, r: RwIds, t: int)
    requires Inv(s) && Is(s.k, t, RUNNING) && s.prog[t].SemWait? && RwThreadOk(s, r, t)
    ensures Acted(s, Exec(s, t), r, t)
  {
    ExecFrame(s, t);
    SemWaitMoves(s.prog[t], r, t, Owner(s.k, r.countLock), s.mem.v, Count(s.k, r.writeSem));
    SemLoopFrame(s.k, t, r.writeSem);
    SemLoopBooks(s.k, t, r.countLock, r.writeSem);
    StayingPut(StageOf(Outside, s.prog[t]), t, Owner(s.k, r.countLock), s.mem.v, Count(s.k, r.writeSem));
  }

  lemma SemLoopBooks(k: Kernel, t: int, m: nat, i: nat)
    requires Is(k, t, RUNNING)
    ensures Owner(SemLoop(k, t, i), m) == Owner(k, m)
    ensures Count(SemLoop(k, t, i), i) == if Count(k, i) > 0 then Count(k, i) - 1 else Count(k, i)
  {
  }

  lemma SemSignalActs(s: State, r: RwIds, t: int)
    requires Inv(s) && Is(s.k, t, RUNNING) && s.prog[t].SemSignal? && RwThreadOk(s, r, t)
    ensures Acted(s, Exec(s, t), r, t)
  {
    ExecFrame(s, t);
    SemSignalMoves(s.prog[t], r, t, Owner(s.k, r.countLock), s.mem.v, Count(s.k, r.writeSem));
    SemSignalFrame(s.k, t, r.writeSem);
    SemSignalBooks(s.k, r.countLock, r.writeSem);
  }

  lemma SemSignalBooks(k: Kernel, m: nat, i: nat)
    ensures Owner(SemSignalCall(k, i), m) == Owner(k, m) && Count(SemSignalCall(k, i), i) == Count(k, i) + 1
  {
  }

  lemma DataStepActs(s: State, r: RwIds, t: int)
    requires Inv(s) && Is(s.k, t, RUNNING) && RwThreadOk(s, r, t)
    requires s.prog[t].Do? || s.prog[t].If?
    ensures Acted(s, Exec(s, t), r, t)
  {
    ExecFrame(s, t);
    if s.prog[t].Do? {
      DoMoves(s.prog[t], r, t, Owner(s.k, r.countLock), s.mem, Count(s.k, r.writeSem));
    } else {
      IfMoves(s.prog[t], r, t, Owner(s.k, r.countLock), s.mem, Count(s.k, r.writeSem));
    }
  }

  lemma SwitchActs(s: State, r: RwIds, t: int)
    requires Inv(s) && Is(s.k, t, RUNNING) && RwThreadOk(s, r, t)
    requires s.prog[t].Done? || s.prog[t].Yield?
    ensures Acted(s, Exec(s, t), r, t)
  {
    ExecFrame(s, t);
    if s.prog[t].Yield? {
      YieldMoves(s.prog[t], r, t, Owner(s.k, r.countLock), s.mem.v, Count(s.k, r.writeSem));
    } else {
      StayingPut(Away, t, Owner(s.k, r.countLock), s.mem.v, Count(s.k, r.writeSem));
    }
  }

  lemma NextActs(s: State, r: RwIds, a: Action)
    requires Inv(s) && Enabled(s, a) && a.t in s.k.states && RwThreadOk(s, r, a.t)
    requires Holding(StageOf(s.k.at[a.t], s.prog[a.t])) <==> a.t == Owner(s.k, r.countLock)
    ensures Acted(s, Next(s, a), r, a.t)
  {
    match a
    case Begin(t) => BeginMoves(s, r, t);
    case Run(t) =>
      match s.prog[t]
      case Lock(_, _) => LockMoves(s.prog[t], r, t, s.mem.v, 0); LockActs(s, r, t);
      case Unlock(_, _) => UnlockMoves(s.prog[t], r, t, t, s.mem.v, 0); UnlockActs(s, r, t);
      case SemWait(_, _) => SemWaitActs(s, r, t);
      case SemSignal(_, _) => SemSignalActs(s, r, t);
      case Do(_, _) => DataStepActs(s, r, t);
      case If(_, _, _) => DataStepActs(s, r, t);
      case _ => SwitchActs(s, r, t);
  }

  lemma NextKeepsRw(s: State, r: RwIds, a: Action)
    requires RwInv(s, r) && Enabled(s, a)
    ensures RwInv(Next(s, a), r)
  {
    assert RwThreadOk(s, r, a.t);
    assert Stages(s)[a.t] == StageOf(s.k.at[a.t], s.prog[a.t]);
    NextActs(s, r, a);
    NextKeeps(s, a);
    ActorDecides(s, Next(s, a), r, a.t);
  }

  // ---- what the protocol is for ----

  /** Suspended between the two halves of its round, that is, reading. */
  ghost predicate IsReading(s: State, t: int) {
    t in s.k.at && t in s.prog && s.k.at[t] == Outside && (At(s.prog[t]) == Reading || At(s.prog[t]) == Leave)
  }

  ghost predicate IsWriting(s: State, t: int) {
    t in s.k.at && t in s.prog && s.k.at[t] == Outside && (At(s.prog[t]) == Writing || At(s.prog[t]) == Release)
  }

  /** While somebody reads, the readers as a group have the semaphore. */
  lemma ReaderHasToken(s: State, r: RwIds, u: int)
    requires RwInv(s, r) && IsReading(s, u)
    ensures GroupToken(HolderStage(Stages(s), Owner(s.k, r.countLock)), s.mem.v) == 1
  {
    var g, owner := Stages(s), Owner(s.k, r.countLock);
    assert g[u] == Inside && u in CountedSet(g);
    assert u != owner by { assert Holding(g[u]) <==> u == owner; }
    AtLeastOne(CountedSet(g), u);
    if owner in g && (g[owner] == Testing1 || g[owner] == Waiting1) {
      assert owner in CountedSet(g);
      PairSize(CountedSet(g), u, owner);
    }
  }

  /** Readers and writers exclude each other, and writers exclude each other. */
  lemma Exclusion(s: State, r: RwIds, t: int, u: int)
    requires RwInv(s, r) && IsWriting(s, t) && t != u
    ensures !IsWriting(s, u) && !IsReading(s, u)
  {
    var g := Stages(s);
    assert t in OwningSet(g);
    AtLeastOne(OwningSet(g), t);
    if IsWriting(s, u) {
      assert u in OwningSet(g);
      PairSize(OwningSet(g), t, u);
      assert false;
    }
    if IsReading(s, u) {
      ReaderHasToken(s, r, u);
      assert false;
    }
  }

  lemma AtLeastOne(a: set<int>, x: int)
    requires x in a
    ensures |a| >= 1
  {
  }

  lemma PairSize(a: set<int>, x: int, y: int)
    requires x in a && y in a && x != y
    ensures |a| >= 2
  {
    SubsetSize({x, y}, a);
  }

  /** Any number of readers and writers, each with any number of rounds. */
  ghost predicate RwStart(s: State, r: RwIds) {
    && Initial(s) && s.mem.v == 0 && Count(s.k, r.writeSem) == 1
    && (forall t :: t in s.prog ==> exists n: nat :: s.prog[t] == Reader(r, n) || s.prog[t] == Writer(r, n))
  }

  lemma StartStage(s: State, r: RwIds, t: int)
    requires RwStart(s, r) && t in s.prog
    ensures RwThreadOk(s, r, t) && StageOf(s.k.at[t], s.prog[t]) == Away
    ensures s.prog[t] == Done || At(s.prog[t]) == Enter || At(s.prog[t]) == Ask
  {
    hide Reader, Writer, RwShape;
    var n: nat :| s.prog[t] == Reader(r, n) || s.prog[t] == Writer(r, n);
    ReaderHasShape(r, n);
    WriterHasShape(r, n);
  }

  lemma RwStartInv(s: State, r: RwIds)
    requires RwStart(s, r)
    ensures RwInv(s, r)
  {
    InitialInv(s);
    forall t | t in s.prog
      ensures RwThreadOk(s, r, t) && Stages(s)[t] == Away
    {
      StartStage(s, r, t);
    }
    assert forall t :: t !in CountedSet(Stages(s)) && t !in OwningSet(Stages(s));
    assert CountedSet(Stages(s)) == {};
    assert OwningSet(Stages(s)) == {};
  }

  lemma {:induction false} RunKeepsRw(s: State, r: RwIds, acts: seq<Action>)
    requires RwInv(s, r) && IsRun(s, acts)
    ensures RwInv(After(s, acts), r)
    decreases |acts|
  {
    if acts != [] {
      NextKeepsRw(s, r, acts[0]);
      RunKeepsRw(Next(s, acts[0]), r, acts[1..]);
    }
  }

  // ---- completion ----

  /** These programs have no wait loops. */
  lemma {:induction false} RwShapeOwnsItsWaits(p: Prog, r: RwIds, held: set<nat>)
    requires RwShape(p, r)
    ensures Obeys(WaitOwning, p, held)
  {
    match p
    case Done =>
    case Yield(next) => RwShapeOwnsItsWaits(next, r, held);
    case Lock(m, next) => RwShapeOwnsItsWaits(next, r, held + {m});
    case Do(_, next) => RwShapeOwnsItsWaits(next, r, held);
    case If(_, yes, no) => RwShapeOwnsItsWaits(yes, r, held); RwShapeOwnsItsWaits(no, r, held);
    case SemWait(_, next) => RwShapeOwnsItsWaits(next, r, held);
    case SemSignal(_, next) => RwShapeOwnsItsWaits(next, r, held);
    case Unlock(m, next) => RwShapeOwnsItsWaits(next, r, held - {m});
  }

  lemma RwThreadsOwnTheirWaits(s: State, r: RwIds)
    requires RwStart(s, r)
    ensures s.k.at.Keys == s.k.states.Keys == s.prog.Keys && AllObey(WaitOwning, s)
  {
    forall t | t in s.k.states
      ensures ThreadObeys(WaitOwning, s, t)
    {
      StartStage(s, r, t);
      RwShapeOwnsItsWaits(s.prog[t], r, HeldOnReturn(s.k, t));
    }
  }

  /** At quiescence a thread waiting for the mutex waits for a first reader stuck on the semaphore. */
  lemma MutexWaiterBlamesSemaphore(s: State, r: RwIds, t: int) returns (u: int)
    requires RwInv(s, r) && Quiescent(s) && Is(s.k, t, BLOCKED)
    ensures Is(s.k, u, BLOCKED) && u in s.k.at && s.k.at[u] == InSem(r.writeSem)
    ensures s.k.at[t].InLock? ==> u == Owner(s.k, r.countLock)
  {
    assert RwThreadOk(s, r, t);
    if s.k.at[t].InSem? {
      u := t;
    } else {
      var ch := MutexQ(r.countLock);
      assert Waiting(s.k, t, ch);
      assert t in Queue(s.k, ch);
      NobodyWoken(s, ch);
      assert WakeOk(s.k, ch);
      u := Owner(s.k, r.countLock);
      assert RwThreadOk(s, r, u);
      assert Holding(Stages(s)[u]);
      assert Stages(s)[u] == StageOf(s.k.at[u], s.prog[u]);
    }
  }

  /** So the semaphore is at zero, which leaves nobody who could be holding it. */
  lemma NobodyStuckRw(s: State, r: RwIds, t: int)
    requires RwInv(s, r) && Quiescent(s)
    ensures !Is(s.k, t, BLOCKED)
  {
    if Is(s.k, t, BLOCKED) {
      var u := MutexWaiterBlamesSemaphore(s, r, t);
      assert Waiting(s.k, u, SemQ(r.writeSem));
      assert u in Queue(s.k, SemQ(r.writeSem));
      NobodyWoken(s, SemQ(r.writeSem));
      assert WakeOk(s.k, SemQ(r.writeSem));
      NobodyOwns(s, r);
      NoGroup(s, r);
      assert false;
    }
  }

  lemma NobodyOwns(s: State, r: RwIds)
    requires RwInv(s, r) && Quiescent(s)
    ensures OwningSet(Stages(s)) == {}
  {
    forall t | t in s.prog
      ensures Stages(s)[t] != Owning
    {
      assert RwThreadOk(s, r, t);
      assert Stages(s)[t] == StageOf(s.k.at[t], s.prog[t]);
    }
    assert forall t :: t !in OwningSet(Stages(s));
  }

  lemma NoGroup(s: State, r: RwIds)
    requires RwInv(s, r) && Quiescent(s)
    ensures GroupToken(HolderStage(Stages(s), Owner(s.k, r.countLock)), s.mem.v) == 0
  {
    var g, owner := Stages(s), Owner(s.k, r.countLock);
    if owner == NoOwner {
      assert owner !in g;
      if CountedSet(g) != {} {
        var t := Member(CountedSet(g));
        assert RwThreadOk(s, r, t);
        assert Holding(g[t]) <==> t == owner;
        assert g[t] == StageOf(s.k.at[t], s.prog[t]) == Inside;
        assert Is(s.k, t, BLOCKED);
        var u := MutexWaiterBlamesSemaphore(s, r, t);
        assert false;
      }
    } else {
      assert RwThreadOk(s, r, owner);
      assert Holding(g[owner]);
      assert g[owner] == StageOf(s.k.at[owner], s.prog[owner]);
    }
  }

  /** Readers and writers exclude each other at every moment of every interleaving. */
  lemma ReadersAndWritersExclude(s: State, r: RwIds, acts: seq<Action>, t: int, u: int)
    requires RwStart(s, r) && IsRun(s, acts)
    requires t != u && IsWriting(After(s, acts), t)
    ensures !IsWriting(After(s, acts), u) && !IsReading(After(s, acts), u)
  {
    RwStartInv(s, r);
    RunKeepsRw(s, r, acts);
    Exclusion(After(s, acts), r, t, u);
  }

  /** In every reachable state the semaphore's count, the writers that hold a unit and the
      readers' group token add up to one, and the shared counter is the number of readers
      counted in; this also holds while the first reader blocks on the semaphore holding the
      count mutex. */
  lemma TokensAddUp(s: State, r: RwIds, acts: seq<Action>)
    requires RwStart(s, r) && IsRun(s, acts)
    ensures var e := After(s, acts);
            && e.k.at.Keys == e.k.states.Keys == e.prog.Keys
            && Count(e.k, r.writeSem) + |OwningSet(Stages(e))|
                 + GroupToken(HolderStage(Stages(e), Owner(e.k, r.countLock)), e.mem.v) == 1
            && e.mem.v == |CountedSet(Stages(e))|
  {
    RwStartInv(s, r);
    RunKeepsRw(s, r, acts);
  }

  /** Every run of readers and writers is finite, and when no thread is READY any more all are FINISHED. */
  lemma ReadersAndWritersFinish(s: State, r: RwIds, acts: seq<Action>)
    requires RwStart(s, r) && IsRun(s, acts)
    ensures s.k.at.Keys == s.k.states.Keys == s.prog.Keys && |acts| <= Measure(s)
    ensures Quiescent(After(s, acts)) ==> AllFinished(After(s, acts))
  {
    RwStartInv(s, r);
    RwThreadsOwnTheirWaits(s, r);
    EveryRunIsFinite(s, acts);
    RunKeepsRw(s, r, acts);
    var e := After(s, acts);
    if Quiescent(e) {
      forall t | t in e.k.states ensures e.k.states[t] == FINISHED { NobodyStuckRw(e, r, t); }
    }
  }
}
