/** Dynamic partitions: a list of blocks, kept in step with a map of memory unit by unit. */
module Partitions {

  datatype Algo = FirstFit | BestFit

  datatype Partition = Partition(start: nat, size: nat, free: bool, owner: int) {
    function End(): nat { start + size }
  }

  const Nobody := -1

  /** One unit of memory. */
  datatype Cell = Free | Owned(job: int)

  function Content(p: Partition): Cell {
    if p.free then Free else Owned(p.owner)
  }

  /** The blocks cover [from, to) in order, without gaps or overlaps. */
  ghost predicate Tiles(ps: seq<Partition>, from: nat, to: nat) {
    && (ps == [] ==> from == to)
    && (ps != [] ==> ps[0].start == from && ps[|ps| - 1].End() == to)
    && (forall i :: 0 <= i < |ps| ==> ps[i].size > 0 && (ps[i].free ==> ps[i].owner == Nobody))
    && (forall i :: 0 < i < |ps| ==> ps[i].start == ps[i - 1].End())
  }

  /** No two free blocks touch. */
  ghost predicate Coalesced(ps: seq<Partition>) {
    forall i :: 0 < i < |ps| ==> !(ps[i - 1].free && ps[i].free)
  }

  /** What the block list says about address u. */
  function CellAt(ps: seq<Partition>, u: nat): Cell {
    if ps == [] then Free
    else if u < ps[0].End() then Content(ps[0])
    else CellAt(ps[1..], u)
  }

  ghost function Memory(ps: seq<Partition>, total: nat): (m: seq<Cell>)
    ensures |m| == total
  {
    seq(total, u requires 0 <= u => CellAt(ps, u))
  }

  // ---- blocks and addresses ----

  lemma TailTiles(ps: seq<Partition>, from: nat, to: nat)
    requires Tiles(ps, from, to) && ps != []
    ensures Tiles(ps[1..], ps[0].End(), to)
  {
  }

  lemma {:induction false} Bounds(ps: seq<Partition>, from: nat, to: nat, i: nat)
    requires Tiles(ps, from, to) && i < |ps|
    ensures from <= ps[i].start < ps[i].End() <= to
    decreases |ps|
  {
    if |ps| > 1 {
      TailTiles(ps, from, to);
      Bounds(ps[1..], ps[0].End(), to, if i == 0 then 0 else i - 1);
    }
  }

  lemma {:induction false} CellInBlock(ps: seq<Partition>, from: nat, to: nat, i: nat, u: nat)
    requires Tiles(ps, from, to) && i < |ps| && ps[i].start <= u < ps[i].End()
    ensures CellAt(ps, u) == Content(ps[i])
    decreases |ps|
  {
    if i > 0 {
      TailTiles(ps, from, to);
      Bounds(ps[1..], ps[0].End(), to, i - 1);
      CellInBlock(ps[1..], ps[0].End(), to, i - 1, u);
    }
  }

  lemma {:induction false} BlockAt(ps: seq<Partition>, from: nat, to: nat, u: nat) returns (i: nat)
    requires Tiles(ps, from, to) && from <= u < to
    ensures i < |ps| && ps[i].start <= u < ps[i].End() && CellAt(ps, u) == Content(ps[i])
    decreases |ps|
  {
    if u < ps[0].End() {
      i := 0;
    } else {
      TailTiles(ps, from, to);
      i := BlockAt(ps[1..], ps[0].End(), to, u);
      i := i + 1;
    }
  }

  // ---- free intervals and holes ----

  ghost predicate FreeInterval(m: seq<Cell>, a: nat, n: nat) {
    a + n <= |m| && forall u :: a <= u < a + n ==> m[u] == Free
  }

  /** A free interval that cannot be extended on either side. */
  ghost predicate Hole(m: seq<Cell>, a: nat, n: nat) {
    && n > 0 && FreeInterval(m, a, n)
    && (a > 0 ==> m[a - 1] != Free)
    && (a + n < |m| ==> m[a + n] != Free)
  }

  lemma FreeBlockIsHole(ps: seq<Partition>, total: nat, i: nat)
    requires Tiles(ps, 0, total) && Coalesced(ps) && i < |ps| && ps[i].free
    ensures Hole(Memory(ps, total), ps[i].start, ps[i].size)
  {
    Bounds(ps, 0, total, i);
    forall u: nat | ps[i].start <= u < ps[i].End() ensures CellAt(ps, u) == Free {
      CellInBlock(ps, 0, total, i, u);
    }
    if i > 0 {
      Bounds(ps, 0, total, i - 1);
      CellInBlock(ps, 0, total, i - 1, ps[i].start - 1);
    }
    if i + 1 < |ps| {
      CellInBlock(ps, 0, total, i + 1, ps[i].End());
    }
  }

  /** Without touching free blocks, a free interval lies within one block. */
  lemma IntervalInBlock(ps: seq<Partition>, total: nat, a: nat, n: nat) returns (i: nat)
    requires Tiles(ps, 0, total) && Coalesced(ps) && n > 0 && FreeInterval(Memory(ps, total), a, n)
    ensures i < |ps| && ps[i].free && ps[i].start <= a && a + n <= ps[i].End()
  {
    var m := Memory(ps, total);
    assert m[a] == Free;
    i := BlockAt(ps, 0, total, a);
    if ps[i].End() < a + n {
      assert m[ps[i].End()] == Free;
      var j := BlockAt(ps, 0, total, ps[i].End());
      assert i + 1 < |ps|;
      CellInBlock(ps, 0, total, i + 1, ps[i].End());
      assert false;
    }
  }

  lemma HoleIsFreeBlock(ps: seq<Partition>, total: nat, a: nat, n: nat) returns (i: nat)
    requires Tiles(ps, 0, total) && Coalesced(ps) && Hole(Memory(ps, total), a, n)
    ensures i < |ps| && ps[i] == Partition(a, n, true, Nobody)
  {
    i := IntervalInBlock(ps, total, a, n);
    FreeBlockIsHole(ps, total, i);
  }

  ghost predicate Room(m: seq<Cell>, n: int) {
    n > 0 && exists a: nat :: FreeInterval(m, a, n)
  }

  /** The lowest address with room. */
  ghost predicate LowestRoom(m: seq<Cell>, start: nat, size: nat) {
    FreeInterval(m, start, size) && forall a: nat :: FreeInterval(m, a, size) ==> start <= a
  }

  /** The start of the smallest hole with room, the lowest if there are several. */
  ghost predicate TightestRoom(m: seq<Cell>, start: nat, size: nat) {
    exists n: nat :: n >= size && Hole(m, start, n) && Tightest(m, start, size, n)
  }

  ghost predicate Tightest(m: seq<Cell>, start: nat, size: nat, n: nat) {
    forall a: nat, k: nat :: Hole(m, a, k) && k >= size ==> n < k || (n == k && start <= a)
  }

  // ---- allocation ----

  predicate Fits(p: Partition, size: nat) {
    p.free && p.size >= size
  }

  /** Block i is taken: its front goes to the job, the rest stays free. */
  function Allocated(ps: seq<Partition>, i: nat, job: int, size: nat): seq<Partition>
    requires i < |ps| && size <= ps[i].size
  {
    var rest := ps[i].size - size;
    ps[..i] + [Partition(ps[i].start, size, false, job)]
    + (if rest > 0 then [Partition(ps[i].start + size, rest, true, Nobody)] else []) + ps[i + 1..]
  }

  /** Memory with [a, a + n) handed to a job. */
  ghost predicate Granted(m: seq<Cell>, m': seq<Cell>, a: nat, n: nat, job: int) {
    && |m'| == |m|
    && forall u :: 0 <= u < |m| ==> m'[u] == if a <= u < a + n then Owned(job) else m[u]
  }

  lemma AllocatedKeeps(ps: seq<Partition>, total: nat, i: nat, job: int, size: nat)
    requires Tiles(ps, 0, total) && Coalesced(ps) && i < |ps| && Fits(ps[i], size) && size > 0
    ensures Tiles(Allocated(ps, i, job, size), 0, total) && Coalesced(Allocated(ps, i, job, size))
  {
    AllocatedTiles(ps, total, i, job, size);
    AllocatedCoalesced(ps, i, job, size);
  }

  /** Where the blocks of the old list are in the new one. */
  lemma AllocatedAt(ps: seq<Partition>, i: nat, job: int, size: nat) returns (shift: nat)
    requires i < |ps| && size <= ps[i].size
    ensures shift == if size < ps[i].size then 1 else 0
    ensures var qs := Allocated(ps, i, job, size);
            && |qs| == |ps| + shift
            && (forall j :: 0 <= j < i ==> qs[j] == ps[j])
            && qs[i] == Partition(ps[i].start, size, false, job)
            && (shift == 1 ==> qs[i + 1] == Partition(ps[i].start + size, ps[i].size - size, true, Nobody))
            && (forall j :: i + shift < j < |qs| ==> qs[j] == ps[j - shift])
  {
    shift := if size < ps[i].size then 1 else 0;
  }

  lemma AllocatedTiles(ps: seq<Partition>, total: nat, i: nat, job: int, size: nat)
    requires Tiles(ps, 0, total) && i < |ps| && Fits(ps[i], size) && size > 0
    ensures Tiles(Allocated(ps, i, job, size), 0, total)
  {
    var qs := Allocated(ps, i, job, size);
    var shift := AllocatedAt(ps, i, job, size);
    forall j | 0 < j < |qs| ensures qs[j].start == qs[j - 1].End() {
      if j > i + shift {
        assert ps[j - shift].start == ps[j - shift - 1].End();
      }
    }
  }

  lemma AllocatedCoalesced(ps: seq<Partition>, i: nat, job: int, size: nat)
    requires Coalesced(ps) && i < |ps| && Fits(ps[i], size) && size > 0
    ensures Coalesced(Allocated(ps, i, job, size))
  {
    var qs := Allocated(ps, i, job, size);
    var shift := AllocatedAt(ps, i, job, size);
    forall j | 0 < j < |qs| ensures !(qs[j - 1].free && qs[j].free) {
      if j > i + shift {
        assert !(ps[j - shift - 1].free && ps[j - shift].free);
      }
    }
  }

  lemma AllocatedCells(ps: seq<Partition>, total: nat, i: nat, job: int, size: nat)
    requires Tiles(ps, 0, total) && Coalesced(ps) && i < |ps| && Fits(ps[i], size) && size > 0
    ensures Granted(Memory(ps, total), Memory(Allocated(ps, i, job, size), total), ps[i].start, size, job)
  {
    var qs := Allocated(ps, i, job, size);
    var start := ps[i].start;
    AllocatedKeeps(ps, total, i, job, size);
    forall u: nat | u < total
      ensures CellAt(qs, u) == if start <= u < start + size then Owned(job) else CellAt(ps, u)
    {
      var j := BlockAt(ps, 0, total, u);
      if j < i {
        assert qs[j] == ps[j];
        Before(ps, total, j, i);
        CellInBlock(qs, 0, total, j, u);
      } else if j == i {
        CellInBlock(qs, 0, total, if u < start + size then i else i + 1, u);
      } else {
        var k := if size < ps[i].size then j + 1 else j;
        assert qs[k] == ps[j];
        Before(ps, total, i, j);
        CellInBlock(qs, 0, total, k, u);
      }
    }
  }

  lemma {:induction false} Before(ps: seq<Partition>, total: nat, i: nat, j: nat)
    requires Tiles(ps, 0, total) && i < j < |ps|
    ensures ps[i].End() <= ps[j].start
  {
    if i + 1 < j {
      Before(ps, total, i, j - 1);
    }
  }

  // ---- reclaiming ----

  predicate Holds(p: Partition, job: int) {
    !p.free && p.owner == job
  }

  function Freed(ps: seq<Partition>, job: int): (qs: seq<Partition>)
    ensures |qs| == |ps|
  {
    if ps == [] then []
    else [if Holds(ps[0], job) then Partition(ps[0].start, ps[0].size, true, Nobody) else ps[0]] + Freed(ps[1..], job)
  }

  /** The two first blocks, both free, as one. */
  function HeadMerged(ps: seq<Partition>): seq<Partition>
    requires |ps| >= 2
  {
    [ps[0].(size := ps[0].size + ps[1].size)] + ps[2..]
  }

  /** Neighbouring free blocks run together. */
  function Merged(ps: seq<Partition>): seq<Partition>
    decreases |ps|
  {
    if |ps| < 2 then ps
    else if ps[0].free && ps[1].free then Merged(HeadMerged(ps))
    else [ps[0]] + Merged(ps[1..])
  }

  function Reclaimed(ps: seq<Partition>, job: int): seq<Partition> {
    Merged(Freed(ps, job))
  }

  /** Memory with everything a job owns made free. */
  ghost predicate Returned(m: seq<Cell>, m': seq<Cell>, job: int) {
    && |m'| == |m|
    && forall u :: 0 <= u < |m| ==> m'[u] == if m[u] == Owned(job) then Free else m[u]
  }

  lemma {:induction false} FreedAt(ps: seq<Partition>, job: int, i: nat)
    requires i < |ps|
    ensures Freed(ps, job)[i] == if Holds(ps[i], job) then Partition(ps[i].start, ps[i].size, true, Nobody) else ps[i]
  {
    if i > 0 {
      FreedAt(ps[1..], job, i - 1);
    }
  }

  lemma FreedTiles(ps: seq<Partition>, job: int, from: nat, to: nat)
    requires Tiles(ps, from, to)
    ensures Tiles(Freed(ps, job), from, to)
  {
    forall i | 0 <= i < |ps|
      ensures Freed(ps, job)[i] == if Holds(ps[i], job) then Partition(ps[i].start, ps[i].size, true, Nobody) else ps[i]
    {
      FreedAt(ps, job, i);
    }
  }

  lemma {:induction false} FreedCells(ps: seq<Partition>, job: int, u: nat)
    ensures CellAt(Freed(ps, job), u) == if CellAt(ps, u) == Owned(job) then Free else CellAt(ps, u)
  {
    if ps != [] {
      FreedCells(ps[1..], job, u);
      assert Freed(ps, job)[1..] == Freed(ps[1..], job);
    }
  }

  lemma HeadMergedTiles(ps: seq<Partition>, from: nat, to: nat)
    requires Tiles(ps, from, to) && |ps| >= 2 && ps[0].free && ps[1].free
    ensures Tiles(HeadMerged(ps), from, to)
  {
    var qs := HeadMerged(ps);
    forall i | 0 < i < |qs| ensures qs[i] == ps[i + 1] && qs[i].start == qs[i - 1].End() { }
  }

  lemma PrependTiles(p: Partition, rest: seq<Partition>, from: nat, to: nat)
    requires Tiles([p], from, p.End()) && Tiles(rest, p.End(), to) && Coalesced(rest)
    requires rest != [] && !(p.free && rest[0].free)
    ensures Tiles([p] + rest, from, to) && Coalesced([p] + rest)
  {
    var ps := [p] + rest;
    forall i | 0 < i < |ps| ensures ps[i] == rest[i - 1] && ps[i].start == ps[i - 1].End() && !(ps[i - 1].free && ps[i].free) { }
  }

  lemma HeadTiles(ps: seq<Partition>, from: nat, to: nat)
    requires Tiles(ps, from, to) && ps != []
    ensures Tiles([ps[0]], from, ps[0].End()) && Tiles(ps[1..], ps[0].End(), to)
  {
  }

  lemma {:induction false} MergedTiles(ps: seq<Partition>, from: nat, to: nat)
    requires Tiles(ps, from, to)
    ensures Tiles(Merged(ps), from, to) && Coalesced(Merged(ps))
    ensures ps != [] ==> Merged(ps) != [] && Merged(ps)[0].free == ps[0].free
    decreases |ps|
  {
    if |ps| >= 2 {
      hide Tiles, Coalesced;
      if ps[0].free && ps[1].free {
        HeadMergedTiles(ps, from, to);
        MergedTiles(HeadMerged(ps), from, to);
      } else {
        HeadTiles(ps, from, to);
        MergedTiles(ps[1..], ps[0].End(), to);
        PrependTiles(ps[0], Merged(ps[1..]), from, to);
      }
    }
  }

  lemma {:induction false} MergedCells(ps: seq<Partition>, from: nat, to: nat, u: nat)
    requires Tiles(ps, from, to)
    ensures CellAt(Merged(ps), u) == CellAt(ps, u)
    decreases |ps|
  {
    if |ps| >= 2 {
      if ps[0].free && ps[1].free {
        var qs := HeadMerged(ps);
        MergedCells(qs, from, to, u);
        assert qs[1..] == ps[2..] && ps[1..][1..] == ps[2..];
      } else {
        TailTiles(ps, from, to);
        MergedCells(ps[1..], ps[0].End(), to, u);
        assert Merged(ps)[1..] == Merged(ps[1..]);
      }
    }
  }

  lemma ReclaimedKeeps(ps: seq<Partition>, total: nat, job: int)
    requires Tiles(ps, 0, total)
    ensures Tiles(Reclaimed(ps, job), 0, total) && Coalesced(Reclaimed(ps, job))
    ensures Returned(Memory(ps, total), Memory(Reclaimed(ps, job), total), job)
  {
    var qs := Freed(ps, job);
    FreedTiles(ps, job, 0, total);
    MergedTiles(qs, 0, total);
    forall u: nat ensures CellAt(Merged(qs), u) == if CellAt(ps, u) == Owned(job) then Free else CellAt(ps, u) {
      FreedCells(ps, job, u);
      MergedCells(qs, 0, total, u);
    }
  }

  // ---- allocating to a new job and reclaiming it ----

  lemma {:induction false} MergedCoalesced(ps: seq<Partition>)
    requires Coalesced(ps)
    ensures Merged(ps) == ps
  {
    if |ps| >= 2 {
      assert ps[1..][0] == ps[1];
      assert !(ps[0].free && ps[1].free);
      MergedCoalesced(ps[1..]);
    }
  }

  lemma {:induction false} MergedBehind(front: seq<Partition>, back: seq<Partition>)
    requires Coalesced(front) && back != [] && (front != [] ==> !(front[|front| - 1].free && back[0].free))
    ensures Merged(front + back) == front + Merged(back)
  {
    var ps := front + back;
    if front == [] {
      assert ps == back;
    } else {
      assert ps[1..] == front[1..] + back;
      MergedBehind(front[1..], back);
    }
  }

  lemma {:induction false} FreedAbsent(ps: seq<Partition>, job: int)
    requires forall i :: 0 <= i < |ps| ==> !Holds(ps[i], job)
    ensures Freed(ps, job) == ps
  {
    if ps != [] {
      FreedAbsent(ps[1..], job);
    }
  }

  lemma {:induction false} FreedSplit(a: seq<Partition>, b: seq<Partition>, job: int)
    ensures Freed(a + b, job) == Freed(a, job) + Freed(b, job)
  {
    if a == [] {
      assert a + b == b;
    } else {
      assert (a + b)[1..] == a[1..] + b;
      FreedSplit(a[1..], b, job);
    }
  }

  /** Giving a block to a job that holds nothing and taking it back restores the list exactly. */
  lemma AllocateThenReclaim(ps: seq<Partition>, total: nat, i: nat, job: int, size: nat)
    requires Tiles(ps, 0, total) && Coalesced(ps) && i < |ps| && Fits(ps[i], size) && size > 0
    requires forall j :: 0 <= j < |ps| ==> !Holds(ps[j], job)
    ensures Reclaimed(Allocated(ps, i, job, size), job) == ps
  {
    FreedPieces(ps, i, job, size);
    assert ps == ps[..i] + ([ps[i]] + ps[i + 1..]);
    Rejoined(ps[..i], ps[i], size, ps[i + 1..]);
  }

  lemma CoalescedParts(a: seq<Partition>, b: seq<Partition>)
    requires Coalesced(a + b)
    ensures Coalesced(a) && Coalesced(b)
    ensures a != [] && b != [] ==> !(a[|a| - 1].free && b[0].free)
  {
    var ps := a + b;
    forall j | 0 < j < |a| ensures !(a[j - 1].free && a[j].free) {
      assert ps[j - 1] == a[j - 1] && ps[j] == a[j];
    }
    forall j | 0 < j < |b| ensures !(b[j - 1].free && b[j].free) {
      assert ps[|a| + j - 1] == b[j - 1] && ps[|a| + j] == b[j];
    }
    if a != [] && b != [] {
      assert ps[|a| - 1] == a[|a| - 1] && ps[|a|] == b[0];
    }
  }

  lemma Rejoined(front: seq<Partition>, p: Partition, size: nat, back: seq<Partition>)
    requires p.free && p.owner == Nobody && 0 < size <= p.size && Coalesced(front + ([p] + back))
    ensures Merged(front + (Pieces(p, size) + back)) == front + ([p] + back)
  {
    var tail := [p] + back;
    CoalescedParts(front, tail);
    assert (Pieces(p, size) + back)[0].free;
    MergedBehind(front, Pieces(p, size) + back);
    MergedFirstTwo(p, size, back);
    MergedCoalesced(tail);
  }

  /** A free block cut at size. */
  function Pieces(p: Partition, size: nat): seq<Partition>
    requires size <= p.size
  {
    [Partition(p.start, size, true, Nobody)]
    + (if size < p.size then [Partition(p.start + size, p.size - size, true, Nobody)] else [])
  }

  lemma FreedPieces(ps: seq<Partition>, i: nat, job: int, size: nat)
    requires i < |ps| && Fits(ps[i], size)
    requires forall j :: 0 <= j < |ps| ==> !Holds(ps[j], job)
    ensures Freed(Allocated(ps, i, job, size), job) == ps[..i] + (Pieces(ps[i], size) + ps[i + 1..])
  {
    var front, taken := ps[..i], Partition(ps[i].start, size, false, job);
    var rest := Pieces(ps[i], size)[1..] + ps[i + 1..];
    assert Allocated(ps, i, job, size) == front + ([taken] + rest);
    FreedOne(front, taken, rest, job);
    assert Pieces(ps[i], size) + ps[i + 1..] == [Pieces(ps[i], size)[0]] + rest;
  }

  lemma FreedOne(front: seq<Partition>, taken: Partition, rest: seq<Partition>, job: int)
    requires Holds(taken, job)
    requires forall j :: 0 <= j < |front| ==> !Holds(front[j], job)
    requires forall j :: 0 <= j < |rest| ==> !Holds(rest[j], job)
    ensures Freed(front + ([taken] + rest), job) == front + ([Partition(taken.start, taken.size, true, Nobody)] + rest)
  {
    FreedSplit(front, [taken] + rest, job);
    FreedAbsent(front, job);
    FreedAbsent(rest, job);
    assert ([taken] + rest)[1..] == rest;
  }

  lemma MergedFirstTwo(p: Partition, size: nat, back: seq<Partition>)
    requires p.free && p.owner == Nobody && 0 < size <= p.size
    ensures Merged(Pieces(p, size) + back) == Merged([p] + back)
  {
    if size < p.size {
      assert (Pieces(p, size) + back)[2..] == back;
    } else {
      assert Pieces(p, size) == [p];
    }
  }

  /** A job owns a unit exactly when it holds a block. */
  lemma OwnsSomething(ps: seq<Partition>, total: nat, job: int)
    requires Tiles(ps, 0, total)
    ensures Owned(job) in Memory(ps, total) <==> exists i :: 0 <= i < |ps| && Holds(ps[i], job)
  {
    var m := Memory(ps, total);
    if Owned(job) in m {
      var u: nat :| u < |m| && m[u] == Owned(job);
      var i := BlockAt(ps, 0, total, u);
      assert Holds(ps[i], job);
    }
    if i :| 0 <= i < |ps| && Holds(ps[i], job) {
      Bounds(ps, 0, total, i);
      CellInBlock(ps, 0, total, i, ps[i].start);
      assert m[ps[i].start] == Owned(job);
    }
  }

  // ---- which block is chosen ----

  /** Where the first block that fits starts is the lowest address with room. */
  lemma FirstFitIsLowest(ps: seq<Partition>, total: nat, i: nat, size: nat, a: nat)
    requires Tiles(ps, 0, total) && Coalesced(ps) && size > 0
    requires i <= |ps| && forall j :: 0 <= j < i ==> !Fits(ps[j], size)
    requires FreeInterval(Memory(ps, total), a, size)
    ensures i < |ps| && ps[i].start <= a
  {
    var j := IntervalInBlock(ps, total, a, size);
    if i < j { Before(ps, total, i, j); }
  }

  /** A block is the lowest of the smallest that fit exactly when its hole is. */
  lemma BestFitIsSmallestHole(ps: seq<Partition>, total: nat, i: nat, size: nat, a: nat, n: nat)
    requires Tiles(ps, 0, total) && Coalesced(ps) && i < |ps| && size <= n
    requires forall j :: 0 <= j < |ps| && Fits(ps[j], size) ==> ps[i].size <= ps[j].size
    requires forall j :: 0 <= j < i && Fits(ps[j], size) ==> ps[i].size < ps[j].size
    requires Hole(Memory(ps, total), a, n)
    ensures ps[i].size < n || (ps[i].size == n && ps[i].start <= a)
  {
    var j := HoleIsFreeBlock(ps, total, a, n);
    if ps[i].size == n && i != j {
      Before(ps, total, i, j);
    }
  }

  /** No free interval of that length anywhere exactly when no block fits. */
  lemma RoomMeansFit(ps: seq<Partition>, total: nat, size: nat)
    requires Tiles(ps, 0, total) && Coalesced(ps) && size > 0
    ensures (exists i :: 0 <= i < |ps| && Fits(ps[i], size)) <==> Room(Memory(ps, total), size)
  {
    if i :| 0 <= i < |ps| && Fits(ps[i], size) {
      FreeBlockIsHole(ps, total, i);
      assert FreeInterval(Memory(ps, total), ps[i].start, size);
    }
    if a: nat :| FreeInterval(Memory(ps, total), a, size) {
      var i := IntervalInBlock(ps, total, a, size);
    }
  }

  // ---- counting ----

  ghost function FreeUnits(m: seq<Cell>, bound: nat): set<nat> {
    set u: nat | u < bound && u < |m| && m[u] == Free
  }

  ghost predicate StartsHole(m: seq<Cell>, u: nat) {
    u < |m| && m[u] == Free && (u > 0 ==> m[u - 1] != Free)
  }

  ghost function HoleStarts(m: seq<Cell>, bound: nat): set<nat> {
    set u: nat | u < bound && StartsHole(m, u)
  }

  lemma {:induction false} IntervalSize(a: nat, n: nat, s: set<nat>)
    requires forall u :: u in s <==> a <= u < a + n
    ensures |s| == n
  {
    if n == 0 {
      assert s == {};
    } else {
      IntervalSize(a, n - 1, s - {a + n - 1});
    }
  }

  lemma BlockCells(ps: seq<Partition>, total: nat, i: nat)
    requires Tiles(ps, 0, total) && i < |ps|
    ensures ps[i].End() <= total
    ensures forall u: nat :: ps[i].start <= u < ps[i].End() ==> Memory(ps, total)[u] == Content(ps[i])
  {
    Bounds(ps, 0, total, i);
    forall u: nat | ps[i].start <= u < ps[i].End() ensures CellAt(ps, u) == Content(ps[i]) {
      CellInBlock(ps, 0, total, i, u);
    }
  }

  /** Passing one more block adds its units, if it is free. */
  lemma CountUnits(ps: seq<Partition>, total: nat, i: nat)
    requires Tiles(ps, 0, total) && i < |ps|
    ensures var m := Memory(ps, total);
            |FreeUnits(m, ps[i].End())| == |FreeUnits(m, ps[i].start)| + (if ps[i].free then ps[i].size else 0)
  {
    var m, here, next := Memory(ps, total), ps[i].start, ps[i].End();
    BlockCells(ps, total, i);
    if ps[i].free {
      var block := FreeUnits(m, next) - FreeUnits(m, here);
      IntervalSize(here, ps[i].size, block);
      assert FreeUnits(m, next) == FreeUnits(m, here) + block;
    } else {
      assert FreeUnits(m, next) == FreeUnits(m, here);
    }
  }

  /** Passing one more block adds one hole, if it is free. */
  lemma CountHoles(ps: seq<Partition>, total: nat, i: nat)
    requires Tiles(ps, 0, total) && Coalesced(ps) && i < |ps|
    ensures var m := Memory(ps, total);
            |HoleStarts(m, ps[i].End())| == |HoleStarts(m, ps[i].start)| + (if ps[i].free then 1 else 0)
  {
    var m, here, next := Memory(ps, total), ps[i].start, ps[i].End();
    BlockCells(ps, total, i);
    if ps[i].free {
      FreeBlockIsHole(ps, total, i);
      assert HoleStarts(m, next) == HoleStarts(m, here) + {here};
    } else {
      assert HoleStarts(m, next) == HoleStarts(m, here);
    }
  }

  class PartitionAllocator {
    const totalSize: nat
    var algo: Algo
    var partitions: seq<Partition>

    ghost predicate Valid()
      reads this
    {
      totalSize > 0 && Tiles(partitions, 0, totalSize) && Coalesced(partitions)
    }

    /** Memory as the block list describes it. */
    ghost function Cells(): (m: seq<Cell>)
      reads this
      ensures |m| == totalSize
    {
      Memory(partitions, totalSize)
    }

    constructor (total: nat, policy: Algo)
      requires total > 0
      ensures Valid() && totalSize == total && algo == policy
      ensures forall u :: 0 <= u < total ==> Cells()[u] == Free
    {
      totalSize, algo, partitions := total, policy, [Partition(0, total, true, Nobody)];
    }

    /** Fails exactly when no free interval of that length exists. First fit takes the lowest
        address with room; best fit the smallest hole with room. A later Reclaim of a job that
        owned nothing before would restore the block list. */
    method Allocate(job: int, size: int) returns (start: int)
      requires Valid()
      modifies this`partitions
      ensures Valid()
      ensures start >= 0 <==> Room(old(Cells()), size)
      ensures start < 0 ==> start == -1 && partitions == old(partitions)
      ensures start >= 0 ==>
                && Granted(old(Cells()), Cells(), start, size, job)
                && FreeInterval(old(Cells()), start, size)
                && (if algo == FirstFit then LowestRoom(old(Cells()), start, size) else TightestRoom(old(Cells()), start, size))
                && (Owned(job) !in old(Cells()) ==> Reclaimed(partitions, job) == old(partitions))
    {
      if size <= 0 { return -1; }
      RoomMeansFit(partitions, totalSize, size);
      var target := |partitions|;
      if algo == FirstFit {
        target := FirstThatFits(size);
      } else {
        target := BestThatFits(size);
      }
      if target == |partitions| { return -1; }
      assert Fits(partitions[target], size);
      start := Occupy(target, job, size);
    }

    /** Hands out the front of a block and splits off what is left. */
    method Occupy(target: nat, job: int, size: nat) returns (start: nat)
      requires Valid() && target < |partitions| && Fits(partitions[target], size) && size > 0
      modifies this`partitions
      ensures Valid() && start == old(partitions[target].start)
      ensures partitions == Allocated(old(partitions), target, job, size)
      ensures Granted(old(Cells()), Cells(), start, size, job) && FreeInterval(old(Cells()), start, size)
      ensures Owned(job) !in old(Cells()) ==> Reclaimed(partitions, job) == old(partitions)
    {
      ghost var ps := partitions;
      start := partitions[target].start;
      var remaining := partitions[target].size - size;
      partitions := partitions[target := Partition(start, size, false, job)];
      if remaining > 0 {
        partitions := partitions[..target + 1] + [Partition(start + size, remaining, true, Nobody)] + partitions[target + 1..];
      }
      assert partitions == Allocated(ps, target, job, size);
      FreeBlockIsHole(ps, totalSize, target);
      AllocatedKeeps(ps, totalSize, target, job, size);
      AllocatedCells(ps, totalSize, target, job, size);
      OwnsSomething(ps, totalSize, job);
      if Owned(job) !in Memory(ps, totalSize) {
        AllocateThenReclaim(ps, totalSize, target, job, size);
      }
    }

    method FirstThatFits(size: nat) returns (target: nat)
      requires Valid() && size > 0
      ensures target <= |partitions|
      ensures target == |partitions| ==> forall j :: 0 <= j < |partitions| ==> !Fits(partitions[j], size)
      ensures target < |partitions| ==> Fits(partitions[target], size)
      ensures target < |partitions| ==> LowestRoom(Cells(), partitions[target].start, size)
    {
      target := 0;
      while target < |partitions| && !Fits(partitions[target], size)
        invariant target <= |partitions|
        invariant forall j :: 0 <= j < target ==> !Fits(partitions[j], size)
      {
        target := target + 1;
      }
      forall a: nat | FreeInterval(Cells(), a, size) ensures target < |partitions| && partitions[target].start <= a {
        FirstFitIsLowest(partitions, totalSize, target, size, a);
      }
      if target < |partitions| {
        FreeBlockIsHole(partitions, totalSize, target);
      }
    }

    method BestThatFits(size: nat) returns (target: nat)
      requires Valid() && size > 0
      ensures target <= |partitions|
      ensures target == |partitions| ==> forall j :: 0 <= j < |partitions| ==> !Fits(partitions[j], size)
      ensures target < |partitions| ==> Fits(partitions[target], size)
      ensures target < |partitions| ==> TightestRoom(Cells(), partitions[target].start, size)
    {
      target := |partitions|;
      var bestSize := totalSize + 1;
      var i := 0;
      while i < |partitions|
        invariant 0 <= i <= |partitions|
        invariant target < i || target == |partitions|
        invariant target == |partitions| ==> bestSize == totalSize + 1
        invariant target < i ==> Fits(partitions[target], size) && bestSize == partitions[target].size
        invariant forall j :: 0 <= j < i && Fits(partitions[j], size) ==> target < i && bestSize <= partitions[j].size
        invariant target < i ==> forall j :: 0 <= j < target && Fits(partitions[j], size) ==> bestSize < partitions[j].size
      {
        Bounds(partitions, 0, totalSize, i);
        if Fits(partitions[i], size) && partitions[i].size < bestSize {
          bestSize := partitions[i].size;
          target := i;
        }
        i := i + 1;
      }
      if target < |partitions| {
        forall a: nat, k: nat | Hole(Cells(), a, k) && k >= size
          ensures partitions[target].size < k || (partitions[target].size == k && partitions[target].start <= a)
        {
          BestFitIsSmallestHole(partitions, totalSize, target, size, a, k);
        }
        FreeBlockIsHole(partitions, totalSize, target);
        assert Tightest(Cells(), partitions[target].start, size, partitions[target].size);
      }
    }

    /** Frees everything the job owns and nothing else; true exactly when it owned something. */
    method Reclaim(job: int) returns (found: bool)
      requires Valid()
      modifies this`partitions
      ensures Valid()
      ensures found <==> Owned(job) in old(Cells())
      ensures !found ==> partitions == old(partitions)
      ensures partitions == Reclaimed(old(partitions), job)
      ensures Returned(old(Cells()), Cells(), job)
    {
      ghost var ps := partitions;
      OwnsSomething(ps, totalSize, job);
      ReclaimedKeeps(ps, totalSize, job);
      found := Release(job);
      if found {
        MergeAdjacentFree();
      } else {
        FreedAbsent(ps, job);
        MergedCoalesced(ps);
      }
    }

    /** Marks every block of the job free. */
    method Release(job: int) returns (found: bool)
      modifies this`partitions
      ensures partitions == Freed(old(partitions), job)
      ensures found <==> exists i :: 0 <= i < |old(partitions)| && Holds(old(partitions)[i], job)
    {
      ghost var ps := partitions;
      found := false;
      var i := 0;
      while i < |partitions|
        invariant 0 <= i <= |partitions| == |ps|
        invariant forall j :: 0 <= j < i ==> partitions[j] == Freed(ps, job)[j]
        invariant forall j :: i <= j < |ps| ==> partitions[j] == ps[j]
        invariant found <==> exists j :: 0 <= j < i && Holds(ps[j], job)
      {
        FreedAt(ps, job, i);
        if Holds(partitions[i], job) {
          partitions := partitions[i := Partition(partitions[i].start, partitions[i].size, true, Nobody)];
          found := true;
        }
        i := i + 1;
      }
    }

    method MergeAdjacentFree()
      modifies this`partitions
      ensures partitions == Merged(old(partitions))
    {
      var i := 0;
      while i < |partitions|
        invariant 0 <= i <= |partitions|
        invariant partitions[..i] + Merged(partitions[i..]) == Merged(old(partitions))
        decreases |partitions| - i
      {
        ghost var front, back := partitions[..i], partitions[i..];
        var next := i + 1;
        if next < |partitions| && partitions[i].free && partitions[next].free {
          var both := partitions[i].(size := partitions[i].size + partitions[next].size);
          partitions := partitions[..i] + [both] + partitions[next + 1..];
          assert partitions[..i] == front && partitions[i..] == [both] + back[2..];
        } else {
          assert partitions[..next] == front + [back[0]] && partitions[next..] == back[1..];
          assert Merged(back) == [back[0]] + Merged(back[1..]);
          i := next;
        }
      }
      assert partitions[i..] == [] && partitions[..i] == partitions;
    }

    /** The number of holes. */
    method FreeBlockCount() returns (n: nat)
      requires Valid()
      ensures n == |HoleStarts(Cells(), totalSize)|
    {
      n := 0;
      var i := 0;
      assert HoleStarts(Cells(), 0) == {};
      while i < |partitions|
        invariant 0 <= i <= |partitions|
        invariant n == |HoleStarts(Cells(), if i < |partitions| then partitions[i].start else totalSize)|
      {
        CountHoles(partitions, totalSize, i);
        if partitions[i].free { n := n + 1; }
        i := i + 1;
      }
    }

    /** The number of free units. */
    method TotalFreeSize() returns (total: nat)
      requires Valid()
      ensures total == |FreeUnits(Cells(), totalSize)|
    {
      total := 0;
      var i := 0;
      assert FreeUnits(Cells(), 0) == {};
      while i < |partitions|
        invariant 0 <= i <= |partitions|
        invariant total == |FreeUnits(Cells(), if i < |partitions| then partitions[i].start else totalSize)|
      {
        CountUnits(partitions, totalSize, i);
        if partitions[i].free { total := total + partitions[i].size; }
        i := i + 1;
      }
    }
  }
}
