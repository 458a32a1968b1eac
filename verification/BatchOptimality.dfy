/** Shortest job first is optimal: the combinatorial half, over work left per job. */
module BatchOptimality {
  import opened Collections

  function Min(a: nat, b: nat): nat {
    if a < b then a else b
  }

  /** How much each job of m delays, or is delayed by, a job with v dispatches to go. */
  function Delays(m: map<int, nat>, v: nat): map<int, nat> {
    map t | t in m :: Min(v, m[t])
  }

  /** Over all pairs of jobs, the smaller of the two amounts of work. */
  ghost function PairDelays(m: map<int, nat>): nat
    decreases |m|
  {
    if m == map[] then 0
    else
      var x := Some(m);
      Total(Delays(m - {x}, m[x])) + PairDelays(m - {x})
  }

  lemma {:induction false} PairDelaysAt(m: map<int, nat>, x: int)
    requires x in m
    ensures PairDelays(m) == Total(Delays(m - {x}, m[x])) + PairDelays(m - {x})
    decreases |m|
  {
    var y := Some(m);
    if x != y {
      var rest := m - {x} - {y};
      assert m - {y} - {x} == rest;
      PairDelaysAt(m - {y}, x);
      PairDelaysAt(m - {x}, y);
      DelayOf(m - {y}, m[y], x);
      DelayOf(m - {x}, m[x], y);
    }
  }

  lemma DelayOf(m: map<int, nat>, v: nat, x: int)
    requires x in m
    ensures Total(Delays(m, v)) == Min(v, m[x]) + Total(Delays(m - {x}, v))
  {
    var d := Delays(m, v);
    TotalAt(d, x);
    SameMap(d - {x}, Delays(m - {x}, v));
  }

  /** 1 for every job that is not done. */
  function Unfinished(m: map<int, nat>): map<int, nat> {
    map t | t in m :: if m[t] > 0 then 1 else 0
  }

  /** The sum of all finish ticks, for jobs with this much work left at tick `clock`, when
      finished ones finished at the given ticks, if from now on no work is ever in the way of
      smaller work. */
  ghost function Bound(left: map<int, nat>, finish: map<int, nat>, clock: nat): nat {
    Total(finish) + clock * Total(Unfinished(left)) + Total(left) + PairDelays(left)
  }

  lemma {:induction false} TotalOfSums(a: map<int, nat>, b: map<int, nat>, c: map<int, nat>)
    requires a.Keys == b.Keys == c.Keys
    requires forall x :: x in a ==> a[x] <= b[x] + c[x]
    ensures Total(a) <= Total(b) + Total(c)
    ensures (forall x :: x in a ==> a[x] == b[x] + c[x]) ==> Total(a) == Total(b) + Total(c)
    decreases |a|
  {
    if a == map[] {
      assert b == map[] && c == map[];
    } else {
      var x := Some(a);
      TotalAt(b, x);
      TotalAt(c, x);
      TotalOfSums(a - {x}, b - {x}, c - {x});
    }
  }

  /** One unit of work less delays each unfinished job by at most one unit less, and by exactly
      one unit less each job that has at least as much work. */
  lemma OneUnitLess(rest: map<int, nat>, v: nat)
    requires v > 0
    ensures Total(Delays(rest, v)) <= Total(Delays(rest, v - 1)) + Total(Unfinished(rest))
    ensures (forall t :: t in rest ==> rest[t] == 0 || v <= rest[t]) ==>
              Total(Delays(rest, v)) == Total(Delays(rest, v - 1)) + Total(Unfinished(rest))
  {
    TotalOfSums(Delays(rest, v), Delays(rest, v - 1), Unfinished(rest));
  }

  /** Job x is dispatched for one tick. */
  predicate Worked(left: map<int, nat>, left': map<int, nat>, finish: map<int, nat>, finish': map<int, nat>, clock: nat, x: int) {
    && x in left && left[x] > 0 && left.Keys == finish.Keys && finish[x] == 0
    && left' == left[x := left[x] - 1]
    && finish' == if left[x] == 1 then finish[x := clock + 1] else finish
  }

  /** No unfinished job has less work left than job x. */
  ghost predicate Least(left: map<int, nat>, x: int)
    requires x in left
  {
    forall t :: t in left && t != x ==> left[t] == 0 || left[x] <= left[t]
  }

  lemma SplitBound(left: map<int, nat>, finish: map<int, nat>, clock: nat, x: int)
    requires x in left && x in finish
    ensures Total(left) == left[x] + Total(left - {x})
    ensures Total(finish) == finish[x] + Total(finish - {x})
    ensures Total(Unfinished(left)) == (if left[x] > 0 then 1 else 0) + Total(Unfinished(left - {x}))
    ensures PairDelays(left) == Total(Delays(left - {x}, left[x])) + PairDelays(left - {x})
  {
    TotalAt(left, x);
    TotalAt(finish, x);
    TotalAt(Unfinished(left), x);
    SameMap(Unfinished(left) - {x}, Unfinished(left - {x}));
    PairDelaysAt(left, x);
  }

  lemma OneTick(clock: nat, u: nat)
    ensures (clock + 1) * (1 + u) == clock * (1 + u) + 1 + u
    ensures (clock + 1) * u + clock + 1 == clock * (1 + u) + u + 1
  {
  }

  /** The bound as a sum of job x and the rest. */
  lemma BoundSplit(left: map<int, nat>, finish: map<int, nat>, clock: nat, x: int, u: nat)
    requires x in left && x in finish && u == Total(Unfinished(left - {x}))
    ensures Bound(left, finish, clock) ==
            finish[x] + Total(finish - {x}) + clock * ((if left[x] > 0 then 1 else 0) + u)
            + left[x] + Total(left - {x}) + Total(Delays(left - {x}, left[x])) + PairDelays(left - {x})
  {
    SplitBound(left, finish, clock, x);
  }

  /** The bound never falls, and it stays the same when the job with the least work left is dispatched. */
  lemma WorkRaisesBound(left: map<int, nat>, left': map<int, nat>, finish: map<int, nat>, finish': map<int, nat>, clock: nat, x: int)
    requires Worked(left, left', finish, finish', clock, x)
    ensures Bound(left, finish, clock) <= Bound(left', finish', clock + 1)
    ensures Least(left, x) ==> Bound(left, finish, clock) == Bound(left', finish', clock + 1)
  {
    hide Total, PairDelays, Delays, Unfinished, Bound;
    var rest := left - {x};
    assert left' - {x} == rest;
    assert finish' - {x} == finish - {x};
    var u, v := Total(Unfinished(rest)), left[x];
    BoundSplit(left, finish, clock, x, u);
    BoundSplit(left', finish', clock + 1, x, u);
    OneUnitLess(rest, v);
    OneTick(clock, u);
    assert Bound(left', finish', clock + 1) + Total(Delays(rest, v)) == Bound(left, finish, clock) + Total(Delays(rest, v - 1)) + u;
  }

  lemma {:induction false} NothingDelays(m: map<int, nat>)
    requires forall t :: t in m ==> m[t] == 0
    ensures Total(m) == 0 && Total(Unfinished(m)) == 0 && PairDelays(m) == 0
    decreases |m|
  {
    if m == map[] {
      assert Unfinished(m) == map[];
    } else {
      var x := Some(m);
      SplitBound(m, m, 0, x);
      NothingDelays(m - {x});
      AllZero(Delays(m - {x}, m[x]));
    }
  }

  /** When all the work is done, the bound is the sum of the finish ticks. */
  lemma BoundAtEnd(left: map<int, nat>, finish: map<int, nat>, clock: nat)
    requires forall t :: t in left ==> left[t] == 0
    ensures Bound(left, finish, clock) == Total(finish)
  {
    NothingDelays(left);
  }

  // ---- some of the jobs ----

  /** The work of the jobs in s. */
  function Part(m: map<int, nat>, s: set<int>): map<int, nat> {
    map t | t in m :: if t in s then m[t] else 0
  }

  lemma PartGrows(m: map<int, nat>, s: set<int>, s': set<int>)
    requires s <= s'
    ensures Total(Part(m, s)) <= Total(Part(m, s'))
  {
    TotalBound(Part(m, s'), Part(m, s), 0);
  }

  lemma PartPlus(m: map<int, nat>, s: set<int>, x: int)
    requires x in m && x !in s
    ensures Total(Part(m, s + {x})) == Total(Part(m, s)) + m[x]
  {
    SameMap(Part(m, s)[x := m[x]], Part(m, s + {x}));
    TotalUpdate(Part(m, s), x, m[x]);
  }

  /** Work that is done and work that is left. */
  lemma DoneAndLeft(m: map<int, nat>, left: map<int, nat>, done: set<int>)
    requires left.Keys == m.Keys
    requires forall t :: t in m ==> left[t] <= if t in done then 0 else m[t]
    ensures Total(Part(m, done)) + Total(left) <= Total(m)
    ensures (forall t :: t in m && t !in done ==> left[t] == m[t]) ==> Total(Part(m, done)) + Total(left) == Total(m)
  {
    var rest := Part(m, m.Keys - done);
    TotalOfSums(m, Part(m, done), rest);
    TotalBound(rest, left, 0);
    if forall t :: t in m && t !in done ==> left[t] == m[t] { SameMap(rest, left); }
  }

  /** p holds the jobs with the least work, whatever the order among equals. */
  ghost predicate LeastWork(m: map<int, nat>, p: set<int>) {
    p <= m.Keys && forall x, y :: x in p && y in m && y !in p ==> m[x] <= m[y]
  }

  lemma OneOutside(p: set<int>, f: set<int>, x: int) returns (y: int)
    requires x in p && x !in f && |p| <= |f|
    ensures y in f && y !in p
  {
    if f - p == {} {
      assert forall z :: z in f ==> z in f - p || z in p;
      SubsetSize(f + {x}, p);
      assert false;
    }
    y := Member(f - p);
  }

  /** They have no more work than as many jobs chosen in any other way. */
  lemma {:induction false} LeastWorkIsLeast(m: map<int, nat>, p: set<int>, f: set<int>)
    requires LeastWork(m, p) && f <= m.Keys && |p| <= |f|
    ensures Total(Part(m, p)) <= Total(Part(m, f))
    decreases p - f
  {
    if p - f == {} {
      assert p <= f;
      PartGrows(m, p, f);
    } else {
      var x := Member(p - f);
      var y := OneOutside(p, f, x);
      var rest := f - {y};
      assert rest + {y} == f;
      PartPlus(m, rest, y);
      PartPlus(m, rest, x);
      LeastWorkIsLeast(m, p, rest + {x});
    }
  }
}
