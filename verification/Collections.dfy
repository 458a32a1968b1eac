/** Facts about finite sets, sequences, maps and remainders that several modules share. */
module Collections {

  /** A member of a non-empty set. */
  lemma Member<T>(s: set<T>) returns (x: T)
    requires s != {}
    ensures x in s
  {
    EmptyOrInhabited(s);
    x :| x in s;
  }

  lemma EmptyOrInhabited<T>(s: set<T>)
    ensures s == {} || exists x :: x in s
  {
  }

  lemma {:induction false} SubsetSize<T>(a: set<T>, b: set<T>)
    requires a <= b
    ensures |a| <= |b|
  {
    if a != {} {
      var x := Member(a);
      SubsetSize(a - {x}, b - {x});
    }
  }

  /** Adding a new member of the universe to a set shrinks what is left. */
  lemma FewerLeft<T>(all: set<T>, before: set<T>, after: set<T>, x: T)
    requires x in all && x !in before && before + {x} <= after
    ensures |all - after| < |all - before|
  {
    assert all - after <= all - before - {x};
    SubsetSize(all - after, all - before - {x});
  }

  lemma KeysWith<K, V>(w: map<K, V>, x: K, v: V)
    ensures w[x := v].Keys == w.Keys + {x}
  {
  }

  lemma KeysWithout<K, V>(w: map<K, V>, x: K)
    ensures (w - {x}).Keys == w.Keys - {x}
  {
  }

  lemma SwapUpdates<K, V>(w: map<K, V>, x: K, v: V, y: K, u: V)
    requires x != y
    ensures w[x := v][y := u] == w[y := u][x := v]
  {
  }

  predicate NoDup<T(==)>(s: seq<T>) {
    forall i, j :: 0 <= i < j < |s| ==> s[i] != s[j]
  }

  lemma NoDupTail<T>(s: seq<T>)
    requires NoDup(s) && s != []
    ensures NoDup(s[1..]) && s[0] !in s[1..]
    ensures forall x :: x in s <==> x == s[0] || x in s[1..]
  {
    assert s == [s[0]] + s[1..];
  }

  /** The sequence without any occurrence of x (the erase-remove idiom). */
  function Without(s: seq<int>, x: int): (r: seq<int>)
    ensures |r| <= |s| && (x in s ==> |r| < |s|)
  {
    if s == [] then []
    else if s[0] == x then Without(s[1..], x)
    else [s[0]] + Without(s[1..], x)
  }

  lemma {:induction false} WithoutElements(s: seq<int>, x: int)
    ensures x !in Without(s, x)
    ensures forall y :: y != x ==> (y in Without(s, x) <==> y in s)
  {
    if s != [] {
      WithoutElements(s[1..], x);
      assert s == [s[0]] + s[1..];
    }
  }

  lemma {:induction false} WithoutAbsent(s: seq<int>, x: int)
    requires x !in s
    ensures Without(s, x) == s
  {
    if s != [] {
      WithoutAbsent(s[1..], x);
    }
  }

  lemma {:induction false} WithoutBehind(front: seq<int>, back: seq<int>, x: int)
    requires x !in front
    ensures Without(front + back, x) == front + Without(back, x)
  {
    if front == [] {
      assert front + back == back;
    } else {
      var s := front + back;
      assert s[0] == front[0] && s[1..] == front[1..] + back;
      WithoutBehind(front[1..], back, x);
    }
  }

  /** Taking out the one occurrence of x. */
  lemma WithoutMiddle(front: seq<int>, x: int, back: seq<int>)
    requires x !in front && x !in back
    ensures Without(front + [x] + back, x) == front + back
  {
    assert front + [x] + back == front + ([x] + back);
    WithoutBehind(front, [x] + back, x);
    assert ([x] + back)[1..] == back;
    WithoutAbsent(back, x);
  }

  lemma WithoutThis(s: seq<int>, i: nat)
    requires NoDup(s) && i < |s|
    ensures Without(s, s[i]) == s[..i] + s[i + 1..]
  {
    assert s == s[..i] + [s[i]] + s[i + 1..];
    WithoutMiddle(s[..i], s[i], s[i + 1..]);
  }

  lemma WithoutIs(s: seq<int>, x: int)
    requires NoDup(s)
    ensures NoDup(Without(s, x)) && x !in Without(s, x)
    ensures forall y :: y in Without(s, x) <==> y in s && y != x
    ensures |Without(s, x)| == |s| - (if x in s then 1 else 0)
  {
    WithoutElements(s, x);
    if x in s {
      var i :| 0 <= i < |s| && s[i] == x;
      WithoutThis(s, i);
    } else {
      WithoutAbsent(s, x);
    }
  }

  lemma SameMap(w: map<int, nat>, w': map<int, nat>)
    requires w.Keys == w'.Keys
    requires forall x :: x in w ==> w'[x] == w[x]
    ensures w == w'
  {
    assert forall x :: x in w ==> w[x] == w'[x];
  }

  /** The sum of the values of a map. */
  ghost function Total(w: map<int, nat>): nat
    decreases |w|
  {
    if w == map[] then 0
    else
      var x := Some(w);
      w[x] + Total(w - {x})
  }

  /** Some key of a non-empty map. */
  ghost function Some(w: map<int, nat>): (x: int)
    requires w != map[]
    ensures x in w
  {
    EmptyOrKey(w);
    var x :| x in w;
    x
  }

  lemma EmptyOrKey(w: map<int, nat>)
    ensures w == map[] || exists x :: x in w
  {
    if w.Keys == {} {
      assert w == map[];
    } else {
      var x := Member(w.Keys);
      assert x in w;
    }
  }

  /** Any key may be taken out first. */
  lemma {:induction false} TotalAt(w: map<int, nat>, x: int)
    requires x in w
    ensures Total(w) == w[x] + Total(w - {x})
    decreases |w|
  {
    var y := Some(w);
    if x != y {
      TotalAt(w - {y}, x);
      TotalAt(w - {x}, y);
      assert w - {y} - {x} == w - {x} - {y};
    }
  }

  lemma {:induction false} AllZero(m: map<int, nat>)
    requires forall t :: t in m ==> m[t] == 0
    ensures Total(m) == 0
    decreases |m|
  {
    if m != map[] { AllZero(m - {Some(m)}); }
  }

  /** Further keys of value 0 add nothing. */
  lemma {:induction false} TotalOfPart(w: map<int, nat>, w': map<int, nat>)
    requires w.Keys <= w'.Keys
    requires forall x :: x in w' ==> w'[x] == if x in w then w[x] else 0
    ensures Total(w') == Total(w)
    decreases |w|
  {
    if w == map[] {
      AllZero(w');
    } else {
      var x := Some(w);
      TotalAt(w', x);
      TotalOfPart(w - {x}, w' - {x});
    }
  }

  lemma OneKeyLess(w: map<int, nat>, x: int, d: nat)
    requires x in w
    ensures |w - {x}| == |w| - 1 && d * |w| == d * |w - {x}| + d
  {
    assert (w - {x}).Keys == w.Keys - {x};
    assert |w| == |w.Keys| && |w - {x}| == |(w - {x}).Keys|;
    var n := |w| - 1;
    assert d * (n + 1) == d * n + d;
  }

  /** If no value grows by more than d, the sum grows by at most d per key. */
  lemma {:induction false} TotalBound(w: map<int, nat>, w': map<int, nat>, d: nat)
    requires w.Keys == w'.Keys
    requires forall x :: x in w ==> w'[x] <= w[x] + d
    ensures Total(w') <= Total(w) + d * |w|
    decreases |w|
  {
    if w == map[] {
      assert w' == map[];
    } else {
      var x := Some(w);
      TotalAt(w', x);
      TotalBound(w - {x}, w' - {x}, d);
      OneKeyLess(w, x, d);
    }
  }

  /** One key changes, the others do not. */
  lemma TotalUpdate(w: map<int, nat>, x: int, v: nat)
    requires x in w
    ensures Total(w[x := v]) + w[x] == Total(w) + v
  {
    TotalAt(w, x);
    TotalAt(w[x := v], x);
    assert w[x := v] - {x} == w - {x};
  }

  /** One value drops by more than the others can gain together. */
  lemma TotalDrop(w: map<int, nat>, w': map<int, nat>, x: int, d: nat)
    requires w.Keys == w'.Keys && x in w
    requires forall y :: y in w && y != x ==> w'[y] <= w[y] + d
    requires w'[x] + d * |w| < w[x] + d
    ensures Total(w') < Total(w)
  {
    hide Total;
    OneKeyLess(w, x, d);
    TotalAt(w, x);
    TotalAt(w', x);
    TotalBound(w - {x}, w' - {x}, d);
  }

  /** Only two values change, and their sum drops. */
  lemma TotalOfTwo(w: map<int, nat>, w': map<int, nat>, x: int, y: int)
    requires w.Keys == w'.Keys && x in w && y in w && x != y
    requires forall z :: z in w && z != x && z != y ==> w'[z] == w[z]
    requires w'[x] + w'[y] < w[x] + w[y]
    ensures Total(w') < Total(w)
  {
    var v := w[x := w'[x]];
    SameMap(v[y := w'[y]], w');
    TotalUpdate(w, x, w'[x]);
    TotalUpdate(v, y, w'[y]);
  }

  lemma TotalOfOne(w: map<int, nat>, w': map<int, nat>, x: int)
    requires w.Keys == w'.Keys && x in w
    requires forall z :: z in w && z != x ==> w'[z] == w[z]
    requires w'[x] < w[x]
    ensures Total(w') < Total(w)
  {
    SameMap(w[x := w'[x]], w');
    TotalUpdate(w, x, w'[x]);
  }

  lemma WrapsOnce(a: nat, n: nat)
    requires 0 < n && a < 2 * n
    ensures a % n == if a < n then a else a - n
  {
  }
}
