/** When more frames cannot hurt FIFO: exactly when there are none more, or at least twice as
    many as before less one. In between, Belady's anomaly occurs for every number of frames. */
module FifoFrames {
  import opened Collections
  import opened PageReplacement

  // ---- first in, first out ----

  function Newest(s: seq<int>, k: nat): seq<int> {
    if |s| <= k then s else s[|s| - k..]
  }

  /** The pages loaded by the accesses, in the order of loading. */
  function Loads(k: nat, resident: seq<int>, pages: seq<int>): seq<int>
    requires 0 < k && |resident| <= k
    decreases |pages|
  {
    if pages == [] then []
    else
      var rest := Loads(k, Access(FIFO, k, resident, pages[0]), pages[1..]);
      if pages[0] in resident then rest else [pages[0]] + rest
  }

  /** With k frames, FIFO's list is the k pages loaded last, in the order of loading: using a
      page again changes nothing. */
  lemma {:induction false} FifoIsLoadOrder(k: nat, resident: seq<int>, pages: seq<int>)
    requires 0 < k && |resident| <= k
    ensures After(FIFO, k, resident, pages) == Newest(resident + Loads(k, resident, pages), k)
    ensures Faults(FIFO, k, resident, pages) == |Loads(k, resident, pages)|
    decreases |pages|
  {
    if pages == [] {
      assert resident + [] == resident;
    } else {
      var after, rest := Access(FIFO, k, resident, pages[0]), pages[1..];
      FifoIsLoadOrder(k, after, rest);
      if pages[0] !in resident { NewestAgain(resident, pages[0], Loads(k, after, rest), k); }
    }
  }

  lemma NewestAgain(resident: seq<int>, page: int, more: seq<int>, k: nat)
    requires 0 < k && |resident| <= k
    ensures Newest((if |resident| < k then resident + [page] else resident[1..] + [page]) + more, k) ==
            Newest(resident + ([page] + more), k)
  {
    var all := resident + ([page] + more);
    if |resident| < k {
      assert resident + [page] + more == all;
    } else {
      assert resident[1..] + [page] + more == all[1..];
    }
  }

  // ---- at least 2k - 1 frames ----

  /** A memory a of k frames beside a larger one, b. The pages in g came into a while b had them
      already, and have not been loaded into b since; every other page of a is in b, where fewer
      pages can have followed it than k - 1 besides those that followed it in a. */
  ghost predicate Covered(k: nat, a: seq<int>, b: seq<int>, g: set<int>) {
    && NoDup(a) && NoDup(b) && |a| <= k && g <= Pages(a)
    && (forall i :: 0 <= i < |a| && a[i] !in g ==> a[i] in b)
    && (forall i, j :: 0 <= i < |a| && 0 <= j < |b| && a[i] == b[j] && a[i] !in g ==>
          (|b| - 1 - j) + |g| <= (|a| - 1 - i) + k - 1)
  }

  lemma FewOthers(a: seq<int>, g: set<int>, q: int)
    requires NoDup(a) && q in a && g <= Pages(a) && q !in g
    ensures |g| <= |a| - 1
  {
    SeqAsSet(a);
    SubsetSize(g + {q}, Pages(a));
  }

  /** Only the larger memory faults: on a page of g, which it then has for good measure. */
  lemma Gain(k: nat, more: nat, a: seq<int>, b: seq<int>, g: set<int>, q: int)
    requires 0 < k && 2 * k - 1 <= more && Covered(k, a, b, g) && |b| <= more && q in a && q !in b
    ensures q in g && Covered(k, a, Access(FIFO, more, b, q), g - {q})
  {
    var b' := Access(FIFO, more, b, q);
    AccessKeeps(FIFO, more, b, q);
    FewOthers(a, g - {q}, q);
    var out := if |b| < more then 0 else 1;
    assert b' == b[out..] + [q];
    forall i | 0 <= i < |a| && a[i] !in g - {q} ensures a[i] in b' {
      if a[i] != q {
        var j :| 0 <= j < |b| && b[j] == a[i];
        assert out <= j;
        assert b'[j - out] == a[i];
      }
    }
    forall i, j | 0 <= i < |a| && 0 <= j < |b'| && a[i] == b'[j] && a[i] !in g - {q}
      ensures (|b'| - 1 - j) + |g - {q}| <= (|a| - 1 - i) + k - 1
    {
      if j < |b'| - 1 { assert b'[j] == b[j + out]; }
    }
  }

  /** Only the smaller memory faults: the page joins g, the oldest page may leave it. */
  lemma Loss(k: nat, a: seq<int>, b: seq<int>, g: set<int>, q: int) returns (g': set<int>)
    requires 0 < k && Covered(k, a, b, g) && q !in a && q in b
    ensures Covered(k, Access(FIFO, k, a, q), b, g') && |g'| <= |g| + 1
  {
    var a' := Access(FIFO, k, a, q);
    AccessKeeps(FIFO, k, a, q);
    var out := if |a| < k then 0 else 1;
    assert a' == a[out..] + [q];
    g' := (if out == 1 then g - {a[0]} else g) + {q};
    forall i | 0 <= i < |a'| - 1 ensures a'[i] == a[i + out] && (a'[i] in g' <==> a[i + out] in g) { }
  }

  /** The list after a fault: out of it goes what had to, in comes the page, last. */
  lemma FaultShifts(k: nat, a: seq<int>, q: int) returns (out: nat)
    requires 0 < k && |a| <= k && NoDup(a) && q !in a
    ensures var a' := Access(FIFO, k, a, q);
            && NoDup(a') && |a'| == |a| - out + 1 && a'[|a'| - 1] == q
            && (forall i :: 0 <= i < |a'| - 1 ==> a'[i] == a[i + out])
    ensures out == if |a| < k then 0 else 1
  {
    out := if |a| < k then 0 else 1;
    assert Access(FIFO, k, a, q) == a[out..] + [q];
  }

  /** A page that stays in the smaller memory is not the next to leave the larger one. */
  lemma StaysInBoth(k: nat, more: nat, a: seq<int>, b: seq<int>, g: set<int>, i: nat, q: int)
    requires 0 < k && 2 * k - 1 <= more && Covered(k, a, b, g) && |b| <= more && q !in b
    requires i < |a| && a[i] !in g && (|a| < k || i > 0)
    ensures a[i] in Access(FIFO, more, b, q)
  {
    var gone := if |b| < more then 0 else 1;
    var j :| 0 <= j < |b| && b[j] == a[i];
    assert (|b| - 1 - j) + |g| <= (|a| - 1 - i) + k - 1;
    assert gone <= j;
    assert Access(FIFO, more, b, q)[j - gone] == a[i];
  }

  lemma RanksKept(k: nat, a: seq<int>, b: seq<int>, g: set<int>, a': seq<int>, b': seq<int>, g': set<int>, out: nat, gone: nat)
    requires Covered(k, a, b, g) && NoDup(a') && NoDup(b') && |g'| <= |g|
    requires 0 < |a'| == |a| - out + 1 && 0 < |b'| == |b| - gone + 1 && a'[|a'| - 1] == b'[|b'| - 1] && |g'| <= k - 1
    requires forall i :: 0 <= i < |a'| - 1 ==> a'[i] == a[i + out] && (a'[i] in g' <==> a[i + out] in g)
    requires forall j :: 0 <= j < |b'| - 1 ==> b'[j] == b[j + gone]
    ensures forall i, j :: 0 <= i < |a'| && 0 <= j < |b'| && a'[i] == b'[j] && a'[i] !in g' ==>
              (|b'| - 1 - j) + |g'| <= (|a'| - 1 - i) + k - 1
  {
    forall i, j | 0 <= i < |a'| && 0 <= j < |b'| && a'[i] == b'[j] && a'[i] !in g'
      ensures (|b'| - 1 - j) + |g'| <= (|a'| - 1 - i) + k - 1
    {
      if i < |a'| - 1 {
        assert j < |b'| - 1;
        assert b[j + gone] == a[i + out];
      }
    }
  }

  /** Both fault, and both take the page in last. */
  lemma BothFault(k: nat, more: nat, a: seq<int>, b: seq<int>, g: set<int>, q: int) returns (g': set<int>)
    requires 0 < k && 2 * k - 1 <= more && Covered(k, a, b, g) && |b| <= more && q !in a && q !in b
    ensures Covered(k, Access(FIFO, k, a, q), Access(FIFO, more, b, q), g') && |g'| <= |g|
  {
    hide Access;
    var a', b' := Access(FIFO, k, a, q), Access(FIFO, more, b, q);
    var out := FaultShifts(k, a, q);
    var gone := FaultShifts(more, b, q);
    g' := if out == 1 then g - {a[0]} else g;
    SubsetSize(g', g);
    forall i | 0 <= i < |a'| - 1 ensures a'[i] in g' <==> a[i + out] in g { }
    forall p | p in g' ensures p in a' {
      var i :| 0 <= i < |a| && a[i] == p;
      assert a'[i - out] == p;
    }
    FewOthers(a', g', q);
    forall i | 0 <= i < |a'| && a'[i] !in g' ensures a'[i] in b' {
      if i < |a'| - 1 { StaysInBoth(k, more, a, b, g, i + out, q); }
    }
    RanksKept(k, a, b, g, a', b', g', out, gone);
  }

  /** From covered memories on, the larger one faults at most |g| times more often. */
  lemma {:induction false} CoveredFaults(k: nat, more: nat, a: seq<int>, b: seq<int>, g: set<int>, pages: seq<int>)
    requires 0 < k && 2 * k - 1 <= more && Covered(k, a, b, g) && |b| <= more
    ensures Faults(FIFO, more, b, pages) <= Faults(FIFO, k, a, pages) + |g|
    decreases |pages|
  {
    if pages != [] {
      var q, rest := pages[0], pages[1..];
      var a', b' := Access(FIFO, k, a, q), Access(FIFO, more, b, q);
      if q in a && q in b {
        CoveredFaults(k, more, a, b, g, rest);
      } else if q in a {
        Gain(k, more, a, b, g, q);
        CoveredFaults(k, more, a, b', g - {q}, rest);
      } else if q in b {
        var g' := Loss(k, a, b, g, q);
        CoveredFaults(k, more, a', b, g', rest);
      } else {
        var g' := BothFault(k, more, a, b, g, q);
        CoveredFaults(k, more, a', b', g', rest);
      }
    }
  }

  // ---- between k + 1 and 2k - 2 frames ----

  /** From place hi on, no page of c is among the k before it, as far back as place lo. */
  ghost predicate Apart(k: nat, c: seq<int>, lo: nat, hi: nat) {
    forall i, j :: lo <= j < i && hi <= i < |c| && i <= j + k ==> c[j] != c[i]
  }

  /** Where the k last of n pages begin, not before place lo. */
  function Start(k: nat, n: nat, lo: nat): nat
    requires lo <= n
  {
    if n - lo <= k then lo else n - k
  }

  lemma StartOnce(k: nat, n: nat, lo: nat, hi: nat)
    requires lo <= hi < n
    ensures lo <= Start(k, hi + 1, lo) <= hi + 1 && Start(k, n, Start(k, hi + 1, lo)) == Start(k, n, lo)
  {
  }

  lemma Slide(k: nat, c: seq<int>, lo: nat, hi: nat)
    requires 0 < k && lo <= hi < |c| && hi - lo <= k && Apart(k, c, lo, hi)
    ensures c[hi] !in c[lo..hi]
    ensures Access(FIFO, k, c[lo..hi], c[hi]) == c[Start(k, hi + 1, lo)..hi + 1]
  {
    var q, out := c[lo..hi], if hi - lo < k then 0 else 1;
    assert forall j :: 0 <= j < |q| ==> q[j] == c[lo + j];
    assert q[out..] + [c[hi]] == c[lo + out..hi + 1];
  }

  lemma MissThen(k: nat, c: seq<int>, lo: nat, hi: nat)
    requires 0 < k && lo <= hi < |c| && hi - lo <= k && Apart(k, c, lo, hi)
    ensures var lo' := Start(k, hi + 1, lo);
            && Faults(FIFO, k, c[lo..hi], c[hi..]) == 1 + Faults(FIFO, k, c[lo'..hi + 1], c[hi + 1..])
            && After(FIFO, k, c[lo..hi], c[hi..]) == After(FIFO, k, c[lo'..hi + 1], c[hi + 1..])
  {
    hide Access;
    Slide(k, c, lo, hi);
    assert c[hi..] != [] && c[hi..][0] == c[hi] && c[hi..][1..] == c[hi + 1..];
  }

  /** Then every access to them misses, and FIFO holds the k accessed last. */
  lemma {:induction false} AllMiss(k: nat, c: seq<int>, lo: nat, hi: nat)
    requires 0 < k && lo <= hi <= |c| && hi - lo <= k && Apart(k, c, lo, hi)
    ensures Faults(FIFO, k, c[lo..hi], c[hi..]) == |c| - hi
    ensures After(FIFO, k, c[lo..hi], c[hi..]) == c[Start(k, |c|, lo)..]
    decreases |c| - hi
  {
    if hi == |c| {
      assert c[hi..] == [] && c[lo..hi] == c[lo..];
    } else {
      hide Faults, After, Access;
      MissThen(k, c, lo, hi);
      var lo' := Start(k, hi + 1, lo);
      assert Apart(k, c, lo', hi + 1);
      hide Apart;
      AllMiss(k, c, lo', hi + 1);
      StartOnce(k, |c|, lo, hi);
    }
  }

  lemma {:induction false} AllHit(k: nat, q: seq<int>, w: seq<int>)
    requires 0 < k && |q| <= k
    requires forall p :: p in w ==> p in q
    ensures Faults(FIFO, k, q, w) == 0 && After(FIFO, k, q, w) == q
    decreases |w|
  {
    if w != [] { AllHit(k, q, w[1..]); }
  }

  /** The numbers from lo to hi - 1. */
  function Range(lo: int, hi: int): (s: seq<int>)
    requires lo <= hi
    ensures |s| == hi - lo && forall p :: p in s <==> lo <= p < hi
  {
    var s := seq(hi - lo, i requires 0 <= i < hi - lo => lo + i);
    assert forall p :: lo <= p < hi ==> p in s by {
      forall p | lo <= p < hi ensures p in s { assert s[p - lo] == p; }
    }
    s
  }

  lemma RangeSplit(lo: int, mid: int, hi: int)
    requires lo <= mid <= hi
    ensures Range(lo, hi) == Range(lo, mid) + Range(mid, hi)
  {
  }

  /** Belady's sequence for k and m frames. */
  function Opening(k: nat, m: nat): seq<int>
    requires 0 < k
  {
    Range(1, m + 1) + Range(1, k)
  }

  function Closing(m: nat): seq<int> {
    [m + 1] + Range(1, m + 1) + [m + 1]
  }

  lemma WithMore(k: nat, m: nat)
    requires 0 < k < m
    ensures Faults(FIFO, m, [], Opening(k, m) + Closing(m)) == 2 * m + 2
  {
    hide Faults, After, Access;
    var s := Range(1, m + 1);
    var c := s + Closing(m);
    assert s[0..0] == [] && s[0..] == s && c[0..m] == s && c[m..] == Closing(m);
    AllMiss(m, s, 0, 0);
    AllHit(m, s, Range(1, k));
    SplitFaults(FIFO, m, [], s, Range(1, k));
    assert Apart(m, c, 0, m) by {
      forall j | 0 <= j < |c| ensures c[j] == if j <= m then j + 1 else j - m { }
    }
    AllMiss(m, c, 0, m);
    SplitFaults(FIFO, m, [], Opening(k, m), Closing(m));
  }

  lemma OpeningWithFewer(k: nat, m: nat)
    requires 0 < k < m
    ensures Faults(FIFO, k, [], Opening(k, m)) == m + k - 1
    ensures After(FIFO, k, [], Opening(k, m)) == [m] + Range(1, k)
  {
    var c := Opening(k, m);
    assert c[0..0] == [] && c[0..] == c && c[m - 1..] == [m] + Range(1, k);
    assert Apart(k, c, 0, 0) by {
      forall j | 0 <= j < |c| ensures c[j] == if j < m then j + 1 else j - m + 1 { }
    }
    AllMiss(k, c, 0, 0);
  }

  lemma ClosingWithFewer(k: nat, m: nat)
    requires 0 < k < m <= 2 * k - 2
    ensures Faults(FIFO, k, [m] + Range(1, k), Closing(m)) == m + 2 - k
  {
    hide Faults, After, Access, Range;
    var hits, misses, p := Range(1, k), Range(k, m + 1), [m + 1];
    var q0, q := [m] + hits, hits + p;
    NextMisses(k, q0, m + 1);
    AllHit(k, q, hits);
    LastMisses(k, m);
    var kept := After(FIFO, k, q, misses);
    AllHit(k, kept, p);
    SplitFaults(FIFO, k, q, misses, p);
    SplitFaults(FIFO, k, q, hits, misses + p);
    SplitFaults(FIFO, k, q0, p, hits + (misses + p));
    RangeSplit(1, k, m + 1);
    assert Closing(m) == p + (hits + (misses + p));
  }

  lemma NextMisses(k: nat, q: seq<int>, p: int)
    requires 0 < k == |q| && p !in q
    ensures Faults(FIFO, k, q, [p]) == 1 && After(FIFO, k, q, [p]) == q[1..] + [p]
  {
    assert [p][1..] == [];
  }

  lemma LastMisses(k: nat, m: nat)
    requires 0 < k < m <= 2 * k - 2
    ensures var q, misses := Range(1, k) + [m + 1], Range(k, m + 1);
            Faults(FIFO, k, q, misses) == m + 1 - k && m + 1 in After(FIFO, k, q, misses)
  {
    var q, misses := Range(1, k) + [m + 1], Range(k, m + 1);
    var c := q + misses;
    assert c[0..k] == q && c[k..] == misses;
    assert Apart(k, c, 0, k) by {
      forall j | 0 <= j < |c| ensures c[j] == if j < k - 1 then j + 1 else if j == k - 1 then m + 1 else j { }
    }
    AllMiss(k, c, 0, k);
    assert c[m + 1 - k..][2 * k - 2 - m] == c[k - 1];
  }

  /** Belady's anomaly, for all numbers of frames between which it can occur. */
  lemma Anomaly(k: nat, more: nat)
    requires 0 < k < more < 2 * k - 1
    ensures exists pages :: Faults(FIFO, more, [], pages) > Faults(FIFO, k, [], pages)
  {
    WithMore(k, more);
    OpeningWithFewer(k, more);
    ClosingWithFewer(k, more);
    SplitFaults(FIFO, k, [], Opening(k, more), Closing(more));
    assert Faults(FIFO, more, [], Opening(k, more) + Closing(more)) > Faults(FIFO, k, [], Opening(k, more) + Closing(more));
  }

  // ---- both ----

  lemma EnoughFrames(k: nat, more: nat, pages: seq<int>)
    requires 0 < k && (more == k || 2 * k - 1 <= more)
    ensures Faults(FIFO, more, [], pages) <= Faults(FIFO, k, [], pages)
  {
    if 2 * k - 1 <= more {
      CoveredFaults(k, more, [], [], {}, pages);
    }
  }

  /** From an empty memory, going from k frames to more never costs FIFO a fault, whatever the
      accesses, exactly when there are no more frames or at least 2k - 1 of them. */
  lemma MoreFramesNeverHurt(k: nat, more: nat)
    requires 0 < k <= more
    ensures (forall pages :: Faults(FIFO, more, [], pages) <= Faults(FIFO, k, [], pages)) <==> more == k || 2 * k - 1 <= more
  {
    if more == k || 2 * k - 1 <= more {
      forall pages ensures Faults(FIFO, more, [], pages) <= Faults(FIFO, k, [], pages) {
        EnoughFrames(k, more, pages);
      }
    } else {
      Anomaly(k, more);
    }
  }

  // ---- few distinct pages ----

  /** Every distinct page that is not in memory has to fault at least once. */
  lemma {:induction false} EachPageFaults(algo: Algo, k: nat, resident: seq<int>, pages: seq<int>)
    requires 0 < k && |resident| <= k && NoDup(resident)
    ensures |Pages(pages) - Pages(resident)| <= Faults(algo, k, resident, pages)
    decreases |pages|
  {
    if pages != [] {
      var q, rest := pages[0], pages[1..];
      var after := Access(algo, k, resident, q);
      AccessKeeps(algo, k, resident, q);
      EachPageFaults(algo, k, after, rest);
      assert Pages(after) <= Pages(resident) + {q};
      var missing, later := Pages(pages) - Pages(resident), Pages(rest) - Pages(after);
      var loaded := if q in resident then later else later + {q};
      forall p | p in missing ensures p in loaded {
        assert p == q || p in Pages(rest);
      }
      SubsetSize(missing, loaded);
    }
  }

  /** And on accesses to no more distinct pages than frames, more frames never hurt either. */
  lemma FewPages(k: nat, more: nat, pages: seq<int>)
    requires 0 < k <= more && |Pages(pages)| <= more
    ensures Faults(FIFO, more, [], pages) <= Faults(FIFO, k, [], pages)
  {
    assert Pages(pages) - Pages([]) == Pages(pages);
    StretchFaults(FIFO, more, [], pages);
    EachPageFaults(FIFO, k, [], pages);
  }
}
