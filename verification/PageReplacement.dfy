/** Page replacement as sequences of resident pages: LRU's inclusion property, and the
    competitive bound that FIFO and LRU share. */
module PageReplacement {
  import opened Collections

  datatype Algo = FIFO | LRU

  /** What one access makes of the algorithm's list of resident pages, with k frames: FIFO keeps
      the oldest page first, LRU the most recently used. */
  function Access(algo: Algo, k: nat, resident: seq<int>, page: int): (after: seq<int>)
    requires 0 < k && |resident| <= k
    ensures |after| <= k && page in after
  {
    match algo
    case FIFO =>
      if page in resident then resident
      else if |resident| < k then resident + [page]
      else resident[1..] + [page]
    case LRU =>
      if page in resident then [page] + Without(resident, page)
      else if |resident| < k then [page] + resident
      else [page] + resident[..|resident| - 1]
  }

  lemma PrependNoDup(s: seq<int>, x: int)
    requires NoDup(s) && x !in s
    ensures NoDup([x] + s)
  {
  }

  lemma AppendNoDup(s: seq<int>, x: int)
    requires NoDup(s) && x !in s
    ensures NoDup(s + [x])
  {
  }

  /** The accessed page is resident afterwards, nothing else comes in, and a page leaves only
      on a fault with all frames taken: the list's victim. */
  lemma AccessKeeps(algo: Algo, k: nat, resident: seq<int>, page: int)
    requires 0 < k && |resident| <= k && NoDup(resident)
    ensures var after := Access(algo, k, resident, page);
            && NoDup(after) && page in after
            && |after| == (if page in resident || |resident| == k then |resident| else |resident| + 1)
            && (page in resident || |resident| < k ==> forall y :: y in after <==> y in resident || y == page)
            && (page !in resident && |resident| == k ==>
                  var victim := if algo == FIFO then resident[0] else resident[k - 1];
                  forall y :: y in after <==> (y in resident && y != victim) || y == page)
  {
    WithoutIs(resident, page);
    match algo {
      case FIFO =>
        if page !in resident {
          if |resident| < k {
            AppendNoDup(resident, page);
          } else {
            assert forall y :: y in resident <==> y == resident[0] || y in resident[1..];
            assert resident[0] !in resident[1..];
            AppendNoDup(resident[1..], page);
          }
        }
      case LRU =>
        if page in resident {
          PrependNoDup(Without(resident, page), page);
        } else if |resident| < k {
          PrependNoDup(resident, page);
        } else {
          var front, victim := resident[..k - 1], resident[k - 1];
          assert forall y :: y in resident <==> y == victim || y in front;
          assert victim !in front;
          PrependNoDup(front, page);
        }
    }
  }

  function After(algo: Algo, k: nat, resident: seq<int>, pages: seq<int>): seq<int>
    requires 0 < k && |resident| <= k
    ensures |After(algo, k, resident, pages)| <= k
    decreases |pages|
  {
    if pages == [] then resident else After(algo, k, Access(algo, k, resident, pages[0]), pages[1..])
  }

  /** How many of the accesses fault. */
  function Faults(algo: Algo, k: nat, resident: seq<int>, pages: seq<int>): nat
    requires 0 < k && |resident| <= k
    decreases |pages|
  {
    if pages == [] then 0
    else (if pages[0] in resident then 0 else 1) + Faults(algo, k, Access(algo, k, resident, pages[0]), pages[1..])
  }

  // ---- LRU: inclusion ----

  function Prefix(s: seq<int>, k: nat): seq<int> {
    if |s| <= k then s else s[..k]
  }

  /** The move-to-front list of all pages ever used. */
  function Recency(recent: seq<int>, pages: seq<int>): seq<int>
    decreases |pages|
  {
    if pages == [] then recent else Recency([pages[0]] + Without(recent, pages[0]), pages[1..])
  }

  lemma WithoutPrefix(s: seq<int>, x: int, k: nat)
    requires NoDup(s)
    ensures x in Prefix(s, k) ==> Without(Prefix(s, k), x) == Prefix(Without(s, x), k - 1)
    ensures x !in Prefix(s, k) ==> Prefix(Without(s, x), k) == Prefix(s, k)
    ensures k > 0 && x !in Prefix(s, k) ==> Prefix(Without(s, x), k - 1) == Prefix(s, k - 1)
  {
    hide Without;
    var p := Prefix(s, k);
    assert forall j :: 0 <= j < |p| ==> p[j] == s[j];
    if x in p {
      var i :| 0 <= i < |p| && p[i] == x;
      WithoutThis(s, i);
      WithoutThis(p, i);
    } else if x in s {
      var i :| 0 <= i < |s| && s[i] == x;
      WithoutThis(s, i);
    } else {
      WithoutAbsent(s, x);
    }
  }

  /** One access keeps the k-frame list the k-prefix of the recency list. */
  lemma InclusionStep(k: nat, recent: seq<int>, page: int)
    requires 0 < k && NoDup(recent)
    ensures Access(LRU, k, Prefix(recent, k), page) == Prefix([page] + Without(recent, page), k)
  {
    var p := Prefix(recent, k);
    WithoutPrefix(recent, page, k);
    assert Prefix([page] + Without(recent, page), k) == [page] + Prefix(Without(recent, page), k - 1);
    if page !in p {
      if |p| < k {
        assert p == recent;
        WithoutAbsent(recent, page);
      } else {
        assert p[..k - 1] == Prefix(recent, k - 1);
      }
    }
  }

  /** With k frames, LRU's list is the k-prefix of the move-to-front list of the whole history. */
  lemma {:induction false} LruIsRecencyPrefix(k: nat, recent: seq<int>, pages: seq<int>)
    requires 0 < k && NoDup(recent)
    ensures After(LRU, k, Prefix(recent, k), pages) == Prefix(Recency(recent, pages), k)
    decreases |pages|
  {
    if pages != [] {
      var next := [pages[0]] + Without(recent, pages[0]);
      WithoutIs(recent, pages[0]);
      PrependNoDup(Without(recent, pages[0]), pages[0]);
      InclusionStep(k, recent, pages[0]);
      LruIsRecencyPrefix(k, next, pages[1..]);
    }
  }

  /** More frames hold everything fewer frames hold, in the same order, so they never fault more. */
  lemma {:induction false} LruInclusion(k: nat, more: nat, recent: seq<int>, pages: seq<int>)
    requires 0 < k <= more && NoDup(recent)
    ensures After(LRU, k, Prefix(recent, k), pages) == Prefix(After(LRU, more, Prefix(recent, more), pages), k)
    ensures Faults(LRU, more, Prefix(recent, more), pages) <= Faults(LRU, k, Prefix(recent, k), pages)
  {
    LruIsRecencyPrefix(k, recent, pages);
    LruIsRecencyPrefix(more, recent, pages);
    FewerFaults(k, more, recent, pages);
  }

  lemma {:induction false} FewerFaults(k: nat, more: nat, recent: seq<int>, pages: seq<int>)
    requires 0 < k <= more && NoDup(recent)
    ensures Faults(LRU, more, Prefix(recent, more), pages) <= Faults(LRU, k, Prefix(recent, k), pages)
    decreases |pages|
  {
    if pages != [] {
      var page := pages[0];
      WithoutIs(recent, page);
      PrependNoDup(Without(recent, page), page);
      InclusionStep(k, recent, page);
      InclusionStep(more, recent, page);
      FewerFaults(k, more, [page] + Without(recent, page), pages[1..]);
    }
  }

  // ---- both: k-competitive ----

  /** The distinct pages of a sequence. */
  function Pages(pages: seq<int>): set<int> {
    set p | p in pages
  }

  /** Which pages a stretch of accesses has brought within reach: for LRU all those accessed, at
      the front of the list; for FIFO those that faulted, at its back. */
  ghost predicate Secured(algo: Algo, resident: seq<int>, safe: set<int>) {
    && |safe| <= |resident|
    && match algo
       case FIFO => forall p :: p in resident[|resident| - |safe|..] <==> p in safe
       case LRU => forall p :: p in resident[..|safe|] <==> p in safe
  }

  lemma SecuredAreResident(algo: Algo, resident: seq<int>, safe: set<int>, page: int)
    requires Secured(algo, resident, safe) && page in safe
    ensures page in resident
  {
    if algo == FIFO {
      assert page in resident[|resident| - |safe|..];
    } else {
      assert page in resident[..|safe|];
    }
  }

  lemma {:induction false} SeqAsSet(s: seq<int>)
    requires NoDup(s)
    ensures |Pages(s)| == |s|
  {
    if s != [] {
      var t := s[1..];
      SeqAsSet(t);
      assert Pages(s) == Pages(t) + {s[0]};
      assert s[0] !in Pages(t);
    }
  }

  /** FIFO's newest pages stay while fewer than k pages have faulted since. */
  lemma FifoSecures(k: nat, resident: seq<int>, page: int, safe: set<int>)
    requires 0 < k && |resident| <= k && NoDup(resident) && |safe| < k
    requires Secured(FIFO, resident, safe) && page !in resident
    ensures Secured(FIFO, Access(FIFO, k, resident, page), safe + {page}) && page !in safe
  {
    var n := |safe|;
    var newest := resident[|resident| - n..];
    assert page in newest ==> page in resident;
    assert page !in safe;
    var after := Access(FIFO, k, resident, page);
    assert |safe + {page}| == n + 1;
    assert after[|after| - (n + 1)..] == newest + [page];
    forall p ensures p in newest + [page] <==> p in safe + {page} { }
  }

  /** LRU's most recent pages are exactly those accessed since. */
  lemma LruSecures(k: nat, resident: seq<int>, page: int, safe: set<int>)
    requires 0 < k && |resident| <= k && NoDup(resident) && |safe + {page}| <= k
    requires Secured(LRU, resident, safe)
    ensures Secured(LRU, Access(LRU, k, resident, page), safe + {page})
  {
    var n := |safe|;
    var front, back := resident[..n], resident[n..];
    assert resident == front + back;
    assert NoDup(front);
    if page in safe {
      assert safe + {page} == safe;
      assert page in front;
      WithoutInFront(front, back, page);
      WithoutIs(front, page);
      var after := Access(LRU, k, resident, page);
      assert after[..n] == [page] + Without(front, page);
    } else {
      assert page !in front;
      assert |safe + {page}| == n + 1;
      var after := Access(LRU, k, resident, page);
      if page in resident {
        WithoutBehind(front, back, page);
      }
      assert after[..n + 1] == [page] + front;
    }
  }

  lemma {:induction false} WithoutInFront(front: seq<int>, back: seq<int>, x: int)
    requires NoDup(front + back) && x in front
    ensures Without(front + back, x) == Without(front, x) + back
  {
    var s := front + back;
    assert s[0] == front[0] && s[1..] == front[1..] + back;
    assert NoDup(s[1..]);
    if front[0] == x {
      assert x !in s[1..];
      WithoutAbsent(s[1..], x);
      WithoutAbsent(front[1..], x);
    } else {
      WithoutInFront(front[1..], back, x);
    }
  }

  lemma OneMorePage(pages: seq<int>, seen: set<int>)
    requires pages != []
    ensures seen + Pages(pages) == (seen + {pages[0]}) + Pages(pages[1..])
  {
  }

  lemma {:induction false} FifoStretch(k: nat, resident: seq<int>, pages: seq<int>, seen: set<int>, safe: set<int>)
    requires 0 < k && |resident| <= k && NoDup(resident)
    requires Secured(FIFO, resident, safe) && safe <= seen && |seen + Pages(pages)| <= k
    ensures Faults(FIFO, k, resident, pages) + |safe| <= |seen + Pages(pages)|
    decreases |pages|
  {
    SubsetSize(safe, seen + Pages(pages));
    if pages != [] {
      var page, rest := pages[0], pages[1..];
      OneMorePage(pages, seen);
      if page in resident {
        FifoStretch(k, resident, rest, seen + {page}, safe);
      } else {
        hide Secured;
        RoomForPage(k, safe, page, seen + {page}, Pages(rest));
        FifoSecures(k, resident, page, safe);
        AccessKeeps(FIFO, k, resident, page);
        hide Access;
        FifoStretch(k, Access(FIFO, k, resident, page), rest, seen + {page}, safe + {page});
      }
    }
  }

  lemma {:induction false} LruStretch(k: nat, resident: seq<int>, pages: seq<int>, seen: set<int>)
    requires 0 < k && |resident| <= k && NoDup(resident)
    requires Secured(LRU, resident, seen) && |seen + Pages(pages)| <= k
    ensures Faults(LRU, k, resident, pages) + |seen| <= |seen + Pages(pages)|
    decreases |pages|
  {
    SubsetSize(seen, seen + Pages(pages));
    if pages != [] {
      hide Secured, Access, Pages;
      var page, rest := pages[0], pages[1..];
      OneMorePage(pages, seen);
      RoomForPage(k, seen, page, seen + {page}, Pages(rest));
      LruSecures(k, resident, page, seen);
      if page in seen { SecuredAreResident(LRU, resident, seen, page); }
      AccessKeeps(LRU, k, resident, page);
      LruStretch(k, Access(LRU, k, resident, page), rest, seen + {page});
    }
  }

  lemma RoomForPage(k: nat, safe: set<int>, page: int, seen: set<int>, more: set<int>)
    requires safe <= seen && page in seen && |seen + more| <= k
    ensures page in safe ==> safe + {page} == safe
    ensures page !in safe ==> |safe| < k && |safe + {page}| == |safe| + 1
    ensures |safe + {page}| <= k
  {
    SubsetSize(safe + {page}, seen + more);
  }

  /** In a stretch with at most k distinct pages, each page faults at most once. */
  lemma StretchFaults(algo: Algo, k: nat, resident: seq<int>, pages: seq<int>)
    requires 0 < k && |resident| <= k && NoDup(resident) && |Pages(pages)| <= k
    ensures Faults(algo, k, resident, pages) <= |Pages(pages)|
  {
    assert {} + Pages(pages) == Pages(pages);
    assert resident[|resident|..] == [] && resident[..0] == [];
    match algo
    case FIFO => FifoStretch(k, resident, pages, {}, {});
    case LRU => LruStretch(k, resident, pages, {});
  }

  /** Any way of managing the same number of frames: the contents after each access, of at most
      k pages, hold the page accessed and nothing that was not there before. */
  ghost predicate Schedule(k: nat, contents: set<int>, pages: seq<int>, frames: seq<set<int>>)
    decreases |pages|
  {
    && |frames| == |pages|
    && (pages != [] ==>
          && |frames[0]| <= k && pages[0] in frames[0] && frames[0] <= contents + {pages[0]}
          && Schedule(k, frames[0], pages[1..], frames[1..]))
  }

  ghost function ScheduleFaults(contents: set<int>, pages: seq<int>, frames: seq<set<int>>): nat
    requires |frames| == |pages|
    decreases |pages|
  {
    if pages == [] then 0
    else (if pages[0] in contents then 0 else 1) + ScheduleFaults(frames[0], pages[1..], frames[1..])
  }

  /** A schedule that does not fault only ever held what it started with. */
  lemma {:induction false} NoFaultsNoNewPages(k: nat, contents: set<int>, pages: seq<int>, frames: seq<set<int>>)
    requires Schedule(k, contents, pages, frames) && ScheduleFaults(contents, pages, frames) == 0
    ensures Pages(pages) <= contents
    decreases |pages|
  {
    if pages != [] {
      NoFaultsNoNewPages(k, frames[0], pages[1..], frames[1..]);
      assert Pages(pages) == Pages(pages[1..]) + {pages[0]};
    }
  }

  /** k further pages besides one that is in memory cannot all be there: some access faults. */
  lemma FullStretchFaults(k: nat, contents: set<int>, held: int, pages: seq<int>, frames: seq<set<int>>)
    requires Schedule(k, contents, pages, frames) && |contents| <= k && held in contents
    requires |Pages(pages) + {held}| > k
    ensures ScheduleFaults(contents, pages, frames) >= 1
  {
    if ScheduleFaults(contents, pages, frames) == 0 {
      NoFaultsNoNewPages(k, contents, pages, frames);
      SubsetSize(Pages(pages) + {held}, contents);
      assert false;
    }
  }

  lemma {:induction false} SplitFaults(algo: Algo, k: nat, resident: seq<int>, a: seq<int>, b: seq<int>)
    requires 0 < k && |resident| <= k
    ensures Faults(algo, k, resident, a + b) ==
            Faults(algo, k, resident, a) + Faults(algo, k, After(algo, k, resident, a), b)
    ensures After(algo, k, resident, a + b) == After(algo, k, After(algo, k, resident, a), b)
    decreases |a|
  {
    if a == [] {
      assert a + b == b;
    } else {
      assert (a + b)[1..] == a[1..] + b;
      SplitFaults(algo, k, Access(algo, k, resident, a[0]), a[1..], b);
    }
  }

  lemma {:induction false} AfterKeeps(algo: Algo, k: nat, resident: seq<int>, pages: seq<int>)
    requires 0 < k && |resident| <= k && NoDup(resident)
    ensures NoDup(After(algo, k, resident, pages))
    decreases |pages|
  {
    if pages != [] {
      AccessKeeps(algo, k, resident, pages[0]);
      AfterKeeps(algo, k, Access(algo, k, resident, pages[0]), pages[1..]);
    }
  }

  lemma {:induction false} SplitSchedule(k: nat, contents: set<int>, a: seq<int>, b: seq<int>, frames: seq<set<int>>) returns (middle: set<int>)
    requires Schedule(k, contents, a + b, frames) && |contents| <= k
    ensures |frames| == |a| + |b|
    ensures Schedule(k, contents, a, frames[..|a|]) && Schedule(k, middle, b, frames[|a|..]) && |middle| <= k
    ensures ScheduleFaults(contents, a + b, frames) ==
            ScheduleFaults(contents, a, frames[..|a|]) + ScheduleFaults(middle, b, frames[|a|..])
    ensures if a == [] then middle == contents else a[|a| - 1] in middle
    decreases |a|
  {
    if a == [] {
      assert a + b == b && frames[0..] == frames;
      middle := contents;
    } else {
      assert (a + b)[1..] == a[1..] + b;
      middle := SplitSchedule(k, frames[0], a[1..], b, frames[1..]);
      assert frames[1..][..|a| - 1] == frames[..|a|][1..];
      assert frames[1..][|a| - 1..] == frames[|a|..];
    }
  }

  /** The longest prefix with at most k distinct pages. */
  function PhaseLength(k: nat, seen: set<int>, pages: seq<int>): (n: nat)
    ensures n <= |pages|
    decreases |pages|
  {
    if pages == [] || |seen + {pages[0]}| > k then 0 else 1 + PhaseLength(k, seen + {pages[0]}, pages[1..])
  }

  lemma PagesFromFirst(pages: seq<int>, n: nat, seen: set<int>)
    requires 0 < n <= |pages|
    ensures seen + Pages(pages[..n]) == (seen + {pages[0]}) + Pages(pages[1..][..n - 1])
  {
    assert pages[..n] == [pages[0]] + pages[1..][..n - 1];
  }

  lemma {:induction false} PhaseIsMaximal(k: nat, seen: set<int>, pages: seq<int>)
    requires |seen| <= k
    ensures |seen + Pages(pages[..PhaseLength(k, seen, pages)])| <= k
    ensures PhaseLength(k, seen, pages) < |pages| ==> |seen + Pages(pages[..PhaseLength(k, seen, pages) + 1])| > k
    decreases |pages|
  {
    var n := PhaseLength(k, seen, pages);
    if n == 0 {
      assert seen + Pages(pages[..0]) == seen;
      if pages != [] {
        assert Pages(pages[..1]) == {pages[0]};
      }
    } else {
      PhaseIsMaximal(k, seen + {pages[0]}, pages[1..]);
      PagesFromFirst(pages, n, seen);
      if n < |pages| { PagesFromFirst(pages, n + 1, seen); }
    }
  }

  /** A non-empty sequence starts with a phase; what follows brings the (k+1)-st distinct page. */
  lemma FirstPhase(k: nat, pages: seq<int>) returns (n: nat)
    requires 0 < k && pages != []
    ensures 0 < n <= |pages| && |Pages(pages[..n])| <= k
    ensures n < |pages| ==> |Pages(pages[1..n + 1]) + {pages[0]}| > k
  {
    n := PhaseLength(k, {}, pages);
    PhaseIsMaximal(k, {}, pages);
    assert {} + Pages(pages[..n]) == Pages(pages[..n]);
    assert {} + {pages[0]} == {pages[0]};
    if n < |pages| {
      assert pages[..n + 1] == [pages[0]] + pages[1..n + 1];
      assert {} + Pages(pages[..n + 1]) == Pages(pages[1..n + 1]) + {pages[0]};
    }
  }

  lemma ScheduleLength(k: nat, contents: set<int>, pages: seq<int>, frames: seq<set<int>>)
    requires Schedule(k, contents, pages, frames)
    ensures |frames| == |pages|
  {
  }

  /** Between the second access of a phase and the first of the next, every schedule faults. */
  lemma NextPhase(k: nat, pages: seq<int>, contents: set<int>, frames: seq<set<int>>, n: nat) returns (middle: set<int>)
    requires 0 < n < |pages| && |Pages(pages[1..n + 1]) + {pages[0]}| > k
    requires |contents| <= k && pages[0] in contents && Schedule(k, contents, pages[1..], frames)
    ensures |frames| == |pages| - 1 && |middle| <= k && pages[n] in middle
    ensures Schedule(k, middle, pages[n..][1..], frames[n..])
    ensures ScheduleFaults(middle, pages[n..][1..], frames[n..]) < ScheduleFaults(contents, pages[1..], frames)
  {
    var window, tail := pages[1..n + 1], pages[n..][1..];
    assert pages[1..] == window + tail;
    middle := SplitSchedule(k, contents, window, tail, frames);
    FullStretchFaults(k, contents, pages[0], window, frames[..n]);
  }

  /** From the first access of a phase on: the algorithm faults at most k times per phase, and
      every schedule faults at least once between the second access of a phase and the first of
      the next. */
  lemma {:induction false} PhaseByPhase(algo: Algo, k: nat, resident: seq<int>, pages: seq<int>, contents: set<int>, frames: seq<set<int>>)
    requires 0 < k && |resident| <= k && NoDup(resident) && pages != []
    requires |contents| <= k && pages[0] in contents && Schedule(k, contents, pages[1..], frames)
    ensures Faults(algo, k, resident, pages) <= k * (1 + ScheduleFaults(contents, pages[1..], frames))
    decreases |pages|
  {
    hide Schedule, ScheduleFaults, After, Access, Pages;
    ScheduleLength(k, contents, pages[1..], frames);
    var n := FirstPhase(k, pages);
    var phase, rest := pages[..n], pages[n..];
    assert pages == phase + rest;
    SplitFaults(algo, k, resident, phase, rest);
    StretchFaults(algo, k, resident, phase);
    var next := After(algo, k, resident, phase);
    var late, all: nat := Faults(algo, k, next, rest), ScheduleFaults(contents, pages[1..], frames);
    if n < |pages| {
      var middle := NextPhase(k, pages, contents, frames, n);
      AfterKeeps(algo, k, resident, phase);
      PhaseByPhase(algo, k, next, rest, middle, frames[n..]);
      Scale(k, ScheduleFaults(middle, rest[1..], frames[n..]), all);
    } else {
      assert late == 0;
      Scale(k, 0, 1 + all);
    }
  }

  lemma Scale(k: nat, a: nat, b: nat)
    requires a < b
    ensures k + k * (1 + a) <= k * (1 + b)
    ensures k * (1 + a) <= k * b
  {
    ProductGrows(k, 1 + a, b);
    assert k * (1 + b) == k + k * b;
  }

  lemma {:induction false} ProductGrows(k: nat, a: nat, b: nat)
    requires a <= b
    ensures k * a <= k * b
    decreases b - a
  {
    if a < b { ProductGrows(k, a, b - 1); assert k * b == k * (b - 1) + k; }
  }

  /** From an empty memory, FIFO and LRU fault at most k times as often as any schedule with
      the same k frames. */
  lemma Competitive(algo: Algo, k: nat, pages: seq<int>, frames: seq<set<int>>)
    requires 0 < k && Schedule(k, {}, pages, frames)
    ensures Faults(algo, k, [], pages) <= k * ScheduleFaults({}, pages, frames)
  {
    if pages != [] {
      PhaseByPhase(algo, k, [], pages, frames[0], frames[1..]);
    }
  }
}
