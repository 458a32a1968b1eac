/** The paging simulator: page table, frames, FIFO queue and LRU list, updated in place. */
module VirtualMemorySimulator {
  import opened Collections
  import opened PageReplacement

  const Free := -1

  datatype Entry = Entry(page: int, valid: bool, frame: int)

  /** The page table, the frames and the active list tell the same story: resident pages and
      occupied frames are in bijection, and the list holds each resident page once. */
  ghost predicate Agree(table: seq<Entry>, frames: seq<int>, resident: seq<int>) {
    && NoDup(resident)
    && (forall p :: p in resident ==> 0 <= p < |table|)
    && (forall p :: 0 <= p < |table| ==> table[p].page == p && (table[p].valid <==> p in resident))
    && (forall p :: 0 <= p < |table| && table[p].valid ==> 0 <= table[p].frame < |frames| && frames[table[p].frame] == p)
    && (forall p :: 0 <= p < |table| && !table[p].valid ==> table[p].frame == Free)
    && (forall f :: 0 <= f < |frames| && frames[f] != Free ==>
          0 <= frames[f] < |table| && table[frames[f]].valid && table[frames[f]].frame == f)
  }

  function Occupied(frames: seq<int>): (o: seq<int>)
    ensures |o| <= |frames|
    ensures forall p :: p in o <==> p in frames && p != Free
    ensures |o| == |frames| <==> Free !in frames
  {
    if frames == [] then []
    else (if frames[0] == Free then [] else [frames[0]]) + Occupied(frames[1..])
  }

  lemma {:induction false} OccupiedNoDup(frames: seq<int>)
    requires forall f, g :: 0 <= f < g < |frames| ==> frames[f] == Free || frames[f] != frames[g]
    ensures NoDup(Occupied(frames))
  {
    if frames != [] {
      OccupiedNoDup(frames[1..]);
      assert frames[0] != Free ==> frames[0] !in frames[1..];
    }
  }

  /** Pages in memory are as many as occupied frames, so the list is full exactly when no frame
      is free. */
  lemma FullWhenNoFrameFree(table: seq<Entry>, frames: seq<int>, resident: seq<int>)
    requires Agree(table, frames, resident)
    ensures |resident| <= |frames| && (|resident| == |frames| <==> Free !in frames)
  {
    var o := Occupied(frames);
    OccupiedNoDup(frames);
    SeqAsSet(o);
    SeqAsSet(resident);
    forall p ensures p in Pages(o) <==> p in Pages(resident) {
      if p in resident {
        assert frames[table[p].frame] == p;
      }
    }
    assert Pages(o) == Pages(resident);
  }

  /** The accesses that reach the page table: those within the address space. */
  function Requests(numPages: nat, pages: seq<int>): seq<int> {
    if pages == [] then []
    else if 0 <= pages[0] < numPages then [pages[0]] + Requests(numPages, pages[1..])
    else Requests(numPages, pages[1..])
  }

  lemma {:induction false} RequestsStep(numPages: nat, pages: seq<int>, i: nat)
    requires i < |pages|
    ensures Requests(numPages, pages[..i + 1]) ==
            Requests(numPages, pages[..i]) + (if 0 <= pages[i] < numPages then [pages[i]] else [])
  {
    if i == 0 {
      assert pages[..1] == [pages[0]] && Requests(numPages, []) == [];
    } else {
      assert pages[..i + 1][0] == pages[0] && pages[..i + 1][1..] == pages[1..][..i];
      assert pages[..i][0] == pages[0] && pages[..i][1..] == pages[1..][..i - 1];
      RequestsStep(numPages, pages[1..], i - 1);
    }
  }

  lemma {:induction false} AfterStep(algo: Algo, k: nat, resident: seq<int>, pages: seq<int>, page: int)
    requires 0 < k && |resident| <= k
    ensures After(algo, k, resident, pages + [page]) == Access(algo, k, After(algo, k, resident, pages), page)
    ensures Faults(algo, k, resident, pages + [page]) ==
            Faults(algo, k, resident, pages) + (if page in After(algo, k, resident, pages) then 0 else 1)
    decreases |pages|
  {
    var all := pages + [page];
    if pages == [] {
      assert all == [page] && all[1..] == [];
    } else {
      assert all[0] == pages[0] && all[1..] == pages[1..] + [page];
      AfterStep(algo, k, Access(algo, k, resident, pages[0]), pages[1..], page);
    }
  }

  /** One more access of a run, within the address space or not. */
  lemma RunStep(algo: Algo, k: nat, numPages: nat, start: seq<int>, pages: seq<int>, i: nat)
    requires 0 < k && |start| <= k && i < |pages|
    ensures var before, after := Requests(numPages, pages[..i]), Requests(numPages, pages[..i + 1]);
            var resident := After(algo, k, start, before);
            if 0 <= pages[i] < numPages then
              && After(algo, k, start, after) == Access(algo, k, resident, pages[i])
              && Faults(algo, k, start, after) == Faults(algo, k, start, before) + (if pages[i] in resident then 0 else 1)
              && |after| == |before| + 1
            else after == before
  {
    RequestsStep(numPages, pages, i);
    AfterStep(algo, k, start, Requests(numPages, pages[..i]), pages[i]);
  }

  lemma NoRequests(algo: Algo, k: nat, numPages: nat, start: seq<int>)
    requires 0 < k && |start| <= k
    ensures Requests(numPages, []) == [] && After(algo, k, start, []) == start && Faults(algo, k, start, []) == 0
  {
  }

  lemma AgainstAllSchedules(algo: Algo, k: nat, pages: seq<int>)
    requires 0 < k
    ensures forall schedule :: Schedule(k, {}, pages, schedule) ==>
              Faults(algo, k, [], pages) <= k * ScheduleFaults({}, pages, schedule)
  {
    forall schedule | Schedule(k, {}, pages, schedule)
      ensures Faults(algo, k, [], pages) <= k * ScheduleFaults({}, pages, schedule)
    {
      Competitive(algo, k, pages, schedule);
    }
  }

  /** A hit may reorder the list, no more. */
  lemma HitKeepsAgreement(table: seq<Entry>, frames: seq<int>, resident: seq<int>, resident': seq<int>)
    requires Agree(table, frames, resident) && NoDup(resident')
    requires forall y :: y in resident' <==> y in resident
    ensures Agree(table, frames, resident')
  {
  }

  /** The new page takes a frame, from its old occupant if it had one. */
  lemma FaultKeepsAgreement(table: seq<Entry>, frames: seq<int>, resident: seq<int>, page: int, frame: nat, resident': seq<int>)
    requires Agree(table, frames, resident) && 0 <= page < |table| && page !in resident && frame < |frames|
    requires NoDup(resident') && forall y :: y in resident' <==> (y in resident && y != frames[frame]) || y == page
    ensures Agree(Evicted(table, frames[frame])[page := Entry(page, true, frame)], frames[frame := page], resident')
  {
    assert frames[frame] != Free ==> table[frames[frame]].frame == frame;
  }

  /** The page table once the occupant of a frame is out. */
  function Evicted(table: seq<Entry>, occupant: int): seq<Entry> {
    if 0 <= occupant < |table| then table[occupant := Entry(occupant, false, Free)] else table
  }

  /** One frame has the page now: the first free one, if there was any. */
  ghost predicate Loaded(before: seq<int>, after: seq<int>, f: nat, page: int)
    requires f < |before|
  {
    after == before[f := page] && (Free in before ==> before[f] == Free && Free !in before[..f])
  }

  class VirtualMemory {
    const numFrames: nat
    const numPages: nat
    var algo: Algo
    const pageTable: array<Entry>
    const frames: array<int>
    var fifoQueue: seq<int>
    var lruList: seq<int>
    var pageFaults: nat
    var totalAccesses: nat

    /** The list the current algorithm keeps. */
    function Resident(): seq<int>
      reads this
    {
      if algo == FIFO then fifoQueue else lruList
    }

    ghost predicate Valid()
      reads this, pageTable, frames
    {
      && 0 < numFrames == frames.Length && numPages == pageTable.Length
      && Agree(pageTable[..], frames[..], Resident())
      && |Resident()| <= numFrames
      && (if algo == FIFO then lruList else fifoQueue) == []
      && pageFaults <= totalAccesses
    }

    constructor (frameCount: nat, pageCount: nat, policy: Algo)
      requires 0 < frameCount
      ensures Valid() && fresh(pageTable) && fresh(frames)
      ensures numFrames == frameCount && numPages == pageCount && algo == policy
      ensures Resident() == [] && pageFaults == 0 && totalAccesses == 0
    {
      numFrames, numPages, algo := frameCount, pageCount, policy;
      pageTable := new Entry[pageCount](i => Entry(i, false, Free));
      frames := new int[frameCount](_ => Free);
      fifoQueue, lruList, pageFaults, totalAccesses := [], [], 0, 0;
    }

    /** A hit only touches LRU's list; a fault changes one frame, a free one if there is any. */
    method AccessPage(page: int) returns (hit: bool)
      requires Valid()
      modifies this, pageTable, frames
      ensures Valid() && algo == old(algo)
      ensures !(0 <= page < numPages) ==>
                !hit && unchanged(this) && pageTable[..] == old(pageTable[..]) && frames[..] == old(frames[..])
      ensures 0 <= page < numPages ==>
                && hit == (page in old(Resident()))
                && Resident() == Access(algo, numFrames, old(Resident()), page)
                && pageFaults == old(pageFaults) + (if hit then 0 else 1)
                && totalAccesses == old(totalAccesses) + 1
                && if hit then frames[..] == old(frames[..])
                   else exists f: nat :: f < numFrames && Loaded(old(frames[..]), frames[..], f, page)
    {
      if page < 0 || page >= numPages { return false; }
      totalAccesses := totalAccesses + 1;
      ghost var before := Resident();
      AccessKeeps(algo, numFrames, before, page);
      if pageTable[page].valid {
        assert frames[pageTable[page].frame] == page;
        if algo == LRU {
          lruList := [page] + Without(lruList, page);
        }
        HitKeepsAgreement(pageTable[..], frames[..], before, Resident());
        return true;
      }
      pageFaults := pageFaults + 1;
      var frame := BringIn(page);
      return false;
    }

    /** The fault itself: the page goes into the first free frame, or replaces the victim. */
    method BringIn(page: int) returns (frame: nat)
      requires Valid() && 0 <= page < numPages && page !in Resident()
      modifies this`fifoQueue, this`lruList, pageTable, frames
      ensures Valid()
      ensures Resident() == Access(algo, numFrames, old(Resident()), page)
      ensures frame < numFrames && Loaded(old(frames[..]), frames[..], frame, page)
    {
      ghost var table, contents, before := pageTable[..], frames[..], Resident();
      FullWhenNoFrameFree(table, contents, before);
      AccessKeeps(algo, numFrames, before, page);
      frame := 0;
      while frame < numFrames && frames[frame] != Free
        invariant 0 <= frame <= numFrames
        invariant forall f :: 0 <= f < frame ==> frames[f] != Free
      {
        frame := frame + 1;
      }
      if frame == numFrames {
        assert Free !in frames[..];
        if algo == FIFO {
          frame := ReplaceFIFO(page);
        } else {
          frame := ReplaceLRU(page);
        }
      } else {
        assert contents[frame] == Free;
        frames[frame] := page;
        if algo == FIFO {
          fifoQueue := fifoQueue + [page];
        } else {
          lruList := [page] + lruList;
        }
      }
      assert Resident() == Access(algo, numFrames, before, page);
      FaultKeepsAgreement(table, contents, before, page, frame, Resident());
      pageTable[page] := Entry(page, true, frame);
      assert pageTable[..] == Evicted(table, contents[frame])[page := Entry(page, true, frame)];
      assert frames[..] == contents[frame := page];
    }

    /** Evicts the oldest page: its frame goes to the new page, which joins the back. */
    method ReplaceFIFO(page: int) returns (frame: nat)
      requires algo == FIFO && frames.Length == numFrames && pageTable.Length == numPages
      requires Agree(pageTable[..], frames[..], fifoQueue) && fifoQueue != []
      requires 0 <= page < numPages && page !in fifoQueue
      modifies this`fifoQueue, pageTable, frames
      ensures fifoQueue == old(fifoQueue[1..]) + [page]
      ensures frame < numFrames && old(frames[..])[frame] == old(fifoQueue[0])
      ensures frames[..] == old(frames[..])[frame := page]
      ensures pageTable[..] == Evicted(old(pageTable[..]), old(fifoQueue[0]))
    {
      assert fifoQueue[0] in fifoQueue;
      var victim := fifoQueue[0];
      fifoQueue := fifoQueue[1..];
      frame := pageTable[victim].frame;
      pageTable[victim] := Entry(victim, false, Free);
      frames[frame] := page;
      fifoQueue := fifoQueue + [page];
    }

    /** Evicts the page unused for longest; the new page goes to the front. */
    method ReplaceLRU(page: int) returns (frame: nat)
      requires algo == LRU && frames.Length == numFrames && pageTable.Length == numPages
      requires Agree(pageTable[..], frames[..], lruList) && lruList != []
      requires 0 <= page < numPages && page !in lruList
      modifies this`lruList, pageTable, frames
      ensures lruList == [page] + old(lruList[..|lruList| - 1])
      ensures frame < numFrames && old(frames[..])[frame] == old(lruList[|lruList| - 1])
      ensures frames[..] == old(frames[..])[frame := page]
      ensures pageTable[..] == Evicted(old(pageTable[..]), old(lruList[|lruList| - 1]))
    {
      assert lruList[|lruList| - 1] in lruList;
      var victim := lruList[|lruList| - 1];
      lruList := lruList[..|lruList| - 1];
      frame := pageTable[victim].frame;
      pageTable[victim] := Entry(victim, false, Free);
      frames[frame] := page;
      lruList := [page] + lruList;
    }

    method Reset()
      requires 0 < numFrames == frames.Length && numPages == pageTable.Length
      requires forall p :: 0 <= p < numPages ==> pageTable[p].page == p
      modifies this, pageTable, frames
      ensures Valid() && algo == old(algo)
      ensures Resident() == [] && pageFaults == 0 && totalAccesses == 0
    {
      var i := 0;
      while i < numPages
        invariant 0 <= i <= numPages
        invariant forall p :: 0 <= p < i ==> !pageTable[p].valid && pageTable[p].frame == Free
        invariant forall p :: 0 <= p < numPages ==> pageTable[p].page == p
        modifies pageTable
      {
        pageTable[i] := Entry(pageTable[i].page, false, Free);
        i := i + 1;
      }
      i := 0;
      while i < numFrames
        invariant 0 <= i <= numFrames
        invariant forall f :: 0 <= f < i ==> frames[f] == Free
        modifies frames
      {
        frames[i] := Free;
        i := i + 1;
      }
      fifoQueue, lruList, pageFaults, totalAccesses := [], [], 0, 0;
    }

    method SetAlgorithm(policy: Algo)
      requires Valid()
      modifies this, pageTable, frames
      ensures Valid() && algo == policy
      ensures Resident() == [] && pageFaults == 0 && totalAccesses == 0
    {
      algo := policy;
      Reset();
    }

    /** A whole run: the counters are the fault function of the page-replacement theory, and from
        an empty memory the faults are at most numFrames times those of any schedule. */
    method RunDemo(pages: seq<int>)
      requires Valid()
      modifies this, pageTable, frames
      ensures Valid() && algo == old(algo)
      ensures Resident() == After(algo, numFrames, old(Resident()), Requests(numPages, pages))
      ensures pageFaults == old(pageFaults) + Faults(algo, numFrames, old(Resident()), Requests(numPages, pages))
      ensures totalAccesses == old(totalAccesses) + |Requests(numPages, pages)|
      ensures old(Resident()) == [] ==> forall schedule :: Schedule(numFrames, {}, Requests(numPages, pages), schedule) ==>
                pageFaults <= old(pageFaults) + numFrames * ScheduleFaults({}, Requests(numPages, pages), schedule)
    {
      hide Agree, Faults, After, Requests, Schedule, ScheduleFaults, Access;
      ghost var start := Resident();
      NoRequests(algo, numFrames, numPages, start);
      assert pages[..0] == [];
      var i := 0;
      while i < |pages|
        invariant 0 <= i <= |pages| && Valid() && algo == old(algo)
        invariant Resident() == After(algo, numFrames, start, Requests(numPages, pages[..i]))
        invariant pageFaults == old(pageFaults) + Faults(algo, numFrames, start, Requests(numPages, pages[..i]))
        invariant totalAccesses == old(totalAccesses) + |Requests(numPages, pages[..i])|
      {
        RunStep(algo, numFrames, numPages, start, pages, i);
        var hit := AccessPage(pages[i]);
        i := i + 1;
      }
      assert pages[..|pages|] == pages;
      AgainstAllSchedules(algo, numFrames, Requests(numPages, pages));
    }
  }
}
