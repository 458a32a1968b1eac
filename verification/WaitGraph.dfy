/** The deadlock detector's directed graph: adjacency lists keyed by node, threads
    numbered by their tid (0 and up) and mutexes by -(id + 1). */
module WaitGraph {
  import opened Collections

  type Graph = map<int, seq<int>>

  function ThreadNode(tid: int): int { tid }

  function MutexNode(mutexId: int): int { -(mutexId + 1) }

  /** The adjacency list of n; a node without an entry has no successors. */
  function Out(g: Graph, n: int): seq<int> {
    if n in g then g[n] else []
  }

  predicate Edge(g: Graph, a: int, b: int) {
    b in Out(g, a)
  }

  function AddEdge(g: Graph, a: int, b: int): Graph {
    g[a := Out(g, a) + [b]]
  }

  function RemoveEdge(g: Graph, a: int, b: int): Graph {
    g[a := Without(Out(g, a), b)]
  }

  ghost predicate IsPath(g: Graph, p: seq<int>) {
    forall i, j :: 0 <= i < j < |p| && j == i + 1 ==> Edge(g, p[i], p[j])
  }

  /** A closed walk of at least one edge, its first node repeated at the end. */
  ghost predicate IsCycle(g: Graph, p: seq<int>) {
    |p| >= 2 && p[0] == p[|p| - 1] && IsPath(g, p)
  }

  ghost predicate HasCycle(g: Graph) {
    exists p :: IsCycle(g, p)
  }

  /** Every node of the graph: those with an entry and those in a list. */
  ghost function Nodes(g: Graph): set<int> {
    g.Keys + set n, m | n in g.Keys && m in g[n] :: m
  }

  lemma WithoutOnly(x: int)
    ensures Without([x], x) == []
  {
    assert [x][1..] == [];
  }

  /** Every node of a closed walk has an outgoing edge. */
  lemma CycleNodeHasSuccessor(g: Graph, p: seq<int>, x: int)
    requires IsCycle(g, p) && x in p
    ensures Out(g, x) != []
    ensures exists y :: y in p && Edge(g, x, y)
  {
    var i :| 0 <= i < |p| && p[i] == x;
    var j := if i == |p| - 1 then 0 else i;
    assert Edge(g, p[j], p[j + 1]);
    assert p[j + 1] in p;
  }

  /** A closed walk keeps being one when no node on it loses an edge. */
  lemma CycleTransfer(g: Graph, h: Graph, p: seq<int>)
    requires IsCycle(g, p)
    requires forall x, y :: x in p && Edge(g, x, y) ==> Edge(h, x, y)
    ensures IsCycle(h, p)
  {
    forall i | 0 <= i < |p| - 1
      ensures Edge(h, p[i], p[i + 1])
    {
      assert Edge(g, p[i], p[i + 1]);
      assert p[i] in p;
    }
  }

  /** An edge into a node without successors closes no cycle. */
  lemma EdgeIntoSinkClosesNothing(g: Graph, a: int, b: int, p: seq<int>)
    requires Out(g, b) == [] && a != b
    requires IsCycle(AddEdge(g, a, b), p)
    ensures IsCycle(g, p)
  {
    var h := AddEdge(g, a, b);
    assert b !in p by {
      if b in p { CycleNodeHasSuccessor(h, p, b); }
    }
    forall i | 0 <= i < |p| - 1
      ensures Edge(g, p[i], p[i + 1])
    {
      assert Edge(h, p[i], p[i + 1]);
      assert p[i + 1] in p;
    }
  }

  /** Removing edges creates no cycle. */
  lemma RemovalCreatesNoCycle(g: Graph, a: int, b: int, p: seq<int>)
    requires IsCycle(RemoveEdge(g, a, b), p)
    ensures IsCycle(g, p)
  {
    WithoutElements(Out(g, a), b);
    CycleTransfer(RemoveEdge(g, a, b), g, p);
  }

  ghost predicate HasSuccessorIn(g: Graph, nodes: set<int>, x: int) {
    exists y :: y in nodes && Edge(g, x, y)
  }

  ghost predicate NoSinkIn(g: Graph, nodes: set<int>) {
    forall x {:trigger HasSuccessorIn(g, nodes, x)} :: x in nodes ==> HasSuccessorIn(g, nodes, x)
  }

  /** A walk of the given number of nodes that never leaves the set. */
  lemma {:induction false} WalkInside(g: Graph, nodes: set<int>, start: int, len: nat) returns (p: seq<int>)
    requires start in nodes
    requires NoSinkIn(g, nodes)
    ensures |p| == len + 1 && p[0] == start && IsPath(g, p)
    ensures forall x :: x in p ==> x in nodes
    decreases len
  {
    if len == 0 {
      p := [start];
    } else {
      assert HasSuccessorIn(g, nodes, start);
      var next :| next in nodes && Edge(g, start, next);
      var rest := WalkInside(g, nodes, next, len - 1);
      p := [start] + rest;
      forall i | 0 <= i < |p| - 1
        ensures Edge(g, p[i], p[i + 1])
      {
        if i > 0 { assert Edge(g, rest[i - 1], rest[i]); }
      }
    }
  }

  /** Pigeonhole: a sequence over a smaller set repeats an element. */
  lemma {:induction false} Repetition(p: seq<int>, nodes: set<int>) returns (i: nat, j: nat)
    requires forall x :: x in p ==> x in nodes
    requires |p| > |nodes|
    ensures i < j < |p| && p[i] == p[j]
  {
    var last := p[|p| - 1];
    var front := p[..|p| - 1];
    if last in front {
      i :| 0 <= i < |front| && front[i] == last;
      j := |p| - 1;
    } else {
      forall x | x in front ensures x in nodes - {last} { assert x in p; }
      assert last in p;
      i, j := Repetition(front, nodes - {last});
    }
  }

  /** A finite non-empty set of nodes, each with a successor inside the set, holds a cycle. */
  lemma NoSinkMeansCycle(g: Graph, nodes: set<int>)
    requires nodes != {}
    requires NoSinkIn(g, nodes)
    ensures HasCycle(g)
  {
    var start := Member(nodes);
    var p := WalkInside(g, nodes, start, |nodes|);
    var i, j := Repetition(p, nodes);
    var c := p[i..j + 1];
    forall n | 0 <= n < |c| - 1
      ensures Edge(g, c[n], c[n + 1])
    {
      assert Edge(g, p[i + n], p[i + n + 1]);
    }
    assert IsCycle(g, c);
  }
}
