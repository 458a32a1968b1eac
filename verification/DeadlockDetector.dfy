/** src/deadlock_detector.cpp: the wait-for graph edited in place and the depth-first
    search that looks for a cycle in it. */
module DeadlockDetection {
  import opened Collections
  import opened WaitGraph

  ghost predicate SuccessorClosed(g: Graph, s: set<int>) {
    forall x, y :: x in s && Edge(g, x, y) ==> y in s
  }

  /** No closed walk starts in the set. */
  ghost predicate CycleFree(g: Graph, s: set<int>) {
    forall p :: IsCycle(g, p) ==> p[0] !in s
  }

  /** What the search knows: the nodes on the stack are the current path, and every
      node already finished has only finished successors and lies on no cycle. */
  ghost predicate SearchInv(g: Graph, visited: set<int>, onStack: set<int>, path: seq<int>) {
    && visited <= Nodes(g)
    && onStack <= visited
    && onStack == (set x | x in path)
    && IsPath(g, path)
    && SuccessorClosed(g, visited - onStack)
    && CycleFree(g, visited - onStack)
  }

  lemma {:induction false} PathStaysInside(g: Graph, s: set<int>, p: seq<int>, from: nat, to: nat)
    requires SuccessorClosed(g, s) && IsPath(g, p)
    requires from <= to < |p| && p[from] in s
    ensures p[to] in s
    decreases if from < to then to - from else 0
  {
    if from < to {
      assert Edge(g, p[from], p[from + 1]);
      PathStaysInside(g, s, p, from + 1, to);
    }
  }

  /** A node whose successors are all finished can be finished too. */
  lemma FinishNode(g: Graph, done: set<int>, node: int)
    requires SuccessorClosed(g, done) && CycleFree(g, done)
    requires forall y :: Edge(g, node, y) ==> y in done
    requires node !in done
    ensures SuccessorClosed(g, done + {node}) && CycleFree(g, done + {node})
  {
    forall p | IsCycle(g, p)
      ensures p[0] !in done + {node}
    {
      if p[0] == node {
        assert Edge(g, p[0], p[1]);
        PathStaysInside(g, done, p, 1, |p| - 1);
        assert false;
      }
    }
  }

  /** Entering a node puts it on the stack and leaves the finished nodes as they are. */
  lemma EnterNode(g: Graph, visited: set<int>, onStack: set<int>, path: seq<int>, node: int)
    requires SearchInv(g, visited, onStack, path)
    requires node in Nodes(g) && node !in visited
    requires path != [] ==> Edge(g, path[|path| - 1], node)
    ensures SearchInv(g, visited + {node}, onStack + {node}, path + [node])
  {
    assert (visited + {node}) - (onStack + {node}) == visited - onStack;
    assert (set x | x in path + [node]) == (set x | x in path) + {node};
  }

  /** Leaving a node whose successors are all finished. */
  lemma LeaveNode(g: Graph, visited: set<int>, onStack: set<int>, path: seq<int>, node: int)
    requires SearchInv(g, visited, onStack + {node}, path + [node])
    requires node !in onStack && onStack == (set x | x in path)
    requires forall y :: Edge(g, node, y) ==> y in visited - (onStack + {node})
    ensures SearchInv(g, visited, onStack, path)
  {
    var done := visited - (onStack + {node});
    FinishNode(g, done, node);
    assert visited - onStack == done + {node};
    assert IsPath(g, path) by {
      forall i, j | 0 <= i < j < |path| && j == i + 1
        ensures Edge(g, path[i], path[j])
      {
        var longer := path + [node];
        assert Edge(g, longer[i], longer[j]);
      }
    }
  }

  /** When every node with successors is finished, there is no cycle at all. */
  lemma SearchComplete(g: Graph, done: set<int>)
    requires CycleFree(g, done) && g.Keys <= done
    ensures !HasCycle(g)
  {
    if HasCycle(g) {
      var p :| IsCycle(g, p);
      CycleNodeHasSuccessor(g, p, p[0]);
      assert false;
    }
  }

  lemma EdgeTargetIsNode(g: Graph, a: int, b: int)
    requires Edge(g, a, b)
    ensures a in Nodes(g) && b in Nodes(g)
  {
  }

  class DeadlockDetector {
    var graph: Graph
    var lastCycle: seq<int>  // nodes of the cycle reported last, first one repeated; empty when none

    constructor ()
      ensures graph == map[] && lastCycle == []
    {
      graph := map[];
      lastCycle := [];
    }

    method AddWaitEdge(tid: int, mutexId: int)
      modifies this`graph
      ensures graph == AddEdge(old(graph), ThreadNode(tid), MutexNode(mutexId))
      ensures Out(graph, ThreadNode(tid)) == Out(old(graph), ThreadNode(tid)) + [MutexNode(mutexId)]
      ensures forall n :: n != ThreadNode(tid) ==> Out(graph, n) == Out(old(graph), n)
    {
      var t, m := ThreadNode(tid), MutexNode(mutexId);
      graph := graph[t := Out(graph, t) + [m]];
    }

    method AddHoldEdge(mutexId: int, tid: int)
      modifies this`graph
      ensures graph == AddEdge(old(graph), MutexNode(mutexId), ThreadNode(tid))
      ensures Out(graph, MutexNode(mutexId)) == Out(old(graph), MutexNode(mutexId)) + [ThreadNode(tid)]
      ensures forall n :: n != MutexNode(mutexId) ==> Out(graph, n) == Out(old(graph), n)
    {
      var m, t := MutexNode(mutexId), ThreadNode(tid);
      graph := graph[m := Out(graph, m) + [t]];
    }

    method RemoveHoldEdge(mutexId: int, tid: int)
      modifies this`graph
      ensures graph == RemoveEdge(old(graph), MutexNode(mutexId), ThreadNode(tid))
      ensures forall n, m :: Edge(graph, n, m) <==> Edge(old(graph), n, m) && !(n == MutexNode(mutexId) && m == ThreadNode(tid))
    {
      var m, t := MutexNode(mutexId), ThreadNode(tid);
      var kept := Erase(Out(graph, m), t);
      WithoutElements(Out(graph, m), t);
      graph := graph[m := kept];
    }

    method RemoveWaitEdge(tid: int, mutexId: int)
      modifies this`graph
      ensures graph == RemoveEdge(old(graph), ThreadNode(tid), MutexNode(mutexId))
      ensures forall n, m :: Edge(graph, n, m) <==> Edge(old(graph), n, m) && !(n == ThreadNode(tid) && m == MutexNode(mutexId))
    {
      var t, m := ThreadNode(tid), MutexNode(mutexId);
      var kept := Erase(Out(graph, t), m);
      WithoutElements(Out(graph, t), m);
      graph := graph[t := kept];
    }

    /** std::remove followed by erase. */
    static method Erase(s: seq<int>, x: int) returns (r: seq<int>)
      ensures r == Without(s, x)
    {
      r := [];
      var i := 0;
      while i < |s|
        invariant 0 <= i <= |s|
        invariant r + Without(s[i..], x) == Without(s, x)
      {
        assert s[i..] == [s[i]] + s[i + 1..];
        if s[i] != x {
          r := r + [s[i]];
        }
        i := i + 1;
      }
    }

    /** True exactly when the graph has a directed cycle, and then lastCycle is one,
        edge by edge. The order in which the roots are tried is left open, as the
        hash map leaves it. */
    method Detect() returns (found: bool)
      modifies this`lastCycle
      ensures found <==> HasCycle(graph)
      ensures if found then IsCycle(graph, lastCycle) else lastCycle == []
    {
      var visited, onStack, path := {}, {}, [];
      var todo := graph.Keys;
      while todo != {}
        invariant todo <= graph.Keys
        invariant graph.Keys - todo <= visited
        invariant SearchInv(graph, visited, onStack, path) && path == []
        decreases |todo|
      {
        ghost var some := Member(todo);
        var node :| node in todo;
        todo := todo - {node};
        if node !in visited {
          found, visited, onStack, path := Dfs(node, visited, onStack, path);
          if found {
            return;
          }
        }
      }
      lastCycle := [];
      found := false;
      assert visited - onStack == visited;
      SearchComplete(graph, visited);
    }

    /** Explores everything reachable from node that was not visited before. */
    method Dfs(node: int, visited0: set<int>, onStack0: set<int>, path0: seq<int>)
      returns (found: bool, visited: set<int>, onStack: set<int>, path: seq<int>)
      requires SearchInv(graph, visited0, onStack0, path0)
      requires node in Nodes(graph) && node !in visited0
      requires path0 != [] ==> Edge(graph, path0[|path0| - 1], node)
      modifies this`lastCycle
      ensures found ==> IsCycle(graph, lastCycle)
      ensures !found ==> SearchInv(graph, visited, onStack, path)
      ensures !found ==> onStack == onStack0 && path == path0 && visited0 + {node} <= visited
      decreases |Nodes(graph) - visited0|
    {
      hide CycleFree, SuccessorClosed;
      visited, onStack, path := visited0 + {node}, onStack0 + {node}, path0 + [node];
      EnterNode(graph, visited0, onStack0, path0, node);
      if node in graph {
        var i := 0;
        while i < |graph[node]|
          invariant 0 <= i <= |graph[node]|
          invariant SearchInv(graph, visited, onStack, path)
          invariant visited0 + {node} <= visited
          invariant onStack == onStack0 + {node} && path == path0 + [node]
          invariant forall j :: 0 <= j < i ==> graph[node][j] in visited - onStack
        {
          var neighbor := graph[node][i];
          assert Edge(graph, node, neighbor);
          EdgeTargetIsNode(graph, node, neighbor);
          if neighbor in onStack {
            var from := IndexOf(path, neighbor);
            lastCycle := path[from..] + [neighbor];
            CycleOnStack(path, from, neighbor);
            found := true;
            return;
          }
          if neighbor !in visited {
            FewerLeft(Nodes(graph), visited0, visited, node);
            found, visited, onStack, path := Dfs(neighbor, visited, onStack, path);
            if found {
              return;
            }
          }
          i := i + 1;
        }
      }
      LeaveNode(graph, visited, onStack0, path0, node);
      path := path[..|path| - 1];
      onStack := onStack - {node};
      found := false;
    }

    lemma CycleOnStack(path: seq<int>, from: nat, neighbor: int)
      requires from < |path| && path[from] == neighbor && IsPath(graph, path)
      requires Edge(graph, path[|path| - 1], neighbor)
      ensures IsCycle(graph, path[from..] + [neighbor])
    {
      var c := path[from..] + [neighbor];
      forall i | 0 <= i < |c| - 1
        ensures Edge(graph, c[i], c[i + 1])
      {
        if i < |c| - 2 { assert Edge(graph, path[from + i], path[from + i + 1]); }
      }
    }

    /** std::find on the path. */
    static method IndexOf(path: seq<int>, x: int) returns (i: nat)
      requires x in path
      ensures i < |path| && path[i] == x && x !in path[..i]
    {
      i := 0;
      while path[i] != x
        invariant 0 <= i < |path|
        invariant x !in path[..i]
        decreases |path| - i
      {
        i := i + 1;
      }
    }
  }
}
