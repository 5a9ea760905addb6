/**
  _find_cycle of scripts/check_module_boundaries.py: a depth-first search over the module
  dependency graph with a visited set, an active set and the current path. The source visits
  nodes in sorted order; the search here takes them in any order.
 */
module CycleFinder {
  import opened Wrappers
  import opened Sorting

  type Graph = map<string, set<string>>

  /** A module without an entry has no dependencies. */
  function Dependencies(g: Graph, node: string): set<string> {
    if node in g then g[node] else {}
  }

  function Nodes(g: Graph): set<string> {
    g.Keys + set n, d | n in g && d in g[n] :: d
  }

  predicate IsWalk(g: Graph, walk: seq<string>) {
    forall i | 0 <= i < |walk| - 1 :: walk[i + 1] in Dependencies(g, walk[i])
  }

  /** A closed walk with at least one edge. */
  predicate IsCycle(g: Graph, walk: seq<string>) {
    |walk| >= 2 && walk[0] == walk[|walk| - 1] && IsWalk(g, walk)
  }

  /** In terms of the graph itself: every node of a cycle lists the next among its dependencies. */
  lemma CycleIff(g: Graph, walk: seq<string>)
    ensures IsCycle(g, walk) <==>
      && |walk| >= 2 && walk[0] == walk[|walk| - 1]
      && forall i | 0 <= i < |walk| - 1 :: walk[i] in g && walk[i + 1] in g[walk[i]]
  {
    if IsCycle(g, walk) {
      forall i | 0 <= i < |walk| - 1 ensures walk[i] in g && walk[i + 1] in g[walk[i]] {
        assert walk[i + 1] in Dependencies(g, walk[i]);
      }
    }
  }

  /** A cycle that comes back only at its end. */
  predicate IsSimpleCycle(g: Graph, walk: seq<string>) {
    IsCycle(g, walk) && NoRepeats(walk[..|walk| - 1])
  }

  // ---------------------------------------------------------------- finish orders

  /** Every dependency of a listed node is listed before it. */
  predicate IsFinishOrder(g: Graph, order: seq<string>) {
    forall i | 0 <= i < |order| :: forall d | d in Dependencies(g, order[i]) :: d in order[..i]
  }

  lemma FinishOrderGrows(g: Graph, order: seq<string>, node: string)
    requires IsFinishOrder(g, order)
    requires forall d | d in Dependencies(g, node) :: d in order
    ensures IsFinishOrder(g, order + [node])
  {
    var grown := order + [node];
    forall i, d | 0 <= i < |grown| && d in Dependencies(g, grown[i]) ensures d in grown[..i] {
      if i < |order| {
        assert grown[..i] == order[..i];
      } else {
        assert grown[..i] == order;
      }
    }
  }

  /** Along a walk the position in a finish order goes strictly down. */
  lemma {:induction false} WalkDescends(g: Graph, order: seq<string>, walk: seq<string>, from: nat) returns (to: nat)
    requires IsFinishOrder(g, order) && IsWalk(g, walk) && walk != []
    requires from < |order| && order[from] == walk[0]
    ensures to < |order| && order[to] == walk[|walk| - 1]
    ensures to <= from && (|walk| >= 2 ==> to < from)
  {
    if |walk| == 1 {
      to := from;
    } else {
      assert walk[0 + 1] in Dependencies(g, walk[0]);
      assert walk[1] in order[..from];
      var next :| 0 <= next < from && order[..from][next] == walk[1];
      assert IsWalk(g, walk[1..]) by {
        forall i | 0 <= i < |walk[1..]| - 1 ensures walk[1..][i + 1] in Dependencies(g, walk[1..][i]) {
          assert walk[(i + 1) + 1] in Dependencies(g, walk[i + 1]);
        }
      }
      to := WalkDescends(g, order, walk[1..], next);
    }
  }

  /** A graph whose modules all have a place in a finish order has no cycle. */
  lemma FinishedGraphsAreAcyclic(g: Graph, order: seq<string>, walk: seq<string>)
    requires IsFinishOrder(g, order) && NoRepeats(order) && (forall n | n in g :: n in order)
    ensures !IsCycle(g, walk)
  {
    if IsCycle(g, walk) {
      assert walk[0 + 1] in Dependencies(g, walk[0]);
      assert walk[0] in order;
      var from :| 0 <= from < |order| && order[from] == walk[0];
      var to := WalkDescends(g, order, walk, from);
      assert false;
    }
  }

  ghost predicate Acyclic(g: Graph) {
    forall walk :: !IsCycle(g, walk)
  }

  lemma {:induction false} DistinctWithin(walk: seq<string>, nodes: set<string>)
    requires NoRepeats(walk) && forall n | n in walk :: n in nodes
    ensures |walk| <= |nodes|
  {
    if walk != [] {
      var k := |walk| - 1;
      DistinctWithin(walk[..k], nodes - {walk[k]});
    }
  }

  /** Following dependencies inside a finite set, an acyclic graph leads to a node that has none there. */
  lemma {:induction false} SomeNodeIsFree(g: Graph, rest: set<string>, walk: seq<string>) returns (free: string)
    requires Acyclic(g) && IsWalk(g, walk) && walk != [] && NoRepeats(walk) && forall n | n in walk :: n in rest
    ensures free in rest && Dependencies(g, free) !! rest
    decreases |rest| - |walk|
  {
    DistinctWithin(walk, rest);
    var last := walk[|walk| - 1];
    if d :| d in Dependencies(g, last) && d in rest {
      if start :| 0 <= start < |walk| && walk[start] == d {
        ClosedPath(g, walk, d, start);
        assert false;
      } else {
        ExtendedPath(g, walk, d);
        DistinctWithin(walk + [d], rest);
        free := SomeNodeIsFree(g, rest, walk + [d]);
      }
    } else {
      free := last;
    }
  }

  /** In an acyclic graph a finish order extends to every set of nodes closed under dependencies. */
  lemma {:induction false} FinishOrderExtends(g: Graph, nodes: set<string>, order: seq<string>)
      returns (all: seq<string>)
    requires Acyclic(g) && forall n | n in nodes :: Dependencies(g, n) <= nodes
    requires IsFinishOrder(g, order) && NoRepeats(order) && forall n | n in order :: n in nodes
    ensures IsFinishOrder(g, all) && NoRepeats(all) && forall n :: n in all <==> n in nodes
    decreases nodes - set n | n in order
  {
    var rest := nodes - set n | n in order;
    if n :| n in rest {
      var free := SomeNodeIsFree(g, rest, [n]);
      FinishOrderGrows(g, order, free);
      all := FinishOrderExtends(g, nodes, order + [free]);
    } else {
      all := order;
      assert forall n | n in nodes :: n !in rest;
    }
  }

  /** A graph is acyclic exactly when its nodes can be put in a finish order. */
  lemma AcyclicIffFinishOrder(g: Graph)
    ensures Acyclic(g)
       <==> exists order :: IsFinishOrder(g, order) && NoRepeats(order) && forall n | n in g :: n in order
  {
    if Acyclic(g) {
      var order := FinishOrderExtends(g, Nodes(g), []);
      assert forall n | n in g :: n in order;
    } else {
      var walk :| IsCycle(g, walk);
      if order :| IsFinishOrder(g, order) && NoRepeats(order) && forall n | n in g :: n in order {
        FinishedGraphsAreAcyclic(g, order, walk);
        assert false;
      }
    }
  }

  // ---------------------------------------------------------------- the search

  class Finder {
    const graph: Graph
    var visited: set<string>
    var active: set<string>
    var stack: seq<string>
    ghost var finished: seq<string>

    constructor (graph: Graph)
      ensures Valid() && this.graph == graph && stack == [] && visited == {}
    {
      this.graph := graph;
      visited, active, stack, finished := {}, {}, [], [];
    }

    /** The path is a walk over the active nodes; the visited ones have been finished in dependency order. */
    ghost predicate Valid()
      reads this
    {
      && (forall n :: n in active <==> n in stack)
      && IsWalk(graph, stack) && NoRepeats(stack)
      && (forall n :: n in visited <==> n in finished)
      && NoRepeats(finished)
      && IsFinishOrder(graph, finished)
      && visited !! active
      && visited + active <= Nodes(graph)
    }

    /** Nodes not yet entered: what the recursion consumes. */
    ghost function Remaining(): set<string>
      reads this
    {
      Nodes(graph) - active - visited
    }

    method Visit(node: string) returns (cycle: Option<seq<string>>)
      requires Valid() && node in Nodes(graph)
      requires stack != [] ==> node in Dependencies(graph, stack[|stack| - 1])
      modifies this
      decreases Remaining(), 0
      ensures cycle.Some? ==> IsSimpleCycle(graph, cycle.value)
      ensures cycle.None? ==> Valid() && stack == old(stack) && active == old(active)
      ensures cycle.None? ==> old(visited) <= visited && node in visited
    {
      if node in active {
        var start :| 0 <= start < |stack| && stack[start] == node;
        ClosedPath(graph, stack, node, start);
        return Some(stack[start..] + [node]);
      }
      if node in visited {
        return None;
      }
      Enter(node);
      cycle := VisitDependencies(node);
      if cycle.None? {
        Leave(node);
      }
    }

    method Enter(node: string)
      requires Valid() && node in Remaining()
      requires stack != [] ==> node in Dependencies(graph, stack[|stack| - 1])
      modifies this
      ensures Valid() && visited == old(visited) && finished == old(finished)
      ensures active == old(active) + {node} && stack == old(stack) + [node]
      ensures Remaining() < old(Remaining())
    {
      ExtendedPath(graph, stack, node);
      ghost var remaining := Remaining();
      active := active + {node};
      stack := stack + [node];
      assert Remaining() == remaining - {node};
    }

    method VisitDependencies(node: string) returns (cycle: Option<seq<string>>)
      requires Valid() && stack != [] && stack[|stack| - 1] == node
      modifies this
      decreases Remaining(), 1
      ensures cycle.Some? ==> IsSimpleCycle(graph, cycle.value)
      ensures cycle.None? ==> Valid() && stack == old(stack) && active == old(active)
      ensures cycle.None? ==> old(visited) <= visited && Dependencies(graph, node) <= visited
    {
      var todo := Dependencies(graph, node);
      while todo != {}
        invariant todo <= Dependencies(graph, node)
        invariant Valid() && stack == old(stack) && active == old(active)
        invariant old(visited) <= visited
        invariant Dependencies(graph, node) - todo <= visited
        decreases todo
      {
        var dependency :| dependency in todo;
        assert Remaining() <= old(Remaining());
        cycle := Visit(dependency);
        if cycle.Some? {
          return;
        }
        todo := todo - {dependency};
      }
      return None;
    }

    method Leave(node: string)
      requires Valid() && stack != [] && stack[|stack| - 1] == node && node !in stack[..|stack| - 1]
      requires Dependencies(graph, node) <= visited
      modifies this
      ensures Valid() && stack == old(stack)[..|old(stack)| - 1]
      ensures active == old(active) - {node} && visited == old(visited) + {node}
    {
      FinishOrderGrows(graph, finished, node);
      LeftPath(graph, stack);
      stack := stack[..|stack| - 1];
      active := active - {node};
      visited := visited + {node};
      finished := finished + [node];
    }
  }

  lemma LeftPath(g: Graph, stack: seq<string>)
    requires IsWalk(g, stack) && stack != []
    ensures IsWalk(g, stack[..|stack| - 1])
    ensures forall n :: n in stack <==> n in stack[..|stack| - 1] || n == stack[|stack| - 1]
  {
    assert stack == stack[..|stack| - 1] + [stack[|stack| - 1]];
  }

  lemma ClosedPath(g: Graph, stack: seq<string>, node: string, start: nat)
    requires IsWalk(g, stack) && NoRepeats(stack) && start < |stack| && stack[start] == node
    requires node in Dependencies(g, stack[|stack| - 1])
    ensures IsSimpleCycle(g, stack[start..] + [node])
  {
    var walk := stack[start..] + [node];
    assert walk[..|walk| - 1] == stack[start..];
    forall i | 0 <= i < |walk| - 1 ensures walk[i + 1] in Dependencies(g, walk[i]) {
      assert walk[i] == stack[start + i];
      if i + 1 < |walk| - 1 {
        assert walk[i + 1] == stack[start + i + 1];
      }
    }
  }

  lemma ExtendedPath(g: Graph, stack: seq<string>, node: string)
    requires IsWalk(g, stack)
    requires stack != [] ==> node in Dependencies(g, stack[|stack| - 1])
    ensures IsWalk(g, stack + [node])
  {
    var walk := stack + [node];
    forall i | 0 <= i < |walk| - 1 ensures walk[i + 1] in Dependencies(g, walk[i]) {
      if i + 1 < |stack| {
        assert walk[i + 1] == stack[i + 1];
      }
    }
  }

  /** The search ends on every finite graph; it reports a real cycle, and reports none only if there is none. */
  method FindCycle(graph: Graph) returns (cycle: Option<seq<string>>)
    ensures cycle.Some? ==> IsSimpleCycle(graph, cycle.value)
    ensures cycle.None? <==> Acyclic(graph)
  {
    var finder := new Finder(graph);
    var todo := graph.Keys;
    while todo != {}
      invariant finder.graph == graph && fresh(finder)
      invariant finder.Valid() && finder.stack == []
      invariant todo <= graph.Keys && graph.Keys - todo <= finder.visited
      decreases todo
    {
      var node :| node in todo;
      cycle := finder.Visit(node);
      if cycle.Some? {
        return;
      }
      todo := todo - {node};
    }
    forall walk ensures !IsCycle(graph, walk) {
      FinishedGraphsAreAcyclic(graph, finder.finished, walk);
    }
    return None;
  }
}
