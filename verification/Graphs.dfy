/**
Directed graphs given by their edges: walks, reachability, cycles.
*/
module Graphs {
  datatype Edge = Edge(source: string, target: string, fieldName: string, custom: bool)

  /** The outgoing edges of each node that has any, in the order they were added. */
  type Graph = map<string, seq<Edge>>

  function EdgesFrom(graph: Graph, node: string): seq<Edge> {
    if node in graph then graph[node] else []
  }

  predicate IsEdge(graph: Graph, a: string, b: string) {
    exists e | e in EdgesFrom(graph, a) :: e.target == b
  }

  predicate IsStep(graph: Graph, walk: seq<string>, i: nat)
    requires i + 1 < |walk|
  {
    IsEdge(graph, walk[i], walk[i + 1])
  }

  /** A nonempty sequence of nodes along edges. */
  predicate IsWalk(graph: Graph, walk: seq<string>) {
    walk != [] && (forall i | 0 <= i < |walk| - 1 :: IsStep(graph, walk, i))
  }

  predicate IsWalkBetween(graph: Graph, walk: seq<string>, a: string, b: string) {
    IsWalk(graph, walk) && walk[0] == a && walk[|walk| - 1] == b
  }

  ghost predicate Reaches(graph: Graph, a: string, b: string) {
    exists walk :: IsWalkBetween(graph, walk, a, b)
  }

  /** A walk along at least one edge back to where it starts. */
  predicate IsCycle(graph: Graph, walk: seq<string>) {
    IsWalk(graph, walk) && |walk| >= 2 && walk[0] == walk[|walk| - 1]
  }

  ghost predicate HasCycleFrom(graph: Graph, root: string) {
    exists cycle :: IsCycle(graph, cycle) && Reaches(graph, root, cycle[0])
  }

  ghost predicate IsAcyclic(graph: Graph) {
    forall walk :: !IsCycle(graph, walk)
  }

  lemma {:induction false} WalkSlice(graph: Graph, walk: seq<string>, i: nat, j: nat)
    requires IsWalk(graph, walk) && i < j <= |walk|
    ensures IsWalk(graph, walk[i..j])
  {
    forall k | 0 <= k < j - i - 1
      ensures IsStep(graph, walk[i..j], k)
    {
      assert IsStep(graph, walk, i + k);
    }
  }

  lemma {:induction false} WalkExtend(graph: Graph, walk: seq<string>, next: string)
    requires IsWalk(graph, walk) && IsEdge(graph, walk[|walk| - 1], next)
    ensures IsWalkBetween(graph, walk + [next], walk[0], next)
  {
    var longer := walk + [next];
    forall k | 0 <= k < |longer| - 1
      ensures IsStep(graph, longer, k)
    {
      if k + 1 < |walk| {
        assert IsStep(graph, walk, k);
      }
    }
  }

  lemma {:induction false} ReachesItself(graph: Graph, node: string)
    ensures Reaches(graph, node, node)
  {
    assert IsWalkBetween(graph, [node], node, node);
  }

  lemma {:induction false} ReachesNext(graph: Graph, a: string, b: string, c: string)
    requires Reaches(graph, a, b) && IsEdge(graph, b, c)
    ensures Reaches(graph, a, c)
  {
    var walk :| IsWalkBetween(graph, walk, a, b);
    WalkExtend(graph, walk, c);
  }

  /** A set that contains a node and every target of its edges contains everything the node reaches. */
  lemma {:induction false} ClosedContainsReached(graph: Graph, nodes: set<string>, walk: seq<string>)
    requires IsWalk(graph, walk) && walk[0] in nodes
    requires forall a, b | a in nodes && IsEdge(graph, a, b) :: b in nodes
    ensures walk[|walk| - 1] in nodes
    decreases |walk|
  {
    if |walk| > 1 {
      assert IsStep(graph, walk, 0);
      WalkSlice(graph, walk, 1, |walk|);
      assert walk[1..|walk|] == walk[1..];
      ClosedContainsReached(graph, nodes, walk[1..]);
    }
  }

  // ----- Orders without cycles ---------------------------------------------------

  /** Each node of the order has edges only to nodes before it. */
  predicate IsBackwards(graph: Graph, order: seq<string>) {
    forall i | 0 <= i < |order| :: PointsInto(graph, order[i], order[..i])
  }

  predicate PointsInto(graph: Graph, node: string, earlier: seq<string>) {
    forall e | e in EdgesFrom(graph, node) :: e.target in earlier
  }

  lemma {:induction false} BackwardsSnoc(graph: Graph, order: seq<string>, node: string)
    requires IsBackwards(graph, order) && PointsInto(graph, node, order)
    ensures IsBackwards(graph, order + [node])
  {
    var longer := order + [node];
    forall i | 0 <= i < |longer|
      ensures PointsInto(graph, longer[i], longer[..i])
    {
      if i < |order| {
        assert longer[..i] == order[..i];
        assert PointsInto(graph, order[i], order[..i]);
      } else {
        assert longer[..i] == order;
      }
    }
  }

  /** From the node at position `i`, every edge leads to a smaller position, so a walk cannot come back. */
  lemma {:induction false} WalkGoesBackwards(graph: Graph, order: seq<string>, walk: seq<string>, i: nat)
    requires IsBackwards(graph, order) && i < |order|
    requires IsWalk(graph, walk) && walk[0] == order[i]
    ensures |walk| >= 2 ==> walk[|walk| - 1] in order[..i]
    decreases |walk|
  {
    if |walk| >= 2 {
      assert IsStep(graph, walk, 0);
      assert PointsInto(graph, order[i], order[..i]);
      var j :| 0 <= j < i && order[j] == walk[1];
      WalkSlice(graph, walk, 1, |walk|);
      assert walk[1..|walk|] == walk[1..];
      WalkGoesBackwards(graph, order, walk[1..], j);
      assert walk[1..][|walk| - 2] == walk[|walk| - 1];
      assert forall n | n in order[..j] :: n in order[..i];
    }
  }

  /** No cycle starts at a node of the order. */
  lemma {:induction false} NoCycleInOrder(graph: Graph, order: seq<string>, cycle: seq<string>, i: nat)
    requires IsBackwards(graph, order) && i < |order| && IsCycle(graph, cycle)
    ensures cycle[0] != order[i]
    decreases i
  {
    if cycle[0] == order[i] {
      WalkGoesBackwards(graph, order, cycle, i);
      var j :| 0 <= j < i && order[j] == cycle[0];
      NoCycleInOrder(graph, order, cycle, j);
    }
  }

  /** Everything reached from a node of the order is in the order. */
  lemma {:induction false} ReachedInOrder(graph: Graph, order: seq<string>, a: string, b: string)
    requires IsBackwards(graph, order) && a in order && Reaches(graph, a, b)
    ensures b in order
  {
    var walk :| IsWalkBetween(graph, walk, a, b);
    var nodes := set n | n in order;
    forall x, y | x in nodes && IsEdge(graph, x, y)
      ensures y in nodes
    {
      var i :| 0 <= i < |order| && order[i] == x;
      assert PointsInto(graph, order[i], order[..i]);
    }
    ClosedContainsReached(graph, nodes, walk);
  }

  /** So a node of the order reaches no cycle. */
  lemma {:induction false} OrderHasNoCycle(graph: Graph, order: seq<string>, root: string)
    requires IsBackwards(graph, order) && root in order
    ensures !HasCycleFrom(graph, root)
  {
    forall cycle | IsCycle(graph, cycle)
      ensures !Reaches(graph, root, cycle[0])
    {
      if Reaches(graph, root, cycle[0]) {
        ReachedInOrder(graph, order, root, cycle[0]);
        var i :| 0 <= i < |order| && order[i] == cycle[0];
        NoCycleInOrder(graph, order, cycle, i);
      }
    }
  }
}
