/**
The depth-first search that rejects recursive table fields: a shared set of visited DocTypes and
the path from the root to the current one.
*/
module TableGraphSearch {
  import opened Results
  import opened Graphs

  function IndexOf(path: seq<string>, node: string): Option<nat> {
    if path == [] then None
    else if path[0] == node then Some(0)
    else
      var rest := IndexOf(path[1..], node);
      if rest.None? then None else Some(rest.value + 1)
  }

  lemma {:induction false} IndexOfFinds(path: seq<string>, node: string)
    ensures IndexOf(path, node).Some? <==> node in path
    ensures IndexOf(path, node).Some? ==> IndexOf(path, node).value < |path| && path[IndexOf(path, node).value] == node
  {
    if path != [] {
      IndexOfFinds(path[1..], node);
    }
  }

  /** Every node the search can come to. */
  function Nodes(graph: Graph, root: string): set<string> {
    {root} + (set node, e | node in graph && e in graph[node] :: e.target)
  }

  /** The visited nodes are those being visited and those that are done, which point only to nodes done before. */
  ghost predicate IsProgress(graph: Graph, root: string, visited: set<string>, visiting: seq<string>, done: seq<string>) {
    && visited <= Nodes(graph, root)
    && (forall n :: n in visited <==> n in visiting || n in done)
    && (forall n | n in done :: n !in visiting)
    && IsBackwards(graph, done)
  }

  class Search {
    const graph: Graph
    const root: string
    var visited: set<string>
    /** The nodes whose edges were all followed, in the order they were done. */
    ghost var done: seq<string>

    constructor (graph: Graph, root: string)
      ensures this.graph == graph && this.root == root && visited == {} && done == []
    {
      this.graph := graph;
      this.root := root;
      visited := {};
      done := [];
    }

    /**
    Visits a node at the end of the path that leads to it. Either a cycle is reported, or the node
    is done, and every other node being visited still is.
    */
    method Visit(node: string, path: seq<string>) returns (cycle: Option<seq<string>>)
      requires path != [] && path[|path| - 1] == node && node !in visited && node in Nodes(graph, root)
      requires IsProgress(graph, root, visited, path[..|path| - 1], done)
      requires IsWalkBetween(graph, path, root, node)
      modifies this
      ensures cycle.Some? ==> IsCycle(graph, cycle.value) && Reaches(graph, root, cycle.value[0])
      ensures cycle.None? ==> IsProgress(graph, root, visited, path[..|path| - 1], done)
      ensures cycle.None? ==> old(visited) <= visited && old(done) <= done && node in done
      decreases Nodes(graph, root) - visited
    {
      hide IsProgress, Nodes, IsWalk, IsCycle, IndexOf;
      Entered(graph, root, visited, path, done);
      visited := visited + {node};
      var edges := EdgesFrom(graph, node);
      var i := 0;
      while i < |edges|
        invariant 0 <= i <= |edges|
        invariant IsProgress(graph, root, visited, path, done)
        invariant old(visited) + {node} <= visited && old(done) <= done
        invariant forall j | 0 <= j < i :: edges[j].target in done
      {
        var target := edges[i].target;
        EdgeTarget(graph, root, path, edges[i]);
        var start := IndexOf(path, target);
        IndexOfFinds(path, target);
        if start.Some? {
          CycleFound(graph, path, start.value, root);
          return Some(path[start.value..] + [target]);
        }
        if target !in visited {
          assert (path + [target])[..|path|] == path;
          cycle := Visit(target, path + [target]);
          if cycle.Some? {
            return;
          }
        } else {
          VisitedOffPath(graph, root, visited, path, done, target);
        }
        i := i + 1;
      }
      Left(graph, root, visited, path, done, edges);
      done := done + [node];
      cycle := None;
    }

    /** Reports a cycle exactly when one can be reached from the root. */
    method Check() returns (cycle: Option<seq<string>>)
      requires visited == {} && done == []
      modifies this
      ensures cycle.Some? <==> HasCycleFrom(graph, root)
      ensures cycle.Some? ==> IsCycle(graph, cycle.value) && Reaches(graph, root, cycle.value[0])
    {
      assert IsWalkBetween(graph, [root], root, root);
      assert [root][..0] == [];
      assert IsProgress(graph, root, visited, [], done);
      cycle := Visit(root, [root]);
      if cycle.None? {
        OrderHasNoCycle(graph, done, root);
      }
    }
  }

  lemma {:induction false} CycleFound(graph: Graph, path: seq<string>, start: nat, root: string)
    requires IsWalk(graph, path) && path[0] == root && start < |path|
    requires IsEdge(graph, path[|path| - 1], path[start])
    ensures IsCycle(graph, path[start..] + [path[start]])
    ensures Reaches(graph, root, path[start])
  {
    WalkSlice(graph, path, start, |path|);
    assert path[start..|path|] == path[start..];
    WalkExtend(graph, path[start..], path[start]);
    WalkSlice(graph, path, 0, start + 1);
    assert IsWalkBetween(graph, path[0..start + 1], root, path[start]);
  }

  lemma {:induction false} Entered(graph: Graph, root: string, visited: set<string>, path: seq<string>, done: seq<string>)
    requires path != [] && path[|path| - 1] !in visited && path[|path| - 1] in Nodes(graph, root)
    requires IsProgress(graph, root, visited, path[..|path| - 1], done)
    ensures IsProgress(graph, root, visited + {path[|path| - 1]}, path, done)
    ensures path[|path| - 1] !in path[..|path| - 1]
  {
    assert path == path[..|path| - 1] + [path[|path| - 1]];
  }

  lemma {:induction false} EdgeTarget(graph: Graph, root: string, path: seq<string>, edge: Edge)
    requires IsWalk(graph, path) && path[0] == root && edge in EdgesFrom(graph, path[|path| - 1])
    ensures edge.target in Nodes(graph, root) && IsEdge(graph, path[|path| - 1], edge.target)
    ensures IsWalkBetween(graph, path + [edge.target], root, edge.target)
  {
    WalkExtend(graph, path, edge.target);
  }

  lemma {:induction false} VisitedOffPath(graph: Graph, root: string, visited: set<string>, path: seq<string>, done: seq<string>,
                                          node: string)
    requires IsProgress(graph, root, visited, path, done) && node in visited && node !in path
    ensures node in done
  {
  }

  /** A node whose edges all lead to done nodes is done itself. */
  lemma {:induction false} Left(graph: Graph, root: string, visited: set<string>, path: seq<string>, done: seq<string>,
                                edges: seq<Edge>)
    requires IsProgress(graph, root, visited, path, done) && path != []
    requires path[|path| - 1] !in path[..|path| - 1]
    requires edges == EdgesFrom(graph, path[|path| - 1]) && (forall j | 0 <= j < |edges| :: edges[j].target in done)
    ensures IsProgress(graph, root, visited, path[..|path| - 1], done + [path[|path| - 1]])
  {
    BackwardsSnoc(graph, done, path[|path| - 1]);
    assert path == path[..|path| - 1] + [path[|path| - 1]];
  }
}
