/**
The DocTypes a document command needs beside its own: everything its table and link fields lead to,
collected by a recursion that fills one shared map.
*/
module TenantDocTypes {
  import opened Results
  import opened Graphs
  import opened CustomFields

  /** The DocTypes the tenant knows, by name. */
  type Registry = map<string, DocType>

  function RelatedName(field: Field): Option<string> {
    match field.fieldType
    case Table(target) => if target == "" then None else Some(target)
    case Link(target) => if target == "" then None else Some(target)
    case Plain => None
  }

  /** The names the fields lead to, each once. */
  function RelatedNames(fields: seq<Field>): seq<string> {
    if fields == [] then []
    else
      var earlier, name := RelatedNames(fields[..|fields| - 1]), RelatedName(fields[|fields| - 1]);
      if name.None? || name.value in earlier then earlier else earlier + [name.value]
  }

  function RelatedEdges(source: string, names: seq<string>): seq<Edge> {
    seq(|names|, i requires 0 <= i < |names| => Edge(source, names[i], "", false))
  }

  function Definitions(root: DocType, registry: Registry): Registry {
    registry[root.name := root]
  }

  /** The graph of table and link fields, in which the root stands for itself. */
  function RelatedGraph(root: DocType, registry: Registry): Graph {
    var definitions := Definitions(root, registry);
    map name | name in definitions :: RelatedEdges(name, RelatedNames(definitions[name].fields))
  }

  lemma {:induction false} RelatedEdge(root: DocType, registry: Registry, a: string, b: string)
    ensures IsEdge(RelatedGraph(root, registry), a, b)
       <==> a in Definitions(root, registry) && b in RelatedNames(Definitions(root, registry)[a].fields)
  {
    var graph, definitions := RelatedGraph(root, registry), Definitions(root, registry);
    if a in definitions {
      var names := RelatedNames(definitions[a].fields);
      assert graph[a] == RelatedEdges(a, names);
      if b in names {
        var i :| 0 <= i < |names| && names[i] == b;
        assert graph[a][i].target == b && graph[a][i] in graph[a];
      }
    }
  }

  /** Everything collected so far can be reached, and outside `open` everything it leads to is collected. */
  ghost predicate IsCollection(root: DocType, registry: Registry, related: Registry, open: set<string>) {
    && related.Keys <= Definitions(root, registry).Keys
    && root.name in related
    && (forall name | name in related :: related[name] == Definitions(root, registry)[name]
                                      && Reaches(RelatedGraph(root, registry), root.name, name))
    && (forall a, b | a in related && a !in open && IsEdge(RelatedGraph(root, registry), a, b) :: b in related)
  }

  /** A name that is needed but unknown. */
  ghost predicate IsMissing(root: DocType, registry: Registry, name: string) {
    Reaches(RelatedGraph(root, registry), root.name, name) && name !in Definitions(root, registry)
  }

  class Collector {
    const root: DocType
    const registry: Registry
    var related: Registry

    constructor (root: DocType, registry: Registry)
      ensures this.root == root && this.registry == registry && related == map[root.name := root]
    {
      this.root := root;
      this.registry := registry;
      related := map[root.name := root];
    }

    /** Collects what a collected DocType leads to. */
    method Collect(name: string, ghost open: set<string>) returns (missing: Option<string>)
      requires name in related && name in open && IsCollection(root, registry, related, open)
      modifies this`related
      ensures missing.Some? ==> IsMissing(root, registry, missing.value)
      ensures missing.None? ==> old(related.Keys) <= related.Keys && IsCollection(root, registry, related, open - {name})
      decreases Definitions(root, registry).Keys - related.Keys
    {
      hide IsCollection, RelatedGraph, RelatedNames, Reaches;
      CollectedDefinition(root, registry, related, open, name);
      var names := RelatedNames(related[name].fields);
      var i := 0;
      while i < |names|
        invariant 0 <= i <= |names|
        invariant IsCollection(root, registry, related, open)
        invariant old(related.Keys) <= related.Keys
        invariant forall j | 0 <= j < i :: names[j] in related
      {
        var next := names[i];
        if next !in related {
          CollectedDefinition(root, registry, related, open, name);
          NextIsReached(root, registry, related, open, name, next);
          if next !in registry {
            return Some(next);
          }
          Collected(root, registry, related, open, name, next);
          assert next in Definitions(root, registry).Keys;
          assert next !in old(related.Keys);
          related := related[next := registry[next]];
          assert next in Definitions(root, registry).Keys - old(related.Keys);
          assert next !in Definitions(root, registry).Keys - related.Keys;
          missing := Collect(next, open + {next});
          if missing.Some? {
            return;
          }
          assert open + {next} - {next} == open - {next};
          CloseAgain(root, registry, related, open, next);
        }
        i := i + 1;
      }
      CollectedDefinition(root, registry, related, open, name);
      Closed(root, registry, related, open, name, names);
      missing := None;
    }

    /** Exactly the reachable DocTypes are collected; it fails exactly when one of them is unknown. */
    method CollectReachable() returns (missing: Option<string>)
      requires related == map[root.name := root]
      modifies this
      ensures missing.Some? ==> IsMissing(root, registry, missing.value)
      ensures missing.None? ==>
                && (forall name :: name in related <==> Reaches(RelatedGraph(root, registry), root.name, name))
                && related.Keys <= Definitions(root, registry).Keys
                && (forall name | name in related :: related[name] == Definitions(root, registry)[name])
                && (forall name :: !IsMissing(root, registry, name))
    {
      ReachesItself(RelatedGraph(root, registry), root.name);
      missing := Collect(root.name, {root.name});
      if missing.None? {
        assert {root.name} - {root.name} == {};
        forall name
          ensures name in related <==> Reaches(RelatedGraph(root, registry), root.name, name)
        {
          ClosedIsComplete(root, registry, related, name);
        }
      }
    }
  }

  lemma {:induction false} CollectedDefinition(root: DocType, registry: Registry, related: Registry, open: set<string>, name: string)
    requires IsCollection(root, registry, related, open) && name in related
    ensures name in Definitions(root, registry) && related[name] == Definitions(root, registry)[name]
    ensures root.name in related
  {
  }

  lemma {:induction false} NextIsReached(root: DocType, registry: Registry, related: Registry, open: set<string>, name: string,
                                         next: string)
    requires IsCollection(root, registry, related, open) && name in related
    requires next in RelatedNames(related[name].fields)
    ensures Reaches(RelatedGraph(root, registry), root.name, next)
  {
    RelatedEdge(root, registry, name, next);
    ReachesNext(RelatedGraph(root, registry), root.name, name, next);
  }

  lemma {:induction false} Collected(root: DocType, registry: Registry, related: Registry, open: set<string>, name: string,
                                     next: string)
    requires IsCollection(root, registry, related, open) && name in related && name in open
    requires next !in related && next in registry && Reaches(RelatedGraph(root, registry), root.name, next)
    ensures IsCollection(root, registry, related[next := registry[next]], open + {next})
  {
  }

  lemma {:induction false} CloseAgain(root: DocType, registry: Registry, related: Registry, open: set<string>, next: string)
    requires IsCollection(root, registry, related, open - {next})
    ensures IsCollection(root, registry, related, open)
  {
  }

  /** A DocType all of whose names are collected no longer needs to stay open. */
  lemma {:induction false} Closed(root: DocType, registry: Registry, related: Registry, open: set<string>, name: string,
                                  names: seq<string>)
    requires IsCollection(root, registry, related, open) && name in related
    requires names == RelatedNames(related[name].fields) && (forall j | 0 <= j < |names| :: names[j] in related)
    ensures IsCollection(root, registry, related, open - {name})
  {
    forall b | IsEdge(RelatedGraph(root, registry), name, b)
      ensures b in related
    {
      RelatedEdge(root, registry, name, b);
    }
  }

  lemma {:induction false} ClosedIsComplete(root: DocType, registry: Registry, related: Registry, name: string)
    requires IsCollection(root, registry, related, {})
    ensures name in related <==> Reaches(RelatedGraph(root, registry), root.name, name)
  {
    var graph := RelatedGraph(root, registry);
    if Reaches(graph, root.name, name) {
      var walk :| IsWalkBetween(graph, walk, root.name, name);
      ClosedContainsReached(graph, related.Keys, walk);
    }
  }
}
