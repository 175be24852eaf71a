/**
Custom fields of a tenant: the catalog's fold per DocType, the table graph they make together with
the fields the DocTypes come with, and why checking one root at each save keeps it free of cycles.
*/
module CustomFields {
  import opened Results
  import opened Graphs

  datatype FieldType = Table(tableOf: string) | Link(linkTo: string) | Plain

  datatype Field = Field(name: string, fieldType: FieldType)

  datatype DocType = DocType(name: string, fields: seq<Field>)

  datatype Event = Saved(doctype: string, field: Field) | Disabled(doctype: string, fieldName: string)

  datatype Entry = Entry(field: Field, enabled: bool)

  /** The custom fields of one DocType. */
  datatype State = State(doctype: string, fields: seq<Entry>)

  // ----- The fold -------------------------------------------------------------

  function Find(fields: seq<Entry>, name: string): Option<nat> {
    if fields == [] then None
    else if fields[0].field.name == name then Some(0)
    else
      var rest := Find(fields[1..], name);
      if rest.None? then None else Some(rest.value + 1)
  }

  lemma {:induction false} FindFinds(fields: seq<Entry>, name: string)
    ensures Find(fields, name).Some? <==> exists e | e in fields :: e.field.name == name
    ensures Find(fields, name).Some? ==>
              Find(fields, name).value < |fields| && fields[Find(fields, name).value].field.name == name
  {
    if fields != [] {
      FindFinds(fields[1..], name);
      assert fields == [fields[0]] + fields[1..];
    }
  }

  predicate DistinctEntries(fields: seq<Entry>) {
    forall i, j | 0 <= i < j < |fields| :: fields[i].field.name != fields[j].field.name
  }

  function Apply(doctype: string, fields: seq<Entry>, e: Event): (r: seq<Entry>) {
    if e.doctype != doctype then fields
    else
      var name := if e.Saved? then e.field.name else e.fieldName;
      FindFinds(fields, name);
      var at := Find(fields, name);
      match e
      case Saved(_, field) => if at.Some? then fields[at.value := Entry(field, true)] else fields + [Entry(field, true)]
      case Disabled(_, _) => if at.Some? then fields[at.value := Entry(fields[at.value].field, false)] else fields
  }

  /** The last save or disabling of each field name counts. */
  function Fold(doctype: string, events: seq<Event>): seq<Entry> {
    if events == [] then [] else Apply(doctype, Fold(doctype, events[..|events| - 1]), events[|events| - 1])
  }

  lemma {:induction false} FoldIsDistinct(doctype: string, events: seq<Event>)
    ensures DistinctEntries(Fold(doctype, events))
  {
    if events != [] {
      var fields, e := Fold(doctype, events[..|events| - 1]), events[|events| - 1];
      FoldIsDistinct(doctype, events[..|events| - 1]);
      FindFinds(fields, if e.Saved? then e.field.name else e.fieldName);
      assert forall i | 0 <= i < |fields| :: fields[i] in fields;
    }
  }

  /** Fields saved before the catalog existed come first. */
  function StateOf(doctype: string, legacy: seq<Event>, catalog: seq<Event>): State {
    State(doctype, Fold(doctype, legacy + catalog))
  }

  function StatesOf(doctypes: seq<DocType>, legacy: seq<Event>, catalog: seq<Event>): seq<State> {
    seq(|doctypes|, i requires 0 <= i < |doctypes| => StateOf(doctypes[i].name, legacy, catalog))
  }

  // ----- The table graph ----------------------------------------------------------

  function TargetOf(field: Field): Option<string> {
    if field.fieldType.Table? && field.fieldType.tableOf != "" then Some(field.fieldType.tableOf) else None
  }

  function BaseEdges(name: string, fields: seq<Field>): seq<Edge> {
    if fields == [] then []
    else
      var earlier, last := BaseEdges(name, fields[..|fields| - 1]), fields[|fields| - 1];
      if TargetOf(last).Some? then earlier + [Edge(name, TargetOf(last).value, last.name, false)] else earlier
  }

  function CustomEdges(name: string, fields: seq<Entry>): seq<Edge> {
    if fields == [] then []
    else
      var earlier, last := CustomEdges(name, fields[..|fields| - 1]), fields[|fields| - 1];
      if last.enabled && TargetOf(last.field).Some?
      then earlier + [Edge(name, TargetOf(last.field).value, last.field.name, true)] else earlier
  }

  function AllBaseEdges(doctypes: seq<DocType>): seq<Edge> {
    if doctypes == [] then []
    else
      var last := doctypes[|doctypes| - 1];
      AllBaseEdges(doctypes[..|doctypes| - 1]) + BaseEdges(last.name, last.fields)
  }

  function AllCustomEdges(states: seq<State>): seq<Edge> {
    if states == [] then []
    else
      var last := states[|states| - 1];
      AllCustomEdges(states[..|states| - 1]) + CustomEdges(last.doctype, last.fields)
  }

  function Add(graph: Graph, e: Edge): Graph {
    graph[e.source := EdgesFrom(graph, e.source) + [e]]
  }

  function GraphOf(edges: seq<Edge>): Graph {
    if edges == [] then map[] else Add(GraphOf(edges[..|edges| - 1]), edges[|edges| - 1])
  }

  function TableGraph(doctypes: seq<DocType>, states: seq<State>): Graph {
    GraphOf(AllBaseEdges(doctypes) + AllCustomEdges(states))
  }

  lemma GraphOfSnoc(edges: seq<Edge>, e: Edge)
    ensures GraphOf(edges + [e]) == Add(GraphOf(edges), e)
  {
    assert (edges + [e])[..|edges|] == edges;
  }

  method AddBaseFields(graph: Graph, doctype: DocType, ghost edges: seq<Edge>) returns (r: Graph)
    requires graph == GraphOf(edges)
    ensures r == GraphOf(edges + BaseEdges(doctype.name, doctype.fields))
  {
    r := graph;
    var fields := doctype.fields;
    ghost var added: seq<Edge> := [];
    var j := 0;
    assert edges + added == edges;
    while j < |fields|
      invariant 0 <= j <= |fields|
      invariant added == BaseEdges(doctype.name, fields[..j]) && r == GraphOf(edges + added)
    {
      assert fields[..j + 1][..j] == fields[..j];
      var target := TargetOf(fields[j]);
      if target.Some? {
        var e := Edge(doctype.name, target.value, fields[j].name, false);
        GraphOfSnoc(edges + added, e);
        assert edges + (added + [e]) == edges + added + [e];
        r := Add(r, e);
        added := added + [e];
      }
      j := j + 1;
    }
    assert fields[..j] == fields;
  }

  method AddCustomFields(graph: Graph, state: State, ghost edges: seq<Edge>) returns (r: Graph)
    requires graph == GraphOf(edges)
    ensures r == GraphOf(edges + CustomEdges(state.doctype, state.fields))
  {
    r := graph;
    var fields := state.fields;
    ghost var added: seq<Edge> := [];
    var j := 0;
    assert edges + added == edges;
    while j < |fields|
      invariant 0 <= j <= |fields|
      invariant added == CustomEdges(state.doctype, fields[..j]) && r == GraphOf(edges + added)
    {
      assert fields[..j + 1][..j] == fields[..j];
      var target := TargetOf(fields[j].field);
      if fields[j].enabled && target.Some? {
        var e := Edge(state.doctype, target.value, fields[j].field.name, true);
        GraphOfSnoc(edges + added, e);
        assert edges + (added + [e]) == edges + added + [e];
        r := Add(r, e);
        added := added + [e];
      }
      j := j + 1;
    }
    assert fields[..j] == fields;
  }

  lemma {:induction false} AllCustomEdgesSnoc(base: seq<Edge>, states: seq<State>, i: nat)
    requires i < |states|
    ensures base + AllCustomEdges(states[..i]) + CustomEdges(states[i].doctype, states[i].fields)
         == base + AllCustomEdges(states[..i + 1])
  {
    assert states[..i + 1][..i] == states[..i];
  }

  method BuildBaseGraph(doctypes: seq<DocType>) returns (graph: Graph)
    ensures graph == GraphOf(AllBaseEdges(doctypes))
  {
    hide BaseEdges;
    graph := map[];
    var i := 0;
    while i < |doctypes|
      invariant 0 <= i <= |doctypes|
      invariant graph == GraphOf(AllBaseEdges(doctypes[..i]))
    {
      assert doctypes[..i + 1][..i] == doctypes[..i];
      graph := AddBaseFields(graph, doctypes[i], AllBaseEdges(doctypes[..i]));
      i := i + 1;
    }
    assert doctypes[..i] == doctypes;
  }

  /** Adds every table field of every DocType, then every enabled custom table field. */
  method BuildTableGraph(doctypes: seq<DocType>, states: seq<State>) returns (graph: Graph)
    ensures graph == TableGraph(doctypes, states)
  {
    graph := BuildBaseGraph(doctypes);
    ghost var base := AllBaseEdges(doctypes);
    assert base + AllCustomEdges(states[..0]) == base;
    hide GraphOf, AllCustomEdges, CustomEdges, AllBaseEdges;
    var i := 0;
    while i < |states|
      invariant 0 <= i <= |states|
      invariant graph == GraphOf(base + AllCustomEdges(states[..i]))
    {
      graph := AddCustomFields(graph, states[i], base + AllCustomEdges(states[..i]));
      AllCustomEdgesSnoc(base, states, i);
      i := i + 1;
    }
    assert states[..i] == states;
  }

  // ----- Which edges there are ---------------------------------------------------------

  predicate HasBaseEdge(doctypes: seq<DocType>, a: string, b: string) {
    exists e | e in AllBaseEdges(doctypes) :: e.source == a && e.target == b
  }

  predicate HasTable(fields: seq<Entry>, b: string) {
    exists e | e in fields :: e.enabled && TargetOf(e.field) == Some(b)
  }

  predicate HasCustomEdge(states: seq<State>, a: string, b: string) {
    exists s | s in states :: s.doctype == a && HasTable(s.fields, b)
  }

  lemma {:induction false} GraphOfHasEdges(edges: seq<Edge>, a: string)
    ensures forall e :: e in EdgesFrom(GraphOf(edges), a) <==> e in edges && e.source == a
  {
    if edges != [] {
      GraphOfHasEdges(edges[..|edges| - 1], a);
      assert edges == edges[..|edges| - 1] + [edges[|edges| - 1]];
    }
  }

  lemma {:induction false} CustomEdgesAreTables(name: string, fields: seq<Entry>, b: string)
    ensures (exists e | e in CustomEdges(name, fields) :: e.target == b) <==> HasTable(fields, b)
    ensures forall e | e in CustomEdges(name, fields) :: e.source == name
  {
    if fields != [] {
      var init, last := fields[..|fields| - 1], fields[|fields| - 1];
      CustomEdgesAreTables(name, init, b);
      assert fields == init + [last];
      assert HasTable(fields, b) <==> HasTable(init, b) || (last.enabled && TargetOf(last.field) == Some(b)) by {
        assert last in fields && (forall e | e in init :: e in fields);
      }
    }
  }

  lemma {:induction false} AllCustomEdgesAreTables(states: seq<State>, a: string, b: string)
    ensures (exists e | e in AllCustomEdges(states) :: e.source == a && e.target == b) <==> HasCustomEdge(states, a, b)
  {
    if states != [] {
      var init, last := states[..|states| - 1], states[|states| - 1];
      AllCustomEdgesAreTables(init, a, b);
      CustomEdgesAreTables(last.doctype, last.fields, b);
      assert states == init + [last];
      assert HasCustomEdge(states, a, b) <==> HasCustomEdge(init, a, b) || (last.doctype == a && HasTable(last.fields, b)) by {
        assert last in states && (forall s | s in init :: s in states);
      }
      var earlier, own := AllCustomEdges(init), CustomEdges(last.doctype, last.fields);
      assert AllCustomEdges(states) == earlier + own;
      assert forall e :: e in earlier + own <==> e in earlier || e in own;
    }
  }

  /** An edge of the graph is a table field of a DocType or an enabled custom table field. */
  lemma {:induction false} TableGraphEdges(doctypes: seq<DocType>, states: seq<State>, a: string, b: string)
    ensures IsEdge(TableGraph(doctypes, states), a, b) <==> HasBaseEdge(doctypes, a, b) || HasCustomEdge(states, a, b)
  {
    var base, custom := AllBaseEdges(doctypes), AllCustomEdges(states);
    GraphOfHasEdges(base + custom, a);
    AllCustomEdgesAreTables(states, a, b);
    hide AllBaseEdges, AllCustomEdges, GraphOf, HasCustomEdge;
    assert forall e :: e in base + custom <==> e in base || e in custom;
  }

  // ----- A pending save ------------------------------------------------------------------

  function Others(fields: seq<Entry>, name: string): seq<Entry> {
    if fields == [] then []
    else
      var earlier, last := Others(fields[..|fields| - 1], name), fields[|fields| - 1];
      if last.field.name == name then earlier else earlier + [last]
  }

  function Replaced(fields: seq<Entry>, field: Field): seq<Entry> {
    Others(fields, field.name) + [Entry(field, true)]
  }

  /** The states as they would be after saving the field. */
  function Pending(states: seq<State>, doctype: string, field: Field): seq<State> {
    seq(|states|, i requires 0 <= i < |states| =>
      if states[i].doctype != doctype then states[i] else State(doctype, Replaced(states[i].fields, field)))
  }

  lemma {:induction false} OthersAreOthers(fields: seq<Entry>, name: string)
    ensures forall e :: e in Others(fields, name) <==> e in fields && e.field.name != name
  {
    if fields != [] {
      var init := fields[..|fields| - 1];
      OthersAreOthers(init, name);
      assert fields == init + [fields[|fields| - 1]];
    }
  }

  /** The pending state has the tables the catalog will have once the save is folded in. */
  lemma {:induction false} ReplacedIsSaved(doctype: string, fields: seq<Entry>, field: Field, b: string)
    requires DistinctEntries(fields)
    ensures HasTable(Replaced(fields, field), b) <==> HasTable(Apply(doctype, fields, Saved(doctype, field)), b)
  {
    var saved := Apply(doctype, fields, Saved(doctype, field));
    var entry := Entry(field, true);
    OthersAreOthers(fields, field.name);
    FindFinds(fields, field.name);
    forall e
      ensures e in Replaced(fields, field) <==> e in saved
    {
      if e in saved {
        var i :| 0 <= i < |saved| && saved[i] == e;
        assert i < |fields| ==> saved[i] == fields[i] || e == entry;
      }
      if e in fields && e.field.name != field.name {
        var i :| 0 <= i < |fields| && fields[i] == e;
        assert saved[i] == e;
      }
      assert entry in saved by {
        var at := Find(fields, field.name);
        assert saved[if at.Some? then at.value else |fields|] == entry;
      }
    }
  }

  /** Disabling a field only takes tables away. */
  lemma {:induction false} DisabledHasFewer(doctype: string, fields: seq<Entry>, name: string, b: string)
    ensures HasTable(Apply(doctype, fields, Disabled(doctype, name)), b) ==> HasTable(fields, b)
  {
    var after := Apply(doctype, fields, Disabled(doctype, name));
    FindFinds(fields, name);
    if HasTable(after, b) {
      var e :| e in after && e.enabled && TargetOf(e.field) == Some(b);
      var i :| 0 <= i < |after| && after[i] == e;
      assert fields[i] == e;
    }
  }

  predicate IsRegistered(doctypes: seq<DocType>, name: string) {
    exists d | d in doctypes :: d.name == name
  }

  function CatalogGraph(doctypes: seq<DocType>, legacy: seq<Event>, catalog: seq<Event>): Graph {
    TableGraph(doctypes, StatesOf(doctypes, legacy, catalog))
  }

  function PendingGraph(doctypes: seq<DocType>, legacy: seq<Event>, catalog: seq<Event>, doctype: string, field: Field): Graph {
    TableGraph(doctypes, Pending(StatesOf(doctypes, legacy, catalog), doctype, field))
  }

  lemma {:induction false} CatalogEdge(doctypes: seq<DocType>, legacy: seq<Event>, catalog: seq<Event>, a: string, b: string)
    ensures IsEdge(CatalogGraph(doctypes, legacy, catalog), a, b)
       <==> HasBaseEdge(doctypes, a, b) || (IsRegistered(doctypes, a) && HasTable(Fold(a, legacy + catalog), b))
  {
    var states := StatesOf(doctypes, legacy, catalog);
    TableGraphEdges(doctypes, states, a, b);
    hide TableGraph, HasBaseEdge, HasTable, Fold;
    if HasCustomEdge(states, a, b) {
      var s :| s in states && s.doctype == a && HasTable(s.fields, b);
      var i :| 0 <= i < |states| && states[i] == s;
      assert doctypes[i] in doctypes;
    }
    if IsRegistered(doctypes, a) && HasTable(Fold(a, legacy + catalog), b) {
      var d :| d in doctypes && d.name == a;
      var i :| 0 <= i < |doctypes| && doctypes[i] == d;
      assert states[i] in states;
    }
  }

  lemma {:induction false} PendingEdge(doctypes: seq<DocType>, legacy: seq<Event>, catalog: seq<Event>, doctype: string,
                                       field: Field, a: string, b: string)
    ensures IsEdge(PendingGraph(doctypes, legacy, catalog, doctype, field), a, b)
       <==> || HasBaseEdge(doctypes, a, b)
            || (IsRegistered(doctypes, a)
                && HasTable(if a == doctype then Replaced(Fold(a, legacy + catalog), field) else Fold(a, legacy + catalog), b))
  {
    var states := Pending(StatesOf(doctypes, legacy, catalog), doctype, field);
    TableGraphEdges(doctypes, states, a, b);
    hide TableGraph, HasBaseEdge, HasTable, Fold, Replaced;
    var fields := if a == doctype then Replaced(Fold(a, legacy + catalog), field) else Fold(a, legacy + catalog);
    if HasCustomEdge(states, a, b) {
      var s :| s in states && s.doctype == a && HasTable(s.fields, b);
      var i :| 0 <= i < |states| && states[i] == s;
      assert doctypes[i] in doctypes && s.fields == fields;
    }
    if IsRegistered(doctypes, a) && HasTable(fields, b) {
      var d :| d in doctypes && d.name == a;
      var i :| 0 <= i < |doctypes| && doctypes[i] == d;
      assert states[i] in states && states[i].fields == fields;
    }
  }

  lemma FoldSnoc(doctype: string, legacy: seq<Event>, catalog: seq<Event>, e: Event)
    ensures Fold(doctype, legacy + (catalog + [e])) == Apply(doctype, Fold(doctype, legacy + catalog), e)
  {
    var events := legacy + (catalog + [e]);
    assert events[..|events| - 1] == legacy + catalog;
  }

  /** What was checked before a save is what the catalog says after it. */
  lemma {:induction false} PendingIsNext(doctypes: seq<DocType>, legacy: seq<Event>, catalog: seq<Event>, doctype: string,
                                         field: Field, a: string, b: string)
    ensures IsEdge(PendingGraph(doctypes, legacy, catalog, doctype, field), a, b)
       <==> IsEdge(CatalogGraph(doctypes, legacy, catalog + [Saved(doctype, field)]), a, b)
  {
    hide CatalogGraph, PendingGraph, HasBaseEdge, HasTable, IsRegistered, Apply, Replaced, Fold;
    var e := Saved(doctype, field);
    PendingEdge(doctypes, legacy, catalog, doctype, field, a, b);
    CatalogEdge(doctypes, legacy, catalog + [e], a, b);
    FoldSnoc(a, legacy, catalog, e);
    if a == doctype {
      FoldIsDistinct(a, legacy + catalog);
      ReplacedIsSaved(doctype, Fold(a, legacy + catalog), field, b);
    } else {
      ApplyToOther(a, Fold(a, legacy + catalog), e);
    }
  }

  lemma ApplyToOther(doctype: string, fields: seq<Entry>, e: Event)
    requires e.doctype != doctype
    ensures Apply(doctype, fields, e) == fields
  {
  }

  /** Only edges out of the edited DocType can be new. */
  lemma {:induction false} EdgesElsewhereStay(doctypes: seq<DocType>, legacy: seq<Event>, catalog: seq<Event>, e: Event,
                                              a: string, b: string)
    requires IsEdge(CatalogGraph(doctypes, legacy, catalog + [e]), a, b)
    requires a != e.doctype || e.Disabled?
    ensures IsEdge(CatalogGraph(doctypes, legacy, catalog), a, b)
  {
    hide CatalogGraph, HasBaseEdge, HasTable, IsRegistered, Apply, Fold;
    CatalogEdge(doctypes, legacy, catalog, a, b);
    CatalogEdge(doctypes, legacy, catalog + [e], a, b);
    FoldSnoc(a, legacy, catalog, e);
    if a != e.doctype {
      ApplyToOther(a, Fold(a, legacy + catalog), e);
    } else {
      DisabledHasFewer(a, Fold(a, legacy + catalog), e.fieldName, b);
    }
  }

  // ----- Checking one root is enough --------------------------------------------------------

  /** The walk leaves `root` out, so it exists in the graph before `root` was edited. */
  lemma {:induction false} WalkElsewhere(before: Graph, after: Graph, root: string, walk: seq<string>)
    requires IsWalk(after, walk) && root !in walk
    requires forall a, b | IsEdge(after, a, b) && a != root :: IsEdge(before, a, b)
    ensures IsWalk(before, walk)
  {
    forall i | 0 <= i < |walk| - 1
      ensures IsStep(before, walk, i)
    {
      assert IsStep(after, walk, i) && walk[i] in walk;
    }
  }

  lemma {:induction false} CycleThrough(graph: Graph, cycle: seq<string>, root: string)
    requires IsCycle(graph, cycle) && root in cycle
    ensures HasCycleFrom(graph, root)
  {
    var i :| 0 <= i < |cycle| && cycle[i] == root;
    WalkSlice(graph, cycle, i, |cycle|);
    assert IsWalkBetween(graph, cycle[i..|cycle|], root, cycle[0]);
    assert Reaches(graph, root, cycle[0]);
  }

  /** If only edges out of `root` are new and no cycle is reachable from `root`, a graph without cycles stays one. */
  lemma {:induction false} OneRootIsEnough(before: Graph, after: Graph, root: string)
    requires IsAcyclic(before) && !HasCycleFrom(after, root)
    requires forall a, b | IsEdge(after, a, b) && a != root :: IsEdge(before, a, b)
    ensures IsAcyclic(after)
  {
    forall walk
      ensures !IsCycle(after, walk)
    {
      assert !IsCycle(before, walk);
      if IsCycle(after, walk) {
        if root in walk {
          CycleThrough(after, walk, root);
        } else {
          WalkElsewhere(before, after, root, walk);
        }
      }
    }
  }

  lemma {:induction false} SameWalks(first: Graph, second: Graph, walk: seq<string>)
    requires IsWalk(first, walk)
    requires forall a, b | IsEdge(first, a, b) :: IsEdge(second, a, b)
    ensures IsWalk(second, walk)
  {
    forall i | 0 <= i < |walk| - 1
      ensures IsStep(second, walk, i)
    {
      assert IsStep(first, walk, i);
    }
  }

  lemma {:induction false} SameCycles(first: Graph, second: Graph, root: string)
    requires forall a, b | IsEdge(first, a, b) :: IsEdge(second, a, b)
    requires HasCycleFrom(first, root)
    ensures HasCycleFrom(second, root)
  {
    var cycle :| IsCycle(first, cycle) && Reaches(first, root, cycle[0]);
    var walk :| IsWalkBetween(first, walk, root, cycle[0]);
    SameWalks(first, second, cycle);
    SameWalks(first, second, walk);
    assert IsCycle(second, cycle) && IsWalkBetween(second, walk, root, cycle[0]);
  }

  // ----- Every sequence of saves and disablings ---------------------------------------------

  /** The event passed the table checks against the catalog it is appended to. */
  ghost predicate Accepts(doctypes: seq<DocType>, legacy: seq<Event>, catalog: seq<Event>, e: Event) {
    e.Saved? ==> !HasCycleFrom(PendingGraph(doctypes, legacy, catalog, e.doctype, e.field), e.doctype)
  }

  ghost predicate IsCatalog(doctypes: seq<DocType>, legacy: seq<Event>, catalog: seq<Event>) {
    catalog == [] || (IsCatalog(doctypes, legacy, catalog[..|catalog| - 1])
                      && Accepts(doctypes, legacy, catalog[..|catalog| - 1], catalog[|catalog| - 1]))
  }

  lemma {:induction false} AcceptedKeepsAcyclic(doctypes: seq<DocType>, legacy: seq<Event>, catalog: seq<Event>, e: Event)
    requires IsAcyclic(CatalogGraph(doctypes, legacy, catalog)) && Accepts(doctypes, legacy, catalog, e)
    ensures IsAcyclic(CatalogGraph(doctypes, legacy, catalog + [e]))
  {
    hide CatalogGraph, PendingGraph, IsEdge, IsAcyclic, HasCycleFrom;
    var before, after := CatalogGraph(doctypes, legacy, catalog), CatalogGraph(doctypes, legacy, catalog + [e]);
    if e.Saved? {
      var pending := PendingGraph(doctypes, legacy, catalog, e.doctype, e.field);
      forall a, b ensures IsEdge(pending, a, b) <==> IsEdge(after, a, b) {
        PendingIsNext(doctypes, legacy, catalog, e.doctype, e.field, a, b);
      }
      forall a, b | IsEdge(after, a, b) && a != e.doctype ensures IsEdge(before, a, b) {
        EdgesElsewhereStay(doctypes, legacy, catalog, e, a, b);
      }
      if HasCycleFrom(after, e.doctype) {
        SameCycles(after, pending, e.doctype);
      }
      OneRootIsEnough(before, after, e.doctype);
    } else {
      forall a, b | IsEdge(after, a, b) ensures IsEdge(before, a, b) {
        EdgesElsewhereStay(doctypes, legacy, catalog, e, a, b);
      }
      FewerEdges(before, after);
    }
  }

  lemma {:induction false} FewerEdges(before: Graph, after: Graph)
    requires IsAcyclic(before)
    requires forall a, b | IsEdge(after, a, b) :: IsEdge(before, a, b)
    ensures IsAcyclic(after)
  {
    forall walk ensures !IsCycle(after, walk) {
      assert !IsCycle(before, walk);
      if IsCycle(after, walk) {
        SameWalks(after, before, walk);
      }
    }
  }

  /** A tenant whose table graph starts without cycles never gets one, although each save looks only from its own DocType. */
  lemma {:induction false} CatalogStaysAcyclic(doctypes: seq<DocType>, legacy: seq<Event>, catalog: seq<Event>)
    requires IsAcyclic(CatalogGraph(doctypes, legacy, [])) && IsCatalog(doctypes, legacy, catalog)
    ensures IsAcyclic(CatalogGraph(doctypes, legacy, catalog))
    decreases |catalog|
  {
    if catalog != [] {
      var n := |catalog| - 1;
      assert catalog == catalog[..n] + [catalog[n]];
      CatalogStaysAcyclic(doctypes, legacy, catalog[..n]);
      AcceptedKeepsAcyclic(doctypes, legacy, catalog[..n], catalog[n]);
    }
  }
}
