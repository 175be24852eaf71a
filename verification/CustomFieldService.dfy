/**
The service that saves and disables custom fields. Each command reads the catalog, checks, and
appends under the version it read, while other commands may append in between.
*/
module CustomFieldService {
  import opened Results
  import opened Graphs
  import opened TableGraphSearch
  import opened CustomFields

  /** A save that was let through leaves no cycle to be reached from its DocType. */
  lemma {:induction false} PendingHasNoNewCycle(doctypes: seq<DocType>, legacy: seq<Event>, catalog: seq<Event>, doctype: string,
                                                field: Field)
    requires !HasCycleFrom(PendingGraph(doctypes, legacy, catalog, doctype, field), doctype)
    ensures !HasCycleFrom(CatalogGraph(doctypes, legacy, catalog + [Saved(doctype, field)]), doctype)
  {
    hide PendingGraph, CatalogGraph, IsEdge, HasCycleFrom;
    var pending := PendingGraph(doctypes, legacy, catalog, doctype, field);
    var after := CatalogGraph(doctypes, legacy, catalog + [Saved(doctype, field)]);
    forall a, b ensures IsEdge(pending, a, b) <==> IsEdge(after, a, b) {
      PendingIsNext(doctypes, legacy, catalog, doctype, field, a, b);
    }
    if HasCycleFrom(after, doctype) {
      SameCycles(after, pending, doctype);
    }
  }

  /** Saving what is saved already changes nothing, so the check was made on the catalog's own graph. */
  lemma {:induction false} SavedAlready(doctypes: seq<DocType>, legacy: seq<Event>, catalog: seq<Event>, doctype: string,
                                        field: Field, at: nat)
    requires var fields := Fold(doctype, legacy + catalog);
      Find(fields, field.name) == Some(at) && at < |fields| && fields[at] == Entry(field, true)
    requires !HasCycleFrom(PendingGraph(doctypes, legacy, catalog, doctype, field), doctype)
    ensures !HasCycleFrom(CatalogGraph(doctypes, legacy, catalog), doctype)
  {
    PendingHasNoNewCycle(doctypes, legacy, catalog, doctype, field);
    var e := Saved(doctype, field);
    var fields := Fold(doctype, legacy + catalog);
    assert Apply(doctype, fields, e) == fields;
    hide PendingGraph, CatalogGraph, IsEdge, HasCycleFrom, Fold, HasTable, Apply, IsRegistered, HasBaseEdge;
    var before, after := CatalogGraph(doctypes, legacy, catalog), CatalogGraph(doctypes, legacy, catalog + [e]);
    forall a, b ensures IsEdge(before, a, b) <==> IsEdge(after, a, b) {
      CatalogEdge(doctypes, legacy, catalog, a, b);
      CatalogEdge(doctypes, legacy, catalog + [e], a, b);
      FoldSnoc(a, legacy, catalog, e);
      if a != doctype {
        ApplyToOther(a, Fold(a, legacy + catalog), e);
      }
    }
    if HasCycleFrom(before, doctype) {
      SameCycles(before, after, doctype);
    }
  }

  lemma {:induction false} SavedIsThere(doctype: string, fields: seq<Entry>, field: Field)
    ensures Entry(field, true) in Apply(doctype, fields, Saved(doctype, field))
  {
    FindFinds(fields, field.name);
    var at := Find(fields, field.name);
    assert Apply(doctype, fields, Saved(doctype, field))[if at.Some? then at.value else |fields|] == Entry(field, true);
  }

  lemma {:induction false} FindUpdated(fields: seq<Entry>, name: string, at: nat, e: Entry)
    requires Find(fields, name) == Some(at) && at < |fields| && e.field.name == name
    ensures Find(fields[at := e], name) == Some(at)
  {
    if at > 0 {
      FindUpdated(fields[1..], name, at - 1, e);
      assert fields[at := e][1..] == fields[1..][at - 1 := e];
    }
  }

  predicate IsDisabledAt(fields: seq<Entry>, name: string, at: nat) {
    at < |fields| && Find(fields, name) == Some(at) && !fields[at].enabled
  }

  lemma {:induction false} FindAfterDisable(doctype: string, fields: seq<Entry>, name: string, at: nat)
    requires Find(fields, name) == Some(at)
    ensures IsDisabledAt(Apply(doctype, fields, Disabled(doctype, name)), name, at)
  {
    FindFinds(fields, name);
    FindUpdated(fields, name, at, Entry(fields[at].field, false));
  }

  lemma DisabledAlready(fields: seq<Entry>, name: string, at: nat)
    requires Find(fields, name) == Some(at) && at < |fields| && !fields[at].enabled
    ensures IsDisabledAt(fields, name, at)
  {
  }

  function Registered(doctypes: seq<DocType>, name: string): Option<DocType> {
    if doctypes == [] then None
    else if doctypes[0].name == name then Some(doctypes[0])
    else Registered(doctypes[1..], name)
  }

  predicate DeclaresField(doctype: DocType, name: string) {
    exists f | f in doctype.fields :: f.name == name
  }

  class CustomFieldService {
    const registry: seq<DocType>
    const legacy: seq<Event>
    /** Whether nobody else appends. */
    ghost const quiet: bool
    var catalog: seq<Event>

    /** Every event of the catalog was accepted against the catalog before it. */
    ghost predicate Valid()
      reads this
    {
      IsCatalog(registry, legacy, catalog)
    }

    constructor (registry: seq<DocType>, legacy: seq<Event>, ghost quiet: bool)
      ensures Valid() && this.registry == registry && this.legacy == legacy && this.quiet == quiet && catalog == []
    {
      this.quiet := quiet;
      this.registry := registry;
      this.legacy := legacy;
      catalog := [];
    }

    /** Other commands may append to the catalog here. */
    method Interfere()
      requires Valid()
      modifies this
      ensures Valid() && old(catalog) <= catalog && (quiet ==> catalog == old(catalog))
    {
    }

    static method FindDocType(doctypes: seq<DocType>, name: string) returns (doctype: Option<DocType>)
      ensures doctype == Registered(doctypes, name)
      ensures doctype.Some? <==> IsRegistered(doctypes, name)
      ensures doctype.Some? ==> doctype.value in doctypes && doctype.value.name == name
    {
      var i := 0;
      while i < |doctypes|
        invariant 0 <= i <= |doctypes|
        invariant forall j | 0 <= j < i :: doctypes[j].name != name
        invariant Registered(doctypes[i..], name) == Registered(doctypes, name)
      {
        assert doctypes[i..][1..] == doctypes[i + 1..];
        if doctypes[i].name == name {
          return Some(doctypes[i]);
        }
        i := i + 1;
      }
      doctype := None;
    }

    /** The link or table target of a field is a registered DocType, and a table's is not the DocType itself. */
    predicate ReferencesResolve(doctype: string, field: Field) {
      match field.fieldType
      case Link(target) => IsRegistered(registry, target)
      case Table(target) => IsRegistered(registry, target) && target != doctype
      case Plain => true
    }

    /** What a save checks, in the catalog as it is read. */
    ghost predicate MaySave(events: seq<Event>, doctypeName: string, field: Field, expectedVersion: Option<nat>, valid: bool) {
      && valid && Registered(registry, doctypeName).Some?
      && !DeclaresField(Registered(registry, doctypeName).value, field.name)
      && ReferencesResolve(doctypeName, field)
      && !HasCycleFrom(PendingGraph(registry, legacy, events, doctypeName, field), doctypeName)
      && (expectedVersion.None? || expectedVersion.value == |events|)
    }

    method AppendAt(expectedVersion: nat, e: Event) returns (ok: bool)
      requires Valid()
      requires |catalog| == expectedVersion ==> Accepts(registry, legacy, catalog, e)
      modifies this
      ensures Valid()
      ensures ok <==> |old(catalog)| == expectedVersion
      ensures catalog == if ok then old(catalog) + [e] else old(catalog)
    {
      ok := |catalog| == expectedVersion;
      if ok {
        assert (catalog + [e])[..|catalog|] == catalog;
        catalog := catalog + [e];
      }
    }

    /**
    Saves a field unless the table graph would then have a cycle reachable from its DocType;
    `valid` stands for the checks on the field alone.
    */
    method SaveField(doctypeName: string, field: Field, expectedVersion: Option<nat>, valid: bool)
      returns (r: Result<seq<Entry>>)
      requires Valid()
      modifies this
      ensures Valid() && old(catalog) <= catalog
      ensures r.Ok? ==> !HasCycleFrom(CatalogGraph(registry, legacy, catalog), doctypeName)
      ensures r.Ok? ==> r.value == Fold(doctypeName, legacy + catalog)
      ensures r.Ok? ==> Entry(field, true) in r.value
      ensures r.Err? && r.error == NotFound ==> !IsRegistered(registry, doctypeName)
      ensures quiet ==> (r.Ok? <==> MaySave(old(catalog), doctypeName, field, expectedVersion, valid))
      ensures quiet && r.Err? ==> catalog == old(catalog)
    {
      hide TableGraph, HasCycleFrom, Fold, Find, IsCatalog, Apply, Pending, CatalogGraph, StatesOf;
      var doctype := FindDocType(registry, doctypeName);
      if doctype.None? {
        return Err(NotFound);
      }
      Interfere();
      var events := catalog;
      var fields := Fold(doctypeName, legacy + events);
      if !valid || DeclaresField(doctype.value, field.name) || !ReferencesResolve(doctypeName, field) {
        return Err(Invalid);
      }
      var graph := BuildTableGraph(registry, Pending(StatesOf(registry, legacy, events), doctypeName, field));
      var search := new Search(graph, doctypeName);
      var cycle := search.Check();
      if cycle.Some? {
        return Err(Invalid);
      }
      if expectedVersion.Some? && expectedVersion.value != |events| {
        return Err(Conflict);
      }
      FindFinds(fields, field.name);
      var at := Find(fields, field.name);
      if at.Some? && fields[at.value] == Entry(field, true) {
        SavedAlready(registry, legacy, events, doctypeName, field, at.value);
        return Ok(fields);
      }
      Interfere();
      assert |catalog| == |events| ==> catalog == events;
      var e := Saved(doctypeName, field);
      var ok := AppendAt(|events|, e);
      if !ok {
        return Err(Conflict);
      }
      PendingHasNoNewCycle(registry, legacy, events, doctypeName, field);
      FoldSnoc(doctypeName, legacy, events, e);
      SavedIsThere(doctypeName, fields, field);
      r := Ok(Apply(doctypeName, fields, e));
    }

    /** Disables a field; it must exist. */
    method DisableField(doctypeName: string, fieldName: string, expectedVersion: Option<nat>) returns (r: Result<seq<Entry>>)
      requires Valid()
      modifies this
      ensures Valid() && old(catalog) <= catalog
      ensures r.Ok? ==> r.value == Fold(doctypeName, legacy + catalog)
      ensures r.Ok? ==> exists at :: IsDisabledAt(r.value, fieldName, at)
      ensures quiet ==> (r.Ok? <==>
                && Registered(registry, doctypeName).Some? && Find(Fold(doctypeName, legacy + old(catalog)), fieldName).Some?
                && (expectedVersion.None? || expectedVersion.value == |old(catalog)|))
      ensures quiet && r.Err? ==> catalog == old(catalog)
    {
      hide Fold, Find, IsCatalog, Apply, IsDisabledAt;
      var doctype := FindDocType(registry, doctypeName);
      if doctype.None? {
        return Err(NotFound);
      }
      Interfere();
      var events := catalog;
      var fields := Fold(doctypeName, legacy + events);
      FindFinds(fields, fieldName);
      var at := Find(fields, fieldName);
      if expectedVersion.Some? && expectedVersion.value != |events| {
        return Err(Conflict);
      }
      if at.None? {
        return Err(NotFound);
      }
      if !fields[at.value].enabled {
        DisabledAlready(fields, fieldName, at.value);
        return Ok(fields);
      }
      Interfere();
      assert |catalog| == |events| ==> catalog == events;
      var e := Disabled(doctypeName, fieldName);
      var ok := AppendAt(|events|, e);
      if !ok {
        return Err(Conflict);
      }
      FoldSnoc(doctypeName, legacy, events, e);
      FindAfterDisable(doctypeName, fields, fieldName, at.value);
      r := Ok(Apply(doctypeName, fields, e));
    }

    /** The DocType with its custom fields; once the tenant started without cycles, the cycle check never fails. */
    method EffectiveDocType(doctypeName: string) returns (r: Result<seq<Entry>>)
      requires Valid()
      ensures r.Ok? ==> r.value == Fold(doctypeName, legacy + catalog)
      ensures r.Ok? ==> !HasCycleFrom(CatalogGraph(registry, legacy, catalog), doctypeName)
      ensures IsRegistered(registry, doctypeName) && IsAcyclic(CatalogGraph(registry, legacy, []))
              && (forall e | e in Fold(doctypeName, legacy + catalog) && e.enabled :: ReferencesResolve(doctypeName, e.field))
              ==> r.Ok?
    {
      var doctype := FindDocType(registry, doctypeName);
      if doctype.None? {
        return Err(NotFound);
      }
      var fields := Fold(doctypeName, legacy + catalog);
      var i := 0;
      while i < |fields|
        invariant 0 <= i <= |fields|
      {
        if fields[i].enabled && !ReferencesResolve(doctypeName, fields[i].field) {
          return Err(Invalid);
        }
        i := i + 1;
      }
      var graph := BuildTableGraph(registry, StatesOf(registry, legacy, catalog));
      var search := new Search(graph, doctypeName);
      var cycle := search.Check();
      if IsAcyclic(CatalogGraph(registry, legacy, [])) {
        CatalogStaysAcyclic(registry, legacy, catalog);
      }
      if cycle.Some? {
        return Err(Invalid);
      }
      r := Ok(fields);
    }
  }
}
