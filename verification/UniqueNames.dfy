/**
Where uniqueness stops: documents whose name is the empty string.
*/
module UniqueNames {
  import opened Results
  import opened Documents
  import opened UniqueValues
  import opened UniqueProtocol

  /** A document of this name never shares the value of a unique field with another named document. */
  ghost predicate NeverShares(name: string) {
    forall fields: seq<string>, run: Run, n: nat, other: string, field: string, key: string ::
      && IsRun(fields, run) && n < |run|
      && Holds(fields, run[n], name, field, key) && Holds(fields, run[n], other, field, key)
      ==> other == name || other == ""
  }

  /**
  Uniqueness is kept for exactly the documents with a name: the reservation of a nameless document
  records an owner that reading the reservation takes for none.
  */
  lemma {:induction false} NeverSharesIffNamed(name: string)
    ensures NeverShares(name) <==> name != ""
  {
    hide IsRun, Holds;
    if name != "" {
      forall fields: seq<string>, run: Run, n: nat, other: string, field: string, key: string |
        && IsRun(fields, run) && n < |run|
        && Holds(fields, run[n], name, field, key) && Holds(fields, run[n], other, field, key)
        ensures other == name || other == ""
      {
        UniqueAmongNamed(fields, run, n, name, other, field, key);
      }
    } else {
      NamelessDocumentShares();
      assert NAMELESS_RUN[2] == SECOND;
    }
  }

  const FIELDS := ["email"]
  const DATA: Data := map["email" := Str("x")]
  const SLOT := UniqueValueStream("email", "s:x")
  const NAMELESS := Reservation("email", "s:x", "")
  const NAMED := Reservation("email", "s:x", "b")
  const CREATED := Created(DATA, IsDraft)
  const STARTED := ReservedPayload(NAMELESS, None)

  const FIRST: Store := map[SLOT := [STARTED], DocumentStream("") := [CREATED]]
  const SECOND: Store := FIRST[SLOT := [STARTED] + [ReservedPayload(NAMED, Fold([STARTED]))]][DocumentStream("b") := [CREATED]]

  /** A nameless document is created, then another one with the same value. */
  const NAMELESS_RUN: Run := [map[], FIRST, SECOND]

  function CreationPlan(r: Reservation, readAt: nat, existing: Option<Snapshot>): Plan {
    Plan(r.documentName, readAt, None, CREATED, [SlotWrite(r, existing)], [])
  }

  lemma {:induction false} CreationEntries(r: Reservation, readAt: nat, existing: Option<Snapshot>, store: Store)
    ensures AtomicCommitEntries(CreationPlan(r, readAt, existing))
         == [ReserveEntry(SlotWrite(r, existing)), Entry(DocumentStream(r.documentName), 0, [CREATED])]
    ensures AppendEach(store, AtomicCommitEntries(CreationPlan(r, readAt, existing)))
         == store[r.Stream() := EventsOf(store, r.Stream()) + [ReservedPayload(r, existing)]]
                 [DocumentStream(r.documentName) := EventsOf(store, DocumentStream(r.documentName)) + [CREATED]]
  {
    var plan := CreationPlan(r, readAt, existing);
    var entries := AtomicCommitEntries(plan);
    assert entries == [ReserveEntry(plan.reserve[0]), DocumentEntry(plan)];
    assert entries[..1] == [entries[0]] && entries[..1][..0] == [];
    assert AppendEach(store, entries[..1]) == store[r.Stream() := EventsOf(store, r.Stream()) + [ReservedPayload(r, existing)]];
  }

  lemma {:induction false} CreationReservations(name: string)
    ensures Reservations(FIELDS, DATA, name) == Ok([Reservation("email", "s:x", name)])
  {
    assert FIELDS[..0] == [];
    assert CanonicalKey(Str("x")) == Ok(Some("s:" + "x")) && "s:" + "x" == "s:x";
    assert Reservations(FIELDS[..0], DATA, name) == Ok([]);
    assert [] + [Reservation("email", "s:x", name)] == [Reservation("email", "s:x", name)];
  }

  /** Creating the document commits, if its name is unused and the reservation's stream names no owner. */
  lemma {:induction false} CreationCommits(run: Run, r: Reservation, next: Store)
    requires run != [] && r.Stream() == SLOT
    requires EventsOf(run[|run| - 1], DocumentStream(r.documentName)) == []
    requires OpensWithCreation(EventsOf(run[|run| - 1], SLOT)) && Owner(run[|run| - 1], r.field, r.key) == None
    requires var existing := FoldOf(run[|run| - 1], SLOT);
      next == run[|run| - 1][SLOT := EventsOf(run[|run| - 1], SLOT) + [ReservedPayload(r, existing)]]
                           [DocumentStream(r.documentName) := [CREATED]]
    ensures Commits(FIELDS, run, CreationPlan(r, |run| - 1, FoldOf(run[|run| - 1], SLOT)), next)
  {
    var last := |run| - 1;
    var existing := FoldOf(run[last], SLOT);
    var plan := CreationPlan(r, last, existing);
    CreationReservations(r.documentName);
    CreationEntries(r, last, existing, run[last]);
    FoldVersion(EventsOf(run[last], SLOT));
    assert [] + [CREATED] == [CREATED];
    assert NextReservations(FIELDS, None, CREATED, r.documentName) == Ok([r]);
    assert ReadInOrder(run, last, last, last) && DecisionAt(run[last], run[last], r) == Ok(Decision.Write(existing));
    assert Writes(plan.reserve, r) by {
      assert SlotWrite(r, existing) in plan.reserve;
    }
    assert Released([], [r]) == [];
  }

  lemma {:induction false} CreationStep(run: Run, n: nat, r: Reservation)
    requires 0 < n < |run| && r.Stream() == SLOT
    requires EventsOf(run[n - 1], DocumentStream(r.documentName)) == []
    requires OpensWithCreation(EventsOf(run[n - 1], SLOT)) && Owner(run[n - 1], r.field, r.key) == None
    requires run[n] == run[n - 1][SLOT := EventsOf(run[n - 1], SLOT) + [ReservedPayload(r, FoldOf(run[n - 1], SLOT))]]
                                 [DocumentStream(r.documentName) := [CREATED]]
    ensures StepAt(FIELDS, run, n)
  {
    CreationCommits(run[..n], r, run[n]);
  }

  lemma {:induction false} NamelessDocumentShares()
    ensures IsRun(FIELDS, NAMELESS_RUN)
    ensures Holds(FIELDS, SECOND, "", "email", "s:x")
    ensures Holds(FIELDS, SECOND, "b", "email", "s:x")
  {
    hide StepAt;
    assert [] + [STARTED] == [STARTED];
    ReservedOwner(NAMELESS, []);
    assert Owner(map[], "email", "s:x") == None;
    CreationStep(NAMELESS_RUN, 1, NAMELESS);
    CreationStep(NAMELESS_RUN, 2, NAMED);
    CreatedHolds(SECOND, "");
    CreatedHolds(SECOND, "b");
  }

  lemma {:induction false} CreatedHolds(store: Store, name: string)
    requires EventsOf(store, DocumentStream(name)) == [CREATED]
    ensures Holds(FIELDS, store, name, "email", "s:x")
  {
    FoldSnoc([], CREATED);
    assert [] + [CREATED] == [CREATED];
    assert CanonicalKey(Str("x")) == Ok(Some("s:" + "x")) && "s:" + "x" == "s:x";
  }
}
