/**
The document service as far as unique values go: commands read and commit to the store step by
step, with other commands committing in between.
*/
module DocumentService {
  import opened Results
  import opened Documents
  import opened UniqueValues
  import opened UniqueProtocol

  // ----- What was decided stays decided as the run goes on ------------------------------

  lemma {:induction false} DecidedLater(run: Run, later: Run, from: nat, r: Reservation, decision: Decision)
    requires run <= later
    ensures ReserveDecided(run, from, r, decision) ==> ReserveDecided(later, from, r, decision)
    ensures ReleaseDecided(run, from, r, decision) ==> ReleaseDecided(later, from, r, decision)
  {
    if ReserveDecided(run, from, r, decision) {
      var slotAt: nat, ownerAt: nat :| ReadInOrder(run, from, slotAt, ownerAt)
                                    && DecisionAt(run[slotAt], run[ownerAt], r) == Ok(decision);
      assert ReadInOrder(later, from, slotAt, ownerAt) && DecisionAt(later[slotAt], later[ownerAt], r) == Ok(decision);
    }
    if ReleaseDecided(run, from, r, decision) {
      var slotAt: nat :| ReadInOrder(run, from, slotAt, slotAt)
                      && ReleaseDecision(r, FoldOf(run[slotAt], r.Stream())) == decision;
      assert ReadInOrder(later, from, slotAt, slotAt) && ReleaseDecision(r, FoldOf(later[slotAt], r.Stream())) == decision;
    }
  }

  lemma {:induction false} PlannedLater(run: Run, later: Run, from: nat, reservations: seq<Reservation>, writes: seq<SlotWrite>)
    requires run <= later
    ensures ReservesPlanned(run, from, reservations, writes) ==> ReservesPlanned(later, from, reservations, writes)
    ensures ReleasesPlanned(run, from, reservations, writes) ==> ReleasesPlanned(later, from, reservations, writes)
  {
    hide ReserveDecided, ReleaseDecided;
    forall r, decision {
      DecidedLater(run, later, from, r, decision);
    }
  }

  lemma {:induction false} WritesSnoc(writes: seq<SlotWrite>, w: SlotWrite, r: Reservation)
    ensures Writes(writes + [w], r) <==> Writes(writes, r) || w.reservation == r
  {
    if Writes(writes, r) {
      var v :| v in writes && v.reservation == r;
      assert v in writes + [w];
    }
    if w.reservation == r {
      assert w in writes + [w];
    }
  }

  function Added(writes: seq<SlotWrite>, r: Reservation, decision: Decision): seq<SlotWrite> {
    if decision.Write? then writes + [SlotWrite(r, decision.existing)] else writes
  }

  lemma {:induction false} ReservesPlannedSnoc(run: Run, from: nat, reservations: seq<Reservation>, writes: seq<SlotWrite>,
                                               r: Reservation, decision: Decision)
    requires ReservesPlanned(run, from, reservations, writes)
    requires DistinctReservations(reservations + [r])
    requires ReserveDecided(run, from, r, decision) && !decision.ConflictFound?
    ensures ReservesPlanned(run, from, reservations + [r], Added(writes, r, decision))
  {
    hide ReserveDecided;
    assert (reservations + [r])[|reservations|] == r;
    assert forall i | 0 <= i < |reservations| :: (reservations + [r])[i] == reservations[i];
    assert forall q | q in reservations :: q.field != r.field;
    if decision.Write? {
      forall q { WritesSnoc(writes, SlotWrite(r, decision.existing), q); }
    }
  }

  lemma {:induction false} ReleasesPlannedSnoc(run: Run, from: nat, reservations: seq<Reservation>, writes: seq<SlotWrite>,
                                               r: Reservation, decision: Decision)
    requires ReleasesPlanned(run, from, reservations, writes)
    requires DistinctReservations(reservations + [r])
    requires ReleaseDecided(run, from, r, decision) && !decision.ConflictFound?
    ensures ReleasesPlanned(run, from, reservations + [r], Added(writes, r, decision))
  {
    hide ReleaseDecided;
    assert (reservations + [r])[|reservations|] == r;
    assert forall i | 0 <= i < |reservations| :: (reservations + [r])[i] == reservations[i];
    assert forall q | q in reservations :: q.field != r.field;
    if decision.Write? {
      forall q { WritesSnoc(writes, SlotWrite(r, decision.existing), q); }
    }
  }

  lemma {:induction false} RunSnoc(fields: seq<string>, run: Run, plan: Plan, next: Store)
    requires IsRun(fields, run) && Commits(fields, run, plan, next)
    ensures IsRun(fields, run + [next])
  {
    hide Commits;
    var longer := run + [next];
    forall n | 0 < n < |longer|
      ensures StepAt(fields, longer, n)
    {
      if n < |run| {
        assert StepAt(fields, run, n);
        assert longer[..n] == run[..n] && longer[n] == run[n];
      } else {
        assert longer[..n] == run;
        assert Commits(fields, longer[..n], plan, longer[n]);
      }
    }
  }

  lemma {:induction false} DistinctPrefix(reservations: seq<Reservation>, i: nat)
    requires DistinctReservations(reservations) && i < |reservations|
    ensures reservations[..i + 1] == reservations[..i] + [reservations[i]]
    ensures DistinctReservations(reservations[..i] + [reservations[i]])
  {
    var prefix := reservations[..i] + [reservations[i]];
    assert reservations[..i + 1] == prefix;
    forall j, k | 0 <= j < k < |prefix|
      ensures prefix[j].field != prefix[k].field
    {
      assert prefix[j] == reservations[j] && prefix[k] == reservations[k];
    }
  }

  lemma {:induction false} ChangeReservations(fields: seq<string>, existing: Option<Snapshot>, payload: Payload, name: string,
                                              next: seq<Reservation>, previous: seq<Reservation>)
    requires Distinct(fields) && Allowed(existing, payload)
    requires payload.Updated? || payload.WorkflowTransitioned? || payload.CommandApplied?
    requires Reservations(fields, Apply(existing, payload, 0).value.data, name) == Ok(next)
    requires Reservations(fields, existing.value.data, name) == Ok(previous)
    ensures NextReservations(fields, existing, payload, name) == Ok(next) && DistinctReservations(next)
    ensures PreviousReservations(fields, existing, payload, name) == Ok(previous)
    ensures DistinctReservations(Released(previous, next))
  {
    ReservationsAreHeldKeys(fields, Apply(existing, payload, 0).value.data, name);
    ReservationsAreHeldKeys(fields, existing.value.data, name);
    ReleasedIsDifference(previous, next);
  }

  lemma {:induction false} PlannedReads(fields: seq<string>, run: Run, plan: Plan)
    requires Planned(fields, run, plan)
    ensures plan.readAt < |run|
  {
  }

  lemma {:induction false} DistinctFields(fields: seq<string>, run: Run)
    requires IsRun(fields, run)
    ensures Distinct(fields)
  {
  }

  lemma {:induction false} VersionRead(fields: seq<string>, run: Run, readAt: nat, name: string)
    requires IsRun(fields, run) && readAt < |run|
    ensures var events := EventsOf(run[readAt], DocumentStream(name));
      Fold(events).Some? ==> Fold(events).value.version == |events|
  {
    ReachableIsConsistent(fields, run, readAt);
    FoldVersion(EventsOf(run[readAt], DocumentStream(name)));
  }

  // ----- Commands nobody interferes with ------------------------------------------------------

  /** The reservation is decided without a conflict when its stream and its owner are read in the same state. */
  predicate IsFree(store: Store, r: Reservation) {
    var decision := DecisionAt(store, store, r);
    decision.Ok? && !decision.value.ConflictFound?
  }

  ghost predicate NobodyElseHolds(fields: seq<string>, store: Store, name: string, field: string, key: string) {
    forall other: string | other != name && other != "" :: !Holds(fields, store, other, field, key)
  }

  /** A reservation is free exactly when no other named live document holds the value. */
  lemma {:induction false} FreeIffUnheld(fields: seq<string>, run: Run, r: Reservation)
    requires IsRun(fields, run) && r.field in fields
    ensures IsFree(run[|run| - 1], r) <==> NobodyElseHolds(fields, run[|run| - 1], r.documentName, r.field, r.key)
  {
    var last := run[|run| - 1];
    hide IsRun, WellFormed, FoldFrom, CanonicalKey;
    ReachableIsConsistent(fields, run, |run| - 1);
    var owner := Owner(last, r.field, r.key);
    if owner.Some? {
      assert OwnerIsHolder(fields, last, owner.value, r.field, r.key);
    }
    forall other: string | other != "" && owner != Some(other)
      ensures !Holds(fields, last, other, r.field, r.key)
    {
      assert OwnerIsHolder(fields, last, other, r.field, r.key);
    }
  }

  /** The document allows the event, and its data before and after make valid reservations that nobody else holds. */
  ghost predicate AcceptsChange(fields: seq<string>, store: Store, name: string, payload: Payload) {
    var before := FoldOf(store, DocumentStream(name));
    && Allowed(before, payload) && before.Some? && Apply(before, payload, 0).Some?
    && Reservations(fields, before.value.data, name).Ok?
    && IsUnheld(fields, store, Apply(before, payload, 0).value.data, name)
  }

  lemma {:induction false} AllFreeIffUnheld(fields: seq<string>, run: Run, data: Data, name: string)
    requires IsRun(fields, run) && Reservations(fields, data, name).Ok?
    ensures (forall q | q in Reservations(fields, data, name).value :: IsFree(run[|run| - 1], q))
       <==> IsUnheld(fields, run[|run| - 1], data, name)
  {
    assert run != [];
    hide IsRun, IsFree, NobodyElseHolds, Reservations, CanonicalKey;
    DistinctFields(fields, run);
    ReservationsAreHeldKeys(fields, data, name);
    forall q | q in Reservations(fields, data, name).value
      ensures IsFree(run[|run| - 1], q) <==> NobodyElseHolds(fields, run[|run| - 1], name, q.field, q.key)
    {
      FreeIffUnheld(fields, run, q);
    }
  }

  /** Every unique value of the data is scalar and short enough, and held by no other named document. */
  ghost predicate IsUnheld(fields: seq<string>, store: Store, data: Data, name: string) {
    var reservations := Reservations(fields, data, name);
    reservations.Ok? && forall q | q in reservations.value :: NobodyElseHolds(fields, store, name, q.field, q.key)
  }

  /** A plan made from the newest state finds every version as expected, unless it creates a document that was there before. */
  lemma {:induction false} NewestPlanMatches(fields: seq<string>, run: Run, plan: Plan)
    requires IsRun(fields, run) && Planned(fields, run, plan) && plan.readAt == |run| - 1
    ensures VersionsMatch(run[|run| - 1], AtomicCommitEntries(plan))
       <==> (plan.payload.Created? ==> EventsOf(run[|run| - 1], DocumentStream(plan.name)) == [])
  {
    var last := run[|run| - 1];
    assert run != [];
    assert ReservesPlanned(run, plan.readAt, NextReservations(fields, plan.existing, plan.payload, plan.name).value, plan.reserve);
    hide IsRun, FoldFrom, OwnersAreHolders, NextReservations, PreviousReservations, Released, Allowed, AtomicCommitEntries,
      LookupOwner, ReservationDecision;
    ReachableIsConsistent(fields, run, |run| - 1);
    EntriesOf(plan);
    FoldVersion(EventsOf(last, DocumentStream(plan.name)));
    forall e | e in AtomicCommitEntries(plan) && e != DocumentEntry(plan)
      ensures |EventsOf(last, e.stream)| == e.expectedVersion
    {
      EntryIsPlanned(plan, e);
      FoldVersion(EventsOf(last, e.stream));
      NewestSlots(run, plan);
    }
    assert VersionsMatch(last, AtomicCommitEntries(plan)) ==>
        |EventsOf(last, DocumentStream(plan.name))| == DocumentEntry(plan).expectedVersion;
  }

  lemma {:induction false} NewestSlots(run: Run, plan: Plan)
    requires run != [] && plan.readAt == |run| - 1
    requires forall w | w in plan.reserve :: ReserveDecided(run, plan.readAt, w.reservation, Decision.Write(w.existing))
    requires forall w | w in plan.release :: ReleaseDecided(run, plan.readAt, w.reservation, Decision.Write(w.existing))
    ensures forall w | w in plan.reserve || w in plan.release :: w.existing == FoldOf(run[|run| - 1], w.reservation.Stream())
  {
  }

  lemma LiveIsUsed(store: Store, name: string)
    ensures IsLive(FoldOf(store, DocumentStream(name))) ==> EventsOf(store, DocumentStream(name)) != []
  {
  }

  class DocumentService {
    const fields: seq<string>
    /** Whether nobody else commits. */
    ghost const quiet: bool
    var store: Store
    /** Every state of the store so far, whoever committed it. */
    ghost var history: Run

    ghost predicate Valid()
      reads this
    {
      IsRun(fields, history) && store == history[|history| - 1]
    }

    constructor (fields: seq<string>, ghost quiet: bool)
      requires Distinct(fields)
      ensures Valid() && this.fields == fields && this.quiet == quiet && history == [map[]]
    {
      this.fields := fields;
      this.quiet := quiet;
      store := map[];
      history := [map[]];
    }

    /** Other commands may commit here, any number of them. */
    method Interfere()
      requires Valid()
      modifies this
      ensures Valid() && old(history) <= history
      ensures quiet ==> history == old(history) && store == old(store)
    {
    }

    method ReadStream(stream: Stream) returns (events: seq<Payload>)
      requires Valid()
      ensures events == EventsOf(history[|history| - 1], stream)
    {
      events := if stream in store then store[stream] else [];
    }

    static method AtExpectedVersions(store: Store, entries: seq<Entry>) returns (ok: bool)
      ensures ok <==> VersionsMatch(store, entries)
    {
      var i := 0;
      while i < |entries|
        invariant 0 <= i <= |entries|
        invariant forall j | 0 <= j < i :: |EventsOf(store, entries[j].stream)| == entries[j].expectedVersion
      {
        if |EventsOf(store, entries[i].stream)| != entries[i].expectedVersion {
          return false;
        }
        i := i + 1;
      }
      ok := true;
    }

    static method AppendEntries(store: Store, entries: seq<Entry>) returns (next: Store)
      ensures next == AppendEach(store, entries)
    {
      next := store;
      var i := 0;
      while i < |entries|
        invariant 0 <= i <= |entries|
        invariant next == AppendEach(store, entries[..i])
      {
        assert entries[..i + 1][..i] == entries[..i];
        next := next[entries[i].stream := EventsOf(next, entries[i].stream) + entries[i].events];
        i := i + 1;
      }
      assert entries[..i] == entries;
    }

    /** Checks every expected version, then appends every entry or nothing. */
    method CommitEntries(entries: seq<Entry>, ghost plan: Plan) returns (ok: bool)
      requires Valid() && Planned(fields, history, plan) && entries == AtomicCommitEntries(plan)
      modifies this
      ensures Valid()
      ensures ok <==> VersionsMatch(old(store), entries)
      ensures ok ==> Commits(fields, old(history), plan, store) && history == old(history) + [store]
      ensures !ok ==> history == old(history) && store == old(store)
    {
      hide IsRun, Planned, AtomicCommitEntries, AppendEach, VersionsMatch;
      ok := AtExpectedVersions(store, entries);
      if !ok {
        return;
      }
      var next := AppendEntries(store, entries);
      RunSnoc(fields, history, plan, next);
      store := next;
      history := history + [next];
    }

    /** Decides one reservation: reads its stream, and the owner the stream names. */
    method DecideReservation(r: Reservation, ghost from: nat) returns (decision: Result<Decision>)
      requires Valid() && from < |history|
      modifies this
      ensures Valid() && old(history) <= history
      ensures decision.Ok? ==> ReserveDecided(history, from, r, decision.value)
      ensures quiet ==> history == old(history) && store == old(store) && decision == DecisionAt(store, store, r)
    {
      hide FoldFrom, OwnerStillOwnsValue, ActiveOwner, StepAt, EventsOf;
      ghost var slotAt := |history| - 1;
      var events := ReadStream(r.Stream());
      var existing := FoldDocumentFrom(None, events, 0);
      var lookup := LookupOwner(r, existing);
      Interfere();
      ghost var ownerAt := |history| - 1;
      var owns := Ok(false);
      if lookup.ReadOwner? {
        events := ReadStream(DocumentStream(lookup.documentName));
        var owner := FoldDocumentFrom(None, events, 0);
        owns := OwnerStillOwnsValue(r, owner);
      }
      if owns.Err? {
        return Err(owns.error);
      }
      decision := Ok(ReservationDecision(r, existing, owns.value));
      assert ReadInOrder(history, from, slotAt, ownerAt)
          && DecisionAt(history[slotAt], history[ownerAt], r) == decision;
    }

    method PlanUniqueValueReservationWrites(reservations: seq<Reservation>, ghost from: nat)
      returns (r: Result<seq<SlotWrite>>)
      requires Valid() && from < |history| && DistinctReservations(reservations)
      modifies this
      ensures Valid() && old(history) <= history
      ensures r.Ok? ==> ReservesPlanned(history, from, reservations, r.value)
      ensures quiet ==> history == old(history) && store == old(store)
      ensures quiet ==> (r.Ok? <==> forall q | q in reservations :: IsFree(store, q))
    {
      var planned: seq<SlotWrite> := [];
      var i := 0;
      while i < |reservations|
        invariant 0 <= i <= |reservations|
        invariant Valid() && old(history) <= history
        invariant ReservesPlanned(history, from, reservations[..i], planned)
        invariant quiet ==> history == old(history) && store == old(store)
        invariant quiet ==> forall q | q in reservations[..i] :: IsFree(store, q)
      {
        ghost var before := history;
        Interfere();
        var decision := DecideReservation(reservations[i], from);
        assert reservations[i] in reservations;
        if decision.Err? {
          return Err(decision.error);
        }
        if decision.value.ConflictFound? {
          return Err(Conflict);
        }
        PlannedLater(before, history, from, reservations[..i], planned);
        DistinctPrefix(reservations, i);
        ReservesPlannedSnoc(history, from, reservations[..i], planned, reservations[i], decision.value);
        if decision.value.Write? {
          planned := planned + [SlotWrite(reservations[i], decision.value.existing)];
        }
        i := i + 1;
      }
      assert reservations[..i] == reservations;
      r := Ok(planned);
    }

    method PlanUniqueValueReleaseWrites(reservations: seq<Reservation>, ghost from: nat)
      returns (planned: seq<SlotWrite>)
      requires Valid() && from < |history| && DistinctReservations(reservations)
      modifies this
      ensures Valid() && old(history) <= history
      ensures ReleasesPlanned(history, from, reservations, planned)
      ensures quiet ==> history == old(history) && store == old(store)
    {
      planned := [];
      var i := 0;
      while i < |reservations|
        invariant 0 <= i <= |reservations|
        invariant Valid() && old(history) <= history
        invariant ReleasesPlanned(history, from, reservations[..i], planned)
        invariant quiet ==> history == old(history) && store == old(store)
      {
        ghost var before := history;
        Interfere();
        var events := ReadStream(reservations[i].Stream());
        var existing := FoldDocumentFrom(None, events, 0);
        var decision := ReleaseDecision(reservations[i], existing);
        assert ReadInOrder(history, from, |history| - 1, |history| - 1);
        PlannedLater(before, history, from, reservations[..i], planned);
        DistinctPrefix(reservations, i);
        ReleasesPlannedSnoc(history, from, reservations[..i], planned, reservations[i], decision);
        if decision.Write? {
          planned := planned + [SlotWrite(reservations[i], decision.existing)];
        }
        i := i + 1;
      }
      assert reservations[..i] == reservations;
    }

    /** Plans and commits the streams of one event, read at `readAt` as `existing`; the shared tail of every command. */
    method CommitDocumentEvent(name: string, existing: Option<Snapshot>, payload: Payload,
                               reservations: seq<Reservation>, releases: seq<Reservation>, ghost readAt: nat)
      returns (r: Result<Snapshot>)
      requires Valid() && readAt < |history|
      requires existing == FoldOf(history[readAt], DocumentStream(name)) && Allowed(existing, payload)
      requires NextReservations(fields, existing, payload, name) == Ok(reservations)
      requires PreviousReservations(fields, existing, payload, name).Ok?
      requires releases == Released(PreviousReservations(fields, existing, payload, name).value, reservations)
      requires DistinctReservations(reservations) && DistinctReservations(releases)
      modifies this
      ensures Valid() && old(history) <= history
      ensures r.Ok? ==> var read := EventsOf(old(history)[readAt], DocumentStream(name));
        && EventsOf(store, DocumentStream(name)) == read + [payload]
        && FoldOf(store, DocumentStream(name)) == Some(r.value) == Apply(existing, payload, |read| + 1)
        && (payload.Created? ==> read == [])
      ensures Consistent(fields, store)
      ensures quiet && readAt == |old(history)| - 1 ==>
                (r.Ok? <==> (payload.Created? ==> EventsOf(old(store), DocumentStream(name)) == [])
                            && forall q | q in reservations :: IsFree(old(store), q))
      ensures quiet && r.Err? ==> store == old(store)
    {
      hide IsRun, ReservesPlanned, ReleasesPlanned, Commits, FoldFrom, Apply, Allowed, Released, NextReservations, PreviousReservations,
        Consistent, IsFree;
      var reserve := PlanUniqueValueReservationWrites(reservations, readAt);
      if reserve.Err? {
        ReachableIsConsistent(fields, history, |history| - 1);
        return Err(reserve.error);
      }
      ghost var between := history;
      var release := PlanUniqueValueReleaseWrites(releases, readAt);
      PlannedLater(between, history, readAt, reservations, reserve.value);
      ghost var before := history;
      Interfere();
      PlannedLater(before, history, readAt, reservations, reserve.value);
      PlannedLater(before, history, readAt, releases, release);
      ghost var plan := Plan(name, readAt, existing, payload, reserve.value, release);
      assert Planned(fields, history, plan);
      r := CommitPlan(name, existing, payload, reserve.value, release, plan);
    }

    /** Commits a planned event with its reservation and release writes, if every version still matches. */
    method CommitPlan(name: string, existing: Option<Snapshot>, payload: Payload, reserve: seq<SlotWrite>,
                      release: seq<SlotWrite>, ghost plan: Plan)
      returns (r: Result<Snapshot>)
      requires Valid() && Planned(fields, history, plan)
      requires plan == Plan(name, plan.readAt, existing, payload, reserve, release)
      modifies this
      ensures Valid() && old(history) <= history && plan.readAt < |old(history)|
      ensures r.Ok? ==> var read := EventsOf(old(history)[plan.readAt], DocumentStream(name));
        && EventsOf(store, DocumentStream(name)) == read + [payload]
        && FoldOf(store, DocumentStream(name)) == Some(r.value) == Apply(existing, payload, |read| + 1)
        && (payload.Created? ==> read == [])
      ensures Consistent(fields, store)
      ensures plan.readAt == |old(history)| - 1 ==>
                (r.Ok? <==> (payload.Created? ==> EventsOf(old(store), DocumentStream(name)) == []))
      ensures r.Err? ==> store == old(store)
    {
      hide IsRun, Planned, Commits, FoldFrom, Apply, Consistent, EventsOf, AtomicCommitEntries, VersionsMatch;
      PlannedReads(fields, history, plan);
      var entries := DocumentEntries(name, existing, payload, reserve, release);
      ghost var base := history;
      if plan.readAt == |history| - 1 {
        NewestPlanMatches(fields, history, plan);
      }
      var ok := CommitEntries(entries, plan);
      ReachableIsConsistent(fields, history, |history| - 1);
      if !ok {
        return Err(Conflict);
      }
      CommittedDocument(fields, base, plan, store);
      var events := ReadStream(DocumentStream(name));
      var snapshot := FoldDocumentFrom(None, events, 0);
      r := Ok(snapshot.value);
    }

    /** Reads a document as the fold of its stream. */
    method ReadDocument(name: string) returns (document: Option<Snapshot>, ghost readAt: nat)
      requires Valid()
      ensures readAt == |history| - 1
      ensures document == FoldOf(store, DocumentStream(name)) == FoldOf(history[|history| - 1], DocumentStream(name))
    {
      readAt := |history| - 1;
      var events := ReadStream(DocumentStream(name));
      document := FoldDocumentFrom(None, events, 0);
    }

    /** Creates a document; the name must never have been used. */
    method Create(name: string, data: Data) returns (r: Result<Snapshot>)
      requires Valid()
      modifies this
      ensures Valid() && old(history) <= history && Consistent(fields, store)
      ensures r.Ok? ==> EventsOf(old(store), DocumentStream(name)) == []
      ensures r.Ok? ==> r.value == Snapshot(1, IsDraft, data) && FoldOf(store, DocumentStream(name)) == Some(r.value)
      ensures quiet ==> (r.Ok? <==> EventsOf(old(store), DocumentStream(name)) == [] && IsUnheld(fields, old(store), data, name))
      ensures quiet && r.Err? ==> store == old(store)
    {
      hide IsRun, Consistent, FoldFrom, HoldsKey, Reservations, IsFree, NobodyElseHolds;
      var existing, readAt := ReadDocument(name);
      Interfere();
      ReachableIsConsistent(fields, history, |history| - 1);
      LiveIsUsed(store, name);
      if IsLive(existing) {
        return Err(Conflict);
      }
      var reservations := UniqueValueReservations(fields, data, name);
      if reservations.Err? {
        return Err(reservations.error);
      }
      DistinctFields(fields, history);
      ReservationsAreHeldKeys(fields, data, name);
      AllFreeIffUnheld(fields, history, data, name);
      r := CommitDocumentEvent(name, existing, Created(data, IsDraft), reservations.value, [], readAt);
    }

    /** Saves changed data: the shared course of update, merge, transition and execute, whose patch is the event's. */
    method Change(name: string, payload: Payload) returns (r: Result<Snapshot>)
      requires Valid()
      requires payload.Updated? || payload.WorkflowTransitioned? || payload.CommandApplied?
      modifies this
      ensures Valid() && old(history) <= history && Consistent(fields, store)
      ensures r.Ok? ==> var before := FoldOf(old(store), DocumentStream(name));
        && FoldOf(store, DocumentStream(name)) == Some(r.value)
        && before.Some? && Allowed(before, payload)
        && r.value == Apply(before, payload, before.value.version + 1).value
      ensures quiet ==> (r.Ok? <==> AcceptsChange(fields, old(store), name, payload))
      ensures quiet && r.Err? ==> store == old(store)
    {
      hide IsRun, Consistent, FoldFrom, HoldsKey, Reservations, EventsOf, IsFree, NobodyElseHolds;
      var existing, readAt := ReadDocument(name);
      Interfere();
      ReachableIsConsistent(fields, history, |history| - 1);
      if !Allowed(existing, payload) {
        return Err(Conflict);
      }
      var data := Apply(existing, payload, 0).value.data;
      var next := UniqueValueReservations(fields, data, name);
      if next.Err? {
        return Err(next.error);
      }
      var previous := UniqueValueReservations(fields, existing.value.data, name);
      if previous.Err? {
        return Err(previous.error);
      }
      hide NextReservations, PreviousReservations, Released, Apply, Allowed;
      DistinctFields(fields, history);
      ChangeReservations(fields, existing, payload, name, next.value, previous.value);
      var releases := Released(previous.value, next.value);
      AllFreeIffUnheld(fields, history, data, name);
      VersionRead(fields, history, readAt, name);
      r := CommitDocumentEvent(name, existing, payload, next.value, releases, readAt);
    }

    /** Deletes a document and releases every value it holds. */
    method Delete(name: string) returns (r: Result<Snapshot>)
      requires Valid()
      modifies this
      ensures Valid() && old(history) <= history && Consistent(fields, store)
      ensures r.Ok? ==> var before := FoldOf(old(store), DocumentStream(name));
        && FoldOf(store, DocumentStream(name)) == Some(r.value)
        && before.Some? && Allowed(before, Deleted)
        && r.value == before.value.(version := before.value.version + 1, status := IsDeleted)
      ensures r.Ok? && name != "" ==> forall field, key :: Owner(store, field, key) != Some(name)
      ensures quiet ==> (r.Ok? <==>
                var before := FoldOf(old(store), DocumentStream(name));
                Allowed(before, Deleted) && Reservations(fields, before.value.data, name).Ok?)
      ensures quiet && r.Err? ==> store == old(store)
    {
      hide IsRun, Consistent, FoldFrom, HoldsKey, Reservations;
      var existing, readAt := ReadDocument(name);
      Interfere();
      ReachableIsConsistent(fields, history, |history| - 1);
      if !Allowed(existing, Deleted) {
        return Err(Conflict);
      }
      var previous := UniqueValueReservations(fields, existing.value.data, name);
      if previous.Err? {
        return Err(previous.error);
      }
      DistinctFields(fields, history);
      ReservationsAreHeldKeys(fields, existing.value.data, name);
      ReleasedIsDifference(previous.value, []);
      VersionRead(fields, history, readAt, name);
      r := CommitDocumentEvent(name, existing, Deleted, [], Released(previous.value, []), readAt);
      if r.Ok? {
        forall field, key ensures Owner(store, field, key) != Some(name) {
          ConsistentOwner(fields, store, name, field, key);
        }
      }
    }

    /** Commits an event without data: submission, cancellation, or one of the collaboration events. */
    method Record(name: string, payload: Payload) returns (r: Result<Snapshot>)
      requires Valid()
      requires payload.Submitted? || payload.Cancelled? || payload.Collaborated?
      modifies this
      ensures Valid() && old(history) <= history && Consistent(fields, store)
      ensures r.Ok? ==> var before := FoldOf(old(store), DocumentStream(name));
        && FoldOf(store, DocumentStream(name)) == Some(r.value)
        && before.Some? && Allowed(before, payload)
        && r.value == Apply(before, payload, before.value.version + 1).value
      ensures quiet ==> (r.Ok? <==> Allowed(FoldOf(old(store), DocumentStream(name)), payload))
      ensures quiet && r.Err? ==> store == old(store)
    {
      hide IsRun, Consistent, FoldFrom, EventsOf;
      var existing, readAt := ReadDocument(name);
      Interfere();
      ReachableIsConsistent(fields, history, |history| - 1);
      if !Allowed(existing, payload) {
        return Err(Conflict);
      }
      VersionRead(fields, history, readAt, name);
      r := CommitDocumentEvent(name, existing, payload, [], [], readAt);
    }

    static method DocumentEntries(name: string, existing: Option<Snapshot>, payload: Payload,
                                  reserve: seq<SlotWrite>, release: seq<SlotWrite>) returns (entries: seq<Entry>)
      ensures forall readAt :: entries == AtomicCommitEntries(Plan(name, readAt, existing, payload, reserve, release))
    {
      entries := AtomicCommitEntries(Plan(name, 0, existing, payload, reserve, release));
    }
  }

  lemma {:induction false} CommitIsReady(fields: seq<string>, run: Run, plan: Plan, next: Store)
    requires IsRun(fields, run) && Commits(fields, run, plan, next)
    ensures Ready(fields, run, plan) && next == AppendEach(run[|run| - 1], AtomicCommitEntries(plan))
    ensures run != [] && plan.readAt < |run|
  {
    hide Consistent, VersionsMatch, StepAt;
    forall t | 0 <= t < |run| ensures Consistent(fields, run[t]) {
      ReachableIsConsistent(fields, run, t);
    }
  }

  /** A commit adds its event to the document's stream as the command had read it. */
  lemma {:induction false} CommittedDocument(fields: seq<string>, run: Run, plan: Plan, next: Store)
    requires IsRun(fields, run) && Commits(fields, run, plan, next)
    ensures var read := EventsOf(run[plan.readAt], DocumentStream(plan.name));
      && EventsOf(next, DocumentStream(plan.name)) == read + [plan.payload]
      && FoldOf(next, DocumentStream(plan.name)).Some?
      && FoldOf(next, DocumentStream(plan.name)) == Apply(plan.existing, plan.payload, |read| + 1)
      && (plan.payload.Created? ==> read == [])
  {
    hide IsRun, Ready, Commits, Fold, Apply, OpensWithCreation, EventsOf, Allowed, AppendEach, AtomicCommitEntries;
    CommitIsReady(fields, run, plan, next);
    DocumentUnmoved(fields, run, plan, |run| - 1);
    DocumentUnmoved(fields, run, plan, plan.readAt);
    CommitGrows(fields, run, plan, next);
    DocumentAfter(fields, run, plan, next);
    FoldVersion(EventsOf(next, DocumentStream(plan.name)));
  }
}
