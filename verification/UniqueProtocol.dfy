/**
Runs of commands that save documents with unique fields. A command reads the document, then the
reservation streams and their owners one by one, and then commits; other commands may commit
between any two of these steps.

A run is the sequence of states the store went through; every state but the first is the result
of one commit, planned from reads of earlier states.
*/
module UniqueProtocol {
  import opened Results
  import opened Documents
  import opened UniqueValues

  type Run = seq<Store>

  /** A reservation or release to commit, with the state of the reservation stream it was decided on. */
  datatype SlotWrite = SlotWrite(reservation: Reservation, existing: Option<Snapshot>)

  /** What a command commits: its document's event and the reservation events beside it. */
  datatype Plan = Plan(name: string, readAt: nat, existing: Option<Snapshot>, payload: Payload,
                       reserve: seq<SlotWrite>, release: seq<SlotWrite>)

  function FoldOf(store: Store, stream: Stream): Option<Snapshot> {
    Fold(EventsOf(store, stream))
  }

  function ReserveEntry(w: SlotWrite): Entry {
    Entry(w.reservation.Stream(), VersionOf(w.existing), [ReservedPayload(w.reservation, w.existing)])
  }

  function ReleaseEntry(w: SlotWrite): Entry {
    Entry(w.reservation.Stream(), VersionOf(w.existing), [RELEASED])
  }

  function DocumentEntry(plan: Plan): Entry {
    Entry(DocumentStream(plan.name), if plan.payload.Created? then 0 else VersionOf(plan.existing), [plan.payload])
  }

  function AtomicCommitEntries(plan: Plan): seq<Entry> {
    seq(|plan.reserve|, i requires 0 <= i < |plan.reserve| => ReserveEntry(plan.reserve[i]))
    + seq(|plan.release|, i requires 0 <= i < |plan.release| => ReleaseEntry(plan.release[i]))
    + [DocumentEntry(plan)]
  }

  // ----- Planning -----------------------------------------------------------

  predicate IsLive(snapshot: Option<Snapshot>) {
    snapshot.Some? && !snapshot.value.status.IsDeleted?
  }

  /** The statuses a command accepts; creation also passes over a deleted document, to fail on its version. */
  predicate Allowed(existing: Option<Snapshot>, payload: Payload) {
    match payload
    case Created(_, status) => status.IsDraft? && !IsLive(existing)
    case Updated(_, _) => IsLive(existing) && (existing.value.status.IsDraft? || existing.value.status.IsSubmitted?)
    case WorkflowTransitioned(_) => IsLive(existing) && existing.value.status.IsDraft?
    case CommandApplied(_) => IsLive(existing) && existing.value.status.IsDraft?
    case Deleted => IsLive(existing) && (existing.value.status.IsDraft? || existing.value.status.IsCancelled?)
    case Submitted => IsLive(existing) && existing.value.status.IsDraft?
    case Cancelled => IsLive(existing) && existing.value.status.IsSubmitted?
    case Collaborated(_) => IsLive(existing)
    case Ignored(_) => false
  }

  /** The events that carry field values; the others plan no reservation. */
  predicate ChangesData(payload: Payload) {
    payload.Created? || payload.Updated? || payload.WorkflowTransitioned? || payload.CommandApplied?
  }

  function NextReservations(fields: seq<string>, existing: Option<Snapshot>, payload: Payload, name: string):
    Result<seq<Reservation>>
  {
    var after := Apply(existing, payload, 0);
    if ChangesData(payload) && after.Some? then Reservations(fields, after.value.data, name) else Ok([])
  }

  function PreviousReservations(fields: seq<string>, existing: Option<Snapshot>, payload: Payload, name: string):
    Result<seq<Reservation>>
  {
    if existing.Some? && !payload.Created? && (ChangesData(payload) || payload.Deleted?)
    then Reservations(fields, existing.value.data, name)
    else Ok([])
  }

  /** The decision on a reservation when its stream is read in one state and the owner it names in another. */
  function DecisionAt(slotState: Store, ownerState: Store, r: Reservation): Result<Decision> {
    var existing := FoldOf(slotState, r.Stream());
    match LookupOwner(r, existing)
    case NoLookup => Ok(ReservationDecision(r, existing, false))
    case ReadOwner(owner) =>
      var owns := OwnerStillOwnsValue(r, FoldOf(ownerState, DocumentStream(owner)));
      if owns.Err? then Err(owns.error) else Ok(ReservationDecision(r, existing, owns.value))
  }

  /** The stream was read at `slotAt` and its owner not before, both at or after `from`. */
  predicate ReadInOrder(run: Run, from: nat, slotAt: nat, ownerAt: nat) {
    from <= slotAt <= ownerAt < |run|
  }

  ghost predicate ReserveDecided(run: Run, from: nat, r: Reservation, decision: Decision) {
    exists slotAt: nat, ownerAt: nat | ReadInOrder(run, from, slotAt, ownerAt) ::
      DecisionAt(run[slotAt], run[ownerAt], r) == Ok(decision)
  }

  ghost predicate ReleaseDecided(run: Run, from: nat, r: Reservation, decision: Decision) {
    exists slotAt: nat | ReadInOrder(run, from, slotAt, slotAt) ::
      ReleaseDecision(r, FoldOf(run[slotAt], r.Stream())) == decision
  }

  predicate DistinctWrites(writes: seq<SlotWrite>) {
    forall i, j | 0 <= i < j < |writes| :: writes[i].reservation.field != writes[j].reservation.field
  }

  predicate Writes(writes: seq<SlotWrite>, r: Reservation) {
    exists w | w in writes :: w.reservation == r
  }

  /** Every reservation was decided: those to write are in `writes`, for the others the decision was to skip. */
  ghost predicate ReservesPlanned(run: Run, from: nat, reservations: seq<Reservation>, writes: seq<SlotWrite>) {
    && DistinctWrites(writes)
    && (forall w | w in writes :: w.reservation in reservations
                               && ReserveDecided(run, from, w.reservation, Decision.Write(w.existing)))
    && (forall r | r in reservations :: Writes(writes, r) || ReserveDecided(run, from, r, Skip))
  }

  ghost predicate ReleasesPlanned(run: Run, from: nat, reservations: seq<Reservation>, writes: seq<SlotWrite>) {
    && DistinctWrites(writes)
    && (forall w | w in writes :: w.reservation in reservations
                               && ReleaseDecided(run, from, w.reservation, Decision.Write(w.existing)))
    && (forall r | r in reservations :: Writes(writes, r) || ReleaseDecided(run, from, r, Skip))
  }

  ghost predicate Planned(fields: seq<string>, run: Run, plan: Plan) {
    && plan.readAt < |run|
    && plan.existing == FoldOf(run[plan.readAt], DocumentStream(plan.name))
    && Allowed(plan.existing, plan.payload)
    && var next := NextReservations(fields, plan.existing, plan.payload, plan.name);
    && var previous := PreviousReservations(fields, plan.existing, plan.payload, plan.name);
    && next.Ok? && previous.Ok?
    && ReservesPlanned(run, plan.readAt, next.value, plan.reserve)
    && ReleasesPlanned(run, plan.readAt, Released(previous.value, next.value), plan.release)
  }

  ghost predicate Commits(fields: seq<string>, run: Run, plan: Plan, next: Store)
    requires run != []
  {
    && Planned(fields, run, plan)
    && CommitBatch(run[|run| - 1], AtomicCommitEntries(plan)) == Ok(next)
  }

  ghost predicate StepAt(fields: seq<string>, run: Run, n: nat)
    requires 0 < n < |run|
  {
    exists plan :: Commits(fields, run[..n], plan, run[n])
  }

  ghost predicate IsRun(fields: seq<string>, run: Run) {
    && Distinct(fields)
    && run != [] && run[0] == map[]
    && (forall n | 0 < n < |run| :: StepAt(fields, run, n))
  }

  // ----- The invariant ---------------------------------------------------------

  function Owner(store: Store, field: string, key: string): Option<string> {
    ActiveOwner(FoldOf(store, UniqueValueStream(field, key)))
  }

  /** The document is live and the unique field has the value with this key. */
  predicate Holds(fields: seq<string>, store: Store, name: string, field: string, key: string) {
    var document := FoldOf(store, DocumentStream(name));
    IsLive(document) && HoldsKey(fields, document.value.data, field, key)
  }

  predicate OwnerIsHolder(fields: seq<string>, store: Store, name: string, field: string, key: string) {
    Owner(store, field, key) == Some(name) <==> name != "" && Holds(fields, store, name, field, key)
  }

  ghost predicate OwnersAreHolders(fields: seq<string>, store: Store) {
    forall name, field, key :: OwnerIsHolder(fields, store, name, field, key)
  }

  ghost predicate WellFormed(store: Store) {
    && (forall s: Stream :: OpensWithCreation(EventsOf(store, s)))
    && (forall field, key :: NeverDeleted(FoldOf(store, UniqueValueStream(field, key))))
  }

  ghost predicate Consistent(fields: seq<string>, store: Store) {
    WellFormed(store) && OwnersAreHolders(fields, store)
  }

  // ----- Streams only grow --------------------------------------------------------

  lemma {:induction false} RunExtends(fields: seq<string>, run: Run, i: nat, j: nat)
    requires IsRun(fields, run) && i <= j < |run|
    ensures Extends(run[i], run[j])
    decreases j
  {
    hide Planned, AtomicCommitEntries, AppendEach, EventsOf;
    if i < j {
      RunExtends(fields, run, i, j - 1);
      assert StepAt(fields, run, j);
      var plan :| Commits(fields, run[..j], plan, run[j]);
      AppendEachExtends(run[j - 1], AtomicCommitEntries(plan));
    }
  }

  /** A stream as long later as before did not change in between. */
  lemma {:induction false} Unmoved(fields: seq<string>, run: Run, i: nat, t: nat, j: nat, s: Stream)
    requires IsRun(fields, run) && i <= t <= j < |run|
    requires |EventsOf(run[i], s)| == |EventsOf(run[j], s)|
    ensures EventsOf(run[i], s) == EventsOf(run[t], s) == EventsOf(run[j], s)
  {
    RunExtends(fields, run, i, t);
    RunExtends(fields, run, t, j);
  }

  // ----- One commit ------------------------------------------------------------------

  /** A planned command whose expected versions all match the newest state of a consistent run. */
  ghost predicate Ready(fields: seq<string>, run: Run, plan: Plan) {
    && IsRun(fields, run)
    && (forall t | 0 <= t < |run| :: Consistent(fields, run[t]))
    && Planned(fields, run, plan)
    && VersionsMatch(run[|run| - 1], AtomicCommitEntries(plan))
  }

  lemma {:induction false} EntriesOf(plan: Plan)
    ensures DocumentEntry(plan) in AtomicCommitEntries(plan)
    ensures forall w | w in plan.reserve :: ReserveEntry(w) in AtomicCommitEntries(plan)
    ensures forall w | w in plan.release :: ReleaseEntry(w) in AtomicCommitEntries(plan)
  {
    var entries := AtomicCommitEntries(plan);
    assert entries[|plan.reserve| + |plan.release|] == DocumentEntry(plan);
    forall w | w in plan.reserve
      ensures ReserveEntry(w) in entries
    {
      var i :| 0 <= i < |plan.reserve| && plan.reserve[i] == w;
      assert entries[i] == ReserveEntry(w);
    }
    forall w | w in plan.release
      ensures ReleaseEntry(w) in entries
    {
      var i :| 0 <= i < |plan.release| && plan.release[i] == w;
      assert entries[|plan.reserve| + i] == ReleaseEntry(w);
    }
  }

  /** From its first read to its commit, nobody else changed the document. */
  lemma {:induction false} DocumentUnmoved(fields: seq<string>, run: Run, plan: Plan, t: nat)
    requires Ready(fields, run, plan) && plan.readAt <= t < |run|
    ensures FoldOf(run[t], DocumentStream(plan.name)) == plan.existing
    ensures EventsOf(run[t], DocumentStream(plan.name)) == EventsOf(run[plan.readAt], DocumentStream(plan.name))
    ensures plan.payload.Created? ==> EventsOf(run[t], DocumentStream(plan.name)) == [] && plan.existing.None?
  {
    var last, s := |run| - 1, DocumentStream(plan.name);
    EntriesOf(plan);
    FoldVersion(EventsOf(run[plan.readAt], s));
    if plan.payload.Created? {
      RunExtends(fields, run, plan.readAt, last);
    }
    Unmoved(fields, run, plan.readAt, t, last, s);
  }

  /** So what the document holds now is what the command read. */
  lemma {:induction false} HoldsAsRead(fields: seq<string>, run: Run, plan: Plan, t: nat, field: string, key: string)
    requires Ready(fields, run, plan) && plan.readAt <= t < |run|
    ensures Holds(fields, run[t], plan.name, field, key)
       <==> IsLive(plan.existing) && HoldsKey(fields, plan.existing.value.data, field, key)
  {
    DocumentUnmoved(fields, run, plan, t);
  }

  lemma {:induction false} PlannedReservations(fields: seq<string>, run: Run, plan: Plan)
    requires Ready(fields, run, plan)
    ensures var next := NextReservations(fields, plan.existing, plan.payload, plan.name).value;
      forall r :: r in next <==>
        && r.documentName == plan.name && ChangesData(plan.payload)
        && HoldsKey(fields, Apply(plan.existing, plan.payload, 0).value.data, r.field, r.key)
    ensures var previous := PreviousReservations(fields, plan.existing, plan.payload, plan.name).value;
      forall r :: r in previous <==>
        && r.documentName == plan.name && IsLive(plan.existing) && (ChangesData(plan.payload) || plan.payload.Deleted?)
        && HoldsKey(fields, plan.existing.value.data, r.field, r.key)
  {
    DocumentUnmoved(fields, run, plan, plan.readAt);
    if ChangesData(plan.payload) {
      ReservationsAreHeldKeys(fields, Apply(plan.existing, plan.payload, 0).value.data, plan.name);
    }
    if IsLive(plan.existing) && (ChangesData(plan.payload) || plan.payload.Deleted?) {
      ReservationsAreHeldKeys(fields, plan.existing.value.data, plan.name);
    }
  }

  /** A skipped reservation is one the document holds already, although its stream is not checked at the commit. */
  lemma {:induction false} SkipMeansHeld(fields: seq<string>, run: Run, plan: Plan, r: Reservation)
    requires Ready(fields, run, plan)
    requires r.documentName == plan.name && ReserveDecided(run, plan.readAt, r, Skip)
    ensures plan.name != "" && Holds(fields, run[|run| - 1], plan.name, r.field, r.key)
  {
    hide IsRun, Planned, WellFormed, AtomicCommitEntries, Fold, HoldsKey, OwnerStillOwnsValue;
    var slotAt: nat, ownerAt: nat :| ReadInOrder(run, plan.readAt, slotAt, ownerAt)
                        && DecisionAt(run[slotAt], run[ownerAt], r) == Ok(Skip);
    assert Owner(run[slotAt], r.field, r.key) == Some(plan.name);
    assert OwnerIsHolder(fields, run[slotAt], plan.name, r.field, r.key);
    HoldsAsRead(fields, run, plan, slotAt, r.field, r.key);
    HoldsAsRead(fields, run, plan, |run| - 1, r.field, r.key);
  }

  /** The stream of a write that commits is still as it was when the write was decided. */
  lemma {:induction false} SlotUnmoved(fields: seq<string>, run: Run, plan: Plan, w: SlotWrite, slotAt: nat, t: nat)
    requires Ready(fields, run, plan)
    requires w in plan.reserve || w in plan.release
    requires slotAt <= t < |run| && w.existing == FoldOf(run[slotAt], w.reservation.Stream())
    ensures FoldOf(run[t], w.reservation.Stream()) == w.existing
  {
    hide IsRun, Planned, OwnersAreHolders, ReservedPayload, AtomicCommitEntries;
    var last, s := |run| - 1, w.reservation.Stream();
    EntriesOf(plan);
    FoldVersion(EventsOf(run[slotAt], s));
    Unmoved(fields, run, slotAt, t, last, s);
  }

  lemma {:induction false} WriteIsOwn(fields: seq<string>, run: Run, plan: Plan, w: SlotWrite)
    requires Ready(fields, run, plan)
    ensures w in plan.reserve ==>
              w.reservation.documentName == plan.name && ReserveDecided(run, plan.readAt, w.reservation, Decision.Write(w.existing))
    ensures w in plan.release ==>
              w.reservation.documentName == plan.name && ReleaseDecided(run, plan.readAt, w.reservation, Decision.Write(w.existing))
  {
    PlannedReservations(fields, run, plan);
    ReleasedIsDifference(PreviousReservations(fields, plan.existing, plan.payload, plan.name).value,
                         NextReservations(fields, plan.existing, plan.payload, plan.name).value);
    hide IsRun, Consistent, VersionsMatch, HoldsKey, Released, NextReservations, PreviousReservations, Allowed,
      ReserveDecided, ReleaseDecided;
  }

  lemma {:induction false} ConsistentOwner(fields: seq<string>, store: Store, name: string, field: string, key: string)
    requires Consistent(fields, store)
    ensures OwnerIsHolder(fields, store, name, field, key)
  {
  }

  /**
  A reservation is only ever taken while nobody owns it: the branch that takes it from a recorded
  owner who no longer holds the value plans a commit that cannot succeed.
  */
  lemma {:induction false} ReserveOnlyWhenFree(fields: seq<string>, run: Run, plan: Plan, w: SlotWrite)
    requires Ready(fields, run, plan) && w in plan.reserve
    ensures Owner(run[|run| - 1], w.reservation.field, w.reservation.key) == None
    ensures FoldOf(run[|run| - 1], w.reservation.Stream()) == w.existing
  {
    hide IsRun, Planned, WellFormed, AtomicCommitEntries, VersionsMatch, Fold;
    var r, last := w.reservation, |run| - 1;
    WriteIsOwn(fields, run, plan, w);
    var slotAt: nat, ownerAt: nat :| ReadInOrder(run, plan.readAt, slotAt, ownerAt)
                        && DecisionAt(run[slotAt], run[ownerAt], r) == Ok(Decision.Write(w.existing));
    SlotUnmoved(fields, run, plan, w, slotAt, ownerAt);
    SlotUnmoved(fields, run, plan, w, slotAt, last);
    var owner := ActiveOwner(w.existing);
    if owner.Some? {
      assert OwnerIsHolder(fields, run[ownerAt], owner.value, r.field, r.key);
    }
  }

  lemma {:induction false} ReleaseOnlyOwn(fields: seq<string>, run: Run, plan: Plan, w: SlotWrite)
    requires Ready(fields, run, plan) && w in plan.release
    ensures Owner(run[|run| - 1], w.reservation.field, w.reservation.key) == Some(plan.name)
    ensures w.existing.Some? && FoldOf(run[|run| - 1], w.reservation.Stream()) == w.existing
  {
    hide IsRun, Planned, Consistent, AtomicCommitEntries, VersionsMatch, Fold;
    var r := w.reservation;
    WriteIsOwn(fields, run, plan, w);
    var slotAt: nat :| ReadInOrder(run, plan.readAt, slotAt, slotAt)
               && ReleaseDecision(r, FoldOf(run[slotAt], r.Stream())) == Decision.Write(w.existing);
    SlotUnmoved(fields, run, plan, w, slotAt, |run| - 1);
  }

  /** Every value a named document gives up is released. */
  lemma {:induction false} GivenUpIsReleased(fields: seq<string>, run: Run, plan: Plan, r: Reservation)
    requires Ready(fields, run, plan) && plan.name != ""
    requires r in PreviousReservations(fields, plan.existing, plan.payload, plan.name).value
    requires r !in NextReservations(fields, plan.existing, plan.payload, plan.name).value
    ensures Writes(plan.release, r)
  {
    hide IsRun, WellFormed, AtomicCommitEntries, Fold, HoldsKey, Released, NextReservations, PreviousReservations, Allowed;
    PlannedReservations(fields, run, plan);
    ReleasedIsDifference(PreviousReservations(fields, plan.existing, plan.payload, plan.name).value,
                         NextReservations(fields, plan.existing, plan.payload, plan.name).value);
    if ReleaseDecided(run, plan.readAt, r, Skip) {
      var slotAt: nat :| ReadInOrder(run, plan.readAt, slotAt, slotAt)
                 && ReleaseDecision(r, FoldOf(run[slotAt], r.Stream())) == Skip;
      assert OwnerIsHolder(fields, run[slotAt], plan.name, r.field, r.key);
      HoldsAsRead(fields, run, plan, slotAt, r.field, r.key);
      assert false;
    }
  }

  // ----- What a commit changes ---------------------------------------------------------

  lemma {:induction false} EntriesAreDistinct(fields: seq<string>, run: Run, plan: Plan)
    requires Ready(fields, run, plan)
    ensures DistinctStreams(AtomicCommitEntries(plan))
  {
    hide IsRun, Consistent, VersionsMatch, Released, NextReservations, PreviousReservations, Allowed, ReserveDecided, ReleaseDecided;
    var next := NextReservations(fields, plan.existing, plan.payload, plan.name).value;
    var previous := PreviousReservations(fields, plan.existing, plan.payload, plan.name).value;
    PlannedReservations(fields, run, plan);
    ReleasedIsDifference(previous, next);
    forall w, v | w in plan.reserve && v in plan.release
      ensures w.reservation.Stream() != v.reservation.Stream()
    {
      assert w.reservation in next && v.reservation !in next && v.reservation in previous;
      assert w.reservation.documentName == v.reservation.documentName;
    }
  }

  lemma {:induction false} EntryIsPlanned(plan: Plan, e: Entry)
    requires e in AtomicCommitEntries(plan)
    ensures || e == DocumentEntry(plan)
            || (exists w | w in plan.reserve :: e == ReserveEntry(w))
            || (exists w | w in plan.release :: e == ReleaseEntry(w))
  {
    var entries := AtomicCommitEntries(plan);
    var i :| 0 <= i < |entries| && entries[i] == e;
    if i < |plan.reserve| {
      assert e == ReserveEntry(plan.reserve[i]);
    } else if i < |plan.reserve| + |plan.release| {
      assert e == ReleaseEntry(plan.release[i - |plan.reserve|]);
    }
  }

  /** The commit adds one event to each stream it writes and leaves every other stream alone. */
  lemma {:induction false} CommitGrows(fields: seq<string>, run: Run, plan: Plan, next: Store)
    requires Ready(fields, run, plan)
    requires next == AppendEach(run[|run| - 1], AtomicCommitEntries(plan))
    ensures EventsOf(next, DocumentStream(plan.name)) == EventsOf(run[|run| - 1], DocumentStream(plan.name)) + [plan.payload]
    ensures forall w | w in plan.reserve ::
              EventsOf(next, w.reservation.Stream())
              == EventsOf(run[|run| - 1], w.reservation.Stream()) + [ReservedPayload(w.reservation, w.existing)]
    ensures forall w | w in plan.release ::
              EventsOf(next, w.reservation.Stream()) == EventsOf(run[|run| - 1], w.reservation.Stream()) + [RELEASED]
    ensures forall s: Stream | s != DocumentStream(plan.name)
              && (forall w | w in plan.reserve :: w.reservation.Stream() != s)
              && (forall w | w in plan.release :: w.reservation.Stream() != s) ::
              EventsOf(next, s) == EventsOf(run[|run| - 1], s)
  {
    assert run != [];
    hide IsRun, Consistent, Planned, VersionsMatch, EventsOf, ReservedPayload;
    EntriesAreDistinct(fields, run, plan);
    EntriesOf(plan);
    var entries := AtomicCommitEntries(plan);
    AppendEachGrows(run[|run| - 1], entries);
    hide AtomicCommitEntries, AppendEach, DistinctStreams;
    forall s: Stream | s != DocumentStream(plan.name)
              && (forall w | w in plan.reserve :: w.reservation.Stream() != s)
              && (forall w | w in plan.release :: w.reservation.Stream() != s)
      ensures EventsOf(next, s) == EventsOf(run[|run| - 1], s)
    {
      forall i | 0 <= i < |entries| ensures entries[i].stream != s {
        EntryIsPlanned(plan, entries[i]);
      }
    }
  }

  predicate WritesSlot(writes: seq<SlotWrite>, field: string, key: string) {
    exists w | w in writes :: w.reservation.Stream() == UniqueValueStream(field, key)
  }

  /** Who owns a value after the commit. */
  lemma {:induction false} OwnerAfter(fields: seq<string>, run: Run, plan: Plan, next: Store, field: string, key: string)
    requires Ready(fields, run, plan)
    requires next == AppendEach(run[|run| - 1], AtomicCommitEntries(plan))
    ensures NeverDeleted(FoldOf(next, UniqueValueStream(field, key)))
    ensures OpensWithCreation(EventsOf(next, UniqueValueStream(field, key)))
    ensures Owner(next, field, key)
         == if WritesSlot(plan.reserve, field, key) then (if plan.name == "" then None else Some(plan.name))
            else if WritesSlot(plan.release, field, key) then None
            else Owner(run[|run| - 1], field, key)
  {
    var last, s := run[|run| - 1], UniqueValueStream(field, key);
    assert Consistent(fields, last);
    CommitGrows(fields, run, plan, next);
    PlannedReservations(fields, run, plan);
    hide IsRun, Consistent, AtomicCommitEntries, NextReservations, PreviousReservations, Allowed, Released, ActiveOwner;
    if WritesSlot(plan.reserve, field, key) {
      var w :| w in plan.reserve && w.reservation.Stream() == s;
      ReserveOnlyWhenFree(fields, run, plan, w);
      assert w.reservation.documentName == plan.name;
      ReservedOwner(w.reservation, EventsOf(last, s));
    } else if WritesSlot(plan.release, field, key) {
      var w :| w in plan.release && w.reservation.Stream() == s;
      ReleaseOnlyOwn(fields, run, plan, w);
      FoldVersion(EventsOf(last, s));
      ReleasedOwner(EventsOf(last, s));
    }
  }

  lemma {:induction false} AcceptedAppend(events: seq<Payload>, payload: Payload)
    requires OpensWithCreation(events) && Allowed(Fold(events), payload)
    ensures OpensWithCreation(events + [payload])
    ensures Fold(events + [payload]) == Apply(Fold(events), payload, |events + [payload]|)
  {
    FoldVersion(events);
    FoldSnoc(events, payload);
  }

  lemma {:induction false} DocumentAfter(fields: seq<string>, run: Run, plan: Plan, next: Store)
    requires Ready(fields, run, plan)
    requires next == AppendEach(run[|run| - 1], AtomicCommitEntries(plan))
    ensures OpensWithCreation(EventsOf(next, DocumentStream(plan.name)))
    ensures FoldOf(next, DocumentStream(plan.name))
         == Apply(plan.existing, plan.payload, |EventsOf(next, DocumentStream(plan.name))|)
    ensures Allowed(plan.existing, plan.payload)
  {
    var events := EventsOf(run[|run| - 1], DocumentStream(plan.name));
    assert Consistent(fields, run[|run| - 1]);
    CommitGrows(fields, run, plan, next);
    DocumentUnmoved(fields, run, plan, |run| - 1);
    AcceptedAppend(events, plan.payload);
    hide *;
  }

  /** What the command's own document holds after the commit. */
  lemma {:induction false} HoldsAfter(fields: seq<string>, run: Run, plan: Plan, next: Store, field: string, key: string)
    requires Ready(fields, run, plan)
    requires next == AppendEach(run[|run| - 1], AtomicCommitEntries(plan))
    ensures Holds(fields, next, plan.name, field, key) <==>
      if ChangesData(plan.payload)
      then Reservation(field, key, plan.name) in NextReservations(fields, plan.existing, plan.payload, plan.name).value
      else !plan.payload.Deleted? && Holds(fields, run[|run| - 1], plan.name, field, key)
  {
    DocumentAfter(fields, run, plan, next);
    PlannedReservations(fields, run, plan);
    HoldsAsRead(fields, run, plan, |run| - 1, field, key);
    var n := |EventsOf(next, DocumentStream(plan.name))|;
    assert run != [] && NextReservations(fields, plan.existing, plan.payload, plan.name).Ok?;
    hide IsRun, Ready, Consistent, AtomicCommitEntries, AppendEach, NextReservations, PreviousReservations, HoldsKey, Apply, Allowed, Fold, EventsOf;
  }

  // ----- Every run ------------------------------------------------------------------------

  /** The commit leaves the streams of other documents, and of automation runs, as they were. */
  lemma {:induction false} OtherStreamAfter(fields: seq<string>, run: Run, plan: Plan, next: Store, s: Stream)
    requires Ready(fields, run, plan)
    requires next == AppendEach(run[|run| - 1], AtomicCommitEntries(plan))
    requires !s.UniqueValueStream? && s != DocumentStream(plan.name)
    ensures EventsOf(next, s) == EventsOf(run[|run| - 1], s) && OpensWithCreation(EventsOf(next, s))
  {
    CommitGrows(fields, run, plan, next);
    assert Consistent(fields, run[|run| - 1]);
    hide IsRun, Ready, AtomicCommitEntries, AppendEach, OwnersAreHolders, EventsOf, ReservedPayload, OpensWithCreation;
  }

  lemma {:induction false} OtherDocumentAfter(fields: seq<string>, run: Run, plan: Plan, next: Store, name: string,
                                              field: string, key: string)
    requires Ready(fields, run, plan)
    requires next == AppendEach(run[|run| - 1], AtomicCommitEntries(plan))
    requires name != plan.name
    ensures OwnerIsHolder(fields, next, name, field, key)
  {
    var last := run[|run| - 1];
    OtherStreamAfter(fields, run, plan, next, DocumentStream(name));
    OwnerAfter(fields, run, plan, next, field, key);
    ConsistentOwner(fields, last, name, field, key);
    hide IsRun, Ready, Consistent, AtomicCommitEntries, AppendEach, Fold, HoldsKey, ActiveOwner;
    if WritesSlot(plan.reserve, field, key) {
      var w :| w in plan.reserve && w.reservation.Stream() == UniqueValueStream(field, key);
      ReserveOnlyWhenFree(fields, run, plan, w);
    } else if WritesSlot(plan.release, field, key) {
      var w :| w in plan.release && w.reservation.Stream() == UniqueValueStream(field, key);
      ReleaseOnlyOwn(fields, run, plan, w);
    }
  }

  /** A command writes a reservation stream only to reserve what its document will hold or release what it gives up. */
  lemma {:induction false} WritesSlotMeans(fields: seq<string>, run: Run, plan: Plan, field: string, key: string)
    requires Ready(fields, run, plan)
    ensures var r := Reservation(field, key, plan.name);
      && (WritesSlot(plan.reserve, field, key) ==>
            r in NextReservations(fields, plan.existing, plan.payload, plan.name).value)
      && (WritesSlot(plan.release, field, key) ==>
            && r in PreviousReservations(fields, plan.existing, plan.payload, plan.name).value
            && r !in NextReservations(fields, plan.existing, plan.payload, plan.name).value)
  {
    var next := NextReservations(fields, plan.existing, plan.payload, plan.name).value;
    var previous := PreviousReservations(fields, plan.existing, plan.payload, plan.name).value;
    PlannedReservations(fields, run, plan);
    ReleasedIsDifference(previous, next);
    hide IsRun, Consistent, VersionsMatch, Released, NextReservations, PreviousReservations, Allowed, ReserveDecided, ReleaseDecided;
    if WritesSlot(plan.reserve, field, key) {
      var w :| w in plan.reserve && w.reservation.Stream() == UniqueValueStream(field, key);
      assert w.reservation in next;
    }
    if WritesSlot(plan.release, field, key) {
      var w :| w in plan.release && w.reservation.Stream() == UniqueValueStream(field, key);
      assert w.reservation in previous && w.reservation !in next;
    }
  }

  /** A value the command leaves alone is held after the commit exactly if it was held, and owned, before. */
  lemma {:induction false} UnwrittenValue(fields: seq<string>, run: Run, plan: Plan, next: Store, field: string, key: string)
    requires Ready(fields, run, plan)
    requires next == AppendEach(run[|run| - 1], AtomicCommitEntries(plan))
    requires !WritesSlot(plan.reserve, field, key) && !WritesSlot(plan.release, field, key)
    ensures plan.name != "" ==>
              (Holds(fields, next, plan.name, field, key) <==> Holds(fields, run[|run| - 1], plan.name, field, key))
  {
    var last, r := run[|run| - 1], Reservation(field, key, plan.name);
    HoldsAfter(fields, run, plan, next, field, key);
    PlannedReservations(fields, run, plan);
    HoldsAsRead(fields, run, plan, |run| - 1, field, key);
    assert !Writes(plan.release, r) && !Writes(plan.reserve, r);
    assert ReservesPlanned(run, plan.readAt, NextReservations(fields, plan.existing, plan.payload, plan.name).value, plan.reserve);
    hide IsRun, Consistent, AtomicCommitEntries, AppendEach, Fold, HoldsKey, NextReservations, PreviousReservations, Apply,
      VersionsMatch, ReserveDecided, ReleaseDecided, Released;
    var now := NextReservations(fields, plan.existing, plan.payload, plan.name).value;
    if plan.name != "" {
      if r in now {
        SkipMeansHeld(fields, run, plan, r);
      } else if r in PreviousReservations(fields, plan.existing, plan.payload, plan.name).value {
        GivenUpIsReleased(fields, run, plan, r);
      }
    }
  }

  lemma {:induction false} OwnDocumentAfter(fields: seq<string>, run: Run, plan: Plan, next: Store, field: string, key: string)
    requires Ready(fields, run, plan)
    requires next == AppendEach(run[|run| - 1], AtomicCommitEntries(plan))
    ensures OwnerIsHolder(fields, next, plan.name, field, key)
  {
    var last := run[|run| - 1];
    OwnerAfter(fields, run, plan, next, field, key);
    ConsistentOwner(fields, last, plan.name, field, key);
    WritesSlotMeans(fields, run, plan, field, key);
    HoldsAfter(fields, run, plan, next, field, key);
    PlannedReservations(fields, run, plan);
    hide IsRun, Ready, Consistent, AtomicCommitEntries, AppendEach, Fold, HoldsKey, NextReservations, PreviousReservations;
    if !WritesSlot(plan.reserve, field, key) && !WritesSlot(plan.release, field, key) {
      UnwrittenValue(fields, run, plan, next, field, key);
    }
  }

  lemma {:induction false} CommitKeepsConsistent(fields: seq<string>, run: Run, plan: Plan, next: Store)
    requires Ready(fields, run, plan)
    requires next == AppendEach(run[|run| - 1], AtomicCommitEntries(plan))
    ensures Consistent(fields, next)
  {
    hide IsRun, Ready, AtomicCommitEntries, AppendEach, Fold, OwnerIsHolder, OpensWithCreation, Owner, NeverDeleted;
    forall s: Stream
      ensures OpensWithCreation(EventsOf(next, s))
    {
      if s == DocumentStream(plan.name) {
        DocumentAfter(fields, run, plan, next);
      } else if s.UniqueValueStream? {
        OwnerAfter(fields, run, plan, next, s.field, s.key);
      } else {
        OtherStreamAfter(fields, run, plan, next, s);
      }
    }
    forall field, key
      ensures NeverDeleted(FoldOf(next, UniqueValueStream(field, key)))
    {
      OwnerAfter(fields, run, plan, next, field, key);
    }
    forall name, field, key
      ensures OwnerIsHolder(fields, next, name, field, key)
    {
      if name == plan.name {
        OwnDocumentAfter(fields, run, plan, next, field, key);
      } else {
        OtherDocumentAfter(fields, run, plan, next, name, field, key);
      }
    }
  }

  lemma {:induction false} RunPrefix(fields: seq<string>, run: Run, n: nat)
    requires IsRun(fields, run) && 0 < n <= |run|
    ensures IsRun(fields, run[..n])
  {
    forall m | 0 < m < n
      ensures StepAt(fields, run[..n], m)
    {
      assert StepAt(fields, run, m);
      assert run[..n][..m] == run[..m];
    }
  }

  /** In every state of every run a value's recorded owner is the named live document that holds it. */
  lemma {:induction false} ReachableIsConsistent(fields: seq<string>, run: Run, n: nat)
    requires IsRun(fields, run) && n < |run|
    ensures Consistent(fields, run[n])
    decreases n
  {
    hide Planned, AtomicCommitEntries, OwnerIsHolder, Consistent, AppendEach, VersionsMatch;
    if n == 0 {
      EmptyIsConsistent(fields);
    } else {
      RunPrefix(fields, run, n);
      forall t | 0 <= t < n ensures Consistent(fields, run[..n][t]) {
        ReachableIsConsistent(fields, run, t);
      }
      assert StepAt(fields, run, n);
      var plan :| Commits(fields, run[..n], plan, run[n]);
      CommitKeepsConsistent(fields, run[..n], plan, run[n]);
    }
  }

  lemma EmptyIsConsistent(fields: seq<string>)
    ensures Consistent(fields, map[])
  {
  }

  /** Two live documents never share the value of a unique field, unless the name of one of them is empty. */
  lemma {:induction false} UniqueAmongNamed(fields: seq<string>, run: Run, n: nat, a: string, b: string, field: string, key: string)
    requires IsRun(fields, run) && n < |run|
    requires Holds(fields, run[n], a, field, key) && Holds(fields, run[n], b, field, key)
    ensures a == b || a == "" || b == ""
  {
    ReachableIsConsistent(fields, run, n);
    assert OwnerIsHolder(fields, run[n], a, field, key);
    assert OwnerIsHolder(fields, run[n], b, field, key);
  }

  /** A command refused for a conflict did see another named live document holding the value. */
  lemma {:induction false} ConflictIsTrue(fields: seq<string>, run: Run, slotAt: nat, ownerAt: nat, r: Reservation)
    requires IsRun(fields, run) && slotAt <= ownerAt < |run| && r.field in fields
    requires DecisionAt(run[slotAt], run[ownerAt], r) == Ok(ConflictFound)
    ensures exists owner :: owner != r.documentName && owner != "" && Holds(fields, run[ownerAt], owner, r.field, r.key)
  {
    var owner := ActiveOwner(FoldOf(run[slotAt], r.Stream())).value;
    assert Holds(fields, run[ownerAt], owner, r.field, r.key);
  }
}
