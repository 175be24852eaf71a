/**
The delivery outbox service over the shared stream of one tenant. Between two awaits of an
operation other writers may commit; `Interfere` stands for them.
*/
module OutboxService {
  import opened Results
  import opened OutboxEvents
  import opened OutboxProtocol
  import opened OutboxReads
  import opened OutboxClaims

  const MAX_CLAIM_LIMIT := 100

  /** What a plan callback hands to the append loop. */
  datatype Plan = Plan(events: seq<NewEvent>, recordIds: seq<string>)

  function SelectedRecords(records: map<string, Record>, ids: seq<string>): seq<Record> {
    if ids == [] then []
    else
      var rest := SelectedRecords(records, ids[..|ids| - 1]);
      var id := ids[|ids| - 1];
      if id in records then rest + [records[id]] else rest
  }

  lemma {:induction false} ByNameMember(log: Log, name: string, e: Event)
    requires e in ByName(log, name)
    ensures DocumentName(e) == name
    ensures exists k | 0 <= k < |log| :: log[k] == e
  {
    var last := log[|log| - 1];
    if !(DocumentName(last) == name && e == last) {
      ByNameMember(log[..|log| - 1], name, e);
      var k :| 0 <= k < |log| - 1 && log[..|log| - 1][k] == e;
      assert log[k] == e;
    }
  }

  /** The newest of the events under a name, and nothing of that name after it. */
  lemma {:induction false} NewestByName(log: Log, name: string)
    ensures ByName(log, name) == [] ==> forall i | 0 <= i < |log| :: DocumentName(log[i]) != name
    ensures ByName(log, name) != [] ==>
              exists k | 0 <= k < |log| :: log[k] == ByName(log, name)[|ByName(log, name)| - 1] && DocumentName(log[k]) == name
                && forall i | k < i < |log| :: DocumentName(log[i]) != name
  {
    if log != [] {
      var front := log[..|log| - 1];
      NewestByName(front, name);
      if DocumentName(log[|log| - 1]) == name {
        assert log[|log| - 1] == ByName(log, name)[|ByName(log, name)| - 1];
      } else if ByName(front, name) != [] {
        var k :| 0 <= k < |front| && front[k] == ByName(front, name)[|ByName(front, name)| - 1] && DocumentName(front[k]) == name
          && forall i | k < i < |front| :: DocumentName(front[i]) != name;
        assert log[k] == front[k];
        forall i | k < i < |log| ensures DocumentName(log[i]) != name {
          assert i < |front| ==> log[i] == front[i];
        }
      } else {
        forall i | 0 <= i < |log| ensures DocumentName(log[i]) != name {
          assert i < |front| ==> log[i] == front[i];
        }
      }
    }
  }

  class DocumentDeliveryOutboxService {
    var log: Log
    /** How often this service has committed. */
    ghost var commits: nat
    /** Whether nobody else commits. */
    ghost const quiet: bool

    ghost predicate Valid()
      reads this
    {
      Reachable(log)
    }

    /** Since the stream was `before`, others may have committed, but this service has not. */
    ghost predicate OnlyRead(before: Log, own: nat)
      reads this
    {
      before <= log && commits == own && (quiet ==> log == before)
    }

    constructor (ghost quiet: bool)
      ensures Valid() && log == [] && this.quiet == quiet
    {
      log, commits := [], 0;
      this.quiet := quiet;
      new;
      assert IsRun([[]]);
    }

    // ----- The store ----------------------------------------------------------

    /** Other writers commit any number of their own operations; callers rely on this contract alone. */
    method Interfere()
      requires Valid()
      modifies this
      ensures Valid() && OnlyRead(old(log), old(commits))
    {
    }

    method ReadDocumentEvents(name: string) returns (events: Log)
      requires Valid()
      modifies this
      ensures Valid() && OnlyRead(old(log), old(commits))
      ensures events == ByName(log, name)
    {
      Interfere();
      events := ByName(log, name);
    }

    method ReadStream(minSequence: nat) returns (events: Log)
      requires Valid() && 1 <= minSequence <= |log| + 1
      modifies this
      ensures Valid() && OnlyRead(old(log), old(commits))
      ensures events == log[minSequence - 1..]
    {
      Interfere();
      events := log[minSequence - 1..];
    }

    /** Compare-and-swap append: everything at the expected version, or nothing. */
    method Append(expectedVersion: nat, events: seq<NewEvent>, ghost command: Command, ghost attempt: nat)
      returns (saved: Option<Log>)
      requires Valid() && expectedVersion <= |log|
      requires 1 <= attempt <= MAX_APPEND_ATTEMPTS && events != []
      requires |log| == expectedVersion ==> Planned(command, log, attempt, events)
      modifies this
      ensures Valid() && old(log) <= log
      ensures commits == old(commits) + if saved.Some? then 1 else 0
      ensures quiet ==> (saved.Some? <==> |old(log)| == expectedVersion)
      ensures quiet && saved.None? ==> log == old(log)
      ensures saved.Some? ==>
        && |old(log)| == expectedVersion
        && saved.value == Stamp(expectedVersion, events)
        && log == old(log) + saved.value
        && Commit(old(log), command, attempt, events, log)
    {
      Interfere();
      if |log| != expectedVersion {
        return None;
      }
      assert log == old(log);
      saved := Some(Stamp(expectedVersion, events));
      ghost var before := log;
      log := log + saved.value;
      commits := commits + 1;
      assert Commit(before, command, attempt, events, log);
      ReachableStep(before, log);
    }

    // ----- Reading the working set ----------------------------------------------

    /** The newest compaction checkpoint, found under its own document name. */
    method LastCheckpoint() returns (checkpoint: Option<Payload>)
      requires Valid()
      modifies this
      ensures Valid() && OnlyRead(old(log), old(commits))
      ensures checkpoint.Some? ==>
        && checkpoint.value.Checkpointed?
        && checkpoint.value.upToSequence < |log|
        && log[checkpoint.value.upToSequence].payload == checkpoint.value
      ensures forall i | (if checkpoint.Some? then checkpoint.value.upToSequence + 1 else 0) <= i < |log| ::
                !log[i].payload.Checkpointed?
    {
      var events := ReadDocumentEvents(CHECKPOINT_NAME);
      NewestByName(log, CHECKPOINT_NAME);
      if events == [] {
        return None;
      }
      var newest := events[|events| - 1];
      ghost var k :| 0 <= k < |log| && log[k] == newest && DocumentName(log[k]) == CHECKPOINT_NAME
        && forall i | k < i < |log| :: DocumentName(log[i]) != CHECKPOINT_NAME;
      ReachableIsWellFormed(log);
      assert newest.payload.Checkpointed?;
      assert CheckpointSound(log, k);
      checkpoint := Some(newest.payload);
    }

    /** Reads the carried records' histories, one read after another. */
    method ReadHistories(ids: set<string>) returns (histories: map<string, Log>, ghost seen: map<string, Log>)
      requires Valid()
      modifies this
      ensures Valid() && OnlyRead(old(log), old(commits))
      ensures histories.Keys == seen.Keys == ids
      ensures forall id | id in ids :: old(log) <= seen[id] <= log && histories[id] == ByName(seen[id], id)
    {
      histories, seen := map[], map[];
      var unread := ids;
      while unread != {}
        invariant Valid() && OnlyRead(old(log), old(commits))
        invariant unread <= ids && seen.Keys == histories.Keys == ids - unread
        invariant forall id | id in seen :: old(log) <= seen[id] && seen[id] <= log
        invariant forall id | id in seen :: histories[id] == ByName(seen[id], id)
        decreases |unread|
      {
        var outboxId :| outboxId in unread;
        var events := ReadDocumentEvents(outboxId);
        histories := histories[outboxId := events];
        seen := seen[outboxId := log];
        unread := unread - {outboxId};
      }
    }

    /** Each carried record's state at the checkpoint, without those that have finished since. */
    method CarriedOverRecords(checkpoint: Payload) returns (records: Option<map<string, Record>>, ghost seen: map<string, Log>)
      requires Valid() && checkpoint.Checkpointed?
      modifies this
      ensures Valid() && OnlyRead(old(log), old(commits))
      ensures forall id | id in seen :: old(log) <= seen[id] <= log
      ensures records.Some? ==> IsCarriedOver(checkpoint, seen, records.value)
      ensures records.None? ==>
                exists id | id in seen :: RecordFold(id, UpTo(ByName(seen[id], id), checkpoint.upToSequence)) == None
    {
      var histories: map<string, Log>;
      histories, seen := ReadHistories(checkpoint.carryOver);
      records := RehydrateAll(checkpoint.upToSequence, histories);
      if records.None? {
        ghost var id :| id in histories && RecordFold(id, UpTo(histories[id], checkpoint.upToSequence)) == None;
        assert id in seen && RecordFold(id, UpTo(ByName(seen[id], id), checkpoint.upToSequence)) == None;
      } else {
        forall id | id in seen
          ensures IsCarried(checkpoint.upToSequence, id, ByName(seen[id], id), Lookup(records.value, id))
        {
          assert histories[id] == ByName(seen[id], id);
        }
      }
    }

    static method RehydrateAll(upTo: nat, histories: map<string, Log>) returns (records: Option<map<string, Record>>)
      ensures records.Some? ==> records.value.Keys <= histories.Keys
      ensures records.Some? ==>
        forall id | id in histories :: IsCarried(upTo, id, histories[id], Lookup(records.value, id))
      ensures records.None? ==> exists id | id in histories :: RecordFold(id, UpTo(histories[id], upTo)) == None
    {
      var carried: map<string, Record> := map[];
      var rest := histories.Keys;
      while rest != {}
        invariant rest <= histories.Keys
        invariant carried.Keys <= histories.Keys - rest
        invariant forall id | id in histories.Keys - rest :: IsCarried(upTo, id, histories[id], Lookup(carried, id))
        decreases |rest|
      {
        var outboxId :| outboxId in rest;
        var atCheckpoint := FoldDocumentDeliveryOutboxRecordFrom(None, outboxId, UpTo(histories[outboxId], upTo));
        if atCheckpoint.None? {
          return None;
        }
        var current := FoldDocumentDeliveryOutboxRecordFrom(atCheckpoint, outboxId, Above(histories[outboxId], upTo));
        ghost var before := carried;
        if current.Some? && !current.value.status.IsDelivered? {
          carried := carried[outboxId := atCheckpoint.value];
        }
        forall id | id in histories.Keys - rest
          ensures IsCarried(upTo, id, histories[id], Lookup(carried, id))
        {
          assert Lookup(carried, id) == Lookup(before, id);
        }
        assert IsCarried(upTo, outboxId, histories[outboxId], Lookup(carried, outboxId));
        rest := rest - {outboxId};
      }
      records := Some(carried);
    }

    /** The in-flight working set: whatever was committed between its reads, the fold of the whole stream at its last one. */
    method State() returns (state: WorkingSet)
      requires Valid()
      modifies this
      ensures Valid() && OnlyRead(old(log), old(commits))
      ensures state == Fold(log) && state.version == |log|
    {
      var checkpoint := LastCheckpoint();
      if checkpoint.Some? {
        ghost var atCheckpoint := log;
        var upTo := checkpoint.value.upToSequence;
        ghost var seen: map<string, Log>;
        var carried: Option<map<string, Record>>;
        carried, seen := CarriedOverRecords(checkpoint.value);
        if carried.Some? {
          var tail := ReadStream(upTo + 1);
          assert atCheckpoint[upTo] == log[upTo];
          ResumedFold(log, upTo, seen, carried.value);
          state := FoldDocumentDeliveryOutboxFrom(WorkingSet(upTo, carried.value), tail);
          return;
        }
      }
      var all := ReadStream(1);
      assert all == log;
      HeadOfReachable(log);
      state := FoldDocumentDeliveryOutboxFrom(EMPTY, all);
    }

    /** One record in whatever state its own events describe, delivered included. */
    method GetRecord(outboxId: string) returns (record: Option<Record>)
      requires Valid()
      modifies this
      ensures Valid() && OnlyRead(old(log), old(commits))
      ensures outboxId != CHECKPOINT_NAME ==> record == RecordFold(outboxId, log)
      ensures record.Some? ==> outboxId != CHECKPOINT_NAME
    {
      var events := ReadDocumentEvents(outboxId);
      record := FoldDocumentDeliveryOutboxRecordFrom(None, outboxId, events);
      if outboxId != CHECKPOINT_NAME {
        OwnEventsMakeRecord(None, outboxId, log);
      } else {
        ReachableIsWellFormed(log);
        forall e | e in events ensures e.payload.Checkpointed? {
          ByNameMember(log, CHECKPOINT_NAME, e);
        }
        CheckpointsMakeNoRecord(outboxId, events);
      }
    }

    static lemma {:induction false} CheckpointsMakeNoRecord(id: string, events: Log)
      requires forall e: Event | e in events :: e.payload.Checkpointed?
      ensures RecordFold(id, events) == None
    {
      if events != [] {
        CheckpointsMakeNoRecord(id, events[..|events| - 1]);
      }
    }

    // ----- Planning -------------------------------------------------------------

    /** Reads every target's own events and plans the ones that have none. */
    method PlanEnqueueing(source: Source, targets: seq<Target>, at: Time, version: nat) returns (plan: Plan)
      requires Valid() && version <= |log|
      modifies this
      ensures Valid() && OnlyRead(old(log), old(commits))
      ensures |log| == version ==> plan.events == PlanEnqueue(log, source, targets, at)
      ensures plan.events == [] ==> AllEnqueued(log, source, targets)
    {
      var events: seq<NewEvent>, recordIds: seq<string> := [], [];
      for i := 0 to |targets|
        invariant Valid() && OnlyRead(old(log), old(commits))
        invariant |log| == version ==> events == PlanEnqueue(log, source, targets[..i], at)
        invariant events == [] ==> AllEnqueued(log, source, targets[..i])
      {
        ghost var before := log;
        var outboxId := RecordId(source.eventId, targets[i]);
        var existing := ReadDocumentEvents(outboxId);
        assert targets[..i + 1][..i] == targets[..i];
        assert |log| == version ==> log == before;
        if events == [] && existing != [] {
          AllEnqueuedLater(before, log, source, targets, i);
        }
        if existing == [] {
          events := events + [NewEvent(at, Enqueued(outboxId, targets[i], source))];
        }
        recordIds := recordIds + [outboxId];
      }
      assert targets[..|targets|] == targets;
      plan := Plan(events, recordIds);
    }

    method MakePlan(command: Command, state: WorkingSet, attempt: nat) returns (plan: Result<Plan>)
      requires Valid() && state == Fold(log) && state.version == |log|
      modifies this
      ensures Valid() && OnlyRead(old(log), old(commits))
      ensures plan.Ok? && plan.value.events != [] && |log| == state.version ==>
        Planned(command, log, attempt, plan.value.events)
      ensures plan.Ok? && plan.value.events == [] ==> NothingToCommit(command, log)
      ensures plan.Ok? ==> PlanFits(command, state.records, plan.value)
      ensures quiet ==> (plan.Ok? <==> Accepts(command, old(log)))
      ensures AlreadyDelivered(command, old(log)) ==> plan.Ok? && plan.value.events == []
    {
      match command {
        case Enqueue(source, targets, at) =>
          var p := PlanEnqueueing(source, Unique(targets), at, state.version);
          UniqueKeepsTargets(targets);
          plan := Ok(p);
        case Claim(claimId, now, limit) =>
          ReachableIsWellFormed(log);
          WorkingSetIsKeyedById(log);
          ClaimSelectionIsEarliest(state.records, now, limit);
          var ids := ClaimSelection(state.records, now, limit);
          plan := Ok(Plan(ClaimEvents(ids, claimId, now), ids));
        case MarkDelivered(outboxId, claimId, at) =>
          if outboxId !in state.records {
            var record := GetRecord(outboxId);
            AlreadyDeliveredLater(command, old(log), log);
            if record.Some? && record.value.status.IsDelivered? {
              return Ok(Plan([], []));
            }
            return Err(NotFound);
          }
          ReachableIsWellFormed(log);
          FoldsAgree(log, outboxId);
          if !HeldBy(state.records, outboxId, claimId) {
            return Err(Error.Conflict);
          }
          plan := Ok(Plan(PlannedCheckpoint(state, attempt, at) + [NewEvent(at, Delivered(outboxId, claimId))], [outboxId]));
        case MarkFailed(outboxId, claimId, error, retryAt, at) =>
          if outboxId !in state.records {
            return Err(NotFound);
          }
          if !HeldBy(state.records, outboxId, claimId) {
            return Err(Error.Conflict);
          }
          plan := Ok(Plan([NewEvent(at, Failed(outboxId, claimId, error, retryAt))], [outboxId]));
      }
    }

    // ----- The append loop --------------------------------------------------------

    /** One attempt: plan against a fresh working set, append under its version. None is a lost race. */
    method TryOnce(command: Command, i: nat)
      returns (r: Option<Result<seq<Record>>>, ghost base: Log, ghost plan: Plan)
      requires Valid() && 1 <= i <= MAX_APPEND_ATTEMPTS
      modifies this
      ensures Valid() && old(log) <= log
      ensures r.Some? ==> Outcome(command, old(log), base, i, plan, log, r.value)
      ensures commits == old(commits) + if r.Some? && r.value.Ok? && plan.events != [] then 1 else 0
      ensures quiet ==> r.Some? && base == old(log) && (r.value.Ok? <==> Accepts(command, old(log)))
      ensures quiet && r.Some? && (r.value.Err? || plan.events == []) ==> log == old(log)
      ensures AlreadyDelivered(command, old(log)) ==> r.Some?
    {
      plan := Plan([], []);
      var state := State();
      base := log;
      AlreadyDeliveredLater(command, old(log), log);
      var planned := MakePlan(command, state, i);
      if planned.Err? {
        return Some(Err(planned.error)), base, plan;
      }
      plan := planned.value;
      if planned.value.events == [] {
        r := Some(Ok(SelectedRecords(state.records, planned.value.recordIds)));
        return;
      }
      ghost var unmoved := log;
      var saved := Append(state.version, planned.value.events, command, i);
      if saved.None? {
        return None, base, plan;
      }
      assert unmoved == base;
      FoldFromConcat(EMPTY, base, saved.value);
      var next := FoldDocumentDeliveryOutboxFrom(state, saved.value);
      r := Some(Ok(SelectedRecords(next.records, planned.value.recordIds)));
    }

    /**
    Up to five attempts. A call commits at most once, and what it commits is one atomic step of
    the protocol; losing every race is a conflict.
    */
    method AppendWithRetry(command: Command)
      returns (r: Result<seq<Record>>, ghost base: Log, ghost plan: Plan, ghost attempt: nat)
      requires Valid()
      modifies this
      ensures Valid() && old(log) <= log
      ensures attempt <= MAX_APPEND_ATTEMPTS
      ensures Outcome(command, old(log), base, attempt, plan, log, r) || r == Err(Error.Conflict)
      ensures commits == old(commits) + if r.Ok? && plan.events != [] then 1 else 0
      ensures quiet ==> base == old(log) && (r.Ok? <==> Accepts(command, old(log)))
      ensures quiet && (r.Err? || plan.events == []) ==> log == old(log)
      ensures AlreadyDelivered(command, old(log)) ==> r.Ok? && plan.events == []
    {
      base, plan, attempt := log, Plan([], []), 0;
      for i := 1 to MAX_APPEND_ATTEMPTS + 1
        invariant Valid() && old(log) <= log
        invariant attempt == i - 1 && commits == old(commits)
        invariant quiet || AlreadyDelivered(command, old(log)) ==> i == 1 && (quiet ==> log == old(log))
      {
        attempt := i;
        AlreadyDeliveredLater(command, old(log), log);
        var outcome: Option<Result<seq<Record>>>;
        outcome, base, plan := TryOnce(command, i);
        if outcome.Some? {
          r := outcome.value;
          return;
        }
      }
      r := Err(Error.Conflict);
    }

    // ----- Operations ---------------------------------------------------------------

    /** Afterwards every requested target has been enqueued, by this call or an earlier one. */
    method EnqueueFromDomainEvent(source: Source, targets: seq<Target>, at: Time) returns (r: Result<seq<Record>>)
      requires Valid()
      modifies this
      ensures Valid() && old(log) <= log
      ensures r.Ok? ==> AllEnqueued(log, source, targets)
      ensures commits <= old(commits) + 1 && (r.Err? ==> commits == old(commits))
      ensures quiet ==> r.Ok? && log == old(log) + Stamp(|old(log)|, PlanEnqueue(old(log), source, Unique(targets), at))
    {
      if targets == [] {
        return Ok([]);
      }
      ghost var base: Log, plan: Plan, attempt: nat;
      r, base, plan, attempt := AppendWithRetry(Enqueue(source, targets, at));
      if r.Ok? && plan.events != [] {
        UniqueKeepsTargets(targets);
        forall t | t in targets ensures ByName(log, RecordId(source.eventId, t)) != [] {
          EnqueuedAfterwards(base, source, Unique(targets), at, t);
        }
      }
      if quiet && plan.events == [] {
        UniqueKeepsTargets(targets);
        NothingPlanned(log, source, Unique(targets), at);
      }
    }

    /** Claims the earliest claimable records of the stream as it was when the claim was planned, and returns just these. */
    method ClaimPending(claimId: string, now: Time, limit: int) returns (r: Result<seq<Record>>, ghost base: Log)
      requires Valid()
      modifies this
      ensures Valid() && old(log) <= log
      ensures !(1 <= limit <= MAX_CLAIM_LIMIT) ==> r == Err(BadRequest) && log == old(log)
      ensures commits <= old(commits) + 1 && (r.Err? ==> commits == old(commits))
      ensures quiet ==> base == old(log) && (r.Ok? <==> 1 <= limit <= MAX_CLAIM_LIMIT)
      ensures r.Ok? ==> old(log) <= base <= log && limit >= 0 && KeyedById(Fold(base).records)
                        && AreClaimed(Fold(log).records, ClaimSelection(Fold(base).records, now, limit), claimId, r.value)
    {
      base := log;
      if limit <= 0 || limit > MAX_CLAIM_LIMIT {
        return Err(BadRequest), base;
      }
      ghost var plan: Plan, attempt: nat;
      r, base, plan, attempt := AppendWithRetry(Claim(claimId, now, limit));
      if r.Ok? {
        ClaimCommitHolds(base, Claim(claimId, now, limit), attempt, plan.recordIds, log);
      }
    }

    /** Delivering twice succeeds twice and commits once; the record returned is the delivered one. */
    method Deliver(outboxId: string, claimId: string, at: Time) returns (r: Result<Record>)
      requires Valid()
      modifies this
      ensures Valid() && old(log) <= log
      ensures r.Ok? ==> r.value.status.IsDelivered? && Some(r.value) == RecordFold(outboxId, log)
      ensures AlreadyDelivered(MarkDelivered(outboxId, claimId, at), old(log)) ==>
        r == Ok(RecordFold(outboxId, old(log)).value) && commits == old(commits)
      ensures commits <= old(commits) + 1 && (r.Err? ==> commits == old(commits))
      ensures quiet ==> (r.Ok? <==> Accepts(MarkDelivered(outboxId, claimId, at), old(log)))
      ensures quiet && r.Err? ==> log == old(log)
    {
      ghost var base: Log, plan: Plan, attempt: nat;
      var records: Result<seq<Record>>;
      records, base, plan, attempt := AppendWithRetry(MarkDelivered(outboxId, claimId, at));
      if records.Err? {
        return Err(records.error);
      }
      if plan.events != [] {
        DeliveryCommitDelivers(base, MarkDelivered(outboxId, claimId, at), attempt, plan.events, log);
      }
      ghost var done := log;
      // The record left the working set in the commit that delivered it, so it is read back from its own events.
      var record := GetRecord(outboxId);
      AlreadyDeliveredLater(MarkDelivered(outboxId, claimId, at), done, log);
      AlreadyDeliveredLater(MarkDelivered(outboxId, claimId, at), old(log), log);
      r := Ok(record.value);
    }

    /** The failure is recorded under the claim that held the record. `error` has been trimmed. */
    method Fail(outboxId: string, claimId: string, error: string, retryAt: Option<Time>, at: Time)
      returns (r: Result<Record>)
      requires Valid()
      modifies this
      ensures Valid() && old(log) <= log
      ensures error == "" ==> r == Err(BadRequest) && log == old(log)
      ensures r.Ok? ==> r.value.status.IsFailed? && r.value.error == Some(error) && r.value.claimId == Some(claimId)
      ensures r.Ok? ==> Lookup(Fold(log).records, outboxId) == Some(r.value)
      ensures commits == old(commits) + if r.Ok? then 1 else 0
      ensures quiet ==> (r.Ok? <==> error != "" && HeldBy(Fold(old(log)).records, outboxId, claimId))
      ensures quiet && r.Err? ==> log == old(log)
    {
      if error == "" {
        return Err(BadRequest);
      }
      ghost var base: Log, plan: Plan, attempt: nat;
      var records: Result<seq<Record>>;
      records, base, plan, attempt := AppendWithRetry(MarkFailed(outboxId, claimId, error, retryAt, at));
      if records.Err? {
        return Err(records.error);
      }
      var e := Event(|base| + 1, at, Failed(outboxId, claimId, error, retryAt));
      assert log == base + [e];
      FoldSnoc(base, e);
      assert SelectedRecords(Fold(log).records, []) == [];
      assert records.value == [Fold(log).records[outboxId]];
      r := Ok(records.value[0]);
    }
  }

  // ----- What the operations rely on -------------------------------------------------

  ghost predicate AllEnqueued(log: Log, source: Source, targets: seq<Target>) {
    forall t | t in targets :: ByName(log, RecordId(source.eventId, t)) != []
  }

  lemma {:induction false} AllEnqueuedLater(log: Log, later: Log, source: Source, targets: seq<Target>, i: nat)
    requires i < |targets| && AllEnqueued(log, source, targets[..i]) && log <= later
    requires ByName(later, RecordId(source.eventId, targets[i])) != []
    ensures AllEnqueued(later, source, targets[..i + 1])
  {
    forall t | t in targets[..i + 1] ensures ByName(later, RecordId(source.eventId, t)) != [] {
      ByNamePrefix(log, later, RecordId(source.eventId, t));
      assert t in targets[..i] || t == targets[i];
    }
  }

  ghost predicate AlreadyDelivered(command: Command, log: Log) {
    && command.MarkDelivered?
    && command.outboxId != CHECKPOINT_NAME
    && RecordFold(command.outboxId, log).Some?
    && RecordFold(command.outboxId, log).value.status.IsDelivered?
  }

  lemma {:induction false} AlreadyDeliveredLater(command: Command, log: Log, later: Log)
    requires Reachable(later) && log <= later
    ensures AlreadyDelivered(command, log) ==>
      AlreadyDelivered(command, later) && RecordFold(command.outboxId, later) == RecordFold(command.outboxId, log)
  {
    if AlreadyDelivered(command, log) {
      ReachableIsWellFormed(later);
      DeliveredIsFinal(log, later, command.outboxId);
    }
  }

  lemma {:induction false} HeadOfReachable(log: Log)
    requires Reachable(log)
    ensures Fold(log).version == |log|
  {
    ReachableIsWellFormed(log);
    VersionIsHead(EMPTY, log, 0);
    assert log[0..] == log;
  }

  lemma {:induction false} ResumedFold(log: Log, k: nat, seen: map<string, Log>, records: map<string, Record>)
    requires Reachable(log) && k < |log| && log[k].payload.Checkpointed? && log[k].payload.upToSequence == k
    requires forall id | id in seen :: k < |seen[id]| && seen[id] <= log
    requires IsCarriedOver(log[k].payload, seen, records)
    ensures FoldFrom(WorkingSet(k, records), log[k..]) == Fold(log)
    ensures Fold(log).version == |log|
  {
    ReachableIsWellFormed(log);
    TornReadIsFullFold(log, k, seen, records);
    HeadOfReachable(log);
  }

  /** Why a plan may commit nothing and still succeed. */
  ghost predicate NothingToCommit(command: Command, log: Log) {
    match command
    case Enqueue(source, targets, _) => AllEnqueued(log, source, targets)
    case Claim(_, _, _) => true
    case MarkDelivered(_, _, _) => AlreadyDelivered(command, log)
    case MarkFailed(_, _, _, _, _) => false
  }

  /** The guards of a command, on the stream it finds. */
  ghost predicate Accepts(command: Command, log: Log) {
    match command
    case Enqueue(_, _, _) => true
    case Claim(_, _, _) => true
    case MarkDelivered(outboxId, claimId, _) =>
      HeldBy(Fold(log).records, outboxId, claimId) || AlreadyDelivered(command, log)
    case MarkFailed(outboxId, claimId, _, _, _) => HeldBy(Fold(log).records, outboxId, claimId)
  }

  /** The records are those with the ids, in order, each held by the claim. */
  predicate AreClaimed(records: map<string, Record>, ids: seq<string>, claimId: string, claimed: seq<Record>) {
    && |claimed| == |ids|
    && forall i | 0 <= i < |ids| :: HeldBy(records, ids[i], claimId) && claimed[i] == records[ids[i]]
  }

  lemma {:induction false} SelectedAll(records: map<string, Record>, ids: seq<string>)
    requires forall id | id in ids :: id in records
    ensures |SelectedRecords(records, ids)| == |ids|
    ensures forall i | 0 <= i < |ids| :: SelectedRecords(records, ids)[i] == records[ids[i]]
  {
    if ids != [] {
      SelectedAll(records, ids[..|ids| - 1]);
    }
  }

  lemma {:induction false} NothingPlanned(log: Log, source: Source, targets: seq<Target>, at: Time)
    requires AllEnqueued(log, source, targets)
    ensures PlanEnqueue(log, source, targets, at) == []
  {
    if targets != [] {
      NothingPlanned(log, source, targets[..|targets| - 1], at);
      assert targets[|targets| - 1] in targets;
    }
  }

  /** What one attempt that was not a lost race has done to the stream, and what it returns. */
  ghost predicate Outcome(command: Command, before: Log, base: Log, attempt: nat, plan: Plan, after: Log,
                          r: Result<seq<Record>>) {
    && (r.Ok? ==> before <= base <= after && PlanFits(command, Fold(base).records, plan))
    && (r.Ok? && plan.events != [] ==>
          && Commit(base, command, attempt, plan.events, after)
          && r.value == SelectedRecords(Fold(after).records, plan.recordIds))
    && (r.Ok? && plan.events == [] ==>
          && NothingToCommit(command, after)
          && r.value == SelectedRecords(Fold(base).records, plan.recordIds))
    && (AlreadyDelivered(command, before) ==> r.Ok? && plan.events == [])
  }

  /** The record ids a plan reports are those its events are about. */
  ghost predicate PlanFits(command: Command, records: map<string, Record>, plan: Plan) {
    match command
    case Enqueue(_, _, _) => true
    case Claim(claimId, now, limit) =>
      KeyedById(records) && plan.recordIds == ClaimSelection(records, now, limit) && plan.events == ClaimEvents(plan.recordIds, claimId, now)
    case MarkDelivered(outboxId, _, _) => plan.recordIds == if plan.events == [] then [] else [outboxId]
    case MarkFailed(outboxId, _, _, _, _) => plan.events != [] && plan.recordIds == [outboxId]
  }

  lemma {:induction false} EnqueuedAfterwards(log: Log, source: Source, targets: seq<Target>, at: Time, t: Target)
    requires t in targets
    ensures ByName(log + Stamp(|log|, PlanEnqueue(log, source, targets, at)), RecordId(source.eventId, t)) != []
  {
    var id := RecordId(source.eventId, t);
    var planned := PlanEnqueue(log, source, targets, at);
    ByNamePrefix(log, log + Stamp(|log|, planned), id);
    if ByName(log, id) == [] {
      PlansMissing(log, source, targets, at, t);
      var i :| 0 <= i < |planned| && planned[i] == NewEvent(at, Enqueued(id, t, source));
      RecordIdIsNotCheckpointName(source.eventId, t);
      var all := log + Stamp(|log|, planned);
      assert all[|log| + i].payload == planned[i].payload;
      OwnPlace(all, |log| + i);
    }
  }

  lemma {:induction false} PlansMissing(log: Log, source: Source, targets: seq<Target>, at: Time, t: Target)
    requires t in targets && ByName(log, RecordId(source.eventId, t)) == []
    ensures NewEvent(at, Enqueued(RecordId(source.eventId, t), t, source)) in PlanEnqueue(log, source, targets, at)
  {
    var front := targets[..|targets| - 1];
    if t != targets[|targets| - 1] {
      assert t in front;
      PlansMissing(log, source, front, at, t);
    }
  }

  lemma {:induction false} ClaimedAfterwards(base: Log, ids: seq<string>, claimId: string, now: Time, i: nat)
    requires i < |ids|
    requires forall j | 0 <= j < |ids| :: Waiting(Fold(base).records, ids[j])
    requires forall j, k | 0 <= j < k < |ids| :: ids[j] != ids[k]
    ensures HeldBy(Fold(base + Stamp(|base|, ClaimEvents(ids, claimId, now))).records, ids[i], claimId)
  {
    var front, id := ids[..|ids| - 1], ids[|ids| - 1];
    assert ids == front + [id];
    var rest, news := ClaimEvents(front, claimId, now), NewEvent(now, Claimed(id, claimId));
    ClaimAllowed(base, front, claimId, now);
    assert ClaimEvents(ids, claimId, now) == rest + [news];
    StampSnoc(base, rest, news);
    var middle, e := base + Stamp(|base|, rest), Stamped(|base| + |rest|, news);
    assert Waiting(Fold(base).records, ids[|ids| - 1]);
    ClaimOneMore(base, middle, front, id, e);
    if i < |ids| - 1 {
      ClaimedAfterwards(base, front, claimId, now, i);
      FoldSnoc(middle, e);
    }
  }

  /** Every selected record is held by the claim once the claim is committed. */
  lemma {:induction false} ClaimCommitHolds(base: Log, command: Command, attempt: nat, ids: seq<string>, log: Log)
    requires Reachable(log) && command.Claim? && base <= log
    requires KeyedById(Fold(base).records) && ids == ClaimSelection(Fold(base).records, command.now, command.limit)
    requires ids != [] ==> Commit(base, command, attempt, ClaimEvents(ids, command.claimId, command.now), log)
    ensures AreClaimed(Fold(log).records, ids, command.claimId, SelectedRecords(Fold(log).records, ids))
    ensures AreClaimed(Fold(log).records, [], command.claimId, SelectedRecords(Fold(base).records, []))
  {
    var records := Fold(base).records;
    ReachableIsWellFormed(log);
    assert base == log[..|base|];
    WellFormedPrefix(log, |base|);
    WorkingSetIsKeyedById(base);
    ClaimSelectionIsEarliest(records, command.now, command.limit);
    if ids != [] {
      forall j | 0 <= j < |ids| ensures Waiting(records, ids[j]) {
        assert Claimable(records[ids[j]], command.now);
      }
      forall i | 0 <= i < |ids| ensures HeldBy(Fold(log).records, ids[i], command.claimId) {
        ClaimedAfterwards(base, ids, command.claimId, command.now, i);
      }
      SelectedAll(Fold(log).records, ids);
    }
  }

  lemma {:induction false} DeliveryCommitDelivers(base: Log, command: Command, attempt: nat, events: seq<NewEvent>, log: Log)
    requires Reachable(log) && command.MarkDelivered? && Commit(base, command, attempt, events, log)
    ensures AlreadyDelivered(command, log)
  {
    assert log[|log| - 1].payload == Delivered(command.outboxId, command.claimId);
    ReachableIsWellFormed(log);
    EndsDelivered(log);
  }

  lemma {:induction false} EndsDelivered(log: Log)
    requires WellFormed(log) && log != [] && log[|log| - 1].payload.Delivered?
    ensures var id := log[|log| - 1].payload.outboxId;
      && id != CHECKPOINT_NAME
      && RecordFold(id, log).Some?
      && RecordFold(id, log).value.status.IsDelivered?
  {
    var front, e := log[..|log| - 1], log[|log| - 1];
    assert log == front + [e];
    OwnEventsMakeRecord(None, e.payload.outboxId, log);
    LifeCycleRecord(e.payload.outboxId, ByName(log, e.payload.outboxId));
  }
}
