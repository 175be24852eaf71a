/**
What the delivery outbox service may commit, as a relation between two states of the
tenant's stream, and what therefore holds of every stream the service can produce.

A commit carries the version its plan was folded at and the store refuses it unless that is
still the head, so a commit is a plan made for exactly the stream it lands on. Everything a
plan read in between came from that same stream, because streams only grow.
*/
module OutboxProtocol {
  import opened Results
  import opened OutboxEvents

  const MAX_APPEND_ATTEMPTS := 5
  const CARRY_OVER_LIMIT := 25

  datatype Command =
    | Enqueue(source: Source, targets: seq<Target>, at: Time)
    | Claim(claimId: string, now: Time, limit: nat)
    | MarkDelivered(outboxId: string, claimId: string, at: Time)
    | MarkFailed(outboxId: string, claimId: string, error: string, retryAt: Option<Time>, at: Time)

  // ----- Enqueueing ----------------------------------------------------------

  /** The distinct targets, in order of first appearance. */
  function Unique(targets: seq<Target>): seq<Target> {
    if targets == [] then []
    else
      var rest := Unique(targets[..|targets| - 1]);
      var last := targets[|targets| - 1];
      if last in rest then rest else rest + [last]
  }

  lemma {:induction false} UniqueKeepsTargets(targets: seq<Target>)
    ensures forall t :: t in Unique(targets) <==> t in targets
    ensures forall i, j | 0 <= i < j < |Unique(targets)| :: Unique(targets)[i] != Unique(targets)[j]
  {
    if targets != [] {
      UniqueKeepsTargets(targets[..|targets| - 1]);
      assert targets == targets[..|targets| - 1] + [targets[|targets| - 1]];
    }
  }

  /** One event per target whose outbox id has no event in the stream yet, delivered records included. */
  function PlanEnqueue(log: Log, source: Source, targets: seq<Target>, at: Time): seq<NewEvent> {
    if targets == [] then []
    else
      var target := targets[|targets| - 1];
      var id := RecordId(source.eventId, target);
      var rest := PlanEnqueue(log, source, targets[..|targets| - 1], at);
      if ByName(log, id) != [] then rest else rest + [NewEvent(at, Enqueued(id, target, source))]
  }

  // ----- Claiming --------------------------------------------------------------

  predicate RetryDue(record: Record, now: Time) {
    record.retryAt.None? || record.retryAt.value <= now
  }

  predicate Claimable(record: Record, now: Time) {
    record.status.IsPending? || (record.status.IsFailed? && RetryDue(record, now))
  }

  predicate StringLess(a: string, b: string) {
    b != "" && (a == "" || a[0] < b[0] || (a[0] == b[0] && StringLess(a[1..], b[1..])))
  }

  predicate Before(a: Record, b: Record) {
    a.enqueuedAt < b.enqueuedAt || (a.enqueuedAt == b.enqueuedAt && StringLess(a.id, b.id))
  }

  /** The first `limit` claimable records, by time of enqueueing and then by id. */
  ghost predicate IsClaimSelection(records: map<string, Record>, now: Time, limit: nat, ids: seq<string>) {
    && |ids| <= limit
    && (forall i | 0 <= i < |ids| :: ids[i] in records && Claimable(records[ids[i]], now))
    && (forall i, j | 0 <= i < j < |ids| :: ids[i] != ids[j] && Before(records[ids[i]], records[ids[j]]))
    && (forall id | id in records && Claimable(records[id], now) && id !in ids ::
          |ids| == limit && forall i | 0 <= i < |ids| :: Before(records[ids[i]], records[id]))
  }

  function ClaimEvents(ids: seq<string>, claimId: string, now: Time): (events: seq<NewEvent>)
    ensures |events| == |ids|
    ensures forall i | 0 <= i < |ids| :: events[i] == NewEvent(now, Claimed(ids[i], claimId))
  {
    seq(|ids|, i requires 0 <= i < |ids| => NewEvent(now, Claimed(ids[i], claimId)))
  }

  // ----- Finishing ---------------------------------------------------------------

  predicate HeldBy(records: map<string, Record>, outboxId: string, claimId: string) {
    && outboxId in records
    && records[outboxId].status.IsClaimed?
    && records[outboxId].claimId == Some(claimId)
  }

  /** The compaction checkpoint a delivery carries in front of it, or nothing. */
  function PlannedCheckpoint(state: WorkingSet, attempt: nat, at: Time): seq<NewEvent> {
    if attempt >= MAX_APPEND_ATTEMPTS then []
    else if |state.records| > CARRY_OVER_LIMIT then []
    else [NewEvent(at, Checkpointed(state.version, state.records.Keys))]
  }

  // ----- Runs ----------------------------------------------------------------------

  /** `events` is what `command` commits, on the given attempt, to a stream holding `log`. */
  ghost predicate Planned(command: Command, log: Log, attempt: nat, events: seq<NewEvent>) {
    var state := Fold(log);
    match command
    case Enqueue(source, targets, at) =>
      events == PlanEnqueue(log, source, Unique(targets), at)
    case Claim(claimId, now, limit) =>
      exists ids :: IsClaimSelection(state.records, now, limit, ids) && events == ClaimEvents(ids, claimId, now)
    case MarkDelivered(outboxId, claimId, at) =>
      && HeldBy(state.records, outboxId, claimId)
      && events == PlannedCheckpoint(state, attempt, at) + [NewEvent(at, Delivered(outboxId, claimId))]
    case MarkFailed(outboxId, claimId, error, retryAt, at) =>
      && HeldBy(state.records, outboxId, claimId)
      && events == [NewEvent(at, Failed(outboxId, claimId, error, retryAt))]
  }

  ghost predicate Commit(before: Log, command: Command, attempt: nat, events: seq<NewEvent>, after: Log) {
    && 1 <= attempt <= MAX_APPEND_ATTEMPTS
    && events != []
    && Planned(command, before, attempt, events)
    && after == before + Stamp(|before|, events)
  }

  ghost predicate Step(before: Log, after: Log) {
    exists command, attempt, events :: Commit(before, command, attempt, events, after)
  }

  ghost predicate IsRun(run: seq<Log>) {
    && run != []
    && run[0] == []
    && forall i | 0 <= i < |run| - 1 :: StepAt(run, i)
  }

  ghost predicate StepAt(run: seq<Log>, i: nat)
    requires i < |run| - 1
  {
    Step(run[i], run[i + 1])
  }

  /** The streams any interleaving of outbox operations can produce. */
  ghost predicate Reachable(log: Log) {
    exists run :: IsRun(run) && run[|run| - 1] == log
  }

  lemma {:induction false} ReachableStep(before: Log, after: Log)
    requires Reachable(before) && Step(before, after)
    ensures Reachable(after)
  {
    var run :| IsRun(run) && run[|run| - 1] == before;
    var longer := run + [after];
    forall i | 0 <= i < |longer| - 1 ensures StepAt(longer, i) {
      if i < |run| - 1 {
        assert StepAt(run, i);
      }
    }
    assert IsRun(longer) && longer[|longer| - 1] == after;
  }

  // ----- The invariant -----------------------------------------------------------

  /** The checkpoint at index `k`, sequence `k + 1`, tells the truth about the prefix below it. */
  ghost predicate CheckpointSound(log: Log, k: nat)
    requires k < |log| && log[k].payload.Checkpointed?
  {
    && log[k].payload.upToSequence == k
    && log[k].payload.carryOver == Fold(log[..k]).records.Keys
    && |log[k].payload.carryOver| <= CARRY_OVER_LIMIT
  }

  ghost predicate WellFormed(log: Log) {
    && Sequenced(log)
    && (forall i | 0 <= i < |log| && !log[i].payload.Checkpointed? :: log[i].payload.outboxId != CHECKPOINT_NAME)
    && (forall id | id != CHECKPOINT_NAME :: LifeCycle(id, ByName(log, id)))
    && (forall i | 0 <= i < |log| && log[i].payload.Checkpointed? :: CheckpointSound(log, i))
  }

  lemma {:induction false} WellFormedPrefix(log: Log, k: nat)
    requires WellFormed(log) && k <= |log|
    ensures WellFormed(log[..k])
  {
    var prefix := log[..k];
    forall id | id != CHECKPOINT_NAME ensures LifeCycle(id, ByName(prefix, id)) {
      ByNamePrefix(prefix, log, id);
    }
    forall i | 0 <= i < |prefix| && prefix[i].payload.Checkpointed? ensures CheckpointSound(prefix, i) {
      assert CheckpointSound(log, i);
      assert prefix[..i] == log[..i];
    }
  }

  /** The event may be appended to `log`: the one-event form of the protocol. */
  ghost predicate Allowed(log: Log, e: Event) {
    var state := Fold(log);
    && e.sequence == |log| + 1
    && match e.payload
       case Enqueued(id, _, _) => id != CHECKPOINT_NAME && ByName(log, id) == []
       case Claimed(id, _) => id in state.records
         && (state.records[id].status.IsPending? || state.records[id].status.IsFailed?)
       case Delivered(id, claimId) => HeldBy(state.records, id, claimId)
       case Failed(id, claimId, _, _) => HeldBy(state.records, id, claimId)
       case Checkpointed(upTo, carryOver) =>
         upTo == |log| && carryOver == state.records.Keys && |carryOver| <= CARRY_OVER_LIMIT
  }

  /** The working set and the per-record fold agree on every record of a well-formed stream. */
  lemma {:induction false} FoldsAgree(log: Log, id: string)
    requires WellFormed(log)
    ensures id in Fold(log).records <==>
            id != CHECKPOINT_NAME && RecordFold(id, log).Some? && !RecordFold(id, log).value.status.IsDelivered?
    ensures id in Fold(log).records ==> Some(Fold(log).records[id]) == RecordFold(id, log)
    ensures id in Fold(log).records ==> Fold(log).records[id].attempts == ClaimCount(ByName(log, id))
  {
    WorkingSetSlot(EMPTY, log, id);
    if id == CHECKPOINT_NAME {
      NothingUnderCheckpointName(log);
    } else {
      OwnEventsFillSlot(None, id, log);
      OwnEventsMakeRecord(None, id, log);
      LifeCycleRecord(id, ByName(log, id));
      LifeCycleClaims(id, ByName(log, id));
    }
  }

  lemma {:induction false} NothingUnderCheckpointName(log: Log)
    requires forall i | 0 <= i < |log| && !log[i].payload.Checkpointed? :: log[i].payload.outboxId != CHECKPOINT_NAME
    ensures SlotFoldFrom(None, CHECKPOINT_NAME, log) == None
  {
    if log != [] {
      NothingUnderCheckpointName(log[..|log| - 1]);
    }
  }

  lemma {:induction false} AllowedExtends(log: Log, e: Event)
    requires WellFormed(log) && Allowed(log, e)
    ensures WellFormed(log + [e])
  {
    var longer := log + [e];
    forall id | id != CHECKPOINT_NAME ensures LifeCycle(id, ByName(longer, id)) {
      if DocumentName(e) == id {
        AllowedContinuesLife(log, e);
      }
    }
    if !e.payload.Checkpointed? && !e.payload.Enqueued? {
      FoldsAgree(log, e.payload.outboxId);
    }
    forall i | 0 <= i < |longer| && longer[i].payload.Checkpointed? ensures CheckpointSound(longer, i) {
      assert longer[..i] == log[..i];
      if i < |log| {
        assert CheckpointSound(log, i);
      } else {
        assert log[..i] == log;
        VersionIsHead(EMPTY, log, 0);
      }
    }
  }

  lemma {:induction false} LifeCycleSnoc(id: string, own: Log, record: Option<Record>, e: Event)
    requires LifeCycle(id, own) && RecordMatches(id, own, record)
    requires !e.payload.Checkpointed? && e.payload.outboxId == id
    requires match e.payload
      case Enqueued(_, _, _) => own == []
      case Claimed(_, _) => record.Some? && (record.value.status.IsPending? || record.value.status.IsFailed?)
      case Delivered(_, c) => record.Some? && record.value.status.IsClaimed? && record.value.claimId == Some(c)
      case Failed(_, c, _, _) => record.Some? && record.value.status.IsClaimed? && record.value.claimId == Some(c)
    ensures LifeCycle(id, own + [e])
  {
    if own != [] {
      assert own[|own| - 1].payload.Claimed? ==> (|own| - 1) % 2 == 1;
      assert |own| > 1 && !own[|own| - 1].payload.Claimed? ==> (|own| - 1) % 2 == 0;
    }
  }

  lemma {:induction false} AllowedContinuesLife(log: Log, e: Event)
    requires WellFormed(log) && Allowed(log, e) && !e.payload.Checkpointed?
    requires e.payload.outboxId != CHECKPOINT_NAME
    ensures LifeCycle(e.payload.outboxId, ByName(log, e.payload.outboxId) + [e])
  {
    var id := e.payload.outboxId;
    FoldsAgree(log, id);
    OwnEventsMakeRecord(None, id, log);
    LifeCycleRecord(id, ByName(log, id));
    LifeCycleSnoc(id, ByName(log, id), RecordFold(id, log), e);
  }

  /** A commit of several events is a succession of allowed ones. */
  ghost predicate AllowedAll(log: Log, events: Log) {
    events == [] ||
    (AllowedAll(log, events[..|events| - 1]) && Allowed(log + events[..|events| - 1], events[|events| - 1]))
  }

  lemma {:induction false} AllowedAllExtends(log: Log, events: Log)
    requires WellFormed(log) && AllowedAll(log, events)
    ensures WellFormed(log + events)
  {
    if events == [] {
      assert log + events == log;
    } else {
      var front, last := events[..|events| - 1], events[|events| - 1];
      AllowedAllExtends(log, front);
      AllowedExtends(log + front, last);
      assert log + events == log + front + [last];
    }
  }

  lemma {:induction false} AllowedAllSnoc(log: Log, events: Log, e: Event)
    requires AllowedAll(log, events) && Allowed(log + events, e)
    ensures AllowedAll(log, events + [e])
  {
    assert (events + [e])[..|events|] == events;
  }

  function Stamped(version: nat, e: NewEvent): Event {
    Event(version + 1, e.occurredAt, e.payload)
  }

  lemma {:induction false} StampSnoc(log: Log, events: seq<NewEvent>, e: NewEvent)
    ensures Stamp(|log|, events + [e]) == Stamp(|log|, events) + [Stamped(|log| + |events|, e)]
    ensures log + Stamp(|log|, events + [e]) == log + Stamp(|log|, events) + [Stamped(|log| + |events|, e)]
  {
  }

  /** One more event in a planned commit. */
  lemma {:induction false} AllowedOneMore(log: Log, events: seq<NewEvent>, e: NewEvent)
    requires AllowedAll(log, Stamp(|log|, events))
    requires Allowed(log + Stamp(|log|, events), Stamped(|log| + |events|, e))
    ensures AllowedAll(log, Stamp(|log|, events + [e]))
  {
    StampSnoc(log, events, e);
    AllowedAllSnoc(log, Stamp(|log|, events), Stamped(|log| + |events|, e));
  }

  lemma {:induction false} FoldSnoc(log: Log, e: Event)
    ensures Fold(log + [e]) == WorkingSetStep(Fold(log), e)
  {
    assert (log + [e])[..|log|] == log;
  }

  /** Enqueueing for some targets touches no other target's events. */
  ghost predicate OthersUntouched(log: Log, after: Log, source: Source, targets: seq<Target>) {
    forall t | t !in targets ::
      ByName(after, RecordId(source.eventId, t)) == ByName(log, RecordId(source.eventId, t))
  }

  lemma {:induction false} EnqueueOneMore(log: Log, middle: Log, source: Source, front: seq<Target>, target: Target, e: Event)
    requires OthersUntouched(log, middle, source, front)
    requires e.payload == Enqueued(RecordId(source.eventId, target), target, source)
    ensures OthersUntouched(log, middle + [e], source, front + [target])
  {
    forall t | t !in front + [target]
      ensures ByName(middle + [e], RecordId(source.eventId, t)) == ByName(log, RecordId(source.eventId, t))
    {
      if RecordId(source.eventId, t) == RecordId(source.eventId, target) {
        RecordIdIsInjective(source.eventId, t, source.eventId, target);
      }
    }
  }

  lemma {:induction false} EnqueueStep(log: Log, source: Source, front: seq<Target>, target: Target, at: Time, rest: seq<NewEvent>)
    requires AllowedAll(log, Stamp(|log|, rest))
    requires OthersUntouched(log, log + Stamp(|log|, rest), source, front)
    requires target !in front && ByName(log, RecordId(source.eventId, target)) == []
    ensures var events := rest + [NewEvent(at, Enqueued(RecordId(source.eventId, target), target, source))];
      && AllowedAll(log, Stamp(|log|, events))
      && OthersUntouched(log, log + Stamp(|log|, events), source, front + [target])
  {
    var news := NewEvent(at, Enqueued(RecordId(source.eventId, target), target, source));
    RecordIdIsNotCheckpointName(source.eventId, target);
    assert ByName(log + Stamp(|log|, rest), RecordId(source.eventId, target)) == [];
    AllowedOneMore(log, rest, news);
    StampSnoc(log, rest, news);
    EnqueueOneMore(log, log + Stamp(|log|, rest), source, front, target, Stamped(|log| + |rest|, news));
  }

  lemma {:induction false} EnqueueAllowed(log: Log, source: Source, targets: seq<Target>, at: Time)
    requires forall i, j | 0 <= i < j < |targets| :: targets[i] != targets[j]
    ensures AllowedAll(log, Stamp(|log|, PlanEnqueue(log, source, targets, at)))
    ensures OthersUntouched(log, log + Stamp(|log|, PlanEnqueue(log, source, targets, at)), source, targets)
  {
    if targets == [] {
      assert log + Stamp(|log|, []) == log;
    } else {
      var front, target := targets[..|targets| - 1], targets[|targets| - 1];
      EnqueueAllowed(log, source, front, at);
      var rest := PlanEnqueue(log, source, front, at);
      assert targets == front + [target];
      if ByName(log, RecordId(source.eventId, target)) == [] {
        EnqueueStep(log, source, front, target, at, rest);
      } else {
        assert forall t | t !in targets :: t !in front;
      }
    }
  }

  ghost predicate Waiting(records: map<string, Record>, id: string) {
    id in records && (records[id].status.IsPending? || records[id].status.IsFailed?)
  }

  /** Claiming some records touches no other record. */
  ghost predicate OtherSlotsUntouched(log: Log, after: Log, ids: seq<string>) {
    forall id | id !in ids :: Lookup(Fold(after).records, id) == Lookup(Fold(log).records, id)
  }

  lemma {:induction false} ClaimOneMore(log: Log, middle: Log, front: seq<string>, id: string, e: Event)
    requires OtherSlotsUntouched(log, middle, front) && id !in front && Waiting(Fold(log).records, id)
    requires e.payload.Claimed? && e.payload.outboxId == id && e.sequence == |middle| + 1
    ensures Allowed(middle, e)
    ensures OtherSlotsUntouched(log, middle + [e], front + [id])
    ensures HeldBy(Fold(middle + [e]).records, id, e.payload.claimId)
  {
    assert Lookup(Fold(middle).records, id) == Lookup(Fold(log).records, id);
    FoldSnoc(middle, e);
    forall other | other !in front + [id]
      ensures Lookup(Fold(middle + [e]).records, other) == Lookup(Fold(log).records, other)
    {
      assert other !in front && other != id;
    }
  }

  lemma {:induction false} ClaimAllowed(log: Log, ids: seq<string>, claimId: string, now: Time)
    requires forall i | 0 <= i < |ids| :: Waiting(Fold(log).records, ids[i])
    requires forall i, j | 0 <= i < j < |ids| :: ids[i] != ids[j]
    ensures AllowedAll(log, Stamp(|log|, ClaimEvents(ids, claimId, now)))
    ensures OtherSlotsUntouched(log, log + Stamp(|log|, ClaimEvents(ids, claimId, now)), ids)
  {
    if ids == [] {
      assert log + Stamp(|log|, []) == log;
    } else {
      var front, id := ids[..|ids| - 1], ids[|ids| - 1];
      assert ids == front + [id];
      ClaimAllowed(log, front, claimId, now);
      var rest, news := ClaimEvents(front, claimId, now), NewEvent(now, Claimed(id, claimId));
      assert ClaimEvents(ids, claimId, now) == rest + [news];
      assert Waiting(Fold(log).records, ids[|ids| - 1]);
      ClaimOneMore(log, log + Stamp(|log|, rest), front, id, Stamped(|log| + |rest|, news));
      AllowedOneMore(log, rest, news);
      StampSnoc(log, rest, news);
    }
  }

  lemma {:induction false} CheckpointAllowed(log: Log, e: Event)
    requires WellFormed(log) && e.sequence == |log| + 1
    requires e.payload == Checkpointed(Fold(log).version, Fold(log).records.Keys)
    requires |Fold(log).records| <= CARRY_OVER_LIMIT
    ensures Allowed(log, e)
  {
    VersionIsHead(EMPTY, log, 0);
    assert log[0..] == log;
    assert |Fold(log).records.Keys| == |Fold(log).records|;
  }

  lemma {:induction false} FinishAllowed(log: Log, checkpoint: seq<NewEvent>, attempt: nat, finish: NewEvent)
    requires WellFormed(log)
    requires checkpoint == PlannedCheckpoint(Fold(log), attempt, finish.occurredAt) || checkpoint == []
    requires finish.payload.Delivered? || finish.payload.Failed?
    requires HeldBy(Fold(log).records, finish.payload.outboxId, finish.payload.claimId)
    ensures AllowedAll(log, Stamp(|log|, checkpoint + [finish]))
  {
    assert log + Stamp(|log|, []) == log;
    if checkpoint != [] {
      var first := Stamped(|log|, checkpoint[0]);
      CheckpointAllowed(log, first);
      AllowedOneMore(log, [], checkpoint[0]);
      assert [] + [checkpoint[0]] == checkpoint;
      StampSnoc(log, [], checkpoint[0]);
      FoldSnoc(log, first);
    }
    AllowedOneMore(log, checkpoint, finish);
  }

  lemma {:induction false} StepKeepsWellFormed(before: Log, after: Log)
    requires WellFormed(before) && Step(before, after)
    ensures WellFormed(after)
  {
    var command: Command, attempt: nat, events: seq<NewEvent> :| Commit(before, command, attempt, events, after);
    match command {
      case Enqueue(source, targets, at) =>
        UniqueKeepsTargets(targets);
        EnqueueAllowed(before, source, Unique(targets), at);
      case Claim(claimId, now, limit) =>
        var ids :| IsClaimSelection(Fold(before).records, now, limit, ids) && events == ClaimEvents(ids, claimId, now);
        assert forall i | 0 <= i < |ids| :: Waiting(Fold(before).records, ids[i]);
        ClaimAllowed(before, ids, claimId, now);
      case MarkDelivered(outboxId, claimId, at) =>
        FinishAllowed(before, PlannedCheckpoint(Fold(before), attempt, at), attempt,
                      NewEvent(at, Delivered(outboxId, claimId)));
      case MarkFailed(outboxId, claimId, error, retryAt, at) =>
        FinishAllowed(before, [], attempt, NewEvent(at, Failed(outboxId, claimId, error, retryAt)));
        assert [] + events == events;
    }
    AllowedAllExtends(before, Stamp(|before|, events));
  }

  lemma {:induction false} RunsAreWellFormed(run: seq<Log>, n: nat)
    requires IsRun(run) && n < |run|
    ensures WellFormed(run[n])
  {
    if n > 0 {
      RunsAreWellFormed(run, n - 1);
      assert StepAt(run, n - 1);
      StepKeepsWellFormed(run[n - 1], run[n]);
    }
  }

  /** Every interleaving of enqueue, claim, deliver and fail leaves a well-formed stream. */
  lemma {:induction false} ReachableIsWellFormed(log: Log)
    requires Reachable(log)
    ensures WellFormed(log)
  {
    var run :| IsRun(run) && run[|run| - 1] == log;
    RunsAreWellFormed(run, |run| - 1);
  }

  // ----- Consequences for every run -------------------------------------------------

  /** Every event keeps its place, counted among its record's own events. */
  lemma {:induction false} OwnPlace(log: Log, i: nat)
    requires i < |log|
    ensures var name := DocumentName(log[i]);
      |ByName(log[..i], name)| < |ByName(log, name)| && ByName(log, name)[|ByName(log[..i], name)|] == log[i]
  {
    var name := DocumentName(log[i]);
    assert log[..i + 1] == log[..i] + [log[i]];
    ByNamePrefix(log[..i + 1], log, name);
  }

  /** No outbox id is enqueued twice or delivered twice. */
  lemma {:induction false} AtMostOnce(log: Log, i: nat, j: nat)
    requires Reachable(log) && i < j < |log|
    requires !log[i].payload.Checkpointed? && !log[j].payload.Checkpointed?
    requires log[i].payload.outboxId == log[j].payload.outboxId
    ensures !log[j].payload.Enqueued?
    ensures !log[i].payload.Delivered?
  {
    ReachableIsWellFormed(log);
    var id := log[i].payload.outboxId;
    OwnPlace(log, i);
    OwnPlace(log, j);
    OwnPlace(log[..j], i);
    assert log[..j][..i] == log[..i];
    assert LifeCycle(id, ByName(log, id));
  }

  /** Checkpoints advance strictly, and each sits one past the prefix it summarises. */
  lemma {:induction false} CheckpointsAdvance(log: Log, i: nat, j: nat)
    requires Reachable(log) && i < j < |log|
    requires log[i].payload.Checkpointed? && log[j].payload.Checkpointed?
    ensures log[i].sequence == log[i].payload.upToSequence + 1
    ensures log[i].payload.upToSequence < log[j].payload.upToSequence
    ensures log[j].payload.upToSequence == j && log[j].payload.carryOver == Fold(log[..j]).records.Keys
  {
    ReachableIsWellFormed(log);
    assert CheckpointSound(log, i) && CheckpointSound(log, j);
  }

  /** The service never leaves a checkpoint at the head of the stream. */
  lemma {:induction false} CheckpointIsNeverHead(log: Log)
    requires Reachable(log) && log != []
    ensures !log[|log| - 1].payload.Checkpointed?
  {
    var run :| IsRun(run) && run[|run| - 1] == log;
    if |run| == 1 {
      return;
    }
    assert StepAt(run, |run| - 2);
    var command: Command, attempt: nat, events: seq<NewEvent> :| Commit(run[|run| - 2], command, attempt, events, log);
    var last := events[|events| - 1];
    assert log[|log| - 1].payload == last.payload;
    if command.Enqueue? {
      EnqueuesOnly(run[|run| - 2], command.source, Unique(command.targets), command.at);
    }
  }

  lemma {:induction false} EnqueuesOnly(log: Log, source: Source, targets: seq<Target>, at: Time)
    ensures forall e: NewEvent | e in PlanEnqueue(log, source, targets, at) :: e.payload.Enqueued?
  {
    if targets != [] {
      EnqueuesOnly(log, source, targets[..|targets| - 1], at);
    }
  }

  /** Once delivered, a record's own fold never changes again. */
  lemma {:induction false} DeliveredIsFinal(log: Log, later: Log, id: string)
    requires WellFormed(later) && log <= later && id != CHECKPOINT_NAME
    requires RecordFold(id, log).Some? && RecordFold(id, log).value.status.IsDelivered?
    ensures RecordFold(id, later) == RecordFold(id, log)
  {
    assert log == later[..|log|];
    WellFormedPrefix(later, |log|);
    ByNamePrefix(log, later, id);
    OwnEventsMakeRecord(None, id, log);
    OwnEventsMakeRecord(None, id, later);
    LifeCycleRecord(id, ByName(log, id));
    var own, all := ByName(log, id), ByName(later, id);
    assert own[|own| - 1] == all[|own| - 1];
    assert |own| == |all|;
    assert all == own;
  }
}
