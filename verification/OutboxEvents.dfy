/**
The events of one tenant's document delivery outbox and the two ways they are folded:
the working set, which forgets a record as it is delivered, and the fold of one
record's own events, which keeps it.

Sequence numbers start at 1, so the event at index `i` of a stream has sequence `i + 1`.
*/
module OutboxEvents {
  import opened Results

  type Time = int

  datatype Target = Notification | Realtime | Email

  /** What an enqueued event copies from the domain event that caused it. */
  datatype Source = Source(eventId: string, eventType: string, payloadKind: string,
                           doctype: string, documentName: string, actorId: string, payload: string)

  datatype Payload =
    | Enqueued(outboxId: string, target: Target, source: Source)
    | Claimed(outboxId: string, claimId: string)
    | Delivered(outboxId: string, claimId: string)
    | Failed(outboxId: string, claimId: string, error: string, retryAt: Option<Time>)
    | Checkpointed(upToSequence: nat, carryOver: set<string>)

  /** An event before the store has given it a sequence. */
  datatype NewEvent = NewEvent(occurredAt: Time, payload: Payload)

  datatype Event = Event(sequence: nat, occurredAt: Time, payload: Payload)

  type Log = seq<Event>

  datatype Status = IsPending | IsClaimed | IsDelivered | IsFailed

  datatype Record = Record(id: string, target: Target, source: Source, status: Status, attempts: nat,
                           enqueuedAt: Time, claimedAt: Option<Time>, claimId: Option<string>,
                           deliveredAt: Option<Time>, failedAt: Option<Time>,
                           error: Option<string>, retryAt: Option<Time>)

  datatype WorkingSet = WorkingSet(version: nat, records: map<string, Record>)

  // ----- Names -------------------------------------------------------------

  const CHECKPOINT_NAME := "__checkpoint"

  function TargetName(target: Target): string {
    match target
    case Notification => "notification"
    case Realtime => "realtime"
    case Email => "email"
  }

  function RecordId(eventId: string, target: Target): string {
    eventId + ":" + TargetName(target)
  }

  function DocumentName(e: Event): string {
    if e.payload.Checkpointed? then CHECKPOINT_NAME else e.payload.outboxId
  }

  /** No record can be read back under the checkpoint's name. */
  lemma RecordIdIsNotCheckpointName(eventId: string, target: Target)
    ensures RecordId(eventId, target) != CHECKPOINT_NAME
  {
    assert RecordId(eventId, target)[|eventId|] == ':';
    assert forall i | 0 <= i < |CHECKPOINT_NAME| :: CHECKPOINT_NAME[i] != ':';
  }

  /** The last colon of an outbox id ends its event id. */
  lemma LastColon(eventId: string, target: Target)
    ensures RecordId(eventId, target)[|eventId|] == ':'
    ensures forall k | |eventId| < k < |RecordId(eventId, target)| :: RecordId(eventId, target)[k] != ':'
  {
    forall k | |eventId| < k < |RecordId(eventId, target)|
      ensures RecordId(eventId, target)[k] != ':'
    {
      assert RecordId(eventId, target)[k] == TargetName(target)[k - |eventId| - 1];
    }
  }

  /** Distinct (event, target) pairs never share an outbox id, whatever the event ids contain. */
  lemma RecordIdIsInjective(e1: string, t1: Target, e2: string, t2: Target)
    requires RecordId(e1, t1) == RecordId(e2, t2)
    ensures e1 == e2 && t1 == t2
  {
    var id := RecordId(e1, t1);
    LastColon(e1, t1);
    LastColon(e2, t2);
    assert id[..|e1|] == e1 && id[..|e1|] == e2;
    assert id[|e1| + 1] == TargetName(t1)[0] && id[|e1| + 1] == TargetName(t2)[0];
  }

  // ----- Reads -------------------------------------------------------------

  predicate Sequenced(log: Log) {
    forall i | 0 <= i < |log| :: log[i].sequence == i + 1
  }

  function Stamp(version: nat, events: seq<NewEvent>): (log: Log)
    ensures |log| == |events|
    ensures forall i | 0 <= i < |log| :: log[i] == Event(version + i + 1, events[i].occurredAt, events[i].payload)
  {
    seq(|events|, i requires 0 <= i < |events| =>
      Event(version + i + 1, events[i].occurredAt, events[i].payload))
  }

  /** The events of one document name within the shared stream, oldest first. */
  function ByName(log: Log, name: string): Log {
    if log == [] then []
    else
      var rest := ByName(log[..|log| - 1], name);
      if DocumentName(log[|log| - 1]) == name then rest + [log[|log| - 1]] else rest
  }

  lemma {:induction false} ByNameConcat(a: Log, b: Log, name: string)
    ensures ByName(a + b, name) == ByName(a, name) + ByName(b, name)
  {
    if b == [] {
      assert a + b == a;
    } else {
      assert (a + b)[..|a + b| - 1] == a + b[..|b| - 1];
      ByNameConcat(a, b[..|b| - 1], name);
    }
  }

  lemma ByNamePrefix(a: Log, b: Log, name: string)
    requires a <= b
    ensures ByName(a, name) <= ByName(b, name)
    ensures ByName(b, name) == ByName(a, name) + ByName(b[|a|..], name)
  {
    assert b == a + b[|a|..];
    ByNameConcat(a, b[|a|..], name);
  }

  /** Events at or below a sequence; on a sequenced stream, those of its prefix. */
  function UpTo(events: Log, sequence: nat): Log {
    if events == [] then []
    else
      var rest := UpTo(events[..|events| - 1], sequence);
      if events[|events| - 1].sequence <= sequence then rest + [events[|events| - 1]] else rest
  }

  function Above(events: Log, sequence: nat): Log {
    if events == [] then []
    else
      var rest := Above(events[..|events| - 1], sequence);
      if events[|events| - 1].sequence > sequence then rest + [events[|events| - 1]] else rest
  }

  /** Splitting one record's events at a sequence is splitting the stream there. */
  lemma {:induction false} SplitByName(log: Log, name: string, k: nat)
    requires Sequenced(log)
    ensures UpTo(ByName(log, name), k) == ByName(log[..if k < |log| then k else |log|], name)
    ensures Above(ByName(log, name), k) == ByName(log[if k < |log| then k else |log|..], name)
  {
    if log != [] {
      var front, last := log[..|log| - 1], log[|log| - 1];
      assert log == front + [last];
      SplitByName(front, name, k);
      if k < |log| {
        assert log[..k] == front[..k];
        assert log[k..] == front[k..] + [last];
      } else {
        assert log[..|log|] == log && front[..|front|] == front;
        assert log[|log|..] == [] && front[|front|..] == [];
      }
    }
  }

  // ----- The record states -------------------------------------------------

  function FreshRecord(e: Event): Record
    requires e.payload.Enqueued?
  {
    Record(e.payload.outboxId, e.payload.target, e.payload.source, IsPending, 0, e.occurredAt,
           None, None, None, None, None, None)
  }

  function ClaimedRecord(r: Record, e: Event): Record
    requires e.payload.Claimed?
  {
    r.(status := IsClaimed, attempts := r.attempts + 1, claimId := Some(e.payload.claimId),
       claimedAt := Some(e.occurredAt), error := None, retryAt := None)
  }

  function DeliveredRecord(r: Record, e: Event): Record
    requires e.payload.Delivered?
  {
    r.(status := IsDelivered, claimId := Some(e.payload.claimId), deliveredAt := Some(e.occurredAt),
       error := None, retryAt := None)
  }

  function FailedRecord(r: Record, e: Event): Record
    requires e.payload.Failed?
  {
    r.(status := IsFailed, claimId := Some(e.payload.claimId), failedAt := Some(e.occurredAt),
       error := Some(e.payload.error),
       retryAt := if e.payload.retryAt.Some? then e.payload.retryAt else r.retryAt)
  }

  // ----- The working set ---------------------------------------------------

  function SetStep(records: map<string, Record>, e: Event): map<string, Record> {
    match e.payload
    case Enqueued(id, _, _) => records[id := FreshRecord(e)]
    case Claimed(id, _) => if id in records then records[id := ClaimedRecord(records[id], e)] else records
    case Delivered(id, _) => records - {id}
    case Failed(id, _, _, _) => if id in records then records[id := FailedRecord(records[id], e)] else records
    case Checkpointed(_, _) => records
  }

  function WorkingSetStep(state: WorkingSet, e: Event): WorkingSet {
    WorkingSet(if e.sequence > state.version then e.sequence else state.version, SetStep(state.records, e))
  }

  function FoldFrom(initial: WorkingSet, events: Log): WorkingSet {
    if events == [] then initial
    else WorkingSetStep(FoldFrom(initial, events[..|events| - 1]), events[|events| - 1])
  }

  const EMPTY := WorkingSet(0, map[])

  function Fold(events: Log): WorkingSet {
    FoldFrom(EMPTY, events)
  }

  lemma {:induction false} FoldFromConcat(initial: WorkingSet, a: Log, b: Log)
    ensures FoldFrom(initial, a + b) == FoldFrom(FoldFrom(initial, a), b)
  {
    if b == [] {
      assert a + b == a;
    } else {
      assert (a + b)[..|a + b| - 1] == a + b[..|b| - 1];
      FoldFromConcat(initial, a, b[..|b| - 1]);
    }
  }

  /** The folded version is the head of the stream, checkpoints included. */
  lemma {:induction false} VersionIsHead(state: WorkingSet, log: Log, k: nat)
    requires Sequenced(log) && k <= |log|
    requires state.version == k
    ensures FoldFrom(state, log[k..]).version == |log|
  {
    if k < |log| {
      var front := log[..|log| - 1];
      VersionIsHead(state, front, k);
      assert log[k..][..|log[k..]| - 1] == front[k..];
    }
  }

  method FoldDocumentDeliveryOutboxFrom(initial: WorkingSet, events: Log) returns (state: WorkingSet)
    ensures state == FoldFrom(initial, events)
  {
    var records: map<string, Record>, version: nat := initial.records, initial.version;
    for i := 0 to |events|
      invariant WorkingSet(version, records) == FoldFrom(initial, events[..i])
    {
      var event := events[i];
      assert events[..i + 1][..i] == events[..i];
      version := if event.sequence > version then event.sequence else version;
      match event.payload {
        case Enqueued(id, _, _) =>
          records := records[id := FreshRecord(event)];
        case Claimed(id, _) =>
          if id in records {
            records := records[id := ClaimedRecord(records[id], event)];
          }
        case Delivered(id, _) =>
          records := records - {id};
        case Failed(id, _, _, _) =>
          if id in records {
            records := records[id := FailedRecord(records[id], event)];
          }
        case Checkpointed(_, _) =>
      }
    }
    assert events[..|events|] == events;
    state := WorkingSet(version, records);
  }

  // ----- One record's own events -------------------------------------------

  function RecordStep(record: Option<Record>, outboxId: string, e: Event): Option<Record> {
    if e.payload.Checkpointed? || e.payload.outboxId != outboxId then record
    else if e.payload.Enqueued? then Some(FreshRecord(e))
    else if record.None? then record
    else match e.payload
      case Claimed(_, _) => Some(ClaimedRecord(record.value, e))
      case Delivered(_, _) => Some(DeliveredRecord(record.value, e))
      case Failed(_, _, _, _) => Some(FailedRecord(record.value, e))
  }

  function RecordFoldFrom(initial: Option<Record>, outboxId: string, events: Log): Option<Record> {
    if events == [] then initial
    else RecordStep(RecordFoldFrom(initial, outboxId, events[..|events| - 1]), outboxId, events[|events| - 1])
  }

  function RecordFold(outboxId: string, events: Log): Option<Record> {
    RecordFoldFrom(None, outboxId, events)
  }

  lemma {:induction false} RecordFoldFromConcat(initial: Option<Record>, outboxId: string, a: Log, b: Log)
    ensures RecordFoldFrom(initial, outboxId, a + b)
         == RecordFoldFrom(RecordFoldFrom(initial, outboxId, a), outboxId, b)
  {
    if b == [] {
      assert a + b == a;
    } else {
      assert (a + b)[..|a + b| - 1] == a + b[..|b| - 1];
      RecordFoldFromConcat(initial, outboxId, a, b[..|b| - 1]);
    }
  }

  method FoldDocumentDeliveryOutboxRecordFrom(initial: Option<Record>, outboxId: string, events: Log)
    returns (record: Option<Record>)
    ensures record == RecordFoldFrom(initial, outboxId, events)
  {
    record := initial;
    for i := 0 to |events|
      invariant record == RecordFoldFrom(initial, outboxId, events[..i])
    {
      var event := events[i];
      assert events[..i + 1][..i] == events[..i];
      if event.payload.Checkpointed? || event.payload.outboxId != outboxId {
        continue;
      }
      match event.payload {
        case Enqueued(_, _, _) => record := Some(FreshRecord(event));
        case Claimed(_, _) => if record.Some? { record := Some(ClaimedRecord(record.value, event)); }
        case Delivered(_, _) => if record.Some? { record := Some(DeliveredRecord(record.value, event)); }
        case Failed(_, _, _, _) => if record.Some? { record := Some(FailedRecord(record.value, event)); }
      }
    }
    assert events[..|events|] == events;
  }

  // ----- The working set, one record at a time ------------------------------

  function Lookup(records: map<string, Record>, id: string): Option<Record> {
    if id in records then Some(records[id]) else None
  }

  /** What the working-set fold does to the slot of one id. */
  function SlotStep(slot: Option<Record>, id: string, e: Event): Option<Record> {
    if !e.payload.Checkpointed? && e.payload.outboxId == id && e.payload.Delivered? then None
    else RecordStep(slot, id, e)
  }

  function SlotFoldFrom(slot: Option<Record>, id: string, events: Log): Option<Record> {
    if events == [] then slot
    else SlotStep(SlotFoldFrom(slot, id, events[..|events| - 1]), id, events[|events| - 1])
  }

  lemma {:induction false} WorkingSetSlot(initial: WorkingSet, events: Log, id: string)
    ensures Lookup(FoldFrom(initial, events).records, id)
         == SlotFoldFrom(Lookup(initial.records, id), id, events)
  {
    if events != [] {
      WorkingSetSlot(initial, events[..|events| - 1], id);
    }
  }

  /** Only a record's own events matter to its slot in the working set ... */
  lemma {:induction false} OwnEventsFillSlot(slot: Option<Record>, id: string, log: Log)
    requires id != CHECKPOINT_NAME
    ensures SlotFoldFrom(slot, id, log) == SlotFoldFrom(slot, id, ByName(log, id))
  {
    if log != [] {
      var front, last := log[..|log| - 1], log[|log| - 1];
      OwnEventsFillSlot(slot, id, front);
      if DocumentName(last) == id {
        assert ByName(log, id)[..|ByName(front, id)|] == ByName(front, id);
      }
    }
  }

  /** ... and to its own fold. */
  lemma {:induction false} OwnEventsMakeRecord(record: Option<Record>, id: string, log: Log)
    requires id != CHECKPOINT_NAME
    ensures RecordFoldFrom(record, id, log) == RecordFoldFrom(record, id, ByName(log, id))
  {
    if log != [] {
      var front, last := log[..|log| - 1], log[|log| - 1];
      OwnEventsMakeRecord(record, id, front);
      if DocumentName(last) == id {
        assert ByName(log, id)[..|ByName(front, id)|] == ByName(front, id);
      }
    }
  }

  // ----- The life of one record --------------------------------------------

  /**
  The word Enqueued (Claimed Failed)* (Claimed Delivered?)?, with every Failed and Delivered
  carrying the claim id of the Claimed right before it.
  */
  ghost predicate LifeCycle(id: string, events: Log) {
    && (forall i | 0 <= i < |events| :: !events[i].payload.Checkpointed? && events[i].payload.outboxId == id)
    && (forall i | 0 <= i < |events| :: events[i].payload.Enqueued? <==> i == 0)
    && (forall i | 0 < i < |events| :: events[i].payload.Claimed? <==> i % 2 == 1)
    && (forall i | 0 < i < |events| :: !events[i].payload.Claimed? ==>
          && events[i - 1].payload.Claimed?
          && events[i].payload.claimId == events[i - 1].payload.claimId)
    && (forall i | 0 <= i < |events| - 1 :: !events[i].payload.Delivered?)
  }

  /** What the record fold says about a record that has lived a legal life. */
  ghost predicate RecordMatches(id: string, events: Log, record: Option<Record>)
    requires LifeCycle(id, events)
  {
    if events == [] then record.None?
    else
      var last := events[|events| - 1].payload;
      && record.Some?
      && record.value.id == id
      && record.value.attempts == |events| / 2
      && (record.value.status.IsPending? <==> last.Enqueued?)
      && (record.value.status.IsClaimed? <==> last.Claimed?)
      && (record.value.status.IsFailed? <==> last.Failed?)
      && (record.value.status.IsDelivered? <==> last.Delivered?)
      && (!last.Enqueued? ==> record.value.claimId == Some(last.claimId))
  }

  lemma {:induction false} LifeCycleRecord(id: string, events: Log)
    requires LifeCycle(id, events)
    ensures RecordMatches(id, events, RecordFold(id, events))
    ensures SlotFoldFrom(None, id, events)
         == if events != [] && events[|events| - 1].payload.Delivered? then None else RecordFold(id, events)
  {
    if events != [] {
      var front := events[..|events| - 1];
      LifeCycleRecord(id, front);
      var last := events[|events| - 1];
      if |front| == 0 {
        assert last.payload.Enqueued?;
      } else {
        assert front[|front| - 1] == events[|events| - 2];
        assert last.payload.Claimed? <==> (|events| - 1) % 2 == 1;
      }
    }
  }

  function ClaimCount(events: Log): nat {
    if events == [] then 0
    else ClaimCount(events[..|events| - 1]) + if events[|events| - 1].payload.Claimed? then 1 else 0
  }

  lemma {:induction false} LifeCycleClaims(id: string, events: Log)
    requires LifeCycle(id, events)
    ensures ClaimCount(events) == |events| / 2
  {
    if events != [] {
      LifeCycleClaims(id, events[..|events| - 1]);
    }
  }
}
