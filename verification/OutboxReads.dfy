/**
Reading the outbox through its last checkpoint: the checkpoint, the history of each record it
carries and the tail of the stream may each be read at a different moment.
*/
module OutboxReads {
  import opened Results
  import opened OutboxEvents
  import opened OutboxProtocol

  /**
  One carried record, rehydrated from its own events: kept in its state at the checkpoint,
  unless those events show that it has been delivered since.
  */
  ghost predicate IsCarried(upTo: nat, id: string, events: Log, slot: Option<Record>) {
    var atCheckpoint := RecordFold(id, UpTo(events, upTo));
    && atCheckpoint.Some?
    && var current := RecordFoldFrom(atCheckpoint, id, Above(events, upTo));
       slot == if current.Some? && !current.value.status.IsDelivered? then atCheckpoint else None
  }

  /** The records a checkpoint carried, each rehydrated from a history read at its own moment. */
  ghost predicate IsCarriedOver(checkpoint: Payload, seen: map<string, Log>, records: map<string, Record>)
    requires checkpoint.Checkpointed?
  {
    && seen.Keys == checkpoint.carryOver
    && records.Keys <= checkpoint.carryOver
    && forall id | id in seen :: IsCarried(checkpoint.upToSequence, id, ByName(seen[id], id), Lookup(records, id))
  }

  /** Rehydrating one carried record gives its state at the checkpoint and tells whether it has finished. */
  lemma {:induction false} Rehydrate(log: Log, seen: Log, k: nat, id: string)
    requires WellFormed(log) && seen <= log && k < |log| && k <= |seen|
    requires id in Fold(log[..k]).records
    ensures id != CHECKPOINT_NAME
    ensures RecordFold(id, UpTo(ByName(seen, id), k)) == Some(Fold(log[..k]).records[id])
    ensures RecordFoldFrom(Some(Fold(log[..k]).records[id]), id, Above(ByName(seen, id), k)) == RecordFold(id, seen)
  {
    WellFormedPrefix(log, k);
    FoldsAgree(log[..k], id);
    assert seen == log[..|seen|];
    WellFormedPrefix(log, |seen|);
    SplitByName(seen, id, k);
    assert seen[..k] == log[..k];
    OwnEventsMakeRecord(None, id, seen[..k]);
    OwnEventsMakeRecord(None, id, seen);
    ByNamePrefix(seen[..k], seen, id);
    RecordFoldFromConcat(None, id, ByName(seen[..k], id), ByName(seen[k..], id));
  }

  /** A slot that is empty stays empty while its id is not enqueued. */
  lemma {:induction false} EmptySlotStays(id: string, events: Log)
    requires forall e: Event | e in events && !e.payload.Checkpointed? && e.payload.outboxId == id :: !e.payload.Enqueued?
    ensures SlotFoldFrom(None, id, events) == None
  {
    if events != [] {
      EmptySlotStays(id, events[..|events| - 1]);
    }
  }

  /** After its first event a record is never enqueued again, so its tail cannot fill an empty slot. */
  lemma {:induction false} TailNeverEnqueues(log: Log, k: nat, id: string)
    requires WellFormed(log) && k <= |log| && id != CHECKPOINT_NAME && ByName(log[..k], id) != []
    ensures SlotFoldFrom(None, id, log[k..]) == None
  {
    ByNamePrefix(log[..k], log, id);
    assert log[|log[..k]|..] == log[k..];
    var prefix, tail, own := ByName(log[..k], id), ByName(log[k..], id), ByName(log, id);
    assert LifeCycle(id, own);
    forall e: Event | e in tail ensures !e.payload.Enqueued? {
      var i :| 0 <= i < |tail| && tail[i] == e;
      assert own[|prefix| + i] == e;
    }
    EmptySlotStays(id, tail);
    OwnEventsFillSlot(None, id, log[k..]);
  }

  predicate IsFinished(record: Option<Record>) {
    record.None? || record.value.status.IsDelivered?
  }

  /** A carried record that was delivered by the time it was looked at ends up out of the set either way. */
  lemma {:induction false} FinishedSlot(log: Log, m: nat, k: nat, id: string)
    requires WellFormed(log) && k <= m <= |log| && k < |log|
    requires id in Fold(log[..k]).records
    requires IsFinished(RecordFold(id, log[..m]))
    ensures SlotFoldFrom(None, id, log[k..]) == None
    ensures id !in Fold(log).records
  {
    var seen := log[..m];
    WellFormedPrefix(log, k);
    FoldsAgree(log[..k], id);
    OwnEventsMakeRecord(None, id, log[..k]);
    TailNeverEnqueues(log, k, id);
    assert seen[..k] == log[..k];
    ByNamePrefix(log[..k], seen, id);
    StillKnown(log, seen, id);
    DeliveredIsFinal(seen, log, id);
    FoldsAgree(log, id);
  }

  /** A record with an event has a record state. */
  lemma {:induction false} StillKnown(log: Log, seen: Log, id: string)
    requires WellFormed(log) && seen <= log && id != CHECKPOINT_NAME && ByName(seen, id) != []
    ensures RecordFold(id, seen).Some?
  {
    assert seen == log[..|seen|];
    WellFormedPrefix(log, |seen|);
    OwnEventsMakeRecord(None, id, seen);
    LifeCycleRecord(id, ByName(seen, id));
  }

  /** One slot of the torn read, its history read when the stream had `m` events. */
  lemma {:induction false} TornSlot(log: Log, k: nat, m: nat, slot: Option<Record>, id: string)
    requires WellFormed(log) && k < m <= |log|
    requires id in Fold(log[..k]).records
    requires slot == if IsFinished(RecordFold(id, log[..m])) then None else Lookup(Fold(log[..k]).records, id)
    ensures SlotFoldFrom(slot, id, log[k..]) == Lookup(Fold(log).records, id)
  {
    if IsFinished(RecordFold(id, log[..m])) {
      FinishedSlot(log, m, k, id);
    } else {
      SlotOfConcat(log, k, id);
    }
  }

  lemma {:induction false} SlotOfConcat(log: Log, k: nat, id: string)
    requires k <= |log|
    ensures SlotFoldFrom(Lookup(Fold(log[..k]).records, id), id, log[k..]) == Lookup(Fold(log).records, id)
  {
    assert log == log[..k] + log[k..];
    FoldFromConcat(EMPTY, log[..k], log[k..]);
    WorkingSetSlot(Fold(log[..k]), log[k..], id);
  }

  /**
  The torn read is linearizable. The checkpoint, every carried record's history and the tail
  may each be read at a different moment; resuming the fold from them gives exactly the full
  fold of the stream as it stood when the tail was read.
  */
  lemma {:induction false} TornReadIsFullFold(log: Log, k: nat, seen: map<string, Log>, records: map<string, Record>)
    requires WellFormed(log) && k < |log| && log[k].payload.Checkpointed?
    requires forall id | id in seen :: k < |seen[id]| && seen[id] <= log
    requires IsCarriedOver(log[k].payload, seen, records)
    ensures FoldFrom(WorkingSet(k, records), log[k..]) == Fold(log)
  {
    assert CheckpointSound(log, k);
    var resumed := FoldFrom(WorkingSet(k, records), log[k..]);
    assert log[0..] == log;
    VersionIsHead(WorkingSet(k, records), log, k);
    VersionIsHead(EMPTY, log, 0);
    forall id ensures Lookup(resumed.records, id) == Lookup(Fold(log).records, id) {
      WorkingSetSlot(WorkingSet(k, records), log[k..], id);
      if id in log[k].payload.carryOver {
        assert IsCarried(k, id, ByName(seen[id], id), Lookup(records, id));
        Rehydrate(log, seen[id], k, id);
        assert seen[id] == log[..|seen[id]|];
        TornSlot(log, k, |seen[id]|, Lookup(records, id), id);
      } else {
        SlotOfConcat(log, k, id);
      }
    }
    SameSlots(resumed.records, Fold(log).records);
  }

  lemma {:induction false} SameSlots(a: map<string, Record>, b: map<string, Record>)
    requires forall id :: Lookup(a, id) == Lookup(b, id)
    ensures a == b
  {
    forall id ensures id in a <==> id in b {
      assert Lookup(a, id) == Lookup(b, id);
    }
    forall id | id in a ensures a[id] == b[id] {
      assert Lookup(a, id) == Lookup(b, id);
    }
  }
}
