/**
Document folds resumed from snapshots. The snapshot store is a cache: it keeps at most `limit`
snapshots, drops the least recently used, refuses older ones, and may fail at any call.
*/
module FoldSnapshots {
  import opened Results
  import opened Documents

  /** The state of a stream's fold after its first `upTo` events. */
  datatype FoldSnapshot = FoldSnapshot(stream: Stream, upTo: nat, state: Option<Snapshot>)

  datatype SavedEvent = SavedEvent(stream: Stream, sequence: nat, payload: Payload)

  /** What the store returns for a committed batch: its events in order, and the document they produced. */
  datatype DocumentCommit = DocumentCommit(events: seq<SavedEvent>, snapshot: Option<Snapshot>)

  function Sequenced(stream: Stream, version: nat, events: seq<Payload>): seq<SavedEvent> {
    seq(|events|, i requires 0 <= i < |events| => SavedEvent(stream, version + i + 1, events[i]))
  }

  function Saved(entries: seq<Entry>): seq<SavedEvent> {
    if entries == [] then []
    else
      var last := entries[|entries| - 1];
      Saved(entries[..|entries| - 1]) + Sequenced(last.stream, last.expectedVersion, last.events)
  }

  /** The sequence of the last event a batch saved to a stream. */
  function LastSequence(events: seq<SavedEvent>, stream: Stream): Option<nat> {
    if events == [] then None
    else if events[|events| - 1].stream == stream then Some(events[|events| - 1].sequence)
    else LastSequence(events[..|events| - 1], stream)
  }

  lemma {:induction false} LastSequenceSkips(events: seq<SavedEvent>, tail: seq<SavedEvent>, stream: Stream)
    requires forall e | e in tail :: e.stream != stream
    ensures LastSequence(events + tail, stream) == LastSequence(events, stream)
  {
    if tail == [] {
      assert events + tail == events;
    } else {
      assert (events + tail)[..|events + tail| - 1] == events + tail[..|tail| - 1];
      LastSequenceSkips(events, tail[..|tail| - 1], stream);
    }
  }

  /** Wherever its entry stands in the batch, the document's own last event decides. */
  lemma {:induction false} LastSequenceOfBatch(entries: seq<Entry>, k: nat)
    requires k < |entries| && DistinctStreams(entries) && entries[k].events != []
    ensures LastSequence(Saved(entries), entries[k].stream) == Some(entries[k].expectedVersion + |entries[k].events|)
    decreases |entries|
  {
    var init, last := entries[..|entries| - 1], entries[|entries| - 1];
    var tail := Sequenced(last.stream, last.expectedVersion, last.events);
    if k == |entries| - 1 {
      assert Saved(entries)[|Saved(entries)| - 1] == tail[|tail| - 1];
    } else {
      assert forall i | 0 <= i < |init| :: init[i] == entries[i];
      LastSequenceOfBatch(init, k);
      LastSequenceSkips(Saved(init), tail, entries[k].stream);
    }
  }

  // ----- The document a commit reports ---------------------------------------------------

  /** The parts of the document a command says its event changes. */
  datatype Projection = Projection(data: Option<Data>, status: Option<Status>)

  /** The event alone makes the document of a creation. */
  function SnapshotFromCreated(payload: Payload, sequence: nat): Snapshot
    requires payload.Created?
  {
    Snapshot(sequence, payload.status, payload.data)
  }

  /** Otherwise the document as read, at the event's sequence, with what the command says it changes. */
  function SnapshotFromCommitted(existing: Snapshot, sequence: nat, projection: Projection): Snapshot {
    Snapshot(sequence, if projection.status.Some? then projection.status.value else existing.status,
             if projection.data.Some? then projection.data.value else existing.data)
  }

  /** What each command says: the data it planned, or the status it moves to, or nothing. */
  function ProjectionOf(existing: Snapshot, payload: Payload): Projection {
    match payload
    case Updated(patch, unset) => Projection(Some(ApplyDataChange(existing.data, patch, unset)), None)
    case WorkflowTransitioned(patch) => Projection(Some(ApplyDataChange(existing.data, patch, {})), None)
    case CommandApplied(patch) => Projection(Some(ApplyDataChange(existing.data, patch, {})), None)
    case Deleted => Projection(None, Some(IsDeleted))
    case Submitted => Projection(None, Some(IsSubmitted))
    case Cancelled => Projection(None, Some(IsCancelled))
    case _ => Projection(None, None)
  }

  function CommittedSnapshot(existing: Option<Snapshot>, payload: Payload, sequence: nat): Option<Snapshot> {
    if payload.Created? then Some(SnapshotFromCreated(payload, sequence))
    else if existing.None? then None
    else Some(SnapshotFromCommitted(existing.value, sequence, ProjectionOf(existing.value, payload)))
  }

  /** The document a command reports is the one the fold makes of its event. */
  lemma {:induction false} ProjectionIsFold(existing: Option<Snapshot>, payload: Payload, sequence: nat)
    ensures payload.Ignored? || CommittedSnapshot(existing, payload, sequence) == Apply(existing, payload, sequence)
  {
    match payload
    case WorkflowTransitioned(patch) =>
      assert existing.Some? ==> ApplyDataChange(existing.value.data, patch, {}) == existing.value.data + patch;
    case CommandApplied(patch) =>
      assert existing.Some? ==> ApplyDataChange(existing.value.data, patch, {}) == existing.value.data + patch;
    case _ =>
  }

  /**
  The batch of a command that read its document as `existing` in state `read` and commits one event
  to it in state `at`, and the document it reports.
  */
  ghost predicate IsBatch(read: Store, at: Store, entries: seq<Entry>, k: nat, commit: DocumentCommit) {
    && k < |entries| && DistinctStreams(entries) && VersionsMatch(at, entries) && Extends(read, at)
    && |entries[k].events| == 1 && !entries[k].events[0].Ignored?
    && var stream, payload := entries[k].stream, entries[k].events[0];
    && var existing := Fold(EventsOf(read, stream));
    && OpensWithCreation(EventsOf(read, stream))
    && entries[k].expectedVersion == (if payload.Created? then 0 else VersionOf(existing))
    && commit == DocumentCommit(Saved(entries), CommittedSnapshot(existing, payload, entries[k].expectedVersion + 1))
  }

  /** The commit's document is the fold of its stream up to the last event the commit saved there. */
  predicate IsCommitOf(store: Store, stream: Stream, commit: DocumentCommit) {
    var sequence := LastSequence(commit.events, stream);
    sequence.Some? ==>
      && sequence.value <= |EventsOf(store, stream)|
      && commit.snapshot == Fold(EventsOf(store, stream)[..sequence.value])
  }

  /** A batch that commits found the document as its command had read it. */
  lemma {:induction false} ReadIsCurrent(read: Store, at: Store, entries: seq<Entry>, k: nat, commit: DocumentCommit)
    requires IsBatch(read, at, entries, k, commit)
    ensures EventsOf(at, entries[k].stream) == EventsOf(read, entries[k].stream)
    ensures |EventsOf(read, entries[k].stream)| == entries[k].expectedVersion
  {
    hide Saved, CommittedSnapshot, FoldFrom, OpensWithCreation;
    FoldVersion(EventsOf(read, entries[k].stream));
    assert EventsOf(read, entries[k].stream) <= EventsOf(at, entries[k].stream);
  }

  /**
  What a committed batch reports for its document entry is the fold of the document's stream as
  committed, however long before it was read, and also when entries for automation runs follow.
  */
  lemma {:induction false} BatchIsCommit(read: Store, at: Store, entries: seq<Entry>, k: nat, commit: DocumentCommit)
    requires IsBatch(read, at, entries, k, commit)
    ensures IsCommitOf(AppendEach(at, entries), entries[k].stream, commit)
    ensures LastSequence(commit.events, entries[k].stream) == Some(entries[k].expectedVersion + 1)
  {
    hide AppendEach, Saved, Apply, CommittedSnapshot, FoldFrom, LastSequence, EventsOf;
    var e := entries[k];
    var seen, after := EventsOf(read, e.stream), EventsOf(AppendEach(at, entries), e.stream);
    ReadIsCurrent(read, at, entries, k, commit);
    LastSequenceOfBatch(entries, k);
    AppendEachGrows(at, entries);
    ProjectionIsFold(Fold(seen), e.events[0], |seen| + 1);
    assert e.events == [e.events[0]];
    assert after[..|seen| + 1] == after;
    FoldSnoc(seen, e.events[0]);
  }

  predicate Sound(store: Store, snapshot: FoldSnapshot) {
    && snapshot.upTo <= |EventsOf(store, snapshot.stream)|
    && snapshot.state == Fold(EventsOf(store, snapshot.stream)[..snapshot.upTo])
  }

  predicate AllSound(store: Store, snapshots: seq<FoldSnapshot>) {
    forall s | s in snapshots :: Sound(store, s)
  }

  lemma {:induction false} SoundLater(store: Store, later: Store, snapshot: FoldSnapshot)
    requires Sound(store, snapshot) && Extends(store, later)
    ensures Sound(later, snapshot)
  {
    assert EventsOf(store, snapshot.stream) <= EventsOf(later, snapshot.stream);
    assert EventsOf(later, snapshot.stream)[..snapshot.upTo] == EventsOf(store, snapshot.stream)[..snapshot.upTo];
  }

  function Find(snapshots: seq<FoldSnapshot>, stream: Stream): Option<FoldSnapshot> {
    if snapshots == [] then None
    else if snapshots[0].stream == stream then Some(snapshots[0])
    else Find(snapshots[1..], stream)
  }

  lemma {:induction false} FoundIsStored(snapshots: seq<FoldSnapshot>, stream: Stream)
    ensures Find(snapshots, stream).Some? ==>
              Find(snapshots, stream).value in snapshots && Find(snapshots, stream).value.stream == stream
  {
    if snapshots != [] {
      FoundIsStored(snapshots[1..], stream);
    }
  }

  function Without(snapshots: seq<FoldSnapshot>, stream: Stream): (r: seq<FoldSnapshot>)
    ensures forall s | s in r :: s in snapshots && s.stream != stream
    ensures |r| <= |snapshots|
  {
    if snapshots == [] then []
    else if snapshots[0].stream == stream then Without(snapshots[1..], stream)
    else [snapshots[0]] + Without(snapshots[1..], stream)
  }

  /** How many of `count` snapshots are over the limit. */
  function Excess(count: nat, limit: int): (r: nat)
    ensures r <= count
  {
    if limit < 0 then count else if count > limit then count - limit else 0
  }

  /** The snapshots once one more is written: unchanged if a newer one of its stream is stored, else with it as the last. */
  function Written(snapshots: seq<FoldSnapshot>, snapshot: FoldSnapshot, limit: int): seq<FoldSnapshot> {
    var stored := Find(snapshots, snapshot.stream);
    var all := Without(snapshots, snapshot.stream) + [snapshot];
    if stored.Some? && stored.value.upTo >= snapshot.upTo then snapshots else all[Excess(|all|, limit)..]
  }

  lemma {:induction false} FindInSuffix(snapshots: seq<FoldSnapshot>, k: nat, snapshot: FoldSnapshot)
    requires k < |snapshots| && snapshots[|snapshots| - 1] == snapshot
    requires forall i | 0 <= i < |snapshots| - 1 :: snapshots[i].stream != snapshot.stream
    ensures Find(snapshots[k..], snapshot.stream) == Some(snapshot)
    decreases |snapshots| - k
  {
    if k < |snapshots| - 1 {
      FindInSuffix(snapshots, k + 1, snapshot);
      assert snapshots[k..][1..] == snapshots[k + 1..];
    }
  }

  /** With room for one snapshot, the newest written for a stream is found, whether it came before or now. */
  lemma {:induction false} NewestIsFound(snapshots: seq<FoldSnapshot>, snapshot: FoldSnapshot, limit: int)
    requires limit >= 1
    ensures var found := Find(Written(snapshots, snapshot, limit), snapshot.stream);
      found.Some? && found.value.upTo >= snapshot.upTo
  {
    var all := Without(snapshots, snapshot.stream) + [snapshot];
    FindInSuffix(all, Excess(|all|, limit), snapshot);
  }

  class DocumentFoldSnapshots {
    var store: Store
    /** Least recently used first. */
    var snapshots: seq<FoldSnapshot>
    /** False when the service runs without a snapshot store. */
    const enabled: bool
    const limit: int

    ghost predicate Valid()
      reads this
    {
      AllSound(store, snapshots)
    }

    constructor (enabled: bool, limit: int)
      ensures Valid() && store == map[] && snapshots == []
    {
      this.enabled := enabled;
      this.limit := limit;
      store := map[];
      snapshots := [];
    }

    /** Other commands may commit here, and record or evict snapshots. */
    method Interfere()
      requires Valid()
      modifies this
      ensures Valid() && Extends(old(store), store)
    {
    }

    /** The stored snapshot of a stream, now the most recently used; nothing if the store fails. */
    method Read(stream: Stream, fails: bool) returns (snapshot: Option<FoldSnapshot>)
      requires Valid()
      modifies this`snapshots
      ensures Valid()
      ensures snapshot == if enabled && !fails then Find(old(snapshots), stream) else None
    {
      if !enabled || fails {
        return None;
      }
      snapshot := Find(snapshots, stream);
      FoundIsStored(snapshots, stream);
      if snapshot.Some? {
        snapshots := Without(snapshots, stream) + [snapshot.value];
      }
    }

    /** Keeps a snapshot, as the most recently used, unless a newer one is stored; evicts down to the limit. */
    method Write(snapshot: FoldSnapshot)
      requires Valid() && Sound(store, snapshot)
      modifies this`snapshots
      ensures Valid()
      ensures snapshots == Written(old(snapshots), snapshot, limit)
    {
      var stored := Find(snapshots, snapshot.stream);
      if stored.Some? && stored.value.upTo >= snapshot.upTo {
        return;
      }
      ghost var all := Without(snapshots, snapshot.stream) + [snapshot];
      snapshots := Without(snapshots, snapshot.stream) + [snapshot];
      ghost var dropped := 0;
      while |snapshots| > limit && snapshots != []
        invariant 0 <= dropped <= |all| && snapshots == all[dropped..]
        invariant dropped <= Excess(|all|, limit)
      {
        snapshots := snapshots[1..];
        dropped := dropped + 1;
      }
    }

    /** The document as its stream now says it is, whatever the snapshot store holds or fails to do. */
    method Resume(stream: Stream, readFails: bool, foldFails: bool) returns (document: Option<Snapshot>)
      requires Valid()
      modifies this
      ensures Valid() && Extends(old(store), store)
      ensures document == Fold(EventsOf(store, stream))
    {
      var base := Read(stream, readFails);
      ghost var before := store;
      FoundIsStored(old(snapshots), stream);
      Interfere();
      if base.Some? && !foldFails {
        SoundLater(before, store, base.value);
        var events := EventsOf(store, stream);
        document := FoldDocumentFrom(base.value.state, events[base.value.upTo..], base.value.upTo);
        FoldSplits(events, base.value.upTo);
        return;
      }
      Interfere();
      document := FoldDocumentFrom(None, EventsOf(store, stream), 0);
    }

    /** Records the document a batch produced; other commands may have committed since. */
    method Record(stream: Stream, commit: DocumentCommit, fails: bool, ghost read: Store, ghost at: Store,
                  ghost entries: seq<Entry>, ghost k: nat)
      requires Valid() && IsBatch(read, at, entries, k, commit) && stream == entries[k].stream
      requires Extends(AppendEach(at, entries), store)
      modifies this
      ensures Valid() && store == old(store)
      ensures var upTo := LastSequence(commit.events, stream);
        snapshots == if enabled && !fails && upTo.Some?
                     then Written(old(snapshots), FoldSnapshot(stream, upTo.value, commit.snapshot), limit)
                     else old(snapshots)
    {
      var upTo := LastSequence(commit.events, stream);
      if !enabled || upTo.None? || fails {
        return;
      }
      hide IsBatch, AppendEach;
      BatchIsCommit(read, at, entries, k, commit);
      SoundLater(AppendEach(at, entries), store, FoldSnapshot(stream, upTo.value, commit.snapshot));
      Write(FoldSnapshot(stream, upTo.value, commit.snapshot));
    }
  }
}
