/**
Documents as folds of their event streams, and the store that holds the streams.

A stream is a sequence of payloads; the payload at index `i` has sequence number `i + 1`.
*/
module Documents {
  import opened Results

  /** A JSON value. Only scalars are looked into; an object or array is kept as its text. */
  datatype Json = Null | Str(text: string) | Num(decimal: string) | Bool(value: bool) | Composite(json: string)

  type Data = map<string, Json>

  datatype Status = IsDraft | IsSubmitted | IsCancelled | IsDeleted

  datatype Snapshot = Snapshot(version: nat, status: Status, data: Data)

  datatype Payload =
    | Created(data: Data, status: Status)
    | Updated(patch: Data, unset: set<string>)
    | WorkflowTransitioned(patch: Data)
    | CommandApplied(patch: Data)
    | Deleted
    | Submitted
    | Cancelled
    | Collaborated(kind: string)
    | Ignored(kind: string)

  function Get(data: Data, field: string): Json {
    if field in data then data[field] else Null
  }

  function ApplyDataChange(data: Data, patch: Data, unset: set<string>): Data {
    (data + patch) - unset
  }

  function Apply(snapshot: Option<Snapshot>, payload: Payload, sequence: nat): Option<Snapshot> {
    if payload.Created? then Some(Snapshot(sequence, payload.status, payload.data))
    else if snapshot.None? then None
    else
      var current := snapshot.value;
      match payload
      case Updated(patch, unset) => Some(current.(version := sequence, data := ApplyDataChange(current.data, patch, unset)))
      case WorkflowTransitioned(patch) => Some(current.(version := sequence, data := current.data + patch))
      case CommandApplied(patch) => Some(current.(version := sequence, data := current.data + patch))
      case Deleted => Some(current.(version := sequence, status := IsDeleted))
      case Submitted => Some(current.(version := sequence, status := IsSubmitted))
      case Cancelled => Some(current.(version := sequence, status := IsCancelled))
      case Collaborated(_) => Some(current.(version := sequence))
      case Ignored(_) => snapshot
      case Created(_, _) => snapshot
  }

  function VersionOf(snapshot: Option<Snapshot>): nat {
    if snapshot.None? then 0 else snapshot.value.version
  }

  /** Folds `events`, whose first has sequence `base + 1`, onto a snapshot. */
  function FoldFrom(initial: Option<Snapshot>, events: seq<Payload>, base: nat): Option<Snapshot> {
    if events == [] then initial
    else Apply(FoldFrom(initial, events[..|events| - 1], base), events[|events| - 1], base + |events|)
  }

  function Fold(events: seq<Payload>): Option<Snapshot> {
    FoldFrom(None, events, 0)
  }

  method FoldDocumentFrom(initial: Option<Snapshot>, events: seq<Payload>, base: nat) returns (snapshot: Option<Snapshot>)
    ensures snapshot == FoldFrom(initial, events, base)
  {
    snapshot := initial;
    var i := 0;
    while i < |events|
      invariant 0 <= i <= |events|
      invariant snapshot == FoldFrom(initial, events[..i], base)
    {
      assert events[..i + 1][..i] == events[..i];
      snapshot := Apply(snapshot, events[i], base + i + 1);
      i := i + 1;
    }
    assert events[..i] == events;
  }

  /** Folding the tail onto the fold of a prefix gives the fold of the whole stream. */
  lemma {:induction false} FoldSplits(events: seq<Payload>, k: nat)
    requires k <= |events|
    ensures FoldFrom(Fold(events[..k]), events[k..], k) == Fold(events)
    decreases |events|
  {
    if k == |events| {
      assert events[..k] == events && events[k..] == [];
    } else {
      var init, last := events[..|events| - 1], events[|events| - 1];
      FoldSplits(init, k);
      assert init[..k] == events[..k] && init[k..] == events[k..][..|events| - k - 1];
    }
  }

  /** A document's stream opens with its creation. */
  predicate OpensWithCreation(events: seq<Payload>) {
    events != [] ==> events[0].Created? && (forall i | 0 < i < |events| :: !events[i].Ignored?)
  }

  lemma {:induction false} FoldVersion(events: seq<Payload>)
    requires OpensWithCreation(events)
    ensures Fold(events).None? <==> events == []
    ensures events != [] ==> Fold(events).value.version == |events|
  {
    if |events| > 1 {
      var init := events[..|events| - 1];
      assert init[0] == events[0];
      FoldVersion(init);
    } else if |events| == 1 {
      assert events[..0] == [];
    }
  }

  lemma FoldSnoc(events: seq<Payload>, payload: Payload)
    ensures Fold(events + [payload]) == Apply(Fold(events), payload, |events| + 1)
  {
    assert (events + [payload])[..|events|] == events;
  }

  // ----- The store -------------------------------------------------------------

  /** Streams of one tenant and DocType, told apart by what their names are built from (see StreamNames). */
  datatype Stream =
    | DocumentStream(name: string)
    | UniqueValueStream(field: string, key: string)
    | AutomationRunStream(runId: string)
    | NamingSeriesStream(series: string)

  type Store = map<Stream, seq<Payload>>

  datatype Entry = Entry(stream: Stream, expectedVersion: nat, events: seq<Payload>)

  function EventsOf(store: Store, stream: Stream): seq<Payload> {
    if stream in store then store[stream] else []
  }

  predicate VersionsMatch(store: Store, entries: seq<Entry>) {
    forall i | 0 <= i < |entries| :: |EventsOf(store, entries[i].stream)| == entries[i].expectedVersion
  }

  predicate DistinctStreams(entries: seq<Entry>) {
    forall i, j | 0 <= i < j < |entries| :: entries[i].stream != entries[j].stream
  }

  function AppendEach(store: Store, entries: seq<Entry>): Store {
    if entries == [] then store
    else
      var earlier, last := AppendEach(store, entries[..|entries| - 1]), entries[|entries| - 1];
      earlier[last.stream := EventsOf(earlier, last.stream) + last.events]
  }

  /** A batch is appended whole when every stream is at its expected version, and not at all otherwise. */
  function CommitBatch(store: Store, entries: seq<Entry>): Result<Store> {
    if VersionsMatch(store, entries) then Ok(AppendEach(store, entries)) else Err(Conflict)
  }

  /** Every stream named by a batch grows by its own events, every other stream is unchanged. */
  lemma {:induction false} AppendEachGrows(store: Store, entries: seq<Entry>)
    requires DistinctStreams(entries)
    ensures forall i | 0 <= i < |entries| ::
              EventsOf(AppendEach(store, entries), entries[i].stream)
              == EventsOf(store, entries[i].stream) + entries[i].events
    ensures forall s: Stream :: (forall i | 0 <= i < |entries| :: entries[i].stream != s) ==>
              EventsOf(AppendEach(store, entries), s) == EventsOf(store, s)
  {
    if entries != [] {
      var init, last := entries[..|entries| - 1], entries[|entries| - 1];
      AppendEachGrows(store, init);
      var earlier := AppendEach(store, init);
      assert forall i | 0 <= i < |init| :: init[i] == entries[i];
      assert EventsOf(earlier, last.stream) == EventsOf(store, last.stream);
      forall s: Stream | forall i | 0 <= i < |entries| :: entries[i].stream != s
        ensures EventsOf(AppendEach(store, entries), s) == EventsOf(store, s)
      {
        assert s != last.stream;
        assert forall i | 0 <= i < |init| :: init[i].stream != s;
      }
    }
  }

  /** Streams only grow. */
  ghost predicate Extends(store: Store, later: Store) {
    forall s: Stream :: EventsOf(store, s) <= EventsOf(later, s)
  }

  lemma {:induction false} AppendEachExtends(store: Store, entries: seq<Entry>)
    ensures Extends(store, AppendEach(store, entries))
  {
    if entries != [] {
      var init, last := entries[..|entries| - 1], entries[|entries| - 1];
      AppendEachExtends(store, init);
      var earlier := AppendEach(store, init);
      assert EventsOf(store, last.stream) <= EventsOf(earlier, last.stream)
                                          <= EventsOf(AppendEach(store, entries), last.stream);
    }
  }
}
