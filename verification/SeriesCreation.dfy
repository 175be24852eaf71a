/**
Documents named from a series. Creating a document commits the counter's next number and the
document together, and retries with later numbers while names are taken or the counter moves.
*/
module SeriesCreation {
  import opened Results
  import opened Documents
  import opened UniqueValues
  import opened UniqueProtocol
  import opened NamingSeries
  import Service = DocumentService

  /**
  A command to create a document under the next name of a series. Validation and the planning of
  reservation writes and automation runs are arbitrary: they may differ by name and by attempt.
  */
  datatype Creation = Creation(series: string, strategy: Strategy, details: Data, data: Data,
                               accepts: (nat, string) -> bool, side: (nat, string) -> Result<seq<Entry>>)

  predicate IsSide(entries: seq<Entry>) {
    && DistinctStreams(entries)
    && forall e | e in entries :: e.stream.UniqueValueStream? || e.stream.AutomationRunStream?
  }

  ghost predicate IsCreation(c: Creation) {
    && IsNormalized(c.strategy)
    && forall used, name :: c.side(used, name).Ok? ==> IsSide(c.side(used, name).value)
  }

  function TargetData(c: Creation, name: string): Data {
    if c.strategy.targetField.None? then c.data else c.data[c.strategy.targetField.value := Str(name)]
  }

  datatype CounterWrite = CounterWrite(existing: Option<Snapshot>, candidate: Candidate)

  function CreationEntries(c: Creation, write: CounterWrite, side: seq<Entry>): seq<Entry> {
    var name := write.candidate.name;
    [Entry(NamingSeriesStream(c.series), VersionOf(write.existing), [CounterPayload(write.existing, c.details, write.candidate.value)])]
    + side
    + [Entry(DocumentStream(name), 0, [Created(TargetData(c, name), IsDraft)])]
  }

  /** The counter was read in this state, and the candidate is past it. */
  predicate IsRead(c: Creation, store: Store, write: CounterWrite) {
    && write.existing == FoldOf(store, NamingSeriesStream(c.series))
    && IsPast(write.candidate.value, Current(write.existing)) && write.candidate.value <= MAX_SAFE_INTEGER
    && c.strategy.render(write.candidate.value) == Ok(write.candidate.name)
    && !c.strategy.excludes(write.candidate.value, write.candidate.name)
  }

  /** What the commit of a creation changes. */
  lemma {:induction false} CreationGrows(c: Creation, store: Store, write: CounterWrite, side: seq<Entry>)
    requires IsSide(side)
    ensures var next := AppendEach(store, CreationEntries(c, write, side));
      && EventsOf(next, NamingSeriesStream(c.series))
         == EventsOf(store, NamingSeriesStream(c.series)) + [CounterPayload(write.existing, c.details, write.candidate.value)]
      && EventsOf(next, DocumentStream(write.candidate.name))
         == EventsOf(store, DocumentStream(write.candidate.name)) + [Created(TargetData(c, write.candidate.name), IsDraft)]
      && (forall series | series != c.series ::
            EventsOf(next, NamingSeriesStream(series)) == EventsOf(store, NamingSeriesStream(series)))
      && (forall name | name != write.candidate.name ::
            EventsOf(next, DocumentStream(name)) == EventsOf(store, DocumentStream(name)))
  {
    var entries := CreationEntries(c, write, side);
    AppendEachGrows(store, entries);
    assert entries[0].stream == NamingSeriesStream(c.series);
    assert entries[|entries| - 1].stream == DocumentStream(write.candidate.name);
    forall series | series != c.series
      ensures forall i | 0 <= i < |entries| :: entries[i].stream != NamingSeriesStream(series)
    {
      assert forall i | 0 < i < |entries| - 1 :: entries[i] == side[i - 1] && side[i - 1] in side;
    }
  }

  /** A creation that commits issues its number: the counter had not moved since it was read. */
  lemma {:induction false} CreationIssues(c: Creation, run: Run, readAt: nat, write: CounterWrite, side: seq<Entry>)
    requires IsSeriesRun(run) && readAt < |run| && IsRead(c, run[readAt], write) && IsSide(side)
    requires VersionsMatch(run[|run| - 1], CreationEntries(c, write, side))
    ensures var next := AppendEach(run[|run| - 1], CreationEntries(c, write, side));
      && Step(run[|run| - 1], next)
      && Issued(run[|run| - 1], next, c.series, c.strategy, write.candidate.value, write.candidate.name)
      && EventsOf(next, DocumentStream(write.candidate.name)) == [Created(TargetData(c, write.candidate.name), IsDraft)]
  {
    var last := run[|run| - 1];
    var entries := CreationEntries(c, write, side);
    var next := AppendEach(last, entries);
    var before, after := EventsOf(last, NamingSeriesStream(c.series)), EventsOf(next, NamingSeriesStream(c.series));
    CreationGrows(c, last, write, side);
    AppendEachExtends(last, entries);
    CounterUnmoved(run, c.series, readAt, write.existing);
    assert entries[0].expectedVersion == VersionOf(write.existing);
    assert entries[|entries| - 1].stream == DocumentStream(write.candidate.name);
    hide AppendEach, Fold, Extends, CounterPayload;
    assert Advanced(before, after, c.details, write.candidate.value);
    AdvancedCounter(before, after, c.details, write.candidate.value);
  }

  // ----- A creation nobody interferes with ---------------------------------------------------

  function Latest(stored: Option<nat>, occupied: Option<nat>): Option<nat> {
    if stored.None? then occupied
    else if occupied.None? || occupied.value <= stored.value then stored
    else occupied
  }

  /** The command can create its document under this name now. */
  predicate CanTake(c: Creation, store: Store, used: nat, name: string) {
    && c.accepts(used, name) && EventsOf(store, DocumentStream(name)) == []
    && c.side(used, name).Ok? && VersionsMatch(store, c.side(used, name).value)
  }

  /** A live document has the name, and the command gets as far as seeing that. */
  predicate IsTaken(c: Creation, store: Store, used: nat, name: string) {
    c.accepts(used, name) && IsLive(FoldOf(store, DocumentStream(name)))
  }

  function ValueAt(c: Creation, store: Store, i: nat): nat {
    Value(c.strategy, First(c.strategy, CurrentIn(store, c.series)), i)
  }

  predicate Passes(c: Creation, store: Store, i: nat) {
    var v := ValueAt(c, store, i);
    IsExcluded(c.strategy, v) || (IsOffered(c.strategy, v) && IsTaken(c, store, i + 1, c.strategy.render(v).value))
  }

  /** The i-th number from the counter on is the first not passed over, and it can be used. */
  predicate Opens(c: Creation, store: Store, i: nat) {
    var v := ValueAt(c, store, i);
    && i < c.strategy.maxAttempts && ValueAt(c, store, i + 1) <= MAX_SAFE_INTEGER
    && IsOffered(c.strategy, v) && CanTake(c, store, i + 1, c.strategy.render(v).value)
    && forall k | 0 <= k < i :: Passes(c, store, k)
  }

  lemma {:induction false} TakenIsNotFree(c: Creation, store: Store, used: nat, name: string)
    ensures !(IsTaken(c, store, used, name) && CanTake(c, store, used, name))
  {
  }

  /** Where a number neither passes nor opens, nothing later opens. */
  lemma {:induction false} StuckAt(c: Creation, store: Store, m: nat)
    requires forall k | 0 <= k < m :: Passes(c, store, k)
    requires !Passes(c, store, m) && !Opens(c, store, m)
    ensures forall k :: !Opens(c, store, k)
  {
    hide ValueAt, CanTake, IsTaken;
    forall k: nat | k < m
      ensures !Opens(c, store, k)
    {
      var name := c.strategy.render(ValueAt(c, store, k));
      if name.Ok? {
        TakenIsNotFree(c, store, k + 1, name.value);
      }
      assert Passes(c, store, k);
    }
  }

  // ----- A series that is stuck -----------------------------------------------------------------

  /** The number renders the name of a document that was created before. */
  predicate IsUsed(s: Strategy, store: Store, value: nat) {
    IsOffered(s, value) && EventsOf(store, DocumentStream(s.render(value).value)) != []
  }

  /** The m-th number from the counter on renders the name of a deleted document; each before it is excluded or used. */
  predicate IsStuckAt(series: string, s: Strategy, store: Store, m: nat) {
    var first := First(s, CurrentIn(store, series));
    && IsOffered(s, Value(s, first, m)) && IsGone(store, s.render(Value(s, first, m)).value)
    && forall k | 0 <= k < m :: IsExcluded(s, Value(s, first, k)) || IsUsed(s, store, Value(s, first, k))
  }

  ghost predicate IsStuck(series: string, s: Strategy, store: Store) {
    exists m :: IsStuckAt(series, s, store, m)
  }

  /**
  Nothing opens on a stuck series, whatever is to be created: the stream of the deleted document is
  not empty, so its name is not free, and the document is not live, so its number is not passed over.
  */
  lemma {:induction false} DeletedNameBlocks(c: Creation, store: Store)
    requires IsStuck(c.series, c.strategy, store)
    ensures forall k :: !Opens(c, store, k)
  {
    hide FoldOf, EventsOf, First, Value, CurrentIn;
    var m :| IsStuckAt(c.series, c.strategy, store, m);
    assert !Passes(c, store, m);
    forall k: nat | k <= m
      ensures !Opens(c, store, k)
    {
      assert k < m ==> IsExcluded(c.strategy, ValueAt(c, store, k)) || IsUsed(c.strategy, store, ValueAt(c, store, k));
    }
  }

  /** A stuck series stays stuck until its counter moves, whatever else is committed. */
  lemma {:induction false} StaysStuck(run: Run, series: string, s: Strategy, m: nat, i: nat, j: nat)
    requires IsSeriesRun(run) && i <= j < |run|
    requires IsStuckAt(series, s, run[i], m) && CurrentIn(run[j], series) == CurrentIn(run[i], series)
    ensures IsStuckAt(series, s, run[j], m)
  {
    hide FoldOf, First, Value, CurrentIn, IsExcluded, Step, IsSeriesRun, EventsOf;
    StreamsExtend(run, i, j);
    var first := First(s, CurrentIn(run[i], series));
    forall k | 0 <= k < m
      ensures IsExcluded(s, Value(s, first, k)) || IsUsed(s, run[j], Value(s, first, k))
    {
      var value := Value(s, first, k);
      if !IsExcluded(s, value) {
        assert IsUsed(s, run[i], value);
        assert EventsOf(run[i], DocumentStream(s.render(value).value)) <= EventsOf(run[j], DocumentStream(s.render(value).value));
      }
    }
  }

  const STUCK_NAME := "N" + Digits(1)
  const STUCK_CREATED: Payload := Created(map[], IsDraft)
  const STUCK_FIRST: Store := map[DocumentStream(STUCK_NAME) := [STUCK_CREATED]]
  const STUCK_SECOND: Store := map[DocumentStream(STUCK_NAME) := [STUCK_CREATED, Deleted]]

  /** A document is created under a name of its own and deleted; then its DocType gets a series that starts with that name. */
  const STUCK_RUN: Run := [map[], STUCK_FIRST, STUCK_SECOND]

  /** The numbers with the letter N in front, from 1 on. */
  predicate IsNumbered(s: Strategy) {
    IsNormalized(s) && s.start == 1 && s.render(1) == Ok(STUCK_NAME) && !s.excludes(1, STUCK_NAME)
  }

  lemma {:induction false} StuckRun(series: string, s: Strategy)
    requires IsNumbered(s)
    ensures IsRun([], STUCK_RUN) && IsSeriesRun(STUCK_RUN)
    ensures IsStuck(series, s, STUCK_RUN[2])
    ensures forall c: Creation, k | c.series == series && c.strategy == s :: !Opens(c, STUCK_RUN[2], k)
  {
    var d := DocumentStream(STUCK_NAME);
    assert EventsOf(STUCK_FIRST, d) == [STUCK_CREATED] && EventsOf(STUCK_SECOND, d) == [STUCK_CREATED, Deleted];
    assert [] + [STUCK_CREATED] == [STUCK_CREATED] && [STUCK_CREATED] + [Deleted] == [STUCK_CREATED, Deleted];
    FoldSnoc([], STUCK_CREATED);
    FoldSnoc([STUCK_CREATED], Deleted);
    hide FoldFrom, Digits, UniqueProtocol.StepAt, IsSeriesRun;
    StuckStep(STUCK_RUN, 1, None, STUCK_CREATED);
    assert STUCK_SECOND == STUCK_FIRST[d := [STUCK_CREATED, Deleted]];
    StuckStep(STUCK_RUN, 2, Some(Snapshot(1, IsDraft, map[])), Deleted);
    DocumentRunIsSeriesRun([], STUCK_RUN);
    NoCounterYet(series);
    assert IsStuckAt(series, s, STUCK_SECOND, 0);
    hide IsStuckAt, Opens;
    forall c: Creation, k | c.series == series && c.strategy == s
      ensures !Opens(c, STUCK_SECOND, k)
    {
      DeletedNameBlocks(c, STUCK_SECOND);
    }
  }

  lemma NoCounterYet(series: string)
    ensures CurrentIn(STUCK_SECOND, series) == None
  {
    assert EventsOf(STUCK_SECOND, NamingSeriesStream(series)) == [];
  }

  lemma NoReservations(existing: Option<Snapshot>, payload: Payload, name: string)
    ensures NextReservations([], existing, payload, name) == Ok([]) && PreviousReservations([], existing, payload, name) == Ok([])
    ensures Released([], []) == []
  {
  }

  lemma {:induction false} StuckCommit(store: Store, plan: Plan)
    requires plan.reserve == [] && plan.release == []
    requires |EventsOf(store, DocumentStream(plan.name))| == if plan.payload.Created? then 0 else VersionOf(plan.existing)
    ensures CommitBatch(store, AtomicCommitEntries(plan))
         == Ok(store[DocumentStream(plan.name) := EventsOf(store, DocumentStream(plan.name)) + [plan.payload]])
  {
    hide FoldFrom, Apply, EventsOf, AppendEach;
    var entries := AtomicCommitEntries(plan);
    assert entries == [DocumentEntry(plan)];
    AppendOne(store, DocumentEntry(plan));
  }

  lemma {:induction false} AppendOne(store: Store, e: Entry)
    ensures AppendEach(store, [e]) == store[e.stream := EventsOf(store, e.stream) + e.events]
  {
    assert [e][..0] == [];
  }

  lemma {:induction false} StuckStep(run: Run, n: nat, existing: Option<Snapshot>, payload: Payload)
    requires 0 < n < |run| && Allowed(existing, payload) && (payload.Created? ==> payload.data == map[])
    requires payload.Created? || payload.Deleted?
    requires existing == FoldOf(run[n - 1], DocumentStream(STUCK_NAME)) && (existing.Some? ==> existing.value.data == map[])
    requires VersionOf(existing) == |EventsOf(run[n - 1], DocumentStream(STUCK_NAME))|
    requires payload.Created? ==> existing.None?
    requires run[n] == run[n - 1][DocumentStream(STUCK_NAME) := EventsOf(run[n - 1], DocumentStream(STUCK_NAME)) + [payload]]
    ensures UniqueProtocol.StepAt([], run, n)
  {
    var plan := Plan(STUCK_NAME, n - 1, existing, payload, [], []);
    NoReservations(existing, payload, STUCK_NAME);
    StuckCommit(run[n - 1], plan);
    assert run[..n][n - 1] == run[n - 1] && |run[..n]| == n;
    hide FoldFrom, ReserveDecided, ReleaseDecided, NextReservations, PreviousReservations, Allowed, Released, AtomicCommitEntries,
      CommitBatch, EventsOf;
    assert Planned([], run[..n], plan);
    assert Commits([], run[..n], plan, run[n]);
  }

  // ----- From one attempt to the whole call ---------------------------------------------------

  /** What one attempt of the call ends in. */
  datatype Outcome =
    | Done(candidate: Candidate)
    | Taken(candidate: Candidate)
    | Raced(candidate: Candidate)
    | Failed(at: Option<Candidate>, error: Error)

  /** How an attempt ends when nobody else commits, `used` numbers having been looked at before. */
  ghost predicate EndsQuietly(c: Creation, store: Store, first: nat, used: nat, outcome: Outcome)
    requires used <= c.strategy.maxAttempts
  {
    var limit := c.strategy.maxAttempts - used;
    match outcome
    case Done(found) => IsFound(c.strategy, first, limit, found) && CanTake(c, store, used + found.attempts, found.name)
    case Taken(found) => IsFound(c.strategy, first, limit, found) && IsTaken(c, store, used + found.attempts, found.name)
    case Raced(_) => false
    case Failed(None, _) => FindsNothing(c.strategy, first, limit)
    case Failed(Some(found), _) =>
      && IsFound(c.strategy, first, limit, found)
      && !CanTake(c, store, used + found.attempts, found.name) && !IsTaken(c, store, used + found.attempts, found.name)
  }

  lemma {:induction false} QuietIsNotRaced(c: Creation, store: Store, first: nat, used: nat, found: Candidate)
    requires used <= c.strategy.maxAttempts
    ensures !EndsQuietly(c, store, first, used, Raced(found))
  {
  }

  /** The call so far: every number looked at was passed over, the last one being the number known to be occupied. */
  predicate PassedSoFar(c: Creation, store: Store, used: nat, occupied: Option<nat>) {
    (forall k | 0 <= k < used :: Passes(c, store, k)) && occupied == LastLookedAt(c, store, used)
  }

  function LastLookedAt(c: Creation, store: Store, used: nat): Option<nat> {
    if used == 0 then None else Some(ValueAt(c, store, used - 1))
  }

  lemma {:induction false} ValueShifts(s: Strategy, first: nat, used: nat, i: nat)
    ensures Value(s, Value(s, first, used), i) == Value(s, first, used + i)
  {
    if i > 0 {
      ValueShifts(s, first, used, i - 1);
    }
  }

  /** The next attempt goes on with the number after the last one looked at. */
  lemma {:induction false} GoesOn(c: Creation, store: Store, used: nat, occupied: Option<nat>)
    requires IsNormalized(c.strategy) && occupied == LastLookedAt(c, store, used)
    ensures First(c.strategy, Latest(CurrentIn(store, c.series), occupied)) == ValueAt(c, store, used)
  {
    hide CurrentIn;
    var first := First(c.strategy, CurrentIn(store, c.series));
    if used > 0 {
      FurtherIsMore(c.strategy, first, 0, used - 1);
    }
  }

  /** The numbers an attempt excluded, and the one it found, as numbers counted from the start of the call. */
  lemma {:induction false} FoundAt(c: Creation, store: Store, used: nat, found: Candidate)
    requires used <= c.strategy.maxAttempts
    requires IsFound(c.strategy, ValueAt(c, store, used), c.strategy.maxAttempts - used, found)
    ensures 1 <= found.attempts
    ensures var m := used + found.attempts - 1;
      && m < c.strategy.maxAttempts && found.value == ValueAt(c, store, m) && ValueAt(c, store, m + 1) <= MAX_SAFE_INTEGER
      && IsOffered(c.strategy, found.value)
      && forall k | used <= k < m :: Passes(c, store, k)
  {
    hide IsTaken, IsOffered, CurrentIn;
    var s, first := c.strategy, First(c.strategy, CurrentIn(store, c.series));
    var m := used + found.attempts - 1;
    ValueShifts(s, first, used, found.attempts - 1);
    ValueShifts(s, first, used, found.attempts);
    forall k | used <= k < m
      ensures Passes(c, store, k)
    {
      ValueShifts(s, first, used, k - used);
      assert IsExcluded(s, Value(s, ValueAt(c, store, used), k - used));
    }
  }

  /** On a stuck series an attempt finds no number beyond the one it is stuck at, and a name that was used before. */
  lemma {:induction false} FoundWithin(c: Creation, store: Store, m: nat, used: nat, found: Candidate)
    requires used <= m && used <= c.strategy.maxAttempts && IsStuckAt(c.series, c.strategy, store, m)
    requires IsFound(c.strategy, ValueAt(c, store, used), c.strategy.maxAttempts - used, found)
    ensures 1 <= found.attempts && used + found.attempts <= m + 1
    ensures Some(found.value) == LastLookedAt(c, store, used + found.attempts)
    ensures EventsOf(store, DocumentStream(found.name)) != []
    ensures used + found.attempts == m + 1 ==> IsGone(store, found.name)
  {
    hide IsTaken, IsOffered, CurrentIn, FoldOf, EventsOf;
    var s, first := c.strategy, First(c.strategy, CurrentIn(store, c.series));
    ValueShifts(s, first, used, found.attempts - 1);
    ValueShifts(s, first, used, m - used);
    if m - used < found.attempts - 1 {
      assert IsExcluded(s, Value(s, ValueAt(c, store, used), m - used));
      ExcludedIsNotOffered(s, ValueAt(c, store, m));
    }
    ExcludedIsNotOffered(s, found.value);
  }

  lemma ExcludedIsNotOffered(s: Strategy, value: nat)
    ensures !(IsExcluded(s, value) && IsOffered(s, value))
  {
  }

  lemma {:induction false} DoneOpens(c: Creation, store: Store, used: nat, found: Candidate)
    requires used <= c.strategy.maxAttempts && forall k | 0 <= k < used :: Passes(c, store, k)
    requires EndsQuietly(c, store, ValueAt(c, store, used), used, Done(found))
    ensures Opens(c, store, used + found.attempts - 1) && found.value == ValueAt(c, store, used + found.attempts - 1)
  {
    hide ValueAt, CanTake, Passes, IsFound;
    FoundAt(c, store, used, found);
    assert IsFound(c.strategy, ValueAt(c, store, used), c.strategy.maxAttempts - used, found);
    RenderedAs(c.strategy, ValueAt(c, store, used), c.strategy.maxAttempts - used, found);
  }

  lemma {:induction false} RenderedAs(s: Strategy, first: nat, limit: nat, found: Candidate)
    requires IsFound(s, first, limit, found)
    ensures s.render(found.value) == Ok(found.name)
    ensures 1 <= found.attempts <= limit
  {
  }

  lemma {:induction false} TakenPasses(c: Creation, store: Store, used: nat, found: Candidate)
    requires used <= c.strategy.maxAttempts && forall k | 0 <= k < used :: Passes(c, store, k)
    requires EndsQuietly(c, store, ValueAt(c, store, used), used, Taken(found))
    ensures PassedSoFar(c, store, used + found.attempts, Some(found.value))
  {
    hide ValueAt, IsTaken, IsFound;
    FoundAt(c, store, used, found);
    RenderedAs(c.strategy, ValueAt(c, store, used), c.strategy.maxAttempts - used, found);
  }

  /** If nothing more can be found, nothing opens: the first number not excluded would have been found. */
  lemma {:induction false} NothingOpens(c: Creation, store: Store, used: nat, k: nat)
    requires used <= k && Opens(c, store, k)
    ensures !FindsNothing(c.strategy, ValueAt(c, store, used), c.strategy.maxAttempts - used)
  {
    hide CanTake, IsTaken, CurrentIn;
    var s, first := c.strategy, First(c.strategy, CurrentIn(store, c.series));
    var m := FirstOffered(c, store, used, k);
    ValueShifts(s, first, used, m - used);
    ValueShifts(s, first, used, m - used + 1);
    FurtherIsMore(s, first, m + 1, k + 1);
    forall i | 0 <= i < m - used
      ensures IsExcluded(s, Value(s, ValueAt(c, store, used), i))
    {
      ValueShifts(s, first, used, i);
      assert IsExcluded(s, ValueAt(c, store, used + i));
    }
    assert Finds(s, ValueAt(c, store, used), s.maxAttempts - used, m - used);
  }

  lemma {:induction false} FirstOffered(c: Creation, store: Store, used: nat, k: nat) returns (m: nat)
    requires used <= k && Opens(c, store, k)
    ensures used <= m <= k && IsOffered(c.strategy, ValueAt(c, store, m))
    ensures forall i | used <= i < m :: IsExcluded(c.strategy, ValueAt(c, store, i))
  {
    hide ValueAt, CanTake, IsTaken;
    m := used;
    while !IsOffered(c.strategy, ValueAt(c, store, m))
      invariant used <= m <= k
      invariant forall i | used <= i < m :: IsExcluded(c.strategy, ValueAt(c, store, i))
      decreases k - m
    {
      assert m < k ==> Passes(c, store, m);
      m := m + 1;
    }
  }

  lemma {:induction false} FailedOpensNowhere(c: Creation, store: Store, used: nat, at: Option<Candidate>, error: Error)
    requires IsNormalized(c.strategy)
    requires used < c.strategy.maxAttempts && forall k | 0 <= k < used :: Passes(c, store, k)
    requires EndsQuietly(c, store, ValueAt(c, store, used), used, Failed(at, error))
    ensures forall k :: !Opens(c, store, k)
  {
    hide ValueAt, CanTake, IsTaken, IsFound, Finds;
    match at
    case Some(found) =>
      FoundAt(c, store, used, found);
      RenderedAs(c.strategy, ValueAt(c, store, used), c.strategy.maxAttempts - used, found);
      StuckAt(c, store, used + found.attempts - 1);
    case None =>
      forall k: nat
        ensures !Opens(c, store, k)
      {
        if k < used && IsOffered(c.strategy, ValueAt(c, store, k)) {
          assert Passes(c, store, k);
          TakenIsNotFree(c, store, k + 1, c.strategy.render(ValueAt(c, store, k)).value);
        } else if used <= k && Opens(c, store, k) {
          NothingOpens(c, store, used, k);
          assert false;
        }
      }
  }

  lemma {:induction false} UsedUpOpensNowhere(c: Creation, store: Store, used: nat)
    requires c.strategy.maxAttempts <= used && forall k | 0 <= k < used :: Passes(c, store, k)
    ensures forall k :: !Opens(c, store, k)
  {
    hide ValueAt, CanTake, IsTaken;
    forall k: nat | k < used
      ensures !Opens(c, store, k)
    {
      assert Passes(c, store, k);
      if IsOffered(c.strategy, ValueAt(c, store, k)) {
        TakenIsNotFree(c, store, k + 1, c.strategy.render(ValueAt(c, store, k)).value);
      }
    }
  }

  lemma {:induction false} CandidateIsPast(c: Creation, store: Store, occupied: Option<nat>, limit: nat, write: CounterWrite)
    requires write.existing == FoldOf(store, NamingSeriesStream(c.series)) && 0 < c.strategy.step
    requires IsFound(c.strategy, First(c.strategy, Latest(Current(write.existing), occupied)), limit, write.candidate)
    ensures IsRead(c, store, write)
  {
    hide FoldOf, Current;
    var s, first, i := c.strategy, First(c.strategy, Latest(Current(write.existing), occupied)), write.candidate.attempts - 1;
    FurtherIsMore(s, first, 0, i);
  }

  lemma {:induction false} CreationMismatch(c: Creation, store: Store, write: CounterWrite, side: seq<Entry>)
    requires |EventsOf(store, NamingSeriesStream(c.series))| == VersionOf(write.existing)
    ensures VersionsMatch(store, CreationEntries(c, write, side))
       <==> VersionsMatch(store, side) && EventsOf(store, DocumentStream(write.candidate.name)) == []
  {
    hide EventsOf, CounterPayload;
    var entries := CreationEntries(c, write, side);
    assert entries[0].expectedVersion == VersionOf(write.existing) && entries[0].stream == NamingSeriesStream(c.series);
    assert entries[|entries| - 1] == Entry(DocumentStream(write.candidate.name), 0, [Created(TargetData(c, write.candidate.name), IsDraft)]);
    assert forall i | 0 <= i < |side| :: entries[i + 1] == side[i];
    assert forall i | 0 < i < |entries| - 1 :: entries[i] == side[i - 1];
  }

  lemma {:induction false} StillAtVersion(c: Creation, run: Run, readAt: nat, write: CounterWrite)
    requires IsSeriesRun(run) && readAt < |run| && IsRead(c, run[readAt], write) && run[readAt] == run[|run| - 1]
    ensures |EventsOf(run[|run| - 1], NamingSeriesStream(c.series))| == VersionOf(write.existing)
  {
    CounterVersion(run, c.series);
  }

  lemma {:induction false} CounterHasMoved(run: Run, series: string, readAt: nat, existing: Option<Snapshot>)
    requires IsSeriesRun(run) && readAt < |run| && existing == FoldOf(run[readAt], NamingSeriesStream(series))
    ensures |EventsOf(run[|run| - 1], NamingSeriesStream(series))| != VersionOf(existing) ==>
              CurrentIn(run[|run| - 1], series) != CurrentIn(run[readAt], series)
  {
    hide Current, Fold, Step;
    CountersAdvance(run, series, readAt, |run| - 1);
    CountersAdvance(run, series, readAt, readAt);
    FoldVersion(EventsOf(run[readAt], NamingSeriesStream(series)));
  }

  lemma {:induction false} UsedStays(run: Run, i: nat, j: nat, name: string)
    requires IsSeriesRun(run) && i <= j < |run|
    ensures EventsOf(run[i], DocumentStream(name)) != [] ==> EventsOf(run[j], DocumentStream(name)) != []
  {
    StreamsExtend(run, i, j);
    assert EventsOf(run[i], DocumentStream(name)) <= EventsOf(run[j], DocumentStream(name));
  }

  /** One round on a stuck series, its store read at `head` and by now at the end of the run. */
  lemma {:induction false} StuckRound(c: Creation, run: Run, start: nat, head: nat, m: nat, used: nat, occupied: Option<nat>,
                                      outcome: Outcome)
    requires IsSeriesRun(run) && start <= head < |run| && IsNormalized(c.strategy) && used < c.strategy.maxAttempts
    requires IsStuckAt(c.series, c.strategy, run[start], m)
    requires CurrentIn(run[head], c.series) == CurrentIn(run[start], c.series) ==>
               used <= m && occupied == LastLookedAt(c, run[head], used)
    requires !outcome.Failed? ==>
               IsFound(c.strategy, First(c.strategy, Latest(CurrentIn(run[head], c.series), occupied)),
                       c.strategy.maxAttempts - used, outcome.candidate)
    requires outcome.Done? ==>
               head <= |run| - 2 && EventsOf(run[|run| - 2], DocumentStream(outcome.candidate.name)) == []
    requires outcome.Taken? ==> IsLive(FoldOf(run[|run| - 1], DocumentStream(outcome.candidate.name)))
    requires outcome.Raced? ==> CurrentIn(run[|run| - 1], c.series) != CurrentIn(run[head], c.series)
    ensures outcome.Done? ==> CurrentIn(run[|run| - 2], c.series) != CurrentIn(run[start], c.series)
    ensures outcome.Taken? && CurrentIn(run[|run| - 1], c.series) == CurrentIn(run[start], c.series) ==>
              && used + outcome.candidate.attempts <= m
              && Some(outcome.candidate.value) == LastLookedAt(c, run[|run| - 1], used + outcome.candidate.attempts)
    ensures outcome.Raced? ==> CurrentIn(run[|run| - 1], c.series) != CurrentIn(run[start], c.series)
  {
    hide IsSeriesRun, IsStuckAt, FoldOf, IsFound, CurrentIn, Value, First;
    var last := |run| - 1;
    if CurrentIn(run[head], c.series) != CurrentIn(run[start], c.series) {
      MovedStays(run, c.series, start, head, last);
      if outcome.Done? {
        MovedStays(run, c.series, start, head, last - 1);
      }
    } else if !outcome.Failed? {
      var found := outcome.candidate;
      StaysStuck(run, c.series, c.strategy, m, start, head);
      GoesOn(c, run[head], used, occupied);
      FoundWithin(c, run[head], m, used, found);
      StreamsExtend(run, head, last);
      UsedStays(run, head, if outcome.Done? then last - 1 else last, found.name);
    }
  }

  datatype Disposition = OnCounter | OnDocument | Elsewhere

  /** The part of the document service that names documents from a series, and the adjustment of counters. */
  class SeriesDocuments {
    var store: Store
    /** Every state of the store so far, whoever committed it. */
    ghost var history: Run
    /** Whether nobody else commits. */
    ghost const quiet: bool

    ghost predicate Valid()
      reads this
    {
      history != [] && IsSeriesRun(history) && store == history[|history| - 1]
    }

    constructor (ghost quiet: bool)
      ensures Valid() && this.quiet == quiet && history == [map[]]
    {
      this.quiet := quiet;
      store := map[];
      history := [map[]];
    }

    /** Others may commit here, any number of times. */
    method Interfere()
      requires Valid()
      modifies this
      ensures Valid() && old(history) <= history
      ensures quiet ==> history == old(history) && store == old(store)
    {
    }

    method ReadSnapshot(stream: Stream) returns (snapshot: Option<Snapshot>)
      ensures snapshot == FoldOf(store, stream)
    {
      snapshot := FoldDocumentFrom(None, if stream in store then store[stream] else [], 0);
    }

    /** Appends all entries if every stream is at its expected version, and nothing otherwise. */
    method CommitEntries(entries: seq<Entry>) returns (ok: bool)
      requires Valid() && (VersionsMatch(store, entries) ==> Step(store, AppendEach(store, entries)))
      modifies this
      ensures Valid() && (ok <==> VersionsMatch(old(store), entries))
      ensures ok ==> store == AppendEach(old(store), entries) && history == old(history) + [store]
      ensures !ok ==> store == old(store) && history == old(history)
    {
      hide IsSeriesRun, Step, AppendEach, VersionsMatch;
      ok := Service.DocumentService.AtExpectedVersions(store, entries);
      if ok {
        var next := Service.DocumentService.AppendEntries(store, entries);
        RunSnoc(history, next);
        store := next;
        history := history + [next];
      }
    }

    /** The next candidate after both the stored number and the number known to be occupied. */
    method PlanNamingSeriesWrite(c: Creation, occupied: Option<nat>, limit: nat) returns (r: Result<CounterWrite>)
      requires Valid() && IsNormalized(c.strategy) && limit <= c.strategy.maxAttempts
      ensures var first := First(c.strategy, Latest(CurrentIn(store, c.series), occupied));
        && (r.Ok? ==> r.value.existing == FoldOf(store, NamingSeriesStream(c.series)))
        && (r.Ok? ==> IsRead(c, store, r.value) && IsFound(c.strategy, first, limit, r.value.candidate))
        && (r.Err? ==> FindsNothing(c.strategy, first, limit))
    {
      hide IsSeriesRun, IsFound, IsRead, Finds;
      var existing := ReadSnapshot(NamingSeriesStream(c.series));
      var scanned := ScanNamingCandidates(c.strategy, Latest(Current(existing), occupied), limit);
      if scanned.Err? {
        return Err(scanned.error);
      }
      r := Ok(CounterWrite(existing, scanned.value));
      assert IsFound(c.strategy, First(c.strategy, Latest(Current(existing), occupied)), limit, scanned.value);
      CandidateIsPast(c, store, occupied, limit, r.value);
    }

    /** Why a commit failed: the counter moved, or a live document has the name, or something else. */
    method NamingConflictDisposition(c: Creation, write: CounterWrite) returns (d: Disposition)
      requires Valid()
      modifies this
      ensures Valid() && old(history) <= history && (quiet ==> history == old(history) && store == old(store))
      ensures d == OnCounter ==> |EventsOf(store, NamingSeriesStream(c.series))| != VersionOf(write.existing)
      ensures d == OnDocument ==> IsLive(FoldOf(store, DocumentStream(write.candidate.name)))
    {
      hide IsSeriesRun;
      var events := if NamingSeriesStream(c.series) in store then store[NamingSeriesStream(c.series)] else [];
      if |events| != VersionOf(write.existing) {
        return OnCounter;
      }
      Interfere();
      var document := ReadSnapshot(DocumentStream(write.candidate.name));
      d := if IsLive(document) then OnDocument else Elsewhere;
    }

    /** One round of the naming loop, after `used` numbers were looked at. */
    method TryCreate(c: Creation, used: nat, occupied: Option<nat>) returns (outcome: Outcome)
      requires Valid() && IsCreation(c) && used < c.strategy.maxAttempts
      modifies this
      ensures Valid() && old(history) <= history
      ensures !outcome.Failed? ==> 1 <= outcome.candidate.attempts <= c.strategy.maxAttempts - used
      ensures !outcome.Failed? ==>
                IsFound(c.strategy, First(c.strategy, Latest(CurrentIn(old(store), c.series), occupied)),
                        c.strategy.maxAttempts - used, outcome.candidate)
      ensures outcome.Done? ==> IsCreated(c, outcome.candidate, |old(history)|)
      ensures outcome.Taken? ==> IsLive(FoldOf(store, DocumentStream(outcome.candidate.name)))
      ensures outcome.Raced? ==> CurrentIn(store, c.series) != CurrentIn(old(store), c.series)
      ensures quiet && !outcome.Done? ==> store == old(store)
      ensures quiet ==>
                EndsQuietly(c, old(store), First(c.strategy, Latest(CurrentIn(old(store), c.series), occupied)), used, outcome)
    {
      hide IsSeriesRun, Issued, Step, IsRead, IsFound, FindsNothing, VersionsMatch, FoldOf, EventsOf, First, Current, TargetData;
      ghost var readAt := |history| - 1;
      var write := PlanNamingSeriesWrite(c, occupied, c.strategy.maxAttempts - used);
      if write.Err? {
        return Failed(None, write.error);
      }
      var found := write.value.candidate;
      RenderedAs(c.strategy, First(c.strategy, Latest(CurrentIn(store, c.series), occupied)), c.strategy.maxAttempts - used, found);
      Interfere();
      if !c.accepts(used + found.attempts, found.name) {
        return Failed(Some(found), Invalid);
      }
      var existing := ReadSnapshot(DocumentStream(found.name));
      if IsLive(existing) {
        return Taken(found);
      }
      Interfere();
      var side := c.side(used + found.attempts, found.name);
      if side.Err? {
        return Failed(Some(found), side.error);
      }
      var ok := CommitCreation(c, readAt, write.value, side.value);
      if ok {
        return Done(found);
      }
      var disposition := NamingConflictDisposition(c, write.value);
      CounterHasMoved(history, c.series, readAt, write.value.existing);
      outcome := match disposition
        case OnCounter => Raced(found)
        case OnDocument => Taken(found)
        case Elsewhere => Failed(Some(found), Conflict);
    }

    /** The newest state is the result of the commit that created the document, made during the call. */
    ghost predicate IsCreated(c: Creation, candidate: Candidate, before: nat)
      reads this
    {
      && 0 < before < |history|
      && EventsOf(history[|history| - 2], DocumentStream(candidate.name)) == []
      && Issued(history[|history| - 2], store, c.series, c.strategy, candidate.value, candidate.name)
      && EventsOf(store, DocumentStream(candidate.name)) == [Created(TargetData(c, candidate.name), IsDraft)]
    }

    method CommitCreation(c: Creation, ghost readAt: nat, write: CounterWrite, side: seq<Entry>) returns (ok: bool)
      requires Valid() && readAt < |history| && IsRead(c, history[readAt], write) && IsSide(side)
      modifies this
      ensures Valid() && old(history) <= history
      ensures ok ==> IsCreated(c, write.candidate, |old(history)|)
      ensures quiet && !ok ==> store == old(store) && history == old(history)
      ensures quiet && history[readAt] == old(store) ==>
                && (ok <==> VersionsMatch(old(store), side) && EventsOf(old(store), DocumentStream(write.candidate.name)) == [])
                && |EventsOf(old(store), NamingSeriesStream(c.series))| == VersionOf(write.existing)
    {
      hide IsSeriesRun, Step, AppendEach, VersionsMatch, CreationEntries, EventsOf, FoldOf, IsRead;
      Interfere();
      var entries := CreationEntries(c, write, side);
      if VersionsMatch(store, entries) {
        CreationIssues(c, history, readAt, write, side);
      }
      if history[readAt] == store {
        StillAtVersion(c, history, readAt, write);
        CreationMismatch(c, store, write, side);
      }
      ok := CommitEntries(entries);
    }

    /** Creates a document under the next free name of the series. */
    method Create(c: Creation) returns (r: Result<Candidate>)
      requires Valid() && IsCreation(c)
      modifies this
      ensures Valid() && old(history) <= history
      ensures r.Ok? ==> 1 <= r.value.attempts <= c.strategy.maxAttempts && IsCreated(c, r.value, |old(history)|)
      ensures quiet && r.Ok? ==> var i := r.value.attempts - 1;
        Opens(c, old(store), i) && r.value.value == ValueAt(c, old(store), i)
      ensures quiet && r.Err? ==> store == old(store) && forall k :: !Opens(c, old(store), k)
      ensures r.Ok? && IsStuck(c.series, c.strategy, old(store)) ==>
                CurrentIn(history[|history| - 2], c.series) != CurrentIn(old(store), c.series)
    {
      hide IsSeriesRun, Issued, Passes, Opens, EndsQuietly, CurrentIn, TargetData, EventsOf, IsStuckAt, FoldOf, IsFound, IsGone,
        First, Latest, ValueAt, IsLive;
      ghost var start := |history| - 1;
      ghost var stuck := IsStuck(c.series, c.strategy, store);
      ghost var m: nat := 0;
      if stuck {
        m :| IsStuckAt(c.series, c.strategy, store, m);
      }
      var used := 0;
      var occupied := None;
      while used < c.strategy.maxAttempts
        invariant 0 <= used <= c.strategy.maxAttempts
        invariant Valid() && old(history) <= history
        invariant quiet ==> store == old(store) && PassedSoFar(c, store, used, occupied)
        invariant stuck && CurrentIn(store, c.series) == CurrentIn(old(store), c.series) ==>
                    used <= m && occupied == LastLookedAt(c, store, used)
      {
        ghost var head := |history| - 1;
        if quiet {
          GoesOn(c, store, used, occupied);
        }
        var outcome := TryCreate(c, used, occupied);
        if stuck {
          StuckRound(c, history, start, head, m, used, occupied, outcome);
        }
        match outcome
        case Failed(at, error) =>
          if quiet {
            FailedOpensNowhere(c, store, used, at, error);
          }
          return Err(error);
        case Done(found) =>
          if quiet {
            DoneOpens(c, old(store), used, found);
          }
          return Ok(found.(attempts := used + found.attempts));
        case Taken(found) =>
          if quiet {
            TakenPasses(c, store, used, found);
          }
          used := used + found.attempts;
          occupied := Some(found.value);
        case Raced(found) =>
          QuietIsNotRaced(c, store, ValueAt(c, store, used), used, found);
          used := used + found.attempts;
      }
      if quiet {
        UsedUpOpensNowhere(c, store, used);
      }
      r := Err(Conflict);
    }

    /** Moves a counter forward by hand. */
    method Adjust(series: string, details: Data, value: nat, expectedVersion: nat) returns (r: Result<()>)
      requires Valid()
      modifies this
      ensures Valid() && old(history) <= history
      ensures r.Ok? ==> CurrentIn(store, series) == Some(value)
      ensures quiet ==> (r.Ok? <==>
                && value <= MAX_SAFE_INTEGER && |EventsOf(old(store), NamingSeriesStream(series))| == expectedVersion
                && (CurrentIn(old(store), series).Some? ==> CurrentIn(old(store), series).value <= value))
      ensures quiet && r.Err? ==> store == old(store)
    {
      hide IsSeriesRun, EventsOf, Fold, Current, Step, AppendEach, CounterPayload;
      if value > MAX_SAFE_INTEGER {
        return Err(BadRequest);
      }
      ghost var readAt := |history| - 1;
      var existing := ReadSnapshot(NamingSeriesStream(series));
      CounterVersion(history, series);
      if VersionOf(existing) != expectedVersion {
        return Err(Conflict);
      }
      var current := Current(existing);
      if current.Some? && value < current.value {
        return Err(Invalid);
      }
      if current != Some(value) {
        var entry := Entry(NamingSeriesStream(series), VersionOf(existing), [CounterPayload(existing, details, value)]);
        Interfere();
        assert [entry][0] == entry;
        if VersionsMatch(store, [entry]) {
          AdjustIssues(history, series, readAt, existing, details, value);
        }
        var ok := CommitEntries([entry]);
        if !ok {
          return Err(Conflict);
        }
      }
      r := Ok(());
    }
  }

  lemma {:induction false} AdjustIssues(run: Run, series: string, readAt: nat, existing: Option<Snapshot>, details: Data, value: nat)
    requires IsSeriesRun(run) && readAt < |run| && existing == FoldOf(run[readAt], NamingSeriesStream(series))
    requires IsPast(value, Current(existing)) && value <= MAX_SAFE_INTEGER
    requires |EventsOf(run[|run| - 1], NamingSeriesStream(series))| == VersionOf(existing)
    ensures var s := NamingSeriesStream(series);
      var next := AppendEach(run[|run| - 1], [Entry(s, VersionOf(existing), [CounterPayload(existing, details, value)])]);
      Step(run[|run| - 1], next) && CurrentIn(next, series) == Some(value)
  {
    var last, s := run[|run| - 1], NamingSeriesStream(series);
    var entries := [Entry(s, VersionOf(existing), [CounterPayload(existing, details, value)])];
    var next := AppendEach(last, entries);
    CounterUnmoved(run, series, readAt, existing);
    AppendEachExtends(last, entries);
    AppendEachGrows(last, entries);
    assert entries[0].stream == s;
    hide AppendEach, Fold, Extends, CounterPayload, Current;
    forall other | other != series
      ensures EventsOf(next, NamingSeriesStream(other)) == EventsOf(last, NamingSeriesStream(other))
    {
      assert forall i | 0 <= i < |entries| :: entries[i].stream != NamingSeriesStream(other);
    }
    assert Advanced(EventsOf(last, s), EventsOf(next, s), details, value);
    AdvancedCounter(EventsOf(last, s), EventsOf(next, s), details, value);
  }
}
