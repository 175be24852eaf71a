/**
Naming series: counter streams that record the last number used, the runs in which they move, and
the scan for the next number.
*/
module NamingSeries {
  import opened Results
  import opened Documents
  import opened UniqueProtocol

  const DEFAULT_MAX_ATTEMPTS: nat := 10000

  /** How numbers become names, for the data and time of one command; rendering may reject a number. */
  datatype Strategy = Strategy(start: nat, step: nat, maxAttempts: nat, targetField: Option<string>,
                               render: nat -> Result<string>, excludes: (nat, string) -> bool)

  predicate IsNormalized(s: Strategy) {
    && 1 <= s.start <= MAX_SAFE_INTEGER && 1 <= s.step <= MAX_SAFE_INTEGER
    && 1 <= s.maxAttempts <= DEFAULT_MAX_ATTEMPTS
  }

  // ----- The number a counter stream has reached -----------------------------------------

  function Digits(n: nat): string {
    var last := (n % 10 + '0' as int) as char;
    if n < 10 then [last] else Digits(n / 10) + [last]
  }

  function ParseDigits(text: string): Option<nat> {
    if text == "" || !('0' <= text[|text| - 1] <= '9') then None
    else
      var last := text[|text| - 1] as int - '0' as int;
      if |text| == 1 then Some(last)
      else
        var earlier := ParseDigits(text[..|text| - 1]);
        if earlier.None? then None else Some(10 * earlier.value + last)
  }

  lemma {:induction false} ParseInvertsDigits(n: nat)
    ensures ParseDigits(Digits(n)) == Some(n)
  {
    if n >= 10 {
      ParseInvertsDigits(n / 10);
      var text := Digits(n);
      assert text[..|text| - 1] == Digits(n / 10);
      assert Digits(n / 10) != "";
    }
  }

  /** Only a safe non-negative integer counts as a number. */
  function CurrentValue(value: Json): Option<nat> {
    if !value.Num? then None
    else
      var n := ParseDigits(value.decimal);
      if n.Some? && n.value <= MAX_SAFE_INTEGER then n else None
  }

  function Current(counter: Option<Snapshot>): Option<nat> {
    if counter.None? then None else CurrentValue(Get(counter.value.data, "current"))
  }

  function CounterPayload(existing: Option<Snapshot>, details: Data, value: nat): Payload {
    var data := details["current" := Num(Digits(value))];
    if existing.None? then Created(data, IsDraft) else Updated(data, {})
  }

  // ----- Runs -------------------------------------------------------------------------------

  function CurrentIn(store: Store, series: string): Option<nat> {
    Current(FoldOf(store, NamingSeriesStream(series)))
  }

  predicate IsPast(value: nat, current: Option<nat>) {
    current.None? || current.value < value
  }

  predicate Advanced(before: seq<Payload>, after: seq<Payload>, details: Data, value: nat) {
    && value <= MAX_SAFE_INTEGER && IsPast(value, Current(Fold(before)))
    && after == before + [CounterPayload(Fold(before), details, value)]
  }

  ghost predicate CounterStep(before: seq<Payload>, after: seq<Payload>) {
    after == before || exists details, value :: Advanced(before, after, details, value)
  }

  /** The name was used, and its document is not there any more. */
  predicate IsGone(store: Store, name: string) {
    EventsOf(store, DocumentStream(name)) != [] && !IsLive(FoldOf(store, DocumentStream(name)))
  }

  ghost predicate KeepsGone(store: Store, next: Store) {
    forall name | IsGone(store, name) :: IsGone(next, name)
  }

  /** What any one commit does: streams grow, deleted documents stay deleted, and a counter stays or moves forward. */
  ghost predicate Step(store: Store, next: Store) {
    && Extends(store, next) && KeepsGone(store, next)
    && forall series ::
         CounterStep(EventsOf(store, NamingSeriesStream(series)), EventsOf(next, NamingSeriesStream(series)))
  }

  ghost predicate StepAt(run: Run, n: nat)
    requires 0 < n < |run|
  {
    Step(run[n - 1], run[n])
  }

  ghost predicate IsSeriesRun(run: Run) {
    && run != [] && run[0] == map[]
    && forall n | 0 < n < |run| :: StepAt(run, n)
  }

  predicate IsCounter(events: seq<Payload>) {
    && OpensWithCreation(events)
    && (Current(Fold(events)).None? <==> events == [])
  }

  lemma {:induction false} AdvancedCounter(before: seq<Payload>, after: seq<Payload>, details: Data, value: nat)
    requires IsCounter(before) && Advanced(before, after, details, value)
    ensures IsCounter(after) && Current(Fold(after)) == Some(value)
  {
    FoldVersion(before);
    var payload := CounterPayload(Fold(before), details, value);
    FoldSnoc(before, payload);
    ParseInvertsDigits(value);
    assert payload.Updated? ==> "current" in payload.patch;
  }

  /** A counter only moves forward, through every run; while it does not move its stream does not change. */
  lemma {:induction false} CountersAdvance(run: Run, series: string, i: nat, j: nat)
    requires IsSeriesRun(run) && i <= j < |run|
    ensures IsCounter(EventsOf(run[j], NamingSeriesStream(series)))
    ensures var events, later := EventsOf(run[i], NamingSeriesStream(series)), EventsOf(run[j], NamingSeriesStream(series));
      later == events || (CurrentIn(run[j], series).Some? && IsPast(CurrentIn(run[j], series).value, CurrentIn(run[i], series)))
    decreases j
  {
    hide Fold, Extends, OpensWithCreation, Current;
    if j == 0 {
      assert EventsOf(run[0], NamingSeriesStream(series)) == [];
      EmptyIsCounter();
    } else {
      assert StepAt(run, j);
      var before, after := EventsOf(run[j - 1], NamingSeriesStream(series)), EventsOf(run[j], NamingSeriesStream(series));
      assert CounterStep(before, after);
      if i < j {
        CountersAdvance(run, series, i, j - 1);
      } else {
        CountersAdvance(run, series, j - 1, j - 1);
      }
      if after != before {
        var details, value :| Advanced(before, after, details, value);
        AdvancedCounter(before, after, details, value);
      }
    }
  }

  lemma EmptyIsCounter()
    ensures IsCounter([])
  {
  }

  lemma {:induction false} StreamsExtend(run: Run, i: nat, j: nat)
    requires IsSeriesRun(run) && i <= j < |run|
    ensures Extends(run[i], run[j]) && KeepsGone(run[i], run[j])
    decreases j
  {
    hide CounterStep, EventsOf, IsGone;
    if i < j {
      StreamsExtend(run, i, j - 1);
      assert StepAt(run, j);
    }
  }

  /** Once moved, a counter never comes back to where it was. */
  lemma {:induction false} MovedStays(run: Run, series: string, i: nat, h: nat, j: nat)
    requires IsSeriesRun(run) && i <= h <= j < |run|
    requires CurrentIn(run[h], series) != CurrentIn(run[i], series)
    ensures CurrentIn(run[j], series) != CurrentIn(run[i], series)
  {
    hide Current, EventsOf, IsCounter, Fold;
    CountersAdvance(run, series, i, h);
    CountersAdvance(run, series, h, j);
  }

  /** The commits of the document service are such steps, so its runs are among these. */
  lemma {:induction false} DocumentCommitIsStep(fields: seq<string>, run: Run, plan: Plan, next: Store)
    requires UniqueProtocol.IsRun(fields, run) && Commits(fields, run, plan, next)
    ensures Step(run[|run| - 1], next)
  {
    hide Consistent, Advanced, FoldFrom, Planned, AppendEach, AtomicCommitEntries, EventsOf, Extends, UniqueProtocol.IsRun;
    DocumentCommitElsewhere(fields, run, plan, next);
    AppendEachExtends(run[|run| - 1], AtomicCommitEntries(plan));
  }

  lemma {:induction false} DocumentCommitElsewhere(fields: seq<string>, run: Run, plan: Plan, next: Store)
    requires UniqueProtocol.IsRun(fields, run) && Commits(fields, run, plan, next)
    ensures run != [] && !IsGone(run[|run| - 1], plan.name)
    ensures forall name | name != plan.name ::
              EventsOf(next, DocumentStream(name)) == EventsOf(run[|run| - 1], DocumentStream(name))
    ensures forall series ::
              EventsOf(next, NamingSeriesStream(series)) == EventsOf(run[|run| - 1], NamingSeriesStream(series))
  {
    hide Consistent, FoldFrom, Apply, NextReservations, PreviousReservations, ReservesPlanned, ReleasesPlanned, AppendEach,
      AtomicCommitEntries, EventsOf, UniqueProtocol.StepAt;
    forall t | 0 <= t < |run| ensures Consistent(fields, run[t]) {
      ReachableIsConsistent(fields, run, t);
    }
    DocumentUnmoved(fields, run, plan, |run| - 1);
    CommitGrows(fields, run, plan, next);
  }

  lemma {:induction false} DocumentRunIsSeriesRun(fields: seq<string>, run: Run)
    requires UniqueProtocol.IsRun(fields, run)
    ensures IsSeriesRun(run)
  {
    hide Step, Commits;
    forall n | 0 < n < |run| ensures StepAt(run, n) {
      assert UniqueProtocol.StepAt(fields, run, n);
      var plan :| Commits(fields, run[..n], plan, run[n]);
      RunPrefix(fields, run, n);
      DocumentCommitIsStep(fields, run[..n], plan, run[n]);
    }
  }

  /** A counter still at the version read has not moved since. */
  lemma {:induction false} CounterUnmoved(run: Run, series: string, readAt: nat, existing: Option<Snapshot>)
    requires IsSeriesRun(run) && readAt < |run| && existing == FoldOf(run[readAt], NamingSeriesStream(series))
    ensures IsCounter(EventsOf(run[|run| - 1], NamingSeriesStream(series)))
    ensures |EventsOf(run[|run| - 1], NamingSeriesStream(series))| == VersionOf(existing) ==>
              EventsOf(run[|run| - 1], NamingSeriesStream(series)) == EventsOf(run[readAt], NamingSeriesStream(series))
  {
    hide Step, Fold;
    CountersAdvance(run, series, |run| - 1, |run| - 1);
    CountersAdvance(run, series, readAt, readAt);
    FoldVersion(EventsOf(run[readAt], NamingSeriesStream(series)));
    StreamsExtend(run, readAt, |run| - 1);
  }

  lemma {:induction false} CounterVersion(run: Run, series: string)
    requires IsSeriesRun(run)
    ensures var events := EventsOf(run[|run| - 1], NamingSeriesStream(series));
      |events| == VersionOf(Fold(events))
  {
    CountersAdvance(run, series, |run| - 1, |run| - 1);
    FoldVersion(EventsOf(run[|run| - 1], NamingSeriesStream(series)));
  }

  lemma {:induction false} RunSnoc(run: Run, next: Store)
    requires IsSeriesRun(run) && Step(run[|run| - 1], next)
    ensures IsSeriesRun(run + [next])
  {
    hide Step;
    forall n | 0 < n < |run + [next]|
      ensures StepAt(run + [next], n)
    {
      if n < |run| {
        assert StepAt(run, n);
      }
    }
  }

  /** One commit gave the document this name from the series, and moved the counter to the name's number. */
  predicate Issued(store: Store, next: Store, series: string, strategy: Strategy, value: nat, name: string) {
    && EventsOf(store, DocumentStream(name)) == [] && |EventsOf(next, DocumentStream(name))| == 1
    && strategy.render(value) == Ok(name) && !strategy.excludes(value, name)
    && IsPast(value, CurrentIn(store, series)) && CurrentIn(next, series) == Some(value)
  }

  /** No number of a series names two documents. */
  lemma {:induction false} NeverIssuedTwice(run: Run, series: string, i: nat, j: nat, a: Strategy, v: nat, x: string,
                                            b: Strategy, w: nat, y: string)
    requires IsSeriesRun(run) && 0 < i < j < |run|
    requires Issued(run[i - 1], run[i], series, a, v, x) && Issued(run[j - 1], run[j], series, b, w, y)
    ensures v < w
  {
    hide Current, EventsOf, Fold;
    CountersAdvance(run, series, i, j - 1);
  }

  // ----- Scanning for the next number ------------------------------------------------------

  datatype Candidate = Candidate(value: nat, name: string, attempts: nat)

  function First(s: Strategy, current: Option<nat>): nat {
    if current.None? then s.start else current.value + s.step
  }

  /** The i-th number from `first` on. */
  function Value(s: Strategy, first: nat, i: nat): nat {
    if i == 0 then first else Value(s, first, i - 1) + s.step
  }

  predicate IsExcluded(s: Strategy, value: nat) {
    s.render(value).Ok? && s.excludes(value, s.render(value).value)
  }

  predicate IsOffered(s: Strategy, value: nat) {
    s.render(value).Ok? && !s.excludes(value, s.render(value).value)
  }

  /** The first number not excluded is the i-th, and the number after it is still safe. */
  predicate Finds(s: Strategy, first: nat, limit: nat, i: nat) {
    && i < limit && Value(s, first, i + 1) <= MAX_SAFE_INTEGER
    && IsOffered(s, Value(s, first, i))
    && forall k | 0 <= k < i :: IsExcluded(s, Value(s, first, k))
  }

  /** The candidate the scan reports: the number found, its name, and how many numbers were looked at. */
  predicate IsFound(s: Strategy, first: nat, limit: nat, found: Candidate) {
    && 1 <= found.attempts <= limit <= s.maxAttempts
    && Finds(s, first, limit, found.attempts - 1)
    && found.value == Value(s, first, found.attempts - 1) && s.render(found.value) == Ok(found.name)
  }

  ghost predicate FindsNothing(s: Strategy, first: nat, limit: nat) {
    forall i :: !Finds(s, first, limit, i)
  }

  lemma {:induction false} FurtherIsMore(s: Strategy, first: nat, i: nat, k: nat)
    requires i <= k
    ensures Value(s, first, i) <= Value(s, first, k)
  {
    if i < k {
      FurtherIsMore(s, first, i, k - 1);
    }
  }

  lemma {:induction false} FindsNowhere(s: Strategy, first: nat, limit: nat, i: nat)
    requires forall k | 0 <= k < i :: IsExcluded(s, Value(s, first, k))
    requires limit <= i || Value(s, first, i) > MAX_SAFE_INTEGER || s.render(Value(s, first, i)).Err?
          || (IsOffered(s, Value(s, first, i)) && Value(s, first, i + 1) > MAX_SAFE_INTEGER)
    ensures FindsNothing(s, first, limit)
  {
    forall k: nat | i <= k
      ensures !Finds(s, first, limit, k)
    {
      FurtherIsMore(s, first, i, k + 1);
    }
  }

  function SafeAdd(value: nat, increment: nat): Result<nat> {
    if value + increment > MAX_SAFE_INTEGER then Err(Invalid) else Ok(value + increment)
  }

  /** The next number that renders and is not excluded, within the limit of attempts. */
  method ScanNamingCandidates(s: Strategy, current: Option<nat>, limit: nat) returns (r: Result<Candidate>)
    requires IsNormalized(s)
    ensures r.Ok? ==> IsFound(s, First(s, current), limit, r.value)
    ensures r.Err? ==> limit > s.maxAttempts || FindsNothing(s, First(s, current), limit)
  {
    ghost var first := First(s, current);
    if limit < 1 || limit > s.maxAttempts {
      return Err(Invalid);
    }
    var start := if current.None? then Ok(s.start) else SafeAdd(current.value, s.step);
    if start.Err? {
      FindsNowhere(s, first, limit, 0);
      return Err(start.error);
    }
    var candidate := start.value;
    var attempts := 0;
    while attempts < limit
      invariant 0 <= attempts <= limit
      invariant candidate == Value(s, first, attempts)
      invariant forall k | 0 <= k < attempts :: IsExcluded(s, Value(s, first, k))
    {
      attempts := attempts + 1;
      var name := s.render(candidate);
      if name.Err? {
        FindsNowhere(s, first, limit, attempts - 1);
        return Err(name.error);
      }
      var next := SafeAdd(candidate, s.step);
      if next.Err? {
        if s.excludes(candidate, name.value) {
          FindsNowhere(s, first, limit, attempts);
        } else {
          FindsNowhere(s, first, limit, attempts - 1);
        }
        return Err(next.error);
      }
      if !s.excludes(candidate, name.value) {
        return Ok(Candidate(candidate, name.value, attempts));
      }
      candidate := next.value;
    }
    FindsNowhere(s, first, limit, attempts);
    r := Err(Invalid);
  }
}
