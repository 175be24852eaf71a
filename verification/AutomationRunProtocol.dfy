/**
How the events of one automation run may follow each other: the decisions of claiming, completing,
failing and dead-lettering a run, and what every reachable stream looks like.
*/
module AutomationRunProtocol {
  import opened Results
  import opened AutomationRunEvents

  // ----- Policy ---------------------------------------------------------------

  const MAX_LEASE_SECONDS := 3600
  const MILLISECONDS := 1000

  function Power(n: nat): (r: nat)
    ensures r >= 1
  {
    if n == 0 then 1 else 2 * Power(n - 1)
  }

  function RetryDelay(attempts: nat, retry: Retry): int {
    var delay := retry.baseDelaySeconds * Power(if attempts == 0 then 0 else attempts - 1);
    if retry.maxDelaySeconds < delay then retry.maxDelaySeconds else delay
  }

  function RetryTime(now: Time, attempts: nat, retry: Retry): Time {
    now + RetryDelay(attempts, retry) * MILLISECONDS
  }

  /** The retry policies a planner accepts. */
  predicate IsRetryPolicy(retry: Retry) {
    && 1 <= retry.maxAttempts <= MAX_SAFE_INTEGER
    && 1 <= retry.baseDelaySeconds <= retry.maxDelaySeconds <= MAX_SAFE_INTEGER
  }

  lemma {:induction false} PowerGrows(m: nat, n: nat)
    requires m <= n
    ensures Power(m) <= Power(n)
    decreases n - m
  {
    if m < n {
      PowerGrows(m + 1, n);
    }
  }

  lemma ProductGrows(base: nat, x: nat, y: nat)
    requires 1 <= x <= y
    ensures base <= base * x <= base * y
  {
  }

  /** Waiting times start at the base, never shrink and never pass the maximum. */
  lemma {:induction false} RetryDelayGrows(m: nat, n: nat, retry: Retry)
    requires IsRetryPolicy(retry) && m <= n
    ensures retry.baseDelaySeconds <= RetryDelay(m, retry) <= RetryDelay(n, retry) <= retry.maxDelaySeconds
    ensures RetryDelay(1, retry) == retry.baseDelaySeconds
  {
    var i, j := if m == 0 then 0 else m - 1, if n == 0 then 0 else n - 1;
    PowerGrows(i, j);
    ProductGrows(retry.baseDelaySeconds, Power(i), Power(j));
    assert Power(0) == 1;
    hide Power;
  }

  predicate RetryDue(record: Record, now: Time) {
    record.retryAt.None? || record.retryAt.value <= now
  }

  predicate ClaimExpired(record: Record, now: Time) {
    record.status.IsClaimed? && record.claimExpiresAt.Some? && record.claimExpiresAt.value <= now
  }

  predicate Claimable(record: Record, now: Time) {
    record.status.IsPending? || (record.status.IsFailed? && RetryDue(record, now)) || ClaimExpired(record, now)
  }

  predicate IsClaimedBy(record: Record, claimId: string) {
    record.status.IsClaimed? && record.claimId == Some(claimId)
  }

  predicate ShouldDeadLetter(record: Record) {
    record.attempts >= record.info.retry.maxAttempts
  }

  // ----- Commands -----------------------------------------------------------------

  datatype Command =
    | Claim(claimId: string, now: Time, leaseSeconds: int)
    | MarkDelivered(claimId: string, at: Time)
    | MarkFailed(claimId: string, error: string, retryAt: Option<Time>, at: Time)
    | MarkDeadLettered(claimId: string, error: string, at: Time)

  datatype Plan = Append(event: Event) | Answer(record: Option<Record>)

  predicate IsLease(seconds: int) {
    1 <= seconds <= MAX_LEASE_SECONDS
  }

  /** What a command does to the run as it reads it: append an event, answer without one, or fail. */
  function PlanCommand(record: Option<Record>, command: Command): Result<Plan> {
    if record.None? then Err(NotFound)
    else
      var existing := record.value;
      match command
      case Claim(claimId, now, leaseSeconds) =>
        if !Claimable(existing, now) then Ok(Answer(None))
        else Ok(Append(Event(now, Claimed(claimId, now + leaseSeconds * MILLISECONDS))))
      case MarkDelivered(claimId, at) =>
        if existing.status.IsDelivered? then Ok(Answer(record))
        else if !IsClaimedBy(existing, claimId) then Err(Conflict)
        else Ok(Append(Event(at, Delivered(claimId))))
      case MarkFailed(claimId, error, retryAt, at) =>
        if !IsClaimedBy(existing, claimId) then Err(Conflict)
        else
          var due := if retryAt.Some? then retryAt.value else RetryTime(at, existing.attempts, existing.info.retry);
          Ok(Append(Event(at, Failed(claimId, error, due))))
      case MarkDeadLettered(claimId, error, at) =>
        if existing.status.IsDead? then Ok(Answer(record))
        else if !IsClaimedBy(existing, claimId) then Err(Conflict)
        else Ok(Append(Event(at, DeadLettered(claimId, error))))
  }

  predicate IsAccepted(command: Command) {
    command.Claim? ==> IsLease(command.leaseSeconds)
  }

  /** The events a planner commits for a new run: a suppressed run is dead from the start. */
  function EnqueueEvents(info: RunInfo, at: Time, suppression: Option<string>): Log {
    if suppression.None? then [Event(at, Enqueued(info))]
    else [Event(at, Enqueued(info)), Event(at, Suppressed(suppression.value))]
  }

  predicate IsEnqueue(log: Log) {
    && 1 <= |log| <= 2 && log[0].payload.Enqueued?
    && (|log| == 2 ==> log[1].payload.Suppressed? && log[1].occurredAt == log[0].occurredAt)
  }

  /** The event is what an accepted command appends to the stream. */
  ghost predicate Appends(runId: string, log: Log, e: Event) {
    exists command :: IsAccepted(command) && PlanCommand(Fold(runId, log), command) == Ok(Append(e))
  }

  /** The streams that commits under a version check can build up. */
  ghost predicate Reachable(runId: string, log: Log) {
    || log == []
    || IsEnqueue(log)
    || (Reachable(runId, log[..|log| - 1]) && Appends(runId, log[..|log| - 1], log[|log| - 1]))
  }

  // ----- The shape of a stream ----------------------------------------------------------

  predicate IsOutcome(e: Event) {
    e.payload.Delivered? || e.payload.Failed? || e.payload.DeadLettered?
  }

  predicate IsFinal(e: Event) {
    e.payload.Delivered? || e.payload.DeadLettered? || e.payload.Suppressed?
  }

  predicate IsLeaseOf(e: Event)
    requires e.payload.Claimed?
  {
    var lease := e.payload.claimExpiresAt - e.occurredAt;
    lease % MILLISECONDS == 0 && IsLease(lease / MILLISECONDS)
  }

  /** The event `e` may come directly after `previous`. */
  predicate Follows(previous: Event, e: Event) {
    match e.payload
    case Enqueued(_) => false
    case Suppressed(_) => previous.payload.Enqueued? && previous.occurredAt == e.occurredAt
    case Claimed(_, _) =>
      && IsLeaseOf(e)
      && (|| previous.payload.Enqueued?
          || (previous.payload.Failed? && previous.payload.retryAt <= e.occurredAt)
          || (previous.payload.Claimed? && previous.payload.claimExpiresAt <= e.occurredAt))
    case Delivered(claimId) => previous.payload.Claimed? && previous.payload.claimId == claimId
    case Failed(claimId, _, _) => previous.payload.Claimed? && previous.payload.claimId == claimId
    case DeadLettered(claimId, _) => previous.payload.Claimed? && previous.payload.claimId == claimId
  }

  predicate Legal(log: Log) {
    log != [] ==> log[0].payload.Enqueued? && (forall i | 0 < i < |log| :: Follows(log[i - 1], log[i]))
  }

  function Claims(log: Log): nat {
    if log == [] then 0
    else Claims(log[..|log| - 1]) + if log[|log| - 1].payload.Claimed? then 1 else 0
  }

  function Failures(log: Log): nat {
    if log == [] then 0
    else Failures(log[..|log| - 1]) + if log[|log| - 1].payload.Failed? then 1 else 0
  }

  lemma {:induction false} LegalPrefix(log: Log, n: nat)
    requires Legal(log) && n <= |log|
    ensures Legal(log[..n])
  {
  }

  /** What the fold of a legal stream says, in terms of its last event. */
  lemma {:induction false} RecordOfLegal(runId: string, log: Log)
    requires Legal(log) && log != []
    ensures Fold(runId, log).Some?
    ensures var record, last := Fold(runId, log).value, log[|log| - 1].payload;
      && record.id == runId && record.info == log[0].payload.info
      && record.version == |log| && record.attempts == Claims(log)
      && (record.status.IsPending? <==> last.Enqueued?)
      && (record.status.IsClaimed? <==> last.Claimed?)
      && (record.status.IsDelivered? <==> last.Delivered?)
      && (record.status.IsFailed? <==> last.Failed?)
      && (record.status.IsDead? <==> last.DeadLettered? || last.Suppressed?)
      && (last.Claimed? ==> record.claimId == Some(last.claimId) && record.claimExpiresAt == Some(last.claimExpiresAt))
      && (last.Failed? ==> record.retryAt == Some(last.retryAt))
  {
    var n := |log| - 1;
    assert log == log[..n] + [log[n]];
    FoldSnoc(runId, log[..n], log[n]);
    if n > 0 {
      LegalPrefix(log, n);
      RecordOfLegal(runId, log[..n]);
      assert Follows(log[n - 1], log[n]);
    } else {
      assert Claims(log[..0]) == 0;
    }
  }

  /** Exactly the events that may follow the last one are appended by some command. */
  lemma {:induction false} AppendsIffFollows(runId: string, log: Log, e: Event)
    requires Legal(log) && log != []
    ensures Appends(runId, log, e) <==> Follows(log[|log| - 1], e) && !e.payload.Suppressed?
  {
    RecordOfLegal(runId, log);
    hide Fold, Claims, Legal;
    var last := log[|log| - 1];
    if Follows(last, e) && !e.payload.Suppressed? {
      var command :=
        match e.payload
        case Claimed(claimId, expires) => Claim(claimId, e.occurredAt, (expires - e.occurredAt) / MILLISECONDS)
        case Delivered(claimId) => MarkDelivered(claimId, e.occurredAt)
        case Failed(claimId, error, retryAt) => MarkFailed(claimId, error, Some(retryAt), e.occurredAt)
        case DeadLettered(claimId, error) => MarkDeadLettered(claimId, error, e.occurredAt);
      assert IsAccepted(command) && PlanCommand(Fold(runId, log), command) == Ok(Append(e));
    }
    if Appends(runId, log, e) {
      var command :| IsAccepted(command) && PlanCommand(Fold(runId, log), command) == Ok(Append(e));
      if command.Claim? {
        assert e.payload.claimExpiresAt - e.occurredAt == command.leaseSeconds * MILLISECONDS;
      }
    }
  }

  /** The streams of a run are exactly those in which each event may follow the one before it. */
  lemma {:induction false} ReachableIffLegal(runId: string, log: Log)
    ensures Reachable(runId, log) <==> Legal(log)
    decreases |log|
  {
    hide Appends;
    if log != [] && !IsEnqueue(log) {
      var n := |log| - 1;
      ReachableIffLegal(runId, log[..n]);
      if Legal(log) {
        LegalPrefix(log, n);
        assert n > 0 ==> Follows(log[n - 1], log[n]);
      }
      if n > 0 && Legal(log[..n]) {
        AppendsIffFollows(runId, log[..n], log[n]);
        assert log[..n] + [log[n]] == log;
        SuppressedOnlyAtStart(log[..n], log[n]);
      }
      if n == 0 {
        NothingAppendsToNothing(runId, log[0]);
        assert log[..0] == [];
      }
    }
  }

  lemma NothingAppendsToNothing(runId: string, e: Event)
    ensures !Appends(runId, [], e)
  {
  }

  lemma {:induction false} EnqueuedOnlyAtStart(log: Log, i: nat)
    requires Legal(log) && i < |log|
    ensures log[i].payload.Enqueued? ==> i == 0
  {
    assert i > 0 ==> Follows(log[i - 1], log[i]);
  }

  lemma {:induction false} SuppressedOnlyAtStart(log: Log, e: Event)
    requires Legal(log) && log != []
    ensures Follows(log[|log| - 1], e) && e.payload.Suppressed? ==> IsEnqueue(log + [e])
  {
    EnqueuedOnlyAtStart(log, |log| - 1);
  }

  // ----- Over every stream ------------------------------------------------------------

  predicate IsClaimAt(log: Log, i: nat) {
    i < |log| && log[i].payload.Claimed?
  }

  predicate IsOutcomeAt(log: Log, i: nat) {
    i < |log| && IsOutcome(log[i])
  }

  /** Nothing is ever appended after delivery, dead-lettering or suppression. */
  lemma {:induction false} FinalIsForever(runId: string, log: Log, later: Log)
    requires Reachable(runId, log) && Reachable(runId, later) && log <= later
    requires log != [] && IsFinal(log[|log| - 1])
    ensures later == log
  {
    ReachableIffLegal(runId, later);
    assert later[|log| - 1] == log[|log| - 1];
    assert |later| > |log| ==> Follows(later[|log| - 1], later[|log|]);
  }

  /** Claim ids are drawn fresh. */
  predicate FreshClaims(log: Log) {
    forall i, j | 0 <= i < j < |log| && log[i].payload.Claimed? && log[j].payload.Claimed? ::
      log[i].payload.claimId != log[j].payload.claimId
  }

  /** Every outcome is recorded by the holder of the claim directly before it. */
  lemma {:induction false} OutcomeIsByLatestClaim(runId: string, log: Log, i: nat)
    requires Reachable(runId, log) && IsOutcomeAt(log, i)
    ensures i > 0 && IsClaimAt(log, i - 1) && log[i - 1].payload.claimId == log[i].payload.claimId
  {
    ReachableIffLegal(runId, log);
    assert i > 0 ==> Follows(log[i - 1], log[i]);
  }

  /** Once a run was claimed again, the earlier holder records nothing any more. */
  lemma {:induction false} StaleClaimIsFenced(runId: string, log: Log, stale: nat, newer: nat, i: nat)
    requires Reachable(runId, log) && FreshClaims(log)
    requires stale < newer < i && IsClaimAt(log, stale) && IsClaimAt(log, newer) && IsOutcomeAt(log, i)
    ensures log[i].payload.claimId != log[stale].payload.claimId
  {
    OutcomeIsByLatestClaim(runId, log, i);
    assert stale < i - 1;
  }

  predicate CompletesWith(command: Command, claimId: string) {
    match command
    case Claim(_, _, _) => false
    case MarkDelivered(id, _) => id == claimId
    case MarkFailed(id, _, _, _) => id == claimId
    case MarkDeadLettered(id, _, _) => id == claimId
  }

  /** The commands of a holder whose claim was taken over append no event. */
  lemma {:induction false} StaleHolderAppendsNothing(runId: string, log: Log, stale: nat, newer: nat, command: Command)
    requires Reachable(runId, log) && FreshClaims(log)
    requires stale < newer && IsClaimAt(log, stale) && IsClaimAt(log, newer)
    requires CompletesWith(command, log[stale].payload.claimId)
    ensures PlanCommand(Fold(runId, log), command) == Err(Conflict)
         || PlanCommand(Fold(runId, log), command) == Ok(Answer(Fold(runId, log)))
  {
    ReachableIffLegal(runId, log);
    RecordOfLegal(runId, log);
  }

  /** A second claim waits for the lease of the first to expire, or for the retry time its failure set. */
  lemma {:induction false} NextClaimWaits(runId: string, log: Log, i: nat, j: nat)
    requires Reachable(runId, log)
    requires i < j && IsClaimAt(log, i) && IsClaimAt(log, j)
    requires forall k | i < k < j :: !log[k].payload.Claimed?
    ensures || (j == i + 1 && log[i].payload.claimExpiresAt <= log[j].occurredAt)
            || (j == i + 2 && log[i + 1].payload.Failed? && log[i + 1].payload.claimId == log[i].payload.claimId
                && log[i + 1].payload.retryAt <= log[j].occurredAt)
  {
    ReachableIffLegal(runId, log);
    assert Follows(log[j - 1], log[j]);
    if j > i + 1 {
      EnqueuedOnlyAtStart(log, j - 1);
      OutcomeIsByLatestClaim(runId, log, j - 1);
      assert j - 2 == i;
    }
  }

  // ----- Retries ------------------------------------------------------------------------

  /** The failure at `i` was recorded by a consumer, which dead-letters instead once the claimed record used up its attempts. */
  predicate FailedByConsumer(runId: string, log: Log, i: nat)
    requires i < |log| && log[i].payload.Failed?
  {
    exists k | 0 <= k < i && log[k].payload.Claimed? :: IsConsumerClaim(runId, log, k, log[i].payload.claimId)
  }

  predicate IsConsumerClaim(runId: string, log: Log, k: nat, claimId: string)
    requires k < |log| && log[k].payload.Claimed?
  {
    var record := Fold(runId, log[..k + 1]);
    log[k].payload.claimId == claimId && record.Some? && !ShouldDeadLetter(record.value)
  }

  predicate DrivenByConsumers(runId: string, log: Log) {
    && FreshClaims(log)
    && (forall i | 0 <= i < |log| && log[i].payload.Failed? :: FailedByConsumer(runId, log, i))
  }

  /** Each failure has a claim of its own before it. */
  lemma {:induction false} FailuresUseClaims(log: Log)
    requires Legal(log)
    ensures Failures(log) + (if log != [] && log[|log| - 1].payload.Claimed? then 1 else 0) <= Claims(log)
  {
    if log != [] {
      var n := |log| - 1;
      LegalPrefix(log, n);
      FailuresUseClaims(log[..n]);
      assert n > 0 ==> Follows(log[n - 1], log[n]);
    }
  }

  lemma {:induction false} FailureCounts(runId: string, log: Log, i: nat)
    requires Legal(log) && DrivenByConsumers(runId, log)
    requires i < |log| && log[i].payload.Failed?
    ensures Claims(log[..i]) < log[0].payload.info.retry.maxAttempts
  {
    assert FailedByConsumer(runId, log, i);
    var k :| 0 <= k < i && log[k].payload.Claimed? && IsConsumerClaim(runId, log, k, log[i].payload.claimId);
    assert Follows(log[i - 1], log[i]);
    assert k == i - 1;
    assert log[..k + 1] == log[..i];
    LegalPrefix(log, i);
    RecordOfLegal(runId, log[..i]);
  }

  lemma {:induction false} FailuresAreBounded(runId: string, log: Log, n: nat)
    requires Legal(log) && DrivenByConsumers(runId, log) && n <= |log| && log != []
    requires log[0].payload.info.retry.maxAttempts >= 1
    ensures Failures(log[..n]) <= log[0].payload.info.retry.maxAttempts - 1
  {
    if n > 0 {
      assert log[..n][..n - 1] == log[..n - 1];
      FailuresAreBounded(runId, log, n - 1);
      if log[n - 1].payload.Failed? {
        FailureCounts(runId, log, n - 1);
        LegalPrefix(log, n - 1);
        FailuresUseClaims(log[..n - 1]);
        assert Follows(log[n - 2], log[n - 1]);
      }
    }
  }

  /** Consumers with fresh claim ids fail a run at most `maxAttempts - 1` times. */
  lemma {:induction false} RetriesAreBounded(runId: string, log: Log)
    requires Reachable(runId, log) && DrivenByConsumers(runId, log) && log != []
    ensures Fold(runId, log).Some?
    ensures var retry := Fold(runId, log).value.info.retry;
      IsRetryPolicy(retry) ==> Failures(log) <= retry.maxAttempts - 1
  {
    ReachableIffLegal(runId, log);
    RecordOfLegal(runId, log);
    if IsRetryPolicy(log[0].payload.info.retry) {
      FailuresAreBounded(runId, log, |log|);
      assert log[..|log|] == log;
    }
  }

  // ----- Claims -------------------------------------------------------------------------

  /** The event takes over an expired claim of a run that had used up its attempts, as its record said. */
  predicate TakesOverUsedUp(runId: string, log: Log, i: nat)
    requires i < |log|
  {
    var record := Fold(runId, log[..i]);
    log[i].payload.Claimed? && record.Some? && record.value.status.IsClaimed? && ShouldDeadLetter(record.value)
  }

  lemma {:induction false} ClaimsNeverShrink(log: Log, n: nat)
    requires n <= |log|
    ensures Claims(log[..n]) <= Claims(log)
  {
    if n < |log| {
      assert log[..|log| - 1][..n] == log[..n];
      ClaimsNeverShrink(log[..|log| - 1], n);
    } else {
      assert log[..n] == log;
    }
  }

  lemma {:induction false} TakeoverCounts(runId: string, log: Log, i: nat)
    requires Legal(log) && i < |log| && TakesOverUsedUp(runId, log, i)
    ensures Claims(log) > log[0].payload.info.retry.maxAttempts
  {
    LegalPrefix(log, i);
    assert log[..i] != [];
    RecordOfLegal(runId, log[..i]);
    assert log[..i + 1][..i] == log[..i];
    ClaimsNeverShrink(log, i + 1);
  }

  /** Without such a takeover every claim is within the limit. */
  lemma {:induction false} ClaimsWithinLimit(runId: string, log: Log, n: nat)
    requires Legal(log) && DrivenByConsumers(runId, log) && n <= |log| && log != []
    requires log[0].payload.info.retry.maxAttempts >= 1
    requires forall i | 0 <= i < |log| :: !TakesOverUsedUp(runId, log, i)
    ensures Claims(log[..n]) <= log[0].payload.info.retry.maxAttempts
  {
    if n > 0 {
      assert log[..n][..n - 1] == log[..n - 1];
      ClaimsWithinLimit(runId, log, n - 1);
      if n > 1 && log[n - 1].payload.Claimed? {
        assert Follows(log[n - 2], log[n - 1]) && !TakesOverUsedUp(runId, log, n - 1);
        assert log[..n - 1][..n - 2] == log[..n - 2];
        LegalPrefix(log, n - 1);
        RecordOfLegal(runId, log[..n - 1]);
        if log[n - 2].payload.Failed? {
          FailureCounts(runId, log, n - 2);
        } else if log[n - 2].payload.Enqueued? {
          EnqueuedOnlyAtStart(log, n - 2);
        }
      }
    }
  }

  /**
  Consumers with fresh claim ids claim a run at most `maxAttempts` times exactly when no expired
  claim is taken over once the run's record shows its attempts used up.
  */
  lemma {:induction false} ClaimsBoundedIffNoTakeover(runId: string, log: Log)
    requires Reachable(runId, log) && DrivenByConsumers(runId, log) && log != []
    ensures Fold(runId, log).Some?
    ensures var record := Fold(runId, log).value;
      record.info.retry.maxAttempts >= 1 ==>
        (record.attempts <= record.info.retry.maxAttempts <==>
         forall i | 0 <= i < |log| :: !TakesOverUsedUp(runId, log, i))
  {
    ReachableIffLegal(runId, log);
    RecordOfLegal(runId, log);
    assert log[..|log|] == log;
    hide TakesOverUsedUp, Claims, Fold, DrivenByConsumers, Legal;
    var limit := log[0].payload.info.retry.maxAttempts;
    if i :| 0 <= i < |log| && TakesOverUsedUp(runId, log, i) {
      TakeoverCounts(runId, log, i);
    } else if limit >= 1 {
      ClaimsWithinLimit(runId, log, |log|);
    }
  }

  /** A claim id of its own for each claim. */
  function ClaimId(n: nat): string {
    seq(n, _ => '.')
  }

  /** A run claimed `n` times by consumers that stop before recording an outcome. */
  function Abandoned(info: RunInfo, n: nat): Log {
    if n == 0 then [Event(0, Enqueued(info))]
    else Abandoned(info, n - 1) + [Event((n - 1) * MILLISECONDS, Claimed(ClaimId(n), n * MILLISECONDS))]
  }

  /** The number of claims itself has no bound: an expired claim can be taken over any number of times. */
  lemma {:induction false} AttemptsAreUnbounded(runId: string, info: RunInfo, n: nat)
    ensures var log := Abandoned(info, n);
      && Reachable(runId, log) && DrivenByConsumers(runId, log)
      && Fold(runId, log).Some? && Fold(runId, log).value.attempts == n
  {
    AbandonedIsLegal(info, n);
    ReachableIffLegal(runId, Abandoned(info, n));
    RecordOfLegal(runId, Abandoned(info, n));
  }

  lemma {:induction false} AbandonedIsLegal(info: RunInfo, n: nat)
    ensures Legal(Abandoned(info, n)) && |Abandoned(info, n)| == n + 1 && Claims(Abandoned(info, n)) == n
    ensures forall i | 0 < i <= n :: Abandoned(info, n)[i].payload == Claimed(ClaimId(i), i * MILLISECONDS)
    ensures FreshClaims(Abandoned(info, n))
  {
    var log := Abandoned(info, n);
    if n > 0 {
      AbandonedIsLegal(info, n - 1);
      assert log[..|log| - 1] == Abandoned(info, n - 1);
      assert Follows(log[n - 1], log[n]);
      assert forall i | 0 < i < n :: log[i] == Abandoned(info, n - 1)[i];
      assert forall i: nat :: |ClaimId(i)| == i;
    } else {
      assert log[..0] == [];
    }
  }
}
