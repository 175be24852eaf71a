/**
The service that claims and completes automation runs. Every change is an append under a version
check, retried a few times, and writes the run's projection in the same commit.
*/
module AutomationRunService {
  import opened Results
  import opened AutomationRunEvents
  import opened AutomationRunProtocol

  const MAX_APPEND_ATTEMPTS := 5
  const MAX_CLAIM_LIMIT := 100

  type Logs = map<string, Log>

  function LogIn(logs: Logs, runId: string): Log {
    if runId in logs then logs[runId] else []
  }

  /** The stream is legal, its retry policy was accepted, and its projection is the encoded fold. */
  predicate IsProjected(runId: string, log: Log, projections: map<string, Snapshot>) {
    && Legal(log)
    && (runId in projections <==> log != [])
    && (log != [] ==>
          && IsRetryPolicy(log[0].payload.info.retry)
          && Fold(runId, log).Some?
          && projections[runId] == Encode(Fold(runId, log).value))
  }

  ghost predicate AllProjected(logs: Logs, projections: map<string, Snapshot>) {
    forall runId :: IsProjected(runId, LogIn(logs, runId), projections)
  }

  ghost predicate Extends(logs: Logs, later: Logs) {
    forall runId :: LogIn(logs, runId) <= LogIn(later, runId)
  }

  function Ids(records: seq<Record>): set<string> {
    set record | record in records :: record.id
  }

  /** At most `limit` of the claimable records, and all of them if there are fewer. */
  predicate IsClaimSelection(records: seq<Record>, now: Time, limit: int, selected: seq<Record>) {
    && |selected| <= limit
    && (forall r | r in selected :: r in records && Claimable(r, now))
    && (|selected| < limit ==> forall r | r in records && Claimable(r, now) :: r in selected)
  }

  predicate IsNotDueAt(runId: string, log: Log, n: nat, now: Time) {
    n <= |log| && Fold(runId, log[..n]).Some? && !Claimable(Fold(runId, log[..n]).value, now)
  }

  /** At some point since the stream had `base` events the run could not be claimed. */
  predicate WasNotDue(runId: string, log: Log, base: nat, now: Time) {
    exists n | base <= n <= |log| :: IsNotDueAt(runId, log, n, now)
  }

  lemma {:induction false} NotDueLater(runId: string, log: Log, later: Log, base: nat, now: Time)
    requires WasNotDue(runId, log, base, now) && log <= later
    ensures WasNotDue(runId, later, base, now)
  {
    var n :| base <= n <= |log| && IsNotDueAt(runId, log, n, now);
    assert later[..n] == log[..n];
    assert IsNotDueAt(runId, later, n, now);
  }

  /** The record is what the run was right after `claimId` claimed it. */
  predicate WasClaimed(log: Log, record: Record, claimId: string) {
    exists n | 0 < n <= |log| :: IsClaimRecord(log, n, record, claimId)
  }

  predicate IsClaimRecord(log: Log, n: nat, record: Record, claimId: string)
    requires 0 < n <= |log|
  {
    log[n - 1].payload.Claimed? && log[n - 1].payload.claimId == claimId && Fold(record.id, log[..n]) == Some(record)
  }

  lemma {:induction false} WasClaimedLater(log: Log, later: Log, record: Record, claimId: string)
    requires WasClaimed(log, record, claimId) && log <= later
    ensures WasClaimed(later, record, claimId)
  {
    var n :| 0 < n <= |log| && IsClaimRecord(log, n, record, claimId);
    assert later[..n] == log[..n];
    assert IsClaimRecord(later, n, record, claimId);
  }

  /** Committing one more event together with its projection keeps streams legal and projections exact. */
  lemma {:induction false} AppendKeepsProjected(runId: string, log: Log, e: Event, command: Command,
                                                projections: map<string, Snapshot>)
    requires IsProjected(runId, log, projections) && log != [] && IsAccepted(command)
    requires PlanCommand(Fold(runId, log), command) == Ok(Append(e))
    ensures Fold(runId, log + [e]).Some? && Legal(log + [e]) && IsSafeRetry(Fold(runId, log + [e]).value.info.retry)
    ensures IsProjected(runId, log + [e], projections[runId := Encode(Fold(runId, log + [e]).value)])
  {
    hide PlanCommand, Encode, Fold;
    var longer := log + [e];
    assert Appends(runId, log, e);
    AppendsIffFollows(runId, log, e);
    assert Legal(longer) by {
      assert longer[0] == log[0];
      assert forall i | 0 < i < |log| :: Follows(log[i - 1], log[i]) ==> Follows(longer[i - 1], longer[i]);
      assert forall i | 0 < i < |log| :: Follows(log[i - 1], log[i]);
    }
    RecordOfLegal(runId, longer);
  }

  lemma {:induction false} EnqueueIsProjected(runId: string, info: RunInfo, at: Time, suppression: Option<string>,
                                              projections: map<string, Snapshot>)
    requires IsRetryPolicy(info.retry)
    ensures var log := EnqueueEvents(info, at, suppression);
      && Fold(runId, log).Some?
      && IsProjected(runId, log, projections[runId := Encode(Fold(runId, log).value)])
  {
    hide Encode, Fold;
    RecordOfLegal(runId, EnqueueEvents(info, at, suppression));
  }

  lemma {:induction false} UpdateProjected(logs: Logs, projections: map<string, Snapshot>, runId: string, longer: Log,
                                           projection: Snapshot)
    requires AllProjected(logs, projections) && LogIn(logs, runId) <= longer
    requires IsProjected(runId, longer, projections[runId := projection])
    ensures AllProjected(logs[runId := longer], projections[runId := projection])
    ensures Extends(logs, logs[runId := longer])
  {
    hide Legal, Fold, Encode;
    var later, saved := logs[runId := longer], projections[runId := projection];
    forall id
      ensures IsProjected(id, LogIn(later, id), saved)
    {
      assert IsProjected(id, LogIn(logs, id), projections);
    }
  }

  class AutomationRunService {
    var logs: Logs
    var projections: map<string, Snapshot>

    ghost predicate Valid()
      reads this
    {
      AllProjected(logs, projections)
    }

    function LogOf(runId: string): Log
      reads this
    {
      LogIn(logs, runId)
    }

    constructor ()
      ensures Valid() && logs == map[]
    {
      logs := map[];
      projections := map[];
    }

    /** Other services may commit here. */
    method Interfere()
      requires Valid()
      modifies this
      ensures Valid() && Extends(old(logs), logs)
    {
    }

    /** Starts a run, as part of the batch that commits the document event behind it. */
    method Enqueue(runId: string, info: RunInfo, at: Time, suppression: Option<string>) returns (ok: bool)
      requires Valid() && IsRetryPolicy(info.retry)
      modifies this
      ensures Valid() && Extends(old(logs), logs)
      ensures ok <==> old(LogOf(runId)) == []
      ensures ok ==> logs == old(logs)[runId := EnqueueEvents(info, at, suppression)]
      ensures !ok ==> logs == old(logs) && projections == old(projections)
    {
      ok := LogOf(runId) == [];
      if ok {
        var events := EnqueueEvents(info, at, suppression);
        EnqueueIsProjected(runId, info, at, suppression, projections);
        var record := FoldAutomationRunFrom(runId, None, events, 0);
        UpdateProjected(logs, projections, runId, events, Encode(record.value));
        logs := logs[runId := events];
        projections := projections[runId := Encode(record.value)];
      }
    }

    /** The run as its projection says, which is what its stream says. */
    method GetRun(runId: string) returns (r: Result<Option<Record>>)
      requires Valid()
      ensures r == Ok(Fold(runId, LogOf(runId)))
    {
      assert IsProjected(runId, LogOf(runId), projections);
      if runId !in projections {
        return Ok(None);
      }
      RecordOfLegal(runId, LogOf(runId));
      DecodeInvertsEncode(Fold(runId, LogOf(runId)).value);
      var record := Decode(projections[runId]);
      r := Ok(Some(record.value));
    }

    /**
    Reads the run, plans, and appends the planned event if nobody else appended meanwhile; tries
    again after a lost race, up to a limit.
    */
    method AppendRunEvent(runId: string, command: Command) returns (r: Result<Option<Record>>)
      requires Valid() && IsAccepted(command)
      modifies this
      ensures Valid() && Extends(old(logs), logs)
      ensures r.Ok? ==> exists n | 0 < n <= |LogOf(runId)| ::
                          IsAnswer(runId, LogOf(runId), |old(LogOf(runId))|, n, command, r.value)
      ensures r.Err? ==> r.error == Conflict || r.error == NotFound
    {
      var attempt := 1;
      while attempt <= MAX_APPEND_ATTEMPTS
        invariant 1 <= attempt <= MAX_APPEND_ATTEMPTS + 1
        invariant Valid() && Extends(old(logs), logs)
      {
        var done;
        ghost var base := |LogOf(runId)|;
        done, r := TryAppend(runId, command);
        if done {
          if r.Ok? {
            ghost var n :| 0 < n <= |LogOf(runId)| && IsAnswer(runId, LogOf(runId), base, n, command, r.value);
            assert IsAnswer(runId, LogOf(runId), |old(LogOf(runId))|, n, command, r.value);
          }
          return;
        }
        attempt := attempt + 1;
      }
      r := Err(Conflict);
    }

    /** One attempt: done unless the version check failed. */
    method TryAppend(runId: string, command: Command) returns (done: bool, r: Result<Option<Record>>)
      requires Valid() && IsAccepted(command)
      modifies this
      ensures Valid() && Extends(old(logs), logs)
      ensures done && r.Ok? ==> exists n | 0 < n <= |LogOf(runId)| ::
                          IsAnswer(runId, LogOf(runId), |old(LogOf(runId))|, n, command, r.value)
      ensures r.Err? ==> r.error == Conflict || r.error == NotFound
    {
      hide Encode, Decode;
      var events := LogOf(runId);
      assert IsProjected(runId, events, projections);
      var record := FoldAutomationRunFrom(runId, None, events, 0);
      var planned := PlanCommand(record, command);
      if planned.Err? {
        return true, Err(planned.error);
      }
      RecordOfLegal(runId, events);
      if planned.value.Answer? {
        assert events[..|events|] == events && LogOf(runId) == events;
        assert IsAnswer(runId, events, |old(LogOf(runId))|, |events|, command, planned.value.record);
        return true, Ok(planned.value.record);
      }
      Interfere();
      assert IsProjected(runId, LogOf(runId), projections);
      if |LogOf(runId)| != record.value.version {
        return false, Err(Conflict);
      }
      assert LogOf(runId) == events;
      AppendKeepsProjected(runId, events, planned.value.event, command, projections);
      var longer := events + [planned.value.event];
      var updated := FoldAutomationRunFrom(runId, None, longer, 0);
      DecodeInvertsEncode(updated.value);
      Commit(runId, longer, Encode(updated.value));
      assert longer[..|events|] == events && longer[..|longer|] == longer;
      assert IsAnswer(runId, longer, |old(LogOf(runId))|, |longer|, command, updated);
      var saved := Decode(projections[runId]);
      return true, Ok(Some(saved.value));
    }

    /** Replaces a run's stream by a longer one together with its projection. */
    method Commit(runId: string, longer: Log, projection: Snapshot)
      requires Valid() && LogOf(runId) <= longer
      requires IsProjected(runId, longer, projections[runId := projection])
      modifies this
      ensures Valid() && Extends(old(logs), logs)
      ensures LogOf(runId) == longer && projections == old(projections)[runId := projection]
    {
      UpdateProjected(logs, projections, runId, longer, projection);
      logs := logs[runId := longer];
      projections := projections[runId := projection];
    }

    method ClaimOne(runId: string, claimId: string, now: Time, leaseSeconds: int) returns (r: Result<Option<Record>>)
      requires Valid() && IsLease(leaseSeconds)
      modifies this
      ensures Valid() && Extends(old(logs), logs)
      ensures r.Ok? && r.value.Some? ==> r.value.value.id == runId && WasClaimed(LogOf(runId), r.value.value, claimId)
      ensures r == Ok(None) ==> WasNotDue(runId, LogOf(runId), |old(LogOf(runId))|, now)
    {
      hide Legal, Fold, Encode, PlanCommand, IsAnswer, WasClaimed, WasNotDue;
      r := AppendRunEvent(runId, Claim(claimId, now, leaseSeconds));
      if r.Ok? {
        ghost var log := LogOf(runId);
        ghost var n :| 0 < n <= |log| && IsAnswer(runId, log, |old(LogOf(runId))|, n, Claim(claimId, now, leaseSeconds), r.value);
        assert IsProjected(runId, log, projections);
        RecordOfClaim(runId, log, |old(LogOf(runId))|, n, Claim(claimId, now, leaseSeconds), r.value);
      }
    }

    /**
    Claims the runs among `candidates`, given in listing order, that are due, up to the limit. The
    listing may be stale: each run is decided again from its stream.
    */
    method ClaimPending(candidates: seq<Record>, claimId: string, now: Time, limit: int, leaseSeconds: int)
      returns (r: Result<seq<Record>>, ghost selected: seq<Record>)
      requires Valid()
      modifies this
      ensures Valid() && Extends(old(logs), logs)
      ensures r.Ok? ==> IsClaimSelection(candidates, now, limit, selected)
      ensures r.Ok? ==> forall c | c in selected ::
                          c.id in Ids(r.value) || WasNotDue(c.id, LogOf(c.id), |old(LogOf(c.id))|, now)
      ensures r.Ok? ==> 1 <= limit <= MAX_CLAIM_LIMIT && IsLease(leaseSeconds) && |r.value| <= limit
      ensures r.Ok? ==> forall record | record in r.value ::
                          record.id in Ids(candidates) && WasClaimed(LogOf(record.id), record, claimId)
    {
      if !(1 <= limit <= MAX_CLAIM_LIMIT) || !IsLease(leaseSeconds) {
        return Err(BadRequest), [];
      }
      var due := SelectClaimable(candidates, now, limit);
      selected := due;
      var claimed: seq<Record> := [];
      var i := 0;
      while i < |due|
        invariant 0 <= i <= |due| && |claimed| <= i && selected == due
        invariant Valid() && Extends(old(logs), logs)
        invariant IsClaiming(old(logs), logs, candidates, due, i, claimed, claimId, now)
      {
        hide AllProjected, IsClaiming, WasClaimed, WasNotDue;
        ghost var before := logs;
        var next := ClaimOne(due[i].id, claimId, now, leaseSeconds);
        if next.Err? {
          return Err(next.error), [];
        }
        ClaimedOneMore(old(logs), before, logs, candidates, due, i, claimed, claimId, now, next.value);
        if next.value.Some? {
          claimed := claimed + [next.value.value];
        }
        i := i + 1;
      }
      assert due[..i] == due;
      r := Ok(claimed);
    }

    /** The first `limit` claimable records. */
    static method SelectClaimable(records: seq<Record>, now: Time, limit: nat) returns (selected: seq<Record>)
      ensures IsClaimSelection(records, now, limit, selected)
    {
      selected := [];
      var i := 0;
      while i < |records| && |selected| < limit
        invariant 0 <= i <= |records| && |selected| <= limit
        invariant forall r | r in selected :: r in records && Claimable(r, now)
        invariant forall r | r in records[..i] && Claimable(r, now) :: r in selected
      {
        if Claimable(records[i], now) {
          selected := selected + [records[i]];
        }
        i := i + 1;
      }
      assert i == |records| ==> records[..i] == records;
    }

    /** Records a delivery; a run already delivered is answered as it is. */
    method MarkRunDelivered(runId: string, claimId: string, at: Time) returns (r: Result<Record>)
      requires Valid()
      modifies this
      ensures Valid() && Extends(old(logs), logs)
      ensures r.Ok? ==> exists n | 0 < n <= |LogOf(runId)| ::
                          Fold(runId, LogOf(runId)[..n]) == Some(r.value) && LogOf(runId)[n - 1].payload.Delivered?
    {
      hide Legal, Fold, Encode, PlanCommand, IsAnswer;
      var command := MarkDelivered(claimId, at);
      var answer := AppendRunEvent(runId, command);
      if answer.Err? {
        return Err(answer.error);
      }
      var log := LogOf(runId);
      ghost var n :| 0 < n <= |log| && IsAnswer(runId, log, |old(LogOf(runId))|, n, command, answer.value);
      assert IsProjected(runId, log, projections);
      RecordOfAnswer(runId, log, |old(LogOf(runId))|, n, command, answer.value);
      r := Ok(answer.value.value);
    }

    /** Records a failure and when to retry. */
    method MarkRunFailed(runId: string, claimId: string, error: string, retryAt: Option<Time>, at: Time)
      returns (r: Result<Record>)
      requires Valid()
      modifies this
      ensures Valid() && Extends(old(logs), logs)
      ensures r.Ok? ==> exists n | |old(LogOf(runId))| < n <= |LogOf(runId)| ::
                          Fold(runId, LogOf(runId)[..n]) == Some(r.value) && IsFailureAt(LogOf(runId), n - 1, claimId, error)
    {
      hide Legal, Fold, Encode, PlanCommand, IsAnswer;
      if error == "" {
        return Err(BadRequest);
      }
      var command := MarkFailed(claimId, error, retryAt, at);
      var answer := AppendRunEvent(runId, command);
      if answer.Err? {
        return Err(answer.error);
      }
      var log := LogOf(runId);
      ghost var n :| 0 < n <= |log| && IsAnswer(runId, log, |old(LogOf(runId))|, n, command, answer.value);
      assert IsProjected(runId, log, projections);
      RecordOfAnswer(runId, log, |old(LogOf(runId))|, n, command, answer.value);
      r := Ok(answer.value.value);
    }

    /** Gives a run up; a run already dead is answered as it is. */
    method MarkRunDeadLettered(runId: string, claimId: string, error: string, at: Time) returns (r: Result<Record>)
      requires Valid()
      modifies this
      ensures Valid() && Extends(old(logs), logs)
      ensures r.Ok? ==> exists n | 0 < n <= |LogOf(runId)| ::
                          Fold(runId, LogOf(runId)[..n]) == Some(r.value) && r.value.status.IsDead?
    {
      hide Legal, Fold, Encode, PlanCommand, IsAnswer;
      if error == "" {
        return Err(BadRequest);
      }
      var command := MarkDeadLettered(claimId, error, at);
      var answer := AppendRunEvent(runId, command);
      if answer.Err? {
        return Err(answer.error);
      }
      var log := LogOf(runId);
      ghost var n :| 0 < n <= |log| && IsAnswer(runId, log, |old(LogOf(runId))|, n, command, answer.value);
      assert IsProjected(runId, log, projections);
      RecordOfAnswer(runId, log, |old(LogOf(runId))|, n, command, answer.value);
      r := Ok(answer.value.value);
    }
  }

  predicate IsFailureAt(log: Log, i: nat, claimId: string, error: string) {
    i < |log| && log[i].payload.Failed? && log[i].payload.claimId == claimId && log[i].payload.error == error
  }

  /**
  What a command was answered with, told from the stream: `n` events were there when it was done,
  `base` when it began; the last of them is the event it appended, or it appended nothing to them.
  */
  predicate IsAnswer(runId: string, log: Log, base: nat, n: nat, command: Command, answer: Option<Record>)
    requires 0 < n <= |log|
  {
    || (base <= n && PlanCommand(Fold(runId, log[..n]), command) == Ok(Answer(answer)))
    || (base < n && PlanCommand(Fold(runId, log[..n - 1]), command) == Ok(Append(log[n - 1]))
        && answer == Fold(runId, log[..n]))
  }

  /** The first `i` of the due runs are claimed, or were found not to be due after all. */
  predicate IsClaiming(start: Logs, logs: Logs, candidates: seq<Record>, due: seq<Record>, i: nat, claimed: seq<Record>,
                       claimId: string, now: Time)
    requires i <= |due|
  {
    && (forall record | record in claimed ::
          record.id in Ids(candidates) && WasClaimed(LogIn(logs, record.id), record, claimId))
    && (forall c | c in due[..i] ::
          c.id in Ids(claimed) || WasNotDue(c.id, LogIn(logs, c.id), |LogIn(start, c.id)|, now))
  }

  lemma {:induction false} ClaimedOneMore(start: Logs, before: Logs, logs: Logs, candidates: seq<Record>, due: seq<Record>,
                                          i: nat, claimed: seq<Record>, claimId: string, now: Time, next: Option<Record>)
    requires i < |due| && due[i] in candidates && Extends(start, before) && Extends(before, logs)
    requires IsClaiming(start, before, candidates, due, i, claimed, claimId, now)
    requires next.Some? ==> next.value.id == due[i].id && WasClaimed(LogIn(logs, next.value.id), next.value, claimId)
    requires next.None? ==> WasNotDue(due[i].id, LogIn(logs, due[i].id), |LogIn(before, due[i].id)|, now)
    ensures IsClaiming(start, logs, candidates, due, i + 1, if next.Some? then claimed + [next.value] else claimed, claimId, now)
  {
    hide WasClaimed, WasNotDue;
    var more := if next.Some? then claimed + [next.value] else claimed;
    assert due[..i + 1] == due[..i] + [due[i]];
    assert Ids(more) == Ids(claimed) + if next.Some? then {due[i].id} else {};
    forall record | record in claimed
      ensures WasClaimed(LogIn(logs, record.id), record, claimId)
    {
      WasClaimedLater(LogIn(before, record.id), LogIn(logs, record.id), record, claimId);
    }
    forall c | c in due[..i] && c.id !in Ids(claimed)
      ensures WasNotDue(c.id, LogIn(logs, c.id), |LogIn(start, c.id)|, now)
    {
      NotDueLater(c.id, LogIn(before, c.id), LogIn(logs, c.id), |LogIn(start, c.id)|, now);
    }
    if next.None? {
      NotDueEarlier(due[i].id, LogIn(logs, due[i].id), |LogIn(start, due[i].id)|, |LogIn(before, due[i].id)|, now);
    }
  }

  lemma NotDueEarlier(runId: string, log: Log, base: nat, newer: nat, now: Time)
    requires base <= newer && WasNotDue(runId, log, newer, now)
    ensures WasNotDue(runId, log, base, now)
  {
  }

  /** An answer to a claim is the claimed run, or nothing because the run was not due. */
  lemma {:induction false} RecordOfClaim(runId: string, log: Log, base: nat, n: nat, command: Command, answer: Option<Record>)
    requires Legal(log) && 0 < n <= |log| && command.Claim? && IsAnswer(runId, log, base, n, command, answer)
    ensures answer.Some? ==> answer.value.id == runId && WasClaimed(log, answer.value, command.claimId)
    ensures answer.None? ==> WasNotDue(runId, log, base, command.now)
  {
    hide Fold, Claims, Claimable;
    LegalPrefix(log, n);
    RecordOfLegal(runId, log[..n]);
    if answer.Some? {
      assert IsClaimRecord(log, n, answer.value, command.claimId);
    } else {
      assert IsNotDueAt(runId, log, n, command.now);
    }
  }

  /** An answer to a completing command is the run as it then was, with the outcome the command asked for. */
  lemma {:induction false} RecordOfAnswer(runId: string, log: Log, base: nat, n: nat, command: Command, answer: Option<Record>)
    requires Legal(log) && 0 < n <= |log| && !command.Claim? && IsAnswer(runId, log, base, n, command, answer)
    ensures answer.Some? && Fold(runId, log[..n]) == answer
    ensures command.MarkDelivered? ==> log[n - 1].payload.Delivered?
    ensures command.MarkFailed? ==> base < n && IsFailureAt(log, n - 1, command.claimId, command.error)
    ensures command.MarkDeadLettered? ==> answer.value.status.IsDead?
  {
    hide Fold, Claims;
    LegalPrefix(log, n);
    RecordOfLegal(runId, log[..n]);
  }
}
