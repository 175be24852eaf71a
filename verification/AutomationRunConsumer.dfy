/**
The consumer that delivers claimed runs: it updates the target document, then records the outcome,
and may stop at any point. Other writers commit between its steps.
*/
module AutomationRunConsumer {
  import opened Results
  import opened AutomationRunEvents
  import opened AutomationRunProtocol
  import opened AutomationRunService
  import opened AutomationEffects

  /** A target document: its DocType and name. */
  type TargetKey = (string, string)

  function KeyOf(record: Record): TargetKey {
    (record.info.action.doctype, record.info.action.name)
  }

  /** How an update command ends: it is refused before its commit, or it fails after it. */
  datatype Fault = NoFault | Refused | FailsAfterCommit

  datatype Outcome = DeliveredOutcome | FailedOutcome | DeadOutcome

  datatype Drained = Drained(claimed: nat, delivered: nat, failed: nat, dead: nat)

  function HistoryIn(histories: map<TargetKey, History>, key: TargetKey): History {
    if key in histories then histories[key] else [[]]
  }

  function TargetIn(targets: map<TargetKey, Target>, key: TargetKey): Target {
    if key in targets then targets[key] else []
  }

  predicate IsPatched(history: History, m: nat) {
    m < |history| && history[m] != [] && history[m][|history[m]| - 1].patched
  }

  /** The target has the run's update, or it once had every value the update would set. */
  predicate IsEffective(history: History, target: Target, runId: string) {
    IsApplied(target, runId) || exists m | 0 <= m < |history| :: IsPatched(history, m)
  }

  /** A target's current state is the last of its history. */
  predicate IsNewest(targets: map<TargetKey, Target>, histories: map<TargetKey, History>, key: TargetKey) {
    var history := HistoryIn(histories, key);
    history != [] && history[|history| - 1] == TargetIn(targets, key)
  }

  ghost predicate AllNewest(targets: map<TargetKey, Target>, histories: map<TargetKey, History>) {
    forall key :: IsNewest(targets, histories, key)
  }

  lemma {:induction false} NewestAfter(targets: map<TargetKey, Target>, histories: map<TargetKey, History>, key: TargetKey,
                                       next: Target)
    requires AllNewest(targets, histories)
    ensures AllNewest(targets[key := next], histories[key := HistoryIn(histories, key) + [next]])
  {
    var newTargets, newHistories := targets[key := next], histories[key := HistoryIn(histories, key) + [next]];
    forall k
      ensures IsNewest(newTargets, newHistories, k)
    {
      assert IsNewest(targets, histories, k);
    }
  }

  /** None of the held runs is attempted by anybody else, and each target's newest state is the last of its history. */
  ghost predicate HeldAlone(histories: map<TargetKey, History>, held: set<string>) {
    forall key, id | id in held :: WithoutOverlap(HistoryIn(histories, key), id)
  }

  ghost predicate OthersCommitted(before: map<TargetKey, History>, after: map<TargetKey, History>, held: set<string>) {
    forall key, id | id in held ::
      && HistoryIn(before, key) != [] && HistoryIn(before, key) <= HistoryIn(after, key)
      && ForeignSince(HistoryIn(after, key), |HistoryIn(before, key)| - 1, id)
  }

  lemma {:induction false} OthersKeepHeld(before: map<TargetKey, History>, after: map<TargetKey, History>, held: set<string>)
    requires HeldAlone(before, held) && OthersCommitted(before, after, held)
    ensures HeldAlone(after, held)
  {
    forall key, id | id in held
      ensures WithoutOverlap(HistoryIn(after, key), id)
    {
      assert WithoutOverlap(HistoryIn(before, key), id);
      ForeignKeepsAlone(HistoryIn(before, key), HistoryIn(after, key), id);
    }
  }

  lemma {:induction false} UpdateKeepsHeld(histories: map<TargetKey, History>, key: TargetKey, next: Target, runId: string,
                                           check: nat, read: nat, held: set<string>)
    requires HeldAlone(histories, held) && runId in held
    requires var history := HistoryIn(histories, key);
      && check <= read < |history| && ForeignSince(history, check, runId)
      && IsUpdate(history + [next], |history| - 1, runId, check, read)
    ensures HeldAlone(histories[key := HistoryIn(histories, key) + [next]], held)
  {
    var after := histories[key := HistoryIn(histories, key) + [next]];
    forall k, id | id in held
      ensures WithoutOverlap(HistoryIn(after, k), id)
    {
      assert WithoutOverlap(HistoryIn(histories, k), id);
      if k == key {
        UpdateKeepsAlone(HistoryIn(histories, key), next, runId, check, read, id);
      }
    }
  }

  class AutomationRunConsumer {
    const runs: AutomationRunService
    var targets: map<TargetKey, Target>
    /** Every state of each target so far. */
    ghost var histories: map<TargetKey, History>

    ghost predicate Valid()
      reads this, runs
    {
      runs.Valid() && AllNewest(targets, histories)
    }

    ghost function HistoryOf(key: TargetKey): History
      reads this
    {
      HistoryIn(histories, key)
    }

    function TargetOf(key: TargetKey): Target
      reads this
    {
      TargetIn(targets, key)
    }

    constructor (runs: AutomationRunService)
      requires runs.Valid()
      ensures Valid() && this.runs == runs && targets == map[] && histories == map[]
    {
      this.runs := runs;
      targets := map[];
      histories := map[];
    }

    /** Others may commit here: to runs, and to targets, but not on behalf of the runs held here. */
    method Interfere(ghost held: set<string>)
      requires Valid()
      modifies this, runs
      ensures Valid() && Extends(old(runs.logs), runs.logs)
      ensures OthersCommitted(old(histories), histories, held)
    {
      forall key
        ensures HistoryIn(histories, key) != []
      {
        assert IsNewest(targets, histories, key);
      }
    }

    method HasAppliedAction(key: TargetKey, runId: string) returns (applied: bool)
      requires Valid()
      ensures applied == IsApplied(TargetOf(key), runId)
    {
      var events := TargetOf(key);
      var i := 0;
      while i < |events|
        invariant 0 <= i <= |events|
        invariant forall j | 0 <= j < i :: events[j].actionId != Some(runId)
      {
        if events[i].actionId == Some(runId) {
          return true;
        }
        i := i + 1;
      }
      applied := false;
    }

    /** The update command: one event carrying the run's id, if the target is at the expected version. */
    method UpdateTarget(key: TargetKey, runId: string, expectedVersion: nat, patched: bool, fault: Fault,
                        ghost check: nat, ghost read: nat, ghost held: set<string>)
      returns (ok: bool)
      requires Valid() && HeldAlone(histories, held) && runId in held
      requires check <= read < |HistoryOf(key)| && ForeignSince(HistoryOf(key), check, runId)
      requires !IsApplied(HistoryOf(key)[check], runId) && NeedsPatch(HistoryOf(key)[read])
      requires expectedVersion == |HistoryOf(key)[read]|
      modifies this
      ensures Valid() && HeldAlone(histories, held)
      ensures ok ==> IsApplied(TargetOf(key), runId)
    {
      var target := TargetOf(key);
      assert IsNewest(targets, histories, key);
      if fault.Refused? || |target| != expectedVersion {
        return false;
      }
      var e := TargetEvent(Some(runId), patched, false);
      var next := target + [e];
      ghost var later := HistoryOf(key) + [next];
      assert next[|target|] == e && e in later[|later| - 1];
      assert IsUpdate(later, |later| - 2, runId, check, read);
      UpdateKeepsHeld(histories, key, next, runId, check, read, held);
      NewestAfter(targets, histories, key, next);
      targets := targets[key := next];
      histories := histories[key := later];
      assert TargetOf(key)[|target|].actionId == Some(runId);
      ok := fault.NoFault?;
    }

    /** Applies the run's update unless it was applied before or would change nothing. */
    method DeliverUpdate(record: Record, patched: bool, fault: Fault, ghost held: set<string>) returns (ok: bool)
      requires Valid() && HeldAlone(histories, held) && record.id in held
      modifies this, runs
      ensures Valid() && HeldAlone(histories, held) && Extends(old(runs.logs), runs.logs)
      ensures ok ==> IsEffective(HistoryOf(KeyOf(record)), TargetOf(KeyOf(record)), record.id)
    {
      hide IsProjected, WithoutOverlap, IsForeign, IsApplied;
      var key := KeyOf(record);
      ghost var check := |HistoryOf(key)| - 1;
      assert IsNewest(targets, histories, key);
      var applied := HasAppliedAction(key, record.id);
      if applied {
        return true;
      }
      ghost var before := histories;
      Interfere(held);
      OthersKeepHeld(before, histories, held);
      ghost var read := |HistoryOf(key)| - 1;
      assert IsNewest(targets, histories, key);
      var target := TargetOf(key);
      if target == [] || target[|target| - 1].deleted {
        return false;
      }
      if !NeedsPatch(target) {
        assert IsPatched(HistoryOf(key), read);
        return true;
      }
      ghost var between := histories;
      Interfere(held);
      OthersKeepHeld(between, histories, held);
      SinceCheck(HistoryIn(before, key), HistoryIn(between, key), HistoryOf(key), record.id);
      ok := UpdateTarget(key, record.id, |target|, patched, fault, check, read, held);
      if !ok {
        ghost var failed := histories;
        Interfere(held);
        OthersKeepHeld(failed, histories, held);
        ok := HasAppliedAction(key, record.id);
      }
    }

    /** Records why a delivery failed: gives the run up once its attempts are used, else sets a time to retry. */
    method Fail(record: Record, claimId: string, now: Time, error: string) returns (r: Result<Outcome>)
      requires Valid() && WasClaimed(runs.LogOf(record.id), record, claimId)
      modifies runs
      ensures Valid() && Extends(old(runs.logs), runs.logs)
      ensures r == Ok(FailedOutcome) ==>
                exists i | 0 <= i < |runs.LogOf(record.id)| :: IsConsumerFailure(record.id, runs.LogOf(record.id), i, claimId)
      ensures r.Ok? ==> r.value == if ShouldDeadLetter(record) then DeadOutcome else FailedOutcome
    {
      hide IsProjected, Fold, WasClaimed, RetryTime, FailedByConsumer;
      if ShouldDeadLetter(record) {
        var dead := runs.MarkRunDeadLettered(record.id, claimId, error, now);
        return if dead.Err? then Err(dead.error) else Ok(DeadOutcome);
      }
      ghost var before := runs.LogOf(record.id);
      assert before == LogIn(old(runs.logs), record.id);
      var retryAt := RetryTime(now, record.attempts, record.info.retry);
      var failed := runs.MarkRunFailed(record.id, claimId, error, Some(retryAt), now);
      if failed.Err? {
        return Err(failed.error);
      }
      ghost var log := runs.LogOf(record.id);
      assert before <= log;
      ghost var n :| |before| < n <= |log| && IsFailureAt(log, n - 1, claimId, error);
      FailureIsByConsumer(before, log, record, claimId, error, n - 1);
      r := Ok(FailedOutcome);
    }

    /** One delivery attempt; `stops` is a crash between the update and recording it. */
    method Deliver(record: Record, claimId: string, now: Time, patched: bool, fault: Fault, stops: bool, error: string,
                   ghost held: set<string>)
      returns (r: Result<Outcome>)
      requires Valid() && HeldAlone(histories, held) && record.id in held
      requires WasClaimed(runs.LogOf(record.id), record, claimId)
      modifies this, runs
      ensures Valid() && HeldAlone(histories, held) && Extends(old(runs.logs), runs.logs)
      ensures forall key :: Applications(TargetOf(key), record.id) <= 1
      ensures r == Ok(DeliveredOutcome) ==>
                && IsEffective(HistoryOf(KeyOf(record)), TargetOf(KeyOf(record)), record.id)
                && exists i | 0 <= i < |runs.LogOf(record.id)| :: runs.LogOf(record.id)[i].payload.Delivered?
      ensures r == Ok(FailedOutcome) ==>
                exists i | 0 <= i < |runs.LogOf(record.id)| :: IsConsumerFailure(record.id, runs.LogOf(record.id), i, claimId)
    {
      hide IsProjected, Fold, WasClaimed, WithoutOverlap, FailedByConsumer, Applications, IsForeign;
      ghost var claimed := runs.LogOf(record.id);
      var ok := DeliverUpdate(record, patched, fault, held);
      forall key ensures Applications(TargetOf(key), record.id) <= 1 {
        assert IsNewest(targets, histories, key) && WithoutOverlap(HistoryOf(key), record.id);
        SingleEffect(HistoryOf(key), record.id, |HistoryOf(key)| - 1);
      }
      if stops {
        return Err(Conflict);
      }
      if ok {
        var delivered := runs.MarkRunDelivered(record.id, claimId, now);
        if delivered.Ok? {
          ghost var n :| 0 < n <= |runs.LogOf(record.id)| && runs.LogOf(record.id)[n - 1].payload.Delivered?;
          return Ok(DeliveredOutcome);
        }
      }
      WasClaimedLater(claimed, runs.LogOf(record.id), record, claimId);
      r := Fail(record, claimId, now, error);
    }

    /**
    Claims due runs and delivers them one after the other, each possibly refused, failing after its
    commit, or left behind by a crash. No other consumer works on the candidates meanwhile.
    */
    method Drain(candidates: seq<Record>, claimId: string, now: Time, limit: int, leaseSeconds: int)
      returns (r: Result<Drained>)
      requires Valid() && HeldAlone(histories, Ids(candidates))
      modifies this, runs
      ensures Valid() && HeldAlone(histories, Ids(candidates)) && Extends(old(runs.logs), runs.logs)
      ensures r.Ok? ==> r.value.claimed == r.value.delivered + r.value.failed + r.value.dead <= limit
    {
      var claimed, _ := runs.ClaimPending(candidates, claimId, now, limit, leaseSeconds);
      if claimed.Err? {
        return Err(claimed.error);
      }
      var delivered, failed, dead := 0, 0, 0;
      var i := 0;
      while i < |claimed.value|
        invariant 0 <= i <= |claimed.value| && i == delivered + failed + dead
        invariant Valid() && HeldAlone(histories, Ids(candidates)) && Extends(old(runs.logs), runs.logs)
        invariant forall record | record in claimed.value :: WasClaimed(runs.LogOf(record.id), record, claimId)
      {
        hide IsProjected, HeldAlone, WasClaimed, AllNewest;
        var record := claimed.value[i];
        ghost var before := runs.logs;
        var patched: bool, fault: Fault, stops: bool := *, *, *;
        var outcome := Deliver(record, claimId, now, patched, fault, stops, "delivery failed", Ids(candidates));
        if outcome.Err? {
          return Err(outcome.error);
        }
        forall other | other in claimed.value
          ensures WasClaimed(runs.LogOf(other.id), other, claimId)
        {
          WasClaimedLater(LogIn(before, other.id), runs.LogOf(other.id), other, claimId);
        }
        match outcome.value {
          case DeliveredOutcome => delivered := delivered + 1;
          case FailedOutcome => failed := failed + 1;
          case DeadOutcome => dead := dead + 1;
        }
        i := i + 1;
      }
      r := Ok(Drained(|claimed.value|, delivered, failed, dead));
    }
  }

  lemma {:induction false} SinceCheck(checked: History, between: History, now: History, runId: string)
    requires checked != [] && checked <= between && between <= now
    requires ForeignSince(between, |checked| - 1, runId) && ForeignSince(now, |between| - 1, runId)
    ensures ForeignSince(now, |checked| - 1, runId)
  {
    forall m | |checked| - 1 <= m < |now| - 1 ensures IsForeign(now, m, runId) {
      if m < |between| - 1 {
        ForeignInExtension(between, now, m, runId);
      }
    }
  }

  /** A failure that the retry bound counts. */
  predicate IsConsumerFailure(runId: string, log: Log, i: nat, claimId: string) {
    i < |log| && log[i].payload.Failed? && log[i].payload.claimId == claimId && FailedByConsumer(runId, log, i)
  }

  lemma {:induction false} FailureIsByConsumer(before: Log, log: Log, record: Record, claimId: string, error: string, i: nat)
    requires before <= log && |before| <= i < |log|
    requires WasClaimed(before, record, claimId) && !ShouldDeadLetter(record)
    requires IsFailureAt(log, i, claimId, error)
    ensures IsConsumerFailure(record.id, log, i, claimId)
  {
    var n :| 0 < n <= |before| && IsClaimRecord(before, n, record, claimId);
    assert log[..n] == before[..n];
    assert IsConsumerClaim(record.id, log, n - 1, claimId);
  }
}
