/**
The journal as a store with claims, the runner that applies and rolls back patches through it, and
the service that plans and starts the runs. Calls do not overlap; a patch may fail, and the
process may stop while one is running.
*/
module DataPatchService {
  import opened Results
  import opened DataPatchJournal
  import opened DataPatchPlans

  /** How running a patch or its rollback ends. */
  datatype Ending = Succeeds | Fails | Stops

  datatype Claim = Claimed | Settled | Unfinished

  class DataPatchLog {
    var journal: Journal

    constructor ()
      ensures journal == map[]
    {
      journal := map[];
    }

    /** Claims a patch nobody recorded; an applied one is settled already. */
    method ClaimDataPatch(id: string, checksum: string, claimId: string) returns (r: Result<Claim>)
      modifies this
      ensures journal == if id in old(journal) then old(journal) else old(journal)[id := Entry(Pending, checksum, Some(claimId))]
      ensures r == Ok(Claimed) <==> id !in old(journal)
      ensures r == Ok(Settled) ==> id in journal && journal[id].status == Applied
    {
      if id in journal {
        var existing := journal[id];
        if existing.checksum != checksum {
          return Err(Conflict);
        }
        match existing.status {
          case Applied => return Ok(Settled);
          case Pending => return Ok(Unfinished);
          case Failed => return Ok(Unfinished);
          case _ => return Err(Conflict);
        }
      }
      journal := journal[id := Entry(Pending, checksum, Some(claimId))];
      r := Ok(Claimed);
    }

    /** Moves a patch on from `from`, if this runner holds its claim. */
    method Finish(id: string, checksum: string, claimId: string, from: Status, to: Status) returns (r: Result<()>)
      modifies this
      ensures r.Ok? <==> id in old(journal) && old(journal)[id] == Entry(from, checksum, Some(claimId))
      ensures journal == if r.Ok? then old(journal)[id := Entry(to, checksum, ClaimAfter(to, claimId))] else old(journal)
    {
      if id !in journal || journal[id] != Entry(from, checksum, Some(claimId)) {
        return Err(Conflict);
      }
      journal := journal[id := Entry(to, checksum, ClaimAfter(to, claimId))];
      r := Ok(());
    }

    /** Forgets a failed patch, so that it can be applied again. */
    method RetryFailedDataPatch(id: string, checksum: string) returns (r: Result<()>)
      modifies this
      ensures r.Ok? <==> id in old(journal) && old(journal)[id].status == Failed && old(journal)[id].checksum == checksum
      ensures journal == if r.Ok? then old(journal) - {id} else old(journal)
    {
      if id !in journal || journal[id].checksum != checksum || journal[id].status != Failed {
        return Err(Conflict);
      }
      journal := journal - {id};
      r := Ok(());
    }

    /** Claims the rollback of an applied patch; one rolled back is settled already. */
    method ClaimDataPatchRollback(id: string, checksum: string, claimId: string) returns (r: Result<Claim>)
      modifies this
      ensures r == Ok(Claimed) <==>
                id in old(journal) && old(journal)[id].checksum == checksum && old(journal)[id].status == Applied
      ensures r == Ok(Settled) ==> id in journal && journal[id].status == RolledBack
      ensures journal == if r == Ok(Claimed) then old(journal)[id := Entry(RollbackPending, checksum, Some(claimId))]
                         else old(journal)
    {
      if id !in journal || journal[id].checksum != checksum {
        return Err(Conflict);
      }
      match journal[id].status {
        case Applied =>
          journal := journal[id := Entry(RollbackPending, checksum, Some(claimId))];
          return Ok(Claimed);
        case RolledBack => return Ok(Settled);
        case _ => return Ok(Unfinished);
      }
    }

    /** Claims a rollback that failed before. */
    method RetryFailedDataPatchRollback(id: string, checksum: string, claimId: string) returns (r: Result<()>)
      modifies this
      ensures r.Ok? <==>
                id in old(journal) && old(journal)[id].status == RollbackFailed && old(journal)[id].checksum == checksum
      ensures journal == if r.Ok? then old(journal)[id := Entry(RollbackPending, checksum, Some(claimId))] else old(journal)
    {
      if id !in journal || journal[id].checksum != checksum || journal[id].status != RollbackFailed {
        return Err(Conflict);
      }
      journal := journal[id := Entry(RollbackPending, checksum, Some(claimId))];
      r := Ok(());
    }
  }

  function ClaimAfter(status: Status, claimId: string): Option<string> {
    if status == Failed || status == RollbackFailed then Some(claimId) else None
  }

  /** Every planned patch up to `m` is applied. */
  predicate AppliedUpTo(patches: seq<Patch>, journal: Journal, planned: seq<nat>, m: nat)
    requires m <= |planned| && IsIncreasing(planned, |patches|)
  {
    forall l | 0 <= l < m :: IsApplied(patches, journal, planned[l])
  }

  /** What was applied still is. */
  predicate KeepsApplied(patches: seq<Patch>, before: Journal, after: Journal) {
    forall k | 0 <= k < |patches| && IsApplied(patches, before, k) :: IsApplied(patches, after, k)
  }

  /** When its turn comes, everything before a planned patch is applied. */
  lemma {:induction false} TurnToApply(patches: seq<Patch>, start: Journal, now: Journal, planned: seq<nat>, m: nat)
    requires ReadyToApply(patches, start, planned) && m < |planned|
    requires AppliedUpTo(patches, now, planned, m) && KeepsApplied(patches, start, now) && InOrder(patches, now)
    ensures AllAppliedBefore(patches, now, planned[m])
    ensures !IsRecorded(patches, now, planned[m]) ==> NoneRecordedAfter(patches, now, planned[m])
  {
    forall i | 0 <= i < planned[m]
      ensures IsApplied(patches, now, i)
    {
      assert IsSettled(patches, start, planned, m, i);
    }
    OrderAround(patches, now, planned[m]);
  }

  lemma {:induction false} KeptElsewhere(patches: seq<Patch>, start: Journal, before: Journal, after: Journal, k: nat)
    requires Distinct(patches) && k < |patches| && SameElsewhere(patches, before, after, k)
    requires KeepsApplied(patches, start, before) && (IsApplied(patches, before, k) ==> IsApplied(patches, after, k))
    ensures KeepsApplied(patches, start, after)
  {
    forall i | 0 <= i < |patches| && IsApplied(patches, start, i)
      ensures IsApplied(patches, after, i)
    {
      assert IsApplied(patches, before, i);
      if i != k {
        EntryElsewhere(patches, before, after, k, i);
      }
    }
  }

  lemma {:induction false} AppliedKept(patches: seq<Patch>, before: Journal, after: Journal, planned: seq<nat>, m: nat)
    requires Distinct(patches) && IsIncreasing(planned, |patches|) && m < |planned|
    requires SameElsewhere(patches, before, after, planned[m]) && AppliedUpTo(patches, before, planned, m)
    ensures AppliedUpTo(patches, after, planned, m)
  {
    forall l | 0 <= l < m
      ensures IsApplied(patches, after, planned[l])
    {
      assert planned[l] < planned[m];
      EntryElsewhere(patches, before, after, planned[m], planned[l]);
    }
  }

  lemma {:induction false} AppliedNext(patches: seq<Patch>, before: Journal, after: Journal, planned: seq<nat>, m: nat)
    requires Distinct(patches) && IsIncreasing(planned, |patches|) && m < |planned|
    requires SameElsewhere(patches, before, after, planned[m])
    requires AppliedUpTo(patches, before, planned, m) && IsApplied(patches, after, planned[m])
    ensures AppliedUpTo(patches, after, planned, m + 1)
  {
    AppliedKept(patches, before, after, planned, m);
  }

  lemma {:induction false} SameOutsideNext(patches: seq<Patch>, start: Journal, before: Journal, after: Journal,
                                           planned: seq<nat>, m: nat)
    requires Distinct(patches) && m < |planned| && planned[m] < |patches|
    requires SameOutside(patches, start, before, planned[..m]) && SameElsewhere(patches, before, after, planned[m])
    ensures SameOutside(patches, start, after, planned[..m + 1])
  {
    assert planned[..m + 1] == planned[..m] + [planned[m]];
    forall k | 0 <= k < |patches| && k !in planned[..m + 1]
      ensures SameEntry(patches, start, after, k)
    {
      assert SameEntry(patches, start, before, k);
      EntryElsewhere(patches, before, after, planned[m], k);
    }
  }

  lemma {:induction false} SameOutsidePrefix(patches: seq<Patch>, start: Journal, after: Journal, planned: seq<nat>, m: nat)
    requires m <= |planned| && SameOutside(patches, start, after, planned[..m])
    ensures SameOutside(patches, start, after, planned)
  {
    assert forall k | k !in planned :: k !in planned[..m];
  }

  /** The run ended at the m-th planned patch: those before it are applied, those after it untouched. */
  predicate AppliesStopAt(patches: seq<Patch>, before: Journal, after: Journal, planned: seq<nat>, m: nat)
    requires IsIncreasing(planned, |patches|)
  {
    m < |planned| && AppliedUpTo(patches, after, planned, m) && SameOutside(patches, before, after, planned[..m + 1])
  }

  /** The run ended at the m-th planned patch: those before it are out, those after it untouched. */
  predicate RollbacksStopAt(patches: seq<Patch>, before: Journal, after: Journal, planned: seq<nat>, m: nat)
    requires IsDecreasing(planned, |patches|)
  {
    m < |planned| && OutUpTo(patches, after, planned, m) && SameOutside(patches, before, after, planned[..m + 1])
  }

  class DataPatchRunner {
    const log: DataPatchLog
    const patches: seq<Patch>

    constructor (log: DataPatchLog, patches: seq<Patch>)
      ensures this.log == log && this.patches == patches
    {
      this.log := log;
      this.patches := patches;
    }

    /** Runs one claimed patch and records how it ended. */
    method RunClaimed(k: nat, claimId: string, from: Status, done: Status, failed: Status) returns (r: Result<()>)
      requires Distinct(patches) && k < |patches|
      requires IsRecorded(patches, log.journal, k)
      requires log.journal[patches[k].id] == Entry(from, patches[k].checksum, Some(claimId))
      modifies log
      ensures SameElsewhere(patches, old(log.journal), log.journal, k)
      ensures IsRecorded(patches, log.journal, k)
      ensures IsStatus(patches, log.journal, k, from) || IsStatus(patches, log.journal, k, done)
              || IsStatus(patches, log.journal, k, failed)
      ensures r.Ok? ==> IsStatus(patches, log.journal, k, done)
    {
      var ending: Ending := *;
      match ending {
        case Stops =>
          r := Err(BadRequest);
        case Fails =>
          var recorded := log.Finish(patches[k].id, patches[k].checksum, claimId, from, failed);
          r := Err(BadRequest);
        case Succeeds =>
          r := log.Finish(patches[k].id, patches[k].checksum, claimId, from, done);
      }
    }

    /** Applies the planned patches one after the other, skipping those applied already; the first failure ends the run. */
    method Apply(planned: seq<nat>) returns (r: Result<()>)
      requires Distinct(patches) && InOrder(patches, log.journal) && ReadyToApply(patches, log.journal, planned)
      modifies log
      ensures InOrder(patches, log.journal) && KeepsApplied(patches, old(log.journal), log.journal)
      ensures SameOutside(patches, old(log.journal), log.journal, planned)
      ensures r.Ok? ==> AppliedUpTo(patches, log.journal, planned, |planned|)
      ensures r.Err? ==> exists m :: AppliesStopAt(patches, old(log.journal), log.journal, planned, m)
    {
      var m := 0;
      while m < |planned|
        invariant 0 <= m <= |planned|
        invariant InOrder(patches, log.journal) && KeepsApplied(patches, old(log.journal), log.journal)
        invariant AppliedUpTo(patches, log.journal, planned, m)
        invariant SameOutside(patches, old(log.journal), log.journal, planned[..m])
      {
        ghost var before := log.journal;
        r := ApplyNext(planned, m, old(log.journal));
        SameOutsideNext(patches, old(log.journal), before, log.journal, planned, m);
        if r.Err? {
          SameOutsidePrefix(patches, old(log.journal), log.journal, planned, m + 1);
          assert AppliesStopAt(patches, old(log.journal), log.journal, planned, m);
          return;
        }
        m := m + 1;
      }
      SameOutsidePrefix(patches, old(log.journal), log.journal, planned, m);
      r := Ok(());
    }

    method ApplyNext(planned: seq<nat>, m: nat, ghost start: Journal) returns (r: Result<()>)
      requires Distinct(patches) && InOrder(patches, log.journal) && ReadyToApply(patches, start, planned) && m < |planned|
      requires KeepsApplied(patches, start, log.journal) && AppliedUpTo(patches, log.journal, planned, m)
      modifies log
      ensures InOrder(patches, log.journal) && KeepsApplied(patches, start, log.journal)
      ensures SameElsewhere(patches, old(log.journal), log.journal, planned[m])
      ensures AppliedUpTo(patches, log.journal, planned, if r.Ok? then m + 1 else m)
    {
      assert IsIncreasing(planned, |patches|) && planned[m] < |patches|;
      hide InOrder, ReadyToApply, KeepsApplied, AppliedUpTo, AllAppliedBefore, NoneRecordedAfter;
      var k := planned[m];
      ghost var before := log.journal;
      TurnToApply(patches, start, before, planned, m);
      if patches[k].id in log.journal {
        var existing := log.journal[patches[k].id];
        if existing.status != Applied || existing.checksum != patches[k].checksum {
          return Err(Conflict);
        }
        AppliedNext(patches, before, before, planned, m);
        return Ok(());
      }
      var claimId: string := *;
      var claim := log.ClaimDataPatch(patches[k].id, patches[k].checksum, claimId);
      r := RunClaimed(k, claimId, Pending, Applied, Failed);
      assert SameElsewhere(patches, before, log.journal, k);
      ChangeNewest(patches, before, log.journal, k);
      KeptElsewhere(patches, start, before, log.journal, k);
      AppliedKept(patches, before, log.journal, planned, m);
      if r.Ok? {
        AppliedNext(patches, before, log.journal, planned, m);
      }
    }

    /** Rolls the planned patches back one after the other; the first failure ends the run. */
    method Rollback(planned: seq<nat>) returns (r: Result<()>)
      requires Distinct(patches) && InOrder(patches, log.journal) && ReadyToRollBack(patches, log.journal, planned)
      modifies log
      ensures InOrder(patches, log.journal)
      ensures SameOutside(patches, old(log.journal), log.journal, planned)
      ensures r.Ok? ==> OutUpTo(patches, log.journal, planned, |planned|)
      ensures r.Err? ==> exists m :: RollbacksStopAt(patches, old(log.journal), log.journal, planned, m)
    {
      var m := 0;
      while m < |planned|
        invariant 0 <= m <= |planned|
        invariant InOrder(patches, log.journal) && KeepsOut(patches, old(log.journal), log.journal)
        invariant OutUpTo(patches, log.journal, planned, m)
        invariant SameOutside(patches, old(log.journal), log.journal, planned[..m])
      {
        ghost var before := log.journal;
        r := RollbackNext(planned, m, old(log.journal));
        SameOutsideNext(patches, old(log.journal), before, log.journal, planned, m);
        if r.Err? {
          SameOutsidePrefix(patches, old(log.journal), log.journal, planned, m + 1);
          assert RollbacksStopAt(patches, old(log.journal), log.journal, planned, m);
          return;
        }
        m := m + 1;
      }
      SameOutsidePrefix(patches, old(log.journal), log.journal, planned, m);
      r := Ok(());
    }

    method RollbackNext(planned: seq<nat>, m: nat, ghost start: Journal) returns (r: Result<()>)
      requires Distinct(patches) && InOrder(patches, log.journal) && ReadyToRollBack(patches, start, planned) && m < |planned|
      requires KeepsOut(patches, start, log.journal) && OutUpTo(patches, log.journal, planned, m)
      modifies log
      ensures InOrder(patches, log.journal)
      ensures SameElsewhere(patches, old(log.journal), log.journal, planned[m])
      ensures OutUpTo(patches, log.journal, planned, if r.Ok? then m + 1 else m)
      ensures r.Ok? ==> KeepsOut(patches, start, log.journal)
    {
      assert IsDecreasing(planned, |patches|) && planned[m] < |patches|;
      hide InOrder, ReadyToRollBack, KeepsOut, OutUpTo, AllAppliedBefore, AllOutAfter;
      var k := planned[m];
      ghost var before := log.journal;
      if !patches[k].hasRollback {
        return Err(Conflict);
      }
      var claimId: string := *;
      var claim := log.ClaimDataPatchRollback(patches[k].id, patches[k].checksum, claimId);
      if claim.Err? {
        return Err(claim.error);
      }
      if claim.value.Settled? {
        OutNext(patches, before, before, planned, m);
        return Ok(());
      }
      if claim.value.Unfinished? {
        return Err(Conflict);
      }
      TurnToRollBack(patches, start, before, planned, m);
      r := RunClaimed(k, claimId, RollbackPending, RolledBack, RollbackFailed);
      assert SameElsewhere(patches, before, log.journal, k);
      ChangeLast(patches, before, log.journal, k);
      OutKept(patches, before, log.journal, planned, m);
      if r.Ok? {
        OutElsewhere(patches, start, before, log.journal, k);
        OutNext(patches, before, log.journal, planned, m);
      }
    }

    /** Tries a failed rollback again, once nothing later is left in. */
    method RetryRollbackFailed(k: nat) returns (r: Result<()>)
      requires Distinct(patches) && k < |patches| && InOrder(patches, log.journal)
      modifies log
      ensures InOrder(patches, log.journal) && SameElsewhere(patches, old(log.journal), log.journal, k)
      ensures r.Ok? ==> IsStatus(patches, log.journal, k, RolledBack)
      ensures if IsRetryable(patches, old(log.journal), k)
              then IsStatus(patches, log.journal, k, RolledBack) || IsStatus(patches, log.journal, k, RollbackPending)
                   || IsStatus(patches, log.journal, k, RollbackFailed)
              else r.Err? && log.journal == old(log.journal)
    {
      hide InOrder, AllAppliedBefore, AllOutAfter;
      ghost var before := log.journal;
      if !patches[k].hasRollback {
        return Err(Conflict);
      }
      var claimId: string := *;
      r := log.RetryFailedDataPatchRollback(patches[k].id, patches[k].checksum, claimId);
      if r.Err? {
        return;
      }
      OrderAround(patches, before, k);
      r := RunClaimed(k, claimId, RollbackPending, RolledBack, RollbackFailed);
      assert SameElsewhere(patches, before, log.journal, k);
      ChangeLast(patches, before, log.journal, k);
    }
  }

  /** The patch's rollback failed, and it still declares one under the checksum recorded. */
  predicate IsRetryable(patches: seq<Patch>, journal: Journal, k: nat)
    requires k < |patches|
  {
    IsStatus(patches, journal, k, RollbackFailed) && ChecksumMatches(patches, journal, k) && patches[k].hasRollback
  }

  predicate OutUpTo(patches: seq<Patch>, journal: Journal, planned: seq<nat>, m: nat)
    requires m <= |planned| && IsDecreasing(planned, |patches|)
  {
    forall l | 0 <= l < m :: IsOut(patches, journal, planned[l])
  }

  /** What was out still is. */
  predicate KeepsOut(patches: seq<Patch>, before: Journal, after: Journal) {
    forall k | 0 <= k < |patches| && IsOut(patches, before, k) :: IsOut(patches, after, k)
  }

  /** When its turn comes, everything after a planned patch is out; being applied, everything before it is applied. */
  lemma {:induction false} TurnToRollBack(patches: seq<Patch>, start: Journal, now: Journal, planned: seq<nat>, m: nat)
    requires ReadyToRollBack(patches, start, planned) && m < |planned| && InOrder(patches, now)
    requires KeepsOut(patches, start, now) && OutUpTo(patches, now, planned, m)
    requires IsApplied(patches, now, planned[m])
    ensures AllAppliedBefore(patches, now, planned[m]) && AllOutAfter(patches, now, planned[m])
  {
    OrderAround(patches, now, planned[m]);
    forall j | planned[m] < j < |patches|
      ensures IsOut(patches, now, j)
    {
      assert IsCleared(patches, start, planned, m, j);
    }
  }

  lemma {:induction false} OutElsewhere(patches: seq<Patch>, start: Journal, before: Journal, after: Journal, k: nat)
    requires Distinct(patches) && k < |patches| && SameElsewhere(patches, before, after, k)
    requires KeepsOut(patches, start, before) && IsOut(patches, after, k)
    ensures KeepsOut(patches, start, after)
  {
    forall i | 0 <= i < |patches| && IsOut(patches, start, i)
      ensures IsOut(patches, after, i)
    {
      assert IsOut(patches, before, i);
      if i != k {
        EntryElsewhere(patches, before, after, k, i);
      }
    }
  }

  lemma {:induction false} OutKept(patches: seq<Patch>, before: Journal, after: Journal, planned: seq<nat>, m: nat)
    requires Distinct(patches) && IsDecreasing(planned, |patches|) && m < |planned|
    requires SameElsewhere(patches, before, after, planned[m]) && OutUpTo(patches, before, planned, m)
    ensures OutUpTo(patches, after, planned, m)
  {
    forall l | 0 <= l < m
      ensures IsOut(patches, after, planned[l])
    {
      assert planned[l] > planned[m];
      EntryElsewhere(patches, before, after, planned[m], planned[l]);
    }
  }

  lemma {:induction false} OutNext(patches: seq<Patch>, before: Journal, after: Journal, planned: seq<nat>, m: nat)
    requires Distinct(patches) && IsDecreasing(planned, |patches|) && m < |planned|
    requires SameElsewhere(patches, before, after, planned[m])
    requires OutUpTo(patches, before, planned, m) && IsOut(patches, after, planned[m])
    ensures OutUpTo(patches, after, planned, m + 1)
  {
    OutKept(patches, before, after, planned, m);
  }

  class DataPatchService {
    const log: DataPatchLog
    const patches: seq<Patch>
    const runner: DataPatchRunner

    /** Whatever was called before, and however it ended, the journal is in order. */
    ghost predicate Valid()
      reads this, log, runner
    {
      Distinct(patches) && InOrder(patches, log.journal) && runner.log == log && runner.patches == patches
    }

    constructor (patches: seq<Patch>, log: DataPatchLog)
      requires Distinct(patches) && log.journal == map[]
      ensures Valid() && this.log == log && this.patches == patches
    {
      this.log := log;
      this.patches := patches;
      this.runner := new DataPatchRunner(log, patches);
    }

    /** Applies what was asked for, or, under a limit, the first unrecorded of it; nothing else changes. */
    method Apply(ids: Option<seq<string>>, limit: Option<int>) returns (r: Result<()>, ghost planned: seq<nat>)
      requires Valid()
      modifies log
      ensures Valid() && KeepsApplied(patches, old(log.journal), log.journal)
      ensures SameOutside(patches, old(log.journal), log.journal, planned)
      ensures forall k | k in planned :: k in Selection(patches, ids, |patches|)
      ensures !MayApply(patches, old(log.journal), ids, limit) ==> r.Err? && planned == [] && log.journal == old(log.journal)
      ensures limit.Some? && planned != [] ==> |planned| <= limit.value
      ensures r.Ok? && limit.Some? ==>
                IsFirstOf(patches, old(log.journal), Selection(patches, ids, |patches|), planned, limit.value)
      ensures r.Ok? && limit.None? ==> planned == Selection(patches, ids, |patches|)
      ensures r.Ok? ==> forall k | 0 <= k < |patches| && k in planned :: IsApplied(patches, log.journal, k)
      ensures r.Ok? && ids.None? && limit.None? ==> AllAppliedBefore(patches, log.journal, |patches|)
    {
      hide InOrder, SameOutside, KeepsApplied, PredecessorsApplied, ReadyToApply, Selection;
      planned := [];
      NothingChanged(patches, log.journal);
      var selected := PatchesForApply(patches, log.journal, ids, limit);
      if selected.Err? {
        return Err(selected.error), planned;
      }
      planned := selected.value;
      PlanIsIncreasing(patches, log.journal, planned);
      r := runner.Apply(selected.value);
      if r.Ok? {
        forall k | 0 <= k < |patches| && k in planned
          ensures IsApplied(patches, log.journal, k)
        {
          var l :| 0 <= l < |planned| && planned[l] == k;
        }
        forall k | 0 <= k < |patches| && ids.None? && limit.None?
          ensures IsApplied(patches, log.journal, k)
        {
          assert k in planned;
        }
      }
    }

    /** Rolls back what was asked for, latest first, or automatically from the end; nothing else changes. */
    method Rollback(ids: Option<seq<string>>, limit: Option<int>) returns (r: Result<()>, ghost planned: seq<nat>)
      requires Valid()
      modifies log
      ensures Valid() && SameOutside(patches, old(log.journal), log.journal, planned)
      ensures !MayRollBack(patches, old(log.journal), ids, limit) ==> r.Err? && planned == [] && log.journal == old(log.journal)
      ensures limit.Some? && planned != [] ==> |planned| <= limit.value
      ensures forall k | 0 <= k < |patches| && k in planned ::
                IsRollbackable(patches, old(log.journal), k) && k in Selection(patches, ids, |patches|)
      ensures r.Ok? ==> forall k | 0 <= k < |patches| && k in planned :: IsOut(patches, log.journal, k)
      ensures r.Ok? && ids.Some? ==>
                planned == Take(Reverse(Selection(patches, ids, |patches|)), if limit.None? then None else Some(limit.value))
      ensures r.Ok? && ids.None? && (limit.None? || |planned| < limit.value) ==>
                forall k | 0 <= k < |patches| && IsApplied(patches, old(log.journal), k) && k !in planned ::
                  exists s :: IsStop(patches, old(log.journal), planned, k, s)
      ensures r.Ok? && ids.Some? && limit.None? ==>
                forall k | 0 <= k < |patches| && patches[k].id in ids.value :: IsOut(patches, log.journal, k)
    {
      hide InOrder, SameOutside, Selection, ReadyToRollBack, SuccessorsRolledBack, FailsAt;
      planned := [];
      NothingChanged(patches, log.journal);
      if !IsLimit(limit) {
        return Err(BadRequest), planned;
      }
      var rollback: Result<seq<nat>>;
      ghost var chosen: seq<nat> := [];
      if ids.Some? {
        var selected := SelectDataPatches(patches, ids);
        if selected.Err? {
          return Err(selected.error), planned;
        }
        chosen := selected.value;
        rollback := PlanSelectedRollback(patches, log.journal, selected.value, limit);
        TakenFromReverse(chosen, if limit.None? then None else Some(limit.value));
      } else {
        rollback := PlanAutomaticRollback(patches, log.journal, limit);
        forall k | 0 <= k < |patches| ensures k in Selection(patches, ids, |patches|) {
          AllSelected(patches, |patches|, k);
        }
      }
      if rollback.Err? {
        return Err(rollback.error), planned;
      }
      planned := rollback.value;
      PlanIsDecreasing(patches, log.journal, planned);
      r := runner.Rollback(rollback.value);
      if r.Ok? {
        forall k | 0 <= k < |patches| && k in planned
          ensures IsOut(patches, log.journal, k)
        {
          var l :| 0 <= l < |planned| && planned[l] == k;
        }
        if ids.Some? && limit.None? {
          SelectedAreOut(patches, log.journal, ids, chosen);
        }
      }
    }

    /** Applies a failed patch again; the process may stop after the failure was forgotten. */
    method RetryFailed(id: string) returns (r: Result<()>)
      requires Valid()
      modifies log
      ensures Valid()
      ensures (exists k | 0 <= k < |patches| :: IsRetried(patches, old(log.journal), log.journal, id, k))
              || (r.Err? && log.journal == old(log.journal))
      ensures r.Ok? ==> exists k | 0 <= k < |patches| && patches[k].id == id :: IsApplied(patches, log.journal, k)
    {
      var selected := SelectDataPatches(patches, Some([id]));
      if selected.Err? {
        return Err(selected.error);
      }
      var k := selected.value[0];
      var checked := AssertPredecessorsApplied(patches, [k], log.journal);
      if checked.Err? {
        return Err(checked.error);
      }
      ghost var before := log.journal;
      r := log.RetryFailedDataPatch(patches[k].id, patches[k].checksum);
      if r.Err? {
        return;
      }
      OrderAround(patches, before, k);
      OnePredecessors(patches, before, k);
      assert SameElsewhere(patches, before, log.journal, k);
      ChangeNewest(patches, before, log.journal, k);
      ForgottenOnly(patches, before, log.journal, k);
      assert IsRetried(patches, before, log.journal, id, k);
      var stops: bool := *;
      if stops {
        return Err(BadRequest);
      }
      ghost var forgotten := log.journal;
      r := runner.Apply([k]);
      SameTwice(patches, before, forgotten, log.journal, [k]);
      assert IsRetried(patches, before, log.journal, id, k);
      assert r.Ok? ==> IsApplied(patches, log.journal, [k][0]);
    }

    method RetryRollbackFailed(id: string) returns (r: Result<()>)
      requires Valid()
      modifies log
      ensures Valid()
      ensures (exists k | 0 <= k < |patches| :: IsRollbackRetried(patches, old(log.journal), log.journal, id, k))
              || (r.Err? && log.journal == old(log.journal))
      ensures r.Ok? ==> exists k | 0 <= k < |patches| && patches[k].id == id :: IsStatus(patches, log.journal, k, RolledBack)
    {
      var selected := SelectDataPatches(patches, Some([id]));
      if selected.Err? {
        return Err(selected.error);
      }
      var k := selected.value[0];
      if patches[k].id !in log.journal || log.journal[patches[k].id].checksum != patches[k].checksum
         || log.journal[patches[k].id].status != RollbackFailed || !patches[k].hasRollback {
        return Err(Conflict);
      }
      var checked := AssertSuccessorsRolledBack(patches, log.journal, [k]);
      if checked.Err? {
        return Err(checked.error);
      }
      OneSuccessors(patches, log.journal, k);
      r := runner.RetryRollbackFailed(k);
      assert IsRollbackRetried(patches, old(log.journal), log.journal, id, k);
    }
  }

  lemma {:induction false} SelectedAreOut(patches: seq<Patch>, journal: Journal, ids: Option<seq<string>>, selected: seq<nat>)
    requires IsSelection(patches, ids, selected) && ids.Some? && IsDecreasing(Reverse(selected), |patches|)
    requires OutUpTo(patches, journal, Reverse(selected), |selected|)
    ensures forall k | 0 <= k < |patches| && patches[k].id in ids.value :: IsOut(patches, journal, k)
  {
    forall k | 0 <= k < |patches| && patches[k].id in ids.value
      ensures IsOut(patches, journal, k)
    {
      assert k in selected;
      var l :| 0 <= l < |selected| && selected[l] == k;
      assert Reverse(selected)[|selected| - 1 - l] == k;
    }
  }

  /** The patch had failed, everything before it was applied, and no other entry changed. */
  predicate IsRetried(patches: seq<Patch>, before: Journal, after: Journal, id: string, k: nat)
    requires k < |patches|
  {
    && patches[k].id == id && IsStatus(patches, before, k, Failed) && ChecksumMatches(patches, before, k)
    && AllAppliedBefore(patches, before, k) && SameOutside(patches, before, after, [k])
  }

  /** The patch's rollback had failed, nothing later was in, and no other entry changed. */
  predicate IsRollbackRetried(patches: seq<Patch>, before: Journal, after: Journal, id: string, k: nat)
    requires k < |patches|
  {
    && patches[k].id == id && IsRetryable(patches, before, k)
    && AllOutAfter(patches, before, k) && SameElsewhere(patches, before, after, k)
  }

  /** The request and the journal allow a rollback. */
  ghost predicate MayRollBack(patches: seq<Patch>, journal: Journal, ids: Option<seq<string>>, limit: Option<int>) {
    var selected := Selection(patches, ids, |patches|);
    && IsLimit(limit) && IsRequest(patches, ids)
    && if ids.None? then forall k :: !FailsAt(patches, journal, limit, k)
       else selected != [] && (forall k | 0 <= k < |patches| && k in selected :: IsRollbackable(patches, journal, k))
            && SuccessorsRolledBack(patches, journal, selected)
  }

  lemma NothingChanged(patches: seq<Patch>, journal: Journal)
    ensures SameOutside(patches, journal, journal, []) && KeepsApplied(patches, journal, journal)
  {
  }

  lemma {:induction false} SameTwice(patches: seq<Patch>, before: Journal, middle: Journal, after: Journal, planned: seq<nat>)
    requires SameOutside(patches, before, middle, planned) && SameOutside(patches, middle, after, planned)
    ensures SameOutside(patches, before, after, planned)
  {
    forall k | 0 <= k < |patches| && k !in planned
      ensures SameEntry(patches, before, after, k)
    {
      assert SameEntry(patches, before, middle, k) && SameEntry(patches, middle, after, k);
    }
  }

  lemma {:induction false} ForgottenOnly(patches: seq<Patch>, before: Journal, after: Journal, k: nat)
    requires Distinct(patches) && k < |patches| && SameElsewhere(patches, before, after, k)
    ensures SameOutside(patches, before, after, [k])
  {
    forall i | 0 <= i < |patches| && i !in [k]
      ensures SameEntry(patches, before, after, i)
    {
      assert k in [k];
      EntryElsewhere(patches, before, after, k, i);
    }
  }

  lemma PlanIsIncreasing(patches: seq<Patch>, journal: Journal, planned: seq<nat>)
    requires ReadyToApply(patches, journal, planned)
    ensures IsIncreasing(planned, |patches|)
  {
  }

  lemma PlanIsDecreasing(patches: seq<Patch>, journal: Journal, planned: seq<nat>)
    requires ReadyToRollBack(patches, journal, planned)
    ensures IsDecreasing(planned, |patches|)
  {
  }

  lemma {:induction false} AllSelected(patches: seq<Patch>, n: nat, k: nat)
    requires k < n <= |patches|
    ensures k in Selection(patches, None, n)
  {
    if k < n - 1 {
      AllSelected(patches, n - 1, k);
    }
  }

  lemma {:induction false} TakenFromReverse(selected: seq<nat>, limit: Option<nat>)
    ensures forall k | k in Take(Reverse(selected), limit) :: k in selected
  {
    forall k | k in Take(Reverse(selected), limit)
      ensures k in selected
    {
      var i :| 0 <= i < |Take(Reverse(selected), limit)| && Take(Reverse(selected), limit)[i] == k;
      assert selected[|selected| - 1 - i] == k;
    }
  }

  lemma {:induction false} OneSuccessors(patches: seq<Patch>, journal: Journal, k: nat)
    requires k < |patches| && SuccessorsRolledBack(patches, journal, [k])
    ensures AllOutAfter(patches, journal, k)
  {
    forall j | k < j < |patches| ensures IsOut(patches, journal, j) {
      assert IsSafeSuccessor(patches, journal, [k], j);
    }
  }

  lemma {:induction false} OnePredecessors(patches: seq<Patch>, journal: Journal, k: nat)
    requires k < |patches| && PredecessorsApplied(patches, [k], journal)
    ensures AllAppliedBefore(patches, journal, k)
  {
    forall i | 0 <= i < k ensures IsApplied(patches, journal, i) {
      assert IsNoBlocker(patches, [k], journal, i) && k in [k];
    }
  }
}
