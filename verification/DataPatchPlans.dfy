/**
Which patches an apply or rollback may run, and in what order, given the journal.
*/
module DataPatchPlans {
  import opened Results
  import opened DataPatchJournal

  predicate IsIncreasing(planned: seq<nat>, n: nat) {
    && (forall m | 0 <= m < |planned| :: planned[m] < n)
    && (forall l, m | 0 <= l < m < |planned| :: planned[l] < planned[m])
  }

  predicate IsDecreasing(planned: seq<nat>, n: nat) {
    && (forall m | 0 <= m < |planned| :: planned[m] < n)
    && (forall l, m | 0 <= l < m < |planned| :: planned[l] > planned[m])
  }

  predicate IsLimit(limit: Option<int>) {
    limit.None? || limit.value >= 1
  }

  function Take<T>(items: seq<T>, limit: Option<nat>): seq<T> {
    if limit.None? || limit.value >= |items| then items else items[..limit.value]
  }

  // ----- Selection ----------------------------------------------------------------

  predicate IsSelection(patches: seq<Patch>, ids: Option<seq<string>>, selected: seq<nat>) {
    && IsIncreasing(selected, |patches|)
    && (forall k | 0 <= k < |patches| :: k in selected <==> ids.None? || patches[k].id in ids.value)
  }

  /** The patches asked for, in registered order: those named, or all. */
  function Selection(patches: seq<Patch>, ids: Option<seq<string>>, n: nat): seq<nat>
    requires n <= |patches|
  {
    if n == 0 then []
    else
      var earlier := Selection(patches, ids, n - 1);
      if ids.None? || patches[n - 1].id in ids.value then earlier + [n - 1] else earlier
  }

  /** The request names patches, all of them registered, or nothing at all. */
  predicate IsRequest(patches: seq<Patch>, ids: Option<seq<string>>) {
    ids.None? || (ids.value != [] && forall id | id in ids.value :: IsKnown(patches, id))
  }

  predicate IsKnown(patches: seq<Patch>, id: string) {
    exists k | 0 <= k < |patches| :: patches[k].id == id
  }

  /** The selected patches in registered order; every id asked for must be registered. */
  method SelectDataPatches(patches: seq<Patch>, ids: Option<seq<string>>) returns (r: Result<seq<nat>>)
    ensures r.Ok? <==> IsRequest(patches, ids)
    ensures r.Ok? ==> IsSelection(patches, ids, r.value) && r.value == Selection(patches, ids, |patches|)
    ensures r.Ok? && ids.Some? ==> r.value != []
  {
    if ids == Some([]) {
      return Err(BadRequest);
    }
    var selected: seq<nat> := [];
    var k := 0;
    while k < |patches|
      invariant 0 <= k <= |patches|
      invariant IsIncreasing(selected, k) && selected == Selection(patches, ids, k)
      invariant forall i | 0 <= i < k :: i in selected <==> ids.None? || patches[i].id in ids.value
    {
      if ids.None? || patches[k].id in ids.value {
        selected := selected + [k];
      }
      k := k + 1;
    }
    if ids.Some? {
      var i := 0;
      while i < |ids.value|
        invariant 0 <= i <= |ids.value|
        invariant forall j | 0 <= j < i :: IsKnown(patches, ids.value[j])
        invariant i > 0 ==> selected != []
      {
        var known := Knows(patches, ids.value[i]);
        if !known {
          return Err(NotFound);
        }
        var position :| 0 <= position < |patches| && patches[position].id == ids.value[i];
        assert position in selected;
        i := i + 1;
      }
    }
    r := Ok(selected);
  }

  method Knows(patches: seq<Patch>, id: string) returns (known: bool)
    ensures known == IsKnown(patches, id)
  {
    var k := 0;
    while k < |patches|
      invariant 0 <= k <= |patches|
      invariant forall i | 0 <= i < k :: patches[i].id != id
    {
      if patches[k].id == id {
        return true;
      }
      k := k + 1;
    }
    known := false;
  }

  // ----- Applying -------------------------------------------------------------------

  /** The patch was applied before, or is planned earlier. */
  predicate IsSettled(patches: seq<Patch>, journal: Journal, planned: seq<nat>, m: nat, i: nat)
    requires i < |patches| && m <= |planned|
  {
    IsApplied(patches, journal, i) || i in planned[..m]
  }

  /** Before each planned patch, in registered order, everything is applied or planned earlier. */
  predicate ReadyToApply(patches: seq<Patch>, journal: Journal, planned: seq<nat>) {
    && IsIncreasing(planned, |patches|)
    && (forall m, i | 0 <= m < |planned| && 0 <= i < planned[m] :: IsSettled(patches, journal, planned, m, i))
  }

  /** An unselected patch keeps no later selected one from running. */
  predicate IsNoBlocker(patches: seq<Patch>, selected: seq<nat>, journal: Journal, i: nat)
    requires i < |patches|
  {
    i in selected
    || ((IsRecorded(patches, journal, i) ==> ChecksumMatches(patches, journal, i))
        && (IsApplied(patches, journal, i) || forall k | k in selected :: k < i))
  }

  predicate PredecessorsApplied(patches: seq<Patch>, selected: seq<nat>, journal: Journal) {
    forall i | 0 <= i < |patches| :: IsNoBlocker(patches, selected, journal, i)
  }

  method AssertPredecessorsApplied(patches: seq<Patch>, selected: seq<nat>, journal: Journal) returns (r: Result<()>)
    requires IsIncreasing(selected, |patches|)
    ensures r.Ok? <==> PredecessorsApplied(patches, selected, journal)
  {
    var blocker: Option<nat> := None;
    var k := 0;
    while k < |patches|
      invariant 0 <= k <= |patches|
      invariant blocker.Some? ==> blocker.value < k && blocker.value !in selected
                                  && !IsApplied(patches, journal, blocker.value)
                                  && (forall s | s in selected && s < k :: s < blocker.value)
      invariant forall i | 0 <= i < k && i !in selected && IsRecorded(patches, journal, i) ::
                  ChecksumMatches(patches, journal, i)
      invariant forall i | 0 <= i < k && i !in selected ::
                  IsApplied(patches, journal, i) || (blocker.Some? && blocker.value <= i)
    {
      if k in selected {
        if blocker.Some? {
          assert !IsNoBlocker(patches, selected, journal, blocker.value);
          return Err(Conflict);
        }
      } else if patches[k].id !in journal {
        blocker := if blocker.None? then Some(k) else blocker;
      } else {
        if journal[patches[k].id].checksum != patches[k].checksum {
          assert !IsNoBlocker(patches, selected, journal, k);
          return Err(Conflict);
        }
        if journal[patches[k].id].status != Applied {
          blocker := if blocker.None? then Some(k) else blocker;
        }
      }
      k := k + 1;
    }
    r := Ok(());
  }

  predicate IsSkippable(patches: seq<Patch>, journal: Journal, k: nat)
    requires k < |patches|
  {
    IsApplied(patches, journal, k) && ChecksumMatches(patches, journal, k)
  }

  /** The planned patches without a journal entry; the others must be applied. */
  method PendingPatches(patches: seq<Patch>, planned: seq<nat>, journal: Journal) returns (r: Result<seq<nat>>)
    requires IsIncreasing(planned, |patches|)
    ensures r.Ok? <==> forall k | k in planned :: !IsRecorded(patches, journal, k) || IsSkippable(patches, journal, k)
    ensures r.Ok? ==> IsIncreasing(r.value, |patches|)
                      && (forall k :: k in r.value <==> k in planned && !IsRecorded(patches, journal, k))
  {
    var pending: seq<nat> := [];
    var m := 0;
    while m < |planned|
      invariant 0 <= m <= |planned|
      invariant IsIncreasing(pending, if m == 0 then 0 else planned[m - 1] + 1)
      invariant forall k :: k in pending <==> k in planned[..m] && !IsRecorded(patches, journal, k)
      invariant forall k | k in planned[..m] :: !IsRecorded(patches, journal, k) || IsSkippable(patches, journal, k)
    {
      var k := planned[m];
      assert planned[..m + 1] == planned[..m] + [k];
      if patches[k].id !in journal {
        pending := pending + [k];
      } else if journal[patches[k].id].status != Applied || journal[patches[k].id].checksum != patches[k].checksum {
        assert k in planned && !IsSkippable(patches, journal, k);
        return Err(Conflict);
      }
      m := m + 1;
    }
    assert planned[..m] == planned;
    r := Ok(pending);
  }

  /** The request and the journal allow an apply; under a limit, nothing selected may have been started. */
  predicate MayApply(patches: seq<Patch>, journal: Journal, ids: Option<seq<string>>, limit: Option<int>) {
    var selected := Selection(patches, ids, |patches|);
    && IsLimit(limit) && IsRequest(patches, ids)
    && (ids.Some? ==> PredecessorsApplied(patches, selected, journal))
    && (limit.Some? ==> forall k | 0 <= k < |patches| && k in selected ::
          !IsRecorded(patches, journal, k) || IsSkippable(patches, journal, k))
  }

  /** What is left out of a limited plan comes after all of it, and the plan is full. */
  predicate IsFirstOf(patches: seq<Patch>, journal: Journal, selected: seq<nat>, planned: seq<nat>, limit: int) {
    forall k | 0 <= k < |patches| && k in selected && !IsRecorded(patches, journal, k) && k !in planned ::
      |planned| == limit && forall i | i in planned :: i < k
  }

  /** The patches an apply runs. */
  method PatchesForApply(patches: seq<Patch>, journal: Journal, ids: Option<seq<string>>, limit: Option<int>)
    returns (r: Result<seq<nat>>)
    ensures r.Ok? <==> MayApply(patches, journal, ids, limit)
    ensures r.Ok? ==> forall k | k in r.value :: k in Selection(patches, ids, |patches|)
    ensures r.Ok? && limit.None? ==> r.value == Selection(patches, ids, |patches|)
    ensures r.Ok? && limit.Some? ==> IsFirstOf(patches, journal, Selection(patches, ids, |patches|), r.value, limit.value)
    ensures r.Ok? ==> ReadyToApply(patches, journal, r.value)
    ensures r.Ok? && ids.None? && limit.None? ==> IsSelection(patches, None, r.value)
    ensures r.Ok? && limit.Some? ==> |r.value| <= limit.value && (forall k | k in r.value :: !IsRecorded(patches, journal, k))
  {
    if !IsLimit(limit) {
      return Err(BadRequest);
    }
    var selected := SelectDataPatches(patches, ids);
    if selected.Err? {
      return selected;
    }
    if ids.Some? {
      var checked := AssertPredecessorsApplied(patches, selected.value, journal);
      if checked.Err? {
        return Err(checked.error);
      }
    }
    if limit.None? {
      SelectedAreReady(patches, journal, ids, selected.value);
      return selected;
    }
    var pending := PendingPatches(patches, selected.value, journal);
    if pending.Err? {
      return pending;
    }
    PendingAreReady(patches, journal, ids, selected.value, pending.value);
    TakeIsReady(patches, journal, pending.value, limit.value);
    TakeIsFirst(patches, journal, selected.value, pending.value, limit.value);
    r := Ok(Take(pending.value, Some(limit.value)));
  }

  lemma {:induction false} EarlierInPlan(planned: seq<nat>, n: nat, m: nat, i: nat)
    requires IsIncreasing(planned, n) && m < |planned| && i in planned && i < planned[m]
    ensures i in planned[..m]
  {
    var l :| 0 <= l < |planned| && planned[l] == i;
    assert planned[..m][l] == i;
  }

  lemma {:induction false} SelectedAreReady(patches: seq<Patch>, journal: Journal, ids: Option<seq<string>>, selected: seq<nat>)
    requires IsSelection(patches, ids, selected)
    requires ids.Some? ==> PredecessorsApplied(patches, selected, journal)
    ensures ReadyToApply(patches, journal, selected)
  {
    forall m, i | 0 <= m < |selected| && 0 <= i < selected[m]
      ensures IsSettled(patches, journal, selected, m, i)
    {
      if i in selected {
        EarlierInPlan(selected, |patches|, m, i);
      } else {
        assert IsNoBlocker(patches, selected, journal, i) && selected[m] in selected;
      }
    }
  }

  lemma {:induction false} PendingAreReady(patches: seq<Patch>, journal: Journal, ids: Option<seq<string>>, selected: seq<nat>,
                                           pending: seq<nat>)
    requires IsSelection(patches, ids, selected) && IsIncreasing(pending, |patches|)
    requires ids.Some? ==> PredecessorsApplied(patches, selected, journal)
    requires forall k | k in selected :: !IsRecorded(patches, journal, k) || IsSkippable(patches, journal, k)
    requires forall k :: k in pending <==> k in selected && !IsRecorded(patches, journal, k)
    ensures ReadyToApply(patches, journal, pending)
  {
    forall m, i | 0 <= m < |pending| && 0 <= i < pending[m]
      ensures IsSettled(patches, journal, pending, m, i)
    {
      assert pending[m] in pending && pending[m] in selected;
      if i in pending {
        EarlierInPlan(pending, |patches|, m, i);
      } else if i !in selected {
        assert IsNoBlocker(patches, selected, journal, i);
      }
    }
  }

  lemma {:induction false} TakeIsReady(patches: seq<Patch>, journal: Journal, planned: seq<nat>, limit: nat)
    requires ReadyToApply(patches, journal, planned)
    ensures ReadyToApply(patches, journal, Take(planned, Some(limit)))
  {
    var taken := Take(planned, Some(limit));
    forall m, i | 0 <= m < |taken| && 0 <= i < taken[m]
      ensures IsSettled(patches, journal, taken, m, i)
    {
      assert IsSettled(patches, journal, planned, m, i);
      assert taken[..m] == planned[..m];
    }
  }

  lemma {:induction false} TakeIsFirst(patches: seq<Patch>, journal: Journal, selected: seq<nat>, pending: seq<nat>, limit: nat)
    requires IsIncreasing(selected, |patches|) && IsIncreasing(pending, |patches|)
    requires forall k :: k in pending <==> k in selected && !IsRecorded(patches, journal, k)
    ensures IsFirstOf(patches, journal, selected, Take(pending, Some(limit)), limit)
    ensures forall k | k in Take(pending, Some(limit)) :: k in selected && !IsRecorded(patches, journal, k)
  {
    var taken := Take(pending, Some(limit));
    forall k | 0 <= k < |patches| && k in selected && !IsRecorded(patches, journal, k) && k !in taken
      ensures |taken| == limit && forall i | i in taken :: i < k
    {
      assert k in pending;
      var l :| 0 <= l < |pending| && pending[l] == k;
      assert forall i | 0 <= i < |taken| :: taken[i] == pending[i];
    }
  }

  // ----- Rolling back -----------------------------------------------------------------

  /** The patch is out, or its rollback is planned earlier. */
  predicate IsCleared(patches: seq<Patch>, journal: Journal, planned: seq<nat>, m: nat, j: nat)
    requires j < |patches| && m <= |planned|
  {
    IsOut(patches, journal, j) || j in planned[..m]
  }

  /** After each planned patch, in registered order, everything is out or rolled back earlier. */
  predicate ReadyToRollBack(patches: seq<Patch>, journal: Journal, planned: seq<nat>) {
    && IsDecreasing(planned, |patches|)
    && (forall m, j | 0 <= m < |planned| && planned[m] < j < |patches| :: IsCleared(patches, journal, planned, m, j))
  }

  predicate IsRollbackable(patches: seq<Patch>, journal: Journal, k: nat)
    requires k < |patches|
  {
    IsApplied(patches, journal, k) && ChecksumMatches(patches, journal, k) && patches[k].hasRollback
  }

  /** The status and checksum let the automatic planner pass the patch. */
  predicate IsPassable(patches: seq<Patch>, journal: Journal, k: nat)
    requires k < |patches|
  {
    IsRecorded(patches, journal, k) ==>
      ChecksumMatches(patches, journal, k) && (IsApplied(patches, journal, k) || IsStatus(patches, journal, k, RolledBack))
  }

  /** How many patches from the k-th on are applied. */
  function AppliedFrom(patches: seq<Patch>, journal: Journal, k: nat): nat
    requires k <= |patches|
    decreases |patches| - k
  {
    if k == |patches| then 0
    else AppliedFrom(patches, journal, k + 1) + if IsApplied(patches, journal, k) then 1 else 0
  }

  /** The backward walk gets to the k-th patch: nothing later fails, stops it, or fills the limit. */
  predicate IsReached(patches: seq<Patch>, journal: Journal, limit: Option<int>, k: nat)
    requires k < |patches|
  {
    && (forall j | k < j < |patches| ::
          IsPassable(patches, journal, j) && (IsApplied(patches, journal, j) ==> patches[j].hasRollback))
    && (limit.None? || AppliedFrom(patches, journal, k + 1) < limit.value)
  }

  /** The walk fails at the k-th patch: it is unfinished, failed, or recorded with another checksum. */
  predicate FailsAt(patches: seq<Patch>, journal: Journal, limit: Option<int>, k: nat) {
    k < |patches| && IsReached(patches, journal, limit, k) && !IsPassable(patches, journal, k)
  }

  lemma {:induction false} AppliedFromGrows(patches: seq<Patch>, journal: Journal, j: nat, k: nat)
    requires j <= k <= |patches|
    ensures AppliedFrom(patches, journal, k) <= AppliedFrom(patches, journal, j)
    decreases k - j
  {
    if j < k {
      AppliedFromGrows(patches, journal, j + 1, k);
    }
  }

  /** Having walked down to `k` without failing, and going no further, the walk fails nowhere. */
  lemma {:induction false} WalkEnds(patches: seq<Patch>, journal: Journal, limit: Option<int>, k: nat)
    requires k <= |patches|
    requires forall j | k <= j < |patches| :: IsPassable(patches, journal, j)
    requires k == 0 || (limit.Some? && limit.value <= AppliedFrom(patches, journal, k))
          || (k < |patches| && IsApplied(patches, journal, k) && !patches[k].hasRollback)
    ensures forall j :: !FailsAt(patches, journal, limit, j)
  {
    forall j: nat | j < k
      ensures !FailsAt(patches, journal, limit, j)
    {
      AppliedFromGrows(patches, journal, j + 1, k);
    }
  }

  /**
  From the last patch backwards: skips what is out, takes what can be rolled back, and stops at an
  applied patch without a rollback or at the limit.
  */
  method PlanAutomaticRollback(patches: seq<Patch>, journal: Journal, limit: Option<int>) returns (r: Result<seq<nat>>)
    requires IsLimit(limit)
    ensures r.Err? <==> exists k :: FailsAt(patches, journal, limit, k)
    ensures r.Ok? ==> ReadyToRollBack(patches, journal, r.value)
    ensures r.Ok? ==> (forall k | k in r.value :: IsRollbackable(patches, journal, k))
    ensures r.Ok? && limit.Some? ==> |r.value| <= limit.value
    ensures r.Ok? && (limit.None? || |r.value| < limit.value) ==>
              forall k | 0 <= k < |patches| && IsApplied(patches, journal, k) && k !in r.value ::
                exists s :: IsStop(patches, journal, r.value, k, s)
  {
    var rollback: seq<nat> := [];
    var k := |patches|;
    while k > 0
      invariant 0 <= k <= |patches|
      invariant IsDecreasing(rollback, |patches|) && (forall m | 0 <= m < |rollback| :: k <= rollback[m])
      invariant forall i | i in rollback :: IsRollbackable(patches, journal, i)
      invariant forall j | k <= j < |patches| :: IsOut(patches, journal, j) || j in rollback
      invariant ReadyToRollBack(patches, journal, rollback)
      invariant limit.Some? ==> |rollback| < limit.value
      invariant |rollback| == AppliedFrom(patches, journal, k)
      invariant forall j | k <= j < |patches| ::
                  IsPassable(patches, journal, j) && (IsApplied(patches, journal, j) ==> patches[j].hasRollback)
    {
      k := k - 1;
      assert IsReached(patches, journal, limit, k);
      if patches[k].id in journal {
        var recorded := journal[patches[k].id];
        if recorded.checksum != patches[k].checksum {
          assert FailsAt(patches, journal, limit, k);
          return Err(Conflict);
        }
        if recorded.status != Applied && recorded.status != RolledBack {
          assert FailsAt(patches, journal, limit, k);
          return Err(Conflict);
        }
        if recorded.status == Applied {
          if !patches[k].hasRollback {
            WalkEnds(patches, journal, limit, k);
            forall i | 0 <= i < |patches| && IsApplied(patches, journal, i) && i !in rollback
              ensures exists s :: IsStop(patches, journal, rollback, i, s)
            {
              assert i < k || i == k;
              assert IsStop(patches, journal, rollback, i, k);
            }
            return Ok(rollback);
          }
          RollBackNext(patches, journal, rollback, k);
          rollback := rollback + [k];
          if limit.Some? && |rollback| >= limit.value {
            WalkEnds(patches, journal, limit, k);
            return Ok(rollback);
          }
        }
      }
    }
    WalkEnds(patches, journal, limit, 0);
    r := Ok(rollback);
  }

  /** Applied, left out, at or after `k`, and without a rollback. */
  predicate IsStop(patches: seq<Patch>, journal: Journal, planned: seq<nat>, k: nat, s: nat) {
    k <= s < |patches| && s !in planned && IsApplied(patches, journal, s) && !patches[s].hasRollback
  }

  lemma {:induction false} RollBackNext(patches: seq<Patch>, journal: Journal, rollback: seq<nat>, k: nat)
    requires ReadyToRollBack(patches, journal, rollback) && k < |patches|
    requires forall m | 0 <= m < |rollback| :: k < rollback[m]
    requires forall j | k < j < |patches| :: IsOut(patches, journal, j) || j in rollback
    ensures ReadyToRollBack(patches, journal, rollback + [k])
  {
    var longer := rollback + [k];
    forall m, j | 0 <= m < |longer| && longer[m] < j < |patches|
      ensures IsCleared(patches, journal, longer, m, j)
    {
      if m < |rollback| {
        assert IsCleared(patches, journal, rollback, m, j);
        assert longer[..m] == rollback[..m];
      } else {
        assert longer[..m] == rollback;
      }
    }
  }

  /** A patch after the earliest selected one: selected itself, or out with the checksum expected. */
  predicate IsSafeSuccessor(patches: seq<Patch>, journal: Journal, selected: seq<nat>, j: nat)
    requires j < |patches|
  {
    j in selected || !IsRecorded(patches, journal, j)
    || (ChecksumMatches(patches, journal, j) && IsStatus(patches, journal, j, RolledBack))
  }

  predicate SuccessorsRolledBack(patches: seq<Patch>, journal: Journal, selected: seq<nat>)
    requires selected != []
  {
    forall j | selected[0] < j < |patches| :: IsSafeSuccessor(patches, journal, selected, j)
  }

  method AssertSuccessorsRolledBack(patches: seq<Patch>, journal: Journal, selected: seq<nat>) returns (r: Result<()>)
    requires IsIncreasing(selected, |patches|) && selected != []
    ensures r.Ok? <==> SuccessorsRolledBack(patches, journal, selected)
  {
    var j := selected[0] + 1;
    while j < |patches|
      invariant selected[0] < j <= |patches|
      invariant forall i | selected[0] < i < j :: IsSafeSuccessor(patches, journal, selected, i)
    {
      if j !in selected && patches[j].id in journal {
        var recorded := journal[patches[j].id];
        if recorded.checksum != patches[j].checksum || recorded.status != RolledBack {
          assert !IsSafeSuccessor(patches, journal, selected, j);
          return Err(Conflict);
        }
      }
      j := j + 1;
    }
    r := Ok(());
  }

  function Reverse(planned: seq<nat>): (r: seq<nat>)
    ensures |r| == |planned|
  {
    seq(|planned|, i requires 0 <= i < |planned| => planned[|planned| - 1 - i])
  }

  /** A selection can be rolled back exactly when each patch can and everything after the first of them is out. */
  method PlanSelectedRollback(patches: seq<Patch>, journal: Journal, selected: seq<nat>, limit: Option<int>)
    returns (r: Result<seq<nat>>)
    requires IsIncreasing(selected, |patches|) && selected != [] && IsLimit(limit)
    ensures r.Ok? <==> (forall k | k in selected :: IsRollbackable(patches, journal, k))
                       && SuccessorsRolledBack(patches, journal, selected)
    ensures r.Ok? ==> ReadyToRollBack(patches, journal, r.value)
    ensures r.Ok? ==> r.value == Take(Reverse(selected), if limit.None? then None else Some(limit.value))
  {
    var m := 0;
    while m < |selected|
      invariant 0 <= m <= |selected|
      invariant forall l | 0 <= l < m :: IsRollbackable(patches, journal, selected[l])
    {
      if !IsRollbackable(patches, journal, selected[m]) {
        return Err(Conflict);
      }
      m := m + 1;
    }
    var checked := AssertSuccessorsRolledBack(patches, journal, selected);
    if checked.Err? {
      return Err(checked.error);
    }
    ReverseIsReady(patches, journal, selected);
    TakeIsReadyToRollBack(patches, journal, Reverse(selected), limit);
    r := Ok(Take(Reverse(selected), if limit.None? then None else Some(limit.value)));
  }

  lemma {:induction false} ReverseIsReady(patches: seq<Patch>, journal: Journal, selected: seq<nat>)
    requires IsIncreasing(selected, |patches|) && selected != [] && SuccessorsRolledBack(patches, journal, selected)
    ensures ReadyToRollBack(patches, journal, Reverse(selected))
  {
    var n, reversed := |selected|, Reverse(selected);
    forall m, j | 0 <= m < n && reversed[m] < j < |patches|
      ensures IsCleared(patches, journal, reversed, m, j)
    {
      assert selected[0] <= reversed[m];
      assert IsSafeSuccessor(patches, journal, selected, j);
      if j in selected {
        var l :| 0 <= l < n && selected[l] == j;
        assert reversed[..m][n - 1 - l] == j;
      }
    }
  }

  lemma {:induction false} TakeIsReadyToRollBack(patches: seq<Patch>, journal: Journal, planned: seq<nat>, limit: Option<int>)
    requires ReadyToRollBack(patches, journal, planned) && IsLimit(limit)
    ensures ReadyToRollBack(patches, journal, Take(planned, if limit.None? then None else Some(limit.value)))
  {
    var taken := Take(planned, if limit.None? then None else Some(limit.value));
    forall m, j | 0 <= m < |taken| && taken[m] < j < |patches|
      ensures IsCleared(patches, journal, taken, m, j)
    {
      assert IsCleared(patches, journal, planned, m, j);
      assert taken[..m] == planned[..m];
    }
  }
}
