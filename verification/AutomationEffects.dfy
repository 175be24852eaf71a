/**
How often a run's update reaches its target document. An attempt checks that no target event
carries the run's id, then reads the target's version, then commits under that version; a crash may
follow, and the run may be attempted again.
*/
module AutomationEffects {
  import opened Results

  /**
  A target event: the automation run its metadata names, if any, whether the document then already
  has every value the run's patch would set, and whether it is then deleted.
  */
  datatype TargetEvent = TargetEvent(actionId: Option<string>, patched: bool, deleted: bool)

  type Target = seq<TargetEvent>

  /** The states of the target document's stream, one commit apart. */
  type History = seq<Target>

  predicate IsApplied(target: Target, runId: string) {
    exists i | 0 <= i < |target| :: target[i].actionId == Some(runId)
  }

  /** The run's patch would change the document. */
  predicate NeedsPatch(target: Target) {
    target != [] && !target[|target| - 1].patched && !target[|target| - 1].deleted
  }

  function Applications(target: Target, runId: string): nat {
    if target == [] then 0
    else Applications(target[..|target| - 1], runId) + if target[|target| - 1].actionId == Some(runId) then 1 else 0
  }

  lemma {:induction false} AppliedIffCounted(target: Target, runId: string)
    ensures IsApplied(target, runId) <==> Applications(target, runId) > 0
  {
    if target != [] {
      var init := target[..|target| - 1];
      AppliedIffCounted(init, runId);
      if IsApplied(target, runId) {
        var i :| 0 <= i < |target| && target[i].actionId == Some(runId);
        if i < |init| {
          assert init[i].actionId == Some(runId);
        }
      }
      if IsApplied(init, runId) {
        var i :| 0 <= i < |init| && init[i].actionId == Some(runId);
        assert target[i].actionId == Some(runId);
      }
      if target[|target| - 1].actionId == Some(runId) {
        assert IsApplied(target, runId);
      }
    }
  }

  lemma ApplicationsSnoc(target: Target, e: TargetEvent, runId: string)
    ensures Applications(target + [e], runId) == Applications(target, runId) + if e.actionId == Some(runId) then 1 else 0
  {
    assert (target + [e])[..|target|] == target;
  }

  /** The commit after state `n` is not this run's. */
  predicate IsForeign(history: History, n: nat, runId: string)
    requires n + 1 < |history|
  {
    exists e: TargetEvent | e in history[n + 1] :: e.actionId != Some(runId) && history[n + 1] == history[n] + [e]
  }

  /** The commit after state `n` is this run's, by an attempt that checked at `check` and read the version at `read`. */
  predicate IsUpdate(history: History, n: nat, runId: string, check: nat, read: nat)
    requires n + 1 < |history|
  {
    && check <= n && read <= n
    && !IsApplied(history[check], runId)
    && NeedsPatch(history[read])
    && |history[read]| == |history[n]|
    && (exists e: TargetEvent | e in history[n + 1] :: e.actionId == Some(runId) && history[n + 1] == history[n] + [e])
  }

  /** Attempts on the run do not overlap: since the check, only others have committed. */
  predicate IsAlone(history: History, n: nat, runId: string, check: nat)
    requires n + 1 < |history|
  {
    forall m | check <= m < n :: IsForeign(history, m, runId)
  }

  predicate StepWith(history: History, n: nat, runId: string, check: nat, read: nat)
    requires n + 1 < |history|
  {
    IsUpdate(history, n, runId, check, read) && check <= read && IsAlone(history, n, runId, check)
  }

  /** A history in which every attempt runs alone, in the order the consumer uses. */
  ghost predicate WithoutOverlap(history: History, runId: string) {
    && history != [] && !IsApplied(history[0], runId)
    && (forall n | 0 <= n < |history| - 1 ::
          IsForeign(history, n, runId) || exists check: nat, read: nat :: StepWith(history, n, runId, check, read))
  }

  lemma {:induction false} ForeignKeepsCount(history: History, n: nat, runId: string)
    requires n + 1 < |history| && IsForeign(history, n, runId)
    ensures Applications(history[n + 1], runId) == Applications(history[n], runId)
  {
    var e: TargetEvent :| e in history[n + 1] && e.actionId != Some(runId) && history[n + 1] == history[n] + [e];
    ApplicationsSnoc(history[n], e, runId);
  }

  lemma {:induction false} UpdateCounts(history: History, n: nat, runId: string, check: nat, read: nat)
    requires n + 1 < |history| && IsUpdate(history, n, runId, check, read)
    ensures Applications(history[n + 1], runId) == Applications(history[n], runId) + 1
  {
    var e: TargetEvent :| e in history[n + 1] && e.actionId == Some(runId) && history[n + 1] == history[n] + [e];
    ApplicationsSnoc(history[n], e, runId);
  }

  lemma {:induction false} AloneKeepsCount(history: History, check: nat, n: nat, runId: string)
    requires check <= n && n + 1 < |history| && IsAlone(history, n, runId, check)
    ensures Applications(history[n], runId) == Applications(history[check], runId)
    decreases n
  {
    if check < n {
      assert IsForeign(history, n - 1, runId);
      AloneKeepsCount(history, check, n - 1, runId);
      ForeignKeepsCount(history, n - 1, runId);
    }
  }

  lemma {:induction false} UpdateAloneIsFirst(history: History, runId: string, n: nat, check: nat, read: nat)
    requires n + 1 < |history| && StepWith(history, n, runId, check, read)
    ensures Applications(history[n + 1], runId) == 1
  {
    hide IsForeign, IsApplied, Applications, NeedsPatch;
    AppliedIffCounted(history[check], runId);
    AloneKeepsCount(history, check, n, runId);
    UpdateCounts(history, n, runId, check, read);
  }

  /** Attempts that do not overlap apply a run's update at most once, whatever crashes after the commit. */
  lemma {:induction false} SingleEffect(history: History, runId: string, n: nat)
    requires WithoutOverlap(history, runId) && n < |history|
    ensures Applications(history[n], runId) <= 1
  {
    hide IsForeign, IsUpdate, IsAlone, Applications, IsApplied, NeedsPatch;
    if n > 0 {
      SingleEffect(history, runId, n - 1);
      if IsForeign(history, n - 1, runId) {
        ForeignKeepsCount(history, n - 1, runId);
      } else {
        var check: nat, read: nat :| StepWith(history, n - 1, runId, check, read);
        UpdateAloneIsFirst(history, runId, n - 1, check, read);
      }
    } else {
      AppliedIffCounted(history[0], runId);
    }
  }

  /** Since state `from`, only others have committed. */
  predicate ForeignSince(history: History, from: nat, runId: string) {
    forall m | from <= m < |history| - 1 :: IsForeign(history, m, runId)
  }

  lemma {:induction false} ForeignInExtension(history: History, later: History, n: nat, runId: string)
    requires history <= later && n + 1 < |history|
    ensures IsForeign(later, n, runId) <==> IsForeign(history, n, runId)
  {
  }

  lemma {:induction false} StepInExtension(history: History, later: History, n: nat, runId: string, check: nat, read: nat)
    requires history <= later && n + 1 < |history| && StepWith(history, n, runId, check, read)
    ensures StepWith(later, n, runId, check, read)
  {
    assert IsUpdate(later, n, runId, check, read);
    forall m | check <= m < n ensures IsForeign(later, m, runId) {
      ForeignInExtension(history, later, m, runId);
    }
  }

  /** Commits of others keep a history free of overlap. */
  lemma {:induction false} ForeignKeepsAlone(history: History, later: History, runId: string)
    requires WithoutOverlap(history, runId) && history <= later && ForeignSince(later, |history| - 1, runId)
    ensures WithoutOverlap(later, runId)
  {
    forall n | 0 <= n < |later| - 1
      ensures IsForeign(later, n, runId) || exists check: nat, read: nat :: StepWith(later, n, runId, check, read)
    {
      if n < |history| - 1 {
        ForeignInExtension(history, later, n, runId);
        if !IsForeign(history, n, runId) {
          var check: nat, read: nat :| StepWith(history, n, runId, check, read);
          StepInExtension(history, later, n, runId, check, read);
        }
      } else {
        assert IsForeign(later, n, runId);
      }
    }
  }

  /** The update of an attempt that ran alone keeps it so, for the run itself and for every other. */
  lemma {:induction false} UpdateKeepsAlone(history: History, next: Target, runId: string, check: nat, read: nat, other: string)
    requires WithoutOverlap(history, other) && check <= read < |history|
    requires ForeignSince(history, check, runId)
    requires IsUpdate(history + [next], |history| - 1, runId, check, read)
    ensures WithoutOverlap(history + [next], other)
  {
    var later, last := history + [next], |history| - 1;
    var e: TargetEvent :| e in later[last + 1] && e.actionId == Some(runId) && later[last + 1] == later[last] + [e];
    forall m | check <= m < last ensures IsForeign(later, m, runId) {
      ForeignInExtension(history, later, m, runId);
    }
    assert StepWith(later, last, runId, check, read);
    assert other != runId ==> IsForeign(later, last, other);
    forall n | 0 <= n < |later| - 1
      ensures IsForeign(later, n, other) || exists c: nat, r: nat :: StepWith(later, n, other, c, r)
    {
      if n < last {
        ForeignInExtension(history, later, n, other);
        if !IsForeign(history, n, other) {
          var c: nat, r: nat :| StepWith(history, n, other, c, r);
          StepInExtension(history, later, n, other, c, r);
        }
      }
    }
  }

  // ----- With overlap ----------------------------------------------------------------

  predicate OverlappingWith(history: History, n: nat, runId: string, check: nat, read: nat)
    requires n + 1 < |history|
  {
    IsUpdate(history, n, runId, check, read) && check <= read
  }

  predicate VersionFirstWith(history: History, n: nat, runId: string, check: nat, read: nat)
    requires n + 1 < |history|
  {
    IsUpdate(history, n, runId, check, read) && read <= check
  }

  /** A history in which attempts may overlap, each in the order the consumer uses. */
  ghost predicate WithOverlap(history: History, runId: string) {
    && history != [] && !IsApplied(history[0], runId)
    && (forall n | 0 <= n < |history| - 1 ::
          IsForeign(history, n, runId) || exists check: nat, read: nat :: OverlappingWith(history, n, runId, check, read))
  }

  /** The same with the version read first. */
  ghost predicate VersionFirst(history: History, runId: string) {
    && history != [] && !IsApplied(history[0], runId)
    && (forall n | 0 <= n < |history| - 1 ::
          IsForeign(history, n, runId) || exists check: nat, read: nat :: VersionFirstWith(history, n, runId, check, read))
  }

  /**
  Two overlapping attempts can both apply the update: both check before either commits, somebody
  undoes the first update, and the second attempt reads the version after that.
  */
  lemma {:induction false} OverlapCanApplyTwice(runId: string)
    ensures exists history: History :: WithOverlap(history, runId) && Applications(history[|history| - 1], runId) == 2
  {
    var start, ours, theirs := TargetEvent(None, false, false), TargetEvent(Some(runId), true, false), TargetEvent(None, false, false);
    var history: History := [[start], [start] + [ours], [start] + [ours] + [theirs], [start] + [ours] + [theirs] + [ours]];
    assert !IsApplied(history[0], runId);
    assert ours in history[1] && theirs in history[2] && ours in history[3];
    assert OverlappingWith(history, 0, runId, 0, 0);
    assert IsForeign(history, 1, runId);
    assert OverlappingWith(history, 2, runId, 0, 2);
    assert [start][..0] == [];
    ApplicationsSnoc([start], ours, runId);
    ApplicationsSnoc([start] + [ours], theirs, runId);
    ApplicationsSnoc([start] + [ours] + [theirs], ours, runId);
    assert WithOverlap(history, runId);
  }

  lemma {:induction false} CountNeverShrinks(history: History, runId: string, i: nat, j: nat)
    requires WithOverlap(history, runId) && i <= j < |history|
    ensures Applications(history[i], runId) <= Applications(history[j], runId)
    decreases j
  {
    hide IsForeign, IsUpdate, Applications, IsApplied;
    if i < j {
      CountNeverShrinks(history, runId, i, j - 1);
      if IsForeign(history, j - 1, runId) {
        ForeignKeepsCount(history, j - 1, runId);
      } else {
        var check: nat, read: nat :| OverlappingWith(history, j - 1, runId, check, read);
        UpdateCounts(history, j - 1, runId, check, read);
      }
    }
  }

  /** An update is the run's first exactly when no other attempt on the run committed since its check. */
  lemma {:induction false} FirstIffAlone(history: History, runId: string, n: nat, check: nat, read: nat)
    requires WithOverlap(history, runId) && n + 1 < |history| && OverlappingWith(history, n, runId, check, read)
    ensures Applications(history[n + 1], runId) == 1 <==> IsAlone(history, n, runId, check)
  {
    hide WithOverlap, IsForeign, IsApplied, Applications, NeedsPatch;
    UpdateCounts(history, n, runId, check, read);
    AppliedIffCounted(history[check], runId);
    if IsAlone(history, n, runId, check) {
      AloneKeepsCount(history, check, n, runId);
    } else {
      var m :| check <= m < n && !IsForeign(history, m, runId);
      OwnUpdateCounts(history, runId, m);
      CountNeverShrinks(history, runId, m + 1, n);
    }
  }

  lemma {:induction false} OwnUpdateCounts(history: History, runId: string, m: nat)
    requires WithOverlap(history, runId) && m + 1 < |history| && !IsForeign(history, m, runId)
    ensures Applications(history[m + 1], runId) >= 1
  {
    hide IsForeign, IsUpdate, Applications, IsApplied;
    var check: nat, read: nat :| OverlappingWith(history, m, runId, check, read);
    UpdateCounts(history, m, runId, check, read);
  }

  /** Every update of the run was committed with nothing of the run committed since its check. */
  ghost predicate UpdatesAreAlone(history: History, runId: string) {
    forall n: nat, check: nat, read: nat | n + 1 < |history| && OverlappingWith(history, n, runId, check, read) ::
      IsAlone(history, n, runId, check)
  }

  /**
  Attempts that may overlap apply the update at most once exactly when each of them that committed
  did so with nothing of the run committed since its check.
  */
  lemma {:induction false} SingleIffAlone(history: History, runId: string)
    requires WithOverlap(history, runId)
    ensures Applications(history[|history| - 1], runId) <= 1 <==> UpdatesAreAlone(history, runId)
    ensures UpdatesAreAlone(history, runId) <==> WithoutOverlap(history, runId)
  {
    hide IsForeign, IsUpdate, IsAlone, Applications, IsApplied, NeedsPatch;
    if Applications(history[|history| - 1], runId) <= 1 {
      forall n: nat, check: nat, read: nat | n + 1 < |history| && OverlappingWith(history, n, runId, check, read)
        ensures IsAlone(history, n, runId, check)
      {
        UpdateCounts(history, n, runId, check, read);
        CountNeverShrinks(history, runId, n + 1, |history| - 1);
        FirstIffAlone(history, runId, n, check, read);
      }
    }
    if UpdatesAreAlone(history, runId) {
      forall n | 0 <= n < |history| - 1 && !IsForeign(history, n, runId)
        ensures exists check: nat, read: nat :: StepWith(history, n, runId, check, read)
      {
        var check: nat, read: nat :| OverlappingWith(history, n, runId, check, read);
        assert StepWith(history, n, runId, check, read);
      }
    }
    if WithoutOverlap(history, runId) {
      SingleEffect(history, runId, |history| - 1);
    }
  }

  lemma {:induction false} VersionFirstStep(history: History, runId: string, n: nat)
    requires VersionFirst(history, runId) && n + 1 < |history|
    ensures history[n] <= history[n + 1] && |history[n + 1]| == |history[n]| + 1
  {
    if !IsForeign(history, n, runId) {
      var check: nat, read: nat :| VersionFirstWith(history, n, runId, check, read);
    }
  }

  lemma {:induction false} HistoryGrows(history: History, runId: string, i: nat, j: nat)
    requires VersionFirst(history, runId) && i <= j < |history|
    ensures |history[j]| == |history[i]| + (j - i)
    decreases j
  {
    hide VersionFirst;
    if i < j {
      HistoryGrows(history, runId, i, j - 1);
      VersionFirstStep(history, runId, j - 1);
    }
  }

  /** An unchanged version means that nothing was committed since, so the check was made in the newest state. */
  lemma {:induction false} VersionFirstUpdate(history: History, runId: string, n: nat, check: nat, read: nat)
    requires VersionFirst(history, runId) && n + 1 < |history| && VersionFirstWith(history, n, runId, check, read)
    ensures check == n && Applications(history[n + 1], runId) == 1
  {
    hide VersionFirst, IsForeign, IsApplied, Applications, NeedsPatch;
    HistoryGrows(history, runId, read, n);
    AppliedIffCounted(history[check], runId);
    UpdateCounts(history, n, runId, check, read);
  }

  /** Read in the other order, the version check alone would keep the update single, overlapping or not. */
  lemma {:induction false} VersionFirstIsSingle(history: History, runId: string, n: nat)
    requires VersionFirst(history, runId) && n < |history|
    ensures Applications(history[n], runId) <= 1
  {
    hide IsForeign, IsUpdate, IsAlone, Applications, IsApplied, NeedsPatch;
    if n > 0 {
      VersionFirstIsSingle(history, runId, n - 1);
      if IsForeign(history, n - 1, runId) {
        ForeignKeepsCount(history, n - 1, runId);
      } else {
        var check: nat, read: nat :| VersionFirstWith(history, n - 1, runId, check, read);
        VersionFirstUpdate(history, runId, n - 1, check, read);
      }
    } else {
      AppliedIffCounted(history[0], runId);
    }
  }
}
