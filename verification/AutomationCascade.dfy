/**
Planning runs from a document event, and why the runs an event sets off, each by the update of the
one before, come to an end.
*/
module AutomationCascade {
  import opened Results
  import opened AutomationRunEvents
  import opened AutomationRunProtocol

  /** The metadata of a document event that planning looks at. */
  type Metadata = map<string, Value>

  datatype Limits = Limits(maxDepth: nat, maxPathRepeats: nat)

  predicate AcceptedLimits(limits: Limits) {
    1 <= limits.maxDepth <= MAX_SAFE_INTEGER && 1 <= limits.maxPathRepeats
  }

  // ----- Planning ---------------------------------------------------------------

  function SourceDepth(metadata: Metadata): nat {
    var depth := Lookup(metadata, "automationDepth");
    if depth.Some? && depth.value.Num? && IsSafe(depth.value.value) && depth.value.value >= 0 then depth.value.value else 0
  }

  function SourcePath(metadata: Metadata): seq<string> {
    var path := DecodePath(Lookup(metadata, "automationPath"));
    if path.Err? then [] else path.value
  }

  function Occurrences(key: string, path: seq<string>): nat {
    if path == [] then 0
    else Occurrences(key, path[..|path| - 1]) + if path[|path| - 1] == key then 1 else 0
  }

  const TOO_DEEP := "Automation depth exceeds limit"
  const TOO_REPETITIVE := "Automation path exceeds repeat limit"

  function SuppressionError(depth: nat, key: string, limits: Limits, sourcePath: seq<string>): Option<string> {
    if depth > limits.maxDepth then Some(TOO_DEEP)
    else if Occurrences(key, sourcePath) >= limits.maxPathRepeats then Some(TOO_REPETITIVE)
    else None
  }

  /** The place of a planned run in its cascade. */
  datatype Planned = Planned(depth: nat, path: seq<string>, suppression: Option<string>)

  function PlanRun(metadata: Metadata, key: string, limits: Limits): Planned {
    var depth, sourcePath := SourceDepth(metadata) + 1, SourcePath(metadata);
    Planned(depth, sourcePath + [key], SuppressionError(depth, key, limits, sourcePath))
  }

  /** The metadata of the update by which a run is delivered. */
  function UpdateMetadata(run: Planned): Metadata {
    var path := run.path;
    map["automationDepth" := Num(run.depth),
        "automationPath" := Arr(seq(|path|, i requires 0 <= i < |path| => Str(path[i])))]
  }

  // ----- Cascades ------------------------------------------------------------------

  /** An event that no automation caused. */
  predicate IsOrdinary(metadata: Metadata) {
    "automationDepth" !in metadata && "automationPath" !in metadata
  }

  /** The metadata of the event a run of a cascade is planned from. */
  function Cause(metadata: Metadata, runs: seq<Planned>, i: nat): Metadata
    requires i < |runs|
  {
    if i == 0 then metadata else UpdateMetadata(runs[i - 1])
  }

  predicate IsPlannedAt(metadata: Metadata, keys: seq<string>, runs: seq<Planned>, limits: Limits, i: nat)
    requires i < |runs| == |keys|
  {
    runs[i] == PlanRun(Cause(metadata, runs, i), keys[i], limits)
  }

  /**
  Runs each planned from the update that delivered the one before it, the first from an ordinary
  event. Only runs that were not suppressed are delivered, so all but the last must not be.
  */
  predicate IsCascade(metadata: Metadata, keys: seq<string>, runs: seq<Planned>, limits: Limits) {
    && |keys| == |runs|
    && (forall i | 0 <= i < |runs| :: IsPlannedAt(metadata, keys, runs, limits, i))
    && (forall i | 0 <= i < |runs| - 1 :: runs[i].suppression == None)
  }

  lemma {:induction false} MetadataReadsBack(run: Planned)
    requires run.depth <= MAX_SAFE_INTEGER
    ensures SourceDepth(UpdateMetadata(run)) == run.depth
    ensures SourcePath(UpdateMetadata(run)) == run.path
  {
    PathDecodes(run.path);
    assert "automationDepth" != "automationPath" by {
      assert |"automationDepth"| != |"automationPath"|;
    }
  }

  /** A run's depth is the length of its path, which lists the keys of the runs before it and its own. */
  lemma {:induction false} CascadePath(metadata: Metadata, keys: seq<string>, runs: seq<Planned>, limits: Limits, n: nat)
    requires AcceptedLimits(limits) && IsOrdinary(metadata) && IsCascade(metadata, keys, runs, limits)
    requires n < |runs|
    ensures runs[n].path == keys[..n + 1] && runs[n].depth == n + 1
    ensures runs[n].suppression == SuppressionError(n + 1, keys[n], limits, keys[..n])
  {
    hide SourceDepth, SourcePath, UpdateMetadata, Occurrences;
    assert IsPlannedAt(metadata, keys, runs, limits, n);
    if n == 0 {
      OrdinarySource(metadata);
      assert [] + [keys[0]] == keys[..1] && keys[..0] == [];
    } else {
      CascadePath(metadata, keys, runs, limits, n - 1);
      assert runs[n - 1].suppression == None;
      MetadataReadsBack(runs[n - 1]);
      assert keys[..n] + [keys[n]] == keys[..n + 1];
    }
  }

  lemma OrdinarySource(metadata: Metadata)
    requires IsOrdinary(metadata)
    ensures SourceDepth(metadata) == 0 && SourcePath(metadata) == []
  {
  }

  lemma {:induction false} OccurrencesSnoc(key: string, path: seq<string>, last: string)
    ensures Occurrences(key, path + [last]) == Occurrences(key, path) + if last == key then 1 else 0
  {
    assert (path + [last])[..|path|] == path;
  }

  /** A run is let through exactly when its path is within the depth limit and repeats its own key within the repeat limit. */
  lemma {:induction false} LetThroughIff(metadata: Metadata, keys: seq<string>, runs: seq<Planned>, limits: Limits, n: nat)
    requires AcceptedLimits(limits) && IsOrdinary(metadata) && IsCascade(metadata, keys, runs, limits)
    requires n < |runs|
    ensures runs[n].suppression == None
       <==> |runs[n].path| <= limits.maxDepth && Occurrences(keys[n], runs[n].path) <= limits.maxPathRepeats
  {
    CascadePath(metadata, keys, runs, limits, n);
    OccurrencesSnoc(keys[n], keys[..n], keys[n]);
    assert keys[..n] + [keys[n]] == keys[..n + 1];
  }

  /** No key occurs in the path of a run that was let through more often than allowed. */
  lemma {:induction false} PathRepeats(metadata: Metadata, keys: seq<string>, runs: seq<Planned>, limits: Limits, n: nat, key: string)
    requires AcceptedLimits(limits) && IsOrdinary(metadata) && IsCascade(metadata, keys, runs, limits)
    requires n < |runs| && runs[n].suppression == None
    ensures Occurrences(key, runs[n].path) <= limits.maxPathRepeats
  {
    CascadePath(metadata, keys, runs, limits, n);
    assert keys[..n + 1] == keys[..n] + [keys[n]];
    OccurrencesSnoc(key, keys[..n], keys[n]);
    if n > 0 {
      assert runs[n - 1].suppression == None;
      CascadePath(metadata, keys, runs, limits, n - 1);
      PathRepeats(metadata, keys, runs, limits, n - 1, key);
    } else {
      assert keys[..0] == [];
    }
  }

  function Without(key: string, path: seq<string>): (r: seq<string>)
    ensures forall k | k in r :: k in path && k != key
  {
    if path == [] then []
    else if path[|path| - 1] == key then Without(key, path[..|path| - 1])
    else Without(key, path[..|path| - 1]) + [path[|path| - 1]]
  }

  lemma {:induction false} WithoutCounts(key: string, path: seq<string>, other: string)
    ensures |path| == |Without(key, path)| + Occurrences(key, path)
    ensures other != key ==> Occurrences(other, Without(key, path)) == Occurrences(other, path)
  {
    if path != [] {
      WithoutCounts(key, path[..|path| - 1], other);
      OccurrencesSnoc(other, Without(key, path[..|path| - 1]), path[|path| - 1]);
    }
  }

  /** Pigeonhole: a path over `keys` that repeats each at most `repeats` times has at most `|keys| * repeats` entries. */
  lemma {:induction false} Pigeonhole(keys: set<string>, path: seq<string>, repeats: nat)
    requires forall k | k in path :: k in keys
    requires forall k | k in keys :: Occurrences(k, path) <= repeats
    ensures |path| <= |keys| * repeats
    decreases |keys|
  {
    hide Without, Occurrences;
    if path != [] {
      var key := path[0];
      assert key in keys;
      var fewer := keys - {key};
      WithoutCounts(key, path, key);
      forall k | k in fewer
        ensures Occurrences(k, Without(key, path)) <= repeats
      {
        WithoutCounts(key, path, k);
      }
      Pigeonhole(fewer, Without(key, path), repeats);
    }
  }

  function Min(a: int, b: int): int {
    if a < b then a else b
  }

  /** A cascade over a set of rule actions is at most as long as the depth limit, and as every action at its repeat limit. */
  lemma {:induction false} CascadesAreFinite(metadata: Metadata, keys: seq<string>, runs: seq<Planned>, limits: Limits,
                                             actions: set<string>)
    requires AcceptedLimits(limits) && IsOrdinary(metadata) && IsCascade(metadata, keys, runs, limits)
    requires forall k | k in keys :: k in actions
    requires runs != [] ==> runs[|runs| - 1].suppression == None
    ensures |runs| <= Min(limits.maxDepth, |actions| * limits.maxPathRepeats)
  {
    if runs != [] {
      var n := |runs| - 1;
      CascadePath(metadata, keys, runs, limits, n);
      LetThroughIff(metadata, keys, runs, limits, n);
      assert keys[..n + 1] == keys;
      forall k | k in actions ensures Occurrences(k, keys) <= limits.maxPathRepeats {
        PathRepeats(metadata, keys, runs, limits, n, k);
      }
      Pigeonhole(actions, keys, limits.maxPathRepeats);
    } else {
      assert 0 <= |actions| * limits.maxPathRepeats;
    }
  }

  /** The cascade in which the actions of `keys` set each other off in this order. */
  function RunsOf(metadata: Metadata, keys: seq<string>, limits: Limits): (runs: seq<Planned>)
    ensures |runs| == |keys|
  {
    if keys == [] then []
    else
      var n := |keys| - 1;
      var earlier := RunsOf(metadata, keys[..n], limits);
      earlier + [PlanRun(if n == 0 then metadata else UpdateMetadata(earlier[n - 1]), keys[n], limits)]
  }

  predicate WithinLimits(keys: seq<string>, limits: Limits) {
    |keys| <= limits.maxDepth && (forall k | k in keys :: Occurrences(k, keys) <= limits.maxPathRepeats)
  }

  predicate IsLive(runs: seq<Planned>) {
    forall i | 0 <= i < |runs| :: runs[i].suppression == None
  }

  lemma {:induction false} WithinLimitsPrefix(keys: seq<string>, limits: Limits)
    requires keys != []
    ensures WithinLimits(keys, limits) <==>
      && |keys| <= limits.maxDepth && WithinLimits(keys[..|keys| - 1], limits)
      && Occurrences(keys[|keys| - 1], keys) <= limits.maxPathRepeats
  {
    var n := |keys| - 1;
    var init, last := keys[..n], keys[n];
    assert keys == init + [last];
    forall k
      ensures Occurrences(k, keys) == Occurrences(k, init) + if last == k then 1 else 0
    {
      OccurrencesSnoc(k, init, last);
    }
    if WithinLimits(keys, limits) {
      forall k | k in init
        ensures Occurrences(k, init) <= limits.maxPathRepeats
      {
        assert k in keys;
      }
    }
  }

  /** A sequence of actions can set each other off without suppression exactly when it is within both limits. */
  lemma {:induction false} LiveIffWithinLimits(metadata: Metadata, keys: seq<string>, limits: Limits)
    requires AcceptedLimits(limits) && IsOrdinary(metadata)
    ensures IsLive(RunsOf(metadata, keys, limits)) <==> WithinLimits(keys, limits)
    ensures IsLive(RunsOf(metadata, keys, limits)) ==> IsCascade(metadata, keys, RunsOf(metadata, keys, limits), limits)
  {
    var runs := RunsOf(metadata, keys, limits);
    if keys != [] {
      var n := |keys| - 1;
      var earlier := RunsOf(metadata, keys[..n], limits);
      LiveIffWithinLimits(metadata, keys[..n], limits);
      WithinLimitsPrefix(keys, limits);
      assert runs[..n] == earlier;
      assert IsLive(runs) ==> IsLive(earlier) by {
        assert forall i | 0 <= i < n :: earlier[i] == runs[i];
      }
      if IsLive(earlier) {
        IsCascadeSnoc(metadata, keys, runs, limits);
        LetThroughIff(metadata, keys, runs, limits, n);
        CascadePath(metadata, keys, runs, limits, n);
        assert keys[..n + 1] == keys;
        assert IsLive(runs) <==> runs[n].suppression == None by {
          assert forall i | 0 <= i < n :: runs[i] == earlier[i];
        }
      }
    }
  }

  lemma {:induction false} PlannedInPrefix(metadata: Metadata, keys: seq<string>, runs: seq<Planned>, limits: Limits, n: nat, i: nat)
    requires i < n <= |runs| == |keys| && IsPlannedAt(metadata, keys[..n], runs[..n], limits, i)
    ensures IsPlannedAt(metadata, keys, runs, limits, i)
  {
    hide PlanRun, UpdateMetadata;
  }

  lemma {:induction false} LastIsPlanned(metadata: Metadata, keys: seq<string>, limits: Limits)
    requires keys != []
    ensures IsPlannedAt(metadata, keys, RunsOf(metadata, keys, limits), limits, |keys| - 1)
  {
    var n := |keys| - 1;
    assert RunsOf(metadata, keys, limits)[..n] == RunsOf(metadata, keys[..n], limits);
    hide PlanRun, UpdateMetadata;
  }

  lemma {:induction false} IsCascadeSnoc(metadata: Metadata, keys: seq<string>, runs: seq<Planned>, limits: Limits)
    requires keys != [] && runs == RunsOf(metadata, keys, limits)
    requires var n := |keys| - 1; IsCascade(metadata, keys[..n], runs[..n], limits) && IsLive(runs[..n])
    ensures IsCascade(metadata, keys, runs, limits)
  {
    var n := |keys| - 1;
    hide IsPlannedAt, RunsOf;
    LastIsPlanned(metadata, keys, limits);
    forall i | 0 <= i < n
      ensures IsPlannedAt(metadata, keys, runs, limits, i)
    {
      assert IsPlannedAt(metadata, keys[..n], runs[..n], limits, i);
      PlannedInPrefix(metadata, keys, runs, limits, n, i);
    }
    forall i | 0 <= i < n
      ensures runs[i].suppression == None
    {
      assert runs[..n][i] == runs[i];
    }
  }
}
