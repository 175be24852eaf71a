/**
The journal of data patches and the order its entries keep along the registered list.
A patch is referred to by its position in that list.
*/
module DataPatchJournal {
  import opened Results

  datatype Patch = Patch(id: string, checksum: string, hasRollback: bool)

  datatype Status = Pending | Applied | Failed | RollbackPending | RolledBack | RollbackFailed

  datatype Entry = Entry(status: Status, checksum: string, claimId: Option<string>)

  type Journal = map<string, Entry>

  predicate Distinct(patches: seq<Patch>) {
    forall i, j | 0 <= i < j < |patches| :: patches[i].id != patches[j].id
  }

  predicate IsRecorded(patches: seq<Patch>, journal: Journal, k: nat)
    requires k < |patches|
  {
    patches[k].id in journal
  }

  predicate IsStatus(patches: seq<Patch>, journal: Journal, k: nat, status: Status)
    requires k < |patches|
  {
    patches[k].id in journal && journal[patches[k].id].status == status
  }

  predicate IsApplied(patches: seq<Patch>, journal: Journal, k: nat)
    requires k < |patches|
  {
    IsStatus(patches, journal, k, Applied)
  }

  /** The patch was never applied, or was rolled back again. */
  predicate IsOut(patches: seq<Patch>, journal: Journal, k: nat)
    requires k < |patches|
  {
    !IsRecorded(patches, journal, k) || IsStatus(patches, journal, k, RolledBack)
  }

  predicate ChecksumMatches(patches: seq<Patch>, journal: Journal, k: nat)
    requires k < |patches|
  {
    patches[k].id in journal && journal[patches[k].id].checksum == patches[k].checksum
  }

  // ----- The order ---------------------------------------------------------------

  /** Applied, then at most one in between, then rolled back, then not recorded. */
  function Rank(patches: seq<Patch>, journal: Journal, k: nat): nat
    requires k < |patches|
  {
    if patches[k].id !in journal then 3
    else
      match journal[patches[k].id].status
      case Applied => 0
      case RolledBack => 2
      case _ => 1
  }

  /** Being applied for the first time, so that nothing later may be recorded. */
  predicate IsOpening(patches: seq<Patch>, journal: Journal, k: nat)
    requires k < |patches|
  {
    IsStatus(patches, journal, k, Pending) || IsStatus(patches, journal, k, Failed)
  }

  predicate MayPrecede(patches: seq<Patch>, journal: Journal, i: nat, j: nat)
    requires i < |patches| && j < |patches|
  {
    var a, b := Rank(patches, journal, i), Rank(patches, journal, j);
    a <= b && (a == 1 ==> b != 1) && (IsOpening(patches, journal, i) ==> b == 3)
  }

  /**
  In registered order the journal reads: applied patches, then at most one unfinished or failed,
  then rolled back ones, then unrecorded ones; after an unfinished or failed first application
  nothing is recorded.
  */
  predicate InOrder(patches: seq<Patch>, journal: Journal) {
    forall i, j | 0 <= i < j < |patches| :: MayPrecede(patches, journal, i, j)
  }

  predicate AllAppliedBefore(patches: seq<Patch>, journal: Journal, k: nat)
    requires k <= |patches|
  {
    forall i | 0 <= i < k :: IsApplied(patches, journal, i)
  }

  predicate AllOutAfter(patches: seq<Patch>, journal: Journal, k: nat)
    requires k < |patches|
  {
    forall j | k < j < |patches| :: IsOut(patches, journal, j)
  }

  predicate NoneRecordedAfter(patches: seq<Patch>, journal: Journal, k: nat)
    requires k < |patches|
  {
    forall j | k < j < |patches| :: !IsRecorded(patches, journal, j)
  }

  /** The journals differ at most in the entry of one patch. */
  predicate SameElsewhere(patches: seq<Patch>, before: Journal, after: Journal, k: nat)
    requires k < |patches|
  {
    before - {patches[k].id} == after - {patches[k].id}
  }

  /** The journals agree on the patch. */
  predicate SameEntry(patches: seq<Patch>, before: Journal, after: Journal, k: nat)
    requires k < |patches|
  {
    (patches[k].id in after <==> patches[k].id in before)
    && (patches[k].id in before ==> after[patches[k].id] == before[patches[k].id])
  }

  /** Only patches of the plan have changed. */
  predicate SameOutside(patches: seq<Patch>, before: Journal, after: Journal, planned: seq<nat>) {
    forall k | 0 <= k < |patches| && k !in planned :: SameEntry(patches, before, after, k)
  }

  lemma {:induction false} EntryElsewhere(patches: seq<Patch>, before: Journal, after: Journal, k: nat, i: nat)
    requires Distinct(patches) && k < |patches| && i < |patches| && i != k && SameElsewhere(patches, before, after, k)
    ensures SameEntry(patches, before, after, i)
  {
    var id := patches[i].id;
    assert id != patches[k].id by {
      assert if i < k then patches[i].id != patches[k].id else patches[k].id != patches[i].id;
    }
    assert id in before <==> id in before - {patches[k].id};
    assert id in after <==> id in after - {patches[k].id};
    if id in before {
      assert (before - {patches[k].id})[id] == (after - {patches[k].id})[id];
    }
  }

  /** Below an applied patch everything is applied, and above an unrecorded one nothing is recorded. */
  lemma {:induction false} OrderAround(patches: seq<Patch>, journal: Journal, k: nat)
    requires InOrder(patches, journal) && k < |patches|
    ensures IsApplied(patches, journal, k) ==> AllAppliedBefore(patches, journal, k)
    ensures !IsRecorded(patches, journal, k) || IsOpening(patches, journal, k) ==> NoneRecordedAfter(patches, journal, k)
    ensures IsRecorded(patches, journal, k) && !IsOpening(patches, journal, k) && !IsApplied(patches, journal, k)
            ==> AllOutAfter(patches, journal, k)
    ensures !IsApplied(patches, journal, k) && !IsOut(patches, journal, k) ==> AllAppliedBefore(patches, journal, k)
  {
    forall i | 0 <= i < k
      ensures Rank(patches, journal, k) <= 1 ==> IsApplied(patches, journal, i)
    {
      assert MayPrecede(patches, journal, i, k);
    }
    forall j | k < j < |patches|
      ensures !IsRecorded(patches, journal, k) || IsOpening(patches, journal, k) ==> !IsRecorded(patches, journal, j)
      ensures Rank(patches, journal, k) >= 1 ==> IsOut(patches, journal, j)
    {
      assert MayPrecede(patches, journal, k, j);
    }
  }

  /** Changing the entry of the first patch that is not applied keeps the order while nothing later is recorded. */
  lemma {:induction false} ChangeNewest(patches: seq<Patch>, before: Journal, after: Journal, k: nat)
    requires Distinct(patches) && k < |patches| && SameElsewhere(patches, before, after, k)
    requires AllAppliedBefore(patches, before, k) && NoneRecordedAfter(patches, before, k)
    ensures InOrder(patches, after)
    ensures AllAppliedBefore(patches, after, k) && NoneRecordedAfter(patches, after, k)
  {
    forall i | 0 <= i < k ensures IsApplied(patches, after, i) {
      assert IsApplied(patches, before, i);
      EntryElsewhere(patches, before, after, k, i);
    }
    forall j | k < j < |patches| ensures !IsRecorded(patches, after, j) {
      assert !IsRecorded(patches, before, j);
      EntryElsewhere(patches, before, after, k, j);
    }
    forall i, j | 0 <= i < j < |patches| ensures MayPrecede(patches, after, i, j) {
      assert i < k ==> IsApplied(patches, after, i);
      assert j > k ==> !IsRecorded(patches, after, j);
      assert j < k ==> IsApplied(patches, after, j);
      assert i > k ==> !IsRecorded(patches, after, i);
    }
  }

  /** Rolling back the last applied patch keeps the order at every step. */
  lemma {:induction false} ChangeLast(patches: seq<Patch>, before: Journal, after: Journal, k: nat)
    requires Distinct(patches) && k < |patches| && SameElsewhere(patches, before, after, k)
    requires InOrder(patches, before) && AllAppliedBefore(patches, before, k) && AllOutAfter(patches, before, k)
    requires IsRecorded(patches, after, k) && !IsOpening(patches, after, k)
    ensures InOrder(patches, after)
    ensures AllAppliedBefore(patches, after, k) && AllOutAfter(patches, after, k)
  {
    forall i | 0 <= i < k ensures IsApplied(patches, after, i) {
      assert IsApplied(patches, before, i);
      EntryElsewhere(patches, before, after, k, i);
    }
    forall j | k < j < |patches|
      ensures IsOut(patches, after, j) && Rank(patches, after, j) == Rank(patches, before, j)
    {
      assert IsOut(patches, before, j);
      EntryElsewhere(patches, before, after, k, j);
    }
    forall i, j | 0 <= i < j < |patches|
      ensures MayPrecede(patches, after, i, j)
    {
      if i > k {
        assert MayPrecede(patches, before, i, j);
        assert IsOut(patches, after, i) && IsOut(patches, after, j);
      } else {
        assert i < k ==> IsApplied(patches, after, i);
        assert j < k ==> IsApplied(patches, after, j);
        assert j > k ==> IsOut(patches, after, j);
      }
    }
  }
}
