/** The order in which waiting records are claimed: filter, sort by enqueue time and id, take the first ones. */
module OutboxClaims {
  import opened Results
  import opened OutboxEvents
  import opened OutboxProtocol

  // ----- The order of records is total ------------------------------------------

  lemma {:induction false} StringLessTotal(a: string, b: string)
    ensures a == b || StringLess(a, b) || StringLess(b, a)
    ensures !(StringLess(a, b) && StringLess(b, a))
    ensures !StringLess(a, a)
  {
    if a != "" {
      StringLessTotal(a[1..], a[1..]);
      if b != "" {
        StringLessTotal(a[1..], b[1..]);
        if a[0] == b[0] && a[1..] == b[1..] {
          assert a == [a[0]] + a[1..] == b;
        }
      }
    }
  }

  lemma {:induction false} StringLessTransitive(a: string, b: string, c: string)
    requires StringLess(a, b) && StringLess(b, c)
    ensures StringLess(a, c)
  {
    if a != "" && a[0] == b[0] == c[0] {
      StringLessTransitive(a[1..], b[1..], c[1..]);
    }
  }

  predicate KeyedById(records: map<string, Record>) {
    forall id | id in records :: records[id].id == id
  }

  lemma {:induction false} BeforeTotal(records: map<string, Record>, a: string, b: string)
    requires KeyedById(records) && a in records && b in records
    ensures a == b || Before(records[a], records[b]) || Before(records[b], records[a])
    ensures !(Before(records[a], records[b]) && Before(records[b], records[a]))
  {
    StringLessTotal(a, b);
  }

  lemma {:induction false} BeforeTransitive(a: Record, b: Record, c: Record)
    requires Before(a, b) && Before(b, c)
    ensures Before(a, c)
  {
    if a.enqueuedAt == b.enqueuedAt == c.enqueuedAt {
      StringLessTransitive(a.id, b.id, c.id);
    }
  }

  predicate IsFirst(records: map<string, Record>, ids: set<string>, id: string)
    requires ids <= records.Keys
  {
    id in ids && forall other | other in ids && other != id :: Before(records[id], records[other])
  }

  lemma {:induction false} FirstExists(records: map<string, Record>, ids: set<string>)
    requires KeyedById(records) && ids <= records.Keys && ids != {}
    ensures exists id :: IsFirst(records, ids, id)
  {
    var some :| some in ids;
    var rest := ids - {some};
    if rest == {} {
      assert ids == {some};
      assert IsFirst(records, ids, some);
    } else {
      FirstExists(records, rest);
      var first :| IsFirst(records, rest, first);
      BeforeTotal(records, some, first);
      if Before(records[some], records[first]) {
        forall other | other in ids && other != some ensures Before(records[some], records[other]) {
          if other != first {
            BeforeTransitive(records[some], records[first], records[other]);
          }
        }
        assert IsFirst(records, ids, some);
      } else {
        assert IsFirst(records, ids, first);
      }
    }
  }

  lemma {:induction false} FirstIsUnique(records: map<string, Record>, ids: set<string>, a: string, b: string)
    requires KeyedById(records) && ids <= records.Keys
    requires IsFirst(records, ids, a) && IsFirst(records, ids, b)
    ensures a == b
  {
    BeforeTotal(records, a, b);
  }

  // ----- The selection -----------------------------------------------------------

  function Sorted(records: map<string, Record>, ids: set<string>): (sorted: seq<string>)
    requires KeyedById(records) && ids <= records.Keys
    ensures forall id :: id in sorted <==> id in ids
    ensures forall i, j | 0 <= i < j < |sorted| ::
      sorted[i] != sorted[j] && Before(records[sorted[i]], records[sorted[j]])
    decreases |ids|
  {
    if ids == {} then []
    else
      FirstExists(records, ids);
      assert forall a, b | IsFirst(records, ids, a) && IsFirst(records, ids, b) :: a == b by {
        forall a, b | IsFirst(records, ids, a) && IsFirst(records, ids, b) ensures a == b {
          FirstIsUnique(records, ids, a, b);
        }
      }
      var first :| first in ids && IsFirst(records, ids, first);
      [first] + Sorted(records, ids - {first})
  }

  function ClaimSelection(records: map<string, Record>, now: Time, limit: nat): seq<string>
    requires KeyedById(records)
  {
    var sorted := Sorted(records, set id | id in records && Claimable(records[id], now));
    if |sorted| <= limit then sorted else sorted[..limit]
  }

  /** Sorting and slicing picks exactly the earliest claimable records. */
  lemma {:induction false} ClaimSelectionIsEarliest(records: map<string, Record>, now: Time, limit: nat)
    requires KeyedById(records)
    ensures IsClaimSelection(records, now, limit, ClaimSelection(records, now, limit))
  {
    var sorted := Sorted(records, set id | id in records && Claimable(records[id], now));
    var ids := ClaimSelection(records, now, limit);
    forall i | 0 <= i < |ids| ensures ids[i] in records && Claimable(records[ids[i]], now) {
      assert ids[i] == sorted[i] && sorted[i] in sorted;
    }
    forall id | id in records && Claimable(records[id], now) && id !in ids
      ensures |ids| == limit && forall i | 0 <= i < |ids| :: Before(records[ids[i]], records[id])
    {
      assert id in sorted;
      var j :| 0 <= j < |sorted| && sorted[j] == id;
      assert ids == sorted[..|ids|];
      assert forall i | 0 <= i < |ids| :: sorted[i] == ids[i] != id;
    }
  }

  /** The working set of a well-formed stream is keyed by record id. */
  lemma {:induction false} WorkingSetIsKeyedById(log: Log)
    requires WellFormed(log)
    ensures KeyedById(Fold(log).records)
  {
    forall id | id in Fold(log).records ensures Fold(log).records[id].id == id {
      FoldsAgree(log, id);
      OwnEventsMakeRecord(None, id, log);
      LifeCycleRecord(id, ByName(log, id));
    }
  }
}
