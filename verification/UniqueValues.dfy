/**
The decisions behind unique fields. Each unique value of a field has a reservation stream whose
folded document names the owner; a command that saves a document plans reservation and release
events to commit beside the document's own event.
*/
module UniqueValues {
  import opened Results
  import opened Documents

  const MAX_KEY_LENGTH := 512

  /** The reservation of one value by one document. */
  datatype Reservation = Reservation(field: string, key: string, documentName: string) {
    function Stream(): Stream {
      UniqueValueStream(field, key)
    }
  }

  datatype Lookup = NoLookup | ReadOwner(documentName: string)

  datatype Decision = Skip | ConflictFound | Write(existing: Option<Snapshot>)

  function BoundedKey(key: string): Result<Option<string>> {
    if |key| > MAX_KEY_LENGTH then Err(Invalid) else Ok(Some(key))
  }

  /** The key under which a value is reserved: none for an empty value, an error for one that is not scalar. */
  function CanonicalKey(value: Json): Result<Option<string>> {
    match value
    case Null => Ok(None)
    case Str(text) => if text == "" then Ok(None) else BoundedKey("s:" + text)
    case Num(decimal) => BoundedKey("n:" + decimal)
    case Bool(b) => BoundedKey(if b then "b:true" else "b:false")
    case Composite(_) => Err(Invalid)
  }

  /** Two values share a key only if they are the same value. */
  lemma CanonicalKeyIsInjective(a: Json, b: Json)
    requires CanonicalKey(a) == CanonicalKey(b)
    requires CanonicalKey(a).Ok? && CanonicalKey(a).value.Some?
    ensures a == b
  {
    var key := CanonicalKey(a).value.value;
    assert a.Str? || a.Num? ==> key[2..] == (if a.Str? then a.text else a.decimal);
    assert b.Str? || b.Num? ==> key[2..] == (if b.Str? then b.text else b.decimal);
    assert a.Str? <==> key[0] == 's';
    assert b.Str? <==> key[0] == 's';
    assert a.Num? <==> key[0] == 'n';
    assert b.Num? <==> key[0] == 'n';
    if a.Bool? {
      assert (if a.value then "b:true" else "b:false") == (if b.value then "b:true" else "b:false");
      assert "b:true"[2] != "b:false"[2];
    }
  }

  /** The reservations a document with these data needs, in the order of the unique fields. */
  function Reservations(fields: seq<string>, data: Data, name: string): Result<seq<Reservation>> {
    if fields == [] then Ok([])
    else
      var earlier := Reservations(fields[..|fields| - 1], data, name);
      var field := fields[|fields| - 1];
      var key := CanonicalKey(Get(data, field));
      if earlier.Err? then earlier
      else if key.Err? then Err(key.error)
      else if key.value.None? then earlier
      else Ok(earlier.value + [Reservation(field, key.value.value, name)])
  }

  method UniqueValueReservations(fields: seq<string>, data: Data, name: string) returns (r: Result<seq<Reservation>>)
    ensures r == Reservations(fields, data, name)
  {
    var reservations: seq<Reservation> := [];
    var i := 0;
    while i < |fields|
      invariant 0 <= i <= |fields|
      invariant Reservations(fields[..i], data, name) == Ok(reservations)
      invariant Reservations(fields, data, name).Ok? ==> Reservations(fields[..i], data, name).Ok?
    {
      assert fields[..i + 1][..i] == fields[..i];
      var key := CanonicalKey(Get(data, fields[i]));
      if key.Err? {
        ReservationsFail(fields, data, name, i);
        return Err(key.error);
      }
      if key.value.Some? {
        reservations := reservations + [Reservation(fields[i], key.value.value, name)];
      }
      i := i + 1;
    }
    assert fields[..i] == fields;
    return Ok(reservations);
  }

  lemma {:induction false} ReservationsFail(fields: seq<string>, data: Data, name: string, i: nat)
    requires i < |fields|
    requires Reservations(fields[..i], data, name).Ok?
    requires CanonicalKey(Get(data, fields[i])).Err?
    ensures Reservations(fields, data, name) == Err(CanonicalKey(Get(data, fields[i])).error)
    decreases |fields|
  {
    var init := fields[..|fields| - 1];
    if i < |init| {
      assert init[..i] == fields[..i];
      ReservationsFail(init, data, name, i);
    }
  }

  predicate Distinct(fields: seq<string>) {
    forall i, j | 0 <= i < j < |fields| :: fields[i] != fields[j]
  }

  predicate DistinctReservations(reservations: seq<Reservation>) {
    forall i, j | 0 <= i < j < |reservations| :: reservations[i].field != reservations[j].field
  }

  /** The data give a unique field the value with this key. */
  predicate HoldsKey(fields: seq<string>, data: Data, field: string, key: string) {
    field in fields && CanonicalKey(Get(data, field)) == Ok(Some(key))
  }

  /** Exactly the values held are reserved, each field at most once, all for the document itself. */
  lemma {:induction false} ReservationsAreHeldKeys(fields: seq<string>, data: Data, name: string)
    requires Distinct(fields)
    requires Reservations(fields, data, name).Ok?
    ensures var reservations := Reservations(fields, data, name).value;
      && DistinctReservations(reservations)
      && (forall r | r in reservations :: r.documentName == name && HoldsKey(fields, data, r.field, r.key))
      && (forall field, key | HoldsKey(fields, data, field, key) :: Reservation(field, key, name) in reservations)
  {
    if fields != [] {
      var init, last := fields[..|fields| - 1], fields[|fields| - 1];
      ReservationsAreHeldKeys(init, data, name);
      var earlier := Reservations(init, data, name).value;
      forall field, key | HoldsKey(fields, data, field, key)
        ensures Reservation(field, key, name) in Reservations(fields, data, name).value
      {
        assert field in init || field == last;
      }
      forall r | r in earlier
        ensures r.field in init && r.field != last
      {
        assert HoldsKey(init, data, r.field, r.key);
        var i :| 0 <= i < |init| && init[i] == r.field;
        assert fields[i] != fields[|fields| - 1];
      }
    }
  }

  /** The document the reservation stream names, unless it was released. */
  function ActiveOwner(reservation: Option<Snapshot>): Option<string> {
    if reservation.None? || reservation.value.status.IsDeleted? then None
    else
      var data := reservation.value.data;
      if Get(data, "active") == Bool(false) then None
      else
        var owner := Get(data, "documentName");
        if owner.Str? && owner.text != "" then Some(owner.text) else None
  }

  function OwnerStillOwnsValue(r: Reservation, owner: Option<Snapshot>): Result<bool> {
    if owner.None? || owner.value.status.IsDeleted? then Ok(false)
    else
      var key := CanonicalKey(Get(owner.value.data, r.field));
      if key.Err? then Err(key.error) else Ok(key.value == Some(r.key))
  }

  /** The reservations of `existing` that `next` no longer makes. */
  function Released(existing: seq<Reservation>, next: seq<Reservation>): seq<Reservation> {
    if existing == [] then []
    else
      var earlier, last := Released(existing[..|existing| - 1], next), existing[|existing| - 1];
      if last in next then earlier else earlier + [last]
  }

  lemma {:induction false} ReleasedIsDifference(existing: seq<Reservation>, next: seq<Reservation>)
    ensures forall r :: r in Released(existing, next) <==> r in existing && r !in next
    ensures DistinctReservations(existing) ==> DistinctReservations(Released(existing, next))
  {
    if existing != [] {
      var init, last := existing[..|existing| - 1], existing[|existing| - 1];
      ReleasedIsDifference(init, next);
      forall r ensures r in existing <==> r in init || r == last {
        assert existing == init + [last];
      }
      if DistinctReservations(existing) {
        forall i, j | 0 <= i < j < |init|
          ensures init[i].field != init[j].field
        {
          assert existing[i].field != existing[j].field;
        }
        forall r | r in Released(init, next)
          ensures r.field != last.field
        {
          var i :| 0 <= i < |init| && init[i] == r;
          assert existing[i].field != existing[|existing| - 1].field;
        }
      }
    }
  }

  function LookupOwner(r: Reservation, existing: Option<Snapshot>): Lookup {
    var owner := ActiveOwner(existing);
    if owner.None? || owner.value == r.documentName then NoLookup else ReadOwner(owner.value)
  }

  function ReservationDecision(r: Reservation, existing: Option<Snapshot>, ownerStillOwns: bool): Decision {
    var owner := ActiveOwner(existing);
    if owner == Some(r.documentName) then Skip
    else if owner.Some? && ownerStillOwns then ConflictFound
    else Write(existing)
  }

  function ReleaseDecision(r: Reservation, existing: Option<Snapshot>): Decision {
    if existing.None? || ActiveOwner(existing) != Some(r.documentName) then Skip else Write(existing)
  }

  function ReservedPayload(r: Reservation, existing: Option<Snapshot>): Payload {
    if existing.Some? then
      Updated(map["active" := Bool(true), "documentName" := Str(r.documentName)], {})
    else
      Created(map["field" := Str(r.field), "valueKey" := Str(r.key), "documentName" := Str(r.documentName),
                  "active" := Bool(true)], IsDraft)
  }

  const RELEASED := Updated(map["active" := Bool(false)], {})

  predicate NeverDeleted(snapshot: Option<Snapshot>) {
    snapshot.Some? ==> !snapshot.value.status.IsDeleted?
  }

  /** After a reservation event the document owns the value, unless its name is empty: then nobody does. */
  lemma ReservedOwner(r: Reservation, events: seq<Payload>)
    requires OpensWithCreation(events)
    requires NeverDeleted(Fold(events))
    ensures OpensWithCreation(events + [ReservedPayload(r, Fold(events))])
    ensures var after := Fold(events + [ReservedPayload(r, Fold(events))]);
      && NeverDeleted(after)
      && ActiveOwner(after) == if r.documentName == "" then None else Some(r.documentName)
  {
    FoldVersion(events);
    FoldSnoc(events, ReservedPayload(r, Fold(events)));
  }

  lemma ReleasedOwner(events: seq<Payload>)
    requires OpensWithCreation(events) && events != []
    requires NeverDeleted(Fold(events))
    ensures OpensWithCreation(events + [RELEASED])
    ensures var after := Fold(events + [RELEASED]); NeverDeleted(after) && ActiveOwner(after) == None
  {
    FoldVersion(events);
    FoldSnoc(events, RELEASED);
  }
}
