/** The restaurant details the API exchanges: their equality, the projection
    of stored rows into details when browsing, and the outcome of an update
    (which touches only the restaurant of that id owned by the caller). */
module Restaurant {
  import opened Wrappers
  import Seqs

  /** The canonical text of a UUID. */
  type Uuid = string

  /** `restaurantDetails`. */
  datatype Details = Details(id: Uuid, name: string, email: string, phone: string, description: string,
                             locationText: string, locationUrl: string, frontpageMarkdown: string,
                             maxPartySize: int, bookingCapacity: int, bookingLength: int,
                             tags: seq<string>)

  /** Go's `slices.Equal`: the same length and equal elements position by
      position. */
  predicate SlicesEqual(a: seq<string>, b: seq<string>) {
    |a| == |b| && forall i | 0 <= i < |a| :: a[i] == b[i]
  }

  /** `restaurantDetails.Equal`: field by field, the tags in order. */
  predicate Equal(lhs: Details, rhs: Details) {
    lhs.id == rhs.id
    && lhs.name == rhs.name
    && lhs.email == rhs.email
    && lhs.phone == rhs.phone
    && lhs.description == rhs.description
    && lhs.locationText == rhs.locationText
    && lhs.locationUrl == rhs.locationUrl
    && lhs.frontpageMarkdown == rhs.frontpageMarkdown
    && lhs.maxPartySize == rhs.maxPartySize
    && lhs.bookingCapacity == rhs.bookingCapacity
    && lhs.bookingLength == rhs.bookingLength
    && SlicesEqual(lhs.tags, rhs.tags)
  }

  /** Element-wise equality of the tags is equality of the sequences. */
  lemma SlicesEqualIff(a: seq<string>, b: seq<string>)
    ensures SlicesEqual(a, b) <==> a == b
  {
    if SlicesEqual(a, b) {
      assert a == b;
    }
  }

  /** Two details are `Equal` exactly when all twelve fields agree. */
  lemma EqualIffSame(lhs: Details, rhs: Details)
    ensures Equal(lhs, rhs) <==> lhs == rhs
  {
    SlicesEqualIff(lhs.tags, rhs.tags);
  }

  /** `Equal` is reflexive and symmetric. */
  lemma EqualReflexiveSymmetric(a: Details, b: Details)
    ensures Equal(a, a)
    ensures Equal(a, b) ==> Equal(b, a)
  {
    EqualIffSame(a, a);
    EqualIffSame(a, b);
    EqualIffSame(b, a);
  }

  /** The same two tags in the other order are not `Equal`. */
  lemma ReorderedTagsDiffer(d: Details, t1: string, t2: string)
    requires t1 != t2
    ensures !Equal(d.(tags := [t1, t2]), d.(tags := [t2, t1]))
  {
    assert d.(tags := [t1, t2]).tags[0] != d.(tags := [t2, t1]).tags[0];
  }

  // ---------------------------------------------------------------------------
  // Browsing

  /** A stored restaurant as the browse query reads it: the details' fields
      plus the owning account and the availability it points at. */
  datatype Row = Row(id: Uuid, accountId: Uuid, availabilityId: Uuid, name: string, email: string,
                     phone: string, description: string, locationText: string, locationUrl: string,
                     frontpageMarkdown: string, maxPartySize: int, bookingCapacity: int,
                     bookingLength: int, tags: seq<string>)

  /** The details a row is shown as. */
  function Project(r: Row): Details {
    Details(r.id, r.name, r.email, r.phone, r.description, r.locationText, r.locationUrl,
            r.frontpageMarkdown, r.maxPartySize, r.bookingCapacity, r.bookingLength, r.tags)
  }

  /** The projection forgets exactly the owning account and the
      availability: two rows give `Equal` details iff every other field
      agrees. */
  lemma ProjectKeepsFields(r1: Row, r2: Row)
    ensures Equal(Project(r1), Project(r2))
        <==> r1.(accountId := r2.accountId, availabilityId := r2.availabilityId) == r2
  {
    EqualIffSame(Project(r1), Project(r2));
  }

  /** `BrowseRestaurantsHandler.handle`: a query error is passed on;
      otherwise a slice of the rows' length is filled, row by row. */
  method Browse(query: Result<seq<Row>, string>) returns (res: Result<seq<Details>, string>)
    ensures query.Err? ==> res == Err(query.error)
    ensures query.Ok? ==> res.Ok? && |res.value| == |query.value|
    ensures query.Ok? ==> forall i | 0 <= i < |query.value| :: res.value[i] == Project(query.value[i])
  {
    if query.Err? {
      return Err(query.error);
    }
    var rows := query.value;
    var a := new Details[|rows|](_ => Details("", "", "", "", "", "", "", "", 0, 0, 0, []));
    var i := 0;
    while i < |rows|
      invariant 0 <= i <= |rows| && a.Length == |rows|
      invariant forall k | 0 <= k < i :: a[k] == Project(rows[k])
    {
      a[i] := Project(rows[i]);
      i := i + 1;
    }
    return Ok(a[..]);
  }

  // ---------------------------------------------------------------------------
  // Updating

  /** A stored restaurant together with the e-mail address of the account
      that owns it. */
  datatype Stored = Stored(ownerEmail: string, details: Details)

  datatype UpdateError = NonExistentRestaurantError

  datatype UpdateResult = UpdateResult(store: seq<Stored>, err: Option<UpdateError>)

  /** Whether the UPDATE's WHERE clause selects a stored restaurant: the
      restaurant of that id owned by the account with that e-mail. */
  predicate Selected(s: Stored, email: string, id: Uuid) {
    s.details.id == id && s.ownerEmail == email
  }

  /** `UpdateRestaurantHandler.handle`: every selected row takes the new
      fields; no selected row is `NonExistentRestaurantError`; a failing
      query is reported as success and changes nothing. */
  function Update(store: seq<Stored>, email: string, d: Details, queryFails: bool): (r: UpdateResult)
    ensures queryFails ==> r == UpdateResult(store, None)
    ensures !queryFails ==>
              (r.err == Some(NonExistentRestaurantError) <==> forall s | s in store :: !Selected(s, email, d.id))
    ensures r.err.None? || r.err == Some(NonExistentRestaurantError)
    ensures |r.store| == |store|
    ensures forall i | 0 <= i < |store| ::
              r.store[i] == if !queryFails && Selected(store[i], email, d.id) then Stored(email, d) else store[i]
  {
    if queryFails then UpdateResult(store, None)
    else
      var updated := seq(|store|, i requires 0 <= i < |store| =>
                           if Selected(store[i], email, d.id) then Stored(email, d) else store[i]);
      var count := |Seqs.Filter(store, s => Selected(s, email, d.id))|;
      CountZeroIffNone(store, email, d.id);
      UpdateResult(updated, if count == 0 then Some(NonExistentRestaurantError) else None)
  }

  /** The RETURNING rows are none exactly when no stored restaurant is
      selected. */
  lemma CountZeroIffNone(store: seq<Stored>, email: string, id: Uuid)
    ensures |Seqs.Filter(store, s => Selected(s, email, id))| == 0
        <==> forall s | s in store :: !Selected(s, email, id)
  {
    var f := Seqs.Filter(store, s => Selected(s, email, id));
    Seqs.FilterMembers(store, s => Selected(s, email, id));
    if |f| > 0 {
      assert f[0] in f;
    }
  }

  /** A restaurant owned by another account is not updated, and the caller
      learns that it does not exist. */
  lemma UpdateNotOwned(store: seq<Stored>, email: string, d: Details)
    requires forall s | s in store :: s.details.id == d.id ==> s.ownerEmail != email
    ensures Update(store, email, d, false) == UpdateResult(store, Some(NonExistentRestaurantError))
  {
    var r := Update(store, email, d, false);
    assert r.store == store;
  }
}
