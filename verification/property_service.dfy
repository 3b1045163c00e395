/** The property service (PropertyService.java): new listings start PENDING,
    an administrator approves or rejects a PENDING listing exactly once, and
    the public only ever sees APPROVED listings. */
module PropertyService {
  import opened Wrappers
  import opened Text
  import opened Seqs
  import opened PropertySpecification

  /** The properties table: rows and the next identity value. */
  datatype PropertyDb = PropertyDb(rows: seq<Property>, nextId: int)

  datatype PropertyError = PropertyNotFound | OnlyPendingCanBeApproved | OnlyPendingCanBeRejected

  datatype Saved = Saved(db: PropertyDb, property: Property)

  predicate IsModerationStatus(status: Option<string>) {
    status == Some(Pending) || status == Some(Approved) || status == Some(Rejected)
  }

  /** Ids unique and below the next identity value; every status one of the
      three moderation states. */
  predicate WellFormedDb(db: PropertyDb) {
    && (forall i | 0 <= i < |db.rows| :: db.rows[i].id < db.nextId && IsModerationStatus(db.rows[i].status))
    && (forall i, j | 0 <= i < j < |db.rows| :: db.rows[i].id != db.rows[j].id)
  }

  /** `addProperty` (PropertyService.java:27-31): stored PENDING whatever the
      submitted status. `bodyId` is the body's `id`, `None` when the JSON has
      none; the columns come from `submitted`, whose own `id` is not read.
      `save` persists a body without an id under the next identity value and
      merges one with an id: a stored row with that id is overwritten in
      place, and an id no row holds is inserted under a fresh identity value. */
  function AddProperty(db: PropertyDb, bodyId: Option<int>, submitted: Property): (r: Saved)
    ensures r.property.status == Some(Pending)
    ensures r.property == submitted.(id := r.property.id, status := Some(Pending))
    ensures bodyId.Some? && FindProperty(db.rows, bodyId.value).Some? ==>
              var k := FindProperty(db.rows, bodyId.value).value;
              && r.property.id == bodyId.value
              && r.db == db.(rows := db.rows[k := r.property])
    ensures bodyId.None? || FindProperty(db.rows, bodyId.value).None? ==>
              && r.property.id == db.nextId
              && r.db == PropertyDb(db.rows + [r.property], db.nextId + 1)
  {
    if bodyId.Some? && FindProperty(db.rows, bodyId.value).Some? then
      var k := FindProperty(db.rows, bodyId.value).value;
      var p := submitted.(id := bodyId.value, status := Some(Pending));
      Saved(db.(rows := db.rows[k := p]), p)
    else
      var p := submitted.(id := db.nextId, status := Some(Pending));
      Saved(PropertyDb(db.rows + [p], db.nextId + 1), p)
  }

  function FindProperty(rows: seq<Property>, id: int): (r: Option<nat>)
    ensures r.Some? ==> r.value < |rows| && rows[r.value].id == id
    ensures r.Some? ==> forall j | 0 <= j < r.value :: rows[j].id != id
    ensures r.None? <==> forall j | 0 <= j < |rows| :: rows[j].id != id
  {
    FirstIndex((p: Property) => p.id == id, rows)
  }

  /** `approveProperty` (PropertyService.java:37-51). */
  function ApproveProperty(db: PropertyDb, id: int): (r: Result<Saved, PropertyError>)
    ensures FindProperty(db.rows, id).None? ==> r == Err(PropertyNotFound)
    ensures (FindProperty(db.rows, id).Some? && db.rows[FindProperty(db.rows, id).value].status != Some(Pending))
              ==> r == Err(OnlyPendingCanBeApproved)
    ensures r.Ok? <==> FindProperty(db.rows, id).Some? && db.rows[FindProperty(db.rows, id).value].status == Some(Pending)
    ensures r.Ok? ==> var k := FindProperty(db.rows, id).value;
              && db.rows[k].status == Some(Pending)
              && r.value.property == db.rows[k].(status := Some(Approved))
              && r.value.db == db.(rows := db.rows[k := r.value.property])
  {
    match FindProperty(db.rows, id)
    case None => Err(PropertyNotFound)
    case Some(k) =>
      if db.rows[k].status != Some(Pending) then Err(OnlyPendingCanBeApproved)
      else
        var p := db.rows[k].(status := Some(Approved));
        Ok(Saved(db.(rows := db.rows[k := p]), p))
  }

  /** `rejectProperty` (PropertyService.java:53-67). */
  function RejectProperty(db: PropertyDb, id: int): (r: Result<Saved, PropertyError>)
    ensures FindProperty(db.rows, id).None? ==> r == Err(PropertyNotFound)
    ensures (FindProperty(db.rows, id).Some? && db.rows[FindProperty(db.rows, id).value].status != Some(Pending))
              ==> r == Err(OnlyPendingCanBeRejected)
    ensures r.Ok? <==> FindProperty(db.rows, id).Some? && db.rows[FindProperty(db.rows, id).value].status == Some(Pending)
    ensures r.Ok? ==> var k := FindProperty(db.rows, id).value;
              && db.rows[k].status == Some(Pending)
              && r.value.property == db.rows[k].(status := Some(Rejected))
              && r.value.db == db.(rows := db.rows[k := r.value.property])
  {
    match FindProperty(db.rows, id)
    case None => Err(PropertyNotFound)
    case Some(k) =>
      if db.rows[k].status != Some(Pending) then Err(OnlyPendingCanBeRejected)
      else
        var p := db.rows[k].(status := Some(Rejected));
        Ok(Saved(db.(rows := db.rows[k := p]), p))
  }

  /** The status the admin listing filters on (PropertyService.java:78-80):
      PENDING for a null or blank request, the upper-cased request otherwise. */
  function ListingStatus(status: Option<string>): (s: string)
    ensures status.None? || IsJavaBlank(status.value) ==> s == Pending
    ensures status.Some? && !IsJavaBlank(status.value) ==> s == ToUpperAscii(status.value)
  {
    if status.None? || IsJavaBlank(status.value) then Pending else ToUpperAscii(status.value)
  }

  /** `getPropertiesByStatusPaged` without the paging. */
  function PropertiesByStatus(db: PropertyDb, status: Option<string>): (r: seq<Property>)
    ensures forall p :: p in r <==> p in db.rows && p.status == Some(ListingStatus(status))
  {
    Filter((p: Property) => HasStatus(Some(ListingStatus(status)), p), db.rows)
  }

  /** `getApprovedProperties` (PropertyService.java:91-98). */
  function ApprovedProperties(db: PropertyDb): (r: seq<Property>)
    ensures forall p :: p in r <==> p in db.rows && p.status == Some(Approved)
  {
    Filter(IsApproved, db.rows)
  }

  /** The conjunction `filterProperties` hands the repository. */
  predicate MatchesSearch(city: Option<string>, propertyType: Option<string>,
                          minPrice: Option<real>, maxPrice: Option<real>, p: Property) {
    && HasStatus(Some(Approved), p)
    && HasCity(city, p)
    && HasPropertyType(propertyType, p)
    && PriceBetween(minPrice, maxPrice, p)
  }

  /** `filterProperties` (PropertyService.java:100-115). */
  function FilterProperties(db: PropertyDb, city: Option<string>, propertyType: Option<string>,
                            minPrice: Option<real>, maxPrice: Option<real>): (r: seq<Property>)
    ensures forall p :: p in r <==> p in db.rows && MatchesSearch(city, propertyType, minPrice, maxPrice, p)
    ensures forall p | p in r :: p.status == Some(Approved)
  {
    Filter((p: Property) => MatchesSearch(city, propertyType, minPrice, maxPrice, p), db.rows)
  }

  /** `getPropertyById` (PropertyService.java:117-122). */
  function GetPropertyById(db: PropertyDb, id: int): (r: Result<Property, PropertyError>)
    ensures r.Ok? <==> exists i | 0 <= i < |db.rows| :: db.rows[i].id == id
    ensures r.Ok? ==> r.value in db.rows && r.value.id == id
    ensures r.Err? ==> r.error == PropertyNotFound
  {
    match FindProperty(db.rows, id)
    case None => Err(PropertyNotFound)
    case Some(k) => Ok(db.rows[k])
  }

  /* ---------- The moderation state machine ---------- */

  lemma AddKeepsWellFormed(db: PropertyDb, bodyId: Option<int>, submitted: Property)
    requires WellFormedDb(db)
    ensures WellFormedDb(AddProperty(db, bodyId, submitted).db)
  {
    var r := AddProperty(db, bodyId, submitted).db;
    assert forall i | 0 <= i < |db.rows| :: r.rows[i].id == db.rows[i].id;
  }

  lemma ModerationKeepsWellFormed(db: PropertyDb, id: int)
    requires WellFormedDb(db)
    ensures ApproveProperty(db, id).Ok? ==> WellFormedDb(ApproveProperty(db, id).value.db)
    ensures RejectProperty(db, id).Ok? ==> WellFormedDb(RejectProperty(db, id).value.db)
  {
    if ApproveProperty(db, id).Ok? {
      var r := ApproveProperty(db, id).value.db;
      assert forall i | 0 <= i < |db.rows| :: r.rows[i].id == db.rows[i].id;
    }
    if RejectProperty(db, id).Ok? {
      var r := RejectProperty(db, id).value.db;
      assert forall i | 0 <= i < |db.rows| :: r.rows[i].id == db.rows[i].id;
    }
  }

  /** APPROVED and REJECTED are terminal: neither action moves them again. */
  lemma DecidedIsTerminal(db: PropertyDb, id: int)
    requires FindProperty(db.rows, id).Some?
    requires var p := db.rows[FindProperty(db.rows, id).value];
             p.status == Some(Approved) || p.status == Some(Rejected)
    ensures ApproveProperty(db, id) == Err(OnlyPendingCanBeApproved)
    ensures RejectProperty(db, id) == Err(OnlyPendingCanBeRejected)
  {
  }

  /** Where a submission lands: the merged row's index for a stored body id,
      the new last row otherwise. */
  function Landing(db: PropertyDb, bodyId: Option<int>): nat {
    if bodyId.Some? && FindProperty(db.rows, bodyId.value).Some? then FindProperty(db.rows, bodyId.value).value
    else |db.rows|
  }

  /** A submitted listing, new or merged onto a stored one, is the one its id
      now finds. */
  lemma SubmittedIsFound(db: PropertyDb, bodyId: Option<int>, submitted: Property)
    requires WellFormedDb(db)
    ensures var added := AddProperty(db, bodyId, submitted);
            FindProperty(added.db.rows, added.property.id) == Some(Landing(db, bodyId))
  {
    var added := AddProperty(db, bodyId, submitted);
    var id := added.property.id;
    var k := Landing(db, bodyId);
    assert added.db.rows[k] == added.property;
    assert forall j | 0 <= j < k :: added.db.rows[j] == db.rows[j];
    if k == |db.rows| {
      assert forall j | 0 <= j < |db.rows| :: db.rows[j].id != id;
    }
  }

  /** A submitted listing can be approved or rejected once, and then never
      again through the moderation actions. */
  lemma ModerateOnce(db: PropertyDb, bodyId: Option<int>, submitted: Property, approve: bool)
    requires WellFormedDb(db)
    ensures var added := AddProperty(db, bodyId, submitted);
            var id := added.property.id;
            var decided := if approve then ApproveProperty(added.db, id) else RejectProperty(added.db, id);
            && decided.Ok?
            && decided.value.property.status == Some(if approve then Approved else Rejected)
            && ApproveProperty(decided.value.db, id) == Err(OnlyPendingCanBeApproved)
            && RejectProperty(decided.value.db, id) == Err(OnlyPendingCanBeRejected)
  {
    var added := AddProperty(db, bodyId, submitted);
    var id := added.property.id;
    var k := Landing(db, bodyId);
    SubmittedIsFound(db, bodyId, submitted);
    var decided := if approve then ApproveProperty(added.db, id) else RejectProperty(added.db, id);
    assert forall j | 0 <= j < k :: decided.value.db.rows[j] == added.db.rows[j];
    assert decided.value.db.rows[k].id == id;
    assert FindProperty(decided.value.db.rows, id) == Some(k);
  }

  /** Resubmitting a decided listing under its id puts it back to PENDING, so
      the moderation actions apply to it again. */
  lemma ResubmitReopensDecided(db: PropertyDb, id: int, submitted: Property)
    requires WellFormedDb(db)
    requires FindProperty(db.rows, id).Some?
    ensures var added := AddProperty(db, Some(id), submitted);
            && added.property.id == id
            && ApproveProperty(added.db, id).Ok?
            && RejectProperty(added.db, id).Ok?
  {
    SubmittedIsFound(db, Some(id), submitted);
  }

  /** The admin listing reads its status case-insensitively: a lower-case
      request lists the same rows as the upper-case one. */
  lemma ListingIgnoresAsciiCase(db: PropertyDb, status: string)
    requires !IsJavaBlank(status)
    ensures !IsJavaBlank(ToUpperAscii(status))
    ensures PropertiesByStatus(db, Some(status)) == PropertiesByStatus(db, Some(ToUpperAscii(status)))
  {
    var i :| 0 <= i < |status| && !IsJavaWhitespace(status[i]);
    assert !IsJavaWhitespace(ToUpperAscii(status)[i]);
    assert ToUpperAscii(ToUpperAscii(status)) == ToUpperAscii(status);
  }

  /** Approving makes a listing public and changes nothing else the public
      sees: the approved listings afterwards are those before plus this one. */
  lemma ApproveMakesPublic(db: PropertyDb, id: int)
    requires ApproveProperty(db, id).Ok?
    ensures var r := ApproveProperty(db, id).value;
            forall p :: p in ApprovedProperties(r.db) <==> p in ApprovedProperties(db) || p == r.property
  {
    var r := ApproveProperty(db, id).value;
    var k := FindProperty(db.rows, id).value;
    assert r.db.rows[k] == r.property;
    forall p | p in ApprovedProperties(db)
      ensures p in ApprovedProperties(r.db)
    {
      var i :| 0 <= i < |db.rows| && db.rows[i] == p;
      assert i != k;
      assert r.db.rows[i] == p;
    }
    forall p | p in ApprovedProperties(r.db) && p != r.property
      ensures p in ApprovedProperties(db)
    {
      var i :| 0 <= i < |r.db.rows| && r.db.rows[i] == p;
      assert i != k;
      assert db.rows[i] == p;
    }
  }
}
