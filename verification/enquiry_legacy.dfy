/** The older enquiry controller (enquiry-service/EnquiryService/Controllers):
    no identity checks, listings filtered by a path id, and a status that is a
    free string validated by exact comparison. Its state machine is separate
    from the current controller's enum-typed one. */
module LegacyEnquiryService {
  import opened Wrappers
  import opened Seqs
  import Current = EnquiryService
  import opened Text

  /** The three status strings the update action accepts, compared case-sensitively. */
  predicate IsStatusName(s: string) {
    s == "NEW" || s == "RESPONDED" || s == "CLOSED"
  }

  datatype Enquiry = Enquiry(
    id: int,
    propertyId: int,
    customerId: int,
    ownerId: int,
    message: string,
    status: string,
    createdAt: int,
    updatedAt: int)

  datatype EnquiryDb = EnquiryDb(rows: seq<Enquiry>, nextId: int)

  datatype EnquiryError = NotFound | BadRequest | DuplicateKey

  datatype Saved = Saved(db: EnquiryDb, enquiry: Enquiry)

  /** Ids unique and below the next identity value; every status one of the
      three names. */
  predicate WellFormedDb(db: EnquiryDb) {
    && (forall i | 0 <= i < |db.rows| :: db.rows[i].id < db.nextId && IsStatusName(db.rows[i].status))
    && (forall i, j | 0 <= i < j < |db.rows| :: db.rows[i].id != db.rows[j].id)
  }

  /** An explicit key that a stored row already holds; 0 asks the store for one. */
  predicate KeyTaken(db: EnquiryDb, bodyId: int) {
    bodyId != 0 && FindEnquiry(db.rows, bodyId).Some?
  }

  /** POST api/enquiries (EnquiryController.cs:18-30): the body is stored as
      sent, customer id included, with status "NEW" and both timestamps set.
      A non-zero body id is inserted as given; one already stored makes the
      insert throw, and no handler turns that into an answer. */
  function CreateEnquiry(db: EnquiryDb, body: Enquiry, now: int): (r: Result<Saved, EnquiryError>)
    ensures r.Err? <==> KeyTaken(db, body.id)
    ensures r.Err? ==> r.error == DuplicateKey
    ensures r.Ok? ==> var e := r.value.enquiry;
              && e.customerId == body.customerId
              && e.status == "NEW"
              && e.createdAt == now && e.updatedAt == now
              && (body.id == 0 ==> e.id == db.nextId)
              && (body.id != 0 ==> e.id == body.id)
              && e.propertyId == body.propertyId && e.ownerId == body.ownerId
              && e.message == body.message
              && r.value.db.rows == db.rows + [e]
              && r.value.db.nextId > e.id && r.value.db.nextId >= db.nextId
  {
    if KeyTaken(db, body.id) then Err(DuplicateKey)
    else
      var id := if body.id == 0 then db.nextId else body.id;
      var e := body.(id := id, status := "NEW", createdAt := now, updatedAt := now);
      Ok(Saved(EnquiryDb(db.rows + [e], Current.CounterAfter(db.nextId, id)), e))
  }

  /** GET api/enquiries/owner/{ownerId} (EnquiryController.cs:32-41). */
  function ListForOwner(db: EnquiryDb, ownerId: int): (r: seq<Enquiry>)
    ensures forall e :: e in r <==> e in db.rows && e.ownerId == ownerId
  {
    Filter((e: Enquiry) => e.ownerId == ownerId, db.rows)
  }

  /** GET api/enquiries/customer/{customerId} (EnquiryController.cs:43-52). */
  function ListForCustomer(db: EnquiryDb, customerId: int): (r: seq<Enquiry>)
    ensures forall e :: e in r <==> e in db.rows && e.customerId == customerId
  {
    Filter((e: Enquiry) => e.customerId == customerId, db.rows)
  }

  function FindEnquiry(rows: seq<Enquiry>, id: int): (r: Option<nat>)
    ensures r.Some? ==> r.value < |rows| && rows[r.value].id == id
    ensures r.Some? ==> forall j | 0 <= j < r.value :: rows[j].id != id
    ensures r.None? <==> forall j | 0 <= j < |rows| :: rows[j].id != id
  {
    FirstIndex((e: Enquiry) => e.id == id, rows)
  }

  /** PUT api/enquiries/{id}/status (EnquiryController.cs:54-76): an unknown id
      is NotFound before the status is looked at. */
  function UpdateStatus(db: EnquiryDb, id: int, status: string, now: int): (r: Result<Saved, EnquiryError>)
    ensures FindEnquiry(db.rows, id).None? ==> r == Err(NotFound)
    ensures FindEnquiry(db.rows, id).Some? && !IsStatusName(status) ==> r == Err(BadRequest)
    ensures r.Ok? <==> FindEnquiry(db.rows, id).Some? && IsStatusName(status)
    ensures r.Ok? ==> var k := FindEnquiry(db.rows, id).value;
              && r.value.enquiry == db.rows[k].(status := status, updatedAt := now)
              && r.value.db == db.(rows := db.rows[k := r.value.enquiry])
  {
    match FindEnquiry(db.rows, id)
    case None => Err(NotFound)
    case Some(k) =>
      if !IsStatusName(status) then Err(BadRequest)
      else
        var e := db.rows[k].(status := status, updatedAt := now);
        Ok(Saved(db.(rows := db.rows[k := e]), e))
  }

  lemma CreateKeepsWellFormed(db: EnquiryDb, body: Enquiry, now: int)
    requires WellFormedDb(db)
    ensures CreateEnquiry(db, body, now).Ok? ==> WellFormedDb(CreateEnquiry(db, body, now).value.db)
  {
  }

  /** The accepted status strings are the only statuses a record ever holds. */
  lemma UpdateKeepsWellFormed(db: EnquiryDb, id: int, status: string, now: int)
    requires WellFormedDb(db)
    ensures UpdateStatus(db, id, status, now).Ok? ==> WellFormedDb(UpdateStatus(db, id, status, now).value.db)
  {
    var r := UpdateStatus(db, id, status, now);
    if r.Ok? {
      assert forall i | 0 <= i < |db.rows| :: r.value.db.rows[i].id == db.rows[i].id;
    }
  }

  /* ---------- The two controllers side by side ---------- */

  /** A status in lower case is accepted by the current controller and refused
      by this one. */
  lemma LowerCaseStatusSplitsVariants(db: EnquiryDb, id: int, now: int, s: Current.EnquiryStatus)
    requires FindEnquiry(db.rows, id).Some?
    ensures Current.ParseStatus(ToLowerAscii(Current.StatusName(s))) == Some(s)
    ensures UpdateStatus(db, id, ToLowerAscii(Current.StatusName(s)), now) == Err(BadRequest)
  {
    Current.ParseStatusRoundTrip(s);
    var lower := ToLowerAscii(Current.StatusName(s));
    assert lower[0] != Current.StatusName(s)[0];
  }
}
