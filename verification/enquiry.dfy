/** The enquiry lifecycle behind the gateway (the current EnquiryController.cs):
    customers create enquiries and read their own, administrators read all and
    set the status. Status changes are unordered: any status may follow any. */
module EnquiryService {
  import opened Wrappers
  import opened Text
  import opened Seqs
  import opened GatewayHeaders

  /** The status enum (Enquiry.cs:26). */
  datatype EnquiryStatus = New | Responded | Closed

  function StatusName(s: EnquiryStatus): string {
    match s
    case New => "NEW"
    case Responded => "RESPONDED"
    case Closed => "CLOSED"
  }

  /** A stored enquiry (Enquiry.cs). Timestamps are ticks of the injected clock. */
  datatype Enquiry = Enquiry(
    id: int,
    propertyId: int,
    customerId: int,
    ownerId: int,
    message: string,
    status: EnquiryStatus,
    createdAt: int,
    updatedAt: int)

  /** The enquiries table: rows in insertion order and the next identity value. */
  datatype EnquiryDb = EnquiryDb(rows: seq<Enquiry>, nextId: int)

  /** `DuplicateKey` is the failed insert of an explicit id that is already
      stored; the exception handler (Program.cs:56-64) answers it with 401. */
  datatype EnquiryError = HeadersRejected(why: Rejection) | Forbidden | NotFound | BadRequest | DuplicateKey

  /** A successful write: the new table and the record the action answers with. */
  datatype Saved = Saved(db: EnquiryDb, enquiry: Enquiry)

  /** Ids are unique and below the next identity value. */
  predicate WellFormedDb(db: EnquiryDb) {
    && (forall i | 0 <= i < |db.rows| :: db.rows[i].id < db.nextId)
    && (forall i, j | 0 <= i < j < |db.rows| :: db.rows[i].id != db.rows[j].id)
  }

  /** `Enum.TryParse<EnquiryStatus>(text, ignoreCase: true)` on the status names:
      a name matches whatever the case of its ASCII letters. */
  function ParseStatus(text: string): (r: Option<EnquiryStatus>)
    ensures forall s :: r == Some(s) <==> EqualsIgnoreAsciiCase(text, StatusName(s))
  {
    var t := ToUpperAscii(text);
    assert ToUpperAscii("NEW") == "NEW";
    assert ToUpperAscii("RESPONDED") == "RESPONDED";
    assert ToUpperAscii("CLOSED") == "CLOSED";
    if t == "NEW" then Some(New)
    else if t == "RESPONDED" then Some(Responded)
    else if t == "CLOSED" then Some(Closed)
    else None
  }

  /** The `[Required]` check on `Message` that model validation runs before the
      action: null, empty and white-space-only messages are refused. */
  predicate ValidBody(body: Enquiry) {
    !IsDotNetBlank(body.message)
  }

  /** The identity column's counter after a row with `id` is inserted
      (MySQL AUTO_INCREMENT): an id at or past the counter moves it beyond. */
  function CounterAfter(nextId: int, id: int): (n: int)
    ensures n > id && n >= nextId
    ensures n == nextId || n == id + 1
  {
    if id < nextId then nextId else id + 1
  }

  /** The key a new row is inserted under. An `Id` of 0, the default of
      `long`, lets the store generate one; any other value is inserted as
      given (Enquiry.cs:9-11 makes the key an identity column). */
  function InsertedId(db: EnquiryDb, bodyId: int): (id: int)
    ensures bodyId != 0 ==> id == bodyId
    ensures bodyId == 0 && WellFormedDb(db) ==> forall i | 0 <= i < |db.rows| :: db.rows[i].id != id
  {
    if bodyId == 0 then db.nextId else bodyId
  }

  /** An explicit key that a stored row already holds. */
  predicate KeyTaken(db: EnquiryDb, bodyId: int) {
    bodyId != 0 && FindEnquiry(db.rows, bodyId).Some?
  }

  /** POST /enquiries (EnquiryController.cs:22-42). The caller's header id
      replaces the body's customer id; the body's own id is kept when it is
      not 0, and an id that is already stored makes the insert fail. */
  function CreateEnquiry(db: EnquiryDb, userId: Option<int>, role: Option<string>, body: Enquiry, now: int)
    : (r: Result<Saved, EnquiryError>)
    ensures !ValidBody(body) ==> r == Err(BadRequest)
    ensures ValidBody(body) && EnquiryCheck(userId, role).Fail? ==> r == Err(HeadersRejected(MissingHeaders))
    ensures (ValidBody(body) && EnquiryCheck(userId, role).Pass? && role.value != CustomerRole)
              ==> r == Err(Forbidden)
    ensures (ValidBody(body) && userId.Some? && role == Some(CustomerRole) && KeyTaken(db, body.id))
              ==> r == Err(DuplicateKey)
    ensures r.Ok? <==> ValidBody(body) && userId.Some? && role == Some(CustomerRole) && !KeyTaken(db, body.id)
    ensures r.Ok? ==> var e := r.value.enquiry;
              && e.customerId == userId.value
              && e.status == New
              && e.createdAt == now && e.updatedAt == now
              && (body.id == 0 ==> e.id == db.nextId)
              && (body.id != 0 ==> e.id == body.id)
              && (forall i | 0 <= i < |db.rows| :: body.id != 0 ==> db.rows[i].id != e.id)
              && e.propertyId == body.propertyId && e.ownerId == body.ownerId && e.message == body.message
              && r.value.db.rows == db.rows + [e]
              && r.value.db.nextId > e.id && r.value.db.nextId >= db.nextId
  {
    if !ValidBody(body) then Err(BadRequest)
    else match EnquiryCheck(userId, role)
      case Fail(why) => Err(HeadersRejected(why))
      case Pass =>
        if role.value != CustomerRole then Err(Forbidden)
        else if KeyTaken(db, body.id) then Err(DuplicateKey)
        else
          var id := InsertedId(db, body.id);
          var e := body.(id := id, customerId := userId.value, status := New,
                         createdAt := now, updatedAt := now);
          Ok(Saved(EnquiryDb(db.rows + [e], CounterAfter(db.nextId, id)), e))
  }

  /** GET /enquiries/admin (EnquiryController.cs:48-62). */
  function ListAllForAdmin(db: EnquiryDb, userId: Option<int>, role: Option<string>)
    : (r: Result<seq<Enquiry>, EnquiryError>)
    ensures EnquiryCheck(userId, role).Fail? ==> r == Err(HeadersRejected(MissingHeaders))
    ensures r.Ok? <==> userId.Some? && role == Some(AdminRole)
    ensures r.Ok? ==> r.value == db.rows
    ensures EnquiryCheck(userId, role).Pass? && role.value != AdminRole ==> r == Err(Forbidden)
  {
    match EnquiryCheck(userId, role)
    case Fail(why) => Err(HeadersRejected(why))
    case Pass => if role.value != AdminRole then Err(Forbidden) else Ok(db.rows)
  }

  function OwnedBy(rows: seq<Enquiry>, customerId: int): seq<Enquiry> {
    Filter((e: Enquiry) => e.customerId == customerId, rows)
  }

  /** GET /enquiries/customer (EnquiryController.cs:68-83): exactly the caller's
      enquiries. */
  function ListForCustomer(db: EnquiryDb, userId: Option<int>, role: Option<string>)
    : (r: Result<seq<Enquiry>, EnquiryError>)
    ensures EnquiryCheck(userId, role).Fail? ==> r == Err(HeadersRejected(MissingHeaders))
    ensures r.Ok? <==> userId.Some? && role == Some(CustomerRole)
    ensures EnquiryCheck(userId, role).Pass? && role.value != CustomerRole ==> r == Err(Forbidden)
    ensures r.Ok? ==> forall e :: e in r.value <==> e in db.rows && e.customerId == userId.value
  {
    match EnquiryCheck(userId, role)
    case Fail(why) => Err(HeadersRejected(why))
    case Pass =>
      if role.value != CustomerRole then Err(Forbidden)
      else Ok(OwnedBy(db.rows, userId.value))
  }

  function FindEnquiry(rows: seq<Enquiry>, id: int): (r: Option<nat>)
    ensures r.Some? ==> r.value < |rows| && rows[r.value].id == id
    ensures r.Some? ==> forall j | 0 <= j < r.value :: rows[j].id != id
    ensures r.None? <==> forall j | 0 <= j < |rows| :: rows[j].id != id
  {
    FirstIndex((e: Enquiry) => e.id == id, rows)
  }

  /** PUT /enquiries/{id}/status (EnquiryController.cs:89-121). The checks run
      in a fixed order: headers, the ADMIN role, the id, then the status text. */
  function UpdateStatus(db: EnquiryDb, userId: Option<int>, role: Option<string>, id: int, status: string, now: int)
    : (r: Result<Saved, EnquiryError>)
    ensures EnquiryCheck(userId, role).Fail? ==> r == Err(HeadersRejected(MissingHeaders))
    ensures EnquiryCheck(userId, role).Pass? && role.value != AdminRole ==> r == Err(Forbidden)
    ensures (userId.Some? && role == Some(AdminRole) && FindEnquiry(db.rows, id).None?) ==> r == Err(NotFound)
    ensures (userId.Some? && role == Some(AdminRole) && FindEnquiry(db.rows, id).Some?
             && ParseStatus(status).None?) ==> r == Err(BadRequest)
    ensures r.Ok? <==> (userId.Some? && role == Some(AdminRole) && FindEnquiry(db.rows, id).Some?
                        && ParseStatus(status).Some?)
    ensures r.Ok? ==>
              && userId.Some? && role == Some(AdminRole)
              && ParseStatus(status).Some?
              && var k := FindEnquiry(db.rows, id).value;
                 && r.value.enquiry == db.rows[k].(status := ParseStatus(status).value, updatedAt := now)
                 && r.value.db == db.(rows := db.rows[k := r.value.enquiry])
  {
    match EnquiryCheck(userId, role)
    case Fail(why) => Err(HeadersRejected(why))
    case Pass =>
      if role.value != AdminRole then Err(Forbidden)
      else match FindEnquiry(db.rows, id)
        case None => Err(NotFound)
        case Some(k) =>
          match ParseStatus(status)
          case None => Err(BadRequest)
          case Some(s) =>
            var e := db.rows[k].(status := s, updatedAt := now);
            Ok(Saved(db.(rows := db.rows[k := e]), e))
  }

  /* ---------- Status names ---------- */

  /** Every status name parses back to its status, in upper or lower case. */
  lemma ParseStatusRoundTrip(s: EnquiryStatus)
    ensures ParseStatus(StatusName(s)) == Some(s)
    ensures ParseStatus(ToLowerAscii(StatusName(s))) == Some(s)
  {
    var name := StatusName(s);
    assert ToUpperAscii(name) == name;
    assert ToUpperAscii(ToLowerAscii(name)) == name;
  }

  /* ---------- Invariants ---------- */

  lemma CreateKeepsWellFormed(db: EnquiryDb, userId: Option<int>, role: Option<string>, body: Enquiry, now: int)
    requires WellFormedDb(db)
    ensures CreateEnquiry(db, userId, role, body, now).Ok? ==>
              WellFormedDb(CreateEnquiry(db, userId, role, body, now).value.db)
  {
  }

  lemma UpdateKeepsWellFormed(db: EnquiryDb, userId: Option<int>, role: Option<string>, id: int, status: string, now: int)
    requires WellFormedDb(db)
    ensures UpdateStatus(db, userId, role, id, status, now).Ok? ==>
              WellFormedDb(UpdateStatus(db, userId, role, id, status, now).value.db)
  {
    var r := UpdateStatus(db, userId, role, id, status, now);
    if r.Ok? {
      var k := FindEnquiry(db.rows, id).value;
      assert forall i | 0 <= i < |db.rows| :: r.value.db.rows[i].id == db.rows[i].id;
    }
  }

  /* ---------- Lifecycle ---------- */

  /** No ordering guard: an administrator may move any stored enquiry from its
      current status to any status, including back to NEW. */
  lemma AnyStatusFromAnyStatus(db: EnquiryDb, adminId: int, k: nat, target: EnquiryStatus, now: int)
    requires WellFormedDb(db)
    requires k < |db.rows|
    ensures var r := UpdateStatus(db, Some(adminId), Some(AdminRole), db.rows[k].id, StatusName(target), now);
            && r.Ok?
            && r.value.db.rows[k].status == target
            && r.value.db.rows[k].updatedAt == now
            && r.value.db.rows[k].message == db.rows[k].message
            && forall i | 0 <= i < |db.rows| && i != k :: r.value.db.rows[i] == db.rows[i]
  {
    ParseStatusRoundTrip(target);
    var j := FindEnquiry(db.rows, db.rows[k].id).value;
    assert j == k;
  }

  /** Whatever customer id the body carries, the stored enquiry is the same. */
  lemma CreateIgnoresBodyCustomerId(db: EnquiryDb, userId: Option<int>, role: Option<string>,
                                    body: Enquiry, forged: int, now: int)
    ensures CreateEnquiry(db, userId, role, body, now)
            == CreateEnquiry(db, userId, role, body.(customerId := forged), now)
  {
  }

  /** A free explicit id becomes the new record's key: the record is the one
      an update of that id finds, and the next generated id lies beyond it. */
  lemma ExplicitIdAddressesNewRecord(db: EnquiryDb, userId: int, body: Enquiry, now: int)
    requires WellFormedDb(db)
    requires ValidBody(body) && body.id != 0 && !KeyTaken(db, body.id)
    ensures var created := CreateEnquiry(db, Some(userId), Some(CustomerRole), body, now);
            && created.Ok?
            && created.value.enquiry.id == body.id
            && FindEnquiry(created.value.db.rows, body.id) == Some(|db.rows|)
            && created.value.db.nextId > body.id
  {
    var created := CreateEnquiry(db, Some(userId), Some(CustomerRole), body, now);
    assert created.value.db.rows[|db.rows|].id == body.id;
    assert forall j | 0 <= j < |db.rows| :: created.value.db.rows[j].id != body.id;
  }

  /** A worked run: a customer's enquiry starts NEW, an
      administrator sets RESPONDED, the customer cannot. */
  lemma EnquiryWalkthrough(customer: int, admin: int, t0: int, t1: int)
    ensures var body := Enquiry(0, 42, 0, 7, "interested", Closed, 0, 0);
            var created := CreateEnquiry(EnquiryDb([], 1), Some(customer), Some(CustomerRole), body, t0);
            && created.Ok?
            && created.value.enquiry == Enquiry(1, 42, customer, 7, "interested", New, t0, t0)
            && var responded := UpdateStatus(created.value.db, Some(admin), Some(AdminRole), 1, "RESPONDED", t1);
               && responded.Ok?
               && responded.value.enquiry.status == Responded
               && UpdateStatus(created.value.db, Some(customer), Some(CustomerRole), 1, "RESPONDED", t1)
                  == Err(Forbidden)
  {
    var body := Enquiry(0, 42, 0, 7, "interested", Closed, 0, 0);
    assert !IsDotNetWhitespace(body.message[0]);
    var created := CreateEnquiry(EnquiryDb([], 1), Some(customer), Some(CustomerRole), body, t0);
    assert FindEnquiry(created.value.db.rows, 1) == Some(0);
    ParseStatusRoundTrip(Responded);
  }
}
