/** The user service's controller (UserController.java): every action checks
    the forwarded identity, then works on the caller's own profile and
    addresses. Persistence is the service layer's; the model states what the
    controller hands to it and what it makes of the answers. */
module UserController {
  import opened Wrappers
  import opened Seqs
  import opened GatewayHeaders

  /** A profile row. The entity's own columns are not part of this model; they
      are carried as an opaque name-to-value map. */
  datatype UserProfile = UserProfile(userId: Option<int>, fields: map<string, string>)

  /** An address row. `id` is the `Long` key (AddressRepository.java:9):
      `None` in a body that has none, always present on a stored row. The
      other columns are opaque. */
  datatype Address = Address(id: Option<int>, userId: Option<int>, fields: map<string, string>)

  /** The addresses table: rows in insertion order and the next identity value. */
  datatype AddressTable = AddressTable(rows: seq<Address>, nextId: int)

  /** A successful `addAddress`: the new table and the address it answers with. */
  datatype AddressSaved = AddressSaved(table: AddressTable, address: Address)

  /** Every stored address carries its own key. */
  predicate UniqueAddressIds(t: AddressTable) {
    forall i, j | 0 <= i < j < |t.rows| :: t.rows[i].id != t.rows[j].id
  }

  function FindAddress(rows: seq<Address>, id: int): (r: Option<nat>)
    ensures r.Some? ==> r.value < |rows| && rows[r.value].id == Some(id)
    ensures r.Some? ==> forall j | 0 <= j < r.value :: rows[j].id != Some(id)
    ensures r.None? <==> forall j | 0 <= j < |rows| :: rows[j].id != Some(id)
  {
    FirstIndex((a: Address) => a.id == Some(id), rows)
  }

  /** A body id that names a stored row. */
  predicate NamesStoredAddress(t: AddressTable, body: Address) {
    body.id.Some? && FindAddress(t.rows, body.id.value).Some?
  }

  /** `new UserProfile()`: every column null. */
  const EmptyProfile: UserProfile := UserProfile(None, map[])

  /** A refused request: 401 for missing headers, 403 for an unknown role. */
  datatype HttpError = HttpError(status: int)

  function Refuse(why: Rejection): HttpError {
    HttpError(UserRejectionStatus(why))
  }

  /** POST and PUT /users/profile (UserController.java:28-41, 60-73): the
      profile passed to `createOrUpdateProfile` carries the header user id,
      whatever the body said. */
  function SaveProfile(userId: Option<int>, role: Option<string>, body: UserProfile)
    : (r: Result<UserProfile, HttpError>)
    ensures UserCheck(userId, role).Fail? ==> r == Err(Refuse(UserCheck(userId, role).error))
    ensures r.Ok? <==> UserCheck(userId, role).Pass?
    ensures r.Ok? ==> r.value.userId == userId && r.value.fields == body.fields
  {
    match UserCheck(userId, role)
    case Fail(why) => Err(Refuse(why))
    case Pass => Ok(body.(userId := userId))
  }

  /** GET /users/profile (UserController.java:43-58): `stored` is what
      `getProfileByUserId` answered; a missing profile reads as an empty one. */
  function GetProfile(userId: Option<int>, role: Option<string>, stored: Option<UserProfile>)
    : (r: Result<UserProfile, HttpError>)
    ensures UserCheck(userId, role).Fail? ==> r == Err(Refuse(UserCheck(userId, role).error))
    ensures UserCheck(userId, role).Pass? && stored.None? ==> r == Ok(EmptyProfile)
    ensures UserCheck(userId, role).Pass? && stored.Some? ==> r == Ok(stored.value)
  {
    match UserCheck(userId, role)
    case Fail(why) => Err(Refuse(why))
    case Pass => if stored.Some? then Ok(stored.value) else Ok(EmptyProfile)
  }

  /** POST /users/address (UserController.java:80-93, UserServiceImpl.java:35-38):
      the saved address belongs to the caller. `save` persists a body without
      an id under the next identity value and merges one with an id: a stored
      row with that id is overwritten in place, whoever it belonged to, and an
      id no row holds is inserted under a fresh identity value. */
  function AddAddress(t: AddressTable, userId: Option<int>, role: Option<string>, body: Address)
    : (r: Result<AddressSaved, HttpError>)
    ensures UserCheck(userId, role).Fail? ==> r == Err(Refuse(UserCheck(userId, role).error))
    ensures r.Ok? <==> UserCheck(userId, role).Pass?
    ensures r.Ok? ==> r.value.address.userId == userId && r.value.address.fields == body.fields
    ensures r.Ok? && NamesStoredAddress(t, body) ==>
              var k := FindAddress(t.rows, body.id.value).value;
              && r.value.address.id == body.id
              && r.value.table == t.(rows := t.rows[k := r.value.address])
    ensures r.Ok? && !NamesStoredAddress(t, body) ==>
              && r.value.address.id == Some(t.nextId)
              && r.value.table == AddressTable(t.rows + [r.value.address], t.nextId + 1)
  {
    match UserCheck(userId, role)
    case Fail(why) => Err(Refuse(why))
    case Pass =>
      if NamesStoredAddress(t, body) then
        var k := FindAddress(t.rows, body.id.value).value;
        var a := body.(userId := userId);
        Ok(AddressSaved(t.(rows := t.rows[k := a]), a))
      else
        var a := body.(id := Some(t.nextId), userId := userId);
        Ok(AddressSaved(AddressTable(t.rows + [a], t.nextId + 1), a))
  }

  /** GET /users/address (UserController.java:95-105): `findByUserId` with the
      header user id. */
  function GetAddresses(t: AddressTable, userId: Option<int>, role: Option<string>)
    : (r: Result<seq<Address>, HttpError>)
    ensures UserCheck(userId, role).Fail? ==> r == Err(Refuse(UserCheck(userId, role).error))
    ensures r.Ok? <==> UserCheck(userId, role).Pass?
    ensures r.Ok? ==> forall a :: a in r.value <==> a in t.rows && a.userId == userId
  {
    match UserCheck(userId, role)
    case Fail(why) => Err(Refuse(why))
    case Pass => Ok(Filter((a: Address) => a.userId == userId, t.rows))
  }

  /** PUT and POST /users/profile-full (UserController.java:107-140): the
      service is called with the header user id. */
  datatype ProfileAndAddressCall = ProfileAndAddressCall(userId: int, profile: UserProfile, address: Address)

  function SaveProfileAndAddress(userId: Option<int>, role: Option<string>, profile: UserProfile, address: Address)
    : (r: Result<ProfileAndAddressCall, HttpError>)
    ensures UserCheck(userId, role).Fail? ==> r == Err(Refuse(UserCheck(userId, role).error))
    ensures r.Ok? <==> UserCheck(userId, role).Pass?
    ensures r.Ok? ==> r.value == ProfileAndAddressCall(userId.value, profile, address)
  {
    match UserCheck(userId, role)
    case Fail(why) => Err(Refuse(why))
    case Pass => Ok(ProfileAndAddressCall(userId.value, profile, address))
  }

  /** An address added by a caller shows up in that caller's listing and
      adds nothing to any other caller's; a body without a stored id leaves
      every other caller's listing exactly as it was. */
  lemma AddedAddressListedForCallerOnly(t: AddressTable, userId: int, other: int, role: string, body: Address)
    requires UserCheck(Some(userId), Some(role)).Pass?
    requires other != userId
    ensures var added := AddAddress(t, Some(userId), Some(role), body).value;
            && added.address in GetAddresses(added.table, Some(userId), Some(role)).value
            && (forall a | a in GetAddresses(added.table, Some(other), Some(role)).value ::
                  a in GetAddresses(t, Some(other), Some(role)).value)
            && (!NamesStoredAddress(t, body) ==>
                  GetAddresses(added.table, Some(other), Some(role)).value
                  == GetAddresses(t, Some(other), Some(role)).value)
  {
    var added := AddAddress(t, Some(userId), Some(role), body).value;
    if NamesStoredAddress(t, body) {
      var k := FindAddress(t.rows, body.id.value).value;
      assert added.table.rows[k] == added.address;
      forall a | a in added.table.rows && a.userId == Some(other)
        ensures a in t.rows
      {
        var i :| 0 <= i < |added.table.rows| && added.table.rows[i] == a;
        assert i != k;
      }
    } else {
      assert added.table.rows[|t.rows|] == added.address;
      FilterAppend((a: Address) => a.userId == Some(other), t.rows, [added.address]);
    }
  }

  /** A body carrying the id of another user's stored address moves that row
      to the caller: it leaves the owner's listing and joins the caller's. */
  lemma BodyIdTakesOverAddress(t: AddressTable, userId: int, owner: int, role: string, body: Address)
    requires UniqueAddressIds(t)
    requires UserCheck(Some(userId), Some(role)).Pass?
    requires NamesStoredAddress(t, body)
    requires owner != userId && t.rows[FindAddress(t.rows, body.id.value).value].userId == Some(owner)
    ensures var k := FindAddress(t.rows, body.id.value).value;
            var added := AddAddress(t, Some(userId), Some(role), body).value;
            && added.address.id == t.rows[k].id
            && added.address in GetAddresses(added.table, Some(userId), Some(role)).value
            && t.rows[k] in GetAddresses(t, Some(owner), Some(role)).value
            && t.rows[k] !in GetAddresses(added.table, Some(owner), Some(role)).value
  {
    var k := FindAddress(t.rows, body.id.value).value;
    var added := AddAddress(t, Some(userId), Some(role), body).value;
    assert added.table.rows[k] == added.address;
    forall i | 0 <= i < |added.table.rows| && i != k
      ensures added.table.rows[i] != t.rows[k]
    {
      assert t.rows[i].id != t.rows[k].id;
    }
  }
}
