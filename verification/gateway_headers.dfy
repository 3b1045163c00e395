/** The trust checks each backend applies to the identity the gateway forwards
    in the `X-USER-ID` and `X-USER-ROLE` headers. The three services check the
    same pair differently; the lemmas at the end pin the differences down. */
module GatewayHeaders {
  import opened Wrappers

  const CustomerRole: string := "CUSTOMER"
  const AdminRole: string := "ADMIN"

  /** Why a service refused the forwarded identity. */
  datatype Rejection = MissingHeaders | InvalidRole

  /** One of the two roles the system issues. */
  predicate IsKnownRole(role: string) {
    role == CustomerRole || role == AdminRole
  }

  /** The cart service: a missing user id or a null or empty role is a missing
      header; any other role than CUSTOMER or ADMIN is invalid. */
  function CartCheck(userId: Option<int>, role: Option<string>): (r: Outcome<Rejection>)
    ensures r.Pass? <==> userId.Some? && role.Some? && IsKnownRole(role.value)
    ensures r.Fail? && r.error == InvalidRole ==> role.Some? && role.value != ""
  {
    if userId.None? || role.None? || role.value == "" then Fail(MissingHeaders)
    else if !IsKnownRole(role.value) then Fail(InvalidRole)
    else Pass
  }

  /** The current enquiry service: presence only, any non-empty role passes. */
  function EnquiryCheck(userId: Option<int>, role: Option<string>): (r: Outcome<Rejection>)
    ensures r.Pass? <==> userId.Some? && role.Some? && role.value != ""
    ensures r.Fail? ==> r.error == MissingHeaders
  {
    if userId.None? || role.None? || role.value == "" then Fail(MissingHeaders)
    else Pass
  }

  /** The user service: only a null user id or a null role is a missing header;
      the empty role is treated like any other unknown role. */
  function UserCheck(userId: Option<int>, role: Option<string>): (r: Outcome<Rejection>)
    ensures r.Pass? <==> userId.Some? && role.Some? && IsKnownRole(role.value)
    ensures r.Fail? && r.error == MissingHeaders <==> userId.None? || role.None?
  {
    if userId.None? || role.None? then Fail(MissingHeaders)
    else if !IsKnownRole(role.value) then Fail(InvalidRole)
    else Pass
  }

  /** The HTTP status the user service answers each rejection with. */
  function UserRejectionStatus(why: Rejection): (status: int)
    ensures why == MissingHeaders <==> status == 401
    ensures why == InvalidRole <==> status == 403
  {
    match why
    case MissingHeaders => 401
    case InvalidRole => 403
  }

  /** The cart and user services admit exactly the same header pairs. */
  lemma CartAndUserAdmitTheSame(userId: Option<int>, role: Option<string>)
    ensures CartCheck(userId, role).Pass? <==> UserCheck(userId, role).Pass?
  {
  }

  /** ... but they classify an empty role differently: missing for the cart
      service, an invalid role (403) for the user service. */
  lemma EmptyRoleClassifiedDifferently(userId: int)
    ensures CartCheck(Some(userId), Some("")) == Fail(MissingHeaders)
    ensures EnquiryCheck(Some(userId), Some("")) == Fail(MissingHeaders)
    ensures UserCheck(Some(userId), Some("")) == Fail(InvalidRole)
    ensures UserRejectionStatus(UserCheck(Some(userId), Some("")).error) == 403
  {
  }

  /** Whatever the cart service admits, the enquiry service admits too, and the
      enquiry service also admits any unknown non-empty role. */
  lemma EnquiryAdmitsMore(userId: Option<int>, role: Option<string>)
    ensures CartCheck(userId, role).Pass? ==> EnquiryCheck(userId, role).Pass?
    ensures EnquiryCheck(userId, role).Pass? && !IsKnownRole(role.value) ==>
              CartCheck(userId, role) == Fail(InvalidRole)
              && UserCheck(userId, role) == Fail(InvalidRole)
  {
  }
}
