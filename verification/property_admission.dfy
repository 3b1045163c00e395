/** The property service's request filter (SecurityConfig.roleFilter): a pure
    decision over the HTTP method, the path and the two forwarded identity headers.
    It checks presence only; the only role it looks at is ADMIN. */
module PropertyAdmission {
  import opened Wrappers
  import opened Text

  datatype Request = Request(verb: string, path: string, userId: Option<string>, role: Option<string>)

  /** Pass the request on to the controllers, or answer it with a status. */
  datatype Decision = PassOn | Deny(status: int)

  /** `/properties/` followed by one or more ASCII digits, the whole path
      (`path.matches("/properties/\\d+")`). */
  predicate IsPropertyIdPath(path: string) {
    var prefix := "/properties/";
    StartsWith(path, prefix) && |path| > |prefix| && AllAsciiDigits(path[|prefix|..])
  }

  /** The browsing routes that need no identity when read with GET. */
  predicate IsPublicPath(path: string) {
    path == "/properties" || IsPropertyIdPath(path) || StartsWith(path, "/properties/search")
  }

  /** The moderation routes only ADMIN may use. */
  predicate IsAdminPath(path: string) {
    StartsWith(path, "/properties/admin") || EndsWith(path, "/approve") || EndsWith(path, "/reject")
  }

  /** `roleFilter().doFilterInternal` (SecurityConfig.java:55-129). */
  function RoleFilter(req: Request): (d: Decision)
    ensures req.verb == "OPTIONS" ==> d == PassOn
    ensures req.verb == "GET" && IsPublicPath(req.path) ==> d == PassOn
    ensures d == Deny(401) <==>
              && req.verb != "OPTIONS"
              && !(req.verb == "GET" && IsPublicPath(req.path))
              && (req.userId.None? || req.role.None?)
    ensures d == Deny(403) <==>
              && req.verb != "OPTIONS"
              && !(req.verb == "GET" && IsPublicPath(req.path))
              && req.userId.Some? && req.role.Some?
              && IsAdminPath(req.path) && req.role.value != "ADMIN"
    ensures d.Deny? ==> d.status == 401 || d.status == 403
  {
    if req.verb == "OPTIONS" then PassOn
    else if req.verb == "GET" && IsPublicPath(req.path) then PassOn
    else if req.userId.None? || req.role.None? then Deny(401)
    else if IsAdminPath(req.path) && req.role.value != "ADMIN" then Deny(403)
    else PassOn
  }

  /** Everything the filter lets through, in one closed form: preflight, a
      public GET, or both headers present with ADMIN wherever ADMIN is needed.
      The header values themselves are never checked. */
  lemma PassOnExactly(req: Request)
    ensures RoleFilter(req) == PassOn <==>
              || req.verb == "OPTIONS"
              || (req.verb == "GET" && IsPublicPath(req.path))
              || (req.userId.Some? && req.role.Some? && (!IsAdminPath(req.path) || req.role.value == "ADMIN"))
  {
  }

  /** A write to a path that is public for reads still needs the headers. */
  lemma WriteToPublicPathNeedsHeaders(verb: string, path: string)
    requires verb != "GET" && verb != "OPTIONS"
    requires IsPublicPath(path)
    ensures RoleFilter(Request(verb, path, None, None)) == Deny(401)
  {
  }

  /** The public check comes before the admin check: a GET to a search path
      ending in /approve passes with no identity at all. */
  lemma PublicCheckShadowsAdminCheck()
    ensures IsAdminPath("/properties/search/approve")
    ensures RoleFilter(Request("GET", "/properties/search/approve", None, None)) == PassOn
  {
    assert StartsWith("/properties/search/approve", "/properties/search");
    assert EndsWith("/properties/search/approve", "/approve");
  }

  /** Any non-empty header values pass presence, even a made-up role on a
      non-admin route. */
  lemma PresenceOnly(verb: string, path: string, userId: string, role: string)
    requires verb != "OPTIONS" && !IsAdminPath(path)
    ensures RoleFilter(Request(verb, path, Some(userId), Some(role))) == PassOn
  {
  }
}
