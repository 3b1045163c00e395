/** The gateway's global filter (JwtAuthenticationFilter.java): public routes
    pass untouched; every other route needs an `Authorization: Bearer <token>`
    header (section 2.1 of RFC 6750), whose token must validate, and the
    token's userId and role claims are forwarded as X-USER-ID and X-USER-ROLE.
    Token validation (signature and expiry, RFC 7519) is an oracle: a function
    from the token text to its claims, or to nothing when it is refused. */
module JwtGateway {
  import opened Wrappers
  import opened Text
  import Admission = PropertyAdmission

  /** Request headers by name, each with its values in order. */
  type Headers = map<string, seq<string>>

  datatype GatewayRequest = GatewayRequest(path: string, headers: Headers)

  /** The claims of a validated token, each value as its `toString()`. */
  type Claims = map<string, string>

  datatype GatewayOutcome = Forward(request: GatewayRequest) | Unauthorized

  const AuthorizationHeader: string := "Authorization"
  const UserIdHeader: string := "X-USER-ID"
  const RoleHeader: string := "X-USER-ROLE"
  const BearerPrefix: string := "Bearer "

  /** The routes that need no token, for every method: plain string prefixes,
      not path segments, so `/authx` and `/swaggerfoo` are public too. */
  predicate IsPublicRoute(path: string) {
    || StartsWith(path, "/auth")
    || path == "/properties"
    || StartsWith(path, "/properties/search")
    || Admission.IsPropertyIdPath(path)
    || StartsWith(path, "/swagger")
    || StartsWith(path, "/v3/api-docs")
  }

  /** `HttpHeaders.getFirst`: the first value under the name, if any. */
  function FirstHeader(headers: Headers, name: string): Option<string> {
    if name in headers && |headers[name]| > 0 then Some(headers[name][0]) else None
  }

  /** The token of a `Bearer` credential: the header text after its first seven
      characters, when it starts with the case-sensitive prefix "Bearer ". */
  function BearerToken(authorization: Option<string>): (r: Option<string>)
    ensures r.Some? <==> authorization.Some? && StartsWith(authorization.value, BearerPrefix)
    ensures r.Some? ==> authorization.value == BearerPrefix + r.value
  {
    if authorization.Some? && StartsWith(authorization.value, BearerPrefix)
    then
      var h := authorization.value;
      assert h == h[..7] + h[7..];
      Some(h[7..])
    else None
  }

  /** `header(name, value)` on the request builder: sets the header to the one
      value, replacing whatever the client sent. */
  function SetHeader(headers: Headers, name: string, value: string): Headers {
    headers[name := [value]]
  }

  /** `filter(exchange, chain)` (JwtAuthenticationFilter.java:24-100). */
  function GatewayFilter(req: GatewayRequest, verify: string -> Option<Claims>): (o: GatewayOutcome)
    ensures IsPublicRoute(req.path) ==> o == Forward(req)
    ensures (!IsPublicRoute(req.path) && BearerToken(FirstHeader(req.headers, AuthorizationHeader)).None?)
              ==> o == Unauthorized
    ensures o.Forward? && !IsPublicRoute(req.path) ==>
              var token := BearerToken(FirstHeader(req.headers, AuthorizationHeader));
              && token.Some?
              && verify(token.value).Some?
              && var claims := verify(token.value).value;
                 && "userId" in claims && "role" in claims
                 && o.request.path == req.path
                 && o.request.headers
                    == SetHeader(SetHeader(req.headers, UserIdHeader, claims["userId"]), RoleHeader, claims["role"])
    ensures (!IsPublicRoute(req.path) && BearerToken(FirstHeader(req.headers, AuthorizationHeader)).Some?
             && var claims := verify(BearerToken(FirstHeader(req.headers, AuthorizationHeader)).value);
                claims.None? || "userId" !in claims.value || "role" !in claims.value)
              ==> o == Unauthorized
    ensures (!IsPublicRoute(req.path) && BearerToken(FirstHeader(req.headers, AuthorizationHeader)).Some?
             && var claims := verify(BearerToken(FirstHeader(req.headers, AuthorizationHeader)).value);
                claims.Some? && "userId" in claims.value && "role" in claims.value)
              ==> o.Forward?
  {
    if IsPublicRoute(req.path) then Forward(req)
    else match BearerToken(FirstHeader(req.headers, AuthorizationHeader))
      case None => Unauthorized
      case Some(token) =>
        match verify(token)
        case None => Unauthorized
        case Some(claims) =>
          if "userId" !in claims || "role" !in claims then Unauthorized
          else
            var headers := SetHeader(SetHeader(req.headers, UserIdHeader, claims["userId"]), RoleHeader, claims["role"]);
            Forward(req.(headers := headers))
  }

  /** The bearer extraction inverts the header format. */
  lemma BearerRoundTrip(token: string)
    ensures BearerToken(Some(BearerPrefix + token)) == Some(token)
  {
    assert StartsWith(BearerPrefix + token, BearerPrefix) by {
      assert (BearerPrefix + token)[..|BearerPrefix|] == BearerPrefix;
    }
  }

  /** The scheme name is matched case-sensitively: "bearer " is refused. */
  lemma LowerCaseSchemeRefused(token: string)
    ensures BearerToken(Some("bearer " + token)).None?
  {
    assert ("bearer " + token)[0] == 'b';
  }

  /* ---------- What the property service sees ---------- */

  /** The property service's view of a forwarded request. */
  function ServiceRequest(verb: string, req: GatewayRequest): Admission.Request {
    Admission.Request(verb, req.path, FirstHeader(req.headers, UserIdHeader), FirstHeader(req.headers, RoleHeader))
  }

  /** Every route the property service serves without identity is public at
      the gateway too. */
  lemma ServicePublicIsGatewayPublic(path: string)
    ensures Admission.IsPublicPath(path) ==> IsPublicRoute(path)
  {
  }

  /** On a protected route, what reaches the property service always carries
      both headers, set from the token's claims, so its 401 cannot fire and its
      admin check sees the token's role. */
  lemma ProtectedForwardCarriesClaims(verb: string, req: GatewayRequest, verify: string -> Option<Claims>)
    requires !IsPublicRoute(req.path)
    requires GatewayFilter(req, verify).Forward?
    ensures var fwd := ServiceRequest(verb, GatewayFilter(req, verify).request);
            var claims := verify(BearerToken(FirstHeader(req.headers, AuthorizationHeader)).value).value;
            && fwd.userId == Some(claims["userId"])
            && fwd.role == Some(claims["role"])
            && Admission.RoleFilter(fwd) != Admission.Deny(401)
  {
  }

  /** On a public route the gateway forwards client-supplied identity headers
      as they are, so a request without any token that claims ADMIN gets past
      both filters to an admin-only path. */
  lemma ForgedIdentityOnPublicRoute(verify: string -> Option<Claims>)
    ensures var path := "/properties/search/approve";
            var req := GatewayRequest(path, map[UserIdHeader := ["1"], RoleHeader := ["ADMIN"]]);
            && Admission.IsAdminPath(path)
            && GatewayFilter(req, verify) == Forward(req)
            && Admission.RoleFilter(ServiceRequest("PUT", req)) == Admission.PassOn
  {
    var path := "/properties/search/approve";
    assert StartsWith(path, "/properties/search");
    assert EndsWith(path, "/approve");
  }
}
