/** The frontend's route guards: the older `RoleRoute` (RoleRoute.jsx) and
    the `PrivateRoute` / `RoleRoute` pair that replaced it
    (ProtectedRoute.jsx). Each decides, from the session store, whether a page
    renders, waits, or navigates elsewhere. */
module RouteGuards {
  import opened Wrappers
  import opened Text
  import opened Js
  import opened AuthSlice

  /** The parts of the router location the guards read. */
  datatype Location = Location(pathname: string, search: string)

  /** What a guard renders: the "checking" placeholder, a `<Navigate replace>`
      to `to`, or the protected page. */
  datatype Guard = Waiting | Redirect(to: string) | Render

  const LoginPrefix: string := "/auth/login?redirect="
  const Home: string := "/"

  /** `Array.isArray(role) ? role[0] : role`; the first element of an empty
      array is `undefined`. */
  function NormalizeRole(role: RoleValue): (n: RoleValue)
    ensures !role.RoleList? ==> n == role
    ensures role.RoleList? && |role.items| > 0 ==> n == role.items[0]
    ensures role.RoleList? && |role.items| == 0 ==> n == NoRole
  {
    match role
    case RoleList(items) => if |items| > 0 then items[0] else NoRole
    case _ => role
  }

  /** JavaScript truthiness of a role value: any array is truthy, a string
      only when non-empty. */
  predicate RoleIsTruthy(role: RoleValue) {
    role.RoleList? || (role.RoleText? && role.text != "")
  }

  /** `allowedRoles.includes(role)`: only a string can equal a string. */
  predicate Includes(allowed: seq<string>, role: RoleValue) {
    role.RoleText? && role.text in allowed
  }

  /** The role test both `RoleRoute`s share: an empty list admits anyone;
      otherwise the normalised role must be present and listed. */
  predicate RoleAdmitted(role: RoleValue, allowed: seq<string>) {
    var n := NormalizeRole(role);
    !(|allowed| > 0 && (!RoleIsTruthy(n) || !Includes(allowed, n)))
  }

  /** The role test stated on the role itself. */
  lemma RoleAdmittedExactly(role: RoleValue, allowed: seq<string>)
    ensures RoleAdmitted(role, allowed) <==>
              || |allowed| == 0
              || (exists r | r in allowed && r != "" :: NormalizeRole(role) == RoleText(r))
  {
    var n := NormalizeRole(role);
    if |allowed| > 0 && n.RoleText? && n.text != "" && n.text in allowed {
      assert NormalizeRole(role) == RoleText(n.text);
    }
  }

  /** The redirect a logged-out visitor gets from ProtectedRoute.jsx: the
      whole location, URI-encoded. */
  function LoginRedirect(loc: Location): (to: string)
    ensures StartsWith(to, LoginPrefix)
    ensures forall i | |LoginPrefix| <= i < |to| :: IsUriSafe(to[i])
  {
    var value := EncodeUriComponent(loc.pathname + loc.search);
    assert (LoginPrefix + value)[..|LoginPrefix|] == LoginPrefix;
    LoginPrefix + value
  }

  /** The redirect loses nothing: two locations that send the visitor to the
      same login URL have the same path and query. */
  lemma LoginRedirectInjective(l1: Location, l2: Location)
    ensures LoginRedirect(l1) == LoginRedirect(l2) ==> l1.pathname + l1.search == l2.pathname + l2.search
  {
    if LoginRedirect(l1) == LoginRedirect(l2) {
      var e1 := EncodeUriComponent(l1.pathname + l1.search);
      var e2 := EncodeUriComponent(l2.pathname + l2.search);
      assert e1 == LoginRedirect(l1)[|LoginPrefix|..] == LoginRedirect(l2)[|LoginPrefix|..] == e2;
      EncodeUriComponentInjective(l1.pathname + l1.search, l2.pathname + l2.search);
    }
  }

  /** RoleRoute.jsx: no wait state, and the login redirect carries the bare
      pathname. */
  function LegacyRoleRoute(auth: AuthState, loc: Location, allowed: seq<string>): (g: Guard)
    ensures !IsLoggedIn(auth) ==> g == Redirect(LoginPrefix + loc.pathname)
    ensures IsLoggedIn(auth) && !RoleAdmitted(Role(auth), allowed) ==> g == Redirect(Home)
    ensures g == Render <==> IsLoggedIn(auth) && RoleAdmitted(Role(auth), allowed)
  {
    if !IsLoggedIn(auth) then Redirect(LoginPrefix + loc.pathname)
    else if !RoleAdmitted(Role(auth), allowed) then Redirect(Home)
    else Render
  }

  /** `PrivateRoute` (ProtectedRoute.jsx): wait for hydration, then demand a
      token. */
  function PrivateRoute(auth: AuthState, loc: Location): (g: Guard)
    ensures g == Waiting <==> !auth.loaded
    ensures auth.loaded && !IsLoggedIn(auth) ==> g == Redirect(LoginRedirect(loc))
    ensures g == Render <==> auth.loaded && IsLoggedIn(auth)
  {
    if !auth.loaded then Waiting
    else if !IsLoggedIn(auth) then Redirect(LoginRedirect(loc))
    else Render
  }

  /** `RoleRoute` (ProtectedRoute.jsx): wait, then demand a token, then an
      admitted role. */
  function ProtectedRoleRoute(auth: AuthState, loc: Location, allowed: seq<string>): (g: Guard)
    ensures g == Waiting <==> !auth.loaded
    ensures auth.loaded && !IsLoggedIn(auth) ==> g == Redirect(LoginRedirect(loc))
    ensures auth.loaded && IsLoggedIn(auth) && !RoleAdmitted(Role(auth), allowed) ==> g == Redirect(Home)
    ensures g == Render <==> auth.loaded && IsLoggedIn(auth) && RoleAdmitted(Role(auth), allowed)
  {
    if !auth.loaded then Waiting
    else if !IsLoggedIn(auth) then Redirect(LoginRedirect(loc))
    else if !RoleAdmitted(Role(auth), allowed) then Redirect(Home)
    else Render
  }

  /** `PrivateRoute` is `RoleRoute` with no role list. */
  lemma PrivateIsUnrestrictedRoleRoute(auth: AuthState, loc: Location)
    ensures PrivateRoute(auth, loc) == ProtectedRoleRoute(auth, loc, [])
  {
  }

  /** Once the store is hydrated the two `RoleRoute`s take the same decision;
      they differ only in the login target, which the newer one encodes and
      extends with the search string. */
  lemma RoleRoutesAgree(auth: AuthState, loc: Location, allowed: seq<string>)
    requires auth.loaded
    ensures LegacyRoleRoute(auth, loc, allowed) == Render <==> ProtectedRoleRoute(auth, loc, allowed) == Render
    ensures LegacyRoleRoute(auth, loc, allowed) == Redirect(Home) <==> ProtectedRoleRoute(auth, loc, allowed) == Redirect(Home)
    ensures LegacyRoleRoute(auth, loc, allowed) == Redirect(LoginPrefix + loc.pathname)
            <==> ProtectedRoleRoute(auth, loc, allowed) == Redirect(LoginRedirect(loc))
  {
    assert (LoginPrefix + loc.pathname)[..|LoginPrefix|] == LoginPrefix;
    assert Home != LoginPrefix + loc.pathname;
    assert Home != LoginRedirect(loc);
  }

  /** The older guard drops the query string from the page it sends the
      visitor back to. */
  lemma LegacyDropsSearch(auth: AuthState, path: string, search1: string, search2: string, allowed: seq<string>)
    ensures LegacyRoleRoute(auth, Location(path, search1), allowed)
            == LegacyRoleRoute(auth, Location(path, search2), allowed)
  {
  }

  /** An array-valued role is judged by its first element alone; an empty
      array, or one whose first element is itself an array, passes only an
      unrestricted guard. */
  lemma ArrayRoleUsesFirst(first: RoleValue, rest: seq<RoleValue>, allowed: seq<string>)
    ensures !first.RoleList? ==> (RoleAdmitted(RoleList([first] + rest), allowed) <==> RoleAdmitted(first, allowed))
    ensures first.RoleList? ==> (RoleAdmitted(RoleList([first] + rest), allowed) <==> |allowed| == 0)
    ensures RoleAdmitted(RoleList([]), allowed) <==> |allowed| == 0
  {
    assert ([first] + rest)[0] == first;
  }

  /** A session restored with an ADMIN role passes an ADMIN-only guard; a
      CUSTOMER one is sent home. */
  lemma AdminOnlyRoute(auth: AuthState, loc: Location)
    requires auth.loaded && IsLoggedIn(auth)
    ensures IsAdmin(auth) ==> ProtectedRoleRoute(auth, loc, [Admin]) == Render
    ensures IsCustomer(auth) ==> ProtectedRoleRoute(auth, loc, [Admin]) == Redirect(Home)
  {
    if IsCustomer(auth) {
      assert Customer !in [Admin];
    }
  }

  /** Logging out sends every protected page to the login screen (the store
      stays hydrated); logging in opens every page a `PrivateRoute` guards. */
  lemma SessionOpensAndClosesRoutes(auth: AuthState, loc: Location, payload: AuthPayload, reason: Option<string>, allowed: seq<string>)
    requires auth.loaded
    requires IsTruthyText(payload.token) && payload.user.Some?
    ensures ProtectedRoleRoute(ClearAuth(auth, reason), loc, allowed) == Redirect(LoginRedirect(loc))
    ensures PrivateRoute(SetAuth(auth, Some(payload)), loc) == Render
  {
  }
}
