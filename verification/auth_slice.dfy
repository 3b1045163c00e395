/** The frontend's session store (authSlice.js): the state hydrated from
    local storage, its reducers and its selectors. The local-storage writes the
    reducers also make are not part of the model; only the state is. */
module AuthSlice {
  import opened Wrappers
  import opened Js

  /** A role as the store may hold it: absent, a string, or an array of roles. */
  datatype RoleValue = NoRole | RoleText(text: string) | RoleList(items: seq<RoleValue>)

  datatype User = User(id: JsNumber, role: RoleValue)

  /** The slice state. The two badge counters are JavaScript numbers that are
      never NaN (every write guards with `|| 0`). */
  datatype AuthState = AuthState(
    token: Option<string>,
    user: Option<User>,
    loaded: bool,
    pendingCount: real,
    savedCount: real,
    logoutReason: Option<string>)

  const Customer: string := "CUSTOMER"
  const Admin: string := "ADMIN"
  const ManualLogout: string := "manual"

  /** JavaScript truthiness of a string that may be null: null and "" are falsy. */
  predicate IsTruthyText(s: Option<string>) {
    s.Some? && s.value != ""
  }

  /** `Number(x) || 0` for a value that is a number already. */
  function OrZero(n: JsNumber): real {
    if NumberIsTruthy(n) then n.value else 0.0
  }

  /** What `safeGet` reads from local storage: `None` for a missing key or an
      unreadable store. */
  datatype Storage = Storage(token: Option<string>, userId: Option<string>, role: Option<string>, savedCount: Option<string>)

  predicate HasSession(storage: Storage) {
    IsTruthyText(storage.token) && IsTruthyText(storage.userId) && IsTruthyText(storage.role)
  }

  /** The initial state (authSlice.js:15-56). `toNumber` is JavaScript's
      `Number()` on a stored string. */
  function InitialState(storage: Storage, toNumber: string -> JsNumber): (s: AuthState)
    ensures s.token.Some? <==> HasSession(storage)
    ensures s.user.Some? <==> HasSession(storage)
    ensures HasSession(storage) ==>
              && s.token == storage.token
              && s.user == Some(User(toNumber(storage.userId.value), RoleText(storage.role.value)))
    ensures s.loaded && s.pendingCount == 0.0 && s.logoutReason.None?
    ensures !(HasSession(storage) && storage.role == Some(Customer)) ==> s.savedCount == 0.0
    ensures HasSession(storage) && storage.role == Some(Customer) && storage.savedCount.Some? ==>
              s.savedCount == OrZero(toNumber(storage.savedCount.value))
    ensures HasSession(storage) && storage.role == Some(Customer) && storage.savedCount.None? ==>
              s.savedCount == 0.0
  {
    var session := HasSession(storage);
    var stored := if storage.savedCount.Some? then OrZero(toNumber(storage.savedCount.value)) else 0.0;
    AuthState(
      if session then storage.token else None,
      if session then Some(User(toNumber(storage.userId.value), RoleText(storage.role.value))) else None,
      true,
      0.0,
      if session && storage.role == Some(Customer) then stored else 0.0,
      None)
  }

  datatype AuthPayload = AuthPayload(token: Option<string>, user: Option<User>)

  /** `setAuth` (authSlice.js:66-86). */
  function SetAuth(s: AuthState, payload: Option<AuthPayload>): (r: AuthState)
    ensures (payload.None? || !IsTruthyText(payload.value.token) || payload.value.user.None?) ==> r == s
    ensures (payload.Some? && IsTruthyText(payload.value.token) && payload.value.user.Some?) ==>
              && r.token == payload.value.token && r.user == payload.value.user
              && r.loaded && r.logoutReason.None?
              && r.pendingCount == s.pendingCount
              && r.savedCount == (if payload.value.user.value.role == RoleText(Customer) then s.savedCount else 0.0)
  {
    if payload.None? || !IsTruthyText(payload.value.token) || payload.value.user.None? then s
    else
      var user := payload.value.user.value;
      var next := s.(token := payload.value.token, user := Some(user), loaded := true, logoutReason := None);
      if user.role != RoleText(Customer) then next.(savedCount := 0.0) else next
  }

  /** `setUser` (authSlice.js:88-103): never touches the token. */
  function SetUser(s: AuthState, payload: Option<User>): (r: AuthState)
    ensures r.token == s.token && r.pendingCount == s.pendingCount && r.logoutReason == s.logoutReason
    ensures payload.None? ==> r == s
    ensures payload.Some? ==>
              && r.user == payload && r.loaded
              && r.savedCount == (if payload.value.role == RoleText(Customer) then s.savedCount else 0.0)
  {
    if payload.None? then s
    else
      var next := s.(user := payload, loaded := true);
      if payload.value.role != RoleText(Customer) then next.(savedCount := 0.0) else next
  }

  /** `clearAuth` (authSlice.js:105-117): the reason, or "manual" when it is
      missing or empty. */
  function ClearAuth(s: AuthState, reason: Option<string>): (r: AuthState)
    ensures r.token.None? && r.user.None?
    ensures r.pendingCount == 0.0 && r.savedCount == 0.0
    ensures r.loaded == s.loaded
    ensures r.logoutReason == Some(if IsTruthyText(reason) then reason.value else ManualLogout)
  {
    s.(token := None, user := None, pendingCount := 0.0, savedCount := 0.0,
       logoutReason := Some(if IsTruthyText(reason) then reason.value else ManualLogout))
  }

  /** `setPendingCount` (authSlice.js:123-125): `payload || 0`; `None` is an
      undefined or null payload. */
  function SetPendingCount(s: AuthState, payload: Option<JsNumber>): (r: AuthState)
    ensures r == s.(pendingCount := r.pendingCount)
    ensures payload.None? || !NumberIsTruthy(payload.value) ==> r.pendingCount == 0.0
    ensures payload.Some? && NumberIsTruthy(payload.value) ==> r.pendingCount == payload.value.value
  {
    s.(pendingCount := if payload.Some? then OrZero(payload.value) else 0.0)
  }

  /** `decrementPendingCount` (authSlice.js:127-131). */
  function DecrementPendingCount(s: AuthState): (r: AuthState)
    ensures s.pendingCount <= 0.0 ==> r == s
    ensures s.pendingCount > 0.0 ==> r == s.(pendingCount := s.pendingCount - 1.0)
  {
    if s.pendingCount > 0.0 then s.(pendingCount := s.pendingCount - 1.0) else s
  }

  /** `setSavedCount` (authSlice.js:137-145); `payload` is `Number(action.payload)`. */
  function SetSavedCount(s: AuthState, payload: JsNumber): (r: AuthState)
    ensures r == s.(savedCount := r.savedCount)
    ensures !NumberIsTruthy(payload) ==> r.savedCount == 0.0
    ensures NumberIsTruthy(payload) ==> r.savedCount == payload.value
  {
    s.(savedCount := OrZero(payload))
  }

  /** `incrementSavedCount` (authSlice.js:147-154). */
  function IncrementSavedCount(s: AuthState): (r: AuthState)
    ensures r == s.(savedCount := s.savedCount + 1.0)
  {
    s.(savedCount := s.savedCount + 1.0)
  }

  /** `decrementSavedCount` (authSlice.js:156-165). */
  function DecrementSavedCount(s: AuthState): (r: AuthState)
    ensures s.savedCount <= 0.0 ==> r == s
    ensures s.savedCount > 0.0 ==> r == s.(savedCount := s.savedCount - 1.0)
  {
    if s.savedCount > 0.0 then s.(savedCount := s.savedCount - 1.0) else s
  }

  /* ---------- Selectors (authSlice.js:173-196) ---------- */

  predicate IsLoggedIn(s: AuthState) {
    IsTruthyText(s.token)
  }

  /** `state.auth.user?.role`. */
  function Role(s: AuthState): RoleValue {
    if s.user.Some? then s.user.value.role else NoRole
  }

  predicate IsAdmin(s: AuthState) {
    Role(s) == RoleText(Admin)
  }

  predicate IsCustomer(s: AuthState) {
    Role(s) == RoleText(Customer)
  }

  /* ---------- The reducer as a whole ---------- */

  datatype Action =
    | SetAuthAction(auth: Option<AuthPayload>)
    | SetUserAction(user: Option<User>)
    | ClearAuthAction(reason: Option<string>)
    | SetPendingCountAction(pending: Option<JsNumber>)
    | DecrementPendingCountAction
    | SetSavedCountAction(saved: JsNumber)
    | IncrementSavedCountAction
    | DecrementSavedCountAction

  function Reduce(s: AuthState, a: Action): AuthState {
    match a
    case SetAuthAction(p) => SetAuth(s, p)
    case SetUserAction(u) => SetUser(s, u)
    case ClearAuthAction(why) => ClearAuth(s, why)
    case SetPendingCountAction(n) => SetPendingCount(s, n)
    case DecrementPendingCountAction => DecrementPendingCount(s)
    case SetSavedCountAction(n) => SetSavedCount(s, n)
    case IncrementSavedCountAction => IncrementSavedCount(s)
    case DecrementSavedCountAction => DecrementSavedCount(s)
  }

  function ReduceAll(s: AuthState, actions: seq<Action>): AuthState
    decreases |actions|
  {
    if |actions| == 0 then s else ReduceAll(Reduce(s, actions[0]), actions[1..])
  }

  /** A count a badge can show: a whole number, not below zero. */
  predicate IsCount(x: real) {
    x >= 0.0 && x == x.Floor as real
  }

  predicate CountsAreCounts(s: AuthState) {
    IsCount(s.pendingCount) && IsCount(s.savedCount)
  }

  /** A number payload that is NaN or a count. */
  predicate CountPayload(n: JsNumber) {
    n.NaN? || IsCount(n.value)
  }

  /** The count-setting actions carry counts (the server's badge numbers). */
  predicate CountPayloads(a: Action) {
    && (a.SetPendingCountAction? && a.pending.Some? ==> CountPayload(a.pending.value))
    && (a.SetSavedCountAction? ==> CountPayload(a.saved))
  }

  /** Decrementing a count never goes below zero, and is a no-op at zero. */
  lemma DecrementKeepsCount(x: real)
    requires IsCount(x)
    ensures x > 0.0 ==> IsCount(x - 1.0)
    ensures !(x > 0.0) ==> x == 0.0
  {
    if x > 0.0 {
      var n := x.Floor;
      assert n >= 1;
      assert x - 1.0 == (n - 1) as real;
    }
  }

  lemma ReduceKeepsCounts(s: AuthState, a: Action)
    requires CountsAreCounts(s) && CountPayloads(a)
    ensures CountsAreCounts(Reduce(s, a))
  {
    match a
    case SetAuthAction(p) =>
      var r := SetAuth(s, p);
      assert r.pendingCount == s.pendingCount && (r.savedCount == s.savedCount || r.savedCount == 0.0);
    case SetUserAction(u) =>
      var r := SetUser(s, u);
      assert r.savedCount == s.savedCount || r.savedCount == 0.0;
    case ClearAuthAction(_) =>
    case SetPendingCountAction(_) =>
    case DecrementPendingCountAction => DecrementKeepsCount(s.pendingCount);
    case SetSavedCountAction(_) =>
    case DecrementSavedCountAction => DecrementKeepsCount(s.savedCount);
    case IncrementSavedCountAction =>
      assert s.savedCount + 1.0 == (s.savedCount.Floor + 1) as real;
  }

  /** Badge counters stay whole and non-negative through any run of actions
      whose count payloads are counts. */
  lemma {:induction false} ReduceAllKeepsCounts(s: AuthState, actions: seq<Action>)
    requires CountsAreCounts(s)
    requires forall i | 0 <= i < |actions| :: CountPayloads(actions[i])
    ensures CountsAreCounts(ReduceAll(s, actions))
    decreases |actions|
  {
    if |actions| > 0 {
      ReduceKeepsCounts(s, actions[0]);
      ReduceAllKeepsCounts(Reduce(s, actions[0]), actions[1..]);
    }
  }

  /** ... but the setters store whatever number they are given: a negative
      payload makes a negative badge. */
  lemma NegativePayloadIsStored(s: AuthState)
    ensures SetSavedCount(s, Num(-1.0)).savedCount == -1.0
    ensures !CountsAreCounts(SetSavedCount(s, Num(-1.0)))
  {
  }

  /** A successful setAuth logs the user in; clearAuth logs out and drops
      admin rights, whatever came before. */
  lemma SessionSelectors(s: AuthState, payload: AuthPayload, reason: Option<string>)
    requires IsTruthyText(payload.token) && payload.user.Some?
    ensures IsLoggedIn(SetAuth(s, Some(payload)))
    ensures IsAdmin(SetAuth(s, Some(payload))) <==> payload.user.value.role == RoleText(Admin)
    ensures !IsLoggedIn(ClearAuth(s, reason)) && !IsAdmin(ClearAuth(s, reason))
    ensures !IsLoggedIn(ClearAuth(SetAuth(s, Some(payload)), reason))
  {
  }

  /** A stored CUSTOMER session keeps its saved-properties badge; a stored
      ADMIN session starts at zero. */
  lemma HydratedBadge(token: string, userId: string, saved: string, toNumber: string -> JsNumber)
    requires token != "" && userId != ""
    ensures InitialState(Storage(Some(token), Some(userId), Some(Customer), Some(saved)), toNumber).savedCount
            == OrZero(toNumber(saved))
    ensures InitialState(Storage(Some(token), Some(userId), Some(Admin), Some(saved)), toNumber).savedCount == 0.0
    ensures IsAdmin(InitialState(Storage(Some(token), Some(userId), Some(Admin), Some(saved)), toNumber))
  {
  }
}
