/** The session store: the in-memory token/user pair, the two storage keys
    that persist them, login, logout, the derived `isAuthenticated`, and
    the two-phase rehydration run once at start-up. */
module AuthContext {
  import opened Common
  import opened Types
  import Api

  /** What `JSON.parse` makes of a stored user: it throws, yields `null`,
      or yields a user object. */
  datatype JsonUser = Malformed | JsonNull | JsonObject(user: User)

  datatype AuthState = AuthState(token: Option<string>, user: Option<User>, isLoading: bool, stored: Storage)

  /** The provider as first mounted over whatever storage holds. */
  function Initial(stored: Storage): AuthState {
    AuthState(None, None, true, stored)
  }

  /** `!!token && !!user`: an object user is always truthy. */
  predicate IsAuthenticated(s: AuthState) {
    Truthy(s.token) && s.user.Some?
  }

  /** Both session keys are absent from storage. */
  predicate StorageCleared(stored: Storage) {
    AuthTokenKey !in stored && UserKey !in stored
  }

  function Logout(s: AuthState): (r: AuthState)
    ensures r.token.None? && r.user.None? && !IsAuthenticated(r)
    ensures StorageCleared(r.stored)
    ensures forall k :: k in s.stored && k != AuthTokenKey && k != UserKey ==> k in r.stored && r.stored[k] == s.stored[k]
    ensures r.stored.Keys == s.stored.Keys - {AuthTokenKey, UserKey}
    ensures r.isLoading == s.isLoading
  {
    AuthState(None, None, s.isLoading, s.stored - {AuthTokenKey, UserKey})
  }

  lemma LogoutIdempotent(s: AuthState)
    ensures Logout(Logout(s)) == Logout(s)
  {
  }

  const LoginFailedMessage: string := "Login failed"

  /** The state after a login attempt and the message of the error it
      throws, if it throws. */
  datatype LoginStep = LoginStep(state: AuthState, thrown: Option<string>)

  function Login(s: AuthState, reply: Reply<AuthResponse>, serialize: User -> string): (r: LoginStep)
    ensures reply.Ok? ==>
              && r.thrown.None?
              && r.state.token == Some(reply.value.token)
              && r.state.user == Some(reply.value.user)
              && r.state.stored == s.stored[AuthTokenKey := reply.value.token][UserKey := serialize(reply.value.user)]
              && r.state.isLoading == s.isLoading
    ensures reply.Failed? ==>
              && r.state == s
              && r.thrown.Some? && r.thrown.value != ""
    ensures reply.Failed? && Truthy(reply.serverError) ==> r.thrown == reply.serverError
    ensures reply.Failed? && !Truthy(reply.serverError) ==> r.thrown == Some(LoginFailedMessage)
  {
    match reply
    case Ok(response) =>
      LoginStep(
        s.(token := Some(response.token), user := Some(response.user),
           stored := s.stored[AuthTokenKey := response.token][UserKey := serialize(response.user)]),
        None)
    case Failed(_, serverError) =>
      LoginStep(s, Some(OrElse(serverError, LoginFailedMessage)))
  }

  /** A login that returns a non-empty token authenticates the session. */
  lemma LoginAuthenticates(s: AuthState, response: AuthResponse, serialize: User -> string)
    ensures IsAuthenticated(Login(s, Ok(response), serialize).state) <==> response.token != ""
  {
  }

  // ---------------------------------------------------------------------
  // Rehydration

  /** The state after the synchronous first phase, and whether the profile
      request that verifies the stored token was issued. */
  datatype Boot = Boot(state: AuthState, verifying: bool)

  /** First phase: with both keys stored and non-empty, adopt them at once
      (a user that fails to parse means logout); otherwise stop loading. */
  function RehydrateStart(s: AuthState, parse: string -> JsonUser): (r: Boot)
    ensures !(Truthy(GetItem(s.stored, AuthTokenKey)) && Truthy(GetItem(s.stored, UserKey))) ==>
              r == Boot(s.(isLoading := false), false)
    ensures Truthy(GetItem(s.stored, AuthTokenKey)) && Truthy(GetItem(s.stored, UserKey)) ==>
              match parse(s.stored[UserKey])
              case Malformed => r == Boot(Logout(s).(isLoading := false), false)
              case JsonNull => r.verifying && r.state == s.(token := Some(s.stored[AuthTokenKey]), user := None)
              case JsonObject(u) => r.verifying && r.state == s.(token := Some(s.stored[AuthTokenKey]), user := Some(u))
  {
    var storedToken := GetItem(s.stored, AuthTokenKey);
    var storedUser := GetItem(s.stored, UserKey);
    if Truthy(storedToken) && Truthy(storedUser) then
      var adopted := s.(token := storedToken);
      match parse(storedUser.value)
      case Malformed => Boot(Logout(adopted).(isLoading := false), false)
      case JsonNull => Boot(adopted.(user := None), true)
      case JsonObject(u) => Boot(adopted.(user := Some(u)), true)
    else
      Boot(s.(isLoading := false), false)
  }

  /** Second phase: the profile reply either refreshes and re-stores the
      user or logs out; loading ends either way. */
  function RehydrateFinish(s: AuthState, profile: Reply<User>, serialize: User -> string): (r: AuthState)
    ensures !r.isLoading
    ensures profile.Ok? ==>
              && r.user == Some(profile.value) && r.token == s.token
              && r.stored == s.stored[UserKey := serialize(profile.value)]
    ensures profile.Failed? ==> r == Logout(s).(isLoading := false)
  {
    match profile
    case Ok(u) => s.(user := Some(u), stored := s.stored[UserKey := serialize(u)], isLoading := false)
    case Failed(_, _) => Logout(s).(isLoading := false)
  }

  /** Both phases, the second only when the first issued the request. */
  function Rehydrate(s: AuthState, parse: string -> JsonUser, profile: Reply<User>, serialize: User -> string): AuthState {
    var boot := RehydrateStart(s, parse);
    if boot.verifying then RehydrateFinish(boot.state, profile, serialize) else boot.state
  }

  /** With either key missing or empty, start-up ends unauthenticated,
      not loading, with storage untouched. */
  lemma RehydrateWithoutSession(stored: Storage, parse: string -> JsonUser, profile: Reply<User>, serialize: User -> string)
    requires !Truthy(GetItem(stored, AuthTokenKey)) || !Truthy(GetItem(stored, UserKey))
    ensures var r := Rehydrate(Initial(stored), parse, profile, serialize);
            !IsAuthenticated(r) && !r.isLoading && r.stored == stored
  {
  }

  /** A stored user that does not parse ends in logout, not loading. */
  lemma RehydrateCorruptUser(stored: Storage, parse: string -> JsonUser, profile: Reply<User>, serialize: User -> string)
    requires Truthy(GetItem(stored, AuthTokenKey)) && Truthy(GetItem(stored, UserKey))
    requires parse(stored[UserKey]) == Malformed
    ensures var r := Rehydrate(Initial(stored), parse, profile, serialize);
            !IsAuthenticated(r) && !r.isLoading && StorageCleared(r.stored)
  {
  }

  /** With a parsable stored user the session is authenticated after the
      first phase, still loading while the profile request is out. */
  lemma RehydrateOptimistic(stored: Storage, parse: string -> JsonUser)
    requires Truthy(GetItem(stored, AuthTokenKey)) && Truthy(GetItem(stored, UserKey))
    requires parse(stored[UserKey]).JsonObject?
    ensures var b := RehydrateStart(Initial(stored), parse);
            IsAuthenticated(b.state) && b.verifying && b.state.isLoading
            && b.state.token == Some(stored[AuthTokenKey])
  {
  }

  /** The profile verdict decides: success keeps the session with the
      refreshed user, failure logs out. */
  lemma RehydrateVerdict(stored: Storage, parse: string -> JsonUser, profile: Reply<User>, serialize: User -> string)
    requires Truthy(GetItem(stored, AuthTokenKey)) && Truthy(GetItem(stored, UserKey))
    requires !parse(stored[UserKey]).Malformed?
    ensures var r := Rehydrate(Initial(stored), parse, profile, serialize);
            && !r.isLoading
            && (profile.Ok? ==> IsAuthenticated(r) && r.user == Some(profile.value)
                                && r.stored[UserKey] == serialize(profile.value))
            && (profile.Failed? ==> !IsAuthenticated(r) && StorageCleared(r.stored))
  {
  }

  /** What login persists, a reload restores: when the user serialization
      parses back, the next start-up adopts the same token and user. */
  lemma LoginSurvivesReload(s: AuthState, response: AuthResponse, parse: string -> JsonUser, serialize: User -> string)
    requires response.token != "" && serialize(response.user) != ""
    requires parse(serialize(response.user)) == JsonObject(response.user)
    ensures var after := Login(s, Ok(response), serialize).state;
            var b := RehydrateStart(Initial(after.stored), parse);
            b.verifying && b.state.token == after.token && b.state.user == after.user
            && IsAuthenticated(b.state)
  {
  }

  /** After logout a reload starts unauthenticated without asking the
      server. */
  lemma LogoutSurvivesReload(s: AuthState, parse: string -> JsonUser)
    ensures var b := RehydrateStart(Initial(Logout(s).stored), parse);
            !b.verifying && !IsAuthenticated(b.state) && !b.state.isLoading
  {
  }

  // ---------------------------------------------------------------------
  // Session and adapter together

  /** After a login that returned a non-empty token, every request carries
      `Authorization: Bearer <that token>`. */
  lemma LoginThenRequestCarriesToken(s: AuthState, response: AuthResponse, serialize: User -> string, headers: Api.Headers)
    requires response.token != ""
    ensures var after := Login(s, Ok(response), serialize).state;
            Api.BearerToken(Api.AttachToken(after.stored, headers)) == Some(response.token)
  {
    var after := Login(s, Ok(response), serialize).state;
    assert after.stored[AuthTokenKey] == response.token;
    Api.AttachTokenSpec(after.stored, headers);
  }

  /** A 401 answered off the login page leaves nothing for the next
      start-up to adopt: the reload it triggers begins unauthenticated. */
  lemma UnauthorizedThenReload<T>(stored: Storage, path: string, reply: Reply<T>, parse: string -> JsonUser)
    requires Api.IsUnauthorized(reply) && path != Api.LoginPath
    ensures var cut := Api.Intercept(stored, Some(path), reply);
            var b := RehydrateStart(Initial(cut.stored), parse);
            cut.redirect == Some(Api.LoginPath) && !b.verifying && !IsAuthenticated(b.state) && !b.state.isLoading
  {
  }
}
