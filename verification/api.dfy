/** The HTTP client adapter: the fixed method/path table of the auth and
    patient calls, the request interceptor that attaches the bearer token,
    and the response interceptor that ends the session on a 401. */
module Api {
  import opened Common
  import Decimal

  datatype HttpMethod = GET | POST | PUT | DELETE

  /** The calls the core issues (`authApi.login`, `authApi.getProfile` and
      the `patientApi` operations). */
  datatype Call =
    | Login
    | Profile
    | GetAll
    | GetById(id: int)
    | Create
    | Update(id: int)
    | Remove(id: int)

  datatype Endpoint = Endpoint(verb: HttpMethod, path: string)

  const PatientsPath: string := "/patients"
  const PatientPrefix: string := "/patients/"

  /** The resource path of one patient: the prefix followed by the id as
      a template literal renders it. */
  function PatientPath(id: int): (p: string)
    ensures |p| > |PatientPrefix| && p[..|PatientPrefix|] == PatientPrefix
  {
    PatientPrefix + Decimal.IntToString(id)
  }

  function EndpointOf(c: Call): Endpoint {
    match c
    case Login => Endpoint(POST, "/auth/login")
    case Profile => Endpoint(GET, "/auth/me")
    case GetAll => Endpoint(GET, PatientsPath)
    case GetById(id) => Endpoint(GET, PatientPath(id))
    case Create => Endpoint(POST, PatientsPath)
    case Update(id) => Endpoint(PUT, PatientPath(id))
    case Remove(id) => Endpoint(DELETE, PatientPath(id))
  }

  /** The call a request line denotes, or None when it denotes none of
      them. The id is read leniently (leading zeros and "-0" are accepted),
      so this is a left inverse of `EndpointOf`, not an exact image test. */
  function CallOf(e: Endpoint): Option<Call> {
    if e == Endpoint(POST, "/auth/login") then Some(Login)
    else if e == Endpoint(GET, "/auth/me") then Some(Profile)
    else if e.path == PatientsPath then
      (match e.verb
       case GET => Some(GetAll)
       case POST => Some(Create)
       case _ => None)
    else if |e.path| > |PatientPrefix| && e.path[..|PatientPrefix|] == PatientPrefix then
      match Decimal.ParseInt(e.path[|PatientPrefix|..])
      case None => None
      case Some(id) =>
        (match e.verb
         case GET => Some(GetById(id))
         case PUT => Some(Update(id))
         case DELETE => Some(Remove(id))
         case POST => None)
    else None
  }

  /** Every call has its own request line, and the patient id can be read
      back from the path. */
  lemma EndpointRoundTrip(c: Call)
    ensures CallOf(EndpointOf(c)) == Some(c)
  {
    match c
    case GetById(id) => PatientPathRoundTrip(id);
    case Update(id) => PatientPathRoundTrip(id);
    case Remove(id) => PatientPathRoundTrip(id);
    case _ =>
  }

  lemma PatientPathRoundTrip(id: int)
    ensures PatientPath(id) != PatientsPath
    ensures PatientPath(id) != "/auth/login" && PatientPath(id) != "/auth/me"
    ensures Decimal.ParseInt(PatientPath(id)[|PatientPrefix|..]) == Some(id)
  {
    var p := PatientPath(id);
    assert p[|PatientPrefix|..] == Decimal.IntToString(id);
    Decimal.IntRoundTrip(id);
    assert p[1] == 'p';
  }

  lemma EndpointInjective(c1: Call, c2: Call)
    ensures EndpointOf(c1) == EndpointOf(c2) ==> c1 == c2
  {
    EndpointRoundTrip(c1);
    EndpointRoundTrip(c2);
  }

  // ---------------------------------------------------------------------
  // Request interceptor

  type Headers = map<string, string>

  const AuthorizationHeader: string := "Authorization"
  const BearerPrefix: string := "Bearer "

  /** The headers every request starts with. */
  const DefaultHeaders: Headers := map["Content-Type" := "application/json"]

  /** Adds `Authorization: Bearer <token>` when a non-empty token is stored. */
  function AttachToken(stored: Storage, headers: Headers): Headers {
    var token := GetItem(stored, AuthTokenKey);
    if Truthy(token) then headers[AuthorizationHeader := BearerPrefix + token.value] else headers
  }

  /** The token a server would read from the Authorization header. */
  function BearerToken(headers: Headers): Option<string> {
    if AuthorizationHeader in headers
       && |headers[AuthorizationHeader]| >= |BearerPrefix|
       && headers[AuthorizationHeader][..|BearerPrefix|] == BearerPrefix
    then Some(headers[AuthorizationHeader][|BearerPrefix|..])
    else None
  }

  /** With a token stored, the server reads exactly that token and every
      other header is untouched; without one the headers pass unchanged. */
  lemma AttachTokenSpec(stored: Storage, headers: Headers)
    ensures Truthy(GetItem(stored, AuthTokenKey)) ==>
              && BearerToken(AttachToken(stored, headers)) == Some(stored[AuthTokenKey])
              && AttachToken(stored, headers).Keys == headers.Keys + {AuthorizationHeader}
              && forall h :: h in headers && h != AuthorizationHeader ==>
                   AttachToken(stored, headers)[h] == headers[h]
    ensures !Truthy(GetItem(stored, AuthTokenKey)) ==> AttachToken(stored, headers) == headers
  {
    if Truthy(GetItem(stored, AuthTokenKey)) {
      var v := BearerPrefix + stored[AuthTokenKey];
      assert v[..|BearerPrefix|] == BearerPrefix;
      assert v[|BearerPrefix|..] == stored[AuthTokenKey];
    }
  }

  // ---------------------------------------------------------------------
  // Response interceptor

  /** The interceptor's effect: storage afterwards, the location it sends
      the browser to (if any), and the reply handed on to the caller. */
  datatype Interception<T> = Interception(stored: Storage, redirect: Option<string>, reply: Reply<T>)

  const LoginPath: string := "/"

  predicate IsUnauthorized<T>(reply: Reply<T>) {
    reply.Failed? && reply.status == Some(401)
  }

  /** `location` is `window.location.pathname`, None outside a browser. On
      a 401 away from the login page both session keys are removed and the
      browser is sent to the login page; the reply always passes through. */
  function Intercept<T>(stored: Storage, location: Option<string>, reply: Reply<T>): Interception<T> {
    if IsUnauthorized(reply) && location.Some? && location.value != LoginPath then
      Interception(stored - {AuthTokenKey, UserKey}, Some(LoginPath), reply)
    else
      Interception(stored, None, reply)
  }

  /** Where the browser is after an interception. */
  function Navigate(location: Option<string>, redirect: Option<string>): Option<string> {
    if redirect.Some? then redirect else location
  }

  /** A 401 away from the login page clears exactly the two session keys
      and redirects; anything else changes neither storage nor location;
      success and failure both reach the caller unchanged. */
  lemma InterceptSpec<T>(stored: Storage, location: Option<string>, reply: Reply<T>)
    ensures Intercept(stored, location, reply).reply == reply
    ensures IsUnauthorized(reply) && location.Some? && location.value != LoginPath ==>
              && Intercept(stored, location, reply).stored.Keys == stored.Keys - {AuthTokenKey, UserKey}
              && (forall k :: k in stored && k != AuthTokenKey && k != UserKey ==>
                    Intercept(stored, location, reply).stored[k] == stored[k])
              && Navigate(location, Intercept(stored, location, reply).redirect) == Some(LoginPath)
    ensures !(IsUnauthorized(reply) && location.Some? && location.value != LoginPath) ==>
              && Intercept(stored, location, reply).stored == stored
              && Intercept(stored, location, reply).redirect.None?
  {
  }

  /** Handling the same reply again, at the location the first handling
      left the browser at, changes nothing more. */
  lemma InterceptIdempotent<T>(stored: Storage, location: Option<string>, reply: Reply<T>)
    ensures var once := Intercept(stored, location, reply);
            var loc := Navigate(location, once.redirect);
            var twice := Intercept(once.stored, loc, reply);
            twice.stored == once.stored && Navigate(loc, twice.redirect) == loc
  {
  }

  /** Several 401s in flight before the redirect lands collapse to a single
      clear: whatever the order, storage ends the same and the one target
      is the login page. */
  lemma ConcurrentUnauthorizedCollapse<T>(stored: Storage, path: string, r1: Reply<T>, r2: Reply<T>)
    requires IsUnauthorized(r1) && IsUnauthorized(r2) && path != LoginPath
    ensures var a := Intercept(stored, Some(path), r1);
            var b := Intercept(a.stored, Some(path), r2);
            && b.stored == stored - {AuthTokenKey, UserKey}
            && a.redirect == b.redirect == Some(LoginPath)
  {
  }

  /** After a 401 has been handled off the login page, later requests go
      out without credentials. */
  lemma NoBearerAfterUnauthorized<T>(stored: Storage, path: string, reply: Reply<T>)
    requires IsUnauthorized(reply) && path != LoginPath
    ensures BearerToken(AttachToken(Intercept(stored, Some(path), reply).stored, DefaultHeaders)).None?
  {
  }
}
