/** app/composables/useAuth.ts: the session held by the client (the `auth_token` cookie
  * and the `auth_user` state), the user derived from token claims, and the login,
  * register and logout transitions. */
module Auth {
  import opened Wrappers
  import opened Json
  import opened Jwt

  const DashboardPath := "/dashboard"
  const LoginPath := "/login"
  const NameIdentifierUri := "http://schemas.xmlsoap.org/ws/2005/05/identity/claims/nameidentifier"
  const EmailAddressUri := "http://schemas.xmlsoap.org/ws/2005/05/identity/claims/emailaddress"

  datatype AuthUser = AuthUser(userId: string, email: string)

  /** What the backend answers to a successful login or registration. */
  datatype AuthResponse = AuthResponse(userId: string, email: string, token: string)

  /** What is handed to the auth collaborator. */
  datatype AuthPayload =
    | LoginPayload(email: string, password: string)
    | RegisterPayload(email: string, password: string, firstName: string, lastName: string)

  /** `!!token`: a cookie that is absent, null or empty means signed out. */
  predicate Authenticated(token: Option<string>)
  {
    token.Some? && token.value != ""
  }

  /** The claim under the short name if it is a string, else under the legacy URI name if
    * that is a string, else the empty string. */
  function PreferredString(payload: Value, short: string, legacy: string): (r: string)
    ensures StringAt(payload, short).Some? ==> r == StringAt(payload, short).value
    ensures StringAt(payload, short).None? && StringAt(payload, legacy).Some? ==>
      r == StringAt(payload, legacy).value
    ensures StringAt(payload, short).None? && StringAt(payload, legacy).None? ==> r == ""
  {
    match StringAt(payload, short)
    case Some(s) => s
    case None =>
      match StringAt(payload, legacy)
      case Some(s) => s
      case None => ""
  }

  /** The user a decoded payload names: none unless the payload is an object with a
    * non-empty subject; the subject comes from `sub` when that is a string (even an empty
    * one), else from the name-identifier URI claim; the e-mail likewise from `email` or
    * the e-mail-address URI claim, and may be empty. */
  function UserFromPayload(payload: Value): (r: Option<AuthUser>)
    ensures r.Some? <==> IsObject(payload) && PreferredString(payload, "sub", NameIdentifierUri) != ""
    ensures r.Some? ==> r.value.userId != ""
    ensures r.Some? ==>
      || Get(payload, "sub") == Some(Str(r.value.userId))
      || (StringAt(payload, "sub").None? && Get(payload, NameIdentifierUri) == Some(Str(r.value.userId)))
    ensures r.Some? ==> r.value.userId == PreferredString(payload, "sub", NameIdentifierUri)
    ensures r.Some? ==> r.value.email == PreferredString(payload, "email", EmailAddressUri)
    ensures r.Some? && StringAt(payload, "email").Some? ==> r.value.email == StringAt(payload, "email").value
    ensures r.Some? && StringAt(payload, "email").None? && StringAt(payload, EmailAddressUri).Some? ==>
      r.value.email == StringAt(payload, EmailAddressUri).value
    ensures r.Some? && StringAt(payload, "email").None? && StringAt(payload, EmailAddressUri).None? ==>
      r.value.email == ""
  {
    if !IsObject(payload) then None
    else
      var userId := PreferredString(payload, "sub", NameIdentifierUri);
      var email := PreferredString(payload, "email", EmailAddressUri);
      if userId == "" then None else Some(AuthUser(userId, email))
  }

  /** A string `sub` claim wins even when it is empty, so an empty `sub` hides a
    * non-empty legacy name identifier and no user is derived. */
  lemma EmptySubjectHidesLegacyClaim(fields: map<string, Value>)
    requires "sub" in fields && fields["sub"] == Str("")
    ensures UserFromPayload(Obj(fields)) == None
  {
  }

  /** A subject that is not a string is ignored in favour of the legacy claim. */
  lemma NonStringSubjectIgnored(fields: map<string, Value>, id: string)
    requires "sub" in fields && !fields["sub"].Str?
    requires NameIdentifierUri in fields && fields[NameIdentifierUri] == Str(id) && id != ""
    ensures UserFromPayload(Obj(fields)).Some?
    ensures UserFromPayload(Obj(fields)).value.userId == id
  {
  }

  /** `getUserFromToken(token)`: the user named by the token's payload, or none when the
    * payload does not decode. */
  function GetUserFromToken(token: string, host: Host): (r: Option<AuthUser>)
    ensures DecodePayload(token, host).None? ==> r.None?
    ensures r.Some? ==> r.value.userId != "" && DecodePayload(token, host).Some?
    ensures DecodePayload(token, host).Some? && !IsObject(DecodePayload(token, host).value) ==> r.None?
    ensures DecodePayload(token, host).Some? ==> r == UserFromPayload(DecodePayload(token, host).value)
  {
    match DecodePayload(token, host)
    case None => None
    case Some(payload) => UserFromPayload(payload)
  }

  /** The session state of one browser tab. */
  class Session {
    /** The `auth_token` cookie. */
    var token: Option<string>
    /** The `auth_user` state. */
    var user: Option<AuthUser>

    /** A freshly loaded page: the cookie survives the reload, the user state does not. */
    constructor (cookie: Option<string>)
      ensures token == cookie && user == None
    {
      token := cookie;
      user := None;
    }

    /** `isAuthed`. */
    predicate IsAuthed()
      reads this
      ensures IsAuthed() <==> token != None && token != Some("")
    {
      Authenticated(token)
    }

    /** The rehydration step `useAuth()` runs on every call: only when there is no user
      * but a non-empty token is the user derived from the token (possibly as none); the
      * token is never changed. */
    method Rehydrate(host: Host)
      modifies this
      ensures token == old(token)
      ensures old(user).None? && old(IsAuthed()) ==> user == GetUserFromToken(token.value, host)
      ensures old(user).Some? || !old(IsAuthed()) ==> user == old(user)
    {
      if user.None? && IsAuthed() {
        user := GetUserFromToken(token.value, host);
      }
    }

    /** Stores a successful response: the token as issued, the user as the response body
      * gives it (not decoded from the token). */
    method Establish(res: AuthResponse)
      modifies this
      ensures token == Some(res.token)
      ensures user == Some(AuthUser(res.userId, res.email))
      ensures IsAuthed() <==> res.token != ""
    {
      token := Some(res.token);
      user := Some(AuthUser(res.userId, res.email));
    }

    /** `login(email, password)`: on success the session is established and the user sent
      * to the dashboard whatever their role; on failure the error propagates unchanged and
      * the session is untouched. */
    method Login<E>(email: string, password: string, response: Result<AuthResponse, E>)
      returns (sent: AuthPayload, outcome: Result<string, E>)
      modifies this
      ensures sent == LoginPayload(email, password)
      ensures response.Err? ==> outcome == Err(response.error) && token == old(token) && user == old(user)
      ensures response.Ok? ==>
        && outcome == Ok(DashboardPath)
        && token == Some(response.value.token)
        && user == Some(AuthUser(response.value.userId, response.value.email))
    {
      sent := LoginPayload(email, password);
      match response
      case Err(e) =>
        outcome := Err(e);
      case Ok(res) =>
        Establish(res);
        outcome := Ok(DashboardPath);
    }

    /** `register(email, password, firstName, lastName)`: as `login`, with the registration
      * payload. */
    method Register<E>(email: string, password: string, firstName: string, lastName: string,
                       response: Result<AuthResponse, E>)
      returns (sent: AuthPayload, outcome: Result<string, E>)
      modifies this
      ensures sent == RegisterPayload(email, password, firstName, lastName)
      ensures response.Err? ==> outcome == Err(response.error) && token == old(token) && user == old(user)
      ensures response.Ok? ==>
        && outcome == Ok(DashboardPath)
        && token == Some(response.value.token)
        && user == Some(AuthUser(response.value.userId, response.value.email))
    {
      sent := RegisterPayload(email, password, firstName, lastName);
      match response
      case Err(e) =>
        outcome := Err(e);
      case Ok(res) =>
        Establish(res);
        outcome := Ok(DashboardPath);
    }

    /** `logout()`: whatever the revoke call does, the token and user are cleared and the
      * user is sent to the login page. */
    method Logout<E>(revoke: Outcome<E>) returns (path: string)
      modifies this
      ensures token == None && user == None
      ensures !IsAuthed()
      ensures path == LoginPath
    {
      // A failed revoke is swallowed: the local session is cleared either way.
      token := None;
      user := None;
      path := LoginPath;
    }
  }
}
