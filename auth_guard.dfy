/** app/middleware/auth.ts: the route guard that sends signed-out visitors to the login page. */
module AuthGuard {
  import opened Wrappers
  import opened Jwt
  import opened Auth

  /** The guard's decision for a token: redirect to the login page exactly when the
    * session is not authenticated. */
  function AuthRedirect(token: Option<string>): (redirect: Option<string>)
    ensures redirect.Some? <==> !Authenticated(token)
    ensures redirect.Some? ==> redirect.value == LoginPath
  {
    if Authenticated(token) then None else Some(LoginPath)
  }

  /** An empty token is turned away exactly like a missing one. */
  lemma EmptyTokenIsSignedOut()
    ensures AuthRedirect(Some("")) == AuthRedirect(None) == Some(LoginPath)
  {
  }

  /** Any non-empty token is let through, even one whose payload does not decode: the
    * guard checks neither claims, signature nor expiry. */
  lemma UndecodableTokenAllowed(token: string, host: Host)
    requires token != "" && DecodePayload(token, host).None?
    ensures AuthRedirect(Some(token)) == None
  {
  }

  /** Running the guard: `useAuth()` may rehydrate the user, the token stays as it was, and
    * the decision is taken on that token. */
  method Run(session: Session, host: Host) returns (redirect: Option<string>)
    modifies session
    ensures session.token == old(session.token)
    ensures redirect == AuthRedirect(session.token)
    ensures old(session.user).None? && old(session.IsAuthed()) ==>
      session.user == GetUserFromToken(session.token.value, host)
    ensures old(session.user).Some? || !old(session.IsAuthed()) ==> session.user == old(session.user)
  {
    session.Rehydrate(host);
    redirect := if session.IsAuthed() then None else Some(LoginPath);
  }

  /** After logout the guard turns the visitor away, whatever the revoke call did. */
  method LogoutThenGuard<E>(session: Session, revoke: Outcome<E>, host: Host)
    returns (path: string, redirect: Option<string>)
    modifies session
    ensures path == LoginPath && redirect == Some(LoginPath)
    ensures session.token == None && session.user == None
  {
    path := session.Logout(revoke);
    redirect := Run(session, host);
  }
}
