/** `ensureSession`: makes sure the auth client holds a session with an
    access token before a data request, refreshing it once when it does
    not, and returns the signed-in user or throws. */
module Session {
  import opened Wrappers
  import opened Js

  const SessionExpired := "Session expired or invalid. Please sign in again."
  const NotAuthenticated := "User not authenticated"

  datatype User = User(id: string)

  /** A session as `getSession` or `refreshSession` returns it: none, or
      one whose `access_token` is a string (`Some`) or is not (`None`). */
  datatype SessionInfo = NoSession | SessionWith(accessToken: Option<string>)

  /** The session holds an access token that is a string (possibly
      empty: only its type is checked). */
  predicate HasToken(s: SessionInfo) {
    s.SessionWith? && s.accessToken.Some?
  }

  /** The answers of the auth client: the current session, the user
      `getUser` reports, and what `refreshSession` yields. */
  datatype AuthReplies = AuthReplies(
    session: SessionInfo,
    user: Option<User>,
    refreshedSession: SessionInfo,
    refreshedUser: Option<User>,
    refreshFailed: bool)

  datatype AuthCall = GetSession | GetUser | RefreshSession

  /** `ensureSession(auth)`: the outcome and the auth calls it made. */
  function EnsureSession(a: AuthReplies): (r: (Outcome<User>, seq<AuthCall>))
    // a string token and a user: that user, without refreshing
    ensures HasToken(a.session) && a.user.Some? ==> r == (Returned(a.user.value), [GetSession, GetUser])
    // otherwise exactly one refresh, after `getUser` only when there was a token
    ensures !(HasToken(a.session) && a.user.Some?) ==>
      r.1 == [GetSession] + (if HasToken(a.session) then [GetUser] else []) + [RefreshSession]
    ensures !(HasToken(a.session) && a.user.Some?) && a.refreshFailed ==> r.0 == Threw(JsError(SessionExpired))
    ensures !(HasToken(a.session) && a.user.Some?) && !a.refreshFailed ==>
      r.0 == (if HasToken(a.refreshedSession) && a.refreshedUser.Some? then Returned(a.refreshedUser.value)
              else Threw(JsError(NotAuthenticated)))
    // a normal return is a user the auth client reported
    ensures r.0.Returned? ==> Some(r.0.value) == a.user || Some(r.0.value) == a.refreshedUser
    ensures r.0.Threw? ==> r.0.thrown.JsError?
  {
    var first := if HasToken(a.session) then [GetSession, GetUser] else [GetSession];
    if HasToken(a.session) && a.user.Some? then (Returned(a.user.value), first)
    else
      var calls := first + [RefreshSession];
      if a.refreshFailed then (Threw(JsError(SessionExpired)), calls)
      else if !HasToken(a.refreshedSession) || a.refreshedUser.None? then (Threw(JsError(NotAuthenticated)), calls)
      else (Returned(a.refreshedUser.value), calls)
  }

  /** `refreshSession` is called at most once, whatever the replies. */
  lemma RefreshAtMostOnce(a: AuthReplies)
    ensures multiset(EnsureSession(a).1)[RefreshSession] <= 1
  {
    var calls := EnsureSession(a).1;
    if HasToken(a.session) && a.user.Some? {
      assert calls == [GetSession, GetUser];
    } else if HasToken(a.session) {
      assert calls == [GetSession, GetUser, RefreshSession];
    } else {
      assert calls == [GetSession, RefreshSession];
    }
  }
}
