/** The guard around signed-in pages: a spinner while authentication is
    pending, the wrapped page for a signed-in user, a redirect otherwise. */
module ProtectedRoute {
  import opened Common
  import opened ClientTypes
  import Auth

  datatype Outcome = Spinner | Children | Navigate(to: string, replace: bool)

  const LoginPath := "/login"

  /** Exactly one outcome per `(loadingAuth, user)`: the spinner whenever
      loading, whatever the user; otherwise the children for a user and a
      history-replacing redirect to the login page for none. */
  function Guard(loadingAuth: bool, user: Option<ClientUser>): (o: Outcome)
    ensures o.Spinner? <==> loadingAuth
    ensures o.Children? <==> !loadingAuth && user.Some?
    ensures o.Navigate? <==> !loadingAuth && user.None?
    ensures o.Navigate? ==> o == Navigate(LoginPath, true)
  {
    if loadingAuth then Spinner
    else if user.Some? then Children
    else Navigate(LoginPath, true)
  }

  /** A fresh page load behind the guard: once the session has been
      rehydrated the guard never shows the spinner; it shows the page only
      when a truthy token was stored and `/auth/me` accepted it. */
  method GuardAfterStartup(persisted: Option<string>, me: Auth.MeOutcome) returns (o: Outcome)
    ensures o != Spinner
    ensures o == Children <==> Truthy(persisted) && me.MeOk?
    ensures o != Children ==> o == Navigate(LoginPath, true)
  {
    var session := new Auth.AuthProvider(persisted);
    var _ := session.Rehydrate(me);
    o := Guard(session.loadingAuth, session.user);
  }

  /** After logout (once authentication has settled) the guard redirects
      to the login page; after login it shows the page. */
  method GuardAfterLogoutAndLogin(persisted: Option<string>, me: Auth.MeOutcome, token: string, u: ClientUser)
    returns (afterLogout: Outcome, afterLogin: Outcome)
    ensures afterLogout == Navigate(LoginPath, true)
    ensures afterLogin == Children
  {
    var session := new Auth.AuthProvider(persisted);
    var _ := session.Rehydrate(me);
    session.Logout();
    afterLogout := Guard(session.loadingAuth, session.user);
    session.Login(token, u);
    afterLogin := Guard(session.loadingAuth, session.user);
  }
}
