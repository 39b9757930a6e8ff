/** The client session: the token kept in browser storage, the current
    user and the `loadingAuth` flag, driven by login, logout and the
    rehydrate step at start-up. */
module Auth {
  import opened Common
  import opened ClientTypes

  /** The answer to `GET /auth/me` with the stored bearer token. */
  datatype MeOutcome = MeOk(user: ClientUser) | MeFailed

  class AuthProvider {
    /** `localStorage["token"]`, None when the key is not set. */
    var storedToken: Option<string>
    var user: Option<ClientUser>
    var loadingAuth: bool

    /** Mounting the provider: no user yet and authentication pending;
        storage keeps whatever an earlier visit left there. */
    constructor (persisted: Option<string>)
      ensures storedToken == persisted && user == None && loadingAuth
    {
      storedToken, user, loadingAuth := persisted, None, true;
    }

    method Login(token: string, userData: ClientUser)
      modifies this
      ensures storedToken == Some(token) && user == Some(userData)
      ensures loadingAuth == old(loadingAuth)
    {
      storedToken := Some(token);
      user := Some(userData);
    }

    method Logout()
      modifies this
      ensures storedToken == None && user == None
      ensures loadingAuth == old(loadingAuth)
    {
      storedToken := None;
      user := None;
    }

    /** The start-up effect. A falsy stored token ends authentication
        without a request; otherwise `/auth/me` is asked and its answer (or
        null on failure) becomes the user. The token is never removed
        here, and `loadingAuth` is false afterwards in every case. */
    method Rehydrate(me: MeOutcome) returns (requested: bool)
      modifies this
      ensures requested <==> Truthy(old(storedToken))
      ensures storedToken == old(storedToken)
      ensures !loadingAuth
      ensures !requested ==> user == old(user)
      ensures requested && me.MeOk? ==> user == Some(me.user)
      ensures requested && me.MeFailed? ==> user == None
    {
      var token := storedToken;
      requested := Truthy(token);
      if requested {
        loadingAuth := true;
        user := if me.MeOk? then Some(me.user) else None;
        loadingAuth := false;
      } else {
        loadingAuth := false;
      }
    }
  }
}
