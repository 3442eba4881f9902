/**
 * The admin authentication hook: five state fields and the transitions for
 * the mount-time check, login, logout and forced logout. The API calls it
 * awaits are inputs, as how they settle; the `...WithApi` methods feed it
 * the API client's own calls.
 */
module AdminAuth {
  import opened Wrappers
  import opened Api
  import opened BrowserStorage

  const LOGIN_FAILED := "Failed to login"

  /** `err instanceof Error ? err.message : "Failed to login"`. */
  function LoginErrorMessage(e: Thrown): (msg: string)
    ensures e.IsError() ==> msg == e.message
    ensures !e.IsError() ==> msg == LOGIN_FAILED
  {
    if e.IsError() then e.message else LOGIN_FAILED
  }

  class AuthState {
    var isAuthenticated: bool
    var loading: bool
    var authChecking: bool
    var error: Option<string>
    var authLoaded: bool

    /** Checking and loaded are never both on or both off: the check is either running or done. */
    predicate Valid()
      reads this
    {
      authChecking == !authLoaded
    }

    /** The state before the mount check has settled. */
    constructor ()
      ensures Valid()
      ensures !isAuthenticated && !loading && authChecking && error == None && !authLoaded
    {
      isAuthenticated := false;
      loading := false;
      authChecking := true;
      error := None;
      authLoaded := false;
    }

    /**
     * `verifyAuth`, run on mount: authenticated exactly when `checkAuth`
     * resolved to true (a rejection counts as false); afterwards the check
     * is over and the state is loaded.
     */
    method VerifyAuth(check: Result<bool, Thrown>)
      modifies this
      ensures Valid()
      ensures !authChecking && authLoaded
      ensures isAuthenticated <==> check == Success(true)
      ensures loading == old(loading) && error == old(error)
    {
      authChecking := true;
      match check {
        case Success(valid) =>
          isAuthenticated := valid;
        case Failure(_) =>
          isAuthenticated := false;
      }
      authChecking := false;
      authLoaded := true;
    }

    /**
     * `login(username, password)`: on success the error is cleared, the
     * admin is authenticated and true is returned; on failure the error is
     * the thrown message (or "Failed to login") and the authentication flag
     * is left as it was. Loading is off afterwards either way.
     */
    method Login(outcome: Result<(), Thrown>) returns (ok: bool)
      modifies this
      requires Valid()
      ensures Valid()
      ensures ok <==> outcome.Success?
      ensures !loading
      ensures ok ==> isAuthenticated && error == None
      ensures !ok ==> isAuthenticated == old(isAuthenticated) && error == Some(LoginErrorMessage(outcome.error))
      ensures authLoaded == old(authLoaded) && authChecking == old(authChecking)
    {
      loading := true;
      error := None;
      match outcome {
        case Success(_) =>
          isAuthenticated := true;
          ok := true;
        case Failure(e) =>
          error := Some(LoginErrorMessage(e));
          ok := false;
      }
      loading := false;
    }

    /**
     * `logout()`: when the API call resolves the admin is signed out and
     * true is returned; when it rejects, false is returned and nothing
     * changes.
     */
    method Logout(outcome: Result<bool, Thrown>) returns (ok: bool)
      modifies this
      requires Valid()
      ensures Valid()
      ensures ok <==> outcome.Success?
      ensures ok ==> !isAuthenticated
      ensures !ok ==> isAuthenticated == old(isAuthenticated)
      ensures loading == old(loading) && error == old(error)
      ensures authLoaded == old(authLoaded) && authChecking == old(authChecking)
    {
      match outcome {
        case Success(_) =>
          isAuthenticated := false;
          ok := true;
        case Failure(_) =>
          ok := false;
      }
    }

    /**
     * `forcedLogout(message)`: the error becomes the message, the admin is
     * signed out, and the message is returned. The API logout is started
     * and its outcome is never awaited, so it changes none of the hook's
     * fields; its effect on storage is `ForcedLogoutWithApi`.
     */
    method ForcedLogout(message: string) returns (returned: string)
      modifies this
      requires Valid()
      ensures Valid()
      ensures returned == message && error == Some(message) && !isAuthenticated
      ensures loading == old(loading) && authLoaded == old(authLoaded) && authChecking == old(authChecking)
    {
      error := Some(message);
      isAuthenticated := false;
      returned := message;
    }
  }

  /**
   * The mount check against the API client: `checkAuth` never rejects, so
   * the admin is authenticated exactly when a non-empty token is stored and
   * the validation request answered ok.
   */
  method VerifyAuthWithApi(auth: AuthState, store: LocalStorage, reply: Reply<()>)
    modifies auth
    ensures auth.Valid() && auth.authLoaded
    ensures auth.isAuthenticated <==> HasToken(GetAuthToken(store)) && reply.Ok?
  {
    var requested, valid := CheckAuth(store, reply);
    auth.VerifyAuth(Success(valid));
  }

  /**
   * Logout against the API client: its `logout` never rejects, so the hook
   * always reports success and signs the admin out, and the stored token is
   * gone, even when the server answered not-ok.
   */
  method LogoutWithApi(auth: AuthState, store: LocalStorage, reply: Reply<()>) returns (ok: bool)
    requires auth.Valid()
    modifies auth, store
    ensures ok && !auth.isAuthenticated && auth.Valid()
    ensures GetAuthToken(store) == None
  {
    var serverOk := Api.Logout(store, reply);
    ok := auth.Logout(Success(serverOk));
  }

  /**
   * Forced logout against the API client: the hook's state changes at once,
   * whatever the API does, and once the un-awaited `logout` request settles
   * the stored token is gone, on an ok, a not-ok and a thrown reply alike.
   */
  method ForcedLogoutWithApi(auth: AuthState, store: LocalStorage, message: string, reply: Reply<()>)
    returns (returned: string)
    requires auth.Valid()
    modifies auth, store
    ensures auth.Valid()
    ensures returned == message && auth.error == Some(message) && !auth.isAuthenticated
    ensures store.items == old(store.items) - {AUTH_TOKEN_KEY}
    ensures GetAuthToken(store) == None
  {
    returned := auth.ForcedLogout(message);
    var ignored := Api.Logout(store, reply);
  }

  /**
   * Login against the API client: a not-ok reply puts the server's message
   * in the error; an ok reply authenticates the admin whether or not it
   * carried a token to store.
   */
  method LoginWithApi(auth: AuthState, store: LocalStorage, reply: Reply<LoginBody>) returns (ok: bool)
    requires auth.Valid()
    modifies auth, store
    ensures auth.Valid()
    ensures ok <==> reply.Ok?
    ensures ok ==> auth.isAuthenticated && auth.error == None
    ensures reply.NotOk? && reply.errorBody.ErrorJson? ==> auth.error == Some(reply.errorBody.message)
  {
    var result := AdminLogin(store, reply);
    ok := auth.Login(result);
  }
}
