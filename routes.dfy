/**
 * The gate in front of the admin pages: the provider that derives
 * `checkingSession` from the auth hook, and `ProtectedRoute`, which shows
 * a loader, a redirect to the login page, or the protected page.
 */
module Routes {
  import opened Wrappers
  import opened Api
  import opened AdminAuth

  const LOGIN_ROUTE := "/suraj/login"

  /** What `ProtectedRoute` renders. */
  datatype View =
    | Loader
    | Redirect(to: string, from: string, replace: bool)
    | Children

  /**
   * `ProtectedRoute`: the loader while the session is being checked, then a
   * replacing redirect to the login page that remembers where the visitor
   * came from, or the protected page for an authenticated admin.
   */
  function ProtectedRoute(isAuthenticated: bool, checkingSession: bool, location: string): (v: View)
    ensures checkingSession <==> v == Loader
    ensures v.Children? <==> !checkingSession && isAuthenticated
    ensures v.Redirect? <==> !checkingSession && !isAuthenticated
    ensures v.Redirect? ==> v == Redirect(LOGIN_ROUTE, location, true)
  {
    if checkingSession then Loader
    else if !isAuthenticated then Redirect(LOGIN_ROUTE, location, true)
    else Children
  }

  /** The provider's own `checkingSession` flag. */
  class SessionGate {
    var checkingSession: bool

    constructor ()
      ensures checkingSession
    {
      checkingSession := true;
    }

    /**
     * The provider's effect, run whenever the hook's flags change: the
     * flag drops once the check is over and loaded, and is never raised
     * again.
     */
    method OnAuthChange(authChecking: bool, authLoaded: bool)
      modifies this
      ensures !authChecking && authLoaded ==> !checkingSession
      ensures !(!authChecking && authLoaded) ==> checkingSession == old(checkingSession)
      ensures checkingSession ==> old(checkingSession)
    {
      if !authChecking && authLoaded {
        checkingSession := false;
      }
    }

    /** The context value: still checking while either the provider or the hook says so. */
    function ExposedChecking(authChecking: bool): (checking: bool)
      reads this
      ensures checking <==> checkingSession || authChecking
    {
      checkingSession || authChecking
    }
  }

  /**
   * The admin app from mount to a settled check, with the hook, the
   * provider and the route wired as in the app: before the check settles
   * the protected page shows the loader; afterwards it shows the page
   * exactly when `checkAuth` resolved to true, and otherwise redirects.
   */
  method MountProtectedPage(check: Result<bool, Thrown>, location: string) returns (before: View, after: View)
    ensures before == Loader
    ensures after == Children <==> check == Success(true)
    ensures after != Children ==> after == Redirect(LOGIN_ROUTE, location, true)
  {
    var auth := new AuthState();
    var gate := new SessionGate();
    gate.OnAuthChange(auth.authChecking, auth.authLoaded);
    before := ProtectedRoute(auth.isAuthenticated, gate.ExposedChecking(auth.authChecking), location);
    auth.VerifyAuth(check);
    gate.OnAuthChange(auth.authChecking, auth.authLoaded);
    after := ProtectedRoute(auth.isAuthenticated, gate.ExposedChecking(auth.authChecking), location);
  }

  /**
   * After a forced logout on a settled session the protected page turns
   * into the redirect: the gate never goes back to the loader.
   */
  method ForcedLogoutRedirects(check: Result<bool, Thrown>, message: string, location: string) returns (view: View)
    ensures view == Redirect(LOGIN_ROUTE, location, true)
  {
    var auth := new AuthState();
    var gate := new SessionGate();
    auth.VerifyAuth(check);
    gate.OnAuthChange(auth.authChecking, auth.authLoaded);
    var _ := auth.ForcedLogout(message);
    gate.OnAuthChange(auth.authChecking, auth.authLoaded);
    view := ProtectedRoute(auth.isAuthenticated, gate.ExposedChecking(auth.authChecking), location);
  }
}
