/** `PrivateRoute` (src/router/PrivateRoute.tsx): the guard in front of the signed-in pages. */
module PrivateRoute {
  import opened Wrappers
  import AuthContext

  /** `<Navigate to replace />` or the protected `<Outlet />`. */
  datatype RouteResult = Navigate(to: string, replace: bool) | Outlet

  /** `!token`: `null` and the empty string are both falsy. */
  predicate IsFalsy(token: Option<string>) {
    token == None || token == Some("")
  }

  function PrivateRoute(token: Option<string>): (r: RouteResult)
    ensures r == Outlet <==> token.Some? && |token.value| > 0
    ensures r != Outlet ==> r == Navigate("/", true)
  {
    if IsFalsy(token) then Navigate("/", true) else Outlet
  }

  /**
   * A session against a fresh store: guarded pages are refused before
   * signing in, shown after it, and refused again after signing out.
   */
  method SignInAndOut(token: string) returns (before: RouteResult, during: RouteResult, after: RouteResult)
    requires |token| > 0
    ensures before == Navigate("/", true) && during == Outlet && after == Navigate("/", true)
  {
    var store := new AuthContext.AuthCredentials();
    before := PrivateRoute(store.accessToken);
    store.SetCredentials(token);
    during := PrivateRoute(store.accessToken);
    store.ClearCredentials();
    after := PrivateRoute(store.accessToken);
  }
}
