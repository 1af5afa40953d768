// The admin route guard (src/middleware.ts): who is sent where before an
// admin page is served.

module Middleware {
  import opened Common

  const AuthPath: string := "/admin/auth"
  const AdminPath: string := "/admin"

  datatype Decision = Redirect(to: string) | Continue

  /** `config.matcher`: '/admin' and '/admin/:path*'. */
  predicate Matched(pathname: string)
  {
    pathname == AdminPath || StartsWith(pathname, AdminPath + "/")
  }

  /** `middleware(request)` for a session that is or is not logged in. */
  function Decide(isLoggedIn: bool, pathname: string): Decision
  {
    if !isLoggedIn && StartsWith(pathname, AdminPath) && pathname != AuthPath then Redirect(AuthPath)
    else if isLoggedIn && pathname == AuthPath then Redirect(AdminPath)
    else Continue
  }

  /** Every matched path starts with '/admin', so the guard sees all of
      them. */
  lemma {:induction false} MatchedStartsWithAdmin(pathname: string)
    requires Matched(pathname)
    ensures StartsWith(pathname, AdminPath)
  {
    if pathname != AdminPath {
      assert pathname[..|AdminPath|] == (AdminPath + "/")[..|AdminPath|];
    }
  }

  /** On a matched path: a visitor is sent to the login page unless already
      there, a logged-in admin is sent from the login page to the
      dashboard, and everything else is served. */
  lemma {:induction false} DecideRules(isLoggedIn: bool, pathname: string)
    requires Matched(pathname)
    ensures Decide(isLoggedIn, pathname) == Redirect(AuthPath) <==> !isLoggedIn && pathname != AuthPath
    ensures Decide(isLoggedIn, pathname) == Redirect(AdminPath) <==> isLoggedIn && pathname == AuthPath
    ensures Decide(isLoggedIn, pathname) == Continue <==> (isLoggedIn != (pathname == AuthPath))
  {
    MatchedStartsWithAdmin(pathname);
  }

  /** A redirect always lands on a matched path that the guard then
      serves: there is no redirect loop. */
  lemma {:induction false} NoRedirectLoop(isLoggedIn: bool, pathname: string)
    requires Decide(isLoggedIn, pathname).Redirect?
    ensures Matched(Decide(isLoggedIn, pathname).to)
    ensures Decide(isLoggedIn, Decide(isLoggedIn, pathname).to) == Continue
  {
    assert StartsWith(AuthPath, AdminPath + "/");
    assert StartsWith(AdminPath, AdminPath);
  }
}
