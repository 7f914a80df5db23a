/** The navigation guard run before every client-side route change. */
module RouteGuard {
  import opened Wrappers
  import opened EntryTypes

  const LoginPath := "/login"
  const SignupPath := "/signup"
  const DebugPath := "/debug"
  const HomePath := "/"

  /** Routes reachable without a signed-in user. */
  const PublicRoutes: seq<string> := [LoginPath, SignupPath, DebugPath]

  datatype Decision = Proceed | Redirect(target: string)

  /** `user` is the auth state's current user (`null` is `None`); `path` is the
      destination route's path. */
  function Guard(user: Option<User>, path: string): (d: Decision)
    ensures d == Redirect(LoginPath) <==> user.None? && path !in {"/login", "/signup", "/debug"}
    ensures d == Redirect(HomePath) <==> user.Some? && (path == "/login" || path == "/signup")
    ensures d.Redirect? ==> d.target in {LoginPath, HomePath}
    // never redirects to where the navigation was going already
    ensures d.Redirect? ==> d.target != path
  {
    if user.None? && path !in PublicRoutes then
      Redirect(LoginPath)
    else if user.Some? && (path == LoginPath || path == SignupPath) then
      Redirect(HomePath)
    else
      Proceed
  }

  /** Signed out: public routes proceed, every other route goes to the login page. */
  lemma SignedOut(path: string)
    ensures path in {"/login", "/signup", "/debug"} ==> Guard(None, path) == Proceed
    ensures path !in {"/login", "/signup", "/debug"} ==> Guard(None, path) == Redirect("/login")
  {
  }

  /** Signed in: the two auth pages go home, the debug page and every other route proceed. */
  lemma SignedIn(user: User, path: string)
    ensures path == "/login" || path == "/signup" ==> Guard(Some(user), path) == Redirect("/")
    ensures path != "/login" && path != "/signup" ==> Guard(Some(user), path) == Proceed
  {
  }

  /** Membership is an exact match: a path that merely starts with a public
      route is not public. */
  lemma ExactMatch()
    ensures Guard(None, "/login/x") == Redirect("/login")
    ensures Guard(None, "/debug/") == Redirect("/login")
  {
  }

  /** No redirect loop: following a redirect with the same user state lands on
      a route the guard lets through. */
  lemma NoRedirectLoop(user: Option<User>, path: string)
    ensures Guard(user, path).Redirect? ==> Guard(user, Guard(user, path).target) == Proceed
  {
  }
}
