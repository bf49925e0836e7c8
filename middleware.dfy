/** The request middleware's routing decision: signed-out visitors of the
    protected areas go to the login page, signed-in visitors of the login
    and sign-up pages go to the dashboard, and everything else passes
    through. Whether a user is signed in is what the auth server's
    `getUser` answers. */
module Middleware {
  import opened Strings

  datatype Decision = PassThrough | Redirect(target: string)

  const LoginPage := "/login"
  const SignupPage := "/signup"
  const DashboardPage := "/dashboard"

  /** The paths that need a signed-in user. */
  predicate Protected(pathname: string) {
    StartsWith(pathname, DashboardPage) || StartsWith(pathname, "/crud-test")
  }

  /** The pages a signed-in user has no business on. */
  predicate AuthPage(pathname: string) {
    pathname == LoginPage || pathname == SignupPage
  }

  /** `middleware(request)`: the protected-route rule first, then the
      auth-page rule. */
  function Route(pathname: string, signedIn: bool): Decision {
    if Protected(pathname) && !signedIn then Redirect(LoginPage)
    else if AuthPage(pathname) && signedIn then Redirect(DashboardPage)
    else PassThrough
  }

  /** The three outcomes and exactly when each happens. */
  lemma RouteCases(pathname: string, signedIn: bool)
    ensures Route(pathname, signedIn) == Redirect(LoginPage) <==> Protected(pathname) && !signedIn
    ensures Route(pathname, signedIn) == Redirect(DashboardPage) <==> AuthPage(pathname) && signedIn
    ensures Route(pathname, signedIn) == PassThrough
         <==> !(Protected(pathname) && !signedIn) && !(AuthPage(pathname) && signedIn)
  {
  }

  /** No path is both protected and an auth page, so the two rules never
      compete. */
  lemma RulesDisjoint(pathname: string)
    ensures !(Protected(pathname) && AuthPage(pathname))
  {
    if pathname == LoginPage {
      assert pathname[1] != DashboardPage[1] && pathname[1] != "/crud-test"[1];
    } else if pathname == SignupPage {
      assert pathname[1] != DashboardPage[1] && pathname[1] != "/crud-test"[1];
    }
  }

  /** A redirect's target passes through for the same visitor: there are
      no redirect loops. */
  lemma NoRedirectLoop(pathname: string, signedIn: bool)
    ensures Route(pathname, signedIn).Redirect? ==> Route(Route(pathname, signedIn).target, signedIn) == PassThrough
  {
    RulesDisjoint(LoginPage);
    RulesDisjoint(DashboardPage);
  }
}
