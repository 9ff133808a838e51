/** The private-route guard: a page behind it renders only for a signed-in
    user, and an admin-only page only for an administrator. */
module PrivateRoute {
  import opened Common
  import opened Records

  /** A guard either renders its children or navigates elsewhere. */
  datatype Outcome = Render | Redirect(to: string)

  /** `<PrivateRoute adminOnly={adminOnly}>`: with no user, go to the login
      page; with a non-administrator on an admin-only route, go to the
      dashboard; otherwise render. `adminOnly` defaults to false. */
  function Guard(user: Option<Session>, adminOnly: bool := false): (r: Outcome)
    ensures user.None? ==> r == Redirect("/login")
    ensures user.Some? && adminOnly && user.value.role != Some("admin") ==> r == Redirect("/dashboard")
    ensures r == Render <==> user.Some? && (!adminOnly || user.value.role == Some("admin"))
  {
    if user.None? then Redirect("/login")
    else if adminOnly && user.value.role != Some("admin") then Redirect("/dashboard")
    else Render
  }

  /** Without `adminOnly`, every signed-in user passes, whatever the role. */
  lemma PlainGuardAdmitsAnyUser(s: Session)
    ensures Guard(Some(s)) == Render
    ensures Guard(None) == Redirect("/login")
  {
  }
}

/** The route table of the client and the guard of its public pages. */
module AppRoutes {
  import opened Common
  import opened Records
  import opened PrivateRoute

  /** `<PublicRoute>`: a signed-in user is sent to the dashboard that
      matches the role; with no user the page renders. */
  function PublicGuard(user: Option<Session>): (r: Outcome)
    ensures user.None? <==> r == Render
    ensures user.Some? && user.value.role == Some("admin") ==> r == Redirect("/admin/dashboard")
    ensures user.Some? && user.value.role != Some("admin") ==> r == Redirect("/dashboard")
  {
    if user.Some? then
      Redirect(if user.value.role == Some("admin") then "/admin/dashboard" else "/dashboard")
    else Render
  }

  datatype Page =
    | LoginPage
    | RegisterPage
    | ForgotPasswordPage
    | ResetPasswordPage(token: string)
    | DashboardPage
    | AdminDashboardPage
    | UserDashboardPage

  const ResetPrefix := "/reset-password/"

  /** The page a path selects; None for `/` and for every path no route
      matches, both of which navigate to the login page. */
  function Match(path: string): Option<Page> {
    if path == "/login" then Some(LoginPage)
    else if path == "/register" then Some(RegisterPage)
    else if path == "/forgot-password" then Some(ForgotPasswordPage)
    else if path == "/dashboard" then Some(DashboardPage)
    else if path == "/admin/dashboard" then Some(AdminDashboardPage)
    else if path == "/user/dashboard" then Some(UserDashboardPage)
    else if |path| > |ResetPrefix| && ResetPrefix <= path && '/' !in path[|ResetPrefix|..] then
      Some(ResetPasswordPage(path[|ResetPrefix|..]))
    else None
  }

  /** The guard each route wraps its page in. */
  function GuardOf(page: Page, user: Option<Session>): Outcome {
    match page
    case LoginPage => PublicGuard(user)
    case RegisterPage => PublicGuard(user)
    case ForgotPasswordPage => PublicGuard(user)
    case ResetPasswordPage(_) => PublicGuard(user)
    case DashboardPage => Guard(user)
    case AdminDashboardPage => Guard(user, true)
    case UserDashboardPage => Guard(user)
  }

  /** What visiting `path` does. */
  function Resolve(path: string, user: Option<Session>): (r: Outcome)
    ensures Match(path).None? ==> r == Redirect("/login")
    ensures Match(path).Some? ==> r == GuardOf(Match(path).value, user)
  {
    match Match(path)
    case None => Redirect("/login")
    case Some(page) => GuardOf(page, user)
  }

  /** A reset link carries its token as the last path segment. */
  lemma ResetLinkCarriesToken(token: string)
    requires token != "" && '/' !in token
    ensures Match(ResetPrefix + token) == Some(ResetPasswordPage(token))
  {
    var path := ResetPrefix + token;
    assert path[|ResetPrefix|..] == token;
    assert path[..6] == "/reset";
  }

  /** `/` and the unmatched paths lead to the login page, whoever asks. */
  lemma RootAndUnknownGoToLogin(path: string, user: Option<Session>)
    requires Match(path).None?
    ensures Resolve("/", user) == Redirect("/login")
    ensures Resolve(path, user) == Redirect("/login")
  {
    assert Match("/").None? by {
      assert |"/"| <= |ResetPrefix|;
    }
  }

  /** Only `/admin/dashboard` is admin-only: a signed-in non-administrator
      reaches both user dashboards and is turned away from the admin one. */
  lemma OnlyAdminDashboardIsAdminOnly(s: Session)
    requires s.role != Some("admin")
    ensures Resolve("/dashboard", Some(s)) == Render
    ensures Resolve("/user/dashboard", Some(s)) == Render
    ensures Resolve("/admin/dashboard", Some(s)) == Redirect("/dashboard")
  {
  }

  /** Follows at most `hops` redirects from `path`; the path reached. */
  function Follow(path: string, user: Option<Session>, hops: nat): string
    decreases hops
  {
    if hops == 0 then path
    else
      match Resolve(path, user)
      case Render => path
      case Redirect(to) => Follow(to, user, hops - 1)
  }

  /** The dashboard a signed-in user is sent to renders for that user. */
  lemma DashboardOfUserRenders(s: Session)
    ensures Resolve(PublicGuard(Some(s)).to, Some(s)) == Render
  {
    if s.role == Some("admin") {
      assert Resolve("/admin/dashboard", Some(s)) == Guard(Some(s), true);
    } else {
      assert Resolve("/dashboard", Some(s)) == Guard(Some(s));
    }
  }

  /** Every visit settles on a rendered page after at most two redirects,
      and a second redirect happens only for a signed-in user whose first
      redirect went to the login page. */
  lemma RedirectsSettle(path: string, user: Option<Session>)
    ensures Resolve(Follow(path, user, 2), user) == Render
    ensures Resolve(path, user).Redirect? && Resolve(Follow(path, user, 1), user).Redirect? ==>
      user.Some? && Follow(path, user, 1) == "/login"
  {
    assert Match("/login") == Some(LoginPage);
    match Resolve(path, user)
    case Render =>
    case Redirect(to) =>
      assert to in {"/login", "/dashboard", "/admin/dashboard"};
      if to == "/login" {
        if user.Some? {
          DashboardOfUserRenders(user.value);
          var d := PublicGuard(user).to;
          assert Resolve(to, user) == Redirect(d);
          assert Follow(to, user, 1) == Follow(d, user, 0) == d;
          assert Follow(path, user, 2) == d;
        }
      } else if to == "/dashboard" {
        assert user.Some?;
        assert Match(to) == Some(DashboardPage);
      } else {
        assert user.Some? && user.value.role == Some("admin");
        assert Match(to) == Some(AdminDashboardPage);
      }
  }
}
