/**
 * Route-level access control: the decision sequence of
 * `components/shared/ProtectedRoute.tsx`, the route table of `App.tsx`,
 * and the return target the login page navigates to.
 */
module AccessGuard {
  import opened Wrappers
  import opened Types
  import opened AuthContext

  /** What a protected route shows. */
  datatype Decision =
    | Wait                     // the spinner while the session is restored
    | RedirectLogin(from: string)
    | RedirectHome
    | Render

  /**
   * `ProtectedRoute`: loading is checked first, then authentication, then
   * the role. The role check is skipped when no roles are given and when
   * the session has a token but no user.
   */
  function Guard(s: Session, roles: Option<seq<Role>>, location: string): (d: Decision)
    ensures s.isLoading <==> d == Wait
    ensures d.RedirectLogin? <==> !s.isLoading && !IsAuthenticated(s)
    ensures d.RedirectLogin? ==> d.from == location
    ensures d == RedirectHome <==>
      !s.isLoading && IsAuthenticated(s) && roles.Some? && s.user.Some? && s.user.value.RoleOf() !in roles.value
    ensures d == Render <==>
      !s.isLoading && IsAuthenticated(s) && (roles.None? || s.user.None? || s.user.value.RoleOf() in roles.value)
  {
    if s.isLoading then Wait
    else if !IsAuthenticated(s) then RedirectLogin(location)
    else if roles.Some? && s.user.Some? && s.user.value.RoleOf() !in roles.value then RedirectHome
    else Render
  }

  datatype Page = HomePage | LoginPage | RegisterPage | AppointmentsPage | DoctorDashboardPage | AdminDashboardPage

  /** An entry of the route table: an open page, a guarded page, or a redirect. */
  datatype Route =
    | Open(page: Page)
    | Guarded(page: Page, roles: seq<Role>)
    | Fallback(to: string)

  /** The route table of `App`, matched on the exact path. */
  function RouteFor(path: string): Route
  {
    if path == "/" then Open(HomePage)
    else if path == "/login" then Open(LoginPage)
    else if path == "/register" then Open(RegisterPage)
    else if path == "/appointments" then Guarded(AppointmentsPage, [Patient])
    else if path == "/doctor-dashboard" then Guarded(DoctorDashboardPage, [Doctor])
    else if path == "/admin-dashboard" then Guarded(AdminDashboardPage, [Admin])
    else Fallback("/")
  }

  /** What the browser ends up with for a path. */
  datatype Screen = Show(page: Page) | Spinner | Navigate(to: string, from: Option<string>)

  /** The screen for `path` in session `s`: the route table followed by the guard. */
  function View(s: Session, path: string): (v: Screen)
    ensures RouteFor(path).Open? ==> v == Show(RouteFor(path).page)
    ensures RouteFor(path).Fallback? ==> v == Navigate("/", None)
    ensures RouteFor(path).Guarded? ==>
      match Guard(s, Some(RouteFor(path).roles), path)
      case Wait => v == Spinner
      case RedirectLogin(from) => v == Navigate("/login", Some(from))
      case RedirectHome => v == Navigate("/", None)
      case Render => v == Show(RouteFor(path).page)
    ensures v == Spinner <==> RouteFor(path).Guarded? && s.isLoading
    ensures v == Navigate("/login", Some(path)) <==>
      RouteFor(path).Guarded? && !s.isLoading && !IsAuthenticated(s)
    ensures v.Show? ==> !RouteFor(path).Fallback? && v.page == RouteFor(path).page
  {
    match RouteFor(path)
    case Open(page) => Show(page)
    case Fallback(to) => Navigate(to, None)
    case Guarded(page, roles) =>
      match Guard(s, Some(roles), path)
      case Wait => Spinner
      case RedirectLogin(from) => Navigate("/login", Some(from))
      case RedirectHome => Navigate("/", None)
      case Render => Show(page)
  }

  /**
   * `LoginPage`'s return target: the path carried in the redirect state,
   * or `/` when there is none or it is empty.
   */
  function ReturnTarget(from: Option<string>): (t: string)
    ensures t != ""
    ensures from.Some? && from.value != "" ==> t == from.value
    ensures !(from.Some? && from.value != "") ==> t == "/"
  {
    if from.Some? && from.value != "" then from.value else "/"
  }

  /** Every guarded page admits exactly one role, and only a user of that role sees it. */
  lemma GuardedPagesAdmitOneRole(s: Session, path: string)
    requires RouteFor(path).Guarded?
    requires !s.isLoading && IsAuthenticated(s) && s.user.Some?
    ensures |RouteFor(path).roles| == 1
    ensures View(s, path) == Show(RouteFor(path).page) <==> s.user.value.RoleOf() == RouteFor(path).roles[0]
    ensures View(s, path) != Show(RouteFor(path).page) ==> View(s, path) == Navigate("/", None)
  {
  }

  /**
   * The three protected pages and their single roles: appointments for
   * patients, the doctor dashboard for doctors, the admin dashboard for
   * administrators.
   */
  lemma ProtectedPageRoles(s: Session)
    requires !s.isLoading && IsAuthenticated(s) && s.user.Some?
    ensures View(s, "/appointments") == Show(AppointmentsPage) <==> s.user.value.RoleOf() == Patient
    ensures View(s, "/doctor-dashboard") == Show(DoctorDashboardPage) <==> s.user.value.RoleOf() == Doctor
    ensures View(s, "/admin-dashboard") == Show(AdminDashboardPage) <==> s.user.value.RoleOf() == Admin
  {
    GuardedPagesAdmitOneRole(s, "/appointments");
    GuardedPagesAdmitOneRole(s, "/doctor-dashboard");
    GuardedPagesAdmitOneRole(s, "/admin-dashboard");
  }

  /**
   * Home, login and register are open in every session; every path outside
   * the table sends the browser home.
   */
  lemma OpenAndUnknownPaths(s: Session, path: string)
    ensures View(s, "/") == Show(HomePage)
    ensures View(s, "/login") == Show(LoginPage)
    ensures View(s, "/register") == Show(RegisterPage)
    ensures path !in {"/", "/login", "/register", "/appointments", "/doctor-dashboard", "/admin-dashboard"} ==>
      View(s, path) == Navigate("/", None)
  {
  }

  /** While the session is being restored, a guarded page waits and never redirects. */
  lemma LoadingNeverRedirects(s: Session, path: string)
    requires s.isLoading && RouteFor(path).Guarded?
    ensures View(s, path) == Spinner
  {
  }

  /** Without authentication a guarded page sends the browser to login, remembering the path. */
  lemma SignedOutGoesToLogin(s: Session, path: string)
    requires !s.isLoading && !IsAuthenticated(s) && RouteFor(path).Guarded?
    ensures View(s, path) == Navigate("/login", Some(path))
    ensures ReturnTarget(Some(path)) == path
  {
  }

  /** A session with a token but no user passes the role check of every guarded page. */
  lemma TokenWithoutUserSeesEveryPage(s: Session, path: string)
    requires !s.isLoading && IsAuthenticated(s) && s.user.None?
    requires RouteFor(path).Guarded?
    ensures View(s, path) == Show(RouteFor(path).page)
  {
  }

  /**
   * Sign-in round trip: a signed-out visitor to a guarded page is sent to
   * login; after a successful login by a user of the page's role the login
   * page's return target shows that very page.
   */
  lemma LoginReturnsToRequestedPage(
    a: Auth, store: MockApi.Store, codec: Codec, email: string, password: string, path: string)
    requires RouteFor(path).Guarded?
    requires !a.session.isLoading && !IsAuthenticated(a.session)
    requires AuthContext.Login(a, store, codec, email, password).Ok?
    requires MockApi.Login(store, email).value.user.RoleOf() in RouteFor(path).roles
    ensures View(a.session, path) == Navigate("/login", Some(path))
    ensures var b := AuthContext.Login(a, store, codec, email, password).value;
      View(b.session, ReturnTarget(Some(path))) == Show(RouteFor(path).page)
  {
    var c := MockApi.Login(store, email).value;
    assert c.token[0] == MockApi.TokenPrefix[0];
  }

  /**
   * Restoring a session whose stored user does not parse, as written,
   * leaves the stored token installed and no user, so every guarded page
   * renders for a visitor of no role.
   */
  lemma CorruptUserOpensGuardedPages(storage: Storage, codec: Codec, path: string)
    requires Truthy(Get(storage, TokenKey)) && Truthy(Get(storage, UserKey))
    requires codec.parse(storage[UserKey]).None?
    requires RouteFor(path).Guarded?
    ensures var restored := LoadSession(Auth(Initial, storage), codec).session;
      restored.user.None? && IsAuthenticated(restored) && View(restored, path) == Show(RouteFor(path).page)
  {
  }

  /** A concrete instance: a token with an unparseable user opens the admin dashboard. */
  lemma CorruptUserOpensAdminDashboard(codec: Codec)
    requires codec.parse("{") == None
    ensures var restored := LoadSession(Auth(Initial, map[TokenKey := "t", UserKey := "{"]), codec).session;
      View(restored, "/admin-dashboard") == Show(AdminDashboardPage)
  {
    CorruptUserOpensGuardedPages(map[TokenKey := "t", UserKey := "{"], codec, "/admin-dashboard");
  }

  /** With the corrected restore, the same storage sends every guarded page to login. */
  lemma FixedRestoreKeepsGuardedPagesClosed(storage: Storage, codec: Codec, path: string)
    requires Truthy(Get(storage, TokenKey)) && Truthy(Get(storage, UserKey))
    requires codec.parse(storage[UserKey]).None?
    requires RouteFor(path).Guarded?
    ensures var restored := LoadSessionFixed(Auth(Initial, storage), codec).session;
      View(restored, path) == Navigate("/login", Some(path))
  {
  }
}
