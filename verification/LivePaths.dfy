/** The route catalogue, the live paths, and which of them a viewer may open. */
module LivePaths {
  import opened Common
  import opened Paths

  // ---------- Route catalogue ----------

  const HOME := "/"
  const LOGIN_SELECT := "/login-select"
  const LOGIN := "/auth/login"
  const DASHBOARD := "/karvita/dashboard"
  const ADMIN_DASHBOARD := "/karvita/admin/dashboard"

  function Profile(role: string): string {
    "/karvita/" + role + "/profile"
  }

  /** Live pages other than the landing page. */
  const LIVE_BELOW_HOME: seq<string> := [
    LOGIN_SELECT, LOGIN, "/auth/register", "/auth/forgot", "/admin",
    DASHBOARD, ADMIN_DASHBOARD,
    "/karvita/admin/organizational-structure", "/karvita/admin/user-creation",
    "/karvita/admin/onboarding-approvals", "/karvita/admin/landing-cms",
    "/karvita/admin/syllabus/course-offerings", "/karvita/admin/syllabus/term-settings",
    "/karvita/admin/syllabus/courses",
    "/karvita/daily-approvals", "/karvita/capacities", "/karvita/announcements",
    "/karvita/reports", "/karvita/reports/comparative",
    "/karvita/internships/1", "/karvita/internships/2", "/karvita/internships/3", "/karvita/internships/4"
  ]

  const INDEX_REDIRECTS: seq<string> := ["/karvita/admin/syllabus", "/karvita/internships"]

  const ASSISTANT_BLOCKED: seq<string> := [
    "/karvita/admin/user-creation", "/karvita/admin/syllabus/term-settings", "/karvita/admin/syllabus/courses"
  ]

  predicate Under(base: string, path: string) {
    path == base || base + "/" <= path
  }

  predicate IsAuthPath(p: string) {
    var n := NormalizePathname(p);
    Under("/auth", n) || n == "/admin"
  }

  predicate IsMarketingCmsPath(p: string) {
    Under("/p", NormalizePathname(p))
  }

  predicate IsAppShellPath(p: string) {
    Under("/karvita", NormalizePathname(p))
  }

  predicate IsAdminControlPlanePath(p: string) {
    var n := NormalizePathname(p);
    n == ADMIN_DASHBOARD || "/karvita/admin/" <= n
  }

  /** `^/karvita/[^/]+/profile$` */
  predicate IsProfileShape(n: string) {
    && |n| > 17 && "/karvita/" <= n && n[|n| - 8..] == "/profile"
    && '/' !in n[9..|n| - 8]
  }

  predicate IsKarvitaProfilePath(p: string) {
    IsProfileShape(NormalizePathname(p))
  }

  /** `^/karvita/internships/\d+$` */
  predicate IsInternshipLevelPath(p: string) {
    var n := NormalizePathname(p);
    && |n| > 21 && "/karvita/internships/" <= n
    && forall i :: 21 <= i < |n| ==> '0' <= n[i] <= '9'
  }

  predicate IsLiveStaticNavPath(p: string) {
    var n := NormalizePathname(p);
    n == HOME || n in LIVE_BELOW_HOME || IsInternshipLevelPath(n)
  }

  predicate IsNavigableAppPath(p: string) {
    var n := NormalizePathname(p);
    IsKarvitaProfilePath(n) || n in INDEX_REDIRECTS || IsLiveStaticNavPath(n)
  }

  /** Targets for recovering a broken URL: every live path but the landing page. */
  function ListNavigableRecoveryPaths(): seq<string> {
    LIVE_BELOW_HOME + INDEX_REDIRECTS
  }

  // ---------- Viewers ----------

  datatype User = User(role: string, approved: bool)

  predicate IsStaffAdminRole(role: string) {
    role == "super_admin" || role == "assistant_admin"
  }

  /** Only the two staff roles have modules that never wait for approval; unknown roles count as students. */
  predicate AreModulesUnlocked(u: User) {
    IsStaffAdminRole(u.role) || u.approved
  }

  predicate CanAccessAdminControlPlane(role: string, p: string) {
    && IsAdminControlPlanePath(p)
    && (role == "super_admin" || (role == "assistant_admin" && NormalizePathname(p) !in ASSISTANT_BLOCKED))
  }

  predicate CanAccessReturnPath(u: User, p: string) {
    var n := NormalizePathname(p);
    if !IsNavigableAppPath(n) then false
    else if !AreModulesUnlocked(u) then n == Profile(u.role)
    else if IsKarvitaProfilePath(n) then true
    else if IsAdminControlPlanePath(n) && !CanAccessAdminControlPlane(u.role, n) then false
    else !(IsStaffAdminRole(u.role) && n == DASHBOARD)
  }

  /** `None` is an anonymous viewer. */
  predicate IsPathAllowedForViewer(p: string, viewer: Option<User>) {
    IsNavigableAppPath(p)
    && (if viewer.Some? then CanAccessReturnPath(viewer.value, p) else !IsAppShellPath(p))
  }

  function GetPostLoginPath(viewer: Option<User>): string {
    match viewer
    case None => LOGIN
    case Some(u) =>
      if IsStaffAdminRole(u.role) then ADMIN_DASHBOARD
      else if !AreModulesUnlocked(u) then Profile(u.role)
      else DASHBOARD
  }

  /** `safe` is the return URL once the URL filter has accepted it. */
  function ResolvePostAuthPath(viewer: Option<User>, safe: Option<string>): string {
    var home := GetPostLoginPath(viewer);
    if viewer.None? || safe.None? then home
    else if CanAccessReturnPath(viewer.value, safe.value) then safe.value
    else home
  }

  // ---------- The pages viewers are sent to admit them ----------

  /** A role name that can stand in a path, as every role of the source can. */
  predicate PlainRole(role: string) {
    role != "" && '/' !in role && '?' !in role
  }

  lemma ProfileIsNavigable(role: string)
    requires PlainRole(role)
    ensures NormalizePathname(Profile(role)) == Profile(role)
    ensures IsKarvitaProfilePath(Profile(role)) && IsNavigableAppPath(Profile(role))
    ensures IsAppShellPath(Profile(role)) && Profile(role) != DASHBOARD
  {
    var n := Profile(role);
    assert n[|n| - 1] == 'e' && n[|n| - 8] == '/' && '?' !in n;
    NormalIsFixed(n);
    assert n[9..|n| - 8] == role;
    assert n[|n| - 8..] == "/profile";
  }

  lemma LiveIsNavigable(n: string)
    requires IsNormal(n) && (n == HOME || n in LIVE_BELOW_HOME)
    ensures IsNavigableAppPath(n)
  {
    NormalIsFixed(n);
  }

  /** An unlocked user may open any live page outside the admin plane that is not hidden from staff. */
  lemma UnlockedMayOpen(u: User, n: string)
    requires IsNormal(n) && (n == HOME || n in LIVE_BELOW_HOME)
    requires AreModulesUnlocked(u) && !("/karvita/admin/" <= n) && n != ADMIN_DASHBOARD
    requires IsStaffAdminRole(u.role) ==> n != DASHBOARD
    ensures CanAccessReturnPath(u, n)
  {
    LiveIsNavigable(n);
    NormalIsFixed(n);
  }

  lemma StaffMayOpen(u: User, n: string)
    requires IsNormal(n) && n in LIVE_BELOW_HOME && IsStaffAdminRole(u.role)
    requires "/karvita/admin/" <= n && n !in ASSISTANT_BLOCKED && n != DASHBOARD
    ensures CanAccessReturnPath(u, n)
  {
    LiveIsNavigable(n);
    NormalIsFixed(n);
  }

  lemma DashboardIsLive()
    ensures IsNormal(DASHBOARD) && DASHBOARD in LIVE_BELOW_HOME
    ensures !("/karvita/admin/" <= DASHBOARD) && DASHBOARD != ADMIN_DASHBOARD
  {
    assert LIVE_BELOW_HOME[5] == DASHBOARD;
    assert DASHBOARD[9] == 'd' && "/karvita/admin/"[9] == 'a';
  }

  lemma AdminDashboardIsLive()
    ensures IsNormal(ADMIN_DASHBOARD) && ADMIN_DASHBOARD in LIVE_BELOW_HOME
    ensures "/karvita/admin/" <= ADMIN_DASHBOARD && ADMIN_DASHBOARD != DASHBOARD
    ensures ADMIN_DASHBOARD !in ASSISTANT_BLOCKED
  {
    assert LIVE_BELOW_HOME[6] == ADMIN_DASHBOARD;
    assert && |ADMIN_DASHBOARD| == 24 && |ASSISTANT_BLOCKED[0]| == 28
           && |ASSISTANT_BLOCKED[1]| == 37 && |ASSISTANT_BLOCKED[2]| == 31;
  }

  /** Every signed-in user may open the page that login leads to. */
  lemma HomeIsAccessible(u: User)
    requires PlainRole(u.role)
    ensures CanAccessReturnPath(u, GetPostLoginPath(Some(u)))
  {
    if IsStaffAdminRole(u.role) {
      AdminDashboardIsLive();
      StaffMayOpen(u, ADMIN_DASHBOARD);
    } else if !AreModulesUnlocked(u) {
      ProfileIsNavigable(u.role);
    } else {
      DashboardIsLive();
      UnlockedMayOpen(u, DASHBOARD);
    }
  }

  /** Whatever URL was asked for, a signed-in user is sent to a page they may open; nobody else leaves login. */
  lemma PostAuthPathIsAccessible(viewer: Option<User>, safe: Option<string>)
    requires viewer.Some? ==> PlainRole(viewer.value.role)
    ensures var r := ResolvePostAuthPath(viewer, safe);
      && (viewer.None? ==> r == LOGIN)
      && (viewer.Some? ==> CanAccessReturnPath(viewer.value, r))
      && (viewer.Some? && safe.Some? && r != safe.value ==> !CanAccessReturnPath(viewer.value, safe.value))
  {
    if viewer.Some? {
      HomeIsAccessible(viewer.value);
    }
  }

  // ---------- Who may open what ----------

  lemma UnderIs(base: string, path: string)
    ensures Under(base, path) <==> path == base || exists rest :: path == base + "/" + rest
  {
    if base + "/" <= path {
      assert path == base + "/" + path[|base| + 1..];
    }
    if rest :| path == base + "/" + rest {
      assert base + "/" <= path;
    }
  }

  /** The profile pages are those of one segment between the application's and `profile`. */
  lemma ProfilePages(n: string)
    ensures IsProfileShape(n) <==> exists role :: role != "" && '/' !in role && n == Profile(role)
  {
    if IsProfileShape(n) {
      var role := n[9..|n| - 8];
      assert n[..9] == "/karvita/";
      assert n == n[..9] + role + n[|n| - 8..];
    }
    if role :| role != "" && '/' !in role && n == Profile(role) {
      assert n[9..|n| - 8] == role && n[|n| - 8..] == "/profile";
    }
  }

  ghost predicate Numeral(s: string) {
    s != "" && forall i :: 0 <= i < |s| ==> s[i] in "0123456789"
  }

  lemma DigitIs(c: char)
    ensures '0' <= c <= '9' <==> c in "0123456789"
  {
    var d := "0123456789";
    assert d[0] == '0' && d[1] == '1' && d[2] == '2' && d[3] == '3' && d[4] == '4';
    assert d[5] == '5' && d[6] == '6' && d[7] == '7' && d[8] == '8' && d[9] == '9';
  }

  lemma NumeralIs(s: string)
    ensures Numeral(s) <==> s != "" && forall i :: 0 <= i < |s| ==> '0' <= s[i] <= '9'
  {
    forall i | 0 <= i < |s| ensures '0' <= s[i] <= '9' <==> s[i] in "0123456789" {
      DigitIs(s[i]);
    }
  }

  /** Every level of the internships has a page, whatever its number. */
  lemma InternshipPages(n: string)
    requires NormalizePathname(n) == n
    ensures IsInternshipLevelPath(n) <==> exists level :: Numeral(level) && n == "/karvita/internships/" + level
  {
    if IsInternshipLevelPath(n) {
      assert n == "/karvita/internships/" + n[21..];
      NumeralIs(n[21..]);
    }
    if level :| Numeral(level) && n == "/karvita/internships/" + level {
      assert n[21..] == level;
      NumeralIs(level);
    }
  }

  /** The live pages: the landing page, those a broken address can be sent to, profiles and internship levels. */
  lemma NavigablePages(n: string)
    requires NormalizePathname(n) == n
    ensures IsNavigableAppPath(n) <==>
      || n == "/" || n in ListNavigableRecoveryPaths()
      || (exists role :: role != "" && '/' !in role && n == Profile(role))
      || exists level :: Numeral(level) && n == "/karvita/internships/" + level
  {
    ProfilePages(n);
    InternshipPages(n);
  }

  ghost predicate InAdmin(n: string) {
    exists rest :: n == "/karvita/admin/" + rest
  }

  /** Who may open a live page: a user awaiting approval only their own profile, the others by their role. */
  ghost predicate Admits(u: User, n: string) {
    var hidden := {"/karvita/admin/user-creation", "/karvita/admin/syllabus/term-settings",
                   "/karvita/admin/syllabus/courses"};
    if u.role == "super_admin" then n != "/karvita/dashboard"
    else if u.role == "assistant_admin" then n != "/karvita/dashboard" && n !in hidden
    else if !u.approved then n == Profile(u.role)
    else IsProfileShape(n) || !InAdmin(n)
  }

  lemma InAdminIs(n: string)
    requires NormalizePathname(n) == n
    ensures IsAdminControlPlanePath(n) <==> InAdmin(n)
  {
    if "/karvita/admin/" <= n {
      assert n == "/karvita/admin/" + n[15..];
    }
    AdminDashboardIsLive();
  }

  lemma ProfileEnds(n: string)
    ensures IsProfileShape(n) ==> n[|n| - 1] == 'e'
  {
    if IsProfileShape(n) {
      assert n[|n| - 8..][7] == n[|n| - 1] && "/profile"[7] == 'e';
    }
  }

  lemma AdminPageIs(n: string, tail: string)
    requires n == "/karvita/admin/" + tail && tail != "" && tail[|tail| - 1] != 'e'
    ensures InAdmin(n) && !IsProfileShape(n)
  {
    ProfileEnds(n);
    assert n[|n| - 1] == tail[|tail| - 1];
  }

  lemma UserCreationIs()
    ensures var n := "/karvita/admin/user-creation"; InAdmin(n) && !IsProfileShape(n)
  {
    AdminPageIs("/karvita/admin/user-creation", "user-creation");
  }

  lemma TermSettingsIs()
    ensures var n := "/karvita/admin/syllabus/term-settings"; InAdmin(n) && !IsProfileShape(n)
  {
    AdminPageIs("/karvita/admin/syllabus/term-settings", "syllabus/term-settings");
  }

  lemma CoursesIs()
    ensures var n := "/karvita/admin/syllabus/courses"; InAdmin(n) && !IsProfileShape(n)
  {
    AdminPageIs("/karvita/admin/syllabus/courses", "syllabus/courses");
  }

  lemma DashboardIsNoProfile()
    ensures !IsProfileShape(DASHBOARD)
  {
    ProfileEnds(DASHBOARD);
    assert DASHBOARD[|DASHBOARD| - 1] == 'd';
  }

  lemma BlockedAre(n: string)
    ensures n in ASSISTANT_BLOCKED || n == DASHBOARD ==> !IsProfileShape(n)
    ensures n in ASSISTANT_BLOCKED ==> InAdmin(n)
  {
    UserCreationIs();
    TermSettingsIs();
    CoursesIs();
    DashboardIsNoProfile();
  }

  lemma AccessByRole(u: User, n: string)
    requires NormalizePathname(n) == n
    ensures CanAccessReturnPath(u, n) <==> IsNavigableAppPath(n) && Admits(u, n)
  {
    InAdminIs(n);
    BlockedAre(n);
  }

  /** Where login leads, and what an anonymous viewer may open. */
  lemma LandingByRole(u: User, n: string)
    requires NormalizePathname(n) == n
    ensures GetPostLoginPath(None) == "/auth/login"
    ensures GetPostLoginPath(Some(u)) ==
      if u.role in {"super_admin", "assistant_admin"} then "/karvita/admin/dashboard"
      else if u.approved then "/karvita/dashboard" else "/karvita/" + u.role + "/profile"
    ensures IsPathAllowedForViewer(n, None) <==>
      IsNavigableAppPath(n) && n != "/karvita" && forall rest :: n != "/karvita/" + rest
  {
    UnderIs("/karvita", n);
    assert "/karvita" + "/" == "/karvita/";
  }
}
