/** The router: public login and registration pages, the user and admin
    areas behind a role guard, the root redirect, and the catch-all. */
module Routes {
  import opened Js

  /** The paths the route table distinguishes. `UserArea(sub)` is
      `/user/<sub>`, `AdminArea(sub)` is `/admin/<sub>`, `Unmatched` any path
      no route names. */
  datatype Path = Login | Register | UserArea(sub: string) | AdminArea(sub: string) | Root | Unmatched

  datatype Page =
    | LoginPage | RegistrationPage
    | UserDashboard | DataUpload | PredictionsPage | Reports | Alerts
    | AdminDashboard | UserManagement | CategoryManagement | DeviceManagement

  datatype Resolution = Render(page: Page) | Redirect(to: Path)

  const UserHome: Path := UserArea("dashboard")
  const AdminHome: Path := AdminArea("dashboard")

  /** `role === "admin" ? "/admin/dashboard" : "/user/dashboard"` */
  function DashboardFor(role: JsVal): (p: Path)
    ensures p == AdminHome <==> StrictEq(role, Str("admin"))
    ensures p == UserHome <==> !StrictEq(role, Str("admin"))
  {
    if StrictEq(role, Str("admin")) then AdminHome else UserHome
  }

  /** `ProtectedRoute`: unauthenticated visitors go to the login page. When a
      role is required (a truthy `requiredRole`), an authenticated role other
      than it goes to its own dashboard. Otherwise the children render, so a
      guard without a required role admits every signed-in role. */
  function Guard(authenticated: bool, role: JsVal, requiredRole: JsVal, children: Resolution): (r: Resolution)
    ensures !authenticated ==> r == Redirect(Login)
    ensures authenticated && Truthy(requiredRole) && !StrictEq(role, requiredRole) ==> r == Redirect(DashboardFor(role))
    ensures authenticated && (!Truthy(requiredRole) || StrictEq(role, requiredRole)) ==> r == children
  {
    if !authenticated then Redirect(Login)
    else if Truthy(requiredRole) && !StrictEq(role, requiredRole) then Redirect(DashboardFor(role))
    else children
  }

  function UserPage(sub: string): Resolution {
    if sub == "dashboard" then Render(UserDashboard)
    else if sub == "upload" then Render(DataUpload)
    else if sub == "predictions" then Render(PredictionsPage)
    else if sub == "reports" then Render(Reports)
    else if sub == "alerts" then Render(Alerts)
    else Redirect(UserHome)
  }

  function AdminPage(sub: string): Resolution {
    if sub == "dashboard" then Render(AdminDashboard)
    else if sub == "users" then Render(UserManagement)
    else if sub == "categories" then Render(CategoryManagement)
    else if sub == "devices" then Render(DeviceManagement)
    else Redirect(AdminHome)
  }

  /** What visiting `p` does, given the auth state. */
  function Route(authenticated: bool, role: JsVal, p: Path): Resolution {
    match p
    case Login => if authenticated then Redirect(DashboardFor(role)) else Render(LoginPage)
    case Register => if authenticated then Redirect(UserHome) else Render(RegistrationPage)
    case UserArea(sub) => Guard(authenticated, role, Str("user"), UserPage(sub))
    case AdminArea(sub) => Guard(authenticated, role, Str("admin"), AdminPage(sub))
    case Root => if authenticated then Redirect(DashboardFor(role)) else Redirect(Login)
    case Unmatched => Redirect(Root)
  }

  /** Visiting `p` and following at most `n` redirects. */
  function Follow(authenticated: bool, role: JsVal, p: Path, n: nat): Resolution
    decreases n
  {
    var r := Route(authenticated, role, p);
    if n == 0 || r.Render? then r else Follow(authenticated, role, r.to, n - 1)
  }

  predicate IsUserPage(page: Page) {
    page == UserDashboard || page == DataUpload || page == PredictionsPage || page == Reports || page == Alerts
  }

  predicate IsAdminPage(page: Page) {
    page == AdminDashboard || page == UserManagement || page == CategoryManagement || page == DeviceManagement
  }

  /** A page of an area renders only for an authenticated visitor holding that
      area's role, and the public pages only for visitors not signed in. */
  lemma PagesAreGuarded(authenticated: bool, role: JsVal, p: Path)
    ensures Route(authenticated, role, p).Render? ==>
      var page := Route(authenticated, role, p).page;
      && (IsUserPage(page) ==> authenticated && role == Str("user"))
      && (IsAdminPage(page) ==> authenticated && role == Str("admin"))
      && (page == LoginPage || page == RegistrationPage ==> !authenticated)
  {
  }

  /** The public and root routes: signed-in visitors at `/login` or `/` go to
      their role's dashboard, at `/register` always to the user dashboard;
      others see the page, or go from `/` to `/login`. */
  lemma PublicRoutes(authenticated: bool, role: JsVal)
    ensures Route(authenticated, role, Login) == if authenticated then Redirect(DashboardFor(role)) else Render(LoginPage)
    ensures Route(authenticated, role, Root) == if authenticated then Redirect(DashboardFor(role)) else Redirect(Login)
    ensures Route(authenticated, role, Register) == if authenticated then Redirect(UserHome) else Render(RegistrationPage)
  {
  }

  /** Every path settles on a page within three redirects for visitors not
      signed in and for the two known roles. */
  lemma KnownRolesSettle(authenticated: bool, role: JsVal, p: Path)
    requires !authenticated || role == Str("user") || role == Str("admin")
    ensures Follow(authenticated, role, p, 3).Render?
    ensures !authenticated ==>
      Follow(authenticated, role, p, 3) == if p == Register then Render(RegistrationPage) else Render(LoginPage)
  {
  }

  /** A signed-in role that is neither `user` nor `admin` (say `null`) is sent
      from every user-area path to the user dashboard, which sends it there
      again: however many redirects are followed, no page renders. */
  lemma {:induction false} UnknownRoleLoops(role: JsVal, sub: string, n: nat)
    requires role != Str("user") && role != Str("admin")
    ensures Route(true, role, UserArea(sub)) == Redirect(UserHome)
    ensures Follow(true, role, UserArea(sub), n) == Redirect(UserHome)
    decreases n
  {
    if n > 0 {
      UnknownRoleLoops(role, "dashboard", n - 1);
    }
  }
}
