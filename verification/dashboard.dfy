/**
 * The dashboard page's decisions: the loading and sign-in guard, and the
 * dispatch from the user's role to an icon and a dashboard panel.
 */
module DashboardPage {

  import opened Options
  import opened Users
  import opened Directory
  import opened Session
  import opened Routes

  datatype Icon = ShieldIcon | GraduationCapIcon | BookOpenIcon | BuildingIcon | FlaskIcon | GenericUserIcon

  datatype Panel =
    | AdminDashboard
    | EducatorDashboard
    | LearnerDashboard
    | OrganizationDashboard
    | ResearcherDashboard
    | UnknownRoleDashboard

  /** What the page shows. `role` is `user?.role`, absent when there is no user. */
  datatype View =
    | LoadingView
    | RedirectView(to: Route)
    | RoleView(role: Option<Role>, icon: Icon, panel: Panel)

  /** The role a dashboard panel is for; the fallback panel is for none. */
  function PanelRole(p: Panel): Option<Role> {
    match p
    case AdminDashboard => Some(Admin)
    case EducatorDashboard => Some(Educator)
    case LearnerDashboard => Some(Learner)
    case OrganizationDashboard => Some(Organization)
    case ResearcherDashboard => Some(Researcher)
    case UnknownRoleDashboard => None
  }

  /** The role an icon stands for; the generic icon stands for none. */
  function IconRole(i: Icon): Option<Role> {
    match i
    case ShieldIcon => Some(Admin)
    case GraduationCapIcon => Some(Educator)
    case BookOpenIcon => Some(Learner)
    case BuildingIcon => Some(Organization)
    case FlaskIcon => Some(Researcher)
    case GenericUserIcon => None
  }

  /**
   * The icon for a role. The fallback is taken only when there is no role,
   * and each role gets an icon of its own.
   */
  function RoleIcon(role: Option<Role>): (i: Icon)
    ensures IconRole(i) == role
    ensures i == GenericUserIcon <==> role.None?
  {
    match role
    case Some(Admin) => ShieldIcon
    case Some(Educator) => GraduationCapIcon
    case Some(Learner) => BookOpenIcon
    case Some(Organization) => BuildingIcon
    case Some(Researcher) => FlaskIcon
    case None => GenericUserIcon
  }

  /**
   * The dashboard panel for a role. Reading the panel's role back gives the
   * role, so distinct roles get distinct panels; the fallback panel is taken
   * only when there is no role.
   */
  function DashboardContent(role: Option<Role>): (p: Panel)
    ensures PanelRole(p) == role
    ensures p == UnknownRoleDashboard <==> role.None?
  {
    match role
    case Some(Admin) => AdminDashboard
    case Some(Educator) => EducatorDashboard
    case Some(Learner) => LearnerDashboard
    case Some(Organization) => OrganizationDashboard
    case Some(Researcher) => ResearcherDashboard
    case None => UnknownRoleDashboard
  }

  /** Distinct roles get distinct dashboards. */
  lemma DashboardContentInjective(a: Role, b: Role)
    requires a != b
    ensures DashboardContent(Some(a)) != DashboardContent(Some(b))
  {
    assert PanelRole(DashboardContent(Some(a))) != PanelRole(DashboardContent(Some(b)));
  }

  /**
   * The page: the loading view while loading (decided before anything
   * else), a redirect to the sign-in page when nobody is signed in, and
   * otherwise the role's icon and panel.
   */
  function Page(s: AuthState): (v: View)
    ensures v == LoadingView <==> s.isLoading
    ensures v == RedirectView(AuthRoute) <==> !s.isLoading && !s.isAuthenticated
    ensures !s.isLoading && s.isAuthenticated ==> v.RoleView?
    ensures v.RoleView? ==> v.role == (if s.user.Some? then Some(s.user.value.role) else None)
    ensures v.RoleView? ==> IconRole(v.icon) == v.role && PanelRole(v.panel) == v.role
  {
    if s.isLoading then LoadingView
    else if !s.isAuthenticated then RedirectView(AuthRoute)
    else
      var role := if s.user.Some? then Some(s.user.value.role) else None;
      RoleView(role, RoleIcon(role), DashboardContent(role))
  }

  /** In a consistent state the fallback icon and panel are never shown. */
  lemma ConsistentNeverFallsBack(s: AuthState)
    requires Consistent(s) && !s.isLoading && s.isAuthenticated
    ensures Page(s).RoleView?
    ensures Page(s).icon != GenericUserIcon && Page(s).panel != UnknownRoleDashboard
    ensures Page(s).role == Some(s.user.value.role)
  {
  }

  /**
   * After any page load and any actions the dashboard shows either the
   * redirect to sign-in or the signed-in user's own dashboard, never the
   * loading view or the fallback.
   */
  lemma BootedPageIsRedirectOrOwnDashboard(dir: seq<Account>, stored: Store, events: seq<Event>)
    ensures var ses := Boot(dir, stored, events);
      if ses.auth.user.Some? then
        Page(ses.auth) == RoleView(Some(ses.auth.user.value.role),
                                   RoleIcon(Some(ses.auth.user.value.role)),
                                   DashboardContent(Some(ses.auth.user.value.role)))
      else Page(ses.auth) == RedirectView(AuthRoute)
  {
    BootSettledAndReloadable(dir, stored, events);
  }

  /**
   * The same for a page load with the restore as the provider performs it,
   * from any stored value the application itself can write.
   */
  lemma BootedAsWrittenPageIsRedirectOrOwnDashboard(dir: seq<Account>, stored: Store, events: seq<Event>)
    requires stored != Some(Null)
    ensures var ses := BootAsWritten(dir, stored, events);
      if ses.auth.user.Some? then
        Page(ses.auth) == RoleView(Some(ses.auth.user.value.role),
                                   RoleIcon(Some(ses.auth.user.value.role)),
                                   DashboardContent(Some(ses.auth.user.value.role)))
      else Page(ses.auth) == RedirectView(AuthRoute)
  {
    BootedPageIsRedirectOrOwnDashboard(dir, stored, events);
  }

  /** The restore as written reaches the fallback dashboard from a stored `null`. */
  lemma NullRecordShowsUnknownDashboard()
    ensures Page(RestoreAsWritten(Some(Null)).auth) == RoleView(None, GenericUserIcon, UnknownRoleDashboard)
    ensures Page(Restore(Some(Null)).auth) == RedirectView(AuthRoute)
  {
  }
}
