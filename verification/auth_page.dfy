/**
 * The sign-in page's decisions: the redirect when already signed in, the
 * form defaults, the demo-account buttons, and navigation after a submit.
 */
module AuthPage {

  import opened Options
  import opened Strings
  import opened Users
  import opened Directory
  import opened Session
  import opened Routes

  /** What the page shows: a redirect to the dashboard, or the two forms. */
  datatype View = RedirectToDashboard | Forms

  function PageView(isAuthenticated: bool): (v: View)
    ensures v == RedirectToDashboard <==> isAuthenticated
  {
    if isAuthenticated then RedirectToDashboard else Forms
  }

  /** The page's local state: both forms' fields and the submit-in-progress flag. */
  datatype Form = Form(
    loginEmail: string,
    loginPassword: string,
    registerName: string,
    registerEmail: string,
    registerPassword: string,
    registerRole: Role,
    busy: bool)

  /** Empty fields, role `learner`, nothing in progress. */
  function InitialForm(): (f: Form)
    ensures f.registerRole == Learner && !f.busy
    ensures f.loginEmail == [] && f.loginPassword == []
    ensures f.registerName == [] && f.registerEmail == [] && f.registerPassword == []
  {
    Form([], [], [], [], [], Learner, false)
  }

  /** The roles the registration form offers, in the order it lists them. */
  function RegisterRoleOptions(): (rs: seq<Role>)
    ensures |rs| == 5 && rs[0] == Learner
    ensures forall r: Role :: r in rs
    ensures forall i, j :: 0 <= i < j < |rs| ==> rs[i] != rs[j]
  {
    var rs := [Learner, Educator, Organization, Researcher, Admin];
    assert forall r: Role :: rs[OptionPosition(r)] == r && r in rs;
    rs
  }

  /** Where the role selector lists each role. */
  function OptionPosition(r: Role): nat {
    match r
    case Learner => 0
    case Educator => 1
    case Organization => 2
    case Researcher => 3
    case Admin => 4
  }

  /** The labels of the demo-account buttons: the role names, in directory order. */
  function DemoRoles(): (names: seq<string>)
    ensures |names| == 5
    ensures forall i :: 0 <= i < |names| ==> names[i] == RoleName(AllRoles()[i])
  {
    ["admin", "educator", "learner", "organization", "researcher"]
  }

  const DemoDomain: string := "@guardianio.com"

  /** A demo button fills the login form with `<role>@guardianio.com` and the demo password. */
  function FillDemo(f: Form, roleLabel: string): (g: Form)
    ensures g.loginEmail == roleLabel + DemoDomain && g.loginPassword == DemoPassword
    ensures g.(loginEmail := f.loginEmail, loginPassword := f.loginPassword) == f
  {
    f.(loginEmail := roleLabel + DemoDomain, loginPassword := DemoPassword)
  }

  /** The result of a submit: where the page navigates, if anywhere, and the state after. */
  datatype Submission = Submission(navigate: Option<Route>, form: Form, session: Session)

  /**
   * Submit the login form. The page goes to the dashboard exactly when the
   * login succeeded; the in-progress flag is cleared either way.
   */
  function HandleLogin(dir: seq<Account>, f: Form, ses: Session): (r: Submission)
    ensures r.navigate.Some? <==> Login(dir, ses, f.loginEmail, f.loginPassword).ok
    ensures r.navigate.Some? ==> r.navigate.value == DashboardRoute
    ensures r.form == f.(busy := false)
    ensures r.session == Login(dir, ses, f.loginEmail, f.loginPassword).session
  {
    var out := Login(dir, ses, f.loginEmail, f.loginPassword);
    Submission(if out.ok then Some(DashboardRoute) else None, f.(busy := false), out.session)
  }

  /**
   * Submit the registration form with its chosen role. The page goes to the
   * dashboard exactly when the registration succeeded; the in-progress flag
   * is cleared either way.
   */
  function HandleRegister(dir: seq<Account>, f: Form, ses: Session, now: Timestamp): (r: Submission)
    ensures var out := Register(dir, ses, f.registerEmail, f.registerPassword, f.registerName, f.registerRole, now);
      && (r.navigate.Some? <==> out.ok)
      && r.session == out.session
    ensures r.navigate.Some? ==> r.navigate.value == DashboardRoute
    ensures r.form == f.(busy := false)
  {
    var out := Register(dir, ses, f.registerEmail, f.registerPassword, f.registerName, f.registerRole, now);
    Submission(if out.ok then Some(DashboardRoute) else None, f.(busy := false), out.session)
  }

  /** The demo login for a role's own directory entry, by position. */
  lemma DemoEmailIsEntry(loadedAt: Timestamp, r: Role)
    requires r != Organization
    ensures RoleName(r) + DemoDomain == MockUsers(loadedAt)[RoleIndex(r)].email
  {
    var dir := MockUsers(loadedAt);
    assert dir[0].email == "admin" + DemoDomain;
    assert dir[1].email == "educator" + DemoDomain;
    assert dir[2].email == "learner" + DemoDomain;
    assert dir[4].email == "researcher" + DemoDomain;
  }

  /** The organization demo address matches no directory entry, even ignoring case. */
  lemma OrganizationDemoEmailUnknown(loadedAt: Timestamp)
    ensures forall i :: 0 <= i < |MockUsers(loadedAt)| ==> !SameEmail(MockUsers(loadedAt)[i].email, RoleName(Organization) + DemoDomain)
  {
    var dir := MockUsers(loadedAt);
    var e := RoleName(Organization) + DemoDomain;
    assert e[..4] == "orga";
    LowerDiffers(dir[0].email, e, 0);
    LowerDiffers(dir[1].email, e, 0);
    LowerDiffers(dir[2].email, e, 0);
    LowerDiffers(dir[3].email, e, 3);
    LowerDiffers(dir[4].email, e, 0);
  }

  /**
   * Pressing a role's demo button and submitting leads to the dashboard for
   * every role except `organization`, whose filled-in address is not in the
   * directory.
   */
  lemma DemoLoginSucceedsExceptOrganization(loadedAt: Timestamp, f: Form, ses: Session, r: Role)
    ensures HandleLogin(MockUsers(loadedAt), FillDemo(f, RoleName(r)), ses).navigate.Some?
            <==> r != Organization
  {
    var dir := MockUsers(loadedAt);
    var g := FillDemo(f, RoleName(r));
    if r == Organization {
      OrganizationDemoEmailUnknown(loadedAt);
    } else {
      DemoEmailIsEntry(loadedAt, r);
      assert Matches(dir[RoleIndex(r)], g.loginEmail, g.loginPassword);
    }
  }

  /**
   * The forms are shown only to a visitor nobody is signed in as, also while
   * the stored session is still being restored. From there
   * a submit navigates to the dashboard exactly when the page, redrawn with
   * the new state, would redirect there itself.
   */
  lemma NavigationAgreesWithRedirect(dir: seq<Account>, f: Form, ses: Session, now: Timestamp)
    requires PageView(ses.auth.isAuthenticated) == Forms
    ensures var r := HandleLogin(dir, f, ses);
      r.navigate.Some? <==> PageView(r.session.auth.isAuthenticated) == RedirectToDashboard
    ensures var r := HandleRegister(dir, f, ses, now);
      r.navigate.Some? <==> PageView(r.session.auth.isAuthenticated) == RedirectToDashboard
  {
  }
}
