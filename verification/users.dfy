/**
 * The user data types: the closed set of roles, the user record and the
 * authentication state shared by every page.
 */
module Users {

  import opened Options

  /** The five account kinds; no other value is a role. */
  datatype Role = Admin | Educator | Learner | Organization | Researcher

  /** The string literal that stands for each role. */
  function RoleName(r: Role): string {
    match r
    case Admin => "admin"
    case Educator => "educator"
    case Learner => "learner"
    case Organization => "organization"
    case Researcher => "researcher"
  }

  /** Reading a string as a role: it is one exactly when it is one of the five literals. */
  function ParseRole(s: string): (r: Option<Role>)
    ensures r.Some? ==> RoleName(r.value) == s
    ensures (exists q :: RoleName(q) == s) ==> r.Some?
  {
    if s == "admin" then Some(Admin)
    else if s == "educator" then Some(Educator)
    else if s == "learner" then Some(Learner)
    else if s == "organization" then Some(Organization)
    else if s == "researcher" then Some(Researcher)
    else None
  }

  /** Every role reads back from its name. */
  lemma RoleNameRoundTrip(r: Role)
    ensures ParseRole(RoleName(r)) == Some(r)
  {
  }

  /** The roles in the order the directory and the demo buttons list them. */
  function AllRoles(): (rs: seq<Role>)
    ensures |rs| == 5
    ensures forall r: Role :: r in rs
    ensures forall r: Role :: RoleIndex(r) < |rs| && rs[RoleIndex(r)] == r
    ensures forall i, j :: 0 <= i < j < |rs| ==> rs[i] != rs[j]
  {
    var rs := [Admin, Educator, Learner, Organization, Researcher];
    assert forall r: Role :: rs[RoleIndex(r)] == r && r in rs;
    rs
  }

  /** The position of each role in `AllRoles`. */
  function RoleIndex(r: Role): nat {
    match r
    case Admin => 0
    case Educator => 1
    case Learner => 2
    case Organization => 3
    case Researcher => 4
  }

  /** An opaque clock reading (a `Date`). */
  datatype Timestamp = Timestamp(millis: int)

  /**
   * A signed-in user. `id`, `name`, `email`, `role` and `createdAt` are
   * always present; `avatar` and `organization` may be absent.
   */
  datatype User = User(
    id: string,
    name: string,
    email: string,
    role: Role,
    avatar: Option<string>,
    createdAt: Timestamp,
    organization: Option<string>)

  /** What every page sees of the session: a possibly absent user and two flags. */
  datatype AuthState = AuthState(user: Option<User>, isAuthenticated: bool, isLoading: bool)

  /** The state's flag agrees with the presence of a user. */
  predicate Consistent(s: AuthState) {
    s.isAuthenticated == s.user.Some?
  }
}
