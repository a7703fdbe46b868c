/**
 * The fixed account directory the session manager checks credentials
 * against, and the two lookups it makes in it: `find` for login and
 * `some` for the duplicate check of registration.
 */
module Directory {

  import opened Options
  import opened Strings
  import opened Users

  /** A directory entry: a user record that also carries its password. */
  datatype Account = Account(
    id: string,
    name: string,
    email: string,
    password: string,
    role: Role,
    avatar: Option<string>,
    createdAt: Timestamp,
    organization: Option<string>)

  /** The record with the password field removed: putting the password back gives the entry again. */
  function WithoutPassword(a: Account): (u: User)
    ensures WithPassword(u, a.password) == a
  {
    User(a.id, a.name, a.email, a.role, a.avatar, a.createdAt, a.organization)
  }

  /** A user record extended with a password field. */
  function WithPassword(u: User, password: string): Account {
    Account(u.id, u.name, u.email, password, u.role, u.avatar, u.createdAt, u.organization)
  }

  const DemoPassword: string := "password123"
  const AvatarPrefix: string := "https://api.dicebear.com/6.x/avataaars/svg?seed="

  /**
   * The five demonstration accounts, one per role. Their `createdAt` is the
   * moment the directory was built, `loadedAt`.
   */
  function MockUsers(loadedAt: Timestamp): (dir: seq<Account>)
    ensures |dir| == 5
    ensures forall i :: 0 <= i < |dir| ==> dir[i].password == DemoPassword
    ensures forall i :: 0 <= i < |dir| ==> dir[i].role == AllRoles()[i]
    ensures forall i :: 0 <= i < |dir| ==> (dir[i].organization.Some? <==> dir[i].role == Organization)
    ensures forall i :: 0 <= i < |dir| ==> dir[i].id == DecimalString(i + 1)
    ensures dir[3].email == "org@guardianio.com"
  {
    [ Account("1", "Admin User", "admin@guardianio.com", DemoPassword, Admin,
              Some(AvatarPrefix + "admin"), loadedAt, None),
      Account("2", "Educator Demo", "educator@guardianio.com", DemoPassword, Educator,
              Some(AvatarPrefix + "educator"), loadedAt, None),
      Account("3", "Learner Demo", "learner@guardianio.com", DemoPassword, Learner,
              Some(AvatarPrefix + "learner"), loadedAt, None),
      Account("4", "Organization Demo", "org@guardianio.com", DemoPassword, Organization,
              Some(AvatarPrefix + "organization"), loadedAt, Some("Demo Corp")),
      Account("5", "Researcher Demo", "researcher@guardianio.com", DemoPassword, Researcher,
              Some(AvatarPrefix + "researcher"), loadedAt, None) ]
  }

  /** Two e-mail addresses are the same when they agree after lower-casing. */
  predicate SameEmail(a: string, b: string) {
    Lower(a) == Lower(b)
  }

  /** An entry accepts the credentials: e-mail ignoring case, password exactly. */
  predicate Matches(a: Account, email: string, password: string) {
    SameEmail(a.email, email) && a.password == password
  }

  /** The position of the first entry that accepts the credentials, if any. */
  function Find(dir: seq<Account>, email: string, password: string): (r: Option<nat>)
    ensures r.Some? ==> r.value < |dir| && Matches(dir[r.value], email, password)
    ensures r.Some? ==> forall j :: 0 <= j < r.value ==> !Matches(dir[j], email, password)
    ensures r.None? ==> forall j :: 0 <= j < |dir| ==> !Matches(dir[j], email, password)
  {
    if |dir| == 0 then None
    else if Matches(dir[0], email, password) then Some(0)
    else match Find(dir[1..], email, password)
      case None => None
      case Some(k) => Some(k + 1)
  }

  /** Whether some entry has the given e-mail address, ignoring case. */
  function EmailTaken(dir: seq<Account>, email: string): (b: bool)
    ensures b <==> exists i :: 0 <= i < |dir| && SameEmail(dir[i].email, email)
  {
    if |dir| == 0 then false
    else SameEmail(dir[0].email, email) || EmailTaken(dir[1..], email)
  }

  /** No two demonstration accounts share an e-mail address, even ignoring case. */
  lemma MockEmailsDistinct(loadedAt: Timestamp)
    ensures var dir := MockUsers(loadedAt);
      forall i, j :: 0 <= i < j < |dir| ==> !SameEmail(dir[i].email, dir[j].email)
  {
    var dir := MockUsers(loadedAt);
    // The first characters already tell the addresses apart.
    forall i, j | 0 <= i < j < |dir|
      ensures !SameEmail(dir[i].email, dir[j].email)
    {
      LowerDiffers(dir[i].email, dir[j].email, 0);
    }
  }

  /** With distinct e-mail addresses, at most one entry accepts any credentials. */
  lemma MatchUnique(dir: seq<Account>, email: string, password: string, i: nat, j: nat)
    requires forall p, q :: 0 <= p < q < |dir| ==> !SameEmail(dir[p].email, dir[q].email)
    requires i < |dir| && j < |dir|
    requires Matches(dir[i], email, password) && Matches(dir[j], email, password)
    ensures i == j
  {
    if i < j {
      assert SameEmail(dir[i].email, dir[j].email);
    } else if j < i {
      assert SameEmail(dir[j].email, dir[i].email);
    }
  }
}
