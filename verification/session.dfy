/**
 * The session manager: the authentication state together with the one
 * persisted storage key, and the transitions that change them — startup
 * restore, login, register and logout. Each transition is a pure function
 * from the session before to the session after.
 */
module Session {

  import opened Options
  import opened Strings
  import opened Users
  import opened Directory

  /** What the storage key can hold, as `JSON.parse` and the truthiness test see it. */
  datatype Blob =
    | Valid(user: User)  // the JSON text of a user record
    | Null               // the text `null`: it parses, to no record at all
    | Corrupt            // text `JSON.parse` rejects
    | Blank              // the empty string, which is falsy

  /** The persisted key: absent, or holding a blob. */
  type Store = Option<Blob>

  datatype Session = Session(auth: AuthState, store: Store)

  /** A transition's boolean answer and the session after it. */
  datatype Outcome = Outcome(ok: bool, session: Session)

  /** The state before the stored session has been looked at. */
  function Initial(): (s: AuthState)
    ensures s.isLoading && s.user.None? && Consistent(s)
  {
    AuthState(None, false, true)
  }

  /** The state of nobody signed in, once loading is over. */
  function LoggedOut(): AuthState {
    AuthState(None, false, false)
  }

  /** The session right after `u` signs in: in the state and in the store. */
  function SignedIn(u: User): Session {
    Session(AuthState(Some(u), true, false), Some(Valid(u)))
  }

  /** The store holds exactly the signed-in user, or nothing usable when nobody is. */
  predicate Mirrors(ses: Session) {
    match ses.auth.user
    case Some(u) => ses.store == Some(Valid(u))
    case None => ses.store == None || ses.store == Some(Blank)
  }

  /** The invariant of every session after startup. */
  predicate Settled(ses: Session) {
    Consistent(ses.auth) && !ses.auth.isLoading && Mirrors(ses)
  }

  /**
   * The startup restore exactly as the provider's effect performs it. The
   * fallback branches spread the state captured when the effect was set up,
   * which is `Initial()`. A stored `null` parses without error and is taken
   * as a signed-in session with no user.
   */
  function RestoreAsWritten(store: Store): (r: Session)
    ensures !r.auth.isLoading
    ensures store == Some(Null) ==> r.auth.isAuthenticated && r.auth.user.None?
    ensures store != Some(Null) ==> Settled(r)
  {
    match store
    case Some(Valid(u)) => Session(AuthState(Some(u), true, false), store)
    case Some(Null) => Session(AuthState(None, true, false), store)
    case Some(Corrupt) => Session(Initial().(isLoading := false), None)
    case Some(Blank) => Session(Initial().(isLoading := false), store)
    case None => Session(Initial().(isLoading := false), store)
  }

  /**
   * The startup restore with a stored `null` handled like any other content
   * that is not a user record: the key is removed and nobody is signed in.
   */
  function Restore(store: Store): (r: Session)
    ensures Settled(r)
    ensures store.Some? && store.value.Valid? ==> r == SignedIn(store.value.user)
    ensures store == Some(Corrupt) || store == Some(Null) ==> r == Session(LoggedOut(), None)
    ensures store == None || store == Some(Blank) ==> r == Session(LoggedOut(), store)
  {
    match store
    case Some(Null) => Session(Initial().(isLoading := false), None)
    case _ => RestoreAsWritten(store)
  }

  /** On every store the application itself can write, the two restores agree. */
  lemma RestoreAsWrittenAgrees(store: Store)
    requires store != Some(Null)
    ensures RestoreAsWritten(store) == Restore(store)
  {
  }

  /** A stored `null` leaves the restored state authenticated with no user. */
  lemma NullRecordBreaksConsistency()
    ensures RestoreAsWritten(Some(Null)).auth.isAuthenticated
    ensures !Consistent(RestoreAsWritten(Some(Null)).auth)
    ensures Consistent(Restore(Some(Null)).auth)
  {
  }

  /**
   * Log in with an e-mail address (any case) and an exact password. On a
   * match the first matching entry, without its password, becomes both the
   * signed-in user and the stored record; otherwise nothing changes.
   */
  function Login(dir: seq<Account>, ses: Session, email: string, password: string): (r: Outcome)
    ensures r.ok <==> exists i :: 0 <= i < |dir| && Matches(dir[i], email, password)
    ensures !r.ok ==> r.session == ses
    ensures r.ok ==> exists i :: 0 <= i < |dir| && Matches(dir[i], email, password)
                                && r.session == SignedIn(WithoutPassword(dir[i]))
    ensures r.ok ==> Settled(r.session)
  {
    match Find(dir, email, password)
    case None => Outcome(false, ses)
    case Some(i) => Outcome(true, SignedIn(WithoutPassword(dir[i])))
  }

  /** The placeholder avatar derived from an e-mail address. */
  function AvatarFor(email: string): (url: string)
    ensures |url| == |AvatarPrefix| + |email|
    ensures url[..|AvatarPrefix|] == AvatarPrefix && url[|AvatarPrefix|..] == email
  {
    AvatarPrefix + email
  }

  /**
   * Register a new account. It is refused, changing nothing, when the
   * directory already has the e-mail address (ignoring case). Otherwise the
   * new user, numbered one past the directory's size, is signed in and
   * stored. The password is accepted but kept nowhere, and the new account
   * is not added to the directory.
   */
  function Register(dir: seq<Account>, ses: Session, email: string, password: string, name: string, role: Role, now: Timestamp): (r: Outcome)
    ensures r.ok <==> !exists i :: 0 <= i < |dir| && SameEmail(dir[i].email, email)
    ensures !r.ok ==> r.session == ses
    ensures r.ok ==> r.session == SignedIn(User(DecimalString(|dir| + 1), name, email, role, Some(AvatarFor(email)), now, None))
  {
    if EmailTaken(dir, email) then Outcome(false, ses)
    else
      var u := User(DecimalString(|dir| + 1), name, email, role, Some(AvatarFor(email)), now, None);
      Outcome(true, SignedIn(u))
  }

  /** Log out: the key is removed and nobody is signed in, whatever came before. */
  function Logout(ses: Session): (r: Session)
    ensures Settled(r) && r.auth.user.None? && r.store.None?
  {
    Session(LoggedOut(), None)
  }

  /** Logging out twice is logging out once. */
  lemma LogoutIdempotent(ses: Session)
    ensures Logout(Logout(ses)) == Logout(ses)
  {
  }

  /** Reloading a settled session restores it exactly. */
  lemma ReloadIsIdentity(ses: Session)
    requires Settled(ses)
    ensures Restore(ses.store) == ses
  {
  }

  /** What a user can do once the page is up. */
  datatype Event =
    | SignIn(email: string, password: string)
    | SignUp(email: string, password: string, name: string, role: Role, at: Timestamp)
    | SignOut

  function Apply(dir: seq<Account>, ses: Session, e: Event): Session {
    match e
    case SignIn(email, password) => Login(dir, ses, email, password).session
    case SignUp(email, password, name, role, at) => Register(dir, ses, email, password, name, role, at).session
    case SignOut => Logout(ses)
  }

  function Run(dir: seq<Account>, ses: Session, events: seq<Event>): Session
    decreases |events|
  {
    if |events| == 0 then ses else Run(dir, Apply(dir, ses, events[0]), events[1..])
  }

  /**
   * A page load with the corrected restore, then the user's actions in
   * order. Whatever was stored, the session ends settled.
   */
  function Boot(dir: seq<Account>, stored: Store, events: seq<Event>): (r: Session)
    ensures Settled(r)
  {
    RunStaysSettled(dir, Restore(stored), events);
    Run(dir, Restore(stored), events)
  }

  /**
   * A page load with the restore as the provider performs it, then the
   * user's actions in order. On every stored value except `null` it is the
   * corrected page load, so it ends settled.
   */
  function BootAsWritten(dir: seq<Account>, stored: Store, events: seq<Event>): (r: Session)
    ensures stored != Some(Null) ==> r == Boot(dir, stored, events) && Settled(r)
  {
    var restored := RestoreAsWritten(stored);
    // Both branches compute the same run; the split only places the lemma
    // that equates the two restores where it applies.
    if stored == Some(Null) then Run(dir, restored, events)
    else RestoreAsWrittenAgrees(stored); Run(dir, restored, events)
  }

  /** Every transition keeps a settled session settled. */
  lemma ApplyStaysSettled(dir: seq<Account>, ses: Session, e: Event)
    requires Settled(ses)
    ensures Settled(Apply(dir, ses, e))
  {
  }

  /** Any sequence of actions keeps a settled session settled. */
  lemma {:induction false} RunStaysSettled(dir: seq<Account>, ses: Session, events: seq<Event>)
    requires Settled(ses)
    ensures Settled(Run(dir, ses, events))
    decreases |events|
  {
    if |events| > 0 {
      ApplyStaysSettled(dir, ses, events[0]);
      RunStaysSettled(dir, Apply(dir, ses, events[0]), events[1..]);
    }
  }

  /**
   * After any page load and any actions, the flag agrees with the user,
   * loading is over, and reloading the page gives back the same session.
   */
  lemma BootSettledAndReloadable(dir: seq<Account>, stored: Store, events: seq<Event>)
    ensures Settled(Boot(dir, stored, events))
    ensures Restore(Boot(dir, stored, events).store) == Boot(dir, stored, events)
  {
    ReloadIsIdentity(Boot(dir, stored, events));
  }

  /**
   * The same for a page load with the restore as the provider performs it,
   * from any stored value the application itself can write.
   */
  lemma BootAsWrittenSettledAndReloadable(dir: seq<Account>, stored: Store, events: seq<Event>)
    requires stored != Some(Null)
    ensures Settled(BootAsWritten(dir, stored, events))
    ensures RestoreAsWritten(BootAsWritten(dir, stored, events).store) == BootAsWritten(dir, stored, events)
  {
    var ses := BootAsWritten(dir, stored, events);
    ReloadIsIdentity(ses);
    assert ses.store != Some(Null);
    RestoreAsWrittenAgrees(ses.store);
  }

  /**
   * The duplicate check consults only the directory: a registration that
   * succeeded succeeds again with the same address.
   */
  lemma RegisterTwice(dir: seq<Account>, ses: Session, email: string, password: string,
                      name: string, role: Role, now: Timestamp,
                      password': string, name': string, role': Role, now': Timestamp)
    requires Register(dir, ses, email, password, name, role, now).ok
    ensures Register(dir, Register(dir, ses, email, password, name, role, now).session,
                     email, password', name', role', now').ok
  {
  }

  /** A registered account is never added to the directory, so it cannot log in. */
  lemma RegisteredCannotLogIn(dir: seq<Account>, ses: Session, email: string, password: string,
                              name: string, role: Role, now: Timestamp,
                              later: Session, password': string)
    requires Register(dir, ses, email, password, name, role, now).ok
    ensures !Login(dir, later, email, password').ok
  {
  }

  /**
   * Against the demonstration directory a registered user always gets id
   * "6", which no directory entry has.
   */
  lemma RegisteredIdIsSix(loadedAt: Timestamp, ses: Session, email: string, password: string,
                          name: string, role: Role, now: Timestamp)
    requires Register(MockUsers(loadedAt), ses, email, password, name, role, now).ok
    ensures var u := Register(MockUsers(loadedAt), ses, email, password, name, role, now).session.auth.user.value;
      && u.id == "6"
      && forall i :: 0 <= i < |MockUsers(loadedAt)| ==> MockUsers(loadedAt)[i].id != u.id
  {
    var dir := MockUsers(loadedAt);
    forall i | 0 <= i < |dir|
      ensures dir[i].id != DecimalString(|dir| + 1)
    {
      DecimalStringInjective(i + 1, |dir| + 1);
    }
  }

  /** Logging in against the demonstration directory yields at most one possible user. */
  lemma MockLoginDeterminesUser(loadedAt: Timestamp, ses: Session, email: string, password: string, i: nat)
    requires i < |MockUsers(loadedAt)| && Matches(MockUsers(loadedAt)[i], email, password)
    ensures Login(MockUsers(loadedAt), ses, email, password) == Outcome(true, SignedIn(WithoutPassword(MockUsers(loadedAt)[i])))
  {
    var dir := MockUsers(loadedAt);
    MockEmailsDistinct(loadedAt);
    var k := Find(dir, email, password).value;
    MatchUnique(dir, email, password, i, k);
  }
}
