# Guardian IO session manager — a Dafny model

This project models the client-side authentication layer of the Guardian IO
site: the session state machine of the `AuthProvider` (a fixed directory of
five demonstration accounts, `login`, `register`, `logout` and the startup
restore of the one persisted key `guardianio_user`), the user data types it
is built on, and the two pages that act on it: the dashboard's
loading/sign-in guard and role dispatch, and the sign-in page's redirect,
demo-account buttons and navigation after a submit.

Every transition is a pure function from a `Session` (the `AuthState` plus
the persisted key, an `Option<Blob>`) to the session after it, together with
the boolean the source returns. The central invariant, `Settled`, says the
flag `isAuthenticated` agrees with the presence of a user, loading is over,
and the persisted key holds exactly the signed-in user (or nothing usable
when nobody is signed in). Every transition keeps it. A page load reaches
it from every stored value the application itself can write; of the stored
values the model represents, only `null` escapes it (see Findings), and the
corrected restore reaches it from any stored value. Reloading a settled
session gives it back unchanged.

Files (one module each): `options.dfy` (`Option`), `strings.dfy`
(lower-casing and decimal rendering), `users.dfy` (`Role`, `User`,
`AuthState`), `directory.dfy` (the account directory and its two lookups),
`session.dfy` (the state machine), `routes.dfy`, `dashboard.dfy`,
`auth_page.dfy`.

Two behaviours of the code are easy to miss:

- The duplicate check of registration consults only the fixed directory,
  not accounts registered earlier in the same session. So registering the
  same new address twice succeeds both times (`Session.RegisterTwice`).
- Stored content is not always cleared when it is unusable. An empty string
  is falsy, so the restore treats it as an absent key and leaves it in
  place (`Blob.Blank`). A stored `null` parses without error (see Findings).

The model proves three less obvious behaviours:

- a registered user always gets id `"6"`;
- a registered account never joins the directory, so it cannot log in;
- the `organization` demo button fills `organization@guardianio.com`, which
  no directory entry has, so that demo login fails.

## Model

| member | source | states |
|---|---|---|
| `Users.ParseRole` | src/types/user.ts:2 | a string is a role exactly when it is one of the five role literals, and the role read back has that name |
| `Users.RoleNameRoundTrip` | src/types/user.ts:2 | each of the five roles is read back from its own name, so the names are distinct |
| `Users.AllRoles` | src/types/user.ts:2 | the role set is closed: exactly five pairwise-distinct roles and every role is among them |
| `Strings.Lower` | src/contexts/AuthContext.tsx:97 | lower-casing keeps the length, turns each capital `A`-`Z` into its own small letter and keeps every other character |
| `Strings.LowerIdempotent` | src/contexts/AuthContext.tsx:97 | lower-casing an already lower-cased address changes nothing |
| `Strings.DecimalString` | src/contexts/AuthContext.tsx:145 | the template literal of a number is a non-empty string of digits with no leading zero |
| `Strings.DecimalRoundTrip` | src/contexts/AuthContext.tsx:145 | the decimal rendering reads back as the number it renders |
| `Strings.DecimalStringInjective` | src/contexts/AuthContext.tsx:145 | distinct numbers render as distinct id strings |
| `Directory.MockUsers` | src/contexts/AuthContext.tsx:15-62 | five entries with ids "1" to "5", one per role in role order, all with password `password123`, only the organization entry has an organization, and its address is `org@guardianio.com` |
| `Directory.MockEmailsDistinct` | src/contexts/AuthContext.tsx:15-62 | no two directory entries share an address, even ignoring case |
| `Directory.WithoutPassword` | src/contexts/AuthContext.tsx:105 | removing the password keeps every other field: putting the password back gives the directory entry again |
| `Directory.Find` | src/contexts/AuthContext.tsx:96-98 | the lookup returns the first entry whose address matches ignoring case and whose password matches exactly, or none when no entry does |
| `Directory.EmailTaken` | src/contexts/AuthContext.tsx:134-136 | true exactly when some directory entry has the address, ignoring case |
| `Directory.MatchUnique` | src/contexts/AuthContext.tsx:96-98 | with distinct addresses at most one entry accepts any credentials |
| `Session.Initial` | src/contexts/AuthContext.tsx:65-69 | the startup state has no user, is not authenticated and is loading |
| `Session.RestoreAsWritten` | src/contexts/AuthContext.tsx:71-91 | the restore as coded ends loading in every branch; on every stored value except `null` it reaches a settled session, and on `null` it is authenticated with no user |
| `Session.Restore` | src/contexts/AuthContext.tsx:71-91 | the restore ends loading and is settled: a stored record signs that user in, corrupt content (or `null`) is removed and nobody is signed in, an absent or empty key leaves nobody signed in and the key as it was |
| `Session.RestoreAsWrittenAgrees` | src/contexts/AuthContext.tsx:71-91 | the corrected restore and the coded one agree on every stored value other than `null` |
| `Session.NullRecordBreaksConsistency` | src/contexts/AuthContext.tsx:75-82 | a stored `null` makes the coded restore authenticated without a user, breaking the flag invariant; the corrected restore keeps it |
| `Session.Login` | src/contexts/AuthContext.tsx:93-124 | login succeeds exactly when an entry matches address (ignoring case) and password; on success the matched entry without its password is both the user and the stored record and the session is settled; on failure the session and store are unchanged |
| `Session.MockLoginDeterminesUser` | src/contexts/AuthContext.tsx:96-115 | against the demonstration directory, credentials an entry accepts sign in exactly that entry |
| `Session.AvatarFor` | src/contexts/AuthContext.tsx:149 | the placeholder avatar is the fixed avatar-service prefix followed by the address verbatim |
| `Session.Register` | src/contexts/AuthContext.tsx:126-170 | registration fails, changing nothing, exactly when the directory has the address ignoring case; otherwise the new user has the given name, the address verbatim, exactly the given role, id one past the directory size, an avatar seeded by the address, no organization and the given time, and is both the state's user and the stored record |
| `Session.RegisterTwice` | src/contexts/AuthContext.tsx:133-141 | the duplicate check sees only the directory, so a registration that succeeded succeeds again with the same address |
| `Session.RegisteredCannotLogIn` | src/contexts/AuthContext.tsx:143-161 | a registered account is not added to the directory: login with its address fails with any password |
| `Session.RegisteredIdIsSix` | src/contexts/AuthContext.tsx:145 | against the demonstration directory every registered user gets id "6", which no directory entry has |
| `Session.Logout` | src/contexts/AuthContext.tsx:172-180 | logout from any session removes the key and leaves a settled session with nobody signed in |
| `Session.LogoutIdempotent` | src/contexts/AuthContext.tsx:172-180 | logging out twice equals logging out once |
| `Session.ReloadIsIdentity` | src/contexts/AuthContext.tsx:71-91 | restoring from the key of a settled session gives back that same session |
| `Session.ApplyStaysSettled` | src/contexts/AuthContext.tsx:93-180 | login, register and logout each keep a settled session settled |
| `Session.RunStaysSettled` | src/contexts/AuthContext.tsx:93-180 | any sequence of logins, registrations and logouts keeps a settled session settled |
| `Session.Boot` | src/contexts/AuthContext.tsx:64-91 | a page load with the corrected restore followed by any actions ends in a settled session, whatever was stored |
| `Session.BootAsWritten` | src/contexts/AuthContext.tsx:64-91 | a page load with the restore as coded equals the corrected one, and so ends settled, on every stored value except `null` |
| `Session.BootSettledAndReloadable` | src/contexts/AuthContext.tsx:64-180 | with the corrected restore: after a page load and any actions the session is settled and a reload restores it exactly |
| `Session.BootAsWrittenSettledAndReloadable` | src/contexts/AuthContext.tsx:64-180 | with the restore as coded and any stored value other than `null`: after a page load and any actions the session is settled and a reload restores it exactly |
| `DashboardPage.RoleIcon` | src/pages/Dashboard.tsx:36-45 | each role gets its own icon and the generic icon is used only when there is no role |
| `DashboardPage.DashboardContent` | src/pages/Dashboard.tsx:48-63 | each role gets the dashboard for that role and the unknown-role fallback is used only when there is no role |
| `DashboardPage.DashboardContentInjective` | src/pages/Dashboard.tsx:49-59 | distinct roles get distinct dashboards |
| `DashboardPage.Page` | src/pages/Dashboard.tsx:27-33 | the loading view is shown exactly while loading, before authentication is checked; the redirect to `/auth` exactly when not loading and not authenticated; otherwise always a role view with the icon and panel of the user's role |
| `DashboardPage.ConsistentNeverFallsBack` | src/pages/Dashboard.tsx:37-61 | in a state whose flag agrees with its user, the fallback icon and dashboard are never shown |
| `DashboardPage.BootedPageIsRedirectOrOwnDashboard` | src/pages/Dashboard.tsx:26-63 | with the corrected restore: after any page load and actions the dashboard shows either the redirect to sign-in or the signed-in user's own dashboard |
| `DashboardPage.BootedAsWrittenPageIsRedirectOrOwnDashboard` | src/pages/Dashboard.tsx:26-63 | with the restore as coded and any stored value other than `null`: after any page load and actions the dashboard shows either the redirect to sign-in or the signed-in user's own dashboard |
| `DashboardPage.NullRecordShowsUnknownDashboard` | src/pages/Dashboard.tsx:48-61 | with the coded restore a stored `null` reaches the unknown-role dashboard; the corrected restore redirects to sign-in |
| `Routes.Path` | src/pages/Dashboard.tsx:32 | the two routes are the paths `/auth` and `/dashboard`, each the path of exactly one route |
| `AuthPage.PageView` | src/pages/Auth.tsx:29-31 | the page redirects to the dashboard exactly when authenticated, and shows the forms otherwise |
| `AuthPage.InitialForm` | src/pages/Auth.tsx:16-26 | the forms start empty, not submitting, with role `learner` |
| `AuthPage.RegisterRoleOptions` | src/pages/Auth.tsx:199-203 | the role selector lists learner first and offers exactly the five roles, each once |
| `AuthPage.DemoRoles` | src/pages/Auth.tsx:135 | the demo buttons are labelled with the five role names in directory order |
| `AuthPage.FillDemo` | src/pages/Auth.tsx:140-143 | a demo button sets the login address to `<role>@guardianio.com` and the password to `password123`, changing no other field |
| `AuthPage.HandleLogin` | src/pages/Auth.tsx:33-45 | the page navigates to `/dashboard` exactly when login returned true, and the submitting flag is cleared whether it succeeded or not |
| `AuthPage.HandleRegister` | src/pages/Auth.tsx:47-64 | the page navigates to `/dashboard` exactly when registration with the form's role returned true, and the submitting flag is cleared either way |
| `AuthPage.NavigationAgreesWithRedirect` | src/pages/Auth.tsx:29-64 | from the forms, a submit navigates to `/dashboard` exactly when the page redrawn with the new state would redirect there |
| `AuthPage.DemoEmailIsEntry` | src/pages/Auth.tsx:135-143 | for every role but organization the demo address is exactly that role's directory address |
| `AuthPage.OrganizationDemoEmailUnknown` | src/pages/Auth.tsx:135-143 | the organization demo address matches no directory entry, even ignoring case |
| `AuthPage.DemoLoginSucceedsExceptOrganization` | src/pages/Auth.tsx:135-143 | submitting after a demo button reaches the dashboard exactly for the roles other than organization |

## Left out

- `Strings.Lower`: lower-cases ASCII letters only, where `toLowerCase` follows Unicode; every address in the directory and the demo buttons is ASCII.
- Toast notifications and `console.error` calls are left out: they are messages on a side channel and change no state.
- The `catch` branches of `login` and `register` are left out: they are reached only when a storage write (`localStorage.setItem`) fails, which the one-slot `Store` abstraction excludes.
- The `async`/`Promise` wrappers are left out: both operations resolve at once, so they are modelled as plain functions.
- `localStorage` is one optional slot (`Store`), and `JSON.stringify`/`JSON.parse` are modelled by the `Blob` cases they produce or accept. A stored JSON value that parses to something other than `null` or a user record (a number, an object missing fields) is outside the model's `User` type.
- After a reload `createdAt` comes back from `JSON.parse` as a string rather than a `Date`. The model keeps one opaque `Timestamp`, and the dashboard's date rendering is not modelled.
- `new Date()` is a parameter: `now` for a registration, and one shared `loadedAt` for the directory. The source calls `new Date()` separately for each of the five entries, so their timestamps may differ by the time between those calls.
- The transient `true` of the sign-in page's submitting flag is not modelled; only its final value after a submit is.
- `useAuth`'s error outside a provider, all JSX, React hooks, routing components and `activeTab` are left out as rendering and wiring.
- The animation, marketing and navigation components are left out because they hold no session logic. These are `AnimatedText`, `Features`, `Values`, `Hero`, `GradientButton`, `Index`, `Academy`, `Footer` and `Navbar`.

## Findings

| source | as written | input that shows it | evidently intended | confidence | as-written member | corrected member |
|---|---|---|---|---|---|---|
| src/contexts/AuthContext.tsx:75-82 | any stored text that `JSON.parse` accepts becomes the user, with `isAuthenticated: true` | the key `guardianio_user` holding `null`: it parses to `null`, giving `{user: null, isAuthenticated: true}`, and the dashboard shows the unknown-role fallback | content that is not a user record is treated like unparsable content: the key is removed and nobody is signed in | medium (the application never writes `null` itself); not executed | `Session.NullRecordBreaksConsistency` | `Session.Restore` |
