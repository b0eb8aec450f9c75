/** The session context: who is signed in, as a small state machine over an
    optional user and an "authenticated" flag. Persistence in the browser's
    storage and navigation after login and logout are side effects left to
    the caller. */
module Auth {
  import opened Seqs
  import opened Text
  import opened Types

  datatype AuthState = AuthState(user: Option<User>, isAuthenticated: bool)

  /** Before the stored session is read: nobody is signed in. */
  const Initial: AuthState := AuthState(None, false)

  /** The flag says exactly whether there is a user. */
  ghost predicate Consistent(s: AuthState)
  {
    s.isAuthenticated <==> s.user.Some?
  }

  /** What the mount effect can find under the "user" key of the browser's
      storage. `NothingStored` stands for a missing entry and for the empty
      string, both falsy. `StoredNull` is the text "null": truthy, and parsed
      to `null`. `StoredJson` is the JSON text of a user. `Malformed` is text
      on which `JSON.parse` throws before any state is set. */
  datatype StoredUser = NothingStored | StoredNull | StoredJson(user: User) | Malformed

  /** The mount effect: whatever parses is installed as the user and the
      session is marked authenticated, even when it parsed to `null`;
      nothing stored, or text that does not parse, leaves the state as it is. */
  function Restore(s: AuthState, saved: StoredUser): (r: AuthState)
    ensures saved.StoredJson? ==> r.user == Some(saved.user) && r.isAuthenticated
    ensures saved.StoredNull? ==> r.user == None && r.isAuthenticated
    ensures saved.NothingStored? || saved.Malformed? ==> r == s
  {
    match saved
    case StoredJson(u) => AuthState(Some(u), true)
    case StoredNull => AuthState(None, true)
    case NothingStored => s
    case Malformed => s
  }

  /** What the provider leaves in storage after a transition: login and a
      role switch write the user's JSON, logout removes the entry. */
  function Persisted(s: AuthState): (w: StoredUser)
    ensures w.StoredJson? <==> s.user.Some?
    ensures s.user.Some? ==> w.user == s.user.value
    ensures !w.StoredNull? && !w.Malformed?
  {
    match s.user
    case Some(u) => StoredJson(u)
    case None => NothingStored
  }

  /** `login(email, password, role)`: any credentials are accepted. The user
      gets id "1", the part of the email before its first '@' as name (the
      whole email when there is no '@'), the email and the chosen role; the
      password is not looked at. */
  function Login(s: AuthState, email: string, password: string, role: Role): (r: AuthState)
    ensures r.isAuthenticated && r.user.Some?
    ensures var u := r.user.value;
      && u.id == "1" && u.email == email && u.role == role && u.avatar == None
      && StartsWith(email, u.name) && '@' !in u.name
      && (|u.name| < |email| ==> email[|u.name|] == '@')
      && ('@' !in email ==> u.name == email)
  {
    AuthState(Some(User("1", BeforeFirst(email, '@'), email, role, None)), true)
  }

  /** The outcome of logging in depends neither on the password nor on who
      was signed in before. */
  lemma LoginIgnoresPasswordAndHistory(s1: AuthState, s2: AuthState, email: string, p1: string, p2: string, role: Role)
    ensures Login(s1, email, p1, role) == Login(s2, email, p2, role)
  {
  }

  /** `logout()`: nobody is signed in, whatever the state was. */
  function Logout(s: AuthState): (r: AuthState)
    ensures r == Initial
  {
    AuthState(None, false)
  }

  /** `switchRole(role)`: the signed-in user takes the new role and keeps
      everything else; with nobody signed in nothing happens. */
  function SwitchRole(s: AuthState, role: Role): (r: AuthState)
    ensures s.user.None? ==> r == s
    ensures s.user.Some? ==> r.user == Some(s.user.value.(role := role)) && r.isAuthenticated == s.isAuthenticated
  {
    match s.user
    case Some(u) => s.(user := Some(u.(role := role)))
    case None => s
  }

  /** Every transition keeps the flag in step with the user, starting from
      the initial state; restoring does so for every stored value except the
      text "null" (see `StoredNullBreaksConsistency`). */
  lemma TransitionsKeepConsistent(s: AuthState, saved: StoredUser, email: string, password: string, role: Role)
    ensures Consistent(Initial)
    ensures Consistent(s) && !saved.StoredNull? ==> Consistent(Restore(s, saved))
    ensures Consistent(Login(s, email, password, role))
    ensures Consistent(Logout(s))
    ensures Consistent(s) ==> Consistent(SwitchRole(s, role))
  {
  }

  /** A stored "null" is restored as a session that is authenticated with no
      user, whatever the state was before. */
  lemma StoredNullBreaksConsistency(s: AuthState)
    ensures !Consistent(Restore(s, StoredNull))
  {
  }

  /** Reloading the page after login, logout or a role switch restores the
      session the transition produced: what the provider writes reads back
      to the same state. The provider never writes "null". */
  lemma WrittenSessionsRestore(s: AuthState, email: string, password: string, role: Role)
    ensures Restore(Initial, Persisted(Login(s, email, password, role))) == Login(s, email, password, role)
    ensures Restore(Initial, Persisted(Logout(s))) == Logout(s)
    ensures Consistent(s) && s.user.Some? ==> Restore(Initial, Persisted(SwitchRole(s, role))) == SwitchRole(s, role)
  {
  }

  /** Switching role keeps the identity of the user: switching back restores
      the session exactly, and only the role differs in between. */
  lemma SwitchRoleRoundTrip(s: AuthState, role: Role)
    requires s.user.Some?
    ensures SwitchRole(SwitchRole(s, role), s.user.value.role) == s
    ensures var u := SwitchRole(s, role).user.value;
      u.id == s.user.value.id && u.name == s.user.value.name && u.email == s.user.value.email
  {
  }

  const OutsideProviderMessage: string := "useAuth must be used within an AuthProvider"

  /** `useAuth()`: the provider's state, or an error outside a provider. */
  function UseAuth(ctx: Option<AuthState>): (r: HookResult<AuthState>)
    ensures r.Provided? <==> ctx.Some?
    ensures ctx.Some? ==> r.value == ctx.value
    ensures ctx.None? ==> r.message == OutsideProviderMessage
  {
    UseContext(ctx, OutsideProviderMessage)
  }
}
