/** Session authentication: the default admin account, `login`, `logout`,
    `auth_status` and the `require_auth` gate.

    The password hash is an opaque deterministic function passed in as
    `hash`; only digest equality matters to the service. */
module Auth {
  import opened Store
  import opened Audit

  const DefaultUsername := "admin"
  const DefaultPassword := "synapse2024"
  const DefaultRole := "admin"

  /** `init_db` on an empty database: empty tables and one admin account,
      "admin", whose stored digest is the digest of the default password. */
  function Initial(hash: string -> string): (st: State)
    ensures Valid(st)
    ensures st.members == map[] && st.weekly == map[] && st.monthly == map[]
    ensures st.session.None? && st.log == []
    ensures st.admins.Keys == {DefaultUsername}
    ensures st.admins[DefaultUsername].digest == hash(DefaultPassword)
    ensures st.admins[DefaultUsername].role == DefaultRole
  {
    State(map[], 1, map[], map[], map[DefaultUsername := Admin(1, hash(DefaultPassword), DefaultRole)], None, [])
  }

  /** The `require_auth` decorator: without a logged-in user the wrapped
      route does not run, the response is 401 AUTH_REQUIRED, and the state is
      unchanged. */
  function RequireAuth(st: State, body: State -> Step): (s: Step)
    ensures st.session.None? ==> s.result == Err(AuthRequired) && s.state == st
    ensures st.session.None? ==> HttpStatus(s.result.error) == 401 && MachineCode(s.result.error) == Some("AUTH_REQUIRED")
    ensures st.session.Some? ==> s == body(st)
  {
    if st.session.None? then Fail(st, AuthRequired) else body(st)
  }

  /** Some account has this username and a stored digest equal to the password's digest. */
  predicate Matches(admins: map<string, Admin>, username: string, password: string, hash: string -> string)
  {
    username in admins && admins[username].digest == hash(password)
  }

  /** `login`: empty credentials are a 400; otherwise the login succeeds
      exactly when the credentials match, writes the session from the
      account, and logs LOGIN under the new session's username. */
  function Login(st: State, username: Option<string>, password: Option<string>,
                 hash: string -> string): (s: Step)
    ensures !NonEmpty(username) || !NonEmpty(password) ==> s == Fail(st, CredentialsRequired)
    ensures NonEmpty(username) && NonEmpty(password) ==>
              (s.result.Ok? <==> Matches(st.admins, username.value, password.value, hash))
    ensures s.result.Err? ==> s.state == st
    ensures s.result.Err? && NonEmpty(username) && NonEmpty(password) ==> s.result.error == InvalidCredentials
    ensures s.result.Ok? ==>
              var u := username.value;
              && u in st.admins
              && s.result.reply == LoggedIn(UserInfo(u, st.admins[u].role))
              && s.state.session == Some(Session(st.admins[u].id, u, st.admins[u].role))
              && s.state.log == st.log + [AuditEntry(u, LoginAction(u))]
              && s.state == st.(session := s.state.session, log := s.state.log)
  {
    if !NonEmpty(username) || !NonEmpty(password) then
      Fail(st, CredentialsRequired)
    else if !Matches(st.admins, username.value, password.value, hash) then
      Fail(st, InvalidCredentials)
    else
      var u := username.value;
      var admin := st.admins[u];
      var signedIn := st.(session := Some(Session(admin.id, u, admin.role)));
      Step(Ok(LoggedIn(UserInfo(u, admin.role))), LogAction(signedIn, LoginAction(u)))
  }

  /** The body of `logout`: clears the session and only then logs LOGOUT, so
      the entry's actor is "system" while its details name the user. */
  function LogoutBody(st: State): (s: Step)
    ensures s.result == Ok(LoggedOut)
    ensures s.state.session.None?
    ensures |s.state.log| == |st.log| + 1 && s.state.log[..|st.log|] == st.log
    ensures s.state.log[|st.log|].actor == "system"
    ensures st.session.Some? ==> s.state.log[|st.log|].action == LogoutAction(Some(st.session.value.username))
    ensures s.state == st.(session := None, log := s.state.log)
  {
    var who := if st.session.Some? then Some(st.session.value.username) else None;
    Step(Ok(LoggedOut), LogAction(st.(session := None), LogoutAction(who)))
  }

  /** `auth_status`: reports exactly whether a user is logged in, and who. */
  function AuthStatus(st: State): (r: Reply)
    ensures r.AuthState?
    ensures r.authenticated <==> st.session.Some?
    ensures r.current.Some? <==> st.session.Some?
    ensures st.session.Some? ==> r.current.value.username == st.session.value.username
    ensures st.session.Some? ==> r.current.value.role == st.session.value.role
  {
    match st.session
    case None => AuthState(false, None)
    case Some(s) => AuthState(true, Some(UserInfo(s.username, s.role)))
  }

  /** The bootstrap account accepts the default password. */
  lemma DefaultAdminCanLogIn(hash: string -> string)
    ensures Login(Initial(hash), Some(DefaultUsername), Some(DefaultPassword), hash).result
            == Ok(LoggedIn(UserInfo(DefaultUsername, DefaultRole)))
  {
  }

  /** After a successful login the status reports that user; logging out
      again reports no one. */
  lemma LoginThenStatusThenLogout(st: State, username: Option<string>, password: Option<string>,
                                  hash: string -> string)
    requires Login(st, username, password, hash).result.Ok?
    ensures var s1 := Login(st, username, password, hash).state;
            && AuthStatus(s1) == AuthState(true, Some(UserInfo(username.value, st.admins[username.value].role)))
            && AuthStatus(RequireAuth(s1, LogoutBody).state) == AuthState(false, None)
            && |RequireAuth(s1, LogoutBody).state.log| == |st.log| + 2
  {
  }

  lemma LoginPreservesValid(st: State, username: Option<string>, password: Option<string>,
                            hash: string -> string)
    requires Valid(st)
    ensures Valid(Login(st, username, password, hash).state)
  {
  }

  lemma LogoutPreservesValid(st: State)
    requires Valid(st)
    ensures Valid(LogoutBody(st).state)
  {
  }
}
