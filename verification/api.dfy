/** The service as one state machine: each route is a request, `Handle`
    runs it against the store, and the lemmas state what holds of every
    route together. Protected routes run behind `RequireAuth`, as the routes
    decorated with `require_auth` do. */
module Api {
  import opened Store
  import opened Audit
  import Auth
  import Members
  import Stats
  import Leaderboard

  /** What a request reads from outside the store: the current week's and
      month's period keys, resolved once per request, and the password hash. */
  datatype Env = Env(week: string, month: string, hash: string -> string)

  function PeriodKey(env: Env, p: Period): string
  {
    if p == Weekly then env.week else env.month
  }

  /** One request per API route, carrying the fields its JSON body or URL supplies. */
  datatype Request =
    | Login(username: Option<string>, password: Option<string>)
    | Logout
    | AuthStatus
    | GetLeaderboard(period: Period)
    | GetMembers
    | AddMember(name: Option<string>, avatar: Option<string>)
    | DeleteMember(id: nat)
    | UpdateStats(period: Period, memberId: Option<int>,
                  sessions: Option<int>, assessments: Option<int>, bonus: Option<int>)
    | DeleteEntry(period: Period, id: nat)

  /** The routes behind `require_auth`. */
  predicate Protected(req: Request)
  {
    req.Logout? || req.AddMember? || req.DeleteMember? || req.UpdateStats? || req.DeleteEntry?
  }

  /** The routes that write the store and the audit log when they succeed. */
  predicate Mutating(req: Request)
  {
    Protected(req) || req.Login?
  }

  /** The audit tag a successful mutating request writes. */
  function TagOf(req: Request): string
  {
    match req
    case Login(_, _) => "LOGIN"
    case Logout => "LOGOUT"
    case AddMember(_, _) => "ADD_MEMBER"
    case DeleteMember(_) => "DELETE_MEMBER"
    case UpdateStats(p, _, _, _, _) => if p == Weekly then "UPDATE_WEEKLY" else "UPDATE_MONTHLY"
    case DeleteEntry(p, _) => if p == Weekly then "DELETE_WEEKLY" else "DELETE_MONTHLY"
    case _ => ""
  }

  /** The route bodies, run once the gate has let the request through. */
  function Dispatch(st: State, req: Request, env: Env): Step
  {
    match req
    case Login(u, pw) => Auth.Login(st, u, pw, env.hash)
    case Logout => Auth.LogoutBody(st)
    case AuthStatus => Step(Ok(Auth.AuthStatus(st)), st)
    case GetLeaderboard(p) =>
      var key := PeriodKey(env, p);
      Step(Ok(Board(p, key, Leaderboard.Ranking(st, p, key))), st)
    case GetMembers => Step(Ok(MemberList(Members.ListMembers(st))), st)
    case AddMember(n, a) => Members.AddMember(st, n, a)
    case DeleteMember(id) => Members.DeleteMember(st, id)
    case UpdateStats(p, m, se, asg, b) => Stats.UpdateStats(st, p, PeriodKey(env, p), m, se, asg, b)
    case DeleteEntry(p, id) => Stats.DeleteEntry(st, p, PeriodKey(env, p), id)
  }

  /** A request as the service answers it: protected routes pass the gate first. */
  function Handle(st: State, req: Request, env: Env): (s: Step)
    ensures Protected(req) && st.session.None? ==> s == Fail(st, AuthRequired)
    ensures !Protected(req) || st.session.Some? ==> s == Dispatch(st, req, env)
  {
    if Protected(req) then Auth.RequireAuth(st, s => Dispatch(s, req, env)) else Dispatch(st, req, env)
  }

  /** Without a logged-in user a protected route answers 401 AUTH_REQUIRED and changes nothing. */
  lemma AnonymousCannotMutate(st: State, req: Request, env: Env)
    requires Protected(req) && st.session.None?
    ensures Handle(st, req, env) == Fail(st, AuthRequired)
  {
  }

  /** Every error response leaves the store, the session and the log as they were. */
  lemma ErrorsChangeNothing(st: State, req: Request, env: Env)
    ensures Handle(st, req, env).result.Err? ==> Handle(st, req, env).state == st
  {
    if !Protected(req) || st.session.Some? {
      match req
      case Login(u, pw) =>
      case Logout =>
      case AuthStatus =>
      case GetLeaderboard(p) =>
      case GetMembers =>
      case AddMember(n, a) =>
      case DeleteMember(id) =>
      case UpdateStats(p, m, se, asg, b) =>
      case DeleteEntry(p, id) =>
    }
  }

  /** The public reads always succeed and change nothing. */
  lemma ReadsChangeNothing(st: State, req: Request, env: Env)
    requires !Mutating(req)
    ensures Handle(st, req, env).result.Ok? && Handle(st, req, env).state == st
  {
  }

  /** One entry appended to the log, tagged `tag`, and attributed to the
      session's username after the action, or "system" when there is none. */
  predicate LogsOneEntry(before: State, after: State, tag: string)
  {
    && |after.log| == |before.log| + 1
    && after.log[..|before.log|] == before.log
    && after.log[|before.log|].actor == Actor(after)
    && Tag(after.log[|before.log|].action) == tag
  }

  /** A successful mutation or login/logout appends exactly one audit entry,
      tagged for its route and attributed to the session's username after the
      action, or "system" when there is none (so logout is logged as
      "system"); every other request leaves the log alone. */
  lemma OneAuditEntryPerSuccess(st: State, req: Request, env: Env)
    ensures var s := Handle(st, req, env);
            && (Mutating(req) && s.result.Ok? ==> LogsOneEntry(st, s.state, TagOf(req)))
            && (!Mutating(req) || s.result.Err? ==> s.state.log == st.log)
  {
    if !Protected(req) || st.session.Some? {
      match req
      case Login(u, pw) => LoginAudit(st, u, pw, env.hash);
      case Logout => LogoutAudit(st);
      case AuthStatus =>
      case GetLeaderboard(p) =>
      case GetMembers =>
      case AddMember(n, a) => AddMemberAudit(st, n, a);
      case DeleteMember(id) => DeleteMemberAudit(st, id);
      case UpdateStats(p, m, se, asg, b) => UpdateStatsAudit(st, p, PeriodKey(env, p), m, se, asg, b);
      case DeleteEntry(p, id) => DeleteEntryAudit(st, p, PeriodKey(env, p), id);
    }
  }

  /** What every route's audit obligation amounts to for one step. */
  predicate AuditedOnce(st: State, s: Step, tag: string)
  {
    && (s.result.Ok? ==> LogsOneEntry(st, s.state, tag))
    && (s.result.Err? ==> s.state.log == st.log)
  }

  lemma LoginAudit(st: State, u: Option<string>, pw: Option<string>, hash: string -> string)
    ensures AuditedOnce(st, Auth.Login(st, u, pw, hash), "LOGIN")
  {
  }

  lemma LogoutAudit(st: State)
    ensures AuditedOnce(st, Auth.LogoutBody(st), "LOGOUT")
  {
  }

  lemma AddMemberAudit(st: State, n: Option<string>, a: Option<string>)
    ensures AuditedOnce(st, Members.AddMember(st, n, a), "ADD_MEMBER")
  {
  }

  lemma DeleteMemberAudit(st: State, id: nat)
    ensures AuditedOnce(st, Members.DeleteMember(st, id), "DELETE_MEMBER")
  {
  }

  lemma UpdateStatsAudit(st: State, p: Period, period: string, m: Option<int>,
                         se: Option<int>, asg: Option<int>, b: Option<int>)
    ensures AuditedOnce(st, Stats.UpdateStats(st, p, period, m, se, asg, b),
                        if p == Weekly then "UPDATE_WEEKLY" else "UPDATE_MONTHLY")
  {
  }

  lemma DeleteEntryAudit(st: State, p: Period, period: string, id: nat)
    ensures AuditedOnce(st, Stats.DeleteEntry(st, p, period, id),
                        if p == Weekly then "DELETE_WEEKLY" else "DELETE_MONTHLY")
  {
  }

  /** Every route keeps the store's invariants. */
  lemma HandlePreservesValid(st: State, req: Request, env: Env)
    requires Valid(st)
    ensures Valid(Handle(st, req, env).state)
  {
    if !Protected(req) || st.session.Some? {
      match req
      case Login(u, pw) => Auth.LoginPreservesValid(st, u, pw, env.hash);
      case Logout => Auth.LogoutPreservesValid(st);
      case AuthStatus =>
      case GetLeaderboard(p) =>
      case GetMembers =>
      case AddMember(n, a) => Members.AddMemberPreservesValid(st, n, a);
      case DeleteMember(id) => Members.DeleteMemberPreservesValid(st, id);
      case UpdateStats(p, m, se, asg, b) =>
        Stats.UpdateStatsPreservesValid(st, p, PeriodKey(env, p), m, se, asg, b);
      case DeleteEntry(p, id) => Stats.DeleteEntryPreservesValid(st, p, PeriodKey(env, p), id);
    }
  }

  /** After a member is deleted neither leaderboard lists it, for any period,
      and every row left belongs to a member that was there before. */
  lemma DeletedMemberLeavesBoards(st: State, id: nat, p: Period, key: string)
    requires Members.DeleteMember(st, id).result.Ok?
    ensures var after := Members.DeleteMember(st, id).state;
            var rows := Leaderboard.Ranking(after, p, key);
            && |rows| == |st.members| - 1
            && (forall i :: 0 <= i < |rows| ==> rows[i].id != id && rows[i].id in st.members)
  {
    var after := Members.DeleteMember(st, id).state;
    assert id in st.members.Keys && after.members.Keys == st.members.Keys - {id};
    assert |after.members.Keys| == |st.members.Keys| - 1;
    RowsAreMembers(after, p, key);
  }

  /** A leaderboard has one row per member and only rows of members. */
  lemma RowsAreMembers(st: State, p: Period, key: string)
    ensures var rows := Leaderboard.Ranking(st, p, key);
            && |rows| == |st.members.Keys|
            && forall i :: 0 <= i < |rows| ==> rows[i].id in st.members
  {
    var rows := Leaderboard.Ranking(st, p, key);
    forall i | 0 <= i < |rows|
      ensures rows[i].id in st.members
    {
      assert Leaderboard.RowIsJoined(st.members, TableOf(st, p), key, rows[i]);
    }
  }

  /** An example: adding "Alice" without an avatar gives her the
      default avatar; upserting her weekly stats to 3/1/5 puts her on the
      weekly leaderboard with 55 points, above every member with fewer. */
  lemma AliceScenario(st: State, env: Env)
    requires Valid(st) && st.session.Some? && !NameTaken(st.members, "Alice")
    ensures var added := Handle(st, AddMember(Some("Alice"), None), env);
            var id := st.nextMemberId;
            && added.result == Ok(MemberAdded(MemberInfo(id, "Alice", Members.AvatarPrefix + "Alice" + Members.AvatarSuffix)))
            && var updated := Handle(added.state, UpdateStats(Weekly, Some(id), Some(3), Some(1), Some(5)), env);
               && updated.result.Ok?
               && var rows := Leaderboard.Ranking(updated.state, Weekly, env.week);
                  exists i :: 0 <= i < |rows| && rows[i].id == id && rows[i].totalPoints == 55
                              && forall j :: 0 <= j < |rows| && rows[j].totalPoints < 55 ==> i < j
  {
    var id := st.nextMemberId;
    var added := Handle(st, AddMember(Some("Alice"), None), env);
    AliceAdded(st, env);
    var updated := Handle(added.state, UpdateStats(Weekly, Some(id), Some(3), Some(1), Some(5)), env);
    AliceScored(added.state, id, env);
    var rows := Leaderboard.Ranking(updated.state, Weekly, env.week);
    PlacedAt(updated.state.members, updated.state.weekly, env.week, rows, id);
  }

  lemma AliceAdded(st: State, env: Env)
    requires st.session.Some? && !NameTaken(st.members, "Alice")
    ensures var added := Handle(st, AddMember(Some("Alice"), None), env);
            && added.result == Ok(MemberAdded(MemberInfo(st.nextMemberId, "Alice", Members.AvatarPrefix + "Alice" + Members.AvatarSuffix)))
            && st.nextMemberId in added.state.members && added.state.session.Some?
  {
    assert Members.ReplaceSpaces("Alice") == "Alice";
    assert Members.DefaultAvatar("Alice") == Members.AvatarPrefix + "Alice" + Members.AvatarSuffix;
  }

  lemma AliceScored(st: State, id: nat, env: Env)
    requires st.session.Some? && id in st.members && id != 0
    ensures var updated := Handle(st, UpdateStats(Weekly, Some(id), Some(3), Some(1), Some(5)), env);
            && updated.result.Ok?
            && id in updated.state.members
            && StatKey(id, env.week) in updated.state.weekly
            && updated.state.weekly[StatKey(id, env.week)] == Stat(3, 1, 5)
  {
  }

  lemma PlacedAt(members: map<nat, Member>, t: Table, period: string, rows: seq<Row>, id: nat)
    requires Leaderboard.IsRanking(members, t, period, rows)
    requires id in members && StatKey(id, period) in t && t[StatKey(id, period)] == Stat(3, 1, 5)
    ensures exists i :: 0 <= i < |rows| && rows[i].id == id && rows[i].totalPoints == 55
                        && forall j :: 0 <= j < |rows| && rows[j].totalPoints < 55 ==> i < j
  {
    var i :| 0 <= i < |rows| && rows[i].id == id;
    assert Leaderboard.RowIsJoined(members, t, period, rows[i]);
    forall j | 0 <= j < |rows| && rows[j].totalPoints < 55
      ensures i < j
    {
      Leaderboard.NonIncreasingOrder(rows, i, j);
    }
  }
}
