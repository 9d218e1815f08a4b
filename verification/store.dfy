/** The persistent state of the leaderboard service and the vocabulary shared
    by every route: four keyed tables as maps (members, admin accounts, and
    the weekly and monthly stats, each keyed by the schema's unique key), the
    audit log as a sequence, the requesting client's session, and the
    request/response shapes.

    A stat table is a map from (member id, period key) to its three numeric
    columns, so the UNIQUE(member_id, week_start) and UNIQUE(member_id,
    month_year) constraints hold by construction. */
module Store {

  datatype Option<+T> = None | Some(value: T)

  /** Python truthiness of an optional JSON string: absent and "" are falsy. */
  predicate NonEmpty(o: Option<string>)
  {
    o.Some? && o.value != ""
  }

  /** `data.get(key, 0)` for an optional integer field. */
  function OrZero(o: Option<int>): int
  {
    if o.Some? then o.value else 0
  }

  /** Which of the two stat tables a request addresses. */
  datatype Period = Weekly | Monthly

  function Other(p: Period): Period
  {
    if p == Weekly then Monthly else Weekly
  }

  /** The numeric columns of a weekly or monthly stat row. */
  datatype Stat = Stat(sessions: int, assessments: int, bonus: int)

  /** The unique key of a stat row: (member_id, week_start) or (member_id, month_year). */
  datatype StatKey = StatKey(member: nat, period: string)

  type Table = map<StatKey, Stat>

  datatype Member = Member(name: string, avatar: string)

  /** An admin account, keyed in the store by its unique username. */
  datatype Admin = Admin(id: nat, digest: string, role: string)

  /** The server-side session payload written by a successful login. */
  datatype Session = Session(userId: nat, username: string, role: string)

  /** The action tag and the facts its free-text details mention. */
  datatype AuditAction =
    | LoginAction(username: string)
    | LogoutAction(who: Option<string>)
    | AddMemberAction(name: string, id: nat)
    | UpdateStatsAction(period: Period, name: string)
    | DeleteMemberAction(name: string, id: nat)
    | DeleteEntryAction(period: Period, id: nat)

  datatype AuditEntry = AuditEntry(actor: string, action: AuditAction)

  datatype State = State(
    members: map<nat, Member>,
    nextMemberId: nat,
    weekly: Table,
    monthly: Table,
    admins: map<string, Admin>,
    session: Option<Session>,
    log: seq<AuditEntry>)

  /** The action column of the audit log. */
  function Tag(a: AuditAction): string
  {
    match a
    case LoginAction(_) => "LOGIN"
    case LogoutAction(_) => "LOGOUT"
    case AddMemberAction(_, _) => "ADD_MEMBER"
    case UpdateStatsAction(p, _) => if p == Weekly then "UPDATE_WEEKLY" else "UPDATE_MONTHLY"
    case DeleteMemberAction(_, _) => "DELETE_MEMBER"
    case DeleteEntryAction(p, _) => if p == Weekly then "DELETE_WEEKLY" else "DELETE_MONTHLY"
  }

  function TableOf(st: State, p: Period): Table
  {
    if p == Weekly then st.weekly else st.monthly
  }

  function WithTable(st: State, p: Period, t: Table): (st': State)
    ensures TableOf(st', p) == t
    ensures st'.members == st.members && st'.nextMemberId == st.nextMemberId
    ensures st'.admins == st.admins && st'.session == st.session && st'.log == st.log
    ensures p == Weekly ==> st'.monthly == st.monthly
    ensures p == Monthly ==> st'.weekly == st.weekly
  {
    if p == Weekly then st.(weekly := t) else st.(monthly := t)
  }

  /** Some member already carries this name (the UNIQUE constraint on members.name). */
  predicate NameTaken(members: map<nat, Member>, name: string)
  {
    exists id :: id in members && members[id].name == name
  }

  predicate RowsReferenceMembers(t: Table, members: map<nat, Member>)
  {
    forall k :: k in t ==> k.member in members
  }

  /** The session was written by a login of an existing admin account. */
  predicate SessionOfAdmin(admins: map<string, Admin>, s: Session)
  {
    s.username in admins && admins[s.username].id == s.userId && admins[s.username].role == s.role
  }

  /** The invariants every reachable state keeps: AUTOINCREMENT ids below the
      next id, unique member names, no stat row without its member, and a
      session only for an existing admin. */
  predicate Valid(st: State)
  {
    && 1 <= st.nextMemberId
    && (forall id :: id in st.members ==> 1 <= id < st.nextMemberId)
    && (forall i, j :: i in st.members && j in st.members && i != j ==> st.members[i].name != st.members[j].name)
    && RowsReferenceMembers(st.weekly, st.members)
    && RowsReferenceMembers(st.monthly, st.members)
    && (st.session.Some? ==> SessionOfAdmin(st.admins, st.session.value))
  }

  /** The error kinds the routes report. */
  datatype Error =
    | CredentialsRequired
    | InvalidCredentials
    | AuthRequired
    | NameRequired
    | MemberExists
    | MemberIdRequired
    | MemberNotFound
    | EntryNotFound

  /** The response status: 401 for the two authentication failures, 404 for
      a missing member or entry, 400 for every malformed or conflicting request. */
  function HttpStatus(e: Error): (code: int)
    ensures code == 400 || code == 401 || code == 404
    ensures code == 401 <==> e == InvalidCredentials || e == AuthRequired
    ensures code == 404 <==> e == MemberNotFound || e == EntryNotFound
  {
    match e
    case CredentialsRequired => 400
    case InvalidCredentials => 401
    case AuthRequired => 401
    case NameRequired => 400
    case MemberExists => 400
    case MemberIdRequired => 400
    case MemberNotFound => 404
    case EntryNotFound => 404
  }

  /** The machine-readable `code` field; only the authentication gate sets one. */
  function MachineCode(e: Error): Option<string>
  {
    if e == AuthRequired then Some("AUTH_REQUIRED") else None
  }

  /** One entry of a ranked leaderboard view. */
  datatype Row = Row(id: nat, name: string, avatar: string,
                     sessions: int, assessments: int, bonus: int, totalPoints: int)

  datatype MemberInfo = MemberInfo(id: nat, name: string, avatar: string)

  datatype UserInfo = UserInfo(username: string, role: string)

  /** The payload of a successful response. */
  datatype Reply =
    | LoggedIn(user: UserInfo)
    | LoggedOut
    | AuthState(authenticated: bool, current: Option<UserInfo>)
    | Board(period: Period, key: string, rows: seq<Row>)
    | MemberList(members: seq<MemberInfo>)
    | MemberAdded(member: MemberInfo)
    | StatsUpdated(period: Period)
    | MemberDeleted(name: string)
    | EntryDeleted(period: Period)

  datatype Result = Ok(reply: Reply) | Err(error: Error)

  /** A transition: the response and the state after the request. */
  datatype Step = Step(result: Result, state: State)

  /** An error response that leaves the state as it was. */
  function Fail(st: State, e: Error): Step
  {
    Step(Err(e), st)
  }
}
