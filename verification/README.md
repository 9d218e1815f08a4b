# SYNAPSE leaderboard, modelled in Dafny

SYNAPSE is a small leaderboard service. It records each member's weekly and
monthly activity: sessions attended, assessments submitted and bonus points.
It scores that activity as ten points per session, twenty per assessment,
plus the bonus. A public API serves ranked leaderboards and the member list.
An admin API, gated by a login session, writes members and stats, and every
write is recorded in an audit log.

This project models the service as a pure state machine. The state holds:

- four keyed tables as maps: members, admin accounts, and the weekly and monthly stats, each keyed by its unique key
- the audit log as a sequence
- the requesting client's session

Every route of `app.py` is a function from a state and a request to a
response and a new state. The lemmas state what the routes promise, one at a
time and together.

Modules, following the structure of `app.py`:

- `Store`: the data model.
  - Members, admin accounts, weekly and monthly stat rows keyed by (member, period key), the session and the audit log.
  - The error kinds with their HTTP status.
  - `Valid`, the invariant every reachable state keeps:
    - member ids stay below the next AUTOINCREMENT id
    - member names are unique
    - no stat row exists without its member
    - a session belongs to an existing admin
- `Scoring`: `calculate_points`.
- `Calendar`: `get_week_start`, over Python's day ordinals (day 1, 0001-01-01, is a Monday).
- `Ordering`:
  - the sort every listing uses: a set of ids listed in a strict total order
  - SQLite's default BINARY text collation, as lexicographic code-point order
- `Audit`: `log_action`.
- `Auth`:
  - the default admin account created by `init_db`
  - `login`, `logout`, `auth_status`
  - the `require_auth` gate
- `Members`: the default avatar, `add_member`, `delete_member`, `get_members`.
- `Stats`: the weekly and monthly upserts and entry deletions.
- `Leaderboard`: the weekly and monthly ranked views.
- `Api`: the whole service.
  - `Handle` runs any request through the gate, then the route.
  - Lemmas over every route: the gate, errors changing nothing, one audit entry per successful write, and invariant preservation.
  - An example: adding "Alice" without an avatar, then scoring her.

The weekly and monthly routes of the source are written twice, once per
table. The model writes each once, with a `Period` parameter that selects the
table. Its audit tags are UPDATE_WEEKLY/UPDATE_MONTHLY and
DELETE_WEEKLY/DELETE_MONTHLY.

Behaviour of `app.py` worth knowing:

- The default avatar only turns spaces into '+'. It percent-encodes nothing, so "A+B" and "A B" get the same URL. `Members.DefaultAvatarOnlyRewritesSpaces` states this.
- The score is guaranteed non-negative only when all three inputs are non-negative. No route checks its inputs.
- The leaderboard query leaves the order of equal scores to SQLite. The model fixes it to ascending member id.
- `logout` clears the session before it writes the log entry. The LOGOUT entry's actor is therefore always "system", and only its details name the user (`Auth.LogoutBody`).

## Model

| member | source | states |
|---|---|---|
| Scoring.CalculatePoints | app.py:157-158 | The definition: ten points per session, twenty per assessment, plus the bonus, over unbounded integers |
| Scoring.PointsMonotone | app.py:157-158 | Raising any of the three counts never lowers the score; raising one strictly raises it |
| Scoring.PointsNonNegative | app.py:157-158 | The score of non-negative counts is non-negative |
| Scoring.ZeroScoreMeansNoActivity | app.py:157-158 | For non-negative counts, the score is 0 exactly when all three counts are 0 |
| Calendar.Weekday | app.py:162 | `date.weekday()` lies in 0..6 |
| Calendar.WeekStart | app.py:160-163 | The week key is a Monday at most six days before the day |
| Calendar.WeekdayOfNextDay | app.py:162 | The next day's weekday is one more, wrapping from Sunday to Monday |
| Calendar.WeekStartIsTheMonday | app.py:160-163 | A day is the week start of `d` if and only if it is a Monday at most six days before `d` |
| Calendar.SameWeekSameStart | app.py:160-163 | All seven days of a week share one week key |
| Calendar.WeekStartIdempotent | app.py:160-163 | A week start is its own week start |
| Ordering.SortBy | app.py:317 | The sorted listing holds every element of the set exactly once, in strictly ascending order |
| Ordering.StrLess | app.py:317 | The definition of SQLite's BINARY collation on TEXT: a proper prefix sorts first, otherwise the first differing code point decides |
| Ordering.StrLessIrreflexive | app.py:317 | No name sorts before itself under the BINARY collation |
| Ordering.StrLessTransitive | app.py:317 | The BINARY collation order is transitive |
| Ordering.StrLessTotal | app.py:317 | Of two different names, one sorts before the other |
| Audit.Actor | app.py:134 | The definition of `session.get('username', 'system')`: the logged-in username, or "system" without a session |
| Audit.LogAction | app.py:132-140 | The log grows by one entry and its old entries stay as they were. The entry is attributed to the session's username, or to "system" exactly when no one (or a user named "system") is logged in. Nothing else changes |
| Store.HttpStatus | app.py:170-506 | The status of each error: 401 exactly for bad credentials and a missing session, 404 exactly for a missing member or entry, and 400 otherwise |
| Auth.Initial | app.py:115-120 | The fresh store is valid and empty, with one account "admin" whose digest is that of "synapse2024" |
| Auth.RequireAuth | app.py:142-153 | With no session the route does not run: the response is 401 with code AUTH_REQUIRED and the state is unchanged. With a session, the route runs unchanged |
| Auth.Matches | app.py:180-184 | The definition of the credential query: an account with that username whose stored digest equals the password's digest |
| Auth.Login | app.py:170-202 | Missing or empty credentials give a 400. Otherwise the login succeeds if and only if the username exists and the password's digest matches. Failure changes nothing. Success sets the session from the account, logs LOGIN under the new username and changes nothing else |
| Auth.LogoutBody | app.py:204-211 | The session is cleared and one LOGOUT entry is appended. Its actor is "system" and its details name the user who was logged in |
| Auth.AuthStatus | app.py:213-225 | Reports authenticated if and only if a session exists, with that session's username and role |
| Auth.DefaultAdminCanLogIn | app.py:115-120 | On a fresh store, admin/synapse2024 logs in as role "admin" |
| Auth.LoginThenStatusThenLogout | app.py:170-225 | After a login the status shows that user; after logging out it shows no one; two entries were logged |
| Auth.LoginPreservesValid | app.py:187-192 | A login keeps the store invariants |
| Auth.LogoutPreservesValid | app.py:208-210 | A logout keeps the store invariants |
| Members.ReplaceSpaces | app.py:337 | Every space of the name becomes '+', and every other character is kept in place |
| Members.DefaultAvatar | app.py:337 | The definition of the default avatar: the fixed ui-avatars prefix, the name with spaces as '+', then the fixed colour and size suffix |
| Members.DefaultAvatarCarriesName | app.py:337 | The default avatar is the fixed URL prefix, the name with no space left, then the fixed suffix. For a name without '+', reading '+' back as a space recovers the name |
| Members.DefaultAvatarOnlyRewritesSpaces | app.py:337 | Nothing is percent-encoded: "A+B" gets the same avatar as "A B", and '&' is copied unchanged |
| Members.AddMember | app.py:327-354 | A missing or empty name gives a 400, and a name in use gives a 400. Both change nothing. Otherwise the member is stored under the next id with the given avatar (or the default one when none is given), other members are kept, the next id advances and ADD_MEMBER is logged |
| Members.DeleteMember | app.py:447-468 | An unknown id gives a 404 and changes nothing. Otherwise the member and exactly its weekly and monthly rows of every period are removed, every other row is kept and DELETE_MEMBER is logged |
| Members.IdsByName | app.py:317 | Every member id once, ordered by name with ties broken by id |
| Members.ListMembers | app.py:313-323 | Every member appears exactly once with its stored name and avatar, in ascending name order |
| Members.ListingStrictlyByName | app.py:317 | In a valid store the listing is strictly ascending by name |
| Members.AddMemberPreservesValid | app.py:339-354 | Adding a member keeps ids below the next id, names unique and every stat row attached to a member |
| Members.DeleteMemberPreservesValid | app.py:459-461 | The cascade leaves no stat row without its member |
| Stats.MemberIdGiven | app.py:367-368 | The definition of `if not member_id`: an absent id and the id 0 are both rejected |
| Stats.Resolves | app.py:375-378 | The definition of the member lookup: the id names an existing member, and a negative id names none |
| Stats.UpdateStats | app.py:356-395 | A missing or zero member id gives a 400; an unknown member gives a 404; both change nothing. Otherwise the (member, period) row holds exactly the given values, with 0 for an absent field. Every other row of both tables is kept, and the update is logged with the member's name |
| Stats.DeleteEntry | app.py:470-487 | With no row for (member, period), a 404 that changes nothing. Otherwise exactly that row is removed, the other table and the member's rows for other periods are kept, and the deletion is logged |
| Stats.UpdateStatsIdempotent | app.py:380-388 | Repeating an upsert with the same values leaves both tables as one upsert did |
| Stats.UpdateStatsLatestWins | app.py:380-388 | Of two upserts of one key, the tables end as if only the later one had run |
| Stats.DeleteEntryUndoesFreshUpdate | app.py:470-487 | Deleting the row an upsert just created restores both tables |
| Stats.UpdateStatsPreservesValid | app.py:375-388 | An upsert only ever writes rows of existing members |
| Stats.DeleteEntryPreservesValid | app.py:482 | Deleting an entry keeps the store invariants |
| Leaderboard.SortKey | app.py:245-248 | The definition of the ORDER BY expression over the left-joined, possibly NULL columns, each COALESCEd to 0 |
| Leaderboard.JoinRow | app.py:236-261 | The definition of one output row: the member's id, name and avatar, its stat columns for the period or zeros, and `calculate_points` of them |
| Leaderboard.SortKeyIsTotalPoints | app.py:245-261 | The SQL ORDER BY expression over the left-joined columns equals `calculate_points` of the coalesced values |
| Leaderboard.RankedIds | app.py:243-248 | Every member id once, by descending score, with ties broken by ascending id |
| Leaderboard.Ranking | app.py:229-269 | Every member appears exactly once, joined with its row for the period (zeros without one) and scored. Rows are ordered by non-increasing total points, with equal scores by ascending id |
| Leaderboard.HigherScoreRanksEarlier | app.py:245-248 | A member with a strictly higher score is listed strictly earlier |
| Leaderboard.RankingReadsOnlyItsTable | app.py:243-244 | A view depends only on the members and its own table |
| Api.Protected | app.py:204-506 | The definition of the routes decorated with `require_auth`: logout and the four write request kinds (add member, delete member, update stats, delete entry), which cover the six admin routes |
| Api.Dispatch | app.py:170-506 | The definition of the route table: each request runs the body of its route |
| Api.Handle | app.py:142-153 | A protected route without a session fails with AUTH_REQUIRED. Any other request runs its route |
| Api.AnonymousCannotMutate | app.py:146-151 | No write route changes anything without a logged-in user |
| Api.ErrorsChangeNothing | app.py:170-506 | Every error response, of every route, leaves the whole state unchanged |
| Api.ReadsChangeNothing | app.py:213-323 | The status, leaderboard and member reads always succeed and change nothing |
| Api.OneAuditEntryPerSuccess | app.py:132-140 | A successful login, logout or write appends exactly one entry with its route's tag. The entry is attributed to the session's username after the action, or to "system". Every other request leaves the log unchanged |
| Api.LoginAudit | app.py:187-192 | A successful login appends one LOGIN entry; a failed one appends none |
| Api.LogoutAudit | app.py:208-210 | A logout appends one LOGOUT entry, attributed to "system" |
| Api.AddMemberAudit | app.py:342-347 | A successful add appends one ADD_MEMBER entry; a failed one appends none |
| Api.DeleteMemberAudit | app.py:459-466 | A successful delete appends one DELETE_MEMBER entry; a failed one appends none |
| Api.UpdateStatsAudit | app.py:380-393 | A successful upsert appends one UPDATE_WEEKLY or UPDATE_MONTHLY entry; a failed one appends none |
| Api.DeleteEntryAudit | app.py:482-486 | A successful entry deletion appends one DELETE_WEEKLY or DELETE_MONTHLY entry; a failed one appends none |
| Api.HandlePreservesValid | app.py:67-101 | Every route keeps the store invariants that the schema's UNIQUE and FOREIGN KEY constraints describe |
| Api.DeletedMemberLeavesBoards | app.py:459-461 | After a member is deleted, every leaderboard has one row fewer, none for that member and only rows of members that existed before |
| Api.RowsAreMembers | app.py:243-244 | On any store, each leaderboard has as many rows as there are members, and every row's id is a member's id |
| Api.AliceScenario | app.py:327-395 | Adding "Alice" without an avatar returns the next id and the default avatar. Upserting her weekly stats 3/1/5 succeeds, and the weekly board then lists her with 55 points, above every member with fewer |
| Api.AliceAdded | app.py:336-352 | Adding "Alice" while logged in returns the next id and the default avatar URL around "Alice" |
| Api.AliceScored | app.py:375-395 | Upserting 3/1/5 for an existing member stores exactly that row for the current week |
| Api.PlacedAt | app.py:245-261 | A member whose row is 3/1/5 is on the board with 55 points, ahead of every lower score |

## Left out

- HTTP plumbing: Flask routing, CORS, JSON serialisation, static and asset file serving, and the health endpoint. These are not part of the leaderboard logic.
- SQL execution and the schema DDL. Tables are maps keyed by their unique keys. Statements run one after another with no failure other than the modelled UNIQUE violation on member names.
- SHA-256: the password hash is a parameter `hash: string -> string`. Only digest equality matters to the service.
- The wall clock: the current week key and month key are request parameters. `Calendar` models the week-start arithmetic over day ordinals. Rendering a date as ISO 8601 or `%Y-%m` is not modelled.
- Process start-up: `init_db` is modelled only on an empty database (`Auth.Initial`). Re-running it on an existing database, the start-up banner and the port are not modelled.
- JSON value types: each field is modelled as absent or a value of its expected type (string or integer). JSON null, other types (for example a member id sent as a string, which SQLite would coerce), and a request with no JSON body are not modelled.
- Integer width: counts and scores are unbounded integers. SQLite's 64-bit integer overflow is not modelled.
- Concurrency: there is one client session, and each request runs atomically. Interleaving requests, which could leave a stat row for a member deleted between the existence check and the upsert, is not modelled.
- Audit details: the free-text `details` column is modelled by the structured facts it mentions (names, ids, period), not as formatted text. Timestamps and row ids of the log are left out.
- Leaderboard.Ranking: ties between equal scores are ordered by ascending member id. The source leaves their order to SQLite, so that part of the contract is a choice, not a promise of the source.
- Members.ListMembers: members with equal names would be ordered by id, but a valid store never has two.
