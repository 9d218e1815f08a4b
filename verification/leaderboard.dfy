/** The ranked views `get_weekly_leaderboard` and `get_monthly_leaderboard`:
    every member left-joined with its row for the current period (absent
    columns read as 0), scored, and ordered by the query's ORDER BY
    expression, highest first.

    The query leaves the order of equal scores to SQLite; this model fixes it
    to ascending member id. */
module Leaderboard {
  import opened Store
  import opened Scoring
  import opened Ordering

  /** COALESCE over the left join: the member's row for the period, or 0/0/0. */
  function StatOrZero(t: Table, key: StatKey): Stat
  {
    if key in t then t[key] else Stat(0, 0, 0)
  }

  /** The query's ORDER BY expression, written over the joined, possibly NULL columns. */
  function SortKey(t: Table, period: string, id: nat): int
  {
    var key := StatKey(id, period);
    (if key in t then t[key].sessions else 0) * 10
    + (if key in t then t[key].assessments else 0) * 20
    + (if key in t then t[key].bonus else 0)
  }

  /** The SQL sort key and `calculate_points` on the coalesced columns agree. */
  lemma SortKeyIsTotalPoints(t: Table, period: string, id: nat)
    ensures var s := StatOrZero(t, StatKey(id, period));
            SortKey(t, period, id) == CalculatePoints(s.sessions, s.assessments, s.bonus)
  {
  }

  /** Higher sort key first; among equal keys, lower id first. */
  predicate RanksBefore(t: Table, period: string, a: nat, b: nat)
  {
    SortKey(t, period, a) > SortKey(t, period, b)
    || (SortKey(t, period, a) == SortKey(t, period, b) && a < b)
  }

  function RankOrder(t: Table, period: string): (nat, nat) -> bool
  {
    (a: nat, b: nat) => RanksBefore(t, period, a, b)
  }

  lemma RankOrderIsStrictTotal(t: Table, period: string)
    ensures StrictTotal(RankOrder(t, period))
  {
  }

  /** The member ids, each once, in rank order. */
  function RankedIds(members: map<nat, Member>, t: Table, period: string): (ids: seq<nat>)
    ensures |ids| == |members| && Elems(ids) == members.Keys && Distinct(ids)
    ensures forall i, j :: 0 <= i < j < |ids| ==> RanksBefore(t, period, ids[i], ids[j])
  {
    RankOrderIsStrictTotal(t, period);
    SortBy(members.Keys, RankOrder(t, period))
  }

  /** One output row: the member's columns, the coalesced stats and the score. */
  function JoinRow(members: map<nat, Member>, t: Table, period: string, id: nat): Row
  {
    var s := StatOrZero(t, StatKey(id, period));
    var m := if id in members then members[id] else Member("", "");
    Row(id, m.name, m.avatar, s.sessions, s.assessments, s.bonus,
        CalculatePoints(s.sessions, s.assessments, s.bonus))
  }

  /** A row shows the member's stored name and avatar, the three values of
      its row for the period or zeros when it has none, and their score. */
  predicate RowIsJoined(members: map<nat, Member>, t: Table, period: string, r: Row)
  {
    var key := StatKey(r.id, period);
    && r.id in members
    && r.name == members[r.id].name && r.avatar == members[r.id].avatar
    && (key in t ==> r.sessions == t[key].sessions && r.assessments == t[key].assessments && r.bonus == t[key].bonus)
    && (key !in t ==> r.sessions == 0 && r.assessments == 0 && r.bonus == 0)
    && r.totalPoints == CalculatePoints(r.sessions, r.assessments, r.bonus)
  }

  /** What a leaderboard response is: every member exactly once, each row
      correctly joined and scored, ordered by non-increasing total points,
      with equal scores in ascending id order. */
  predicate IsRanking(members: map<nat, Member>, t: Table, period: string, rows: seq<Row>)
  {
    && |rows| == |members|
    && (forall i :: 0 <= i < |rows| ==> RowIsJoined(members, t, period, rows[i]))
    && (forall id :: id in members ==> exists i :: 0 <= i < |rows| && rows[i].id == id)
    && (forall i, j :: 0 <= i < j < |rows| ==> rows[i].id != rows[j].id)
    && (forall i, j :: 0 <= i < j < |rows| ==> rows[i].totalPoints >= rows[j].totalPoints)
    && (forall i, j :: 0 <= i < j < |rows| && rows[i].totalPoints == rows[j].totalPoints ==> rows[i].id < rows[j].id)
  }

  /** The leaderboard of table `p` for period key `period`. */
  function Ranking(st: State, p: Period, period: string): (rows: seq<Row>)
    ensures IsRanking(st.members, TableOf(st, p), period, rows)
  {
    var t := TableOf(st, p);
    var ids := RankedIds(st.members, t, period);
    var rows := JoinAll(st.members, t, period, ids);
    RankingFacts(st.members, t, period, ids, rows);
    rows
  }

  function JoinAll(members: map<nat, Member>, t: Table, period: string, ids: seq<nat>): (rows: seq<Row>)
    ensures |rows| == |ids|
    ensures forall i :: 0 <= i < |rows| ==> rows[i] == JoinRow(members, t, period, ids[i])
  {
    seq(|ids|, i requires 0 <= i < |ids| => JoinRow(members, t, period, ids[i]))
  }

  lemma RankingFacts(members: map<nat, Member>, t: Table, period: string, ids: seq<nat>, rows: seq<Row>)
    requires |ids| == |members| && Elems(ids) == members.Keys && Distinct(ids)
    requires forall i, j :: 0 <= i < j < |ids| ==> RanksBefore(t, period, ids[i], ids[j])
    requires |rows| == |ids| && forall i :: 0 <= i < |rows| ==> rows[i] == JoinRow(members, t, period, ids[i])
    ensures IsRanking(members, t, period, rows)
  {
    forall i | 0 <= i < |rows|
      ensures rows[i].id == ids[i] && RowIsJoined(members, t, period, rows[i])
      ensures rows[i].totalPoints == SortKey(t, period, ids[i])
    {
      assert ids[i] in Elems(ids);
    }
    RankedRowsOrdered(t, period, ids, rows);
    forall id | id in members
      ensures exists i :: 0 <= i < |rows| && rows[i].id == id
    {
      assert id in Elems(ids);
      var i :| 0 <= i < |ids| && ids[i] == id;
      assert rows[i].id == id;
    }
  }

  lemma RankedRowsOrdered(t: Table, period: string, ids: seq<nat>, rows: seq<Row>)
    requires forall i, j :: 0 <= i < j < |ids| ==> RanksBefore(t, period, ids[i], ids[j])
    requires |rows| == |ids|
    requires forall i :: 0 <= i < |rows| ==> rows[i].id == ids[i] && rows[i].totalPoints == SortKey(t, period, ids[i])
    ensures forall i, j :: 0 <= i < j < |rows| ==> rows[i].totalPoints >= rows[j].totalPoints
    ensures forall i, j :: 0 <= i < j < |rows| && rows[i].totalPoints == rows[j].totalPoints ==> rows[i].id < rows[j].id
  {
  }

  /** A member whose score is strictly higher is listed strictly earlier. */
  lemma HigherScoreRanksEarlier(st: State, p: Period, period: string)
    ensures var rows := Ranking(st, p, period);
            forall i, j :: 0 <= i < |rows| && 0 <= j < |rows| && rows[i].totalPoints > rows[j].totalPoints ==> i < j
  {
    var rows := Ranking(st, p, period);
    forall i, j | 0 <= i < |rows| && 0 <= j < |rows| && rows[i].totalPoints > rows[j].totalPoints
      ensures i < j
    {
      NonIncreasingOrder(rows, i, j);
    }
  }

  lemma NonIncreasingOrder(rows: seq<Row>, i: nat, j: nat)
    requires forall a, b :: 0 <= a < b < |rows| ==> rows[a].totalPoints >= rows[b].totalPoints
    requires i < |rows| && j < |rows| && rows[i].totalPoints > rows[j].totalPoints
    ensures i < j
  {
  }

  /** The view only reads the addressed table: the other one, the session
      and the log do not affect it. */
  lemma RankingReadsOnlyItsTable(st: State, st': State, p: Period, period: string)
    requires st'.members == st.members && TableOf(st', p) == TableOf(st, p)
    ensures Ranking(st', p, period) == Ranking(st, p, period)
  {
  }
}
