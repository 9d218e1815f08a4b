/** The stat writes: `update_weekly_leaderboard` / `update_monthly_leaderboard`
    (an upsert on the table's unique key) and `delete_weekly_entry` /
    `delete_monthly_entry`. The period key of the current week or month is a
    parameter, resolved once per request. */
module Stats {
  import opened Store
  import opened Audit

  /** `if not member_id`: an absent id and the id 0 are both rejected. */
  predicate MemberIdGiven(memberId: Option<int>)
  {
    memberId.Some? && memberId.value != 0
  }

  /** The id names an existing member; a negative id matches no row. */
  predicate Resolves(st: State, memberId: Option<int>)
  {
    memberId.Some? && memberId.value >= 0 && memberId.value as nat in st.members
  }

  /** The upsert: a missing or zero member id is a 400 and an unknown member a
      404, both changing nothing; otherwise the (member, period) row holds
      exactly the supplied values (0 for an absent field), replacing any old
      ones, every other row of both tables is kept, and the update is logged. */
  function UpdateStats(st: State, p: Period, period: string, memberId: Option<int>,
                       sessions: Option<int>, assessments: Option<int>, bonus: Option<int>): (s: Step)
    ensures !MemberIdGiven(memberId) ==> s == Fail(st, MemberIdRequired)
    ensures MemberIdGiven(memberId) && !Resolves(st, memberId) ==> s == Fail(st, MemberNotFound)
    ensures MemberIdGiven(memberId) && Resolves(st, memberId) ==>
              var id := memberId.value as nat;
              var key := StatKey(id, period);
              var t := TableOf(st, p);
              var t' := TableOf(s.state, p);
              && s.result == Ok(StatsUpdated(p))
              && key in t'
              && t'[key] == Stat(OrZero(sessions), OrZero(assessments), OrZero(bonus))
              && (forall k :: k != key ==> (k in t' <==> k in t))
              && (forall k :: k != key && k in t ==> t'[k] == t[k])
              && TableOf(s.state, Other(p)) == TableOf(st, Other(p))
              && s.state.members == st.members && s.state.nextMemberId == st.nextMemberId
              && s.state.admins == st.admins && s.state.session == st.session
              && s.state.log == st.log + [AuditEntry(Actor(st), UpdateStatsAction(p, st.members[id].name))]
  {
    if !MemberIdGiven(memberId) then Fail(st, MemberIdRequired)
    else if !Resolves(st, memberId) then Fail(st, MemberNotFound)
    else
      var id := memberId.value as nat;
      var row := Stat(OrZero(sessions), OrZero(assessments), OrZero(bonus));
      var written := WithTable(st, p, TableOf(st, p)[StatKey(id, period) := row]);
      Step(Ok(StatsUpdated(p)), LogAction(written, UpdateStatsAction(p, st.members[id].name)))
  }

  /** Deleting an entry: without a row for (member, period) it is a 404 that
      changes nothing; otherwise exactly that row goes, the member's rows of
      other periods and everything else stay, and the deletion is logged. */
  function DeleteEntry(st: State, p: Period, period: string, id: nat): (s: Step)
    ensures StatKey(id, period) !in TableOf(st, p) ==> s == Fail(st, EntryNotFound)
    ensures StatKey(id, period) in TableOf(st, p) ==>
              var t := TableOf(st, p);
              var t' := TableOf(s.state, p);
              && s.result == Ok(EntryDeleted(p))
              && t'.Keys == t.Keys - {StatKey(id, period)}
              && (forall k :: k in t' ==> t'[k] == t[k])
              && TableOf(s.state, Other(p)) == TableOf(st, Other(p))
              && s.state.members == st.members && s.state.nextMemberId == st.nextMemberId
              && s.state.admins == st.admins && s.state.session == st.session
              && s.state.log == st.log + [AuditEntry(Actor(st), DeleteEntryAction(p, id))]
  {
    var key := StatKey(id, period);
    if key !in TableOf(st, p) then Fail(st, EntryNotFound)
    else
      var pruned := WithTable(st, p, TableOf(st, p) - {key});
      Step(Ok(EntryDeleted(p)), LogAction(pruned, DeleteEntryAction(p, id)))
  }

  /** Upserting the same values twice leaves both tables as one upsert did;
      only the audit log grows by a second entry. */
  lemma UpdateStatsIdempotent(st: State, p: Period, period: string, memberId: Option<int>,
                              sessions: Option<int>, assessments: Option<int>, bonus: Option<int>)
    requires UpdateStats(st, p, period, memberId, sessions, assessments, bonus).result.Ok?
    ensures var once := UpdateStats(st, p, period, memberId, sessions, assessments, bonus).state;
            var twice := UpdateStats(once, p, period, memberId, sessions, assessments, bonus);
            && twice.result.Ok?
            && twice.state.weekly == once.weekly && twice.state.monthly == once.monthly
            && twice.state.members == once.members
            && |twice.state.log| == |once.log| + 1
  {
    var once := UpdateStats(st, p, period, memberId, sessions, assessments, bonus).state;
    var twice := UpdateStats(once, p, period, memberId, sessions, assessments, bonus).state;
    assert TableOf(twice, p) == TableOf(once, p);
  }

  /** Of two upserts of one member and period, the later values win: the
      tables are those a single upsert of the later values gives. */
  lemma UpdateStatsLatestWins(st: State, p: Period, period: string, memberId: Option<int>,
                              s1: Option<int>, a1: Option<int>, b1: Option<int>,
                              s2: Option<int>, a2: Option<int>, b2: Option<int>)
    requires UpdateStats(st, p, period, memberId, s1, a1, b1).result.Ok?
    ensures var first := UpdateStats(st, p, period, memberId, s1, a1, b1).state;
            var both := UpdateStats(first, p, period, memberId, s2, a2, b2).state;
            var only := UpdateStats(st, p, period, memberId, s2, a2, b2).state;
            both.weekly == only.weekly && both.monthly == only.monthly
  {
    var first := UpdateStats(st, p, period, memberId, s1, a1, b1).state;
    var both := UpdateStats(first, p, period, memberId, s2, a2, b2).state;
    var only := UpdateStats(st, p, period, memberId, s2, a2, b2).state;
    var key := StatKey(memberId.value as nat, period);
    assert TableOf(both, p) == TableOf(st, p)[key := TableOf(only, p)[key]];
    assert TableOf(only, p) == TableOf(st, p)[key := TableOf(only, p)[key]];
  }

  /** Deleting the entry an upsert just created gives back the tables as
      they were before the upsert. */
  lemma DeleteEntryUndoesFreshUpdate(st: State, p: Period, period: string, memberId: Option<int>,
                                     sessions: Option<int>, assessments: Option<int>, bonus: Option<int>)
    requires UpdateStats(st, p, period, memberId, sessions, assessments, bonus).result.Ok?
    requires StatKey(memberId.value as nat, period) !in TableOf(st, p)
    ensures var up := UpdateStats(st, p, period, memberId, sessions, assessments, bonus).state;
            var down := DeleteEntry(up, p, period, memberId.value as nat);
            && down.result.Ok?
            && down.state.weekly == st.weekly && down.state.monthly == st.monthly
            && |down.state.log| == |st.log| + 2
  {
    var up := UpdateStats(st, p, period, memberId, sessions, assessments, bonus).state;
    var down := DeleteEntry(up, p, period, memberId.value as nat).state;
    assert TableOf(down, p) == TableOf(st, p);
  }

  lemma UpdateStatsPreservesValid(st: State, p: Period, period: string, memberId: Option<int>,
                                  sessions: Option<int>, assessments: Option<int>, bonus: Option<int>)
    requires Valid(st)
    ensures Valid(UpdateStats(st, p, period, memberId, sessions, assessments, bonus).state)
  {
  }

  lemma DeleteEntryPreservesValid(st: State, p: Period, period: string, id: nat)
    requires Valid(st)
    ensures Valid(DeleteEntry(st, p, period, id).state)
  {
  }
}
