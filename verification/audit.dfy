/** `log_action`: the append-only audit trail. */
module Audit {
  import opened Store

  /** The audit actor: the session's username, or "system" when no one is logged in. */
  function Actor(st: State): string
  {
    if st.session.Some? then st.session.value.username else "system"
  }

  /** Appends exactly one entry, attributed to the current actor, and touches nothing else. */
  function LogAction(st: State, action: AuditAction): (st': State)
    ensures |st'.log| == |st.log| + 1
    ensures st'.log[..|st.log|] == st.log
    ensures st'.log[|st.log|] == AuditEntry(Actor(st), action)
    ensures st'.log[|st.log|].actor == "system" <==> st.session.None? || st.session.value.username == "system"
    ensures st' == st.(log := st'.log)
  {
    st.(log := st.log + [AuditEntry(Actor(st), action)])
  }
}
