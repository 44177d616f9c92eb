/** Everything a late write changes, whatever state it meets: groups, requests, members and roles. */
module GroupCommits {
  import opened Wrappers
  import opened Groups
  import opened GroupTheorems
  import opened GroupRaces

  /** A write founds a group, or sets the status or the join rule of the group it is meant for. */
  lemma GroupAfterCommit(s: State, w: Write, g: string)
    requires Commit(s, w).Some?
    ensures var s' := Commit(s, w).value;
      && (g in s'.groups <==> g in s.groups || (w.Found? && w.groupID == g))
      && (w.Found? && w.groupID == g ==> g !in s.groups && s'.groups[g] == w.group)
      && (g in s.groups ==>
           && s'.groups[g].status == (
                if w.Dismissal? && w.groupID == g then DISMISSED
                else if w.Status? && w.groupID == g then w.status
                else s.groups[g].status)
           && s'.groups[g].needVerification == (
                if w.Need? && w.groupID == g && w.need.Some? then w.need.value else s.groups[g].needVerification))
  {
  }

  /** The writes that a mute, its cancelling and a dismissal decide. */
  lemma StatusDecided(env: Env, s: State, op: string, g: string, deleteMember: bool, found: string)
    ensures var w := Check(env, s, op, MuteGroup(g)); w.Some? ==> w.value == Status(g, MUTED)
    ensures var w := Check(env, s, op, CancelMuteGroup(g)); w.Some? ==> w.value == Status(g, OK)
    ensures var w := Check(env, s, op, DismissGroup(g, deleteMember, found)); w.Some? ==> w.value == Dismissal(g, deleteMember)
  {
  }

  lemma RequestAfterCommit(s: State, w: Write, g: string, u: string)
    requires Commit(s, w).Some?
    ensures var s' := Commit(s, w).value;
      if w.Ask? && w.groupID == g && u in w.users then (g, u) in s'.requests && s'.requests[(g, u)] == 0
      else if w.Answer? && w.groupID == g && w.user == u then (g, u) in s'.requests && s'.requests[(g, u)] == w.result
      else ((g, u) in s'.requests <==> (g, u) in s.requests) && ((g, u) in s.requests ==> s'.requests[(g, u)] == s.requests[(g, u)])
  {
  }

  predicate EntersBy(w: Write, g: string, u: string) {
    || (w.Found? && w.groupID == g && u in [w.owner] + w.admins + w.ordinary)
    || (w.Add? && w.groupID == g && u in w.users)
    || (w.Answer? && w.groupID == g && w.user == u && w.enters)
  }

  predicate LeavesBy(w: Write, g: string, u: string) {
    || (w.Remove? && w.groupID == g && u in w.users)
    || (w.Dismissal? && w.groupID == g && w.deleteMember)
  }

  /** After a write the members are exactly those it lets in and those it does not take out. */
  lemma MembersAfterCommit(s: State, w: Write, g: string, u: string)
    requires Commit(s, w).Some?
    ensures (g, u) in Commit(s, w).value.members <==> EntersBy(w, g, u) || ((g, u) in s.members && !LeavesBy(w, g, u))
    ensures EntersBy(w, g, u) ==> (g, u) !in s.members
  {
    match w
    case Found(_, h, _, owner, admins, ordinary) => FoundedNamed(h, owner, admins, ordinary, (g, u));
    case EditRows(edits) => EditedSome(s.members, edits);
    case _ =>
  }

  /** Whoever enters by a write that founds no group is an ordinary member; roles of others change
      by a swap or an edit only, and then to what was decided. */
  lemma RoleAfterCommit(s: State, w: Write, g: string, u: string)
    requires Commit(s, w).Some? && (g, u) in Commit(s, w).value.members
    ensures var s' := Commit(s, w).value;
      if (g, u) !in s.members then w.Found? || s'.members[(g, u)] == ORDINARY
      else if w.SwapRoles? && w.groupID == g && w.to == u then s'.members[(g, u)] == OWNER
      else if w.SwapRoles? && w.groupID == g && w.from == u then s'.members[(g, u)] == w.role
      else if w.EditRows? && exists e :: e in w.edits && Touches(e, (g, u))
      then exists e :: e in w.edits && Touches(e, (g, u)) && e.role.value == s'.members[(g, u)]
      else s'.members[(g, u)] == s.members[(g, u)]
  {
    match w
    case Found(_, h, _, owner, admins, ordinary) => FoundedNamed(h, owner, admins, ordinary, (g, u));
    case EditRows(edits) => EditedRows(s.members, edits, (g, u));
    case _ =>
  }
}
