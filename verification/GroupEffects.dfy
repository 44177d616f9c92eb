/** Everything an accepted call changes, read off the state before and the state after: groups,
  join requests and roles.  Who is a member afterwards is in GroupMembership. */
module GroupEffects {
  import opened Wrappers
  import opened Groups
  import opened GroupTheorems
  import opened GroupMembership

  // ---------- groups ----------

  /** A group comes by its creation and never goes; its status is the one last given to it by a
      creation, a dismissal, a mute or the cancelling of one, and its join rule the one last set. */
  lemma GroupAfter(env: Env, s: State, op: string, rpc: Rpc, g: string)
    requires Handle(env, s, op, rpc).Some?
    ensures var s' := Handle(env, s, op, rpc).value;
      && (g in s'.groups <==> g in s.groups || (rpc.CreateGroup? && rpc.groupID == g))
      && (rpc.CreateGroup? && rpc.groupID == g ==> g !in s.groups && s'.groups[g] == Group(rpc.status, rpc.need))
      && (g in s.groups ==>
           && s'.groups[g].status == (
                if rpc.DismissGroup? && rpc.groupID == g then DISMISSED
                else if rpc == MuteGroup(g) then MUTED
                else if rpc == CancelMuteGroup(g) then OK
                else s.groups[g].status)
           && s'.groups[g].needVerification == (
                if rpc.SetGroupInfo? && rpc.groupID == g && rpc.needVerification.Some? then rpc.needVerification.value
                else s.groups[g].needVerification))
  {
  }

  // ---------- join requests ----------

  /** Neither an app manager nor owner or admin of the group. */
  predicate HasNoSay(env: Env, s: State, g: string, op: string) {
    op !in env.managers && ((g, op) in s.members ==> s.members[(g, op)] != OWNER && s.members[(g, op)] != ADMIN)
  }

  /** Whether the call asks for u to be let in, instead of letting it in. */
  predicate AsksFor(env: Env, s: State, op: string, rpc: Rpc, g: string, u: string) {
    g in s.groups &&
    ((rpc.InviteUserToGroup? && rpc.groupID == g && u in rpc.invited
        && s.groups[g].needVerification == ALL_NEED_VERIFICATION && HasNoSay(env, s, g, op))
     || (rpc == JoinGroup(g, u) && s.groups[g].needVerification != DIRECTLY))
  }

  /** Asking opens a request, also where one was answered before; an answer is kept as given; no
      other call touches a request. */
  lemma RequestAfter(env: Env, s: State, op: string, rpc: Rpc, g: string, u: string)
    requires Handle(env, s, op, rpc).Some?
    ensures var s' := Handle(env, s, op, rpc).value;
      if AsksFor(env, s, op, rpc, g, u) then (g, u) in s'.requests && s'.requests[(g, u)] == 0
      else if rpc.GroupApplicationResponse? && rpc.groupID == g && rpc.fromUser == u
      then (g, u) in s'.requests && s'.requests[(g, u)] == rpc.result && (rpc.result == AGREE || rpc.result == REFUSE)
      else ((g, u) in s'.requests <==> (g, u) in s.requests) && ((g, u) in s.requests ==> s'.requests[(g, u)] == s.requests[(g, u)])
  {
  }

  /** Asking and being let in exclude each other, and a call that names someone for a standing
      group it is not in does one of the two. */
  lemma AskedOrLetIn(env: Env, s: State, op: string, rpc: Rpc, g: string, u: string)
    requires Handle(env, s, op, rpc).Some? && Asks(rpc, g, u)
    ensures AsksFor(env, s, op, rpc, g, u) <==> !Enters(env, s, op, rpc, g, u)
  {
  }

  // ---------- roles ----------

  /** The role of everyone who is a member before and after. */
  lemma RoleAfter(env: Env, s: State, op: string, rpc: Rpc, g: string, u: string)
    requires Handle(env, s, op, rpc).Some?
    requires (g, u) in s.members && (g, u) in Handle(env, s, op, rpc).value.members
    ensures var s' := Handle(env, s, op, rpc).value;
      if rpc.TransferGroupOwner? && rpc.groupID == g && rpc.newOwner == u then s'.members[(g, u)] == OWNER
      else if rpc.TransferGroupOwner? && rpc.groupID == g && rpc.oldOwner == u
      then HasRole(s.members, g, rpc.newOwner, s'.members[(g, u)])
      else if rpc.SetGroupMemberInfo? && exists e :: e in rpc.edits && Touches(e, (g, u))
      then forall e :: e in rpc.edits && Touches(e, (g, u)) ==> s'.members[(g, u)] == e.role.value
      else s'.members[(g, u)] == s.members[(g, u)]
  {
    if rpc.SetGroupMemberInfo? {
      EditedRows(s.members, rpc.edits, (g, u));
      forall e | e in rpc.edits && Touches(e, (g, u))
        ensures Handle(env, s, op, rpc).value.members[(g, u)] == e.role.value
      {
        assert EditAllowed(env, s.members, e.groupID, op, Targets(rpc.edits, e.groupID));
        EditedExact(s.members, rpc.edits, e);
      }
    } else if rpc.CreateGroup? {
      FoundedNamed(rpc.groupID, rpc.owner, rpc.admins, rpc.ordinary, (g, u));
    }
  }
}
