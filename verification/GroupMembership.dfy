/** Who enters and leaves a group, with which role, and by whose hand, over every run. */
module GroupMembership {
  import opened Wrappers
  import opened Groups
  import opened GroupTheorems

  // ---------- entering and leaving ----------

  predicate Leaves(op: string, rpc: Rpc, g: string, u: string) {
    || (rpc.KickGroupMember? && rpc.groupID == g && u in rpc.kicked)
    || (rpc.QuitGroup? && rpc.groupID == g && u == if rpc.userID == "" then op else rpc.userID)
    || (rpc.DismissGroup? && rpc.groupID == g && rpc.deleteMember)
  }

  /** In a group that needs everybody verified, an invitation by someone who does not run the
      group is a request only; applying brings in directly only where that is allowed. */
  predicate Enters(env: Env, s: State, op: string, rpc: Rpc, g: string, u: string) {
    || (rpc.CreateGroup? && rpc.groupID == g && u in [rpc.owner] + rpc.admins + rpc.ordinary)
    || (rpc.InviteUserToGroup? && rpc.groupID == g && u in rpc.invited && g in s.groups &&
        (s.groups[g].needVerification != ALL_NEED_VERIFICATION || Runs(env, s.members, g, op)))
    || (rpc.JoinGroup? && rpc.groupID == g && rpc.applicant == u && g in s.groups &&
        s.groups[g].needVerification == DIRECTLY)
    || (rpc == GroupApplicationResponse(g, u, AGREE))
  }

  ghost predicate MembersMove(env: Env, s: State, op: string, rpc: Rpc, s': State) {
    forall g, u ::
      (g, u) in s'.members <==> Enters(env, s, op, rpc, g, u) || ((g, u) in s.members && !Leaves(op, rpc, g, u))
  }

  lemma CreateEnters(env: Env, s: State, op: string, c: Rpc)
    requires c.CreateGroup? && Create(env, s, op, c).Some?
    ensures MembersMove(env, s, op, c, Create(env, s, op, c).value)
  {
    forall g, u
      ensures (g, u) in Create(env, s, op, c).value.members <==> Enters(env, s, op, c, g, u) || (g, u) in s.members
    {
      FoundedNamed(c.groupID, c.owner, c.admins, c.ordinary, (g, u));
    }
  }

  lemma InviteEnters(env: Env, s: State, op: string, g: string, us: seq<string>)
    requires Invite(env, s, op, g, us).Some?
    ensures MembersMove(env, s, op, InviteUserToGroup(g, us), Invite(env, s, op, g, us).value)
  {
  }

  lemma JoinEnters(env: Env, s: State, op: string, g: string, u: string)
    requires Join(env, s, g, u).Some?
    ensures MembersMove(env, s, op, JoinGroup(g, u), Join(env, s, g, u).value)
  {
  }

  lemma ResponseEnters(env: Env, s: State, op: string, g: string, u: string, result: int)
    requires Respond(env, s, op, g, u, result).Some?
    ensures MembersMove(env, s, op, GroupApplicationResponse(g, u, result), Respond(env, s, op, g, u, result).value)
  {
  }

  /** After every accepted call, the members of every group are exactly those the call lets in
      and those it does not take out; no transfer, edit, mute or setting touches membership. */
  lemma MembersAfter(env: Env, s: State, op: string, rpc: Rpc)
    requires Handle(env, s, op, rpc).Some?
    ensures MembersMove(env, s, op, rpc, Handle(env, s, op, rpc).value)
  {
    match rpc
    case CreateGroup(_, _, _, _, _, _, _) => CreateEnters(env, s, op, rpc);
    case InviteUserToGroup(g, us) => InviteEnters(env, s, op, g, us);
    case JoinGroup(g, u) => JoinEnters(env, s, op, g, u);
    case GroupApplicationResponse(g, u, result) => ResponseEnters(env, s, op, g, u, result);
    case SetGroupMemberInfo(edits) => EditedSome(s.members, edits);
    case _ =>
  }

  // ---------- roles ----------

  /** A member whose role changes in a call is a party of a transfer, or named by an edit that
      gives exactly the new role. */
  lemma RoleChanges(env: Env, s: State, op: string, rpc: Rpc, g: string, u: string)
    requires Handle(env, s, op, rpc).Some?
    requires (g, u) in s.members && (g, u) in Handle(env, s, op, rpc).value.members
    requires Handle(env, s, op, rpc).value.members[(g, u)] != s.members[(g, u)]
    ensures var role := Handle(env, s, op, rpc).value.members[(g, u)];
      || (rpc.TransferGroupOwner? && rpc.groupID == g && rpc.newOwner == u && role == OWNER)
      || (rpc.TransferGroupOwner? && rpc.groupID == g && rpc.oldOwner == u && HasRole(s.members, g, rpc.newOwner, role))
      || (rpc.SetGroupMemberInfo? && Edit(g, u, Some(role)) in rpc.edits)
  {
    if rpc.SetGroupMemberInfo? {
      EditedRows(s.members, rpc.edits, (g, u));
    }
    if rpc.CreateGroup? {
      FoundedNamed(rpc.groupID, rpc.owner, rpc.admins, rpc.ordinary, (g, u));
    }
  }

  /** Whoever enters a group that exists enters as an ordinary member; the founders get the
      roles they were named for. */
  lemma NewcomerRole(env: Env, s: State, op: string, rpc: Rpc, g: string, u: string, role: int)
    requires Handle(env, s, op, rpc).Some? && (g, u) !in s.members
    requires HasRole(Handle(env, s, op, rpc).value.members, g, u, role)
    ensures !rpc.CreateGroup? ==> role == ORDINARY
    ensures rpc.CreateGroup? ==>
      && rpc.groupID == g
      && role == if u == rpc.owner then OWNER else if u in rpc.admins then ADMIN else ORDINARY
  {
    match rpc
    case CreateGroup(_, _, _, _, owner, admins, ordinary) =>
      FoundedNamed(rpc.groupID, owner, admins, ordinary, (g, u));
      FoundedRoles(op, g, owner, admins, ordinary, u);
    case SetGroupMemberInfo(edits) => EditedSome(s.members, edits);
    case _ =>
  }

  lemma FoundedRoles(op: string, g: string, owner: string, admins: seq<string>, ordinary: seq<string>, u: string)
    requires NoDuplicates(Involved(op, owner, admins, ordinary)) && (g, u) in Founded(g, owner, admins, ordinary)
    ensures Founded(g, owner, admins, ordinary)[(g, u)] == if u == owner then OWNER else if u in admins then ADMIN else ORDINARY
  {
    var ids, n, m := Involved(op, owner, admins, ordinary), |ordinary|, |admins|;
    FoundedNamed(g, owner, admins, ordinary, (g, u));
    assert ids[n + m] == owner;
    assert forall j :: 0 <= j < m ==> admins[j] == ids[n + j] != ids[n + m];
    if u in ordinary {
      var i :| 0 <= i < n && ordinary[i] == u;
      assert ids[i] == u && ids[i] != ids[n + m];
      assert forall j :: 0 <= j < m ==> admins[j] == ids[n + j] != ids[i];
    }
  }

  ghost predicate KnownRoles(s: State) {
    forall k :: k in s.members ==> s.members[k] == OWNER || s.members[k] == ADMIN || s.members[k] == ORDINARY
  }

  /** No call introduces a role that is none of the three. */
  lemma StepKeepsKnownRoles(env: Env, s: State, op: string, rpc: Rpc)
    requires KnownRoles(s) && Handle(env, s, op, rpc).Some?
    ensures KnownRoles(Handle(env, s, op, rpc).value)
  {
    var s' := Handle(env, s, op, rpc).value;
    forall k | k in s'.members
      ensures s'.members[k] == OWNER || s'.members[k] == ADMIN || s'.members[k] == ORDINARY
    {
      if k !in s.members {
        NewcomerRole(env, s, op, rpc, k.0, k.1, s'.members[k]);
      } else if s'.members[k] != s.members[k] {
        RoleChanges(env, s, op, rpc, k.0, k.1);
        if rpc.SetGroupMemberInfo? {
          assert RoleSettable(Edit(k.0, k.1, Some(s'.members[k])));
        }
      }
    }
  }

  lemma {:induction false} RunKeepsKnownRoles(env: Env, s: State, calls: seq<Call>)
    requires KnownRoles(s)
    ensures KnownRoles(Run(env, s, calls))
    decreases |calls|
  {
    if calls != [] {
      var rest, c := calls[..|calls| - 1], calls[|calls| - 1];
      RunKeepsKnownRoles(env, s, rest);
      if Handle(env, Run(env, s, rest), c.op, c.rpc).Some? {
        StepKeepsKnownRoles(env, Run(env, s, rest), c.op, c.rpc);
      }
    }
  }

  /** Whoever is kicked by someone who is no app manager ranks below the kicker: the owner kicks
      admins and ordinary members, an admin ordinary members only. */
  lemma KicksGoDown(env: Env, s: State, op: string, g: string, us: seq<string>, u: string)
    requires OneOwner(s) && KnownRoles(s) && !IsManager(env, op)
    requires Kick(env, s, op, g, us).Some? && u in us
    ensures (IsOwner(s, g, op) && (HasRole(s.members, g, u, ADMIN) || HasRole(s.members, g, u, ORDINARY))) ||
            (HasRole(s.members, g, op, ADMIN) && HasRole(s.members, g, u, ORDINARY))
  {
    assert MayKick(env, s.members, g, op, u) && (g, u) in s.members;
    assert IsOwner(s, g, op) && IsOwner(s, g, u) ==> op == u;
  }

  // ---------- verification ----------

  ghost predicate NeedsApproval(s: State, g: string) {
    g in s.groups && s.groups[g].needVerification == ALL_NEED_VERIFICATION
  }

  /** A group that needs everybody verified is entered, and stops needing it, only by a call of
      its owner, one of its admins or an app manager. */
  lemma ApprovalNeeded(env: Env, s: State, op: string, rpc: Rpc, g: string, u: string)
    requires NeedsApproval(s, g) && Handle(env, s, op, rpc).Some? && !Runs(env, s.members, g, op)
    ensures NeedsApproval(Handle(env, s, op, rpc).value, g)
    ensures (g, u) in Handle(env, s, op, rpc).value.members ==> (g, u) in s.members
  {
    MembersAfter(env, s, op, rpc);
    assert ALL_NEED_VERIFICATION != DIRECTLY;
  }

  /** No call of the run is made by someone who runs the group at that moment. */
  ghost predicate NobodyRuns(env: Env, s: State, calls: seq<Call>, g: string)
    decreases |calls|
  {
    calls != [] ==>
      var rest, c := calls[..|calls| - 1], calls[|calls| - 1];
      NobodyRuns(env, s, rest, g) && !Runs(env, Run(env, s, rest).members, g, c.op)
  }

  /** However many calls others make, requests and invitations included, nobody enters such a
      group without one of those who run it. */
  lemma {:induction false} OutsidersStayOut(env: Env, s: State, calls: seq<Call>, g: string, u: string)
    requires NeedsApproval(s, g) && NobodyRuns(env, s, calls, g)
    ensures NeedsApproval(Run(env, s, calls), g)
    ensures (g, u) in Run(env, s, calls).members ==> (g, u) in s.members
    decreases |calls|
  {
    if calls != [] {
      var rest, c := calls[..|calls| - 1], calls[|calls| - 1];
      OutsidersStayOut(env, s, rest, g, u);
      if Handle(env, Run(env, s, rest), c.op, c.rpc).Some? {
        ApprovalNeeded(env, Run(env, s, rest), c.op, c.rpc, g, u);
      }
    }
  }

  // ---------- requests ----------

  predicate Asks(rpc: Rpc, g: string, u: string) {
    || (rpc.InviteUserToGroup? && rpc.groupID == g && u in rpc.invited)
    || (rpc.JoinGroup? && rpc.groupID == g && rpc.applicant == u)
  }

  ghost predicate Open(s: State, g: string, u: string) {
    (g, u) in s.requests && s.requests[(g, u)] == 0
  }

  /** A request is open after a call only if it was before or the call asks for it; answering
      closes it. */
  lemma OpensOnlyByAsking(env: Env, s: State, op: string, rpc: Rpc, g: string, u: string)
    requires Handle(env, s, op, rpc).Some? && Open(Handle(env, s, op, rpc).value, g, u)
    ensures Asks(rpc, g, u) || (Open(s, g, u) && !(rpc.GroupApplicationResponse? && rpc.groupID == g && rpc.fromUser == u))
  {
  }

  /** A request is answered once: after an accepted answer every further one is refused, through
      any run, until someone asks again for the same user and group. */
  lemma {:induction false} AnsweredOnce(env: Env, s: State, calls: seq<Call>, g: string, u: string, op: string, result: int)
    requires !Open(s, g, u) && forall c :: c in calls ==> !Asks(c.rpc, g, u)
    ensures !Open(Run(env, s, calls), g, u)
    ensures Handle(env, Run(env, s, calls), op, GroupApplicationResponse(g, u, result)).None?
    decreases |calls|
  {
    if calls != [] {
      var rest, c := calls[..|calls| - 1], calls[|calls| - 1];
      assert c in calls;
      AnsweredOnce(env, s, rest, g, u, op, result);
      if Handle(env, Run(env, s, rest), c.op, c.rpc).Some? && Open(Run(env, s, calls), g, u) {
        OpensOnlyByAsking(env, Run(env, s, rest), c.op, c.rpc, g, u);
        assert false;
      }
    }
  }
}
