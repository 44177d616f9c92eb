/** What calls do to a group's owner, over every run. */
module GroupTheorems {
  import opened Wrappers
  import opened Groups

  // ---------- edits ----------

  predicate Touches(e: Edit, k: (string, string)) {
    (e.groupID, e.userID) == k && e.role.Some?
  }

  /** The role the last edit of a row that has one gives it. */
  function LastRole(edits: seq<Edit>, k: (string, string)): Option<int> {
    if edits == [] then None
    else if Touches(edits[|edits| - 1], k) then edits[|edits| - 1].role
    else LastRole(edits[..|edits| - 1], k)
  }

  lemma {:induction false} LastRoleExact(edits: seq<Edit>, k: (string, string))
    ensures LastRole(edits, k).Some? <==> exists e :: e in edits && Touches(e, k)
    ensures LastRole(edits, k).Some? ==> exists e :: e in edits && Touches(e, k) && e.role == LastRole(edits, k)
  {
    if edits != [] {
      var rest, last := edits[..|edits| - 1], edits[|edits| - 1];
      LastRoleExact(rest, k);
      assert edits == rest + [last];
      assert forall e :: e in edits <==> e in rest || e == last;
    }
  }

  lemma {:induction false} EditedSome(members: Members, edits: seq<Edit>)
    ensures Edited(members, edits).Some? <==> forall i :: 0 <= i < |edits| ==> (edits[i].groupID, edits[i].userID) in members
    ensures Edited(members, edits).Some? ==> Edited(members, edits).value.Keys == members.Keys
  {
    if edits != [] {
      var rest, last := edits[..|edits| - 1], edits[|edits| - 1];
      EditedSome(members, rest);
      assert forall i :: 0 <= i < |rest| ==> rest[i] == edits[i];
      var before := Edited(members, rest);
      if before.Some? && (last.groupID, last.userID) in members {
        assert (last.groupID, last.userID) in before.value;
      }
    }
  }

  lemma {:induction false} EditedRole(members: Members, edits: seq<Edit>, k: (string, string))
    requires Edited(members, edits).Some? && k in members
    ensures k in Edited(members, edits).value
    ensures Edited(members, edits).value[k] == if LastRole(edits, k).Some? then LastRole(edits, k).value else members[k]
  {
    if edits != [] {
      EditedRole(members, edits[..|edits| - 1], k);
    }
  }

  /** Updating succeeds exactly when every row exists; rows come and go by no edit, and a row no
      edit gives a role keeps its own. */
  lemma EditedRows(members: Members, edits: seq<Edit>, k: (string, string))
    ensures Edited(members, edits).Some? <==> forall e :: e in edits ==> (e.groupID, e.userID) in members
    ensures var r := Edited(members, edits); r.Some? ==>
      && r.value.Keys == members.Keys
      && (k in members && (forall e :: e in edits ==> !Touches(e, k)) ==> r.value[k] == members[k])
      && (k in members && (exists e :: e in edits && Touches(e, k)) ==>
            exists e :: e in edits && Touches(e, k) && e.role == Some(r.value[k]))
  {
    EditedSome(members, edits);
    assert forall i :: 0 <= i < |edits| ==> edits[i] in edits;
    LastRoleExact(edits, k);
    if Edited(members, edits).Some? && k in members {
      EditedRole(members, edits, k);
    }
  }

  lemma {:induction false} TargetsExact(edits: seq<Edit>, g: string)
    ensures forall u :: u in Targets(edits, g) <==> exists e :: e in edits && e.groupID == g && e.userID == u
  {
    if edits != [] {
      var rest, last := edits[..|edits| - 1], edits[|edits| - 1];
      TargetsExact(rest, g);
      assert edits == rest + [last];
      forall u
        ensures u in Targets(edits, g) <==> exists e :: e in edits && e.groupID == g && e.userID == u
      {
        if u in Targets(edits, g) {
          if u in Targets(rest, g) {
            var e :| e in rest && e.groupID == g && e.userID == u;
            assert e in edits;
          } else {
            assert last in edits;
          }
        }
        if e :| e in edits && e.groupID == g && e.userID == u {
          assert e in rest || e == last;
        }
      }
    }
  }

  /** When no user is named twice in a group, each edit ends up in force: the roles afterwards
      are the edits' roles, in whatever order the edits came. */
  lemma {:induction false} EditedExact(members: Members, edits: seq<Edit>, e: Edit)
    requires Edited(members, edits).Some?
    requires e in edits && e.role.Some? && NoDuplicates(Targets(edits, e.groupID))
    ensures (e.groupID, e.userID) in Edited(members, edits).value
    ensures Edited(members, edits).value[(e.groupID, e.userID)] == e.role.value
  {
    var rest, last := edits[..|edits| - 1], edits[|edits| - 1];
    var g := e.groupID;
    assert edits == rest + [last];
    EditedRows(members, edits, (g, e.userID));
    if e != last {
      var before, all := Targets(rest, g), Targets(edits, g);
      assert all[..|before|] == before;
      assert forall i, j :: 0 <= i < j < |before| ==> before[i] == all[i] && before[j] == all[j];
      EditedExact(members, rest, e);
      TargetsExact(rest, g);
      assert e.userID in before;
      if last.groupID == g {
        var i :| 0 <= i < |before| && before[i] == e.userID;
        assert all[i] != all[|all| - 1];
      }
    }
  }

  /** When the checks of an edit pass, every user named is a member of its group, except an app
      manager naming itself; and an operator who is no app manager is a member of every group
      named. */
  lemma AcceptedTargetsAreMembers(env: Env, members: Members, op: string, edits: seq<Edit>, e: Edit)
    requires EditsAllowed(env, members, op, edits) && e in edits
    ensures (e.groupID, e.userID) in members || (IsManager(env, op) && e.userID == op)
    ensures IsManager(env, op) || (e.groupID, op) in members
  {
    TargetsExact(edits, e.groupID);
    assert EditAllowed(env, members, e.groupID, op, Targets(edits, e.groupID));
  }

  // ---------- who owns what after a call ----------

  ghost predicate OneOwner(s: State) {
    forall g, u, v :: IsOwner(s, g, u) && IsOwner(s, g, v) ==> u == v
  }

  /** Members belong to groups that exist. */
  ghost predicate RowsHaveGroups(s: State) {
    forall g, u :: (g, u) in s.members ==> g in s.groups
  }

  predicate Gains(s: State, rpc: Rpc, g: string, u: string) {
    || (rpc.CreateGroup? && rpc.groupID == g && rpc.owner == u)
    || (rpc.TransferGroupOwner? && rpc.groupID == g &&
        (rpc.newOwner == u || (rpc.oldOwner == u && IsOwner(s, g, rpc.newOwner))))
  }

  ghost predicate Loses(rpc: Rpc, g: string, u: string) {
    || (rpc.KickGroupMember? && rpc.groupID == g && u in rpc.kicked)
    || (rpc.TransferGroupOwner? && rpc.groupID == g && rpc.oldOwner == u)
    || (rpc.DismissGroup? && rpc.groupID == g && rpc.deleteMember)
    || (rpc.SetGroupMemberInfo? && exists e :: e in rpc.edits && Touches(e, (g, u)))
  }

  ghost predicate OwnersMove(s: State, rpc: Rpc, s': State) {
    forall g, u :: IsOwner(s', g, u) <==> Gains(s, rpc, g, u) || (IsOwner(s, g, u) && !Loses(rpc, g, u))
  }

  /** Since nobody is named twice, the founding members have one owner. */
  lemma FoundedByOwner(op: string, g: string, owner: string, admins: seq<string>, ordinary: seq<string>, k: (string, string))
    requires NoDuplicates(Involved(op, owner, admins, ordinary))
    ensures k in Founded(g, owner, admins, ordinary) && Founded(g, owner, admins, ordinary)[k] == OWNER <==> k == (g, owner)
  {
    var ids, n, m := Involved(op, owner, admins, ordinary), |ordinary|, |admins|;
    assert ids[n + m] == owner;
    assert forall i :: 0 <= i < m ==> admins[i] == ids[n + i] != ids[n + m];
    assert forall i :: 0 <= i < n ==> ordinary[i] == ids[i] != ids[n + m];
    assert owner in [owner];
  }

  lemma CreateMoves(env: Env, s: State, op: string, c: Rpc)
    requires c.CreateGroup? && Create(env, s, op, c).Some?
    ensures OwnersMove(s, c, Create(env, s, op, c).value)
  {
    var s', founded := Create(env, s, op, c).value, Founded(c.groupID, c.owner, c.admins, c.ordinary);
    forall g, u
      ensures IsOwner(s', g, u) <==> (c.groupID == g && c.owner == u) || IsOwner(s, g, u)
    {
      FoundedByOwner(op, c.groupID, c.owner, c.admins, c.ordinary, (g, u));
      FoundedNamed(c.groupID, c.owner, c.admins, c.ordinary, (g, u));
      assert (g, u) in founded ==> (g, u) !in s.members;
    }
  }

  lemma FoundedNamed(g: string, owner: string, admins: seq<string>, ordinary: seq<string>, k: (string, string))
    ensures k in Founded(g, owner, admins, ordinary) <==> k.0 == g && k.1 in [owner] + admins + ordinary
  {
  }

  lemma RowsMove(env: Env, s: State, op: string, rpc: Rpc)
    requires rpc.InviteUserToGroup? || rpc.JoinGroup? || rpc.GroupApplicationResponse? || rpc.QuitGroup?
    requires Handle(env, s, op, rpc).Some?
    ensures OwnersMove(s, rpc, Handle(env, s, op, rpc).value)
  {
  }

  lemma LeavingMoves(env: Env, s: State, op: string, rpc: Rpc)
    requires rpc.KickGroupMember? || rpc.DismissGroup? || rpc.TransferGroupOwner?
    requires Handle(env, s, op, rpc).Some?
    ensures OwnersMove(s, rpc, Handle(env, s, op, rpc).value)
  {
  }

  lemma EditsMove(env: Env, s: State, op: string, edits: seq<Edit>)
    requires SetMemberInfo(env, s, op, edits).Some?
    ensures OwnersMove(s, SetGroupMemberInfo(edits), SetMemberInfo(env, s, op, edits).value)
  {
    var s' := SetMemberInfo(env, s, op, edits).value;
    forall g, u
      ensures IsOwner(s', g, u) <==> IsOwner(s, g, u) && !Loses(SetGroupMemberInfo(edits), g, u)
    {
      EditedRows(s.members, edits, (g, u));
    }
  }

  /** After every accepted call, the owners are exactly those the call makes owner and those it
      does not unmake; no invitation, join, answer, quit, mute or dismissal without deletion
      changes them. */
  lemma OwnersAfter(env: Env, s: State, op: string, rpc: Rpc)
    requires Handle(env, s, op, rpc).Some?
    ensures OwnersMove(s, rpc, Handle(env, s, op, rpc).value)
  {
    match rpc
    case CreateGroup(_, _, _, _, _, _, _) => CreateMoves(env, s, op, rpc);
    case InviteUserToGroup(_, _) => RowsMove(env, s, op, rpc);
    case JoinGroup(_, _) => RowsMove(env, s, op, rpc);
    case GroupApplicationResponse(_, _, _) => RowsMove(env, s, op, rpc);
    case QuitGroup(_, _) => RowsMove(env, s, op, rpc);
    case KickGroupMember(_, _) => LeavingMoves(env, s, op, rpc);
    case DismissGroup(_, _, _) => LeavingMoves(env, s, op, rpc);
    case TransferGroupOwner(_, _, _) => LeavingMoves(env, s, op, rpc);
    case SetGroupMemberInfo(edits) => EditsMove(env, s, op, edits);
    case _ =>
  }

  // ---------- one owner ----------

  /** A transfer that names as old owner someone who is not, while the group has an owner. */
  ghost predicate NamesWrongOwner(s: State, rpc: Rpc) {
    && rpc.TransferGroupOwner?
    && !IsOwner(s, rpc.groupID, rpc.oldOwner)
    && exists w :: IsOwner(s, rpc.groupID, w)
  }

  lemma RowsKeepGroups(env: Env, s: State, op: string, rpc: Rpc)
    requires RowsHaveGroups(s) && Handle(env, s, op, rpc).Some?
    ensures RowsHaveGroups(Handle(env, s, op, rpc).value)
  {
    if rpc.SetGroupMemberInfo? {
      EditedRows(s.members, rpc.edits, ("", ""));
    }
  }

  /** An accepted call leaves every group with at most one owner exactly when it is not such a
      transfer. */
  lemma OneOwnerKeptIff(env: Env, s: State, op: string, rpc: Rpc)
    requires OneOwner(s) && RowsHaveGroups(s) && Handle(env, s, op, rpc).Some?
    ensures OneOwner(Handle(env, s, op, rpc).value) <==> !NamesWrongOwner(s, rpc)
  {
    var s' := Handle(env, s, op, rpc).value;
    OwnersAfter(env, s, op, rpc);
    if NamesWrongOwner(s, rpc) {
      var g := rpc.groupID;
      var w :| IsOwner(s, g, w);
      assert IsOwner(s', g, rpc.newOwner);
      if w == rpc.newOwner {
        assert IsOwner(s', g, rpc.oldOwner);
      } else {
        assert IsOwner(s', g, w);
      }
    } else {
      forall g, u, v | IsOwner(s', g, u) && IsOwner(s', g, v)
        ensures u == v
      {
        assert Gains(s, rpc, g, u) || IsOwner(s, g, u);
        assert Gains(s, rpc, g, v) || IsOwner(s, g, v);
      }
    }
  }

  /** Only an app manager can make such a call. */
  lemma WrongOwnerOnlyByManager(env: Env, s: State, op: string, rpc: Rpc)
    requires Handle(env, s, op, rpc).Some? && NamesWrongOwner(s, rpc)
    ensures IsManager(env, op)
  {
  }

  ghost predicate AllByMembers(env: Env, calls: seq<Call>) {
    forall c :: c in calls ==> !IsManager(env, c.op)
  }

  /** Over every run of calls by operators who are not app managers, refused ones included, no
      group ever has two owners. */
  lemma {:induction false} NeverTwoOwners(env: Env, s: State, calls: seq<Call>)
    requires OneOwner(s) && RowsHaveGroups(s) && AllByMembers(env, calls)
    ensures OneOwner(Run(env, s, calls)) && RowsHaveGroups(Run(env, s, calls))
    decreases |calls|
  {
    if calls != [] {
      var rest, c := calls[..|calls| - 1], calls[|calls| - 1];
      NeverTwoOwners(env, s, rest);
      var before := Run(env, s, rest);
      assert c in calls;
      if Handle(env, before, c.op, c.rpc).Some? {
        RowsKeepGroups(env, before, c.op, c.rpc);
        OneOwnerKeptIff(env, before, c.op, c.rpc);
        if NamesWrongOwner(before, c.rpc) {
          WrongOwnerOnlyByManager(env, before, c.op, c.rpc);
        }
      }
    }
  }

  // ---------- how an owner stops being one ----------

  /** The acts by which a user ends its own ownership of the group. */
  ghost predicate GivesUp(c: Call, g: string, u: string) {
    c.op == u &&
    match c.rpc
    case TransferGroupOwner(h, from, _) => h == g && from == u
    case SetGroupMemberInfo(edits) => exists e :: e in edits && Touches(e, (g, u))
    case DismissGroup(h, deleteMember, _) => h == g && deleteMember
    case _ => false
  }

  lemma EditorOfOwner(env: Env, s: State, op: string, edits: seq<Edit>, e: Edit)
    requires OneOwner(s) && EditsAllowed(env, s.members, op, edits) && !IsManager(env, op)
    requires e in edits && IsOwner(s, e.groupID, e.userID)
    ensures op == e.userID
  {
    TargetsExact(edits, e.groupID);
    assert EditAllowed(env, s.members, e.groupID, op, Targets(edits, e.groupID));
    assert e.userID in Targets(edits, e.groupID);
    assert HasRole(s.members, e.groupID, op, OWNER) ==> IsOwner(s, e.groupID, op);
  }

  /** An owner stops being owner in a call by someone who is not an app manager exactly when
      that call is its own transfer, edit of its own role, or dismissal with deletion.  No kick,
      quit, invitation, join or admin's edit can do it. */
  lemma OwnerLostIff(env: Env, s: State, c: Call, g: string, u: string)
    requires OneOwner(s) && IsOwner(s, g, u) && !IsManager(env, c.op) && Handle(env, s, c.op, c.rpc).Some?
    ensures !IsOwner(Handle(env, s, c.op, c.rpc).value, g, u) <==> GivesUp(c, g, u)
  {
    OwnersAfter(env, s, c.op, c.rpc);
    if Loses(c.rpc, g, u) && c.rpc.SetGroupMemberInfo? {
      var e :| e in c.rpc.edits && Touches(e, (g, u));
      EditorOfOwner(env, s, c.op, c.rpc.edits, e);
    }
    if c.rpc.DismissGroup? && c.rpc.groupID == g {
      assert IsOwner(s, g, c.rpc.found);
    }
    if c.rpc.KickGroupMember? && c.rpc.groupID == g && u in c.rpc.kicked {
      assert MayKick(env, s.members, g, c.op, u);
      assert HasRole(s.members, g, c.op, OWNER) ==> IsOwner(s, g, c.op);
    }
  }

  /** An owner who gives nothing up during a run of calls by non-managers owns the group at the
      end of it. */
  lemma {:induction false} OwnerStays(env: Env, s: State, calls: seq<Call>, g: string, u: string)
    requires OneOwner(s) && RowsHaveGroups(s) && AllByMembers(env, calls) && IsOwner(s, g, u)
    requires forall c :: c in calls ==> !GivesUp(c, g, u)
    ensures IsOwner(Run(env, s, calls), g, u)
    decreases |calls|
  {
    if calls != [] {
      var rest, c := calls[..|calls| - 1], calls[|calls| - 1];
      assert c in calls;
      OwnerStays(env, s, rest, g, u);
      NeverTwoOwners(env, s, rest);
      var before := Run(env, s, rest);
      if Handle(env, before, c.op, c.rpc).Some? {
        OwnerLostIff(env, before, c, g, u);
      }
    }
  }

  /** A transfer by the owner swaps the two roles and leaves everyone else's alone. */
  lemma TransferSwaps(env: Env, s: State, g: string, from: string, to: string, k: (string, string))
    requires OneOwner(s) && IsOwner(s, g, from) && Transfer(env, s, from, g, from, to).Some?
    ensures var s' := Transfer(env, s, from, g, from, to).value;
      && s'.members.Keys == s.members.Keys
      && s'.members[(g, to)] == s.members[(g, from)] && s'.members[(g, from)] == s.members[(g, to)]
      && (k in s.members && k != (g, from) && k != (g, to) ==> s'.members[k] == s.members[k])
      && !IsOwner(s', g, from)
  {
    assert IsOwner(s, g, to) ==> to == from;
  }

  /** An app manager's transfer that names an ordinary member as old owner leaves two owners. */
  lemma ManagerTransferExample()
    ensures
      var env := Env({"m"}, {});
      var s := State(map["g" := Group(OK, 0)], map[("g", "a") := OWNER, ("g", "b") := ORDINARY, ("g", "c") := ORDINARY], map[]);
      var s' := Transfer(env, s, "m", "g", "b", "c").value;
      OneOwner(s) && IsOwner(s', "g", "a") && IsOwner(s', "g", "c")
  {
  }

  // ---------- dismissed groups ----------

  ghost predicate Dismissed(s: State, g: string) {
    g in s.groups && s.groups[g].status == DISMISSED
  }

  /** A dismissed group stays dismissed except for a mute or its cancelling, which overwrite the
      status whatever it was. */
  lemma DismissedStaysIff(env: Env, s: State, op: string, rpc: Rpc, g: string)
    requires Dismissed(s, g) && Handle(env, s, op, rpc).Some?
    ensures Dismissed(Handle(env, s, op, rpc).value, g) <==> rpc != MuteGroup(g) && rpc != CancelMuteGroup(g)
  {
  }

  /** The owner of a dismissed group cancels a mute it never had, and the group stands again. */
  lemma DismissalUndone()
    ensures
      var env, g := Env({}, {}), "g";
      var s := State(map[g := Group(DISMISSED, 0)], map[(g, "a") := OWNER], map[]);
      var r := Handle(env, s, "a", CancelMuteGroup(g));
      Dismissed(s, g) && r.Some? && !Dismissed(r.value, g)
  {
    var s := State(map["g" := Group(DISMISSED, 0)], map[("g", "a") := OWNER], map[]);
    DismissedStaysIff(Env({}, {}), s, "a", CancelMuteGroup("g"), "g");
  }

  /** Nobody enters a dismissed group but through the approval of a request. */
  lemma DismissedEntryIff(env: Env, s: State, op: string, rpc: Rpc, g: string, u: string)
    requires Dismissed(s, g) && (g, u) !in s.members && Handle(env, s, op, rpc).Some?
    ensures (g, u) in Handle(env, s, op, rpc).value.members <==> rpc == GroupApplicationResponse(g, u, AGREE)
  {
    if rpc.SetGroupMemberInfo? {
      EditedRows(s.members, rpc.edits, (g, u));
    }
    if rpc.CreateGroup? {
      FoundedNamed(rpc.groupID, rpc.owner, rpc.admins, rpc.ordinary, (g, u));
    }
  }
}
