/** Who may do what in a group: what an owner, an admin, an ordinary member and somebody from
  outside are granted and refused. */
module GroupPowers {
  import opened Wrappers
  import opened Groups
  import opened GroupTheorems
  import opened GroupMembership

  predicate Accepts(env: Env, s: State, op: string, rpc: Rpc) {
    Handle(env, s, op, rpc).Some?
  }

  predicate Standing(s: State, g: string) {
    g in s.groups && s.groups[g].status != DISMISSED
  }

  /** A kick is accepted exactly when everyone named ranks below the one who kicks, or that is an
      app manager. */
  lemma KickAcceptedIff(env: Env, s: State, op: string, g: string, us: seq<string>)
    requires OneOwner(s) && KnownRoles(s)
    ensures Accepts(env, s, op, KickGroupMember(g, us)) <==>
      && g in s.groups && us != [] && NoDuplicates(us) && op !in us
      && (forall u :: u in us ==> (g, u) in s.members)
      && (op in env.managers ||
          ((g, op) in s.members && forall u :: u in us ==> s.members[(g, u)] < s.members[(g, op)]))
  {
    assert us != [] ==> us[0] in us;
    forall u | u in us && (g, u) in s.members && op !in us && op !in env.managers
      ensures MayKick(env, s.members, g, op, u) <==> (g, op) in s.members && s.members[(g, u)] < s.members[(g, op)]
    {
      assert IsOwner(s, g, op) && IsOwner(s, g, u) ==> op == u;
      assert (g, op) in s.members ==> s.members[(g, op)] == OWNER || s.members[(g, op)] == ADMIN || s.members[(g, op)] == ORDINARY;
      assert s.members[(g, u)] == OWNER || s.members[(g, u)] == ADMIN || s.members[(g, u)] == ORDINARY;
    }
  }

  lemma OneEdit(env: Env, s: State, op: string, e: Edit)
    ensures EditsAllowed(env, s.members, op, [e]) <==>
      op != "" && RoleSettable(e) && EditAllowed(env, s.members, e.groupID, op, [e.userID])
    ensures Edited(s.members, [e]).Some? <==> (e.groupID, e.userID) in s.members
  {
    assert [e][..0] == [] && Targets([], e.groupID) == [];
    assert Targets([e], e.groupID) == [e.userID];
    assert e in [e] && forall x :: x in [e] ==> x == e;
  }

  /** The owner's powers, over another member v: anything but leaving without a successor. */
  lemma OwnerMay(env: Env, s: State, g: string, op: string, v: string, role: int, need: Option<int>)
    requires IsOwner(s, g, op) && g in s.groups && v != op
    ensures Accepts(env, s, op, MuteGroup(g)) && Accepts(env, s, op, CancelMuteGroup(g))
    ensures Accepts(env, s, op, SetGroupInfo(g, need)) <==> Standing(s, g)
    ensures Accepts(env, s, op, TransferGroupOwner(g, op, v)) <==> Standing(s, g) && (g, v) in s.members
    ensures Accepts(env, s, op, DismissGroup(g, true, op))
    ensures Accepts(env, s, op, DismissGroup(g, false, op)) <==> Standing(s, g)
    ensures Accepts(env, s, op, KickGroupMember(g, [v])) <==> (g, v) in s.members
    ensures Accepts(env, s, op, SetGroupMemberInfo([Edit(g, v, Some(role))])) <==>
      op != "" && (g, v) in s.members && (role == ADMIN || role == ORDINARY)
    ensures !Accepts(env, s, op, QuitGroup(g, ""))
  {
    KickOne(env, s, op, g, v);
    EditOne(env, s, op, Edit(g, v, Some(role)));
  }

  lemma KickOne(env: Env, s: State, op: string, g: string, v: string)
    ensures Accepts(env, s, op, KickGroupMember(g, [v])) <==>
      g in s.groups && v != op && (g, v) in s.members && MayKick(env, s.members, g, op, v)
  {
    assert v in [v] && forall u :: u in [v] ==> u == v;
  }

  lemma EditOne(env: Env, s: State, op: string, e: Edit)
    requires op !in env.managers || (e.groupID, op) in s.members
    ensures Accepts(env, s, op, SetGroupMemberInfo([e])) <==>
      && op != "" && RoleSettable(e) && (e.groupID, op) in s.members && (e.groupID, e.userID) in s.members
      && (op in env.managers || MayEdit(s.members, e.groupID, op, [e.userID]))
  {
    OneEdit(env, s, op, e);
    assert e.userID in [e.userID] && forall u :: u in [e.userID] ==> u == e.userID;
  }

  /** An admin runs the group, but neither hands it on nor ends it, and has power over ordinary
      members and itself only. */
  lemma AdminMay(env: Env, s: State, g: string, op: string, v: string, role: int, found: string, delete: bool)
    requires HasRole(s.members, g, op, ADMIN) && g in s.groups && op !in env.managers && KnownRoles(s)
    ensures Accepts(env, s, op, MuteGroup(g)) && Accepts(env, s, op, CancelMuteGroup(g))
    ensures Accepts(env, s, op, KickGroupMember(g, [v])) <==> HasRole(s.members, g, v, ORDINARY)
    ensures Accepts(env, s, op, SetGroupMemberInfo([Edit(g, v, Some(role))])) <==>
      op != "" && (v == op || HasRole(s.members, g, v, ORDINARY)) && (role == ADMIN || role == ORDINARY)
    ensures !Accepts(env, s, op, TransferGroupOwner(g, op, v)) && !Accepts(env, s, op, TransferGroupOwner(g, v, op))
    ensures !Accepts(env, s, op, DismissGroup(g, delete, found))
    ensures Accepts(env, s, op, QuitGroup(g, ""))
  {
    KickOne(env, s, op, g, v);
    EditOne(env, s, op, Edit(g, v, Some(role)));
    assert v in [v] && forall u :: u in [v] ==> u == v;
    assert (g, v) in s.members ==>
      s.members[(g, v)] == OWNER || s.members[(g, v)] == ADMIN || s.members[(g, v)] == ORDINARY;
  }

  /** An ordinary member edits and takes out nobody but itself, and decides nothing about the group. */
  lemma OrdinaryMay(env: Env, s: State, g: string, op: string, v: string, role: int, rpc: Rpc)
    requires HasRole(s.members, g, op, ORDINARY) && op !in env.managers
    ensures Accepts(env, s, op, QuitGroup(g, "")) && Accepts(env, s, op, QuitGroup(g, op))
    ensures v != op && v != "" ==> !Accepts(env, s, op, QuitGroup(g, v))
    ensures Accepts(env, s, op, SetGroupMemberInfo([Edit(g, v, Some(role))])) <==>
      op != "" && v == op && (role == ADMIN || role == ORDINARY)
    ensures (rpc.KickGroupMember? || rpc.MuteGroup? || rpc.CancelMuteGroup? || rpc.SetGroupInfo?
             || rpc.GroupApplicationResponse? || rpc.TransferGroupOwner? || rpc.DismissGroup?) && rpc.groupID == g
            ==> !Accepts(env, s, op, rpc)
  {
    EditOne(env, s, op, Edit(g, v, Some(role)));
    assert v in [v] && forall u :: u in [v] ==> u == v;
    if rpc.KickGroupMember? && rpc.groupID == g && rpc.kicked != [] {
      assert rpc.kicked[0] in rpc.kicked;
      assert !MayKick(env, s.members, g, op, rpc.kicked[0]);
    }
  }

  /** Somebody who is neither in a group nor an app manager can do nothing to it but apply. */
  lemma OutsiderMay(env: Env, s: State, op: string, rpc: Rpc, g: string)
    requires (g, op) !in s.members && op !in env.managers && g in s.groups && Accepts(env, s, op, rpc)
    ensures match rpc
      case CreateGroup(_, _, _, _, _, _, _) => rpc.groupID != g
      case JoinGroup(_, _) => true
      case SetGroupMemberInfo(edits) => forall e :: e in edits ==> e.groupID != g
      case _ => rpc.groupID != g
  {
    match rpc
    case KickGroupMember(h, us) =>
      assert us[0] in us;
      assert MayKick(env, s.members, h, op, us[0]);
    case SetGroupMemberInfo(edits) =>
      forall e | e in edits
        ensures e.groupID != g
      {
        assert EditAllowed(env, s.members, e.groupID, op, Targets(edits, e.groupID));
      }
    case _ =>
  }

  /** An app manager may do it in any group, member or not, but takes out no owner except by a kick,
      and dismisses only a group that has an owner. */
  lemma ManagerMay(env: Env, s: State, g: string, op: string, from: string, to: string, need: Option<int>, found: string, delete: bool)
    requires op in env.managers
    ensures Accepts(env, s, op, MuteGroup(g)) <==> g in s.groups
    ensures Accepts(env, s, op, CancelMuteGroup(g)) <==> g in s.groups
    ensures Accepts(env, s, op, SetGroupInfo(g, need)) <==> Standing(s, g) && exists u :: IsOwner(s, g, u)
    ensures Accepts(env, s, op, TransferGroupOwner(g, from, to)) <==>
      Standing(s, g) && from != to && (g, from) in s.members && (g, to) in s.members
    ensures Accepts(env, s, op, DismissGroup(g, delete, found)) <==> IsOwner(s, g, found) && g in s.groups && (delete || Standing(s, g))
    ensures Accepts(env, s, op, KickGroupMember(g, [to])) <==> g in s.groups && to != op && (g, to) in s.members
    ensures to != "" ==> (Accepts(env, s, op, QuitGroup(g, to)) <==> (g, to) in s.members && !IsOwner(s, g, to))
  {
    KickOne(env, s, op, g, to);
    if k :| k in s.members && k.0 == g && s.members[k] == OWNER {
      assert IsOwner(s, g, k.1);
    }
  }

  // ---------- editing several members ----------

  /** No user is named twice in one group. */
  ghost predicate NamedOnce(edits: seq<Edit>) {
    forall i, j :: 0 <= i < j < |edits| ==> edits[i].groupID != edits[j].groupID || edits[i].userID != edits[j].userID
  }

  ghost predicate NamedOnceIn(edits: seq<Edit>, g: string) {
    forall i, j :: 0 <= i < j < |edits| && edits[i].groupID == g && edits[j].groupID == g ==> edits[i].userID != edits[j].userID
  }

  lemma OnceMore(rest: seq<Edit>, last: Edit, g: string)
    ensures NamedOnceIn(rest + [last], g) <==> NamedOnceIn(rest, g) && (last.groupID == g ==> last.userID !in Targets(rest, g))
  {
    var edits := rest + [last];
    TargetsExact(rest, g);
    assert forall i :: 0 <= i < |rest| ==> edits[i] == rest[i] && rest[i] in rest;
    if last.groupID == g && last.userID in Targets(rest, g) {
      var e :| e in rest && e.groupID == g && e.userID == last.userID;
      var i :| 0 <= i < |rest| && rest[i] == e;
      assert edits[i].userID == edits[|rest|].userID;
    }
  }

  lemma {:induction false} TargetsDistinct(edits: seq<Edit>, g: string)
    ensures NoDuplicates(Targets(edits, g)) <==> NamedOnceIn(edits, g)
  {
    if edits != [] {
      var rest, last := edits[..|edits| - 1], edits[|edits| - 1];
      TargetsDistinct(rest, g);
      OnceMore(rest, last, g);
      OneNameMore(Targets(rest, g), last.userID);
      assert edits == rest + [last];
      assert Targets(edits, g) == if last.groupID == g then Targets(rest, g) + [last.userID] else Targets(rest, g);
    }
  }

  lemma OneNameMore(us: seq<string>, u: string)
    ensures NoDuplicates(us + [u]) <==> NoDuplicates(us) && u !in us
  {
    var all := us + [u];
    assert forall i :: 0 <= i < |us| ==> all[i] == us[i];
    if u in us {
      var i :| 0 <= i < |us| && us[i] == u;
      assert all[i] == all[|us|];
    }
  }

  /** One user may edit another in a group: it is an app manager, or of higher rank, or the same. */
  predicate Outranks(env: Env, members: Members, g: string, op: string, u: string) {
    op in env.managers || ((g, op) in members && (g, u) in members && (u == op || members[(g, u)] < members[(g, op)]))
  }

  lemma EditAllowedIff(env: Env, s: State, g: string, op: string, us: seq<string>)
    requires OneOwner(s) && KnownRoles(s) && us != [] && AllMembers(s.members, g, us)
    ensures EditAllowed(env, s.members, g, op, us) <==> NoDuplicates(us) && forall u :: u in us ==> Outranks(env, s.members, g, op, u)
  {
    assert us[0] in us;
    if (g, op) in s.members && op !in env.managers {
      forall u | u in us
        ensures Outranks(env, s.members, g, op, u) <==>
          HasRole(s.members, g, op, OWNER) || u == op || (HasRole(s.members, g, op, ADMIN) && HasRole(s.members, g, u, ORDINARY))
      {
        assert IsOwner(s, g, op) && IsOwner(s, g, u) ==> op == u;
      }
    }
  }

  ghost predicate OutranksIn(env: Env, members: Members, g: string, op: string, edits: seq<Edit>) {
    forall x :: x in edits && x.groupID == g ==> Outranks(env, members, g, op, x.userID)
  }

  lemma OutranksEverywhere(env: Env, members: Members, op: string, edits: seq<Edit>)
    ensures (forall e :: e in edits ==> OutranksIn(env, members, e.groupID, op, edits)) <==>
            (forall e :: e in edits ==> Outranks(env, members, e.groupID, op, e.userID))
  {
    if forall e :: e in edits ==> OutranksIn(env, members, e.groupID, op, edits) {
      forall e | e in edits
        ensures Outranks(env, members, e.groupID, op, e.userID)
      {
        assert OutranksIn(env, members, e.groupID, op, edits);
      }
    }
  }

  lemma GroupEditAllowedIff(env: Env, s: State, op: string, edits: seq<Edit>, e: Edit)
    requires OneOwner(s) && KnownRoles(s) && e in edits && forall x :: x in edits ==> (x.groupID, x.userID) in s.members
    ensures EditAllowed(env, s.members, e.groupID, op, Targets(edits, e.groupID)) <==>
      NamedOnceIn(edits, e.groupID) && OutranksIn(env, s.members, e.groupID, op, edits)
  {
    TargetsExact(edits, e.groupID);
    TargetsDistinct(edits, e.groupID);
    assert e.userID in Targets(edits, e.groupID);
    EditAllowedIff(env, s, e.groupID, op, Targets(edits, e.groupID));
  }

  lemma EveryEditAllowedIff(env: Env, s: State, op: string, edits: seq<Edit>)
    requires OneOwner(s) && KnownRoles(s) && forall x :: x in edits ==> (x.groupID, x.userID) in s.members
    ensures (forall e :: e in edits ==> EditAllowed(env, s.members, e.groupID, op, Targets(edits, e.groupID))) <==>
      NamedOnce(edits) && forall e :: e in edits ==> Outranks(env, s.members, e.groupID, op, e.userID)
  {
    OnceEverywhere(edits);
    OutranksEverywhere(env, s.members, op, edits);
    forall e | e in edits
      ensures EditAllowed(env, s.members, e.groupID, op, Targets(edits, e.groupID)) <==>
        NamedOnceIn(edits, e.groupID) && OutranksIn(env, s.members, e.groupID, op, edits)
    {
      GroupEditAllowedIff(env, s, op, edits, e);
    }
  }

  /** An edit of any number of members is accepted exactly when nobody is named twice in a group,
      all are members, no role but admin and ordinary is given, and the one who calls may edit each. */
  lemma EditsAcceptedIff(env: Env, s: State, op: string, edits: seq<Edit>)
    requires OneOwner(s) && KnownRoles(s)
    ensures Accepts(env, s, op, SetGroupMemberInfo(edits)) <==>
      && edits != [] && op != "" && NamedOnce(edits)
      && (forall e :: e in edits ==> e.role == None || e.role == Some(ADMIN) || e.role == Some(ORDINARY))
      && (forall e :: e in edits ==> (e.groupID, e.userID) in s.members)
      && (forall e :: e in edits ==> Outranks(env, s.members, e.groupID, op, e.userID))
  {
    EditedRows(s.members, edits, ("", ""));
    assert forall e: Edit :: RoleSettable(e) <==> e.role == None || e.role == Some(ADMIN) || e.role == Some(ORDINARY);
    if forall e :: e in edits ==> (e.groupID, e.userID) in s.members {
      EveryEditAllowedIff(env, s, op, edits);
    }
  }

  lemma OnceEverywhere(edits: seq<Edit>)
    ensures NamedOnce(edits) <==> forall e :: e in edits ==> NamedOnceIn(edits, e.groupID)
  {
    if forall e :: e in edits ==> NamedOnceIn(edits, e.groupID) {
      forall i, j | 0 <= i < j < |edits|
        ensures edits[i].groupID != edits[j].groupID || edits[i].userID != edits[j].userID
      {
        assert NamedOnceIn(edits, edits[i].groupID);
      }
    }
  }

  // ---------- entering ----------

  /** Applying is open to every known user who is not in the group, and answering to those who run
      it, once for each request. */
  lemma ApplyAndAnswer(env: Env, s: State, op: string, g: string, u: string, result: int)
    ensures Accepts(env, s, op, JoinGroup(g, u)) <==> Standing(s, g) && u in env.users && (g, u) !in s.members
    ensures Accepts(env, s, op, GroupApplicationResponse(g, u, result)) <==>
      && g in s.groups && (op in env.managers || HasRole(s.members, g, op, OWNER) || HasRole(s.members, g, op, ADMIN))
      && Open(s, g, u) && u in env.users && (result == AGREE || result == REFUSE)
  {
  }

  /** Members and app managers invite: one who cannot let people in may ask for anybody known, and
      one who can only for those not in the group. */
  lemma InviteAcceptedIff(env: Env, s: State, op: string, g: string, us: seq<string>)
    ensures Accepts(env, s, op, InviteUserToGroup(g, us)) <==>
      && Standing(s, g) && us != [] && NoDuplicates(us) && (forall u :: u in us ==> u in env.users)
      && (op in env.managers || (g, op) in s.members)
      && ((NeedsApproval(s, g) && op !in env.managers && !HasRole(s.members, g, op, OWNER) && !HasRole(s.members, g, op, ADMIN))
          || forall u :: u in us ==> (g, u) !in s.members)
  {
  }

  lemma FoundersDistinct(op: string, owner: string, admins: seq<string>, ordinary: seq<string>)
    ensures NoDuplicates(Involved(op, owner, admins, ordinary)) <==> NoDuplicates(ordinary + admins + [owner])
  {
    var ids := ordinary + admins + [owner];
    if op !in ids {
      assert forall i :: 0 <= i < |ids| ==> (ids + [op])[i] == ids[i] && ids[i] in ids;
    }
  }

  lemma FoundersKnown(op: string, owner: string, admins: seq<string>, ordinary: seq<string>, users: set<string>)
    ensures AllIn(Involved(op, owner, admins, ordinary), users) <==>
      op in users && owner in users && (forall u :: u in admins || u in ordinary ==> u in users)
  {
    var ids := ordinary + admins + [owner];
    assert forall u :: u in ids <==> u in ordinary || u in admins || u == owner;
    assert forall u :: u in Involved(op, owner, admins, ordinary) <==> u in ids || u == op;
  }

  /** A new working group is accepted from its owner or an app manager, when everybody named and the
      one who calls are known and nobody is named twice. */
  lemma CreateAcceptedIff(env: Env, s: State, op: string, c: Rpc)
    requires c.CreateGroup? && RowsHaveGroups(s)
    ensures Accepts(env, s, op, c) <==>
      && c.groupType == WORKING_GROUP && c.owner != "" && (op == c.owner || op in env.managers) && c.groupID !in s.groups
      && NoDuplicates(c.ordinary + c.admins + [c.owner])
      && op in env.users && c.owner in env.users && (forall u :: u in c.admins || u in c.ordinary ==> u in env.users)
  {
    FoundersDistinct(op, c.owner, c.admins, c.ordinary);
    FoundersKnown(op, c.owner, c.admins, c.ordinary, env.users);
  }
}
