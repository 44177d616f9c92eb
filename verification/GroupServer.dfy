/** The group service's handlers as they are written: loops over lists and maps, early returns
  and updates of the stored rows.  Each answers and leaves the store as Groups.Handle says. */
module GroupServer {
  import opened Wrappers
  import opened Groups
  import opened GroupTheorems

  /** A member as the store answers with it. */
  datatype Row = Row(userID: string, role: int)

  // ---------- lists of rows ----------

  /** The rows found for the users asked for, in the order asked; absent users are skipped. */
  function Existing(members: Members, g: string, us: seq<string>): seq<Row> {
    if us == [] then []
    else
      var last := us[|us| - 1];
      Existing(members, g, us[..|us| - 1]) + (if (g, last) in members then [Row(last, members[(g, last)])] else [])
  }

  lemma {:induction false} ExistingExact(members: Members, g: string, us: seq<string>)
    ensures forall r :: r in Existing(members, g, us) <==> r.userID in us && (g, r.userID) in members && members[(g, r.userID)] == r.role
  {
    if us != [] {
      var rest, last := us[..|us| - 1], us[|us| - 1];
      ExistingExact(members, g, rest);
      assert us == rest + [last];
    }
  }

  lemma {:induction false} ExistingLength(members: Members, g: string, us: seq<string>)
    ensures |Existing(members, g, us)| <= |us|
    ensures |Existing(members, g, us)| == |us| <==> AllMembers(members, g, us)
  {
    if us != [] {
      var rest, last := us[..|us| - 1], us[|us| - 1];
      ExistingLength(members, g, rest);
      assert us == rest + [last];
    }
  }

  /** Among distinct users, exactly one is missing when the answer is one short. */
  lemma {:induction false} OneShort(members: Members, g: string, us: seq<string>, missing: string)
    requires NoDuplicates(us) && missing in us && (g, missing) !in members
    ensures |Existing(members, g, us)| == |us| - 1 <==> forall u :: u in us && u != missing ==> (g, u) in members
    decreases |us|
  {
    var rest, last := us[..|us| - 1], us[|us| - 1];
    assert us == rest + [last];
    ExistingLength(members, g, rest);
    if last == missing {
      assert forall i :: 0 <= i < |rest| ==> us[i] != us[|us| - 1];
      assert last !in rest;
    } else {
      assert missing in rest;
      OneShort(members, g, rest, missing);
    }
  }

  /** The users asked for by an edit: its targets, and the operator if it is not among them. */
  function Asked(op: string, us: seq<string>): seq<string> {
    if op in us then us else us + [op]
  }

  /** Comparing the lengths of two lists decides membership: nobody missing, or the operator
      alone.  The operator's index is used in the first case only, where it exists. */
  lemma LengthsDecide(members: Members, g: string, op: string, us: seq<string>, found: seq<Row>)
    requires NoDuplicates(us) && found == Existing(members, g, Asked(op, us))
    ensures |found| == |Asked(op, us)| <==> (g, op) in members && AllMembers(members, g, us)
    ensures |found| == |Asked(op, us)| ==> exists i :: 0 <= i < |found| && found[i].userID == op
    ensures (exists i :: 0 <= i < |found| && found[i].userID == op) <==> (g, op) in members
    ensures (g, op) !in members ==>
              (|found| == |Asked(op, us)| - 1 <==> forall u :: u in us && u != op ==> (g, u) in members)
  {
    var asked := Asked(op, us);
    assert op in asked && NoDuplicates(asked);
    assert forall u :: u in asked <==> u in us || u == op;
    ExistingLength(members, g, asked);
    ExistingExact(members, g, asked);
    if (g, op) in members {
      assert Row(op, members[(g, op)]) in found;
    } else {
      OneShort(members, g, asked, op);
    }
  }

  predicate AdminMayEdit(op: string, r: Row) {
    r.role != OWNER && (r.role == ADMIN ==> r.userID == op)
  }

  /** The operator is itself among the rows looked at, so a role that is none of the three never
      passes, and neither does an ordinary member who names another. */
  lemma FoundDecide(members: Members, g: string, op: string, us: seq<string>, role: int, found: seq<Row>)
    requires AllMembers(members, g, us) && HasRole(members, g, op, role) && found == Existing(members, g, Asked(op, us))
    ensures MayEdit(members, g, op, us) <==>
      if role == OWNER then true
      else if role == ADMIN then forall r :: r in found ==> AdminMayEdit(op, r)
      else if role == ORDINARY then forall r :: r in found ==> r.role == ORDINARY && r.userID == op
      else forall r :: r in found ==> r.role < role
  {
    ExistingExact(members, g, Asked(op, us));
    assert forall u :: u in us ==> Row(u, members[(g, u)]) in found;
    assert Row(op, role) in found;
    assert forall r :: r in found ==> r.userID in us || r.userID == op;
    if role == ADMIN && MayEdit(members, g, op, us) {
      assert forall r :: r in found ==> AdminMayEdit(op, r);
    }
  }

  // ---------- edits by group ----------

  function EditsOf(edits: seq<Edit>, g: string): seq<Edit> {
    if edits == [] then []
    else
      var last := edits[|edits| - 1];
      EditsOf(edits[..|edits| - 1], g) + (if last.groupID == g then [last] else [])
  }

  function UserIDs(edits: seq<Edit>): seq<string> {
    seq(|edits|, i requires 0 <= i < |edits| => edits[i].userID)
  }

  lemma {:induction false} TargetsOf(edits: seq<Edit>, g: string)
    ensures Targets(edits, g) == UserIDs(EditsOf(edits, g))
    ensures EditsOf(edits, g) != [] <==> exists e :: e in edits && e.groupID == g
  {
    if edits != [] {
      var rest, last := edits[..|edits| - 1], edits[|edits| - 1];
      TargetsOf(rest, g);
      assert edits == rest + [last];
      if last.groupID == g {
        assert last in edits;
        assert UserIDs(EditsOf(rest, g) + [last]) == UserIDs(EditsOf(rest, g)) + [last.userID];
      } else {
        assert forall e :: e in edits && e.groupID == g ==> e in rest;
      }
    }
  }

  /** The edits of each group named, in the order they came. */
  ghost predicate Grouping(byGroup: map<string, seq<Edit>>, edits: seq<Edit>) {
    && (forall g :: g in byGroup <==> EditsOf(edits, g) != [])
    && (forall g :: g in byGroup ==> byGroup[g] == EditsOf(edits, g))
  }

  predicate AllSettable(edits: seq<Edit>) {
    forall e :: e in edits ==> RoleSettable(e)
  }

  lemma SettableGrows(edits: seq<Edit>, i: nat)
    requires i < |edits| && AllSettable(edits[..i]) && RoleSettable(edits[i])
    ensures edits[..i + 1] == edits[..i] + [edits[i]] && AllSettable(edits[..i] + [edits[i]])
  {
  }

  lemma NotAllSettable(edits: seq<Edit>, i: nat)
    requires i < |edits| && !RoleSettable(edits[i])
    ensures !AllSettable(edits)
  {
    assert edits[i] in edits;
  }

  lemma WholeList<T>(s: seq<T>)
    ensures s[..|s|] == s
  {
  }

  lemma EditsOfStep(edits: seq<Edit>, e: Edit, g: string)
    ensures EditsOf(edits + [e], g) == EditsOf(edits, g) + (if e.groupID == g then [e] else [])
  {
    assert (edits + [e])[..|edits|] == edits;
  }

  lemma GroupingStep(byGroup: map<string, seq<Edit>>, edits: seq<Edit>, e: Edit, after: map<string, seq<Edit>>)
    requires Grouping(byGroup, edits)
    requires after == byGroup[e.groupID := (if e.groupID in byGroup then byGroup[e.groupID] else []) + [e]]
    ensures Grouping(after, edits + [e])
  {
    forall g
      ensures g in after <==> EditsOf(edits + [e], g) != []
      ensures g in after ==> after[g] == EditsOf(edits + [e], g)
    {
      EditsOfStep(edits, e, g);
      assert EditsOf(edits, g) + [] == EditsOf(edits, g);
      assert g in byGroup <==> EditsOf(edits, g) != [];
    }
  }

  /** Checking each group once checks every edit. */
  lemma AllGroupsChecked(env: Env, members: Members, op: string, edits: seq<Edit>, byGroup: map<string, seq<Edit>>)
    requires Grouping(byGroup, edits)
    ensures (forall g :: g in byGroup ==> EditAllowed(env, members, g, op, UserIDs(byGroup[g]))) <==>
            (forall e :: e in edits ==> EditAllowed(env, members, e.groupID, op, Targets(edits, e.groupID)))
  {
    forall g
      ensures Targets(edits, g) == UserIDs(EditsOf(edits, g))
      ensures EditsOf(edits, g) != [] <==> exists e :: e in edits && e.groupID == g
    {
      TargetsOf(edits, g);
    }
    if forall e :: e in edits ==> EditAllowed(env, members, e.groupID, op, Targets(edits, e.groupID)) {
      forall g | g in byGroup
        ensures EditAllowed(env, members, g, op, UserIDs(byGroup[g]))
      {
        var e :| e in edits && e.groupID == g;
      }
    }
  }

  // ---------- users ----------

  function Found(us: seq<string>, users: set<string>): set<string> {
    set u | u in us && u in users
  }

  lemma FoundStep(us: seq<string>, last: string, users: set<string>)
    ensures Found(us + [last], users) == Found(us, users) + (if last in users then {last} else {})
  {
  }

  /** Distinct users are all known exactly when as many are found as were asked for. */
  lemma {:induction false} AllFound(us: seq<string>, users: set<string>)
    requires NoDuplicates(us)
    ensures |Found(us, users)| <= |us|
    ensures |Found(us, users)| == |us| <==> AllIn(us, users)
    decreases |us|
  {
    if us != [] {
      var rest, last := us[..|us| - 1], us[|us| - 1];
      assert us == rest + [last];
      AllFound(rest, users);
      FoundStep(rest, last, users);
      assert last !in Found(rest, users) by {
        assert forall i :: 0 <= i < |rest| ==> us[i] != us[|us| - 1];
      }
      assert AllIn(us, users) <==> AllIn(rest, users) && last in users;
    } else {
      assert Found(us, users) == {};
    }
  }

  // ---------- the service ----------

  class Server {
    const env: Env
    var groups: map<string, Group>
    var members: Members
    var requests: map<(string, string), int>

    function S(): State
      reads this
    {
      State(groups, members, requests)
    }

    constructor (env: Env)
      ensures S() == State(map[], map[], map[]) && this.env == env
    {
      this.env := env;
      groups, members, requests := map[], map[], map[];
    }

    method FindGroupMembers(g: string, us: seq<string>) returns (rows: seq<Row>)
      ensures rows == Existing(members, g, us)
    {
      rows := [];
      for i := 0 to |us|
        invariant rows == Existing(members, g, us[..i])
      {
        assert us[..i + 1][..i] == us[..i];
        if (g, us[i]) in members {
          rows := rows + [Row(us[i], members[(g, us[i])])];
        }
      }
      assert us[..|us|] == us;
    }

    method KnownUsers(us: seq<string>) returns (found: set<string>)
      ensures found == Found(us, env.users)
    {
      found := {};
      for i := 0 to |us|
        invariant found == Found(us[..i], env.users)
      {
        assert us[..i + 1] == us[..i] + [us[i]];
        FoundStep(us[..i], us[i], env.users);
        if us[i] in env.users {
          found := found + {us[i]};
        }
      }
      assert us[..|us|] == us;
    }

    /** The rows of users joining with one role, added to those collected before. */
    method Collect(g: string, us: seq<string>, role: int, before: Members) returns (rows: Members)
      ensures rows == before + Rows(g, us, role)
    {
      rows := before;
      for i := 0 to |us|
        invariant rows == before + Rows(g, us[..i], role)
      {
        assert us[..i + 1] == us[..i] + [us[i]];
        rows := rows[(g, us[i]) := role];
      }
      assert us[..|us|] == us;
    }

    /** Inserting fails as a whole when a row exists. */
    method Insert(rows: Members) returns (ok: bool)
      modifies this`members
      ensures ok <==> rows.Keys !! old(members).Keys
      ensures members == if ok then old(members) + rows else old(members)
    {
      ok := rows.Keys !! members.Keys;
      if ok {
        members := members + rows;
      }
    }

    method CreateGroup(op: string, c: Rpc) returns (ok: bool)
      requires c.CreateGroup?
      modifies this
      ensures ok <==> Handle(env, old(S()), op, c).Some?
      ensures S() == After(env, old(S()), Call(op, c))
    {
      if c.groupType != WORKING_GROUP || c.owner == "" || !Access(env, op, c.owner) {
        return false;
      }
      var userIDs := c.ordinary + c.admins + [c.owner];
      if op !in userIDs {
        userIDs := userIDs + [op];
      }
      if !NoDuplicates(userIDs) {
        return false;
      }
      var found := KnownUsers(userIDs);
      AllFound(userIDs, env.users);
      if |found| != |userIDs| || c.groupID in groups {
        return false;
      }
      var rows := map[(c.groupID, c.owner) := OWNER];
      assert rows == Rows(c.groupID, [c.owner], OWNER);
      rows := Collect(c.groupID, c.admins, ADMIN, rows);
      rows := Collect(c.groupID, c.ordinary, ORDINARY, rows);
      NamedRows(c, rows);
      ok := Insert(rows);
      if ok {
        groups := groups[c.groupID := Group(c.status, c.need)];
      }
    }

    lemma NamedRows(c: Rpc, rows: Members)
      requires c.CreateGroup? && rows == Founded(c.groupID, c.owner, c.admins, c.ordinary)
      ensures rows.Keys !! members.Keys <==> NoMember(members, c.groupID, [c.owner] + c.admins + c.ordinary)
    {
      forall k
        ensures k in rows <==> k.0 == c.groupID && k.1 in [c.owner] + c.admins + c.ordinary
      {
        FoundedNamed(c.groupID, c.owner, c.admins, c.ordinary, k);
      }
    }

    method InviteUserToGroup(op: string, g: string, invited: seq<string>) returns (ok: bool)
      modifies this
      ensures ok <==> Handle(env, old(S()), op, Rpc.InviteUserToGroup(g, invited)).Some?
      ensures S() == After(env, old(S()), Call(op, Rpc.InviteUserToGroup(g, invited)))
    {
      if |invited| == 0 || !NoDuplicates(invited) || g !in groups || groups[g].status == DISMISSED {
        return false;
      }
      var found := KnownUsers(invited);
      AllFound(invited, env.users);
      if |found| != |invited| || (!IsManager(env, op) && (g, op) !in members) {
        return false;
      }
      if groups[g].needVerification == ALL_NEED_VERIFICATION && !IsManager(env, op) && !OwnerOrAdmin(members, g, op) {
        var asked := Collect(g, invited, 0, map[]);
        assert asked == Rows(g, invited, 0);
        requests := requests + asked;
        return true;
      }
      var rows := Collect(g, invited, ORDINARY, map[]);
      assert rows == Rows(g, invited, ORDINARY);
      assert rows.Keys !! members.Keys <==> NoMember(members, g, invited);
      ok := Insert(rows);
    }

    method JoinGroup(op: string, g: string, applicant: string) returns (ok: bool)
      modifies this
      ensures ok <==> Handle(env, old(S()), op, Rpc.JoinGroup(g, applicant)).Some?
      ensures S() == After(env, old(S()), Call(op, Rpc.JoinGroup(g, applicant)))
    {
      if applicant !in env.users || g !in groups || groups[g].status == DISMISSED || (g, applicant) in members {
        return false;
      }
      if groups[g].needVerification == DIRECTLY {
        assert map[(g, applicant) := ORDINARY] == Rows(g, [applicant], ORDINARY);
        ok := Insert(map[(g, applicant) := ORDINARY]);
      } else {
        assert map[(g, applicant) := 0] == Rows(g, [applicant], 0);
        requests := requests + map[(g, applicant) := 0];
        ok := true;
      }
    }

    method GroupApplicationResponse(op: string, g: string, fromUser: string, result: int) returns (ok: bool)
      modifies this
      ensures ok <==> Handle(env, old(S()), op, Rpc.GroupApplicationResponse(g, fromUser, result)).Some?
      ensures S() == After(env, old(S()), Call(op, Rpc.GroupApplicationResponse(g, fromUser, result)))
    {
      if result != AGREE && result != REFUSE {
        return false;
      }
      if !IsManager(env, op) {
        if (g, op) !in members {
          return false;
        }
        var role := members[(g, op)];
        if !(role == OWNER || role == ADMIN) {
          return false;
        }
      }
      if g !in groups || (g, fromUser) !in requests || requests[(g, fromUser)] != 0 || fromUser !in env.users {
        return false;
      }
      var inGroup := (g, fromUser) in members;
      requests := requests[(g, fromUser) := result];
      if !inGroup && result == AGREE {
        assert map[(g, fromUser) := ORDINARY] == Rows(g, [fromUser], ORDINARY);
        ok := Insert(map[(g, fromUser) := ORDINARY]);
      } else {
        ok := true;
      }
    }

    method MemberMap(g: string, us: seq<string>) returns (memberMap: map<string, int>)
      ensures forall u :: u in memberMap <==> u in us && (g, u) in members
      ensures forall u :: u in memberMap ==> memberMap[u] == members[(g, u)]
    {
      var rows := FindGroupMembers(g, us);
      ExistingExact(members, g, us);
      memberMap := map[];
      for i := 0 to |rows|
        invariant forall u :: u in memberMap ==> Row(u, memberMap[u]) in rows
        invariant forall j :: 0 <= j < i ==> rows[j].userID in memberMap
      {
        memberMap := memberMap[rows[i].userID := rows[i].role];
      }
      assert forall u :: u in us && (g, u) in members ==> Row(u, members[(g, u)]) in rows;
    }

    /** The permission check of a kick, member by member. */
    method CheckKick(op: string, g: string, kicked: seq<string>) returns (ok: bool)
      ensures ok <==> AllMembers(members, g, kicked) && forall u :: u in kicked ==> MayKick(env, members, g, op, u)
    {
      var memberMap := MemberMap(g, kicked + [op]);
      for i := 0 to |kicked|
        invariant forall j :: 0 <= j < i ==> (g, kicked[j]) in members && MayKick(env, members, g, op, kicked[j])
      {
        var u := kicked[i];
        if u !in memberMap {
          return false;
        }
        if !IsManager(env, op) {
          if op !in memberMap {
            assert !MayKick(env, members, g, op, u);
            return false;
          }
          if memberMap[op] == OWNER {
          } else if memberMap[op] == ADMIN {
            if memberMap[u] == OWNER || memberMap[u] == ADMIN {
              assert !MayKick(env, members, g, op, u);
              return false;
            }
          } else {
            assert !MayKick(env, members, g, op, u);
            return false;
          }
        }
      }
      return true;
    }

    method DeleteGroupMember(g: string, us: seq<string>)
      modifies this`members
      ensures members == WithoutRows(old(members), g, us)
    {
      members := map k | k in members && !(k.0 == g && k.1 in us) :: members[k];
    }

    method KickGroupMember(op: string, g: string, kicked: seq<string>) returns (ok: bool)
      modifies this
      ensures ok <==> Handle(env, old(S()), op, Rpc.KickGroupMember(g, kicked)).Some?
      ensures S() == After(env, old(S()), Call(op, Rpc.KickGroupMember(g, kicked)))
    {
      if g !in groups || |kicked| == 0 || !NoDuplicates(kicked) || op in kicked {
        return false;
      }
      ok := CheckKick(op, g, kicked);
      if ok {
        DeleteGroupMember(g, kicked);
      }
    }

    method QuitGroup(op: string, g: string, userID: string) returns (ok: bool)
      modifies this
      ensures ok <==> Handle(env, old(S()), op, Rpc.QuitGroup(g, userID)).Some?
      ensures S() == After(env, old(S()), Call(op, Rpc.QuitGroup(g, userID)))
    {
      var u := userID;
      if userID == "" {
        u := op;
      } else if !Access(env, op, userID) {
        return false;
      }
      if (g, u) !in members || members[(g, u)] == OWNER {
        return false;
      }
      DeleteGroupMember(g, [u]);
      return true;
    }

    method TransferGroupOwner(op: string, g: string, from: string, to: string) returns (ok: bool)
      modifies this
      ensures ok <==> Handle(env, old(S()), op, Rpc.TransferGroupOwner(g, from, to)).Some?
      ensures S() == After(env, old(S()), Call(op, Rpc.TransferGroupOwner(g, from, to)))
    {
      if g !in groups || groups[g].status == DISMISSED || from == to {
        return false;
      }
      var memberMap := MemberMap(g, [from, to]);
      if from !in memberMap || to !in memberMap {
        return false;
      }
      if !IsManager(env, op) && !(op == from && memberMap[from] == OWNER) {
        return false;
      }
      var role := memberMap[to];
      members := members[(g, from) := role];
      members := members[(g, to) := OWNER];
      return true;
    }

    method DismissGroup(op: string, g: string, deleteMember: bool, found: string) returns (ok: bool)
      requires (exists u :: HasRole(members, g, u, OWNER)) ==> HasRole(members, g, found, OWNER)
      modifies this
      ensures ok <==> Handle(env, old(S()), op, Rpc.DismissGroup(g, deleteMember, found)).Some?
      ensures S() == After(env, old(S()), Call(op, Rpc.DismissGroup(g, deleteMember, found)))
    {
      if !HasRole(members, g, found, OWNER) {
        return false;
      }
      if !IsManager(env, op) && found != op {
        return false;
      }
      if g !in groups || (!deleteMember && groups[g].status == DISMISSED) {
        return false;
      }
      groups := groups[g := groups[g].(status := DISMISSED)];
      if deleteMember {
        members := map k | k in members && k.0 != g :: members[k];
      }
      return true;
    }

    /** The check made for one group of an edit: by lengths and the operator's index. */
    method CheckEdit(op: string, g: string, edits: seq<Edit>) returns (ok: bool)
      ensures ok <==> EditAllowed(env, members, g, op, UserIDs(edits))
    {
      var temp: set<string> := {};
      var userIDs := [];
      for i := 0 to |edits|
        invariant userIDs == UserIDs(edits)[..i] && NoDuplicates(userIDs)
        invariant temp == set u | u in userIDs
      {
        if edits[i].userID in temp {
          var j :| 0 <= j < i && userIDs[j] == edits[i].userID;
          assert UserIDs(edits)[j] == UserIDs(edits)[i];
          return false;
        }
        temp := temp + {edits[i].userID};
        userIDs := userIDs + [edits[i].userID];
      }
      assert userIDs == UserIDs(edits);
      if op !in temp {
        userIDs := userIDs + [op];
      }
      assert userIDs == Asked(op, UserIDs(edits));
      var dbMembers := FindGroupMembers(g, userIDs);
      LengthsDecide(members, g, op, UserIDs(edits), dbMembers);
      ok := CheckFound(op, g, UserIDs(edits), |userIDs|, dbMembers);
    }

    method CheckFound(op: string, g: string, us: seq<string>, asked: nat, dbMembers: seq<Row>) returns (ok: bool)
      requires NoDuplicates(us) && asked == |Asked(op, us)| && dbMembers == Existing(members, g, Asked(op, us))
      ensures ok <==> EditAllowed(env, members, g, op, us)
    {
      LengthsDecide(members, g, op, us, dbMembers);
      var opUserIndex := -1;
      for i := 0 to |dbMembers|
        invariant opUserIndex == -1 && forall j :: 0 <= j < i ==> dbMembers[j].userID != op
      {
        if dbMembers[i].userID == op {
          opUserIndex := i;
          break;
        }
      }
      if asked - |dbMembers| == 0 {
        if IsManager(env, op) {
          return true;
        }
        ExistingExact(members, g, Asked(op, us));
        assert dbMembers[opUserIndex] in dbMembers;
        ok := CheckRoles(op, g, us, dbMembers[opUserIndex].role, dbMembers);
      } else if asked - |dbMembers| == 1 {
        if opUserIndex >= 0 {
          return false;
        }
        if !IsManager(env, op) {
          return false;
        }
        return true;
      } else {
        return false;
      }
    }

    method AdminMay(op: string, dbMembers: seq<Row>) returns (ok: bool)
      ensures ok <==> forall r :: r in dbMembers ==> AdminMayEdit(op, r)
    {
      for i := 0 to |dbMembers|
        invariant forall j :: 0 <= j < i ==> AdminMayEdit(op, dbMembers[j])
      {
        assert dbMembers[i] in dbMembers;
        if dbMembers[i].role == OWNER {
          return false;
        }
        if dbMembers[i].role == ADMIN && dbMembers[i].userID != op {
          return false;
        }
      }
      return true;
    }

    method OrdinaryMay(op: string, dbMembers: seq<Row>) returns (ok: bool)
      ensures ok <==> forall r :: r in dbMembers ==> r.role == ORDINARY && r.userID == op
    {
      for i := 0 to |dbMembers|
        invariant forall j :: 0 <= j < i ==> dbMembers[j].role == ORDINARY && dbMembers[j].userID == op
      {
        assert dbMembers[i] in dbMembers;
        if !(dbMembers[i].role == ORDINARY && dbMembers[i].userID == op) {
          return false;
        }
      }
      return true;
    }

    method OtherMay(role: int, dbMembers: seq<Row>) returns (ok: bool)
      ensures ok <==> forall r :: r in dbMembers ==> r.role < role
    {
      for i := 0 to |dbMembers|
        invariant forall j :: 0 <= j < i ==> dbMembers[j].role < role
      {
        assert dbMembers[i] in dbMembers;
        if dbMembers[i].role >= role {
          return false;
        }
      }
      return true;
    }

    /** Everyone is a member: what the operator's own role lets it edit. */
    method CheckRoles(op: string, g: string, us: seq<string>, role: int, dbMembers: seq<Row>) returns (ok: bool)
      requires AllMembers(members, g, us) && HasRole(members, g, op, role)
      requires dbMembers == Existing(members, g, Asked(op, us))
      ensures ok <==> MayEdit(members, g, op, us)
    {
      FoundDecide(members, g, op, us, role, dbMembers);
      ok := true;
      if role != OWNER {
        if role == ADMIN {
          ok := AdminMay(op, dbMembers);
        } else if role == ORDINARY {
          ok := OrdinaryMay(op, dbMembers);
        } else {
          ok := OtherMay(role, dbMembers);
        }
      }
    }

    /** Appends an edit to those of its group. */
    method AddEdit(byGroup: map<string, seq<Edit>>, e: Edit, ghost done: seq<Edit>) returns (after: map<string, seq<Edit>>)
      requires Grouping(byGroup, done)
      ensures Grouping(after, done + [e])
    {
      after := byGroup[e.groupID := (if e.groupID in byGroup then byGroup[e.groupID] else []) + [e]];
      GroupingStep(byGroup, done, e, after);
    }

    /** Sorts the edits by group, refusing roles that cannot be set. */
    method GroupEdits(edits: seq<Edit>) returns (ok: bool, byGroup: map<string, seq<Edit>>)
      ensures ok <==> AllSettable(edits)
      ensures ok ==> Grouping(byGroup, edits)
    {
      byGroup := map[];
      ghost var done := [];
      for i := 0 to |edits|
        invariant done == edits[..i] && AllSettable(done) && Grouping(byGroup, done)
      {
        var e := edits[i];
        if e.role.Some? && e.role.value != ADMIN && e.role.value != ORDINARY {
          NotAllSettable(edits, i);
          return false, map[];
        }
        SettableGrows(edits, i);
        byGroup := AddEdit(byGroup, e, done);
        done := done + [e];
      }
      WholeList(edits);
      return true, byGroup;
    }

    /** Updates the rows one by one, in one transaction. */
    method UpdateGroupMembers(edits: seq<Edit>) returns (ok: bool)
      modifies this`members
      ensures ok <==> Edited(old(members), edits).Some?
      ensures members == if ok then Edited(old(members), edits).value else old(members)
    {
      var rows := members;
      for i := 0 to |edits|
        invariant members == old(members) && Edited(members, edits[..i]) == Some(rows)
      {
        var e := edits[i];
        assert edits[..i + 1][..i] == edits[..i];
        if (e.groupID, e.userID) !in rows {
          EditedRows(members, edits[..i], (e.groupID, e.userID));
          EditedRows(members, edits, (e.groupID, e.userID));
          return false;
        }
        if e.role.Some? {
          rows := rows[(e.groupID, e.userID) := e.role.value];
        }
      }
      assert edits[..|edits|] == edits;
      members := rows;
      return true;
    }

    /** The groups are checked in any order. */
    method CheckEdits(op: string, byGroup: map<string, seq<Edit>>) returns (ok: bool)
      ensures ok <==> forall g :: g in byGroup ==> EditAllowed(env, members, g, op, UserIDs(byGroup[g]))
    {
      var left := byGroup.Keys;
      while left != {}
        invariant left <= byGroup.Keys
        invariant forall g :: g in byGroup && g !in left ==> EditAllowed(env, members, g, op, UserIDs(byGroup[g]))
        decreases |left|
      {
        var g :| g in left;
        left := left - {g};
        var allowed := CheckEdit(op, g, byGroup[g]);
        if !allowed {
          return false;
        }
      }
      return true;
    }

    method SetGroupMemberInfo(op: string, edits: seq<Edit>) returns (ok: bool)
      modifies this
      ensures ok <==> Handle(env, old(S()), op, Rpc.SetGroupMemberInfo(edits)).Some?
      ensures S() == After(env, old(S()), Call(op, Rpc.SetGroupMemberInfo(edits)))
    {
      if |edits| == 0 || op == "" {
        return false;
      }
      var settable, byGroup := GroupEdits(edits);
      if !settable {
        return false;
      }
      AllGroupsChecked(env, members, op, edits, byGroup);
      var allowed := CheckEdits(op, byGroup);
      if !allowed {
        return false;
      }
      ok := UpdateGroupMembers(edits);
    }

    /** What runs of a group may do: its owner, its admins and app managers. */
    method CheckGroupAdmin(op: string, g: string) returns (ok: bool)
      ensures ok <==> Runs(env, members, g, op)
    {
      if !IsManager(env, op) {
        if (g, op) !in members {
          return false;
        }
        var role := members[(g, op)];
        return role == OWNER || role == ADMIN;
      }
      return true;
    }

    method MuteGroup(op: string, g: string) returns (ok: bool)
      modifies this
      ensures ok <==> Handle(env, old(S()), op, Rpc.MuteGroup(g)).Some?
      ensures S() == After(env, old(S()), Call(op, Rpc.MuteGroup(g)))
    {
      ok := CheckGroupAdmin(op, g);
      if ok && g in groups {
        groups := groups[g := groups[g].(status := MUTED)];
      } else {
        ok := false;
      }
    }

    method CancelMuteGroup(op: string, g: string) returns (ok: bool)
      modifies this
      ensures ok <==> Handle(env, old(S()), op, Rpc.CancelMuteGroup(g)).Some?
      ensures S() == After(env, old(S()), Call(op, Rpc.CancelMuteGroup(g)))
    {
      ok := CheckGroupAdmin(op, g);
      if ok && g in groups {
        groups := groups[g := groups[g].(status := OK)];
      } else {
        ok := false;
      }
    }

    method SetGroupInfo(op: string, g: string, need: Option<int>) returns (ok: bool)
      modifies this
      ensures ok <==> Handle(env, old(S()), op, Rpc.SetGroupInfo(g, need)).Some?
      ensures S() == After(env, old(S()), Call(op, Rpc.SetGroupInfo(g, need)))
    {
      var runs := CheckGroupAdmin(op, g);
      if !runs || g !in groups || groups[g].status == DISMISSED {
        return false;
      }
      if !exists k :: k in members && k.0 == g && members[k] == OWNER {
        return false;
      }
      if need.Some? {
        groups := groups[g := groups[g].(needVerification := need.value)];
      }
      return true;
    }
  }
}
