/** Group membership and roles (internal/rpc/group/group.go): which calls are accepted, and what
  an accepted call does to the stored groups, members and join requests. */
module Groups {

  import opened Wrappers

  // roles
  const OWNER := 100
  const ADMIN := 60
  const ORDINARY := 20

  // group status
  const OK := 0
  const DISMISSED := 2
  const MUTED := 3

  // who may join
  const ALL_NEED_VERIFICATION := 1
  const DIRECTLY := 2

  // answers to a join request; 0 is one not answered yet
  const AGREE := 1
  const REFUSE := -1

  const WORKING_GROUP := 2

  type Members = map<(string, string), int>

  datatype Group = Group(status: int, needVerification: int)

  /** Members and requests are keyed by group and user. */
  datatype State = State(groups: map<string, Group>, members: Members, requests: map<(string, string), int>)

  /** The configured app managers and the users the user service knows. */
  datatype Env = Env(managers: set<string>, users: set<string>)

  /** One entry of a member edit; without a role it edits something else of the member. */
  datatype Edit = Edit(groupID: string, userID: string, role: Option<int>)

  datatype Rpc =
    | CreateGroup(groupType: int, groupID: string, status: int, need: int, owner: string, admins: seq<string>, ordinary: seq<string>)
    | InviteUserToGroup(groupID: string, invited: seq<string>)
    | JoinGroup(groupID: string, applicant: string)
    | GroupApplicationResponse(groupID: string, fromUser: string, result: int)
    | KickGroupMember(groupID: string, kicked: seq<string>)
    | QuitGroup(groupID: string, userID: string)
    | TransferGroupOwner(groupID: string, oldOwner: string, newOwner: string)
    | DismissGroup(groupID: string, deleteMember: bool, found: string)  // found: the owner the database answered with
    | SetGroupMemberInfo(edits: seq<Edit>)
    | MuteGroup(groupID: string)
    | CancelMuteGroup(groupID: string)
    | SetGroupInfo(groupID: string, needVerification: Option<int>)

  // ---------- what calls ask ----------

  predicate IsManager(env: Env, op: string) {
    op in env.managers
  }

  predicate Access(env: Env, op: string, user: string) {
    IsManager(env, op) || op == user
  }

  predicate HasRole(members: Members, g: string, u: string, role: int) {
    (g, u) in members && members[(g, u)] == role
  }

  predicate IsOwner(s: State, g: string, u: string) {
    HasRole(s.members, g, u, OWNER)
  }

  predicate OwnerOrAdmin(members: Members, g: string, u: string) {
    HasRole(members, g, u, OWNER) || HasRole(members, g, u, ADMIN)
  }

  predicate Runs(env: Env, members: Members, g: string, op: string) {
    IsManager(env, op) || OwnerOrAdmin(members, g, op)
  }

  predicate NoDuplicates(us: seq<string>) {
    forall i, j :: 0 <= i < j < |us| ==> us[i] != us[j]
  }

  predicate AllIn(us: seq<string>, users: set<string>) {
    forall u :: u in us ==> u in users
  }

  predicate AllMembers(members: Members, g: string, us: seq<string>) {
    forall u :: u in us ==> (g, u) in members
  }

  predicate NoMember(members: Members, g: string, us: seq<string>) {
    forall u :: u in us ==> (g, u) !in members
  }

  function Rows(g: string, us: seq<string>, role: int): Members {
    map u | u in us :: (g, u) := role
  }

  function WithoutRows(members: Members, g: string, us: seq<string>): Members {
    map k | k in members && !(k.0 == g && k.1 in us) :: members[k]
  }

  function WithoutGroup(members: Members, g: string): Members {
    map k | k in members && k.0 != g :: members[k]
  }

  // ---------- creating, inviting, joining ----------

  function Involved(op: string, owner: string, admins: seq<string>, ordinary: seq<string>): seq<string> {
    var ids := ordinary + admins + [owner];
    if op in ids then ids else ids + [op]
  }

  function Founded(g: string, owner: string, admins: seq<string>, ordinary: seq<string>): Members {
    Rows(g, [owner], OWNER) + Rows(g, admins, ADMIN) + Rows(g, ordinary, ORDINARY)
  }

  function Create(env: Env, s: State, op: string, c: Rpc): Option<State>
    requires c.CreateGroup?
  {
    var ids := Involved(op, c.owner, c.admins, c.ordinary);
    if c.groupType == WORKING_GROUP && c.owner != "" && Access(env, op, c.owner) && NoDuplicates(ids) && AllIn(ids, env.users)
       && c.groupID !in s.groups && NoMember(s.members, c.groupID, [c.owner] + c.admins + c.ordinary)
    then Some(s.(groups := s.groups[c.groupID := Group(c.status, c.need)],
                 members := s.members + Founded(c.groupID, c.owner, c.admins, c.ordinary)))
    else None
  }

  /** Asking to join: any earlier request of the user is replaced. */
  function Requested(s: State, g: string, us: seq<string>): State {
    s.(requests := s.requests + Rows(g, us, 0))
  }

  function Joined(s: State, g: string, us: seq<string>): State {
    s.(members := s.members + Rows(g, us, ORDINARY))
  }

  function Invite(env: Env, s: State, op: string, g: string, us: seq<string>): Option<State> {
    if us == [] || !NoDuplicates(us) || g !in s.groups || s.groups[g].status == DISMISSED || !AllIn(us, env.users)
       || !(IsManager(env, op) || (g, op) in s.members)
    then None
    else if s.groups[g].needVerification == ALL_NEED_VERIFICATION && !Runs(env, s.members, g, op)
    then Some(Requested(s, g, us))
    else if NoMember(s.members, g, us) then Some(Joined(s, g, us))
    else None
  }

  function Join(env: Env, s: State, g: string, u: string): Option<State> {
    if u !in env.users || g !in s.groups || s.groups[g].status == DISMISSED || (g, u) in s.members then None
    else if s.groups[g].needVerification == DIRECTLY then Some(Joined(s, g, [u]))
    else Some(Requested(s, g, [u]))
  }

  function Respond(env: Env, s: State, op: string, g: string, u: string, result: int): Option<State> {
    if (result == AGREE || result == REFUSE) && Runs(env, s.members, g, op) && g in s.groups
       && (g, u) in s.requests && s.requests[(g, u)] == 0 && u in env.users
    then
      var s' := s.(requests := s.requests[(g, u) := result]);
      Some(if result == AGREE && (g, u) !in s.members then Joined(s', g, [u]) else s')
    else None
  }

  // ---------- leaving ----------

  /** Whom an operator may kick. */
  predicate MayKick(env: Env, members: Members, g: string, op: string, u: string) {
    || IsManager(env, op)
    || HasRole(members, g, op, OWNER)
    || (HasRole(members, g, op, ADMIN) && !OwnerOrAdmin(members, g, u))
  }

  predicate KickAllowed(env: Env, members: Members, g: string, op: string, us: seq<string>) {
    && us != [] && NoDuplicates(us) && op !in us && AllMembers(members, g, us)
    && forall u :: u in us ==> MayKick(env, members, g, op, u)
  }

  function Kick(env: Env, s: State, op: string, g: string, us: seq<string>): Option<State> {
    if g in s.groups && KickAllowed(env, s.members, g, op, us)
    then Some(s.(members := WithoutRows(s.members, g, us)))
    else None
  }

  function Quit(env: Env, s: State, op: string, g: string, userID: string): Option<State> {
    var u := if userID == "" then op else userID;
    if (userID == "" || Access(env, op, userID)) && (g, u) in s.members && !IsOwner(s, g, u)
    then Some(s.(members := WithoutRows(s.members, g, [u])))
    else None
  }

  /** Dismissing asks the database for an owner; `found` is its answer. */
  function Dismiss(env: Env, s: State, op: string, g: string, deleteMember: bool, found: string): Option<State> {
    if IsOwner(s, g, found) && Access(env, op, found) && g in s.groups && (deleteMember || s.groups[g].status != DISMISSED)
    then Some(s.(groups := s.groups[g := s.groups[g].(status := DISMISSED)],
                 members := if deleteMember then WithoutGroup(s.members, g) else s.members))
    else None
  }

  // ---------- roles ----------

  function Transfer(env: Env, s: State, op: string, g: string, from: string, to: string): Option<State> {
    if g in s.groups && s.groups[g].status != DISMISSED && from != to && (g, from) in s.members && (g, to) in s.members
       && (IsManager(env, op) || (op == from && IsOwner(s, g, from)))
    then Some(s.(members := s.members[(g, from) := s.members[(g, to)]][(g, to) := OWNER]))
    else None
  }

  function Targets(edits: seq<Edit>, g: string): seq<string> {
    if edits == [] then []
    else
      var last := edits[|edits| - 1];
      Targets(edits[..|edits| - 1], g) + (if last.groupID == g then [last.userID] else [])
  }

  /** Which members an operator of the group may edit. */
  predicate MayEdit(members: Members, g: string, op: string, us: seq<string>) {
    || HasRole(members, g, op, OWNER)
    || (HasRole(members, g, op, ADMIN) &&
        forall u :: u in us ==> !HasRole(members, g, u, OWNER) && (HasRole(members, g, u, ADMIN) ==> u == op))
    || (HasRole(members, g, op, ORDINARY) && forall u :: u in us ==> u == op)
  }

  /** The check made for one group of an edit. */
  predicate EditAllowed(env: Env, members: Members, g: string, op: string, us: seq<string>) {
    && NoDuplicates(us)
    && if (g, op) in members
       then AllMembers(members, g, us) && (IsManager(env, op) || MayEdit(members, g, op, us))
       else IsManager(env, op) && forall u :: u in us && u != op ==> (g, u) in members
  }

  predicate RoleSettable(e: Edit) {
    e.role.Some? ==> e.role.value == ADMIN || e.role.value == ORDINARY
  }

  predicate EditsAllowed(env: Env, members: Members, op: string, edits: seq<Edit>) {
    && edits != [] && op != ""
    && (forall e :: e in edits ==> RoleSettable(e))
    && (forall e :: e in edits ==> EditAllowed(env, members, e.groupID, op, Targets(edits, e.groupID)))
  }

  /** The updates, applied one after another; one that finds no row undoes them all. */
  function Edited(members: Members, edits: seq<Edit>): Option<Members> {
    if edits == [] then Some(members)
    else
      var e := edits[|edits| - 1];
      var before := Edited(members, edits[..|edits| - 1]);
      if before.None? || (e.groupID, e.userID) !in before.value then None
      else if e.role.None? then before
      else Some(before.value[(e.groupID, e.userID) := e.role.value])
  }

  function SetMemberInfo(env: Env, s: State, op: string, edits: seq<Edit>): Option<State> {
    if EditsAllowed(env, s.members, op, edits) && Edited(s.members, edits).Some?
    then Some(s.(members := Edited(s.members, edits).value))
    else None
  }

  // ---------- the group itself ----------

  function SetStatus(env: Env, s: State, op: string, g: string, status: int): Option<State> {
    if Runs(env, s.members, g, op) && g in s.groups
    then Some(s.(groups := s.groups[g := s.groups[g].(status := status)]))
    else None
  }

  function SetInfo(env: Env, s: State, op: string, g: string, need: Option<int>): Option<State> {
    if Runs(env, s.members, g, op) && g in s.groups && s.groups[g].status != DISMISSED && (exists k :: k in s.members && k.0 == g && s.members[k] == OWNER)
    then Some(if need.None? then s else s.(groups := s.groups[g := s.groups[g].(needVerification := need.value)]))
    else None
  }

  // ---------- runs ----------

  function Handle(env: Env, s: State, op: string, rpc: Rpc): Option<State> {
    match rpc
    case CreateGroup(_, _, _, _, _, _, _) => Create(env, s, op, rpc)
    case InviteUserToGroup(g, us) => Invite(env, s, op, g, us)
    case JoinGroup(g, u) => Join(env, s, g, u)
    case GroupApplicationResponse(g, u, result) => Respond(env, s, op, g, u, result)
    case KickGroupMember(g, us) => Kick(env, s, op, g, us)
    case QuitGroup(g, u) => Quit(env, s, op, g, u)
    case TransferGroupOwner(g, from, to) => Transfer(env, s, op, g, from, to)
    case DismissGroup(g, deleteMember, found) => Dismiss(env, s, op, g, deleteMember, found)
    case SetGroupMemberInfo(edits) => SetMemberInfo(env, s, op, edits)
    case MuteGroup(g) => SetStatus(env, s, op, g, MUTED)
    case CancelMuteGroup(g) => SetStatus(env, s, op, g, OK)
    case SetGroupInfo(g, need) => SetInfo(env, s, op, g, need)
  }

  datatype Call = Call(op: string, rpc: Rpc)

  /** A call that is refused changes nothing. */
  function After(env: Env, s: State, c: Call): State {
    var r := Handle(env, s, c.op, c.rpc);
    if r.Some? then r.value else s
  }

  function Run(env: Env, s: State, calls: seq<Call>): State
    decreases |calls|
  {
    if calls == [] then s else After(env, Run(env, s, calls[..|calls| - 1]), calls[|calls| - 1])
  }
}
