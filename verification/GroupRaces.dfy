/** Calls that overlap.  A handler first reads and checks, then writes what it decided; between
  the two, other calls may write.  Here every call is two steps, and writes may come in any
  order, late, or never. */
module GroupRaces {
  import opened Wrappers
  import opened Groups
  import opened GroupTheorems

  /** What a call has decided to write. */
  datatype Write =
    | Found(op: string, groupID: string, group: Group, owner: string, admins: seq<string>, ordinary: seq<string>)
    | Add(groupID: string, users: seq<string>)
    | Ask(groupID: string, users: seq<string>)
    | Answer(groupID: string, user: string, result: int, enters: bool)
    | Remove(groupID: string, users: seq<string>)
    | SwapRoles(groupID: string, from: string, to: string, role: int)
    | Dismissal(groupID: string, deleteMember: bool)
    | EditRows(edits: seq<Edit>)
    | Status(groupID: string, status: int)
    | Need(groupID: string, need: Option<int>)

  // ---------- the check ----------

  function CheckCreate(env: Env, s: State, op: string, c: Rpc): Option<Write>
    requires c.CreateGroup?
  {
    var ids := Involved(op, c.owner, c.admins, c.ordinary);
    if c.groupType == WORKING_GROUP && c.owner != "" && Access(env, op, c.owner) && NoDuplicates(ids) && AllIn(ids, env.users)
       && c.groupID !in s.groups
    then Some(Found(op, c.groupID, Group(c.status, c.need), c.owner, c.admins, c.ordinary))
    else None
  }

  function CheckInvite(env: Env, s: State, op: string, g: string, us: seq<string>): Option<Write> {
    if us == [] || !NoDuplicates(us) || g !in s.groups || s.groups[g].status == DISMISSED || !AllIn(us, env.users)
       || !(IsManager(env, op) || (g, op) in s.members)
    then None
    else if s.groups[g].needVerification == ALL_NEED_VERIFICATION && !Runs(env, s.members, g, op) then Some(Ask(g, us))
    else Some(Add(g, us))
  }

  function CheckJoin(env: Env, s: State, g: string, u: string): Option<Write> {
    if u !in env.users || g !in s.groups || s.groups[g].status == DISMISSED || (g, u) in s.members then None
    else if s.groups[g].needVerification == DIRECTLY then Some(Add(g, [u]))
    else Some(Ask(g, [u]))
  }

  function CheckResponse(env: Env, s: State, op: string, g: string, u: string, result: int): Option<Write> {
    if (result == AGREE || result == REFUSE) && Runs(env, s.members, g, op) && g in s.groups
       && (g, u) in s.requests && s.requests[(g, u)] == 0 && u in env.users
    then Some(Answer(g, u, result, result == AGREE && (g, u) !in s.members))
    else None
  }

  function CheckQuit(env: Env, s: State, op: string, g: string, userID: string): Option<Write> {
    var u := if userID == "" then op else userID;
    if (userID == "" || Access(env, op, userID)) && (g, u) in s.members && !IsOwner(s, g, u) then Some(Remove(g, [u])) else None
  }

  function CheckTransfer(env: Env, s: State, op: string, g: string, from: string, to: string): Option<Write> {
    if g in s.groups && s.groups[g].status != DISMISSED && from != to && (g, from) in s.members && (g, to) in s.members
       && (IsManager(env, op) || (op == from && IsOwner(s, g, from)))
    then Some(SwapRoles(g, from, to, s.members[(g, to)]))
    else None
  }

  function Check(env: Env, s: State, op: string, rpc: Rpc): Option<Write> {
    match rpc
    case CreateGroup(_, _, _, _, _, _, _) => CheckCreate(env, s, op, rpc)
    case InviteUserToGroup(g, us) => CheckInvite(env, s, op, g, us)
    case JoinGroup(g, u) => CheckJoin(env, s, g, u)
    case GroupApplicationResponse(g, u, result) => CheckResponse(env, s, op, g, u, result)
    case KickGroupMember(g, us) => if g in s.groups && KickAllowed(env, s.members, g, op, us) then Some(Remove(g, us)) else None
    case QuitGroup(g, u) => CheckQuit(env, s, op, g, u)
    case TransferGroupOwner(g, from, to) => CheckTransfer(env, s, op, g, from, to)
    case DismissGroup(g, deleteMember, found) =>
      if IsOwner(s, g, found) && Access(env, op, found) && g in s.groups && (deleteMember || s.groups[g].status != DISMISSED)
      then Some(Dismissal(g, deleteMember)) else None
    case SetGroupMemberInfo(edits) => if EditsAllowed(env, s.members, op, edits) then Some(EditRows(edits)) else None
    case MuteGroup(g) => if Runs(env, s.members, g, op) then Some(Status(g, MUTED)) else None
    case CancelMuteGroup(g) => if Runs(env, s.members, g, op) then Some(Status(g, OK)) else None
    case SetGroupInfo(g, need) => if SetInfo(env, s, op, g, need).Some? then Some(Need(g, need)) else None
  }

  // ---------- the write ----------

  /** What the database does with a write; it refuses rows that exist where they should not, or
      do not where they should, and then changes nothing. */
  function Commit(s: State, w: Write): Option<State> {
    match w
    case Found(_, g, group, owner, admins, ordinary) =>
      if g !in s.groups && NoMember(s.members, g, [owner] + admins + ordinary)
      then Some(s.(groups := s.groups[g := group], members := s.members + Founded(g, owner, admins, ordinary)))
      else None
    case Add(g, us) => if NoMember(s.members, g, us) then Some(Joined(s, g, us)) else None
    case Ask(g, us) => Some(Requested(s, g, us))
    case Answer(g, u, result, enters) =>
      if (g, u) !in s.requests || (enters && (g, u) in s.members) then None
      else
        var s' := s.(requests := s.requests[(g, u) := result]);
        Some(if enters then Joined(s', g, [u]) else s')
    case Remove(g, us) => Some(s.(members := WithoutRows(s.members, g, us)))
    case SwapRoles(g, from, to, role) =>
      if (g, from) in s.members && (g, to) in s.members
      then Some(s.(members := s.members[(g, from) := role][(g, to) := OWNER]))
      else None
    case Dismissal(g, deleteMember) =>
      if g !in s.groups then None
      else Some(s.(groups := s.groups[g := s.groups[g].(status := DISMISSED)],
                   members := if deleteMember then WithoutGroup(s.members, g) else s.members))
    case EditRows(edits) =>
      var r := Edited(s.members, edits);
      if r.Some? then Some(s.(members := r.value)) else None
    case Status(g, status) =>
      if g in s.groups then Some(s.(groups := s.groups[g := s.groups[g].(status := status)])) else None
    case Need(g, need) =>
      if g !in s.groups then None
      else Some(if need.None? then s else s.(groups := s.groups[g := s.groups[g].(needVerification := need.value)]))
  }

  /** A call whose write follows its check at once does what the whole call does. */
  lemma SplitIsWhole(env: Env, s: State, op: string, rpc: Rpc)
    ensures var w := Check(env, s, op, rpc);
      Handle(env, s, op, rpc) == if w.Some? then Commit(s, w.value) else None
  {
    match rpc
    case CreateGroup(_, _, _, _, _, _, _) =>
    case InviteUserToGroup(_, _) =>
    case JoinGroup(_, _) =>
    case GroupApplicationResponse(_, _, _) =>
    case KickGroupMember(_, _) =>
    case QuitGroup(_, _) =>
    case TransferGroupOwner(_, _, _) =>
    case DismissGroup(_, _, _) =>
    case SetGroupMemberInfo(_) =>
    case _ =>
  }

  // ---------- owners, write by write ----------

  /** What every check makes sure of before deciding a write. */
  ghost predicate Decided(w: Write) {
    match w
    case Found(op, _, _, owner, admins, ordinary) => NoDuplicates(Involved(op, owner, admins, ordinary))
    case SwapRoles(_, from, to, _) => from != to
    case EditRows(edits) => forall e :: e in edits ==> RoleSettable(e)
    case _ => true
  }

  lemma CheckDecides(env: Env, s: State, op: string, rpc: Rpc)
    requires Check(env, s, op, rpc).Some?
    ensures Decided(Check(env, s, op, rpc).value)
  {
  }

  predicate GainsBy(w: Write, g: string, u: string) {
    || (w.Found? && w.groupID == g && w.owner == u)
    || (w.SwapRoles? && w.groupID == g && (w.to == u || (w.from == u && w.role == OWNER)))
  }

  ghost predicate LosesBy(w: Write, g: string, u: string) {
    || (w.Remove? && w.groupID == g && u in w.users)
    || (w.SwapRoles? && w.groupID == g && w.from == u)
    || (w.Dismissal? && w.groupID == g && w.deleteMember)
    || (w.EditRows? && exists e :: e in w.edits && Touches(e, (g, u)))
  }

  ghost predicate OwnersBy(s: State, w: Write, s': State) {
    forall g, u :: IsOwner(s', g, u) <==> GainsBy(w, g, u) || (IsOwner(s, g, u) && !LosesBy(w, g, u))
  }

  lemma FoundMoves(s: State, w: Write)
    requires w.Found? && Decided(w) && Commit(s, w).Some?
    ensures OwnersBy(s, w, Commit(s, w).value)
  {
    var s', founded := Commit(s, w).value, Founded(w.groupID, w.owner, w.admins, w.ordinary);
    forall g, u
      ensures IsOwner(s', g, u) <==> (w.groupID == g && w.owner == u) || IsOwner(s, g, u)
    {
      FoundedByOwner(w.op, w.groupID, w.owner, w.admins, w.ordinary, (g, u));
      FoundedNamed(w.groupID, w.owner, w.admins, w.ordinary, (g, u));
      assert (g, u) in founded ==> (g, u) !in s.members;
    }
  }

  lemma EditsMoveBy(s: State, w: Write)
    requires w.EditRows? && Decided(w) && Commit(s, w).Some?
    ensures OwnersBy(s, w, Commit(s, w).value)
  {
    var s' := Commit(s, w).value;
    forall g, u
      ensures IsOwner(s', g, u) <==> IsOwner(s, g, u) && !LosesBy(w, g, u)
    {
      EditedRows(s.members, w.edits, (g, u));
    }
  }

  lemma RowsMoveBy(s: State, w: Write)
    requires w.Add? || w.Answer? || w.Remove? || w.Dismissal? || w.SwapRoles?
    requires Decided(w) && Commit(s, w).Some?
    ensures OwnersBy(s, w, Commit(s, w).value)
  {
  }

  /** After every write, however late it comes, the owners are exactly those it makes owner and
      those it does not unmake. */
  lemma OwnersAfterCommit(s: State, w: Write)
    requires Decided(w) && Commit(s, w).Some?
    ensures OwnersBy(s, w, Commit(s, w).value)
  {
    match w
    case Found(_, _, _, _, _, _) => FoundMoves(s, w);
    case EditRows(_) => EditsMoveBy(s, w);
    case Add(_, _) => RowsMoveBy(s, w);
    case Answer(_, _, _, _) => RowsMoveBy(s, w);
    case Remove(_, _) => RowsMoveBy(s, w);
    case Dismissal(_, _) => RowsMoveBy(s, w);
    case SwapRoles(_, _, _, _) => RowsMoveBy(s, w);
    case _ =>
  }

  lemma CommitKeepsGroups(s: State, w: Write)
    requires RowsHaveGroups(s) && Commit(s, w).Some?
    requires w.Add? ==> w.groupID in s.groups
    requires w.Answer? ==> w.groupID in s.groups
    ensures RowsHaveGroups(Commit(s, w).value)
    ensures forall g :: g in s.groups ==> g in Commit(s, w).value.groups
  {
    match w
    case Found(_, g, _, owner, admins, ordinary) =>
      forall h, u | (h, u) in Commit(s, w).value.members
        ensures h in Commit(s, w).value.groups
      {
        FoundedNamed(g, owner, admins, ordinary, (h, u));
      }
    case EditRows(edits) => EditedSome(s.members, edits);
    case _ =>
  }

  /** A role swap decided when the group looked otherwise: by now someone else owns it, or the new
      owner already did when the swap was decided. */
  ghost predicate Stale(s: State, w: Write) {
    && w.SwapRoles?
    && (w.role == OWNER || exists x :: x != w.from && x != w.to && IsOwner(s, w.groupID, x))
  }

  /** A write keeps every group at one owner at most exactly when it is no such swap. */
  lemma OneOwnerByCommitIff(s: State, w: Write)
    requires OneOwner(s) && RowsHaveGroups(s) && Decided(w) && Commit(s, w).Some?
    ensures OneOwner(Commit(s, w).value) <==> !Stale(s, w)
  {
    var s' := Commit(s, w).value;
    OwnersAfterCommit(s, w);
    if Stale(s, w) {
      assert IsOwner(s', w.groupID, w.to);
      if w.role == OWNER {
        assert IsOwner(s', w.groupID, w.from);
      } else {
        var x :| x != w.from && x != w.to && IsOwner(s, w.groupID, x);
        assert IsOwner(s', w.groupID, x);
      }
    } else {
      forall g, u, v | IsOwner(s', g, u) && IsOwner(s', g, v)
        ensures u == v
      {
        assert GainsBy(w, g, u) || (IsOwner(s, g, u) && !LosesBy(w, g, u));
        assert GainsBy(w, g, v) || (IsOwner(s, g, v) && !LosesBy(w, g, v));
      }
    }
  }

  // ---------- overlapping runs ----------

  /** The store, and the writes decided but not yet made. */
  datatype Racing = Racing(s: State, pending: seq<Write>)

  datatype Step =
    | Begin(op: string, rpc: Rpc)  // a call's check; refused calls end here
    | Finish(i: nat)               // one of the decided writes, in any order
    | Fail(i: nat)                 // a write that is never made

  predicate Enabled(r: Racing, step: Step) {
    match step
    case Begin(_, _) => true
    case Finish(i) => i < |r.pending|
    case Fail(i) => i < |r.pending|
  }

  function Dropped(ws: seq<Write>, i: nat): seq<Write>
    requires i < |ws|
  {
    ws[..i] + ws[i + 1..]
  }

  function Apply(env: Env, r: Racing, step: Step): Racing
    requires Enabled(r, step)
  {
    match step
    case Begin(op, rpc) =>
      var w := Check(env, r.s, op, rpc);
      if w.Some? then Racing(r.s, r.pending + [w.value]) else r
    case Finish(i) =>
      var s' := Commit(r.s, r.pending[i]);
      Racing(if s'.Some? then s'.value else r.s, Dropped(r.pending, i))
    case Fail(i) => Racing(r.s, Dropped(r.pending, i))
  }

  /** Calls by others than app managers only, and no transfer of a group begins while one of the
      same group is under way. */
  ghost predicate Orderly(env: Env, r: Racing, step: Step) {
    step.Begin? ==>
      && !IsManager(env, step.op)
      && (step.rpc.TransferGroupOwner? ==>
            forall w :: w in r.pending && w.SwapRoles? ==> w.groupID != step.rpc.groupID)
  }

  ghost predicate OrderlyRun(env: Env, r: Racing, steps: seq<Step>)
    decreases |steps|
  {
    steps == [] ||
    (Enabled(r, steps[0]) && Orderly(env, r, steps[0]) && OrderlyRun(env, Apply(env, r, steps[0]), steps[1..]))
  }

  function Run(env: Env, r: Racing, steps: seq<Step>): Racing
    requires OrderlyRun(env, r, steps)
    decreases |steps|
  {
    if steps == [] then r else Run(env, Apply(env, r, steps[0]), steps[1..])
  }

  /** The group a pending write needs to exist. */
  ghost predicate GroupThere(s: State, w: Write) {
    && (w.Add? ==> w.groupID in s.groups)
    && (w.Answer? ==> w.groupID in s.groups)
    && (w.SwapRoles? ==> w.groupID in s.groups)
  }

  /** A pending swap still names the only owner there can be. */
  ghost predicate SwapFresh(s: State, w: Write) {
    w.SwapRoles? ==> w.role != OWNER && forall x :: IsOwner(s, w.groupID, x) ==> x == w.from
  }

  ghost predicate OneSwapEach(ws: seq<Write>) {
    forall i, j :: 0 <= i < j < |ws| && ws[i].SwapRoles? && ws[j].SwapRoles? ==> ws[i].groupID != ws[j].groupID
  }

  ghost predicate RaceInv(r: Racing) {
    && OneOwner(r.s) && RowsHaveGroups(r.s) && OneSwapEach(r.pending)
    && forall w :: w in r.pending ==> Decided(w) && GroupThere(r.s, w) && SwapFresh(r.s, w)
  }

  lemma BeginFresh(env: Env, s: State, op: string, rpc: Rpc)
    requires OneOwner(s) && !IsManager(env, op) && Check(env, s, op, rpc).Some?
    ensures var w := Check(env, s, op, rpc).value;
      GroupThere(s, w) && SwapFresh(s, w) && (w.SwapRoles? ==> rpc.TransferGroupOwner? && rpc.groupID == w.groupID)
  {
    if rpc.TransferGroupOwner? {
      var g, from, to := rpc.groupID, rpc.oldOwner, rpc.newOwner;
      assert IsOwner(s, g, from);
      assert IsOwner(s, g, to) ==> to == from;
    }
  }

  lemma DroppedKeeps(ws: seq<Write>, i: nat)
    requires i < |ws| && OneSwapEach(ws)
    ensures OneSwapEach(Dropped(ws, i))
    ensures forall w :: w in Dropped(ws, i) ==> w in ws
    ensures ws[i].SwapRoles? ==> forall w :: w in Dropped(ws, i) && w.SwapRoles? ==> w.groupID != ws[i].groupID
  {
    var d := Dropped(ws, i);
    assert forall j :: 0 <= j < i ==> d[j] == ws[j];
    assert forall j :: i <= j < |d| ==> d[j] == ws[j + 1];
  }

  /** A pending swap stays fresh past any write but a swap of the same group. */
  lemma OtherStaysFresh(s: State, w: Write, other: Write)
    requires RowsHaveGroups(s) && Decided(w) && Commit(s, w).Some?
    requires GroupThere(s, w) && GroupThere(s, other) && SwapFresh(s, other)
    requires w.SwapRoles? && other.SwapRoles? ==> w.groupID != other.groupID
    ensures GroupThere(Commit(s, w).value, other) && SwapFresh(Commit(s, w).value, other)
  {
    OwnersAfterCommit(s, w);
    CommitKeepsGroups(s, w);
    if other.SwapRoles? {
      forall x | IsOwner(Commit(s, w).value, other.groupID, x)
        ensures x == other.from
      {
        assert GainsBy(w, other.groupID, x) || IsOwner(s, other.groupID, x);
      }
    }
  }

  lemma FinishKeepsInv(env: Env, r: Racing, i: nat)
    requires RaceInv(r) && i < |r.pending|
    ensures RaceInv(Apply(env, r, Finish(i)))
  {
    var w := r.pending[i];
    DroppedKeeps(r.pending, i);
    if Commit(r.s, w).Some? {
      OneOwnerByCommitIff(r.s, w);
      CommitKeepsGroups(r.s, w);
      forall other | other in Dropped(r.pending, i)
        ensures GroupThere(Commit(r.s, w).value, other) && SwapFresh(Commit(r.s, w).value, other)
      {
        OtherStaysFresh(r.s, w, other);
      }
    }
  }

  lemma BeginKeepsInv(env: Env, r: Racing, op: string, rpc: Rpc)
    requires RaceInv(r) && Orderly(env, r, Begin(op, rpc))
    ensures RaceInv(Apply(env, r, Begin(op, rpc)))
  {
    if Check(env, r.s, op, rpc).Some? {
      CheckDecides(env, r.s, op, rpc);
      BeginFresh(env, r.s, op, rpc);
    }
  }

  lemma StepKeepsInv(env: Env, r: Racing, step: Step)
    requires RaceInv(r) && Enabled(r, step) && Orderly(env, r, step)
    ensures RaceInv(Apply(env, r, step))
  {
    match step
    case Begin(op, rpc) => BeginKeepsInv(env, r, op, rpc);
    case Finish(i) => FinishKeepsInv(env, r, i);
    case Fail(i) => DroppedKeeps(r.pending, i);
  }

  /** Over every run in which calls by others than app managers overlap in any way, writes come
      late or never, and no two transfers of one group are under way at once, no group ever has
      two owners. */
  lemma {:induction false} NeverTwoOwnersRacing(env: Env, r: Racing, steps: seq<Step>)
    requires RaceInv(r) && OrderlyRun(env, r, steps)
    ensures RaceInv(Run(env, r, steps)) && OneOwner(Run(env, r, steps).s)
    decreases |steps|
  {
    if steps != [] {
      StepKeepsInv(env, r, steps[0]);
      NeverTwoOwnersRacing(env, Apply(env, r, steps[0]), steps[1..]);
    }
  }

  // ---------- how an owner stops being one ----------

  /** No write decided so far unseats u. */
  ghost predicate NoneAgainst(r: Racing, g: string, u: string) {
    forall w :: w in r.pending ==> !LosesBy(w, g, u)
  }

  /** While u owns the group, no check of another's call decides a write that unseats u, and none
      of u's own but by the acts that give the ownership up. */
  lemma CheckSpares(env: Env, s: State, op: string, rpc: Rpc, g: string, u: string)
    requires OneOwner(s) && IsOwner(s, g, u) && !IsManager(env, op) && Check(env, s, op, rpc).Some?
    requires LosesBy(Check(env, s, op, rpc).value, g, u)
    ensures GivesUp(Call(op, rpc), g, u)
  {
    assert IsOwner(s, g, op) ==> op == u;
    match rpc
    case KickGroupMember(_, _) => assert false;
    case SetGroupMemberInfo(edits) =>
      var e :| e in edits && Touches(e, (g, u));
      EditorOfOwner(env, s, op, edits, e);
    case DismissGroup(h, _, found) => assert IsOwner(s, g, found);
    case TransferGroupOwner(h, from, _) => assert IsOwner(s, g, from);
    case _ =>
  }

  ghost predicate KeepsIt(steps: seq<Step>, g: string, u: string) {
    forall i :: 0 <= i < |steps| && steps[i].Begin? ==> !GivesUp(Call(steps[i].op, steps[i].rpc), g, u)
  }

  lemma OwnerStaysStep(env: Env, r: Racing, step: Step, g: string, u: string)
    requires RaceInv(r) && IsOwner(r.s, g, u) && NoneAgainst(r, g, u)
    requires Enabled(r, step) && Orderly(env, r, step)
    requires step.Begin? ==> !GivesUp(Call(step.op, step.rpc), g, u)
    ensures IsOwner(Apply(env, r, step).s, g, u) && NoneAgainst(Apply(env, r, step), g, u)
  {
    match step
    case Begin(op, rpc) =>
      if Check(env, r.s, op, rpc).Some? && LosesBy(Check(env, r.s, op, rpc).value, g, u) {
        CheckSpares(env, r.s, op, rpc, g, u);
      }
    case Finish(i) =>
      DroppedKeeps(r.pending, i);
      assert r.pending[i] in r.pending;
      if Commit(r.s, r.pending[i]).Some? {
        OwnersAfterCommit(r.s, r.pending[i]);
      }
    case Fail(i) => DroppedKeeps(r.pending, i);
  }

  /** An owner against whom nothing was decided before, and who begins no call that gives the
      ownership up, owns the group at the end of every run of overlapping calls by others than
      app managers, with one transfer of a group under way at a time. */
  lemma {:induction false} OwnerStaysRacing(env: Env, r: Racing, steps: seq<Step>, g: string, u: string)
    requires RaceInv(r) && OrderlyRun(env, r, steps)
    requires IsOwner(r.s, g, u) && NoneAgainst(r, g, u) && KeepsIt(steps, g, u)
    ensures IsOwner(Run(env, r, steps).s, g, u)
    decreases |steps|
  {
    if steps != [] {
      OwnerStaysStep(env, r, steps[0], g, u);
      StepKeepsInv(env, r, steps[0]);
      assert forall i :: 0 <= i < |steps[1..]| ==> steps[1..][i] == steps[i + 1];
      OwnerStaysRacing(env, Apply(env, r, steps[0]), steps[1..], g, u);
    }
  }

  /** One write unseats an owner exactly when it was decided against it and does not make it owner
      again. */
  lemma OwnerLostByCommitIff(s: State, w: Write, g: string, u: string)
    requires Decided(w) && Commit(s, w).Some? && IsOwner(s, g, u)
    ensures !IsOwner(Commit(s, w).value, g, u) <==> LosesBy(w, g, u) && !GainsBy(w, g, u)
  {
    OwnersAfterCommit(s, w);
  }

  // ---------- what overlap can do ----------

  /** Without one transfer at a time it fails: an owner begins two transfers before either is
      written, and the group ends with two owners. */
  lemma TwoTransfersAtOnce()
    ensures
      var env := Env({}, {});
      var s := State(map["g" := Group(OK, 0)], map[("g", "a") := OWNER, ("g", "b") := ORDINARY, ("g", "c") := ORDINARY], map[]);
      var toB, toC := Check(env, s, "a", TransferGroupOwner("g", "a", "b")), Check(env, s, "a", TransferGroupOwner("g", "a", "c"));
      && toB.Some? && toC.Some? && OneOwner(s) && Commit(s, toB.value).Some?
      && OneOwner(Commit(s, toB.value).value) && Stale(Commit(s, toB.value).value, toC.value)
      && Commit(Commit(s, toB.value).value, toC.value).Some?
      && !OneOwner(Commit(Commit(s, toB.value).value, toC.value).value)
  {
    var s := State(map["g" := Group(OK, 0)], map[("g", "a") := OWNER, ("g", "b") := ORDINARY, ("g", "c") := ORDINARY], map[]);
    var toB, toC := SwapRoles("g", "a", "b", ORDINARY), SwapRoles("g", "a", "c", ORDINARY);
    var s1 := Commit(s, toB).value;
    OneOwnerByCommitIff(s, toB);
    assert IsOwner(s1, "g", "b");
    OneOwnerByCommitIff(s1, toC);
  }

  /** A write that comes late can unseat an owner: someone quits, is made owner before the row is
      removed, and the group is left without one. */
  lemma LateQuitUnseats()
    ensures
      var env := Env({}, {});
      var s := State(map["g" := Group(OK, 0)], map[("g", "a") := OWNER, ("g", "b") := ORDINARY], map[]);
      var quit, toB := Check(env, s, "b", QuitGroup("g", "")), Check(env, s, "a", TransferGroupOwner("g", "a", "b"));
      && quit.Some? && toB.Some? && Commit(s, toB.value).Some? && IsOwner(Commit(s, toB.value).value, "g", "b")
      && Commit(Commit(s, toB.value).value, quit.value).Some?
      && forall u :: !IsOwner(Commit(Commit(s, toB.value).value, quit.value).value, "g", u)
  {
  }
}
