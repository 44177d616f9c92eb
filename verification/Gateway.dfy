/** The gateway's connection registry as a protocol (n_ws_server.go, client.go, hub_server.go).

  One loop handles register, unregister and remote-kick events; connections close, and
  administrators kick users, concurrently with it.  Each method of the index and each close
  is one atomic step, so a registration is three steps with other steps in between. */
module Gateway {
  import opened UserMap

  datatype Policy = DefaultNotKick | PCAndOther | AllLoginButSameTermKick | OtherPolicy(code: int)

  datatype Env = Env(policy: Policy, isPC: int -> bool)

  /** Whether a new login on this platform kicks the old ones on it. */
  predicate Kicks(env: Env, platformID: int) {
    match env.policy
    case PCAndOther => !env.isPC(platformID)
    case AllLoginButSameTermKick => true
    case DefaultNotKick => false
    case OtherPolicy(_) => false
  }

  /** A remote login, with the connections found when the other node asked. */
  datatype Kick = Kick(clientOK: bool, oldClients: seq<Client>, userID: string, platformID: int)

  /** Where the event loop is within a registration. */
  datatype Loop =
    | Idle
    | Got(client: Client, oldClients: seq<Client>, userOK: bool, clientOK: bool)
    | Checked(client: Client, userOK: bool)

  datatype State = State(
    m: Index,
    onlineUserNum: int,
    onlineUserConnNum: int,
    loop: Loop,
    accepted: set<Client>,      // connections handed to the register channel
    registered: set<Client>,
    unregistered: set<Client>,
    closed: set<Client>,
    kicked: set<Client>,        // taken out of the index by a kick, closed then or soon after
    unregisterChan: seq<Client>,
    kickHandlerChan: seq<Kick>,
    emptied: nat)               // how often a kick from outside a registration removed the last
                                // connection of a user who was not just being registered

  const INIT := State(map[], 0, 0, Idle, {}, {}, {}, {}, {}, [], [], 0)

  datatype Step =
    | Accept(c: Client)
    | RegisterGet(c: Client)
    | RegisterCheck
    | RegisterSet
    | Unregister
    | ReaderClose(c: Client)
    | CloseKicked(c: Client)
    | KickUserConn(c: Client)
    | RemoteLogin(u: string, platformID: int)
    | RemoteCheck

  predicate Enabled(env: Env, s: State, step: Step) {
    match step
    case Accept(c) => c !in s.accepted
    case RegisterGet(c) => s.loop.Idle? && c in s.accepted && c !in s.registered
    case RegisterCheck => s.loop.Got?
    case RegisterSet => s.loop.Checked?
    case Unregister => s.loop.Idle? && s.unregisterChan != [] && s.unregisterChan[0] in s.registered
    case ReaderClose(c) => c in s.accepted && c !in s.closed
    case CloseKicked(c) => c in s.kicked
    case KickUserConn(c) => c in s.registered
    case RemoteLogin(u, _) => u in s.m
    case RemoteCheck => s.loop.Idle? && s.kickHandlerChan != []
  }

  /** close(): the first one posts the connection to the unregister channel. */
  function Closed(s: State, c: Client): State {
    if c in s.closed then s else s.(closed := s.closed + {c}, unregisterChan := s.unregisterChan + [c])
  }

  /** The users the counter already accounts for because a registration found them. */
  function Pending(loop: Loop): set<string> {
    if (loop.Got? || loop.Checked?) && loop.userOK then {loop.client.userID} else {}
  }

  /** A kick from outside a registration: the counter is not told when it empties a user.  A user
      just being registered is back in the index when the registration ends. */
  function KickedOut(s: State, u: string, cs: seq<Client>): State {
    var m' := Removed(s.m, u, Addrs(cs));
    s.(m := m', kicked := s.kicked + (set c | c in cs),
       emptied := if u in s.m && u !in m' && u !in Pending(s.loop) then s.emptied + 1 else s.emptied)
  }

  function Apply(env: Env, s: State, step: Step): State
    requires Enabled(env, s, step)
  {
    match step
    case Accept(c) => s.(accepted := s.accepted + {c})
    case RegisterGet(c) =>
      var cs := OnPlatform(Of(s.m, c.userID), c.platformID);
      s.(loop := Got(c, cs, c.userID in s.m, cs != []))
    case RegisterCheck =>
      var c := s.loop.client;
      var s' := s.(loop := Checked(c, s.loop.userOK));
      if s.loop.userOK && Kicks(env, c.platformID) && s.loop.clientOK
      then s'.(m := Removed(s.m, c.userID, Addrs(s.loop.oldClients)), kicked := s.kicked + (set d | d in s.loop.oldClients))
      else s'
    case RegisterSet =>
      var c := s.loop.client;
      s.(m := Added(s.m, c), registered := s.registered + {c}, loop := Idle,
         onlineUserNum := if s.loop.userOK then s.onlineUserNum else s.onlineUserNum + 1,
         onlineUserConnNum := s.onlineUserConnNum + 1)
    case Unregister =>
      var c := s.unregisterChan[0];
      var m' := Removed(s.m, c.userID, {c.addr});
      s.(m := m', unregistered := s.unregistered + {c}, unregisterChan := s.unregisterChan[1..],
         onlineUserNum := if c.userID in s.m && c.userID !in m' then s.onlineUserNum - 1 else s.onlineUserNum,
         onlineUserConnNum := s.onlineUserConnNum - 1)
    case ReaderClose(c) => Closed(s, c)
    case CloseKicked(c) => Closed(s, c)
    case KickUserConn(c) => KickedOut(s, c.userID, [c])
    case RemoteLogin(u, platformID) =>
      var cs := OnPlatform(Of(s.m, u), platformID);
      s.(kickHandlerChan := s.kickHandlerChan + [Kick(cs != [], cs, u, platformID)])
    case RemoteCheck =>
      var k := s.kickHandlerChan[0];
      var s' := s.(kickHandlerChan := s.kickHandlerChan[1..]);
      if Kicks(env, k.platformID) && k.clientOK then KickedOut(s', k.userID, k.oldClients) else s'
  }

  function Run(env: Env, s: State, steps: seq<Step>): (r: seq<State>)
    ensures |r| <= 1
    decreases |steps|
  {
    if steps == [] then [s]
    else if Enabled(env, s, steps[0]) then Run(env, Apply(env, s, steps[0]), steps[1..])
    else []
  }

  ghost predicate Reachable(env: Env, s: State) {
    exists steps :: Run(env, INIT, steps) == [s]
  }

  // ---------- the policy ----------

  /** At most one connection on a platform. */
  ghost predicate AtMostOne(cs: seq<Client>, platformID: int) {
    forall i, j :: 0 <= i < j < |cs| ==> !(cs[i].platformID == platformID && cs[j].platformID == platformID)
  }

  ghost predicate NoneOn(cs: seq<Client>, platformID: int) {
    forall c :: c in cs ==> c.platformID != platformID
  }

  ghost predicate PolicyInv(env: Env, s: State) {
    && (forall u, p :: Kicks(env, p) ==> AtMostOne(Of(s.m, u), p))
    && (s.loop.Got? ==>
          && (s.loop.clientOK <==> s.loop.oldClients != [])
          && (!s.loop.userOK ==> s.loop.client.userID !in s.m)
          && forall c :: c in Of(s.m, s.loop.client.userID) && c.platformID == s.loop.client.platformID ==> c in s.loop.oldClients)
    && (s.loop.Checked? ==>
          && (!s.loop.userOK ==> s.loop.client.userID !in s.m)
          && (Kicks(env, s.loop.client.platformID) ==> NoneOn(Of(s.m, s.loop.client.userID), s.loop.client.platformID)))
  }

  lemma {:induction false} WithoutKeepsAtMostOne(cs: seq<Client>, addrs: set<string>, p: int)
    requires AtMostOne(cs, p)
    ensures AtMostOne(Without(cs, addrs), p)
  {
    if cs != [] {
      var rest, last := cs[..|cs| - 1], cs[|cs| - 1];
      WithoutKeepsAtMostOne(rest, addrs, p);
      WithoutExact(rest, addrs);
      if last.platformID == p {
        forall c | c in Without(rest, addrs)
          ensures c.platformID != p
        {
          var i :| 0 <= i < |rest| && rest[i] == c;
          assert cs[i] == c;
        }
      }
    }
  }

  /** Removing connections never breaks the policy, wherever the loop is. */
  lemma RemovalKeepsPolicy(env: Env, s: State, u: string, addrs: set<string>)
    requires PolicyInv(env, s) && ValidIndex(s.m)
    ensures PolicyInv(env, s.(m := Removed(s.m, u, addrs)))
  {
    var m' := Removed(s.m, u, addrs);
    forall v, p | Kicks(env, p)
      ensures AtMostOne(Of(m', v), p)
    {
      assert AtMostOne(Of(s.m, v), p);
      WithoutKeepsAtMostOne(Of(s.m, u), addrs, p);
    }
    WithoutExact(Of(s.m, u), addrs);
    assert forall v, c :: c in Of(m', v) ==> c in Of(s.m, v);
  }

  lemma RegisterCheckKeepsPolicy(env: Env, s: State)
    requires PolicyInv(env, s) && ValidIndex(s.m) && s.loop.Got?
    ensures PolicyInv(env, Apply(env, s, RegisterCheck))
  {
    var c, cs := s.loop.client, s.loop.oldClients;
    if s.loop.userOK && Kicks(env, c.platformID) && s.loop.clientOK {
      RemovalKeepsPolicy(env, s, c.userID, Addrs(cs));
      IndexIsCollection(s.m, c, c.userID, Addrs(cs));
      var m' := Removed(s.m, c.userID, Addrs(cs));
      forall d | d in Of(m', c.userID)
        ensures d.platformID != c.platformID
      {
        assert forall i :: 0 <= i < |cs| ==> cs[i].addr in Addrs(cs);
        assert d in Of(s.m, c.userID) && d.addr !in Addrs(cs);
      }
    }
  }

  lemma RegisterSetKeepsPolicy(env: Env, s: State)
    requires PolicyInv(env, s) && s.loop.Checked?
    ensures PolicyInv(env, Apply(env, s, RegisterSet))
  {
    var c := s.loop.client;
    var m' := Added(s.m, c);
    forall u, p | Kicks(env, p)
      ensures AtMostOne(Of(m', u), p)
    {
      assert AtMostOne(Of(s.m, u), p);
    }
  }

  lemma StepKeepsPolicy(env: Env, s: State, step: Step)
    requires PolicyInv(env, s) && ValidIndex(s.m) && Enabled(env, s, step)
    ensures PolicyInv(env, Apply(env, s, step))
  {
    match step
    case RegisterGet(c) => OnPlatformExact(Of(s.m, c.userID), c.platformID);
    case RegisterCheck => RegisterCheckKeepsPolicy(env, s);
    case RegisterSet => RegisterSetKeepsPolicy(env, s);
    case Unregister => RemovalKeepsPolicy(env, s, s.unregisterChan[0].userID, {s.unregisterChan[0].addr});
    case KickUserConn(c) => RemovalKeepsPolicy(env, s, c.userID, Addrs([c]));
    case RemoteCheck =>
      var k := s.kickHandlerChan[0];
      RemovalKeepsPolicy(env, s, k.userID, Addrs(k.oldClients));
    case _ =>
  }

  // ---------- who is where ----------

  /** A list of connections of one user, all of them accepted. */
  ghost predicate OwnAccepted(s: State, u: string, cs: seq<Client>) {
    forall c :: c in cs ==> c in s.accepted && c.userID == u
  }

  /** The sets and queues agree. */
  ghost predicate SetsInv(s: State) {
    && ValidIndex(s.m)
    && s.unregistered <= s.closed <= s.accepted && s.unregistered <= s.registered <= s.accepted
    && s.kicked <= s.accepted
    && (forall c :: c in s.unregisterChan ==> c in s.closed && c !in s.unregistered)
    && NoRepeats(s.unregisterChan)
    && (forall c :: c in s.closed ==> c in s.unregisterChan || c in s.unregistered)
    && (!s.loop.Idle? ==> s.loop.client in s.accepted && s.loop.client !in s.registered)
    && (s.loop.Got? ==> OwnAccepted(s, s.loop.client.userID, s.loop.oldClients))
    && (forall k :: k in s.kickHandlerChan ==> OwnAccepted(s, k.userID, k.oldClients))
  }

  /** No user meets one address twice. */
  ghost predicate DistinctAddrs(s: State) {
    forall c, d :: c in s.accepted && d in s.accepted && c.userID == d.userID && c.addr == d.addr ==> c == d
  }

  /** The index lists only connections that are registered and not unregistered. */
  ghost predicate ListedOnly(s: State) {
    forall u, c :: c in Of(s.m, u) ==> c in s.registered && c !in s.unregistered
  }

  /** It lists every registered connection that was neither closed nor kicked. */
  ghost predicate ListedAll(s: State) {
    forall c :: c in s.registered && c !in s.closed && c !in s.kicked ==> c in Of(s.m, c.userID)
  }

  /** The second needs addresses that are never used twice by one user: the index removes by
      address. */
  ghost predicate ListedInv(s: State) {
    ListedOnly(s) && (DistinctAddrs(s) ==> ListedAll(s))
  }

  lemma KickedOutKeepsSets(s: State, u: string, cs: seq<Client>)
    requires SetsInv(s) && OwnAccepted(s, u, cs)
    ensures SetsInv(KickedOut(s, u, cs))
  {
    IndexIsCollection(s.m, Client(0, "", 0, "", ""), u, Addrs(cs));
  }

  lemma RegisterGetKeepsSets(env: Env, s: State, c: Client)
    requires SetsInv(s) && ListedInv(s) && Enabled(env, s, RegisterGet(c))
    ensures SetsInv(Apply(env, s, RegisterGet(c)))
  {
    OnPlatformExact(Of(s.m, c.userID), c.platformID);
  }

  lemma RegisterCheckKeepsSets(env: Env, s: State)
    requires SetsInv(s) && s.loop.Got?
    ensures SetsInv(Apply(env, s, RegisterCheck))
  {
    IndexIsCollection(s.m, s.loop.client, s.loop.client.userID, Addrs(s.loop.oldClients));
  }

  lemma RegisterSetKeepsSets(env: Env, s: State)
    requires SetsInv(s) && s.loop.Checked?
    ensures SetsInv(Apply(env, s, RegisterSet))
  {
    IndexIsCollection(s.m, s.loop.client, "", {});
  }

  lemma UnregisterKeepsSets(env: Env, s: State)
    requires SetsInv(s) && Enabled(env, s, Unregister)
    ensures SetsInv(Apply(env, s, Unregister))
  {
    var c := s.unregisterChan[0];
    IndexIsCollection(s.m, c, c.userID, {c.addr});
    assert s.unregisterChan == [c] + s.unregisterChan[1..];
  }

  lemma ClosedKeepsSets(s: State, c: Client)
    requires SetsInv(s) && c in s.accepted
    ensures SetsInv(Closed(s, c))
  {
  }

  lemma RemoteLoginKeepsSets(env: Env, s: State, u: string, p: int)
    requires SetsInv(s) && ListedInv(s)  && Enabled(env, s, RemoteLogin(u, p))
    ensures SetsInv(Apply(env, s, RemoteLogin(u, p)))
  {
    OnPlatformExact(Of(s.m, u), p);
  }

  lemma RemoteCheckKeepsSets(env: Env, s: State)
    requires SetsInv(s) && Enabled(env, s, RemoteCheck)
    ensures SetsInv(Apply(env, s, RemoteCheck))
  {
    var k := s.kickHandlerChan[0];
    assert k in s.kickHandlerChan;
    KickedOutKeepsSets(s.(kickHandlerChan := s.kickHandlerChan[1..]), k.userID, k.oldClients);
  }

  lemma StepKeepsSets(env: Env, s: State, step: Step)
    requires SetsInv(s) && ListedInv(s) && Enabled(env, s, step)
    ensures SetsInv(Apply(env, s, step))
  {
    match step
    case Accept(_) =>
    case RegisterGet(c) => RegisterGetKeepsSets(env, s, c);
    case RegisterCheck => RegisterCheckKeepsSets(env, s);
    case RegisterSet => RegisterSetKeepsSets(env, s);
    case Unregister => UnregisterKeepsSets(env, s);
    case ReaderClose(c) => ClosedKeepsSets(s, c);
    case CloseKicked(c) => ClosedKeepsSets(s, c);
    case KickUserConn(c) => KickedOutKeepsSets(s, c.userID, [c]);
    case RemoteLogin(u, p) => RemoteLoginKeepsSets(env, s, u, p);
    case RemoteCheck => RemoteCheckKeepsSets(env, s);
  }

  lemma AddrsOfOne(c: Client)
    ensures Addrs([c]) == {c.addr}
  {
    assert [c][0].addr in Addrs([c]);
  }

  /** With distinct addresses, removing by address removes exactly the connections meant. */
  lemma RemovedByAddress(s: State, u: string, cs: seq<Client>, c: Client)
    requires SetsInv(s) && ListedOnly(s) && DistinctAddrs(s) && OwnAccepted(s, u, cs)
    ensures ValidIndex(Removed(s.m, u, Addrs(cs)))
    ensures forall v, d :: d in Of(Removed(s.m, u, Addrs(cs)), v) <==> d in Of(s.m, v) && d !in cs
  {
    IndexIsCollection(s.m, c, u, Addrs(cs));
    forall v, d
      ensures d in Of(Removed(s.m, u, Addrs(cs)), v) <==> d in Of(s.m, v) && d !in cs
    {
      if d in Of(s.m, v) && d in cs {
        var i :| 0 <= i < |cs| && cs[i] == d;
        assert cs[i].addr in Addrs(cs) && d.userID == u == v;
      }
      if d in Of(s.m, v) && v == u && d.addr in Addrs(cs) {
        var i :| 0 <= i < |cs| && cs[i].addr == d.addr;
        assert cs[i] in cs && d in s.accepted && d.userID == u;
      }
    }
  }

  lemma RemovedOne(s: State, c: Client)
    requires SetsInv(s) && ListedOnly(s) && DistinctAddrs(s) && c in s.accepted
    ensures forall v, d :: d in Of(Removed(s.m, c.userID, {c.addr}), v) <==> d in Of(s.m, v) && d != c
  {
    IndexIsCollection(s.m, c, c.userID, {c.addr});
    assert forall v, d :: d in Of(s.m, v) ==> d in s.accepted && d.userID == v;
  }

  /** Removing by address only ever takes out of the index, and takes out what it names. */
  lemma KeptWasThere(m: Index, u: string, addrs: set<string>, v: string, d: Client)
    requires d in Of(Removed(m, u, addrs), v)
    ensures d in Of(m, v) && !(v == u && d.addr in addrs)
  {
    WithoutExact(Of(m, u), addrs);
  }

  lemma RemovalKeepsOnly(s: State, u: string, addrs: set<string>, s': State)
    requires ListedOnly(s) && s'.m == Removed(s.m, u, addrs)
    requires s'.registered == s.registered && s'.unregistered == s.unregistered
    ensures ListedOnly(s')
  {
    forall v, c | c in Of(s'.m, v)
      ensures c in s'.registered && c !in s'.unregistered
    {
      KeptWasThere(s.m, u, addrs, v, c);
    }
  }

  lemma UnregisterKeepsOnly(env: Env, s: State)
    requires ValidIndex(s.m) && ListedOnly(s) && Enabled(env, s, Unregister)
    ensures ListedOnly(Apply(env, s, Unregister))
  {
    var c, s' := s.unregisterChan[0], Apply(env, s, Unregister);
    forall v, d | d in Of(s'.m, v)
      ensures d in s'.registered && d !in s'.unregistered
    {
      KeptWasThere(s.m, c.userID, {c.addr}, v, d);
      assert d.userID == v;
    }
  }

  lemma RegisterCheckKeepsOnly(env: Env, s: State)
    requires ListedOnly(s) && s.loop.Got?
    ensures ListedOnly(Apply(env, s, RegisterCheck))
  {
    var s' := Apply(env, s, RegisterCheck);
    if s'.m != s.m {
      RemovalKeepsOnly(s, s.loop.client.userID, Addrs(s.loop.oldClients), s');
    }
  }

  lemma OnlyOneAdded(m: Index, c: Client)
    ensures forall v, d :: d in Of(Added(m, c), v) ==> d in Of(m, v) || d == c
  {
    forall v, d | d in Of(Added(m, c), v)
      ensures d in Of(m, v) || d == c
    {
      assert Of(Added(m, c), v) == if v == c.userID then Of(m, v) + [c] else Of(m, v);
    }
  }

  lemma RegisterSetKeepsOnly(env: Env, s: State)
    requires ListedOnly(s) && s.loop.Checked? && s.loop.client !in s.unregistered
    ensures ListedOnly(Apply(env, s, RegisterSet))
  {
    var s' := Apply(env, s, RegisterSet);
    OnlyOneAdded(s.m, s.loop.client);
    forall u, c | c in Of(s'.m, u)
      ensures c in s'.registered && c !in s'.unregistered
    {
      assert c in Of(s.m, u) || c == s.loop.client;
    }
  }

  lemma StepKeepsOnly(env: Env, s: State, step: Step)
    requires SetsInv(s) && ListedOnly(s) && Enabled(env, s, step)
    ensures ListedOnly(Apply(env, s, step))
  {
    match step
    case RegisterCheck => RegisterCheckKeepsOnly(env, s);
    case RegisterSet => RegisterSetKeepsOnly(env, s);
    case Unregister => UnregisterKeepsOnly(env, s);
    case KickUserConn(c) => RemovalKeepsOnly(s, c.userID, Addrs([c]), Apply(env, s, step));
    case RemoteCheck =>
      var k := s.kickHandlerChan[0];
      if Kicks(env, k.platformID) && k.clientOK {
        RemovalKeepsOnly(s, k.userID, Addrs(k.oldClients), Apply(env, s, step));
      }
    case _ =>
  }

  lemma KickedOutKeepsAll(s: State, u: string, cs: seq<Client>)
    requires SetsInv(s) && ListedOnly(s) && ListedAll(s) && DistinctAddrs(s) && OwnAccepted(s, u, cs)
    ensures ListedAll(KickedOut(s, u, cs))
  {
    RemovedByAddress(s, u, cs, Client(0, "", 0, "", ""));
  }

  lemma RegisterCheckKeepsAll(env: Env, s: State)
    requires SetsInv(s) && ListedOnly(s) && ListedAll(s) && DistinctAddrs(s) && s.loop.Got?
    ensures ListedAll(Apply(env, s, RegisterCheck))
  {
    RemovedByAddress(s, s.loop.client.userID, s.loop.oldClients, s.loop.client);
  }

  lemma RegisterSetKeepsAll(env: Env, s: State)
    requires SetsInv(s) && ListedAll(s) && s.loop.Checked?
    ensures ListedAll(Apply(env, s, RegisterSet))
  {
    IndexIsCollection(s.m, s.loop.client, "", {});
  }

  lemma UnregisterKeepsAll(env: Env, s: State)
    requires SetsInv(s) && ListedOnly(s) && ListedAll(s) && DistinctAddrs(s) && Enabled(env, s, Unregister)
    ensures ListedAll(Apply(env, s, Unregister))
  {
    var c := s.unregisterChan[0];
    assert c in s.unregisterChan && c in s.closed;
    RemovedOne(s, c);
  }

  lemma StepKeepsAll(env: Env, s: State, step: Step)
    requires SetsInv(s) && ListedOnly(s) && ListedAll(s) && DistinctAddrs(s) && Enabled(env, s, step)
    ensures ListedAll(Apply(env, s, step))
  {
    match step
    case RegisterCheck => RegisterCheckKeepsAll(env, s);
    case RegisterSet => RegisterSetKeepsAll(env, s);
    case Unregister => UnregisterKeepsAll(env, s);
    case KickUserConn(c) => KickedOutKeepsAll(s, c.userID, [c]);
    case RemoteCheck =>
      var k := s.kickHandlerChan[0];
      assert k in s.kickHandlerChan;
      KickedOutKeepsAll(s.(kickHandlerChan := s.kickHandlerChan[1..]), k.userID, k.oldClients);
    case _ =>
  }

  lemma AddressesEarlier(env: Env, s: State, step: Step)
    requires Enabled(env, s, step) && DistinctAddrs(Apply(env, s, step))
    ensures DistinctAddrs(s)
  {
    assert s.accepted <= Apply(env, s, step).accepted;
  }

  lemma StepKeepsListed(env: Env, s: State, step: Step)
    requires SetsInv(s) && ListedInv(s) && Enabled(env, s, step)
    ensures ListedInv(Apply(env, s, step))
  {
    StepKeepsOnly(env, s, step);
    if DistinctAddrs(Apply(env, s, step)) {
      AddressesEarlier(env, s, step);
      StepKeepsAll(env, s, step);
    }
  }

  // ---------- the counters ----------

  /** The users the counter accounts for are those in the index and the one being registered. */
  function Counted(m: Index, loop: Loop): set<string> {
    m.Keys + Pending(loop)
  }

  ghost predicate CountInv(s: State) {
    && s.onlineUserNum == |Counted(s.m, s.loop)| + s.emptied
    && s.onlineUserConnNum == |s.registered| - |s.unregistered|
    && (!s.loop.Idle? && !s.loop.userOK ==> s.loop.client.userID !in s.m)
  }

  lemma RemovedKeys(m: Index, u: string, addrs: set<string>)
    ensures Removed(m, u, addrs).Keys == if u in m && Without(m[u], addrs) == [] then m.Keys - {u} else m.Keys
  {
  }

  lemma SizeWithout(keys: set<string>, pending: set<string>, u: string)
    ensures |(keys - {u}) + pending| == |keys + pending| - (if u in keys && u !in pending then 1 else 0)
  {
    if u in keys && u !in pending {
      assert (keys - {u}) + pending == (keys + pending) - {u};
    } else {
      assert (keys - {u}) + pending == keys + pending;
    }
  }

  lemma RemovedCounts(m: Index, u: string, addrs: set<string>, loop: Loop)
    ensures var m' := Removed(m, u, addrs);
      |Counted(m', loop)| == |Counted(m, loop)| - (if u in m && u !in m' && u !in Pending(loop) then 1 else 0)
  {
    var m' := Removed(m, u, addrs);
    RemovedKeys(m, u, addrs);
    SizeWithout(m.Keys, Pending(loop), u);
    assert u in m && u !in m' ==> m'.Keys == m.Keys - {u};
    assert !(u in m && u !in m') ==> m'.Keys == m.Keys;
  }

  lemma KickedOutCounts(s: State, u: string, cs: seq<Client>)
    requires CountInv(s)
    ensures CountInv(KickedOut(s, u, cs))
  {
    RemovedCounts(s.m, u, Addrs(cs), s.loop);
  }

  lemma RegisterGetCounts(env: Env, s: State, c: Client)
    requires CountInv(s) && Enabled(env, s, RegisterGet(c))
    ensures CountInv(Apply(env, s, RegisterGet(c)))
  {
    var loop' := Apply(env, s, RegisterGet(c)).loop;
    assert Pending(s.loop) == {} && Pending(loop') <= s.m.Keys;
    assert Counted(s.m, loop') == Counted(s.m, s.loop);
  }

  lemma CheckedCounts(m: Index, was: Loop, m': Index, now: Loop)
    requires was.Got? && now == Checked(was.client, was.userOK)
    requires m' == m || (was.userOK && exists addrs :: m' == Removed(m, was.client.userID, addrs))
    ensures Counted(m', now) == Counted(m, was)
  {
    if m' != m {
      var addrs :| m' == Removed(m, was.client.userID, addrs);
      RemovedKeys(m, was.client.userID, addrs);
      assert Pending(now) == {was.client.userID};
    }
  }

  lemma RegisterCheckCounts(env: Env, s: State)
    requires CountInv(s) && s.loop.Got?
    ensures CountInv(Apply(env, s, RegisterCheck))
  {
    var s' := Apply(env, s, RegisterCheck);
    if s'.m != s.m {
      assert s'.m == Removed(s.m, s.loop.client.userID, Addrs(s.loop.oldClients));
    }
    CheckedCounts(s.m, s.loop, s'.m, s'.loop);
  }

  lemma AddedCounts(m: Index, loop: Loop)
    requires loop.Checked? && (!loop.userOK ==> loop.client.userID !in m)
    ensures |Counted(Added(m, loop.client), Idle)| == |Counted(m, loop)| + (if loop.userOK then 0 else 1)
  {
    var u := loop.client.userID;
    assert Counted(Added(m, loop.client), Idle) == m.Keys + {u};
    if loop.userOK {
      assert Counted(m, loop) == m.Keys + {u};
    } else {
      assert Counted(m, loop) == m.Keys;
    }
  }

  lemma RegisterSetCounts(env: Env, s: State)
    requires CountInv(s) && s.loop.Checked? && s.loop.client !in s.registered
    ensures CountInv(Apply(env, s, RegisterSet))
  {
    var s' := Apply(env, s, RegisterSet);
    AddedCounts(s.m, s.loop);
    assert s'.m == Added(s.m, s.loop.client) && s'.loop == Idle && s'.registered == s.registered + {s.loop.client};
    assert |s'.registered| == |s.registered| + 1;
  }

  lemma UnregisterCounts(env: Env, s: State)
    requires CountInv(s) && Enabled(env, s, Unregister) && s.unregisterChan[0] !in s.unregistered
    ensures CountInv(Apply(env, s, Unregister))
  {
    var c := s.unregisterChan[0];
    RemovedCounts(s.m, c.userID, {c.addr}, s.loop);
    assert |s.unregistered + {c}| == |s.unregistered| + 1;
  }

  lemma StepKeepsCounts(env: Env, s: State, step: Step)
    requires SetsInv(s) && CountInv(s) && Enabled(env, s, step)
    ensures CountInv(Apply(env, s, step))
  {
    match step
    case RegisterGet(c) => RegisterGetCounts(env, s, c);
    case RegisterCheck => RegisterCheckCounts(env, s);
    case RegisterSet => RegisterSetCounts(env, s);
    case Unregister =>
      assert s.unregisterChan[0] in s.unregisterChan;
      UnregisterCounts(env, s);
    case KickUserConn(c) => KickedOutCounts(s, c.userID, [c]);
    case RemoteCheck =>
      var k := s.kickHandlerChan[0];
      KickedOutCounts(s.(kickHandlerChan := s.kickHandlerChan[1..]), k.userID, k.oldClients);
    case _ =>
  }

  // ---------- all of it, over runs ----------

  ghost predicate Inv(env: Env, s: State) {
    PolicyInv(env, s) && SetsInv(s) && ListedInv(s) && CountInv(s)
  }

  lemma StepKeepsInv(env: Env, s: State, step: Step)
    requires Inv(env, s) && Enabled(env, s, step)
    ensures Inv(env, Apply(env, s, step))
  {
    StepKeepsPolicy(env, s, step);
    StepKeepsSets(env, s, step);
    StepKeepsListed(env, s, step);
    StepKeepsCounts(env, s, step);
  }

  lemma {:induction false} RunKeepsInv(env: Env, s: State, steps: seq<Step>)
    requires Inv(env, s) && Run(env, s, steps) != []
    ensures Inv(env, Run(env, s, steps)[0])
    decreases |steps|
  {
    if steps != [] {
      StepKeepsInv(env, s, steps[0]);
      RunKeepsInv(env, Apply(env, s, steps[0]), steps[1..]);
    }
  }

  lemma ReachableInv(env: Env, s: State)
    requires Reachable(env, s)
    ensures Inv(env, s)
  {
    var steps :| Run(env, INIT, steps) == [s];
    RunKeepsInv(env, INIT, steps);
  }
}
