/** The event loop's handlers as they are written: an object updating its fields
  (n_ws_server.go, hub_server.go).  Each is proved to carry out a run of the protocol in
  Gateway, so everything proved of runs holds of it. */
module WsServer {
  import opened UserMap
  import opened Gateway
  import opened GatewayTheorems
  import opened GatewaySteps

  const KICKED_TOKEN := 2

  type Tokens = map<string, int>

  /** Closing connections one after another. */
  function ClosedAll(s: State, cs: seq<Client>): State {
    if cs == [] then s else Closed(ClosedAll(s, cs[..|cs| - 1]), cs[|cs| - 1])
  }

  function Closes(cs: seq<Client>): seq<Step> {
    seq(|cs|, i requires 0 <= i < |cs| => CloseKicked(cs[i]))
  }

  lemma {:induction false} RunThen(env: Env, s: State, a: seq<Step>, b: seq<Step>)
    requires Run(env, s, a) != []
    ensures Run(env, s, a + b) == Run(env, Run(env, s, a)[0], b)
    decreases |a|
  {
    if a == [] {
      assert a + b == b;
    } else {
      assert (a + b)[0] == a[0] && (a + b)[1..] == a[1..] + b;
      RunThen(env, Apply(env, s, a[0]), a[1..], b);
    }
  }

  /** Closing kicked connections is a run of the protocol, and touches nothing else. */
  lemma {:induction false} ClosesRun(env: Env, s: State, cs: seq<Client>)
    requires forall c :: c in cs ==> c in s.kicked
    ensures Run(env, s, Closes(cs)) == [ClosedAll(s, cs)]
    ensures ClosedAll(s, cs) == s.(closed := ClosedAll(s, cs).closed, unregisterChan := ClosedAll(s, cs).unregisterChan)
  {
    if cs != [] {
      var rest, last := cs[..|cs| - 1], cs[|cs| - 1];
      ClosesRun(env, s, rest);
      assert Closes(cs) == Closes(rest) + [CloseKicked(last)];
      assert last in cs;
      RunOf(env, s, Closes(rest), CloseKicked(last), ClosedAll(s, rest));
    }
  }

  /** What a login under a kicking policy leaves of a platform's tokens. */
  function OthersKicked(m: Tokens, own: string): Tokens {
    map t | t in m :: if t == own then m[t] else KICKED_TOKEN
  }

  /** Token by token: none comes or goes, the one logging in keeps its state, and every other one is
      marked as kicked. */
  ghost predicate OthersMarked(before: Tokens, after: Tokens, own: string) {
    && after.Keys == before.Keys
    && (own in before ==> after[own] == before[own])
    && (forall t :: t in after && t != own ==> after[t] == KICKED_TOKEN)
  }

  lemma OthersKickedMarks(before: Tokens, own: string)
    ensures OthersMarked(before, OthersKicked(before, own), own)
  {
  }

  /** The steps one registration carries out. */
  function RegistrationSteps(c: Client, kicked: seq<Client>): seq<Step> {
    [RegisterGet(c), RegisterCheck] + Closes(kicked) + [RegisterSet]
  }

  lemma ReachedByRun(env: Env, s: State, steps: seq<Step>)
    requires Reachable(env, s) && Run(env, s, steps) != []
    ensures Reachable(env, Run(env, s, steps)[0])
  {
    var before :| Run(env, INIT, before) == [s];
    RunThen(env, INIT, before, steps);
    assert Run(env, INIT, before + steps) == [Run(env, s, steps)[0]];
  }

  /** The connections a registration kicks. */
  function KickedBy(env: Env, m: Index, c: Client): seq<Client> {
    if c.userID in m && Kicks(env, c.platformID) then OnPlatform(Of(m, c.userID), c.platformID) else []
  }

  /** The state in which a registration has taken the old connections out of the index. */
  function Begun(env: Env, s: State, c: Client): State {
    var kicked := KickedBy(env, s.m, c);
    s.(loop := Checked(c, c.userID in s.m),
       m := if kicked == [] then s.m else Removed(s.m, c.userID, Addrs(kicked)),
       kicked := s.kicked + (set d | d in kicked))
  }

  lemma BegunRun(env: Env, s: State, c: Client)
    requires Enabled(env, s, RegisterGet(c))
    ensures Run(env, s, [RegisterGet(c), RegisterCheck]) == [Begun(env, s, c)]
  {
    var s1 := Apply(env, s, RegisterGet(c));
    var s2 := Apply(env, s1, RegisterCheck);
    assert [RegisterGet(c), RegisterCheck][1..] == [RegisterCheck];
    assert [RegisterCheck][1..] == [];
    assert Run(env, s1, [RegisterCheck]) == [s2];
    if KickedBy(env, s.m, c) == [] {
      assert s.kicked + (set d | d in KickedBy(env, s.m, c)) == s.kicked;
    }
    assert s2 == Begun(env, s, c);
  }

  /** A registration carried out on `s`, with `closed` the state once the kicked ones are closed. */
  lemma RegistrationRun(env: Env, s: State, c: Client, closed: State)
    requires Enabled(env, s, RegisterGet(c))
    requires closed == ClosedAll(Begun(env, s, c), KickedBy(env, s.m, c))
    ensures closed == Begun(env, s, c).(closed := closed.closed, unregisterChan := closed.unregisterChan)
    ensures Run(env, s, RegistrationSteps(c, KickedBy(env, s.m, c))) == [Apply(env, closed, RegisterSet)]
  {
    var kicked := KickedBy(env, s.m, c);
    BegunRun(env, s, c);
    ClosesRun(env, Begun(env, s, c), kicked);
    RunThen(env, s, [RegisterGet(c), RegisterCheck], Closes(kicked));
    RunOf(env, s, [RegisterGet(c), RegisterCheck] + Closes(kicked), RegisterSet, closed);
  }

  lemma KickedByExact(env: Env, m: Index, c: Client, d: Client)
    ensures d in KickedBy(env, m, c) <==> Ousts(env, c.platformID) && d in Of(m, c.userID) && d.platformID == c.platformID
  {
    OnPlatformExact(Of(m, c.userID), c.platformID);
  }

  lemma {:induction false} ClosedAllExact(s: State, cs: seq<Client>, d: Client)
    ensures d in ClosedAll(s, cs).closed <==> d in s.closed || d in cs
  {
    if cs != [] {
      var rest, last := cs[..|cs| - 1], cs[|cs| - 1];
      ClosedAllExact(s, rest, d);
      assert cs == rest + [last];
    }
  }

  /** What a registration leaves in the index: the new connection, and what there was but for the
      user's connections on the same platform, if the policy ousts those. */
  ghost predicate NowRegistered(env: Env, m: Index, m': Index, c: Client) {
    forall v, d {:trigger d in Of(m', v)} {:trigger d in Of(m, v)} ::
      d in Of(m', v) <==>
        || (v == c.userID && d == c)
        || (d in Of(m, v) && !(v == c.userID && d.platformID == c.platformID && Ousts(env, c.platformID)))
  }

  /** What it closes: just those. */
  ghost predicate OustedClosed(env: Env, m: Index, closed: set<Client>, closed': set<Client>, c: Client) {
    forall d {:trigger d in closed'} {:trigger d in closed} :: d in closed' <==>
      d in closed || (Ousts(env, c.platformID) && d in Of(m, c.userID) && d.platformID == c.platformID)
  }

  lemma RegistrationIndex(env: Env, s: State, c: Client, closed: State)
    requires Reachable(env, s) && DistinctAddrs(s) && Enabled(env, s, RegisterGet(c))
    requires closed == Begun(env, s, c).(closed := closed.closed, unregisterChan := closed.unregisterChan)
    ensures NowRegistered(env, s.m, Apply(env, closed, RegisterSet).m, c)
  {
    var begun := Begun(env, s, c);
    BegunRun(env, s, c);
    RunOf(env, s, [RegisterGet(c), RegisterCheck], RegisterSet, begun);
    assert [RegisterGet(c), RegisterCheck] + [RegisterSet] == [RegisterGet(c), RegisterCheck, RegisterSet];
    assert Apply(env, closed, RegisterSet).m == Apply(env, begun, RegisterSet).m;
    forall v, d
      ensures d in Of(Apply(env, closed, RegisterSet).m, v) <==>
        || (v == c.userID && d == c)
        || (d in Of(s.m, v) && !(v == c.userID && d.platformID == c.platformID && Ousts(env, c.platformID)))
    {
      RegistrationExact(env, s, c, v, d);
    }
  }

  lemma RegistrationCloses(env: Env, s: State, c: Client, closed: State)
    requires closed == ClosedAll(Begun(env, s, c), KickedBy(env, s.m, c))
    ensures OustedClosed(env, s.m, s.closed, closed.closed, c)
  {
    forall d
      ensures d in closed.closed <==>
        d in s.closed || (Ousts(env, c.platformID) && d in Of(s.m, c.userID) && d.platformID == c.platformID)
    {
      KickedByExact(env, s.m, c, d);
      ClosedAllExact(Begun(env, s, c), KickedBy(env, s.m, c), d);
    }
  }

  /** Whether a registration has anybody to oust. */
  ghost predicate SomeOusted(env: Env, m: Index, c: Client) {
    Ousts(env, c.platformID) && exists d :: d in Of(m, c.userID) && d.platformID == c.platformID
  }

  lemma SomeKicked(env: Env, m: Index, c: Client)
    ensures KickedBy(env, m, c) != [] <==> SomeOusted(env, m, c)
  {
    var kicked := KickedBy(env, m, c);
    forall d
      ensures d in kicked <==> Ousts(env, c.platformID) && d in Of(m, c.userID) && d.platformID == c.platformID
    {
      KickedByExact(env, m, c, d);
    }
    assert kicked != [] ==> kicked[0] in kicked;
  }

  /** A queued kick: what it named is out and closed, if the policy ousts, and nothing else. */
  lemma RemoteIndex(env: Env, s: State, s': State)
    requires Reachable(env, s) && DistinctAddrs(s) && Enabled(env, s, RemoteCheck)
    requires s'.m == Apply(env, s, RemoteCheck).m
    ensures OnlyLeft(s.m, s'.m, if Ousts(env, s.kickHandlerChan[0].platformID) then All(s.kickHandlerChan[0].oldClients) else {})
  {
    forall v, d
      ensures d in Of(s'.m, v) <==>
        d in Of(s.m, v) && d !in if Ousts(env, s.kickHandlerChan[0].platformID) then All(s.kickHandlerChan[0].oldClients) else {}
    {
      IndexAfter(env, s, RemoteCheck, v, d);
    }
  }

  function All(cs: seq<Client>): set<Client> {
    set d | d in cs
  }

  /** The index lost exactly these connections. */
  ghost predicate OnlyLeft(m: Index, m': Index, gone: set<Client>) {
    forall v, d {:trigger d in Of(m', v)} {:trigger d in Of(m, v)} :: d in Of(m', v) <==> d in Of(m, v) && d !in gone
  }

  lemma LeftThen(a: Index, b: Index, c: Index, g: set<Client>, h: set<Client>)
    requires OnlyLeft(a, b, g) && OnlyLeft(b, c, h)
    ensures OnlyLeft(a, c, g + h)
  {
    forall v, d
      ensures d in Of(c, v) <==> d in Of(a, v) && d !in g + h
    {
      assert d in Of(b, v) <==> d in Of(a, v) && d !in g;
    }
  }

  /** The index lost exactly the connections these users had on this platform. */
  ghost predicate OnlyPlatformLeft(m: Index, m': Index, users: seq<string>, p: int) {
    forall v, d {:trigger d in Of(m', v)} {:trigger d in Of(m, v)} :: d in Of(m', v) <==> d in Of(m, v) && !(v in users && d.platformID == p)
  }

  lemma PlatformLeft(a: Index, b: Index, c: Index, users: seq<string>, u: string, p: int)
    requires OnlyPlatformLeft(a, b, users, p) && ValidIndex(b)
    requires OnlyLeft(b, c, All(OnPlatform(Of(b, u), p)))
    ensures OnlyPlatformLeft(a, c, users + [u], p)
  {
    OnPlatformExact(Of(b, u), p);
    forall v, d
      ensures d in Of(c, v) <==> d in Of(a, v) && !(v in users + [u] && d.platformID == p)
    {
      assert d in Of(b, v) <==> d in Of(a, v) && !(v in users && d.platformID == p);
      assert d in Of(c, v) <==> d in Of(b, v) && d !in OnPlatform(Of(b, u), p);
    }
  }

  lemma ListedRegistered(env: Env, s: State, u: string, p: int)
    requires Reachable(env, s)
    ensures ValidIndex(s.m)
    ensures forall c :: c in OnPlatform(Of(s.m, u), p) ==> c in s.registered
  {
    ReachableInv(env, s);
    OnPlatformExact(Of(s.m, u), p);
  }

  /** Kicking one registered connection takes out that one only. */
  lemma OneLeft(env: Env, s: State, c: Client)
    requires Reachable(env, s) && c in s.registered && DistinctAddrs(s)
    ensures OnlyLeft(s.m, Removed(s.m, c.userID, Addrs([c])), {c})
  {
    ReachableInv(env, s);
    AddrsOfOne(c);
    RemovedOne(s, c);
  }

  class Server {
    const env: Env
    const clients: UserMap
    var onlineUserNum: int
    var onlineUserConnNum: int
    var registerChan: seq<Client>
    var closed: set<Client>
    var unregisterChan: seq<Client>
    var kickHandlerChan: seq<Kick>
    var tokens: map<(string, int), Tokens>
    ghost var s: State

    /** The fields hold what the protocol's state says. */
    ghost predicate Matches(s: State)
      reads this, clients
    {
      && clients.m == s.m
      && onlineUserNum == s.onlineUserNum && onlineUserConnNum == s.onlineUserConnNum
      && closed == s.closed && unregisterChan == s.unregisterChan && kickHandlerChan == s.kickHandlerChan
    }

    /** Connections waiting to be registered. */
    ghost predicate Queued(cs: seq<Client>)
      reads this`s
    {
      NoRepeats(cs) && forall c :: c in cs ==> c in s.accepted && c !in s.registered
    }

    ghost predicate Valid()
      reads this, clients
    {
      Matches(s) && Reachable(env, s) && s.loop.Idle? && Queued(registerChan)
    }

    function TokensOf(u: string, p: int): Tokens
      reads this
    {
      if (u, p) in tokens then tokens[(u, p)] else map[]
    }

    constructor (env: Env)
      ensures Valid() && fresh(clients) && s == INIT && this.env == env
    {
      this.env := env;
      clients := new UserMap();
      onlineUserNum, onlineUserConnNum := 0, 0;
      registerChan, closed, unregisterChan, kickHandlerChan := [], {}, [], [];
      tokens := map[];
      s := INIT;
      assert Run(env, INIT, []) == [INIT];
    }

    method Close(c: Client)
      modifies this`closed, this`unregisterChan, this`s
      requires Matches(s)
      ensures s == Closed(old(s), c) && Matches(s)
    {
      s := Closed(s, c);
      if c in closed {
        return;
      }
      closed := closed + {c};
      unregisterChan := unregisterChan + [c];
    }

    method CloseEach(cs: seq<Client>)
      modifies this`closed, this`unregisterChan, this`s
      requires Matches(s)
      ensures s == ClosedAll(old(s), cs) && Matches(s)
    {
      assert cs[..0] == [];
      for i := 0 to |cs|
        invariant s == ClosedAll(old(s), cs[..i]) && Matches(s)
      {
        assert cs[..i + 1][..i] == cs[..i];
        Close(cs[i]);
      }
      assert cs[..|cs|] == cs;
    }

    /** Replaces every other token of the platform by the kicked mark, in any order. */
    method KickOtherTokens(u: string, p: int, own: string, readOK: bool, writeOK: bool)
      modifies this`tokens
      ensures tokens == if readOK && writeOK then old(tokens)[(u, p) := OthersKicked(old(TokensOf(u, p)), own)] else old(tokens)
      ensures readOK && writeOK ==> OthersMarked(old(TokensOf(u, p)), TokensOf(u, p), own)
      ensures forall v, q :: (v, q) != (u, p) ==> TokensOf(v, q) == old(TokensOf(v, q))
    {
      if !readOK {
        return;
      }
      var m := TokensOf(u, p);
      ghost var was := m;
      var keys := m.Keys;
      while keys != {}
        invariant keys <= was.Keys && m.Keys == was.Keys
        invariant forall t :: t in keys ==> m[t] == was[t]
        invariant forall t :: t in was.Keys - keys ==> m[t] == OthersKicked(was, own)[t]
        decreases |keys|
      {
        var k :| k in keys;
        if k != own {
          m := m[k := KICKED_TOKEN];
        }
        keys := keys - {k};
      }
      assert m == OthersKicked(was, own);
      OthersKickedMarks(was, own);
      if writeOK {
        tokens := tokens[(u, p) := m];
      }
    }

    /** Under a kicking policy the old connections leave the index, are closed one after another,
        and the other tokens of the platform are marked.  `removed` is the protocol's state once
        they are out of the index. */
    method MultiTerminalLoginChecker(clientOK: bool, oldClients: seq<Client>, newClient: Client, readOK: bool, writeOK: bool,
        ghost removed: State)
      modifies this`closed, this`unregisterChan, this`tokens, this`s, clients
      requires Matches(s)
      requires var kicks := Kicks(env, newClient.platformID) && clientOK;
        Matches(removed.(m := s.m)) && removed.m == if kicks then Removed(s.m, newClient.userID, Addrs(oldClients)) else s.m
      ensures clients.m == if Kicks(env, newClient.platformID) && clientOK
                           then Removed(old(clients.m), newClient.userID, Addrs(oldClients)) else old(clients.m)
      ensures var kicks := Kicks(env, newClient.platformID) && clientOK;
        && s == ClosedAll(removed, if kicks then oldClients else []) && Matches(s)
        && tokens == if kicks && readOK && writeOK
                     then old(tokens)[(newClient.userID, newClient.platformID) :=
                         OthersKicked(old(TokensOf(newClient.userID, newClient.platformID)), newClient.token)]
                     else old(tokens)
    {
      s := removed;
      match env.policy {
        case DefaultNotKick => return;
        case OtherPolicy(_) => return;
        case PCAndOther =>
          if env.isPC(newClient.platformID) {
            return;
          }
        case AllLoginButSameTermKick =>
      }
      if !clientOK {
        return;
      }
      var _ := clients.DeleteClients(newClient.userID, oldClients);
      CloseEach(oldClients);
      KickOtherTokens(newClient.userID, newClient.platformID, newClient.token, readOK, writeOK);
    }

    /** A new connection, on its way to the loop. */
    method Accept(c: Client)
      modifies this`registerChan, this`s
      requires Valid() && Enabled(env, s, Gateway.Accept(c))
      ensures Valid() && s == Apply(env, old(s), Gateway.Accept(c)) && registerChan == old(registerChan) + [c]
    {
      ReachableInv(env, s);
      Reaches(env, s, Gateway.Accept(c));
      s := Apply(env, s, Gateway.Accept(c));
      registerChan := registerChan + [c];
    }

    /** Looks up the connections there are and, if the user is known, applies the policy. */
    method BeginRegistration(client: Client, readOK: bool, writeOK: bool) returns (userOK: bool)
      modifies this`closed, this`unregisterChan, this`tokens, this`s, clients
      requires Matches(s) && s.loop.Idle?
      ensures Matches(s) && s == ClosedAll(Begun(env, old(s), client), KickedBy(env, old(s).m, client))
      ensures userOK <==> client.userID in old(s).m
      ensures tokens == if KickedBy(env, old(s).m, client) != [] && readOK && writeOK
                        then old(tokens)[(client.userID, client.platformID) :=
                            OthersKicked(old(TokensOf(client.userID, client.platformID)), client.token)]
                        else old(tokens)
    {
      ghost var begun := Begun(env, s, client);
      var oldClients, clientOK;
      oldClients, userOK, clientOK := clients.Get(client.userID, client.platformID);
      if !userOK {
        s := begun;
      } else {
        MultiTerminalLoginChecker(clientOK, oldClients, client, readOK, writeOK, begun);
      }
    }

    /** A registration as a whole: who is connected, who is closed and which tokens are kicked. */
    method RegisterClient(client: Client, readOK: bool, writeOK: bool)
      modifies this`onlineUserNum, this`onlineUserConnNum, this`closed, this`unregisterChan, this`tokens, this`s, clients
      requires Valid() && Enabled(env, s, RegisterGet(client)) && client !in registerChan
      ensures Valid() && Run(env, old(s), RegistrationSteps(client, KickedBy(env, old(clients.m), client))) == [s]
      ensures old(DistinctAddrs(s)) ==> NowRegistered(env, old(clients.m), clients.m, client)
      ensures OustedClosed(env, old(clients.m), old(closed), closed, client)
      ensures if SomeOusted(env, old(clients.m), client) && readOK && writeOK
              then OthersMarked(old(TokensOf(client.userID, client.platformID)), TokensOf(client.userID, client.platformID), client.token)
              else tokens == old(tokens)
    {
      SomeKicked(env, clients.m, client);
      OthersKickedMarks(TokensOf(client.userID, client.platformID), client.token);
      var userOK := BeginRegistration(client, readOK, writeOK);
      RegistrationRun(env, old(s), client, s);
      RegistrationCloses(env, old(s), client, s);
      if DistinctAddrs(old(s)) {
        RegistrationIndex(env, old(s), client, s);
      }
      AddClient(client, userOK);
      ReachedByRun(env, old(s), RegistrationSteps(client, KickedBy(env, old(s).m, client)));
    }

    /** Puts the connection into the index and counts it, and its user if it is new. */
    method AddClient(client: Client, userOK: bool)
      modifies this`onlineUserNum, this`onlineUserConnNum, this`s, clients
      requires Matches(s) && s.loop == Checked(client, userOK)
      ensures s == Apply(env, old(s), RegisterSet) && Matches(s)
    {
      s := Apply(env, s, RegisterSet);
      clients.Set(client.userID, client);
      if !userOK {
        onlineUserNum := onlineUserNum + 1;
      }
      onlineUserConnNum := onlineUserConnNum + 1;
    }

    method UnregisterClient()
      modifies this, clients
      requires Valid() && Enabled(env, s, Unregister)
      ensures Valid() && s == Apply(env, old(s), Unregister) && tokens == old(tokens) && registerChan == old(registerChan)
    {
      var client := unregisterChan[0];
      Reaches(env, s, Unregister);
      s := Apply(env, s, Unregister);
      unregisterChan := unregisterChan[1..];
      var isDeleteUser := clients.Delete(client.userID, client.addr);
      if isDeleteUser {
        onlineUserNum := onlineUserNum - 1;
      }
      onlineUserConnNum := onlineUserConnNum - 1;
    }

    /** Kicks one connection: it leaves the index, nothing else does, and it is closed. */
    method KickUserConn(c: Client)
      modifies this, clients
      requires Valid() && c in s.registered && DistinctAddrs(s)
      ensures Valid() && Run(env, old(s), [Gateway.KickUserConn(c), CloseKicked(c)]) == [s]
      ensures OnlyLeft(old(clients.m), clients.m, {c})
      ensures c in closed && s.registered == old(s.registered) && s.accepted == old(s.accepted) && tokens == old(tokens)
    {
      ghost var kick := Gateway.KickUserConn(c);
      OneLeft(env, s, c);
      var _ := clients.DeleteClients(c.userID, [c]);
      assert [kick, CloseKicked(c)][1..] == [CloseKicked(c)] && [CloseKicked(c)][1..] == [];
      s := Apply(env, s, kick);
      assert Run(env, s, [CloseKicked(c)]) == [Closed(s, c)];
      Close(c);
      ReachedByRun(env, old(s), [kick, CloseKicked(c)]);
    }

    /** Kicks the connections one by one, whatever the earlier kicks did to the later ones. */
    method KickEach(cs: seq<Client>) returns (ghost steps: seq<Step>)
      modifies this, clients
      requires Valid() && DistinctAddrs(s) && forall c :: c in cs ==> c in s.registered
      ensures Valid() && Run(env, old(s), steps) == [s] && s.accepted == old(s.accepted)
      ensures forall i :: 0 <= i < |steps| ==> steps[i].KickUserConn? || steps[i].CloseKicked?
      ensures OnlyLeft(old(clients.m), clients.m, All(cs))
    {
      steps := [];
      for i := 0 to |cs|
        invariant Valid() && Run(env, old(s), steps) == [s] && s.registered == old(s.registered) && s.accepted == old(s.accepted)
        invariant forall i :: 0 <= i < |steps| ==> steps[i].KickUserConn? || steps[i].CloseKicked?
        invariant OnlyLeft(old(clients.m), clients.m, All(cs[..i]))
      {
        assert cs[i] in cs;
        ghost var before := clients.m;
        KickUserConn(cs[i]);
        RunThen(env, old(s), steps, [Gateway.KickUserConn(cs[i]), CloseKicked(cs[i])]);
        steps := steps + [Gateway.KickUserConn(cs[i]), CloseKicked(cs[i])];
        LeftThen(old(clients.m), before, clients.m, All(cs[..i]), {cs[i]});
        assert All(cs[..i + 1]) == All(cs[..i]) + {cs[i]};
      }
      assert cs[..|cs|] == cs;
    }

    /** An administrator kicks users on one platform: exactly their connections there leave. */
    method KickUserOffline(userIDs: seq<string>, platformID: int) returns (ghost steps: seq<Step>)
      modifies this, clients
      requires Valid() && DistinctAddrs(s)
      ensures Valid() && Run(env, old(s), steps) == [s]
      ensures forall i :: 0 <= i < |steps| ==> steps[i].KickUserConn? || steps[i].CloseKicked?
      ensures OnlyPlatformLeft(old(clients.m), clients.m, userIDs, platformID)
    {
      steps := [];
      for i := 0 to |userIDs|
        invariant Valid() && Run(env, old(s), steps) == [s] && s.accepted == old(s.accepted)
        invariant forall i :: 0 <= i < |steps| ==> steps[i].KickUserConn? || steps[i].CloseKicked?
        invariant OnlyPlatformLeft(old(clients.m), clients.m, userIDs[..i], platformID)
      {
        ghost var before := clients.m;
        ListedRegistered(env, s, userIDs[i], platformID);
        var cs, _, ok := clients.Get(userIDs[i], platformID);
        if ok {
          ghost var more := KickEach(cs);
          RunThen(env, old(s), steps, more);
          steps := steps + more;
        }
        PlatformLeft(old(clients.m), before, clients.m, userIDs[..i], userIDs[i], platformID);
        assert userIDs[..i + 1] == userIDs[..i] + [userIDs[i]];
      }
      assert userIDs[..|userIDs|] == userIDs;
    }

    /** Another node reports a login: what is connected here on that platform is looked up now
        and judged later, by the loop. */
    method MultiTerminalLoginCheck(u: string, platformID: int)
      modifies this`kickHandlerChan, this`s
      requires Valid()
      ensures Valid()
      ensures if u in clients.m then s == Apply(env, old(s), RemoteLogin(u, platformID)) else s == old(s)
    {
      var oldClients, userOK, clientOK := clients.Get(u, platformID);
      if userOK {
        Reaches(env, s, RemoteLogin(u, platformID));
        s := Apply(env, s, RemoteLogin(u, platformID));
        kickHandlerChan := kickHandlerChan + [Kick(clientOK, oldClients, u, platformID)];
      }
    }

    method HandleRemoteLogin(token: string, readOK: bool, writeOK: bool) returns (ghost kicked: seq<Client>)
      modifies this, clients
      requires Valid() && kickHandlerChan != []
      ensures Valid() && Run(env, old(s), [RemoteCheck] + Closes(kicked)) == [s]
      ensures var k := old(kickHandlerChan)[0];
        && kicked == (if Kicks(env, k.platformID) && k.clientOK then k.oldClients else [])
        && clients.m == (if Kicks(env, k.platformID) && k.clientOK
                         then Removed(old(clients.m), k.userID, Addrs(k.oldClients)) else old(clients.m))
        && tokens == (if Kicks(env, k.platformID) && k.clientOK && readOK && writeOK
                      then old(tokens)[(k.userID, k.platformID) := OthersKicked(old(TokensOf(k.userID, k.platformID)), token)]
                      else old(tokens))
      ensures var k := old(kickHandlerChan)[0];
        old(DistinctAddrs(s)) ==> OnlyLeft(old(clients.m), clients.m, if Ousts(env, k.platformID) then All(k.oldClients) else {})
    {
      if DistinctAddrs(s) {
        RemoteIndex(env, s, Apply(env, s, RemoteCheck));
      }
      var k := kickHandlerChan[0];
      kickHandlerChan := kickHandlerChan[1..];
      ghost var removed := Apply(env, s, RemoteCheck);
      kicked := if Kicks(env, k.platformID) && k.clientOK then k.oldClients else [];
      s := s.(kickHandlerChan := kickHandlerChan);
      MultiTerminalLoginChecker(k.clientOK, k.oldClients, Client(0, k.userID, k.platformID, "", token), readOK, writeOK, removed);
      ClosesRun(env, removed, kicked);
      assert [RemoteCheck][1..] == [] && Run(env, old(s), [RemoteCheck]) == [removed];
      RunThen(env, old(s), [RemoteCheck], Closes(kicked));
      ReachedByRun(env, old(s), [RemoteCheck] + Closes(kicked));
    }
  }
}
