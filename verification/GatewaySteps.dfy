/** What every single step of the gateway does to the index and to the sets of connections, and
  what a registration does as a whole, told by users and platforms. */
module GatewaySteps {
  import opened UserMap
  import opened Gateway
  import opened GatewayTheorems

  /** The policies under which a new login ousts the old ones on its platform: always, or unless
      the platform is a PC. */
  predicate Ousts(env: Env, platformID: int) {
    env.policy == AllLoginButSameTermKick || (env.policy == PCAndOther && !env.isPC(platformID))
  }

  // ---------- lists name one platform ----------

  /** What was looked up for a login, here or on another node, is on the platform of that login. */
  ghost predicate OnePlatformEach(s: State) {
    && (s.loop.Got? ==> forall d :: d in s.loop.oldClients ==> d.platformID == s.loop.client.platformID)
    && (forall k, d :: k in s.kickHandlerChan && d in k.oldClients ==> d.platformID == k.platformID)
  }

  lemma StepKeepsPlatforms(env: Env, s: State, step: Step)
    requires OnePlatformEach(s) && Enabled(env, s, step)
    ensures OnePlatformEach(Apply(env, s, step))
  {
    match step
    case RegisterGet(c) => OnPlatformExact(Of(s.m, c.userID), c.platformID);
    case RemoteLogin(u, p) => OnPlatformExact(Of(s.m, u), p);
    case _ =>
  }

  lemma {:induction false} RunKeepsPlatforms(env: Env, s: State, steps: seq<Step>)
    requires OnePlatformEach(s) && Run(env, s, steps) != []
    ensures OnePlatformEach(Run(env, s, steps)[0])
    decreases |steps|
  {
    if steps != [] {
      StepKeepsPlatforms(env, s, steps[0]);
      RunKeepsPlatforms(env, Apply(env, s, steps[0]), steps[1..]);
    }
  }

  lemma ReachablePlatforms(env: Env, s: State)
    requires Reachable(env, s)
    ensures OnePlatformEach(s)
  {
    var steps :| Run(env, INIT, steps) == [s];
    RunKeepsPlatforms(env, INIT, steps);
  }

  // ---------- one step ----------

  /** Whether a step takes a connection out of the index. */
  ghost predicate TakesOut(env: Env, s: State, step: Step, d: Client)
    requires Enabled(env, s, step)
  {
    match step
    case RegisterCheck =>
      var c := s.loop.client;
      d.userID == c.userID && d.platformID == c.platformID && Ousts(env, c.platformID)
    case Unregister => d == s.unregisterChan[0]
    case KickUserConn(c) => d == c
    case RemoteCheck => d in s.kickHandlerChan[0].oldClients && Ousts(env, s.kickHandlerChan[0].platformID)
    case _ => false
  }

  lemma CheckTakesOut(env: Env, s: State, v: string, d: Client)
    requires Reachable(env, s) && DistinctAddrs(s) && s.loop.Got?
    ensures d in Of(Apply(env, s, RegisterCheck).m, v) <==> d in Of(s.m, v) && !TakesOut(env, s, RegisterCheck, d)
  {
    ReachableInv(env, s);
    ReachablePlatforms(env, s);
    var c := s.loop.client;
    RemovedByAddress(s, c.userID, s.loop.oldClients, c);
    assert d in Of(s.m, v) ==> d.userID == v;
  }

  lemma RemoteTakesOut(env: Env, s: State, v: string, d: Client)
    requires Reachable(env, s) && DistinctAddrs(s) && Enabled(env, s, RemoteCheck)
    ensures d in Of(Apply(env, s, RemoteCheck).m, v) <==> d in Of(s.m, v) && !TakesOut(env, s, RemoteCheck, d)
  {
    ReachableInv(env, s);
    QueuedFound(env, s);
    var k := s.kickHandlerChan[0];
    assert k in s.kickHandlerChan;
    RemovedByAddress(s, k.userID, k.oldClients, Client(0, "", 0, "", ""));
    if k.clientOK && Ousts(env, k.platformID) {
      assert Apply(env, s, RemoteCheck).m == Removed(s.m, k.userID, Addrs(k.oldClients));
    } else {
      assert Apply(env, s, RemoteCheck).m == s.m;
    }
  }

  /** A queued kick says it found something exactly when it did. */
  ghost predicate FoundSome(s: State) {
    forall k :: k in s.kickHandlerChan ==> (k.clientOK <==> k.oldClients != [])
  }

  lemma {:induction false} RunKeepsFound(env: Env, s: State, steps: seq<Step>)
    requires FoundSome(s) && Run(env, s, steps) != []
    ensures FoundSome(Run(env, s, steps)[0])
    decreases |steps|
  {
    if steps != [] {
      RunKeepsFound(env, Apply(env, s, steps[0]), steps[1..]);
    }
  }

  lemma QueuedFound(env: Env, s: State)
    requires Reachable(env, s)
    ensures FoundSome(s)
  {
    var steps :| Run(env, INIT, steps) == [s];
    RunKeepsFound(env, INIT, steps);
  }

  /** Exactly what every step does to the index, wherever the loop is and whatever came before, if
      no user met one address twice: a registration's check takes out the user's connections on its
      platform if the policy ousts them, and no others; an unregistration and an administrator's
      kick take out the one connection; a remote kick takes out what was found when it was asked
      for; the end of a registration puts in the new connection. */
  lemma IndexAfter(env: Env, s: State, step: Step, v: string, d: Client)
    requires Reachable(env, s) && DistinctAddrs(s) && Enabled(env, s, step)
    ensures d in Of(Apply(env, s, step).m, v) <==>
      || (d in Of(s.m, v) && !TakesOut(env, s, step, d))
      || (step.RegisterSet? && d == s.loop.client && v == d.userID)
  {
    ReachableInv(env, s);
    match step
    case RegisterCheck => CheckTakesOut(env, s, v, d);
    case RegisterSet => IndexIsCollection(s.m, s.loop.client, "", {});
    case Unregister =>
      assert s.unregisterChan[0] in s.unregisterChan;
      RemovedOne(s, s.unregisterChan[0]);
    case KickUserConn(c) =>
      AddrsOfOne(c);
      RemovedOne(s, c);
    case RemoteCheck => RemoteTakesOut(env, s, v, d);
    case _ =>
  }

  /** What another node's login has queued to be kicked is what the user has here on that platform
      at that moment; judging it later adds nothing. */
  lemma RemoteLoginNames(env: Env, s: State, u: string, p: int, d: Client)
    requires Enabled(env, s, RemoteLogin(u, p))
    ensures var q := Apply(env, s, RemoteLogin(u, p)).kickHandlerChan;
      && q != [] && q[..|q| - 1] == s.kickHandlerChan && q[|q| - 1].userID == u && q[|q| - 1].platformID == p
      && (d in q[|q| - 1].oldClients <==> d in Of(s.m, u) && d.platformID == p)
  {
    OnPlatformExact(Of(s.m, u), p);
  }

  /** Which connections a step makes accepted, registered, unregistered or closed. */
  lemma SetsAfter(env: Env, s: State, step: Step, d: Client)
    requires Enabled(env, s, step)
    ensures var s' := Apply(env, s, step);
      && (d in s'.accepted <==> d in s.accepted || step == Accept(d))
      && (d in s'.registered <==> d in s.registered || (step.RegisterSet? && d == s.loop.client))
      && (d in s'.unregistered <==> d in s.unregistered || (step.Unregister? && d == s.unregisterChan[0]))
      && (d in s'.closed <==> d in s.closed || step == ReaderClose(d) || step == CloseKicked(d))
  {
  }

  /** Which ones it makes kicked: those it kicks, and those alone are closed for it. */
  lemma KickedAfter(env: Env, s: State, step: Step, d: Client)
    requires Reachable(env, s) && Enabled(env, s, step)
    ensures d in Apply(env, s, step).kicked <==>
      || d in s.kicked || step == KickUserConn(d)
      || (step.RegisterCheck? && Ousts(env, s.loop.client.platformID) && d in s.loop.oldClients)
      || (step.RemoteCheck? && Ousts(env, s.kickHandlerChan[0].platformID) && d in s.kickHandlerChan[0].oldClients)
  {
    match step
    case RegisterCheck => ReachableUserOK(env, s);
    case RemoteCheck =>
      QueuedFound(env, s);
      assert s.kickHandlerChan[0] in s.kickHandlerChan;
    case _ =>
  }

  /** A registration that found connections of a user says so, and had found the user. */
  ghost predicate FoundUser(s: State) {
    s.loop.Got? ==> (s.loop.clientOK <==> s.loop.oldClients != []) && (s.loop.clientOK ==> s.loop.userOK)
  }

  lemma {:induction false} RunKeepsFoundUser(env: Env, s: State, steps: seq<Step>)
    requires FoundUser(s) && Run(env, s, steps) != []
    ensures FoundUser(Run(env, s, steps)[0])
    decreases |steps|
  {
    if steps != [] {
      RunKeepsFoundUser(env, Apply(env, s, steps[0]), steps[1..]);
    }
  }

  lemma ReachableUserOK(env: Env, s: State)
    requires Reachable(env, s)
    ensures FoundUser(s)
  {
    var steps :| Run(env, INIT, steps) == [s];
    RunKeepsFoundUser(env, INIT, steps);
  }

  // ---------- a registration ----------

  /** A registration with nothing in between: the new connection is in the index, the user's old
      ones on its platform are out if the policy ousts them, and every other connection of every
      user is in exactly if it was. */
  lemma RegistrationExact(env: Env, s: State, c: Client, v: string, d: Client)
    requires Reachable(env, s) && DistinctAddrs(s) && Enabled(env, s, RegisterGet(c))
    ensures Run(env, s, [RegisterGet(c), RegisterCheck, RegisterSet]) != []
    ensures var s' := Run(env, s, [RegisterGet(c), RegisterCheck, RegisterSet])[0];
      d in Of(s'.m, v) <==>
        || (v == c.userID && d == c)
        || (d in Of(s.m, v) && !(v == c.userID && d.platformID == c.platformID && Ousts(env, c.platformID)))
  {
    var s1 := Apply(env, s, RegisterGet(c));
    Reaches(env, s, RegisterGet(c));
    var s2 := Apply(env, s1, RegisterCheck);
    Reaches(env, s1, RegisterCheck);
    var steps := [RegisterGet(c), RegisterCheck, RegisterSet];
    assert steps[1..] == [RegisterCheck, RegisterSet] && steps[1..][1..] == [RegisterSet] && [RegisterSet][1..] == [];
    assert Run(env, s1, [RegisterCheck, RegisterSet]) == Run(env, s2, [RegisterSet]) == [Apply(env, s2, RegisterSet)];
    IndexAfter(env, s1, RegisterCheck, v, d);
    IndexAfter(env, s2, RegisterSet, v, d);
    ReachableInv(env, s);
    assert d in Of(s.m, v) ==> d.userID == v;
  }
}
