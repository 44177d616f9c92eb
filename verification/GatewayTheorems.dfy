/** What the gateway's registry keeps over every run. */
module GatewayTheorems {
  import opened UserMap
  import opened Gateway

  // ---------- one connection per platform ----------

  lemma NoneCounted(cs: seq<Client>, p: int)
    ensures NoneOn(cs, p) <==> OnPlatform(cs, p) == []
  {
    OnPlatformExact(cs, p);
    if NoneOn(cs, p) && OnPlatform(cs, p) != [] {
      assert OnPlatform(cs, p)[0] in OnPlatform(cs, p);
      assert false;
    }
  }

  lemma {:induction false} AtMostOneCounted(cs: seq<Client>, p: int)
    ensures AtMostOne(cs, p) <==> |OnPlatform(cs, p)| <= 1
  {
    if cs != [] {
      var rest, last := cs[..|cs| - 1], cs[|cs| - 1];
      AtMostOneCounted(rest, p);
      NoneCounted(rest, p);
      assert AtMostOne(cs, p) <==> AtMostOne(rest, p) && (last.platformID == p ==> NoneOn(rest, p)) by {
        assert forall i :: 0 <= i < |rest| ==> rest[i] == cs[i];
        forall i | 0 <= i < |rest| && rest[i].platformID == p && last.platformID == p
          ensures !AtMostOne(cs, p)
        {
          assert cs[i].platformID == p && cs[|cs| - 1].platformID == p;
        }
      }
    }
  }

  lemma {:induction false} RunOf(env: Env, s: State, a: seq<Step>, step: Step, s1: State)
    requires Run(env, s, a) == [s1] && Enabled(env, s1, step)
    ensures Run(env, s, a + [step]) == [Apply(env, s1, step)]
    decreases |a|
  {
    if a == [] {
      assert ([step])[1..] == [];
    } else {
      assert (a + [step])[0] == a[0] && (a + [step])[1..] == a[1..] + [step];
      RunOf(env, Apply(env, s, a[0]), a[1..], step, s1);
    }
  }

  lemma Reaches(env: Env, s: State, step: Step)
    requires Reachable(env, s) && Enabled(env, s, step)
    ensures Reachable(env, Apply(env, s, step))
  {
    var steps :| Run(env, INIT, steps) == [s];
    RunOf(env, INIT, steps, step, s);
  }

  /** The state after one login and nothing else. */
  function LoggedIn(c: Client): State {
    INIT.(m := map[c.userID := [c]], onlineUserNum := 1, onlineUserConnNum := 1, accepted := {c}, registered := {c})
  }

  lemma Login(env: Env, c: Client)
    ensures Reachable(env, LoggedIn(c))
  {
    assert Run(env, INIT, []) == [INIT];
    Reaches(env, INIT, Accept(c));
    var s := Apply(env, INIT, Accept(c));
    Reaches(env, s, RegisterGet(c));
    s := Apply(env, s, RegisterGet(c));
    Reaches(env, s, RegisterCheck);
    s := Apply(env, s, RegisterCheck);
    Reaches(env, s, RegisterSet);
    assert [] + [c] == [c];
    assert Apply(env, s, RegisterSet) == LoggedIn(c);
  }

  /** Two logins on a platform the policy does not protect stay side by side. */
  lemma TwoConnections(env: Env, p: int) returns (s: State)
    requires !Kicks(env, p)
    ensures Reachable(env, s) && |OnPlatform(Of(s.m, "u"), p)| == 2
    ensures Of(s.m, "u") == [Client(1, "u", p, "a1", "t1"), Client(2, "u", p, "a2", "t2")]
  {
    var c, d := Client(1, "u", p, "a1", "t1"), Client(2, "u", p, "a2", "t2");
    Login(env, c);
    s := LoggedIn(c);
    Reaches(env, s, Accept(d));
    s := Apply(env, s, Accept(d));
    Reaches(env, s, RegisterGet(d));
    s := Apply(env, s, RegisterGet(d));
    Reaches(env, s, RegisterCheck);
    s := Apply(env, s, RegisterCheck);
    Reaches(env, s, RegisterSet);
    s := Apply(env, s, RegisterSet);
    assert Of(s.m, "u") == [c, d];
    assert [c, d][..1] == [c] && [c][..0] == [];
    assert OnPlatform([c], p) == [c];
  }

  /** Over every run and any mix of registrations, closes and kicks from both sides, a user has
      at most one connection on a platform exactly when the policy kicks on that platform. */
  lemma OnePerPlatformIff(env: Env, p: int)
    ensures (forall s, u :: Reachable(env, s) ==> |OnPlatform(Of(s.m, u), p)| <= 1) <==> Kicks(env, p)
  {
    if Kicks(env, p) {
      forall s, u | Reachable(env, s)
        ensures |OnPlatform(Of(s.m, u), p)| <= 1
      {
        ReachableInv(env, s);
        AtMostOneCounted(Of(s.m, u), p);
      }
    } else {
      var s := TwoConnections(env, p);
      assert Reachable(env, s) && |OnPlatform(Of(s.m, "u"), p)| > 1;
    }
  }

  /** Two connections of one user on one platform. */
  predicate SideBySide(s: State, c: Client, d: Client, p: int) {
    c != d && c.userID == d.userID && c.platformID == d.platformID == p && c in Of(s.m, c.userID) && d in Of(s.m, d.userID)
  }

  ghost predicate NeverTwo(env: Env, p: int) {
    forall s: State, c: Client, d: Client :: Reachable(env, s) ==> !SideBySide(s, c, d, p)
  }

  lemma AtMostOneMeans(cs: seq<Client>, p: int, c: Client, d: Client)
    requires |OnPlatform(cs, p)| <= 1 && c in cs && d in cs && c.platformID == p && d.platformID == p
    ensures c == d
  {
    OnPlatformExact(cs, p);
    assert c in OnPlatform(cs, p) && d in OnPlatform(cs, p);
  }

  /** Policy by policy: two different connections of a user on one platform meet in no reachable
      state where a same-terminal login always kicks, nor on other platforms than PCs where PCs are
      spared; on PCs then, and anywhere under every other policy, they do. */
  lemma OnePerPlatformByPolicy(env: Env, p: int)
    ensures env.policy == AllLoginButSameTermKick ==> NeverTwo(env, p)
    ensures env.policy == PCAndOther ==> (NeverTwo(env, p) <==> !env.isPC(p))
    ensures env.policy == DefaultNotKick || env.policy.OtherPolicy? ==> !NeverTwo(env, p)
  {
    OnePerPlatformIff(env, p);
    if Kicks(env, p) {
      forall s: State, c: Client, d: Client | Reachable(env, s)
        ensures !SideBySide(s, c, d, p)
      {
        if SideBySide(s, c, d, p) {
          AtMostOneMeans(Of(s.m, c.userID), p, c, d);
        }
      }
    } else {
      var s, c, d := TwoOfThem(env, p);
      assert Reachable(env, s) && SideBySide(s, c, d, p);
    }
  }

  lemma TwoOfThem(env: Env, p: int) returns (s: State, c: Client, d: Client)
    requires !Kicks(env, p)
    ensures Reachable(env, s) && c in Of(s.m, "u") && d in Of(s.m, "u") && c != d
    ensures c.userID == d.userID == "u" && c.platformID == d.platformID == p
  {
    s := TwoConnections(env, p);
    c, d := Client(1, "u", p, "a1", "t1"), Client(2, "u", p, "a2", "t2");
    assert [c, d][0] == c && [c, d][1] == d;
  }

  lemma OnPlatformAppend(m: Index, c: Client, p: int)
    ensures OnPlatform(Of(Added(m, c), c.userID), p) == OnPlatform(Of(m, c.userID), p) + (if c.platformID == p then [c] else [])
  {
    assert (Of(m, c.userID) + [c])[..|Of(m, c.userID)|] == Of(m, c.userID);
  }

  /** Where the policy kicks, the newest login is the one that stays; other platforms of the
      user and other users are left alone by finishing it. */
  lemma NewLoginStays(env: Env, s: State, c: Client, u: string, p: int, cs: seq<Client>, cs': seq<Client>)
    requires Reachable(env, s) && s.loop.Checked? && c == s.loop.client
    requires cs == OnPlatform(Of(s.m, u), p) && cs' == OnPlatform(Of(Apply(env, s, RegisterSet).m, u), p)
    ensures
      if u != c.userID || p != c.platformID then cs' == cs
      else if Kicks(env, p) then cs' == [c]
      else cs' == cs + [c]
  {
    ReachableInv(env, s);
    assert Apply(env, s, RegisterSet).m == Added(s.m, c);
    NoneCounted(Of(s.m, c.userID), c.platformID);
    OnPlatformAppend(s.m, c, p);
  }

  // ---------- the connections listed ----------

  /** The index lists only registered, not yet unregistered connections; when no user meets one
      address twice it lists all of them that are neither closed nor kicked; and the connection
      counter counts them. */
  lemma RegistryOfReachable(env: Env, s: State, u: string, c: Client)
    requires Reachable(env, s)
    ensures c in Of(s.m, u) ==> c.userID == u && c in s.registered && c !in s.unregistered
    ensures DistinctAddrs(s) && c in s.registered && c !in s.closed && c !in s.kicked ==> c in Of(s.m, c.userID)
    ensures s.onlineUserConnNum == |s.registered - s.unregistered|
  {
    ReachableInv(env, s);
    assert s.registered == (s.registered - s.unregistered) + s.unregistered;
  }

  /** Everything posted has been handled and every kicked connection is closed. */
  ghost predicate Settled(s: State) {
    s.loop.Idle? && s.unregisterChan == [] && s.kicked <= s.closed
  }

  /** Once settled, the index holds exactly the open registered connections. */
  lemma SettledListsOpen(env: Env, s: State, c: Client)
    requires Reachable(env, s) && Settled(s) && DistinctAddrs(s)
    ensures c in Of(s.m, c.userID) <==> c in s.registered && c !in s.closed
    ensures s.onlineUserConnNum == |s.registered - s.closed|
  {
    ReachableInv(env, s);
    SettledMeansUnregistered(s);
    RegistryOfReachable(env, s, c.userID, c);
  }

  /** Every close has been handled by then. */
  lemma SettledMeansUnregistered(s: State)
    requires SetsInv(s) && Settled(s)
    ensures s.closed == s.unregistered
  {
    assert forall x :: x in s.closed ==> x !in s.unregisterChan;
  }

  // ---------- the user counter ----------

  lemma SubsetSize<T>(a: set<T>, b: set<T>)
    requires a <= b
    ensures |a| <= |b|
  {
    assert b == a + (b - a);
  }

  /** The user counter never falls below the number of users; between events it exceeds it by
      exactly the kicks from outside a registration that removed the last connection of a user
      not just being registered. */
  lemma UserCounter(env: Env, s: State)
    requires Reachable(env, s)
    ensures s.onlineUserNum >= |s.m.Keys|
    ensures s.loop.Idle? ==> s.onlineUserNum == |s.m.Keys| + s.emptied
  {
    ReachableInv(env, s);
    SubsetSize(s.m.Keys, Counted(s.m, s.loop));
    if s.loop.Idle? {
      assert Counted(s.m, s.loop) == s.m.Keys;
    }
  }

  ghost predicate IsOutsideKick(step: Step) {
    step.KickUserConn? || step.RemoteCheck?
  }

  /** The excess never shrinks, and only kicks outside a registration make it grow. */
  lemma {:induction false} DriftOnlyGrows(env: Env, s: State, steps: seq<Step>)
    requires Run(env, s, steps) != []
    ensures Run(env, s, steps)[0].emptied >= s.emptied
    ensures (forall i :: 0 <= i < |steps| ==> !IsOutsideKick(steps[i])) ==> Run(env, s, steps)[0].emptied == s.emptied
    decreases |steps|
  {
    if steps != [] {
      DriftOnlyGrows(env, Apply(env, s, steps[0]), steps[1..]);
      assert forall i :: 0 <= i < |steps[1..]| ==> steps[1..][i] == steps[i + 1];
    }
  }

  /** In a run of registrations, closes and unregistrations the counter is the number of users
      whenever the loop is between events. */
  lemma CounterExactWithoutOutsideKicks(env: Env, steps: seq<Step>)
    requires Run(env, INIT, steps) != [] && Run(env, INIT, steps)[0].loop.Idle?
    requires forall i :: 0 <= i < |steps| ==> !IsOutsideKick(steps[i])
    ensures Run(env, INIT, steps)[0].onlineUserNum == |Run(env, INIT, steps)[0].m.Keys|
  {
    DriftOnlyGrows(env, INIT, steps);
    assert Run(env, INIT, steps) == [Run(env, INIT, steps)[0]];
    UserCounter(env, Run(env, INIT, steps)[0]);
  }

  /** Once the counter is off between events, it is off between events ever after. */
  lemma DriftIsPermanent(env: Env, s: State, steps: seq<Step>)
    requires Reachable(env, s) && s.loop.Idle? && s.onlineUserNum != |s.m.Keys|
    requires Run(env, s, steps) != []
    ensures Run(env, s, steps)[0].onlineUserNum > |Run(env, s, steps)[0].m.Keys|
  {
    var s' := Run(env, s, steps)[0];
    UserCounter(env, s);
    DriftOnlyGrows(env, s, steps);
    ReachableInv(env, s);
    RunKeepsInv(env, s, steps);
    SubsetSize(s'.m.Keys, Counted(s'.m, s'.loop));
  }

  /** One user, logged in and then kicked by an administrator: the index is empty, every event
      is handled, and the counter still says one. */
  lemma DriftHappens(env: Env) returns (s: State)
    ensures Reachable(env, s) && Settled(s) && s.m == map[] && s.onlineUserNum == 1 && s.onlineUserConnNum == 0
  {
    var c := Client(1, "u", 1, "a1", "t1");
    Login(env, c);
    s := LoggedIn(c);
    Reaches(env, s, KickUserConn(c));
    assert [c][..0] == [] && [c][0] == c && c.addr in Addrs([c]);
    assert Without([c], Addrs([c])) == [];
    s := Apply(env, s, KickUserConn(c));
    assert s.m == map[];
    Reaches(env, s, CloseKicked(c));
    s := Apply(env, s, CloseKicked(c));
    Reaches(env, s, Unregister);
    s := Apply(env, s, Unregister);
  }
}
