/** Pushing one message: what a gateway reports for its users (hub_server.go), how the replies of
  all gateways are merged, and who is pushed to offline (push_to_client.go). */
module Push {

  const IOS := 1
  const ANDROID := 2

  datatype Code = Sent | PushMsgErr | IOSBackgroundPushErr

  /** A connection as one push meets it. */
  datatype Conn = Conn(platformID: int, isBackground: bool, writeFails: bool)

  datatype PlatformResult = PlatformResult(platformID: int, code: Code)

  datatype UserResult = UserResult(userID: string, resp: seq<PlatformResult>, onlinePush: bool)

  /** A gateway, with the connections it holds by user. */
  datatype Gateway = Gateway(answers: bool, conns: map<string, seq<Conn>>)

  function ConnsOf(g: Gateway, u: string): seq<Conn> {
    if u in g.conns then g.conns[u] else []
  }

  // ---------- one gateway ----------

  predicate Tried(c: Conn) {
    !c.isBackground || c.platformID != IOS
  }

  /** The message went out to a terminal that shows it. */
  predicate Reached(c: Conn) {
    Tried(c) && !c.writeFails && (c.platformID == IOS || c.platformID == ANDROID)
  }

  predicate Reaches(cs: seq<Conn>) {
    exists c :: c in cs && Reached(c)
  }

  /** What is reported of each connection: nothing of a successful write to another terminal. */
  function Responses(cs: seq<Conn>): seq<PlatformResult> {
    if cs == [] then []
    else
      var c := cs[|cs| - 1];
      Responses(cs[..|cs| - 1]) +
      (if !Tried(c) then [PlatformResult(c.platformID, IOSBackgroundPushErr)]
       else if c.writeFails then [PlatformResult(c.platformID, PushMsgErr)]
       else if Reached(c) then [PlatformResult(c.platformID, Sent)]
       else [])
  }

  function ResultOf(g: Gateway, u: string): UserResult {
    UserResult(u, Responses(ConnsOf(g, u)), Reaches(ConnsOf(g, u)))
  }

  /** A user's push counts as successful exactly when some platform reports success. */
  lemma {:induction false} OnlinePushIffSent(cs: seq<Conn>)
    ensures Reaches(cs) <==> exists r :: r in Responses(cs) && r.code == Sent
  {
    if cs != [] {
      var rest, c := cs[..|cs| - 1], cs[|cs| - 1];
      OnlinePushIffSent(rest);
      assert cs == rest + [c];
      assert forall d :: d in cs <==> d in rest || d == c;
      if Reached(c) {
        assert PlatformResult(c.platformID, Sent) in Responses(cs);
      }
      assert forall r :: r in Responses(rest) ==> r in Responses(cs);
    }
  }

  /** What is reported of one connection.  An iOS terminal in the background is not written to;
      a failed write is an error whatever the terminal; a successful one counts as reached, and is
      reported, on iOS and Android only. */
  lemma OneConnection(c: Conn)
    ensures c.isBackground && c.platformID == IOS ==> Responses([c]) == [PlatformResult(IOS, IOSBackgroundPushErr)]
    ensures !(c.isBackground && c.platformID == IOS) && c.writeFails ==> Responses([c]) == [PlatformResult(c.platformID, PushMsgErr)]
    ensures c == Conn(IOS, false, false) ==> Responses([c]) == [PlatformResult(IOS, Sent)]
    ensures c.platformID == ANDROID && !c.writeFails ==> Responses([c]) == [PlatformResult(ANDROID, Sent)]
    ensures c.platformID != IOS && c.platformID != ANDROID && !c.writeFails ==> Responses([c]) == []
    ensures Reaches([c]) <==> c == Conn(IOS, false, false) || (c.platformID == ANDROID && !c.writeFails)
  {
    assert [c][..0] == [] && c in [c];
  }

  lemma {:induction false} ResponsesConcat(a: seq<Conn>, b: seq<Conn>)
    ensures Responses(a + b) == Responses(a) + Responses(b)
    ensures Reaches(a + b) <==> Reaches(a) || Reaches(b)
  {
    assert forall c :: c in a + b <==> c in a || c in b;
    if b == [] {
      assert a + b == a;
    } else {
      ResponsesConcat(a, b[..|b| - 1]);
      assert (a + b)[..|a + b| - 1] == a + b[..|b| - 1];
    }
  }

  function Batch(g: Gateway, users: seq<string>): (r: seq<UserResult>) {
    seq(|users|, i requires 0 <= i < |users| => ResultOf(g, users[i]))
  }

  lemma BatchStep(g: Gateway, users: seq<string>, u: string)
    ensures Batch(g, users + [u]) == Batch(g, users) + [ResultOf(g, u)]
  {
  }

  lemma BatchHas(g: Gateway, users: seq<string>, r: UserResult)
    ensures r in Batch(g, users) <==> exists u :: u in users && r == ResultOf(g, u)
  {
    if u :| u in users && r == ResultOf(g, u) {
      var i :| 0 <= i < |users| && users[i] == u;
      assert Batch(g, users)[i] == r;
    }
  }

  method SuperGroupOnlineBatchPushOneMsg(g: Gateway, users: seq<string>) returns (results: seq<UserResult>)
    ensures results == Batch(g, users)
  {
    results := [];
    for i := 0 to |users|
      invariant results == Batch(g, users)[..i]
    {
      var u := users[i];
      if u !in g.conns {
        assert Responses([]) == [];
        results := results + [UserResult(u, [], false)];
        continue;
      }
      var clients, resp, onlinePush := g.conns[u], [], false;
      for j := 0 to |clients|
        invariant resp == Responses(clients[..j])
        invariant onlinePush <==> Reaches(clients[..j])
      {
        var c := clients[j];
        assert clients[..j + 1] == clients[..j] + [c];
        assert clients[..j + 1][..j] == clients[..j];
        assert forall d :: d in clients[..j + 1] <==> d in clients[..j] || d == c;
        if !c.isBackground || (c.isBackground && c.platformID != IOS) {
          if c.writeFails {
            resp := resp + [PlatformResult(c.platformID, PushMsgErr)];
          } else if c.platformID in {IOS, ANDROID} {
            onlinePush := true;
            resp := resp + [PlatformResult(c.platformID, Sent)];
          }
        } else {
          resp := resp + [PlatformResult(c.platformID, IOSBackgroundPushErr)];
        }
      }
      assert clients[..|clients|] == clients;
      results := results + [UserResult(u, resp, onlinePush)];
    }
  }

  // ---------- all gateways ----------

  /** The replies appended in the order in which the gateways answered. */
  function Merged(answered: seq<Gateway>, users: seq<string>): seq<UserResult> {
    if answered == [] then []
    else Merged(answered[..|answered| - 1], users) + Batch(answered[|answered| - 1], users)
  }

  lemma MergedStep(answered: seq<Gateway>, g: Gateway, users: seq<string>)
    ensures Merged(answered + [g], users) == Merged(answered, users) + Batch(g, users)
  {
    assert (answered + [g])[..|answered|] == answered;
  }

  function Answering(gs: seq<Gateway>): seq<Gateway> {
    if gs == [] then []
    else Answering(gs[..|gs| - 1]) + (if gs[|gs| - 1].answers then [gs[|gs| - 1]] else [])
  }

  lemma {:induction false} AnsweringConcat(a: seq<Gateway>, b: seq<Gateway>)
    ensures Answering(a + b) == Answering(a) + Answering(b)
  {
    if b == [] {
      assert a + b == a;
    } else {
      AnsweringConcat(a, b[..|b| - 1]);
      assert (a + b)[..|a + b| - 1] == a + b[..|b| - 1];
    }
  }

  /** Every gateway that answers is heard as often as it was asked, and no other. */
  lemma {:induction false} AnsweringExact(gs: seq<Gateway>, g: Gateway)
    ensures multiset(Answering(gs))[g] == if g.answers then multiset(gs)[g] else 0
  {
    if gs != [] {
      var rest, last := gs[..|gs| - 1], gs[|gs| - 1];
      AnsweringExact(rest, g);
      assert gs == rest + [last];
      assert multiset(gs)[g] == multiset(rest)[g] + multiset([last])[g];
    }
  }

  lemma SplitAt<T>(s: seq<T>, i: nat)
    requires i < |s|
    ensures s == s[..i] + [s[i]] + s[i + 1..]
  {
  }

  lemma AnsweringOne(g: Gateway)
    ensures Answering([g]) == if g.answers then [g] else []
  {
    assert [g][..0] == [];
  }

  lemma AnsweringSplit(a: seq<Gateway>, g: Gateway, b: seq<Gateway>)
    ensures multiset(Answering(a + [g] + b)) == multiset(Answering(a + b)) + multiset(Answering([g]))
  {
    AnsweringConcat(a + [g], b);
    AnsweringConcat(a, [g]);
    AnsweringConcat(a, b);
  }

  lemma AnsweringWithout(gs: seq<Gateway>, i: nat)
    requires i < |gs|
    ensures multiset(Answering(gs)) == multiset(Answering(gs[..i] + gs[i + 1..])) + multiset(Answering([gs[i]]))
  {
    SplitAt(gs, i);
    AnsweringSplit(gs[..i], gs[i], gs[i + 1..]);
  }

  /** The gateways are asked at once and finish in any order; those that fail add nothing. */
  method GetConnsAndOnlinePush(gateways: seq<Gateway>, users: seq<string>)
    returns (wsResults: seq<UserResult>, ghost answered: seq<Gateway>)
    ensures wsResults == Merged(answered, users)
    ensures multiset(answered) == multiset(Answering(gateways))
  {
    wsResults, answered := [], [];
    var asked := gateways;
    while asked != []
      invariant wsResults == Merged(answered, users)
      invariant multiset(answered) + multiset(Answering(asked)) == multiset(Answering(gateways))
      decreases |asked|
    {
      var i :| 0 <= i < |asked|;
      var g, rest := asked[i], asked[..i] + asked[i + 1..];
      AnsweringWithout(asked, i);
      AnsweringOne(g);
      if g.answers {
        var reply := SuperGroupOnlineBatchPushOneMsg(g, users);
        wsResults := wsResults + reply;
        MergedStep(answered, g, users);
        answered := answered + [g];
      }
      asked := rest;
    }
  }

  // ---------- who is left ----------

  function Succeeded(rs: seq<UserResult>): set<string> {
    set r | r in rs && r.onlinePush && r.userID != "" :: r.userID
  }

  predicate Left(succeeded: set<string>, sender: string, u: string) {
    u !in succeeded && u != "" && u != sender
  }

  function Targets(rs: seq<UserResult>, succeeded: set<string>, sender: string): seq<string> {
    if rs == [] then []
    else
      var u := rs[|rs| - 1].userID;
      Targets(rs[..|rs| - 1], succeeded, sender) + (if Left(succeeded, sender, u) then [u] else [])
  }

  lemma TargetsStep(rs: seq<UserResult>, r: UserResult, succeeded: set<string>, sender: string)
    ensures Targets(rs + [r], succeeded, sender) ==
            Targets(rs, succeeded, sender) + (if Left(succeeded, sender, r.userID) then [r.userID] else [])
  {
    assert (rs + [r])[..|rs|] == rs;
  }

  lemma SucceededStep(rs: seq<UserResult>, r: UserResult)
    ensures Succeeded(rs + [r]) == Succeeded(rs) + (if r.onlinePush && r.userID != "" then {r.userID} else {})
  {
    assert forall q :: q in rs + [r] <==> q in rs || q == r;
  }

  /** Whom a push hands to the offline pusher. */
  function OfflineTargets(rs: seq<UserResult>, sender: string, isOfflinePush: bool): seq<string> {
    if isOfflinePush then Targets(rs, Succeeded(rs), sender) else []
  }

  method OnlineSucceeded(wsResults: seq<UserResult>) returns (onlineSucc: set<string>)
    ensures onlineSucc == Succeeded(wsResults)
  {
    onlineSucc := {};
    for i := 0 to |wsResults|
      invariant onlineSucc == Succeeded(wsResults[..i])
    {
      assert wsResults[..i + 1] == wsResults[..i] + [wsResults[i]];
      SucceededStep(wsResults[..i], wsResults[i]);
      if wsResults[i].onlinePush && wsResults[i].userID != "" {
        onlineSucc := onlineSucc + {wsResults[i].userID};
      }
    }
    assert wsResults[..|wsResults|] == wsResults;
  }

  method OfflineUsers(wsResults: seq<UserResult>, onlineSucc: set<string>, sender: string) returns (offline: seq<string>)
    ensures offline == Targets(wsResults, onlineSucc, sender)
  {
    offline := [];
    for i := 0 to |wsResults|
      invariant offline == Targets(wsResults[..i], onlineSucc, sender)
    {
      assert wsResults[..i + 1] == wsResults[..i] + [wsResults[i]];
      TargetsStep(wsResults[..i], wsResults[i], onlineSucc, sender);
      var u := wsResults[i].userID;
      if u !in onlineSucc && u != "" && u != sender {
        offline := offline + [u];
      }
    }
    assert wsResults[..|wsResults|] == wsResults;
  }

  method Push2User(gateways: seq<Gateway>, users: seq<string>, sender: string, isOfflinePush: bool)
    returns (offline: seq<string>, ghost answered: seq<Gateway>)
    ensures multiset(answered) == multiset(Answering(gateways))
    ensures offline == OfflineTargets(Merged(answered, users), sender, isOfflinePush)
  {
    var wsResults;
    wsResults, answered := GetConnsAndOnlinePush(gateways, users);
    offline := [];
    if !isOfflinePush || |wsResults| == 0 {
      return;
    }
    var onlineSucc := OnlineSucceeded(wsResults);
    offline := OfflineUsers(wsResults, onlineSucc, sender);
  }

  // ---------- what comes out ----------

  ghost predicate Online(answered: seq<Gateway>, u: string) {
    exists g :: g in answered && Reaches(ConnsOf(g, u))
  }

  lemma {:induction false} MergedHas(answered: seq<Gateway>, users: seq<string>, r: UserResult)
    ensures r in Merged(answered, users) <==> exists g :: g in answered && r in Batch(g, users)
  {
    if answered != [] {
      var rest, last := answered[..|answered| - 1], answered[|answered| - 1];
      MergedHas(rest, users, r);
      assert answered == rest + [last];
      assert forall g :: g in answered <==> g in rest || g == last;
    }
  }

  /** A user's push succeeded when some answering gateway reached a connection of it. */
  lemma SucceededExact(answered: seq<Gateway>, users: seq<string>, u: string)
    ensures u in Succeeded(Merged(answered, users)) <==> u != "" && u in users && Online(answered, u)
  {
    var rs := Merged(answered, users);
    if u in Succeeded(rs) {
      var r :| r in rs && r.onlinePush && r.userID == u;
      MergedHas(answered, users, r);
      var g :| g in answered && r in Batch(g, users);
      BatchHas(g, users, r);
    }
    if u != "" && u in users && Online(answered, u) {
      var g :| g in answered && Reaches(ConnsOf(g, u));
      BatchHas(g, users, ResultOf(g, u));
      MergedHas(answered, users, ResultOf(g, u));
    }
  }

  lemma {:induction false} TargetsConcat(a: seq<UserResult>, b: seq<UserResult>, succeeded: set<string>, sender: string)
    ensures Targets(a + b, succeeded, sender) == Targets(a, succeeded, sender) + Targets(b, succeeded, sender)
  {
    if b == [] {
      assert a + b == a;
    } else {
      var rest, last := b[..|b| - 1], b[|b| - 1];
      TargetsConcat(a, rest, succeeded, sender);
      assert b == rest + [last] && a + b == (a + rest) + [last];
      TargetsStep(rest, last, succeeded, sender);
      TargetsStep(a + rest, last, succeeded, sender);
    }
  }

  lemma CountOneMore(us: seq<string>, x: string, u: string)
    ensures multiset(us + [x])[u] == multiset(us)[u] + (if x == u then 1 else 0)
  {
  }

  lemma {:induction false} TargetsOfBatch(g: Gateway, users: seq<string>, succeeded: set<string>, sender: string, u: string)
    ensures multiset(Targets(Batch(g, users), succeeded, sender))[u] == if Left(succeeded, sender, u) then multiset(users)[u] else 0
  {
    if users != [] {
      var rest, last := users[..|users| - 1], users[|users| - 1];
      TargetsOfBatch(g, rest, succeeded, sender, u);
      assert users == rest + [last];
      BatchStep(g, rest, last);
      TargetsStep(Batch(g, rest), ResultOf(g, last), succeeded, sender);
      CountOneMore(rest, last, u);
      CountOneMore(Targets(Batch(g, rest), succeeded, sender), last, u);
    }
  }

  lemma {:induction false} TargetsOfMerged(answered: seq<Gateway>, users: seq<string>, succeeded: set<string>, sender: string, u: string)
    ensures multiset(Targets(Merged(answered, users), succeeded, sender))[u] ==
            if Left(succeeded, sender, u) then |answered| * multiset(users)[u] else 0
  {
    if answered != [] {
      var rest, last := answered[..|answered| - 1], answered[|answered| - 1];
      TargetsOfMerged(rest, users, succeeded, sender, u);
      TargetsConcat(Merged(rest, users), Batch(last, users), succeeded, sender);
      TargetsOfBatch(last, users, succeeded, sender, u);
      OneMore(|rest|, multiset(users)[u]);
    }
  }

  lemma OneMore(n: nat, k: nat)
    ensures (n + 1) * k == n * k + k
  {
  }

  /** Whatever order the gateways answer in: a user is pushed to offline exactly when it was
      asked for, is neither empty nor the sender, and no answering gateway reached it; and then
      once for every answering gateway and every time it was asked for. */
  lemma OfflinePushExact(answered: seq<Gateway>, users: seq<string>, sender: string, u: string)
    ensures multiset(OfflineTargets(Merged(answered, users), sender, true))[u] ==
            if u != "" && u != sender && !Online(answered, u) then |answered| * multiset(users)[u] else 0
    ensures OfflineTargets(Merged(answered, users), sender, false) == []
  {
    var rs := Merged(answered, users);
    TargetsOfMerged(answered, users, Succeeded(rs), sender, u);
    SucceededExact(answered, users, u);
  }

  /** The users reached online and those pushed to offline are disjoint, and together they cover
      every user asked for, but the empty one and the sender, once any gateway answers. */
  lemma OnlineOrOffline(answered: seq<Gateway>, users: seq<string>, sender: string, u: string)
    requires answered != []
    ensures var rs := Merged(answered, users);
      var offline := OfflineTargets(rs, sender, true);
      && !(u in Succeeded(rs) && u in offline)
      && (u in users && u != "" && u != sender ==> u in Succeeded(rs) || u in offline)
      && (u in offline ==> u in users && u != "" && u != sender)
  {
    OfflinePushExact(answered, users, sender, u);
    SucceededExact(answered, users, u);
    var offline := OfflineTargets(Merged(answered, users), sender, true);
    AtLeastOnce(|answered|, users, u);
    assert u in offline <==> multiset(offline)[u] > 0;
  }

  lemma AtLeastOnce(n: nat, users: seq<string>, u: string)
    requires n > 0
    ensures n * multiset(users)[u] > 0 <==> u in users
  {
    assert u in users <==> multiset(users)[u] > 0;
    if u in users {
      assert n * multiset(users)[u] >= n;
    }
  }

  /** The order of the answers does not matter to anybody. */
  lemma AnswerOrderIrrelevant(a: seq<Gateway>, b: seq<Gateway>, users: seq<string>, sender: string, isOfflinePush: bool)
    requires multiset(a) == multiset(b)
    ensures multiset(OfflineTargets(Merged(a, users), sender, isOfflinePush)) ==
            multiset(OfflineTargets(Merged(b, users), sender, isOfflinePush))
  {
    if isOfflinePush {
      assert |a| == |multiset(a)| == |multiset(b)| == |b|;
      assert forall g :: g in a <==> g in multiset(a);
      assert forall g :: g in b <==> g in multiset(b);
      var x, y := OfflineTargets(Merged(a, users), sender, true), OfflineTargets(Merged(b, users), sender, true);
      forall u
        ensures multiset(x)[u] == multiset(y)[u]
      {
        OfflinePushExact(a, users, sender, u);
        OfflinePushExact(b, users, sender, u);
        assert Online(a, u) <==> Online(b, u);
      }
    }
  }

  /** Offline pushes are free of duplicates exactly when at most one gateway answers, or no user
      is left, as long as nobody was asked for twice. */
  lemma OncePerAnswer(answered: seq<Gateway>, users: seq<string>, sender: string)
    requires forall u :: multiset(users)[u] <= 1
    ensures (forall u :: multiset(OfflineTargets(Merged(answered, users), sender, true))[u] <= 1) <==>
            |answered| <= 1 || forall u :: u in users ==> u == "" || u == sender || Online(answered, u)
  {
    var offline := OfflineTargets(Merged(answered, users), sender, true);
    if |answered| <= 1 || forall u :: u in users ==> u == "" || u == sender || Online(answered, u) {
      forall u
        ensures multiset(offline)[u] <= 1
      {
        OfflinePushExact(answered, users, sender, u);
        if |answered| <= 1 {
          AtMost(|answered|, multiset(users)[u]);
        } else if u !in users {
          assert u !in multiset(users);
        }
      }
    } else {
      var u :| u in users && u != "" && u != sender && !Online(answered, u);
      OfflinePushExact(answered, users, sender, u);
      Several(|answered|, users, u);
      assert multiset(offline)[u] > 1;
    }
  }

  lemma AtMost(n: nat, k: nat)
    requires n <= 1 && k <= 1
    ensures n * k <= 1
  {
    assert n == 0 || n == 1;
  }

  lemma Several(n: nat, users: seq<string>, u: string)
    requires n > 1 && u in users
    ensures n * multiset(users)[u] > 1
  {
    assert u in multiset(users);
    assert n * multiset(users)[u] >= n;
  }

  /** Two gateways answer, neither knows the user: it is pushed to offline twice. */
  lemma PushedTwice()
    ensures var g := Gateway(true, map[]);
      multiset(OfflineTargets(Merged([g, g], ["u"]), "s", true))["u"] == 2
  {
    var g := Gateway(true, map[]);
    assert !Reaches(ConnsOf(g, "u"));
    assert !Online([g, g], "u");
    OfflinePushExact([g, g], ["u"], "s", "u");
  }
}
