/** What the pipeline promises over whole runs. */
module PipelineTheorems {
  import opened Wrappers
  import opened Batches
  import opened ClaimBuffer
  import opened Distributor
  import opened Pipeline

  // ---------- order, at every moment ----------

  function Received(cfg: Config, s: State, key: string): seq<KafkaMsg> {
    if cfg.home(key) < |s.claims| then s.claims[cfg.home(key)].received else []
  }

  function Pending(cfg: Config, s: State, key: string): seq<KafkaMsg> {
    if cfg.home(key) < |s.claims|
    then Flatten(s.claims[cfg.home(key)].inflight) + s.claims[cfg.home(key)].buffer
    else []
  }

  /** In every reachable state, what a key's worker has taken, what waits in its queue, what
      the distribution centre holds, and what is still in chunks or in the buffer make up, in
      this order, exactly the non-empty decodable messages of the key received so far. */
  lemma KeyOrder(cfg: Config, s: State, key: string)
    requires Reachable(cfg, s)
    ensures |s.taken| == |s.queues| == CHANNEL_NUM
    ensures var w := ChannelOf(cfg.env, key);
            Payload(s.taken[w], key) + Payload(s.queues[w], key) + Grouped(s, key)
            + OfKey(cfg.env, Pending(cfg, s, key), key)
            == OfKey(cfg.env, NonEmpty(Received(cfg, s, key)), key)
  {
    ReachableInv(cfg, s);
    assert KeyInv(cfg, s, key);
    if cfg.home(key) < |s.claims| {
      assert ClaimInv(cfg, cfg.home(key), s.claims[cfg.home(key)]);
      ClaimParts(cfg, s.claims[cfg.home(key)], key);
    } else {
      NothingGrouped(OfKey(cfg.env, [], key));
    }
  }

  lemma ClaimParts(cfg: Config, c: Claim, key: string)
    requires c.handed + Flatten(c.inflight) + c.buffer == NonEmpty(c.received)
    ensures OfKey(cfg.env, c.handed, key) + OfKey(cfg.env, Flatten(c.inflight) + c.buffer, key)
            == OfKey(cfg.env, NonEmpty(c.received), key)
  {
    OfKeyConcat(cfg.env, c.handed, Flatten(c.inflight) + c.buffer, key);
    Assoc(c.handed, Flatten(c.inflight), c.buffer);
  }

  /** Each worker handles a key's messages in arrival order, without gaps and without
      repetition, and no other worker ever sees the key. */
  lemma WorkerSeesPrefix(cfg: Config, s: State, w: nat, key: string)
    requires Reachable(cfg, s) && w < CHANNEL_NUM
    ensures |s.taken| == CHANNEL_NUM
    ensures w == ChannelOf(cfg.env, key) ==> Payload(s.taken[w], key) <= OfKey(cfg.env, NonEmpty(Received(cfg, s, key)), key)
    ensures w != ChannelOf(cfg.env, key) ==> Payload(s.taken[w], key) == []
  {
    KeyOrder(cfg, s, key);
    ReachableInv(cfg, s);
    if w != ChannelOf(cfg.env, key) {
      NoPayload(s.taken[w], key);
    }
  }

  // ---------- the end of a run ----------

  /** Every ticker has returned and nothing is left to send or take. */
  ghost predicate Finished(s: State) {
    && (forall i :: 0 <= i < |s.claims| ==> s.claims[i].ticker.Exited?)
    && s.groups == map[]
    && (forall w :: 0 <= w < |s.queues| ==> s.queues[w] == [])
  }

  /** A claim whose ticker has returned handed over, in order, exactly the non-empty records
      received before the ticker's last look at the buffer; records received after that look
      stay in the buffer.  So nothing is left behind exactly when none arrived after it. */
  lemma ExitedClaim(cfg: Config, s: State, i: nat)
    requires Reachable(cfg, s) && i < |s.claims| && s.claims[i].ticker.Exited?
    ensures var c := s.claims[i];
            && c.ticker.at <= |c.received| && c.inflight == [] && !c.running
            && c.handed == NonEmpty(c.received[..c.ticker.at])
            && c.buffer == NonEmpty(c.received[c.ticker.at..])
            && (c.handed == NonEmpty(c.received) <==> NonEmpty(c.received[c.ticker.at..]) == [])
            && (multiset(c.handed) == multiset(NonEmpty(c.received)) <==> NonEmpty(c.received[c.ticker.at..]) == [])
  {
    ReachableInv(cfg, s);
    assert ClaimInv(cfg, i, s.claims[i]);
    ExitedParts(s.claims[i], s.claims[i].ticker.at);
  }

  lemma ExitedParts(c: Claim, at: nat)
    requires at <= |c.received| && c.inflight == [] && c.buffer == NonEmpty(c.received[at..])
    requires c.handed + Flatten(c.inflight) + c.buffer == NonEmpty(c.received)
    ensures c.handed == NonEmpty(c.received[..at])
    ensures c.handed == NonEmpty(c.received) <==> c.buffer == []
    ensures multiset(c.handed) == multiset(NonEmpty(c.received)) <==> c.buffer == []
  {
    var before, after := c.received[..at], c.received[at..];
    assert c.received == before + after;
    NonEmptyConcat(before, after);
    assert c.handed + [] == c.handed;
    SameSuffix(c.handed, NonEmpty(before), NonEmpty(after));
  }

  lemma SameSuffix<T>(h: seq<T>, a: seq<T>, b: seq<T>)
    requires h + b == a + b
    ensures h == a
    ensures h == a + b <==> b == []
    ensures multiset(h) == multiset(a + b) <==> b == []
  {
    assert |h + b| == |a + b|;
    assert h == (h + b)[..|h|] && a == (a + b)[..|a|];
    assert |multiset(h)| == |h| && |multiset(a + b)| == |a| + |b|;
    if b == [] {
      assert a + b == a;
    }
  }

  /** When everything has finished, a key's worker has taken exactly the key's decodable
      messages received before the last look of the key's ticker, in order. */
  lemma FinishedDelivers(cfg: Config, s: State, key: string)
    requires Reachable(cfg, s) && Finished(s) && cfg.home(key) < |s.claims|
    ensures |s.taken| == CHANNEL_NUM
    ensures var c := s.claims[cfg.home(key)];
            && c.ticker.at <= |c.received|
            && Payload(s.taken[ChannelOf(cfg.env, key)], key) == OfKey(cfg.env, NonEmpty(c.received[..c.ticker.at]), key)
  {
    ReachableInv(cfg, s);
    ExitedClaim(cfg, s, cfg.home(key));
    assert KeyInv(cfg, s, key);
  }

  /** One claim, and nothing anywhere else. */
  function OneClaim(c: Claim): State {
    Init(1).(claims := [c])
  }

  lemma OneClaimStep(cfg: Config, c: Claim, step: Step, c': Claim)
    requires Reachable(cfg, OneClaim(c)) && Enabled(cfg, OneClaim(c), step)
    requires Apply(cfg, OneClaim(c), step).claims == [c']
    requires step.Receive? || step.Close? || step.Tick? || step.LoadRunning?
    ensures Reachable(cfg, OneClaim(c'))
  {
    Reaches(cfg, OneClaim(c), step);
    assert Apply(cfg, OneClaim(c), step) == OneClaim(c');
  }

  /** The two unlocked reads can lose a message: it arrives after the ticker found the buffer
      empty, and the claim closes before the ticker reads the running flag. */
  lemma LastLookRace(env: Env) returns (cfg: Config, s: State)
    ensures cfg.env == env && Reachable(cfg, s) && Finished(s) && |s.claims| == 1
    ensures s.claims[0].handed == [] && NonEmpty(s.claims[0].received) == [KafkaMsg("k", "v", [])]
  {
    var m := KafkaMsg("k", "v", []);
    cfg := Config(env, (k: string) => 0);
    var c0 := Claim([], [], [], [], true, Waiting);
    assert Run(cfg, Init(1), []) == Some(Init(1)) && Init(1) == OneClaim(c0);
    var c1 := c0.(ticker := SawEmpty(0));
    OneClaimStep(cfg, c0, Tick(0), c1);
    NonEmptyAppend([], m);
    assert [] + [m] == [m] && [] + NonEmpty([m]) == [m];
    var c2 := c1.(received := [m], buffer := [m]);
    OneClaimStep(cfg, c1, Receive(0, m), c2);
    var c3 := c2.(running := false);
    OneClaimStep(cfg, c2, Close(0), c3);
    var c4 := c3.(ticker := Exited(0));
    OneClaimStep(cfg, c3, LoadRunning(0), c4);
    s := OneClaim(c4);
  }

  lemma {:induction false} RunOf(cfg: Config, s: State, a: seq<Step>, step: Step, s1: State)
    requires Run(cfg, s, a) == Some(s1) && Enabled(cfg, s1, step)
    ensures Run(cfg, s, a + [step]) == Some(Apply(cfg, s1, step))
    decreases |a|
  {
    if a == [] {
      assert [step][1..] == [];
    } else {
      assert (a + [step])[0] == a[0] && (a + [step])[1..] == a[1..] + [step];
      RunOf(cfg, Apply(cfg, s, a[0]), a[1..], step, s1);
    }
  }

  lemma Reaches(cfg: Config, s: State, step: Step)
    requires Reachable(cfg, s) && Enabled(cfg, s, step)
    ensures Reachable(cfg, Apply(cfg, s, step))
  {
    var n: nat, steps: seq<Step> :| Run(cfg, Init(n), steps) == Some(s);
    RunOf(cfg, Init(n), steps, step, s);
  }

  // ---------- which schedules lose nothing ----------

  /** No non-empty record arrives at a claim between a look that finds its buffer empty and the
      read of the running flag that follows. */
  ghost predicate QuietLooks(cfg: Config, s: State, steps: seq<Step>)
    decreases |steps|
  {
    steps != [] && Enabled(cfg, s, steps[0]) ==>
      && (steps[0].Receive? && steps[0].m.value != "" ==> !s.claims[steps[0].c].ticker.SawEmpty?)
      && QuietLooks(cfg, Apply(cfg, s, steps[0]), steps[1..])
  }

  /** The two reads of a look that finds the buffer empty stand next to each other. */
  ghost predicate JoinedLooks(cfg: Config, s: State, steps: seq<Step>)
    decreases |steps|
  {
    steps != [] && Enabled(cfg, s, steps[0]) ==>
      && (steps[0].Tick? && s.claims[steps[0].c].buffer == [] && |steps| > 1 ==> steps[1] == LoadRunning(steps[0].c))
      && JoinedLooks(cfg, Apply(cfg, s, steps[0]), steps[1..])
  }

  /** Every look under way is about to be finished. */
  ghost predicate LookNext(s: State, steps: seq<Step>) {
    forall c :: 0 <= c < |s.claims| && s.claims[c].ticker.SawEmpty? && steps != [] ==> steps[0] == LoadRunning(c)
  }

  /** Joining the two reads is one way to keep looks quiet. */
  lemma {:induction false} JoinedIsQuiet(cfg: Config, s: State, steps: seq<Step>)
    requires JoinedLooks(cfg, s, steps) && LookNext(s, steps)
    ensures QuietLooks(cfg, s, steps)
    decreases |steps|
  {
    if steps != [] && Enabled(cfg, s, steps[0]) {
      var s' := Apply(cfg, s, steps[0]);
      forall c | 0 <= c < |s'.claims| && s'.claims[c].ticker.SawEmpty? && steps[1..] != []
        ensures steps[1..][0] == LoadRunning(c)
      {
        assert s'.claims[c].ticker == s.claims[c].ticker || steps[0] == Tick(c) || steps[0] == LoadRunning(c);
      }
      JoinedIsQuiet(cfg, s', steps[1..]);
    }
  }

  /** A look that finds the buffer empty leaves it empty. */
  ghost predicate LookEmpty(c: Claim) {
    !c.ticker.Waiting? ==> c.buffer == [] && (c.ticker.Exited? ==> !c.running)
  }

  ghost predicate LooksEmpty(s: State) {
    forall i :: 0 <= i < |s.claims| ==> LookEmpty(s.claims[i])
  }

  lemma QuietReceive(c: Claim, m: KafkaMsg)
    requires LookEmpty(c) && c.running && (m.value != "" ==> !c.ticker.SawEmpty?)
    ensures LookEmpty(c.(received := c.received + [m], buffer := c.buffer + NonEmpty([m])))
  {
    NonEmptyAppend([], m);
  }

  /** The claim a step acts on, if any; the others stay as they are. */
  lemma OthersStay(cfg: Config, s: State, step: Step, i: nat)
    requires Enabled(cfg, s, step) && i < |s.claims|
    requires step.SendGroup? || step.Take? || step.c != i
    ensures |Apply(cfg, s, step).claims| == |s.claims| && Apply(cfg, s, step).claims[i] == s.claims[i]
  {
  }

  lemma QuietClaim(cfg: Config, s: State, step: Step)
    requires LooksEmpty(s) && Enabled(cfg, s, step) && !step.SendGroup? && !step.Take?
    requires step.Receive? && step.m.value != "" ==> !s.claims[step.c].ticker.SawEmpty?
    ensures |Apply(cfg, s, step).claims| == |s.claims| && LookEmpty(Apply(cfg, s, step).claims[step.c])
  {
    assert LookEmpty(s.claims[step.c]);
    if step.Receive? {
      QuietReceive(s.claims[step.c], step.m);
    }
  }

  lemma QuietStep(cfg: Config, s: State, step: Step)
    requires LooksEmpty(s) && Enabled(cfg, s, step)
    requires step.Receive? && step.m.value != "" ==> !s.claims[step.c].ticker.SawEmpty?
    ensures LooksEmpty(Apply(cfg, s, step))
  {
    var s' := Apply(cfg, s, step);
    forall i | 0 <= i < |s'.claims|
      ensures LookEmpty(s'.claims[i])
    {
      if step.SendGroup? || step.Take? || step.c != i {
        assert |s'.claims| == |s.claims|;
        OthersStay(cfg, s, step, i);
      } else {
        QuietClaim(cfg, s, step);
      }
    }
  }

  lemma {:induction false} QuietRun(cfg: Config, s: State, steps: seq<Step>)
    requires LooksEmpty(s) && QuietLooks(cfg, s, steps) && Run(cfg, s, steps).Some?
    ensures LooksEmpty(Run(cfg, s, steps).value)
    decreases |steps|
  {
    if steps != [] {
      QuietStep(cfg, s, steps[0]);
      QuietRun(cfg, Apply(cfg, s, steps[0]), steps[1..]);
    }
  }

  /** In every run whose looks are quiet, a claim whose ticker has returned handed over, in order,
      exactly the non-empty records it received, and its buffer is empty. */
  lemma QuietRunLosesNothing(cfg: Config, n: nat, steps: seq<Step>, i: nat)
    requires QuietLooks(cfg, Init(n), steps) && Run(cfg, Init(n), steps).Some?
    requires i < |Run(cfg, Init(n), steps).value.claims| && Run(cfg, Init(n), steps).value.claims[i].ticker.Exited?
    ensures var c := Run(cfg, Init(n), steps).value.claims[i];
            c.handed == NonEmpty(c.received) && c.buffer == []
  {
    var s := Run(cfg, Init(n), steps).value;
    QuietRun(cfg, Init(n), steps);
    assert Reachable(cfg, s);
    ExitedClaim(cfg, s, i);
  }

  /** In particular when looking at the buffer and at the flag is one step. */
  lemma JoinedLooksLoseNothing(cfg: Config, n: nat, steps: seq<Step>, i: nat)
    requires JoinedLooks(cfg, Init(n), steps) && Run(cfg, Init(n), steps).Some?
    requires i < |Run(cfg, Init(n), steps).value.claims| && Run(cfg, Init(n), steps).value.claims[i].ticker.Exited?
    ensures var c := Run(cfg, Init(n), steps).value.claims[i];
            c.handed == NonEmpty(c.received) && c.buffer == []
  {
    JoinedIsQuiet(cfg, Init(n), steps);
    QuietRunLosesNothing(cfg, n, steps, i);
  }

  // ---------- draining ----------

  ghost predicate Closed(s: State) {
    forall i :: 0 <= i < |s.claims| ==> !s.claims[i].running
  }

  function ClaimWork(c: Claim): nat {
    match c.ticker
    case Exited(_) => 0
    case SawEmpty(_) => 1 + 4 * |c.buffer| + 3 * |Flatten(c.inflight)|
    case Waiting => 2 + 4 * |c.buffer| + 3 * |Flatten(c.inflight)|
  }

  function ClaimsWork(cs: seq<Claim>): nat {
    if cs == [] then 0 else ClaimWork(cs[0]) + ClaimsWork(cs[1..])
  }

  function QueuedWork(qs: seq<seq<Cmd>>): nat {
    if qs == [] then 0 else |qs[0]| + QueuedWork(qs[1..])
  }

  /** How many steps are left at most once the claims are closed. */
  function Work(s: State): nat {
    ClaimsWork(s.claims) + 2 * |s.groups| + QueuedWork(s.queues)
  }

  lemma {:induction false} ClaimsWorkUpdate(cs: seq<Claim>, i: nat, c: Claim)
    requires i < |cs|
    ensures ClaimsWork(cs[i := c]) + ClaimWork(cs[i]) == ClaimsWork(cs) + ClaimWork(c)
  {
    if i == 0 {
      assert cs[i := c][1..] == cs[1..];
    } else {
      assert cs[i := c][1..] == cs[1..][i - 1 := c];
      ClaimsWorkUpdate(cs[1..], i - 1, c);
    }
  }

  lemma {:induction false} QueuedWorkUpdate(qs: seq<seq<Cmd>>, i: nat, q: seq<Cmd>)
    requires i < |qs|
    ensures QueuedWork(qs[i := q]) + |qs[i]| == QueuedWork(qs) + |q|
  {
    if i == 0 {
      assert qs[i := q][1..] == qs[1..];
    } else {
      assert qs[i := q][1..] == qs[1..][i - 1 := q];
      QueuedWorkUpdate(qs[1..], i - 1, q);
    }
  }

  lemma {:induction false} FewGroups(env: Env, batch: seq<KafkaMsg>)
    ensures |Groups(env, batch)| <= |batch|
  {
    assert Groups(env, batch).Keys == KeysOf(env, batch);
    if batch != [] {
      var rest, last := batch[..|batch| - 1], batch[|batch| - 1];
      assert batch == rest + [last];
      KeysStep(env, rest, last);
      FewGroups(env, rest);
      assert Groups(env, rest).Keys == KeysOf(env, rest);
    }
  }

  lemma TickWorks(c: Claim)
    requires c.ticker == Waiting && c.inflight == []
    ensures ClaimWork(TickClaim(c)) < ClaimWork(c)
  {
    ChunksProperties(c.buffer);
  }

  lemma SendChunkWorks(cfg: Config, i: nat, c: Claim, c': Claim)
    requires ClaimInv(cfg, i, c) && c.inflight != []
    requires c' == c.(handed := c.handed + c.inflight[0], inflight := c.inflight[1..])
    ensures ClaimWork(c') + 2 * |Groups(cfg.env, c.inflight[0])| < ClaimWork(c)
  {
    FewGroups(cfg.env, c.inflight[0]);
    assert Flatten(c.inflight) == c.inflight[0] + Flatten(c.inflight[1..]);
  }

  lemma SendGroupWorks(cfg: Config, s: State, k: string)
    requires Enabled(cfg, s, SendGroup(k))
    ensures Work(Apply(cfg, s, SendGroup(k))) < Work(s)
  {
    var w, s' := ChannelOf(cfg.env, k), Apply(cfg, s, SendGroup(k));
    QueuedWorkUpdate(s.queues, w, s'.queues[w]);
    assert |s.groups| == |s.groups.Keys| && s'.groups.Keys == s.groups.Keys - {k};
    assert |s'.groups| == |s'.groups.Keys|;
  }

  lemma TakeWorks(cfg: Config, s: State, w: nat)
    requires Enabled(cfg, s, Take(w))
    ensures Work(Apply(cfg, s, Take(w))) < Work(s)
  {
    QueuedWorkUpdate(s.queues, w, s.queues[w][1..]);
  }

  lemma ClaimStepWorks(cfg: Config, s: State, step: Step, c: nat)
    requires Inv(cfg, s) && Closed(s) && Enabled(cfg, s, step)
    requires step == Tick(c) || step == LoadRunning(c) || step == SendChunk(c)
    ensures Work(Apply(cfg, s, step)) < Work(s)
  {
    var cl, s' := s.claims[c], Apply(cfg, s, step);
    assert ClaimInv(cfg, c, cl);
    ClaimsWorkUpdate(s.claims, c, s'.claims[c]);
    match step
    case Tick(_) => TickWorks(cl);
    case SendChunk(_) => SendChunkWorks(cfg, c, cl, s'.claims[c]);
    case _ =>
  }

  /** Once the claims are closed every step brings the end nearer. */
  lemma ClosedStepWorks(cfg: Config, s: State, step: Step)
    requires Inv(cfg, s) && Closed(s) && Enabled(cfg, s, step)
    ensures Closed(Apply(cfg, s, step)) && Work(Apply(cfg, s, step)) < Work(s)
  {
    match step
    case Tick(c) => ClaimStepWorks(cfg, s, step, c);
    case LoadRunning(c) => ClaimStepWorks(cfg, s, step, c);
    case SendChunk(c) => ClaimStepWorks(cfg, s, step, c);
    case SendGroup(k) => SendGroupWorks(cfg, s, k);
    case Take(w) => TakeWorks(cfg, s, w);
    case _ => assert false;
  }

  /** Bounded queues, an unbuffered channel and busy tickers never block one another for good:
      while something is unfinished, some step is enabled. */
  lemma ClosedProgress(cfg: Config, s: State)
    requires Inv(cfg, s) && Closed(s) && !Finished(s)
    ensures exists step :: Enabled(cfg, s, step)
  {
    if w :| 0 <= w < |s.queues| && s.queues[w] != [] {
      assert Enabled(cfg, s, Take(w));
    } else if s.groups != map[] {
      var k :| k in s.groups;
      assert Enabled(cfg, s, SendGroup(k));
    } else {
      var i :| 0 <= i < |s.claims| && !s.claims[i].ticker.Exited?;
      assert ClaimInv(cfg, i, s.claims[i]);
      if s.claims[i].inflight != [] {
        assert Enabled(cfg, s, SendChunk(i));
      } else if s.claims[i].ticker.SawEmpty? {
        assert Enabled(cfg, s, LoadRunning(i));
      } else {
        assert Enabled(cfg, s, Tick(i));
      }
    }
  }

  /** From any reachable state whose claims are closed, every run is at most Work(s) steps
      long, and a run that cannot be continued has finished. */
  lemma {:induction false} DrainTerminates(cfg: Config, s: State, steps: seq<Step>)
    requires Inv(cfg, s) && Closed(s) && Run(cfg, s, steps).Some?
    ensures |steps| <= Work(s)
    ensures var end := Run(cfg, s, steps).value;
            (forall step :: !Enabled(cfg, end, step)) ==> Finished(end)
    decreases |steps|
  {
    if steps == [] {
      if !Finished(s) {
        ClosedProgress(cfg, s);
      }
    } else {
      ClosedStepWorks(cfg, s, steps[0]);
      StepKeepsInv(cfg, s, steps[0]);
      DrainTerminates(cfg, Apply(cfg, s, steps[0]), steps[1..]);
    }
  }
}
