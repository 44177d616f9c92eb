/** The message pipeline as a protocol: any number of partition claims, each with a receiver
  and a ticker, one distribution centre without a buffer, and one hundred workers whose
  queues hold fifty commands.  Every interleaving of their steps is a run. */
module Pipeline {
  import opened Wrappers
  import opened Batches
  import opened ClaimBuffer
  import opened Distributor

  const QUEUE_CAP := 50

  /** The ticker looks at the buffer's length and at the running flag in two separate reads.
      `at` is how much had been received when it found the buffer empty. */
  datatype Ticker = Waiting | SawEmpty(at: nat) | Exited(at: nat)

  datatype Claim = Claim(
    received: seq<KafkaMsg>,       // every record taken from the claim so far
    buffer: seq<KafkaMsg>,
    inflight: seq<seq<KafkaMsg>>,  // chunks cut but not yet accepted by the distribution centre
    handed: seq<KafkaMsg>,         // records of the chunks accepted so far
    running: bool,
    ticker: Ticker)

  datatype State = State(
    claims: seq<Claim>,
    groups: map<string, seq<ContextMsg>>,  // groups the distribution centre still has to send
    queues: seq<seq<Cmd>>,
    taken: seq<seq<Cmd>>)                  // commands each worker has taken, in order

  /** `home` says on which claim a key arrives: the producer partitions by key. */
  datatype Config = Config(env: Env, home: string -> nat)

  datatype Step =
    | Receive(c: nat, m: KafkaMsg)
    | Close(c: nat)
    | Tick(c: nat)
    | LoadRunning(c: nat)
    | SendChunk(c: nat)
    | SendGroup(key: string)
    | Take(w: nat)

  function Init(claims: nat): State {
    State(seq(claims, _ => Claim([], [], [], [], true, Waiting)), map[],
          seq(CHANNEL_NUM, _ => []), seq(CHANNEL_NUM, _ => []))
  }

  predicate Enabled(cfg: Config, s: State, step: Step) {
    match step
    case Receive(c, m) => c < |s.claims| && s.claims[c].running && cfg.home(m.key) == c
    case Close(c) => c < |s.claims| && s.claims[c].running
    case Tick(c) => c < |s.claims| && s.claims[c].ticker == Waiting && s.claims[c].inflight == []
    case LoadRunning(c) => c < |s.claims| && s.claims[c].ticker.SawEmpty?
    case SendChunk(c) => c < |s.claims| && s.claims[c].inflight != [] && s.groups == map[]
    case SendGroup(key) =>
      var w := ChannelOf(cfg.env, key);
      key in s.groups && w < |s.queues| && |s.queues[w]| < QUEUE_CAP
    case Take(w) => w < |s.queues| && w < |s.taken| && s.queues[w] != []
  }

  function TickClaim(c: Claim): Claim {
    if c.buffer == [] then c.(ticker := SawEmpty(|c.received|))
    else c.(inflight := Chunks(c.buffer), buffer := [])
  }

  function Apply(cfg: Config, s: State, step: Step): State
    requires Enabled(cfg, s, step)
  {
    match step
    case Receive(c, m) =>
      var cl := s.claims[c];
      s.(claims := s.claims[c := cl.(received := cl.received + [m], buffer := cl.buffer + NonEmpty([m]))])
    case Close(c) => s.(claims := s.claims[c := s.claims[c].(running := false)])
    case Tick(c) => s.(claims := s.claims[c := TickClaim(s.claims[c])])
    case LoadRunning(c) =>
      var cl := s.claims[c];
      s.(claims := s.claims[c := cl.(ticker := if cl.running then Waiting else Exited(cl.ticker.at))])
    case SendChunk(c) =>
      var cl := s.claims[c];
      s.(claims := s.claims[c := cl.(handed := cl.handed + cl.inflight[0], inflight := cl.inflight[1..])],
         groups := Groups(cfg.env, cl.inflight[0]))
    case SendGroup(key) =>
      var w := ChannelOf(cfg.env, key);
      s.(queues := s.queues[w := s.queues[w] + [Cmd(key, s.groups[key])]], groups := s.groups - {key})
    case Take(w) =>
      s.(taken := s.taken[w := s.taken[w] + [s.queues[w][0]]], queues := s.queues[w := s.queues[w][1..]])
  }

  /** The state after a run, if every step was enabled when it was taken. */
  function Run(cfg: Config, s: State, steps: seq<Step>): Option<State>
    decreases |steps|
  {
    if steps == [] then Some(s)
    else if Enabled(cfg, s, steps[0]) then Run(cfg, Apply(cfg, s, steps[0]), steps[1..])
    else None
  }

  ghost predicate Reachable(cfg: Config, s: State) {
    exists n: nat, steps: seq<Step> :: Run(cfg, Init(n), steps) == Some(s)
  }

  // ---------- the invariant ----------

  /** One claim: nothing received is lost or reordered before the distribution centre. */
  ghost predicate ClaimInv(cfg: Config, i: nat, c: Claim) {
    && c.handed + Flatten(c.inflight) + c.buffer == NonEmpty(c.received)
    && (forall j :: 0 <= j < |c.inflight| ==> 1 <= |c.inflight[j]| <= SPLIT)
    && (forall m :: m in c.handed || m in Flatten(c.inflight) || m in c.buffer ==> cfg.home(m.key) == i)
    && (!c.ticker.Waiting? ==>
          c.ticker.at <= |c.received| && c.inflight == [] && c.buffer == NonEmpty(c.received[c.ticker.at..]))
    && (c.ticker.Exited? ==> !c.running)
  }

  ghost predicate Located(cfg: Config, queues: seq<seq<Cmd>>) {
    && |queues| == CHANNEL_NUM
    && forall w, cmd :: 0 <= w < CHANNEL_NUM && cmd in queues[w] ==> ChannelOf(cfg.env, cmd.uniqueKey) == w
  }

  function Handed(cfg: Config, s: State, key: string): seq<KafkaMsg> {
    if cfg.home(key) < |s.claims| then s.claims[cfg.home(key)].handed else []
  }

  function Grouped(s: State, key: string): seq<ContextMsg> {
    if key in s.groups then s.groups[key] else []
  }

  /** One key: what its worker took, what waits in the worker's queue and what the distribution
      centre still holds, in this order, are the key's messages handed over so far. */
  ghost predicate KeyInv(cfg: Config, s: State, key: string)
    requires |s.queues| == |s.taken| == CHANNEL_NUM
  {
    var w := ChannelOf(cfg.env, key);
    Payload(s.taken[w], key) + Payload(s.queues[w], key) + Grouped(s, key) == OfKey(cfg.env, Handed(cfg, s, key), key)
  }

  ghost predicate Inv(cfg: Config, s: State) {
    && Located(cfg, s.queues) && Located(cfg, s.taken)
    && (forall i :: 0 <= i < |s.claims| ==> ClaimInv(cfg, i, s.claims[i]))
    && (forall key :: KeyInv(cfg, s, key))
  }

  lemma InitInv(cfg: Config, n: nat)
    ensures Inv(cfg, Init(n))
  {
  }

  // ---------- preservation, step by step ----------

  lemma ReceiveKeepsClaim(cfg: Config, i: nat, c: Claim, m: KafkaMsg)
    requires ClaimInv(cfg, i, c) && cfg.home(m.key) == i && c.running
    ensures ClaimInv(cfg, i, c.(received := c.received + [m], buffer := c.buffer + NonEmpty([m])))
  {
    NonEmptyAppend(c.received, m);
    Assoc(c.handed + Flatten(c.inflight), c.buffer, NonEmpty([m]));
    if !c.ticker.Waiting? {
      SuffixAppend(c.received, c.ticker.at, m);
      NonEmptyAppend(c.received[c.ticker.at..], m);
    }
  }

  lemma SuffixAppend<T>(s: seq<T>, at: nat, x: T)
    requires at <= |s|
    ensures (s + [x])[at..] == s[at..] + [x]
  {
  }

  lemma EmptyTickKeepsClaim(cfg: Config, i: nat, c: Claim)
    requires ClaimInv(cfg, i, c) && c.ticker == Waiting && c.inflight == [] && c.buffer == []
    ensures ClaimInv(cfg, i, c.(ticker := SawEmpty(|c.received|)))
  {
    assert c.received[|c.received|..] == [];
  }

  lemma FullTickKeepsClaim(cfg: Config, i: nat, c: Claim)
    requires ClaimInv(cfg, i, c) && c.ticker == Waiting && c.inflight == []
    ensures ClaimInv(cfg, i, c.(inflight := Chunks(c.buffer), buffer := []))
  {
    ChunksProperties(c.buffer);
    NothingGrouped(c.handed);
    NothingGrouped(c.handed + c.buffer);
  }

  lemma TickKeepsClaim(cfg: Config, i: nat, c: Claim)
    requires ClaimInv(cfg, i, c) && c.ticker == Waiting && c.inflight == []
    ensures ClaimInv(cfg, i, TickClaim(c))
  {
    if c.buffer == [] {
      EmptyTickKeepsClaim(cfg, i, c);
    } else {
      FullTickKeepsClaim(cfg, i, c);
    }
  }

  lemma SendChunkKeepsClaim(cfg: Config, i: nat, c: Claim)
    requires ClaimInv(cfg, i, c) && c.inflight != []
    ensures ClaimInv(cfg, i, c.(handed := c.handed + c.inflight[0], inflight := c.inflight[1..]))
  {
    assert Flatten(c.inflight) == c.inflight[0] + Flatten(c.inflight[1..]);
    assert c.handed + Flatten(c.inflight) == c.handed + c.inflight[0] + Flatten(c.inflight[1..]);
  }

  lemma ForeignKey(env: Env, ms: seq<KafkaMsg>, key: string)
    requires forall m :: m in ms ==> m.key != key
    ensures key !in KeysOf(env, ms) && OfKey(env, ms, key) == []
  {
    OfKeyEmptyIff(env, ms, key);
  }

  ghost predicate Shaped(s: State) {
    |s.queues| == |s.taken| == CHANNEL_NUM
  }

  /** The chunk's own messages of a key become its group; other claims' keys have no group. */
  lemma ChunkGroup(cfg: Config, c: nat, handed: seq<KafkaMsg>, chunk: seq<KafkaMsg>, key: string)
    requires forall m :: m in chunk ==> cfg.home(m.key) == c
    ensures var groups := Groups(cfg.env, chunk);
            var group := if key in groups then groups[key] else [];
            if cfg.home(key) == c
            then OfKey(cfg.env, handed + chunk, key) == OfKey(cfg.env, handed, key) + group
            else group == []
  {
    OfKeyConcat(cfg.env, handed, chunk, key);
    OfKeyEmptyIff(cfg.env, chunk, key);
    if cfg.home(key) != c {
      ForeignKey(cfg.env, chunk, key);
    }
  }

  lemma SendChunkKeepsKey(cfg: Config, s: State, c: nat, key: string)
    requires Shaped(s) && KeyInv(cfg, s, key) && Enabled(cfg, s, SendChunk(c))
    requires forall m :: m in s.claims[c].inflight[0] ==> cfg.home(m.key) == c
    ensures KeyInv(cfg, Apply(cfg, s, SendChunk(c)), key)
  {
    var cl := s.claims[c];
    var s' := Apply(cfg, s, SendChunk(c));
    ChunkGroup(cfg, c, cl.handed, cl.inflight[0], key);
    assert Grouped(s, key) == [] && s'.queues == s.queues && s'.taken == s.taken;
    assert Handed(cfg, s', key) == if cfg.home(key) == c then cl.handed + cl.inflight[0] else Handed(cfg, s, key);
    NothingGrouped(Payload(s.taken[ChannelOf(cfg.env, key)], key) + Payload(s.queues[ChannelOf(cfg.env, key)], key));
  }

  lemma NothingGrouped<T>(a: seq<T>)
    ensures a + [] == a
  {
  }

  lemma GroupQueued<T>(a: seq<T>, b: seq<T>, c: seq<T>)
    ensures a + (b + c) + [] == a + b + c
  {
  }

  lemma SendGroupKeepsKey(cfg: Config, s: State, k: string, key: string)
    requires Shaped(s) && KeyInv(cfg, s, key) && Enabled(cfg, s, SendGroup(k))
    ensures KeyInv(cfg, Apply(cfg, s, SendGroup(k)), key)
  {
    if key == k {
      OwnGroupQueued(cfg, s, k);
    } else {
      OtherGroupQueued(cfg, s, k, key);
    }
  }

  lemma OwnGroupQueued(cfg: Config, s: State, k: string)
    requires Shaped(s) && KeyInv(cfg, s, k) && Enabled(cfg, s, SendGroup(k))
    ensures KeyInv(cfg, Apply(cfg, s, SendGroup(k)), k)
  {
    var w, s' := ChannelOf(cfg.env, k), Apply(cfg, s, SendGroup(k));
    PayloadAppend(s.queues[w], Cmd(k, s.groups[k]), k);
    assert Grouped(s', k) == [];
    GroupQueued(Payload(s.taken[w], k), Payload(s.queues[w], k), s.groups[k]);
  }

  lemma OtherGroupQueued(cfg: Config, s: State, k: string, key: string)
    requires Shaped(s) && KeyInv(cfg, s, key) && Enabled(cfg, s, SendGroup(k)) && key != k
    ensures KeyInv(cfg, Apply(cfg, s, SendGroup(k)), key)
  {
    var w, s' := ChannelOf(cfg.env, k), Apply(cfg, s, SendGroup(k));
    PayloadAppend(s.queues[w], Cmd(k, s.groups[k]), key);
    NothingGrouped(Payload(s.queues[w], key));
    assert Grouped(s', key) == Grouped(s, key);
  }

  lemma TakeKeepsKey(cfg: Config, s: State, w: nat, key: string)
    requires Shaped(s) && KeyInv(cfg, s, key) && Enabled(cfg, s, Take(w))
    ensures KeyInv(cfg, Apply(cfg, s, Take(w)), key)
  {
    if w == ChannelOf(cfg.env, key) {
      TakeMoves(s.taken[w], s.queues[w], key);
    }
  }

  lemma TakeMoves(taken: seq<Cmd>, q: seq<Cmd>, key: string)
    requires q != []
    ensures Payload(taken + [q[0]], key) + Payload(q[1..], key) == Payload(taken, key) + Payload(q, key)
  {
    assert q == [q[0]] + q[1..];
    PayloadConcat([q[0]], q[1..], key);
    PayloadConcat(taken, [q[0]], key);
  }

  lemma ChunkAtHome(cfg: Config, s: State, c: nat)
    requires Inv(cfg, s) && Enabled(cfg, s, SendChunk(c))
    ensures forall m :: m in s.claims[c].inflight[0] ==> cfg.home(m.key) == c
  {
    assert ClaimInv(cfg, c, s.claims[c]);
    assert Flatten(s.claims[c].inflight) == s.claims[c].inflight[0] + Flatten(s.claims[c].inflight[1..]);
  }

  lemma StepKeepsKeys(cfg: Config, s: State, step: Step)
    requires Inv(cfg, s) && Enabled(cfg, s, step)
    ensures var s' := Apply(cfg, s, step); Shaped(s') && forall key :: KeyInv(cfg, s', key)
  {
    var s' := Apply(cfg, s, step);
    assert Shaped(s');
    forall key
      ensures KeyInv(cfg, s', key)
    {
      assert KeyInv(cfg, s, key);
      match step
      case SendChunk(c) =>
        ChunkAtHome(cfg, s, c);
        SendChunkKeepsKey(cfg, s, c, key);
      case SendGroup(k) => SendGroupKeepsKey(cfg, s, k, key);
      case Take(w) => TakeKeepsKey(cfg, s, w, key);
      case _ => assert Handed(cfg, s', key) == Handed(cfg, s, key);
    }
  }

  /** Commands stay with the worker their key hashes to. */
  lemma StepKeepsLocated(cfg: Config, s: State, step: Step)
    requires Located(cfg, s.queues) && Located(cfg, s.taken) && Enabled(cfg, s, step)
    ensures var s' := Apply(cfg, s, step); Located(cfg, s'.queues) && Located(cfg, s'.taken)
  {
    if step.Take? {
      assert s.queues[step.w][0] in s.queues[step.w];
    }
  }

  lemma StepKeepsClaims(cfg: Config, s: State, step: Step)
    requires Inv(cfg, s) && Enabled(cfg, s, step)
    ensures var s' := Apply(cfg, s, step);
            forall i :: 0 <= i < |s'.claims| ==> ClaimInv(cfg, i, s'.claims[i])
  {
    match step
    case Receive(c, m) => ReceiveKeepsClaim(cfg, c, s.claims[c], m);
    case Tick(c) => TickKeepsClaim(cfg, c, s.claims[c]);
    case SendChunk(c) => SendChunkKeepsClaim(cfg, c, s.claims[c]);
    case _ =>
  }

  lemma StepKeepsInv(cfg: Config, s: State, step: Step)
    requires Inv(cfg, s) && Enabled(cfg, s, step)
    ensures Inv(cfg, Apply(cfg, s, step))
  {
    StepKeepsLocated(cfg, s, step);
    StepKeepsKeys(cfg, s, step);
    StepKeepsClaims(cfg, s, step);
  }

  lemma {:induction false} RunKeepsInv(cfg: Config, s: State, steps: seq<Step>)
    requires Inv(cfg, s) && Run(cfg, s, steps).Some?
    ensures Inv(cfg, Run(cfg, s, steps).value)
    decreases |steps|
  {
    if steps != [] {
      StepKeepsInv(cfg, s, steps[0]);
      RunKeepsInv(cfg, Apply(cfg, s, steps[0]), steps[1..]);
    }
  }

  lemma ReachableInv(cfg: Config, s: State)
    requires Reachable(cfg, s)
    ensures Inv(cfg, s)
  {
    var n: nat, steps: seq<Step> :| Run(cfg, Init(n), steps) == Some(s);
    InitInv(cfg, n);
    RunKeepsInv(cfg, Init(n), steps);
  }
}
