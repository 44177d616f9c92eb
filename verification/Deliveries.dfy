/** Which records a worker's messages come from, position by position: every record at most once,
  as it was decoded, and none that it should not. */
module Deliveries {
  import opened Wrappers
  import opened Positions
  import opened Batches
  import opened Pipeline
  import opened PipelineTheorems

  /** The list holds, in order, the decoded records at these positions, each with its own headers. */
  ghost predicate Holds(env: Env, records: seq<KafkaMsg>, from: seq<nat>, list: seq<ContextMsg>) {
    && |from| == |list| && Increasing(from)
    && (forall i :: i in from ==> i < |records| && env.decode(records[i].value).Some?)
    && (forall j :: 0 <= j < |from| ==>
          (from[j] in from && list[j].message == env.decode(records[from[j]].value).value && list[j].ctx == records[from[j]].headers))
  }

  predicate Decodes(env: Env, records: seq<KafkaMsg>, i: nat) {
    i < |records| && env.decode(records[i].value).Some?
  }

  lemma HoldsStep(env: Env, rest: seq<KafkaMsg>, last: KafkaMsg, list: seq<ContextMsg>, added: seq<ContextMsg>, before: seq<nat>)
    returns (from: seq<nat>)
    requires Holds(env, rest, before, list)
    requires added == [] || (env.decode(last.value).Some? && added == [ContextMsg(env.decode(last.value).value, last.headers)])
    ensures Holds(env, rest + [last], from, list + added)
    ensures forall i :: i in from <==> i in before || (added != [] && i == |rest|)
  {
    from := OnePositionMore(before, |rest|, added != []);
    var records := rest + [last];
    forall i | i in from
      ensures i < |records| && env.decode(records[i].value).Some?
    {
      if i in before {
        assert records[i] == rest[i];
      } else {
        assert records[i] == last;
      }
    }
    forall j | 0 <= j < |from|
      ensures (list + added)[j] == ContextMsg(env.decode(records[from[j]].value).value, records[from[j]].headers)
    {
      if j < |before| {
        assert from[j] == before[j] && before[j] in before;
        assert records[from[j]] == rest[before[j]] && (list + added)[j] == list[j];
      } else {
        assert records[from[j]] == last;
      }
    }
  }

  /** The decodable messages of a batch are its decodable records, each once, in order. */
  lemma {:induction false} DecodedAllHolds(env: Env, records: seq<KafkaMsg>) returns (from: seq<nat>)
    ensures Holds(env, records, from, DecodedAll(env, records))
    ensures forall i: nat :: i in from <==> Decodes(env, records, i)
  {
    if records == [] {
      from := [];
    } else {
      var rest, last := records[..|records| - 1], records[|records| - 1];
      assert records == rest + [last];
      var before := DecodedAllHolds(env, rest);
      from := HoldsStep(env, rest, last, DecodedAll(env, rest), Decoded(env, last), before);
    }
  }

  /** A group is made of exactly the decodable records of its key, each once, in order. */
  lemma {:induction false} OfKeyHolds(env: Env, records: seq<KafkaMsg>, key: string) returns (from: seq<nat>)
    ensures Holds(env, records, from, OfKey(env, records, key))
    ensures forall i: nat :: i in from <==> Decodes(env, records, i) && records[i].key == key
  {
    if records == [] {
      from := [];
    } else {
      var rest, last := records[..|records| - 1], records[|records| - 1];
      assert records == rest + [last];
      var before := OfKeyHolds(env, rest, key);
      from := HoldsStep(env, rest, last, OfKey(env, rest, key), if last.key == key then Decoded(env, last) else [], before);
    }
  }

  /** The records of a key that are to reach its worker. */
  predicate Due(env: Env, records: seq<KafkaMsg>, key: string, i: nat) {
    Decodes(env, records, i) && records[i].key == key && records[i].value != ""
  }

  lemma KeptOfKey(env: Env, rest: seq<KafkaMsg>, last: KafkaMsg, key: string)
    ensures OfKey(env, NonEmpty(rest + [last]), key)
            == OfKey(env, NonEmpty(rest), key) + (if last.value != "" && last.key == key then Decoded(env, last) else [])
  {
    NonEmptyAppend(rest, last);
    if last.value != "" {
      OfKeyAppend(env, NonEmpty(rest), last, key);
    } else {
      assert NonEmpty(rest) + [] == NonEmpty(rest);
    }
  }

  /** What of the records received counts for a key: the non-empty decodable ones of the key. */
  lemma {:induction false} ReceivedHolds(env: Env, records: seq<KafkaMsg>, key: string) returns (from: seq<nat>)
    ensures Holds(env, records, from, OfKey(env, NonEmpty(records), key))
    ensures forall i: nat :: i in from <==> Due(env, records, key, i)
  {
    if records == [] {
      from := [];
    } else {
      var rest, last := records[..|records| - 1], records[|records| - 1];
      assert records == rest + [last];
      var before := ReceivedHolds(env, rest, key);
      var added := if last.value != "" && last.key == key then Decoded(env, last) else [];
      KeptOfKey(env, rest, last, key);
      from := HoldsStep(env, rest, last, OfKey(env, NonEmpty(rest), key), added, before);
      forall i: nat
        ensures i in from <==> Due(env, records, key, i)
      {
        assert i < |rest| ==> records[i] == rest[i];
      }
    }
  }

  lemma HoldsPrefix(env: Env, records: seq<KafkaMsg>, from: seq<nat>, list: seq<ContextMsg>, part: seq<ContextMsg>)
    requires Holds(env, records, from, list) && part <= list
    ensures Holds(env, records, from[..|part|], part)
    ensures forall i, k :: i in from && k in from[..|part|] && i < k ==> i in from[..|part|]
  {
    var some := from[..|part|];
    assert forall j :: 0 <= j < |some| ==> some[j] == from[j] && part[j] == list[j];
    forall i, k | i in from && k in some && i < k
      ensures i in some
    {
      var a :| 0 <= a < |from| && from[a] == i;
      var b :| 0 <= b < |some| && some[b] == k;
      assert from[b] == k;
      assert a < b;
      assert some[a] == i;
    }
  }

  /** In every reachable state, the messages a key's worker has taken are decoded records of that
      key, as received, each once, in order of arrival and without a gap. */
  lemma WorkerHolds(cfg: Config, s: State, key: string) returns (from: seq<nat>)
    requires Reachable(cfg, s)
    ensures |s.taken| == CHANNEL_NUM
    ensures Holds(cfg.env, Received(cfg, s, key), from, Payload(s.taken[ChannelOf(cfg.env, key)], key))
    ensures forall i: nat :: i in from ==> Due(cfg.env, Received(cfg, s, key), key, i)
    ensures forall i: nat, k: nat ::
              k in from && i < k && Due(cfg.env, Received(cfg, s, key), key, i) ==> i in from
  {
    WorkerSeesPrefix(cfg, s, ChannelOf(cfg.env, key), key);
    var records := Received(cfg, s, key);
    var all := ReceivedHolds(cfg.env, records, key);
    var part := Payload(s.taken[ChannelOf(cfg.env, key)], key);
    HoldsPrefix(cfg.env, records, all, OfKey(cfg.env, NonEmpty(records), key), part);
    from := all[..|part|];
    assert forall i :: i in from ==> i in all;
  }

  /** When everything has finished, they are exactly those received before the last look of the
      key's ticker. */
  lemma FinishedHolds(cfg: Config, s: State, key: string) returns (from: seq<nat>)
    requires Reachable(cfg, s) && Finished(s) && cfg.home(key) < |s.claims|
    ensures |s.taken| == CHANNEL_NUM && s.claims[cfg.home(key)].ticker.Exited?
    ensures Holds(cfg.env, Received(cfg, s, key), from, Payload(s.taken[ChannelOf(cfg.env, key)], key))
    ensures forall i: nat :: i in from <==>
              i < s.claims[cfg.home(key)].ticker.at && Due(cfg.env, Received(cfg, s, key), key, i)
  {
    FinishedDelivers(cfg, s, key);
    var c := s.claims[cfg.home(key)];
    var early := c.received[..c.ticker.at];
    from := ReceivedHolds(cfg.env, early, key);
    assert forall i :: 0 <= i < |early| ==> early[i] == c.received[i];
    forall i: nat
      ensures i in from <==> i < c.ticker.at && Due(cfg.env, c.received, key, i)
    {
      assert i in from <==> Due(cfg.env, early, key, i);
    }
  }

  // ---------- what was received ----------

  /** The records the receiver of one claim took in a run, empty ones included. */
  function Arrivals(steps: seq<Step>, c: nat): seq<KafkaMsg> {
    if steps == [] then []
    else (if steps[0].Receive? && steps[0].c == c then [steps[0].m] else []) + Arrivals(steps[1..], c)
  }

  /** What a claim has received is what was given to it in the run, in that order. */
  lemma {:induction false} ReceivedIsHistory(cfg: Config, s: State, steps: seq<Step>, c: nat)
    requires Pipeline.Run(cfg, s, steps).Some? && c < |s.claims|
    ensures |Pipeline.Run(cfg, s, steps).value.claims| == |s.claims|
    ensures Pipeline.Run(cfg, s, steps).value.claims[c].received == s.claims[c].received + Arrivals(steps, c)
    decreases |steps|
  {
    if steps == [] {
      assert s.claims[c].received + [] == s.claims[c].received;
    } else {
      var s' := Apply(cfg, s, steps[0]);
      ReceivedIsHistory(cfg, s', steps[1..], c);
      var first := if steps[0].Receive? && steps[0].c == c then [steps[0].m] else [];
      assert s'.claims[c].received == s.claims[c].received + first;
      Assoc(s.claims[c].received, first, Arrivals(steps[1..], c));
    }
  }

  // ---------- commands ----------

  /** Keys share a worker exactly when their hashes agree modulo a hundred, and small hashes name
      their worker. */
  lemma SameWorkerIff(env: Env, a: string, b: string)
    ensures ChannelOf(env, a) == ChannelOf(env, b) <==> (env.hash(a) - env.hash(b)) % 100 == 0
    ensures env.hash(a) < 100 ==> ChannelOf(env, a) == env.hash(a)
  {
  }

  function Lists(q: seq<Cmd>): seq<seq<ContextMsg>> {
    seq(|q|, i requires 0 <= i < |q| => q[i].ctxMsgList)
  }

  /** A key's commands are exactly those that carry it, each once, in order. */
  lemma {:induction false} CmdsOfKeyHolds(q: seq<Cmd>, key: string) returns (from: seq<nat>)
    ensures Increasing(from) && |from| == |CmdsOfKey(q, key)|
    ensures forall i: nat :: i in from <==> i < |q| && q[i].uniqueKey == key
    ensures forall j :: 0 <= j < |from| ==> from[j] in from && CmdsOfKey(q, key)[j] == q[from[j]]
  {
    if q == [] {
      from := [];
    } else {
      var rest, last := q[..|q| - 1], q[|q| - 1];
      var before := CmdsOfKeyHolds(rest, key);
      from := OnePositionMore(before, |rest|, last.uniqueKey == key);
      forall j | 0 <= j < |from|
        ensures CmdsOfKey(q, key)[j] == q[from[j]]
      {
        assert j < |before| ==> from[j] == before[j] && before[j] in before && rest[before[j]] == q[before[j]];
      }
    }
  }

  /** What a queue holds of a key is what its commands of the key hold, one after the other. */
  lemma {:induction false} PayloadIsLists(q: seq<Cmd>, key: string)
    ensures Payload(q, key) == Flatten(Lists(CmdsOfKey(q, key)))
  {
    if q != [] {
      var rest, last := q[..|q| - 1], q[|q| - 1];
      PayloadIsLists(rest, key);
      if last.uniqueKey == key {
        var cmds := CmdsOfKey(rest, key);
        assert Lists(cmds + [last]) == Lists(cmds) + [last.ctxMsgList];
        FlattenConcat(Lists(cmds), [last.ctxMsgList]);
        assert Flatten([last.ctxMsgList]) == last.ctxMsgList + Flatten([]) == last.ctxMsgList;
      } else {
        assert CmdsOfKey(q, key) == CmdsOfKey(rest, key);
      }
    }
  }
}
