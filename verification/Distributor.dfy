/** The distribution centre (MessagesDistributionHandle): groups a chunk by key and sends
  each group to the worker its key hashes to. */
module Distributor {
  import opened Batches

  function KeysOf(env: Env, batch: seq<KafkaMsg>): set<string> {
    set i | 0 <= i < |batch| && env.decode(batch[i].value).Some? :: batch[i].key
  }

  /** One group per key with a decodable message: the order-preserving filter of the batch. */
  function Groups(env: Env, batch: seq<KafkaMsg>): map<string, seq<ContextMsg>> {
    map k | k in KeysOf(env, batch) :: OfKey(env, batch, k)
  }

  lemma {:induction false} OfKeyEmptyIff(env: Env, batch: seq<KafkaMsg>, key: string)
    ensures OfKey(env, batch, key) == [] <==> key !in KeysOf(env, batch)
  {
    if batch != [] {
      var rest := batch[..|batch| - 1];
      OfKeyEmptyIff(env, rest, key);
      KeysStep(env, rest, batch[|batch| - 1]);
      assert batch == rest + [batch[|batch| - 1]];
    }
  }

  lemma KeysStep(env: Env, rest: seq<KafkaMsg>, last: KafkaMsg)
    ensures KeysOf(env, rest + [last])
            == KeysOf(env, rest) + (if env.decode(last.value).Some? then {last.key} else {})
  {
    var batch := rest + [last];
    forall k | k in KeysOf(env, rest) + (if env.decode(last.value).Some? then {last.key} else {})
      ensures k in KeysOf(env, batch)
    {
      if k in KeysOf(env, rest) {
        var i :| 0 <= i < |rest| && env.decode(rest[i].value).Some? && rest[i].key == k;
        assert batch[i] == rest[i];
      } else {
        assert batch[|rest|] == last;
      }
    }
  }

  lemma GroupsStep(env: Env, rest: seq<KafkaMsg>, last: KafkaMsg)
    ensures Groups(env, rest + [last])
            == if env.decode(last.value).None? then Groups(env, rest)
               else Groups(env, rest)[last.key := OfKey(env, rest, last.key) + Decoded(env, last)]
  {
    KeysStep(env, rest, last);
    var g, h := Groups(env, rest), Groups(env, rest + [last]);
    if env.decode(last.value).None? {
      SameMap(h, g, env, rest, last);
    } else {
      OfKeyDecodable(env, rest, last, last.key);
      SameMap(h, g[last.key := OfKey(env, rest, last.key) + Decoded(env, last)], env, rest, last);
    }
  }

  lemma SameMap(h: map<string, seq<ContextMsg>>, g: map<string, seq<ContextMsg>>, env: Env, rest: seq<KafkaMsg>, last: KafkaMsg)
    requires h == Groups(env, rest + [last]) && h.Keys == g.Keys
    requires forall k :: k in g ==>
      g[k] == if last.key == k && env.decode(last.value).Some? then OfKey(env, rest, k) + Decoded(env, last) else OfKey(env, rest, k)
    ensures h == g
  {
    forall k | k in h
      ensures h[k] == g[k]
    {
      assert h[k] == OfKey(env, rest + [last], k);
      OfKeyDecodable(env, rest, last, k);
    }
    EqualMaps(h, g);
  }

  lemma EqualMaps<K, V>(h: map<K, V>, g: map<K, V>)
    requires h.Keys == g.Keys && forall k :: k in h ==> h[k] == g[k]
    ensures h == g
  {
  }

  lemma OfKeyDecodable(env: Env, rest: seq<KafkaMsg>, last: KafkaMsg, k: string)
    ensures OfKey(env, rest + [last], k)
            == if last.key == k && env.decode(last.value).Some? then OfKey(env, rest, k) + Decoded(env, last) else OfKey(env, rest, k)
  {
    OfKeyAppend(env, rest, last, k);
    if env.decode(last.value).None? {
      assert OfKey(env, rest, k) + [] == OfKey(env, rest, k);
    }
  }

  // ---------- the groups together are the batch ----------

  ghost function GroupSum(m: map<string, seq<ContextMsg>>): multiset<ContextMsg> {
    if m == map[] then multiset{}
    else
      var k :| k in m;
      multiset(m[k]) + GroupSum(m - {k})
  }

  /** The sum does not depend on the order in which the map is iterated. */
  lemma {:induction false} GroupSumRemove(m: map<string, seq<ContextMsg>>, k: string)
    requires k in m
    ensures GroupSum(m) == multiset(m[k]) + GroupSum(m - {k})
    decreases |m|
  {
    var j :| j in m && GroupSum(m) == multiset(m[j]) + GroupSum(m - {j});
    if j != k {
      GroupSumRemove(m - {j}, k);
      GroupSumRemove(m - {k}, j);
      assert m - {j} - {k} == m - {k} - {j};
    }
  }

  /** The groups of a batch are a permutation of its decodable messages. */
  lemma {:induction false} GroupsArePermutation(env: Env, batch: seq<KafkaMsg>)
    ensures GroupSum(Groups(env, batch)) == multiset(DecodedAll(env, batch))
  {
    if batch == [] {
    } else {
      var rest, last := batch[..|batch| - 1], batch[|batch| - 1];
      assert batch == rest + [last];
      GroupsArePermutation(env, rest);
      GroupsStep(env, rest, last);
      if env.decode(last.value).Some? {
        OfKeyEmptyIff(env, rest, last.key);
        GroupSumUpdate(Groups(env, rest), last.key, OfKey(env, rest, last.key), Decoded(env, last));
      }
    }
  }

  lemma GroupSumUpdate(g: map<string, seq<ContextMsg>>, k: string, was: seq<ContextMsg>, added: seq<ContextMsg>)
    requires if k in g then g[k] == was else was == []
    ensures GroupSum(g[k := was + added]) == GroupSum(g) + multiset(added)
  {
    var h := g[k := was + added];
    GroupSumRemove(h, k);
    assert h - {k} == g - {k};
    if k in g {
      GroupSumRemove(g, k);
    } else {
      assert g - {k} == g;
    }
  }

  // ---------- the methods ----------

  method Aggregate(env: Env, batch: seq<KafkaMsg>) returns (aggregationMsgs: map<string, seq<ContextMsg>>)
    ensures aggregationMsgs == Groups(env, batch)
  {
    aggregationMsgs := map[];
    for i := 0 to |batch|
      invariant aggregationMsgs == Groups(env, batch[..i])
    {
      assert batch[..i + 1] == batch[..i] + [batch[i]];
      GroupsStep(env, batch[..i], batch[i]);
      OfKeyEmptyIff(env, batch[..i], batch[i].key);
      assert batch[i].key in KeysOf(env, batch[..i]) <==> batch[i].key in aggregationMsgs;
      var decoded := env.decode(batch[i].value);
      if decoded.Some? {
        var ctxMsg := ContextMsg(decoded.value, batch[i].headers);
        assert [] + Decoded(env, batch[i]) == [ctxMsg];
        if batch[i].key in aggregationMsgs {
          aggregationMsgs := aggregationMsgs[batch[i].key := aggregationMsgs[batch[i].key] + [ctxMsg]];
        } else {
          aggregationMsgs := aggregationMsgs[batch[i].key := [ctxMsg]];
        }
      }
    }
    assert batch[..|batch|] == batch;
  }

  class DistributionCentre {
    const env: Env
    const chArrays: array<seq<Cmd>>

    ghost predicate Valid() {
      chArrays.Length == CHANNEL_NUM
    }

    constructor (env: Env)
      ensures Valid() && this.env == env && fresh(chArrays)
      ensures forall w :: 0 <= w < CHANNEL_NUM ==> chArrays[w] == []
    {
      this.env := env;
      chArrays := new seq<Cmd>[CHANNEL_NUM](_ => []);
    }

    /** Distributes one chunk.  Whatever order the map is iterated in, a key's own worker
        receives exactly one command for it, holding the key's messages in batch order, and
        no other worker receives any. */
    method Distribute(batch: seq<KafkaMsg>)
      requires Valid()
      modifies chArrays
      ensures forall w, k :: 0 <= w < CHANNEL_NUM ==>
                CmdsOfKey(chArrays[w], k) ==
                old(CmdsOfKey(chArrays[w], k)) +
                (if w == ChannelOf(env, k) && k in KeysOf(env, batch) then [Cmd(k, OfKey(env, batch, k))] else [])
    {
      var aggregationMsgs := Aggregate(env, batch);
      var todo := aggregationMsgs;
      ghost var q0 := chArrays[..];
      while todo != map[]
        invariant todo.Keys <= aggregationMsgs.Keys
        invariant forall k :: k in todo ==> todo[k] == aggregationMsgs[k]
        invariant Sent(chArrays[..], q0, aggregationMsgs, todo.Keys)
        decreases |todo|
      {
        var uniqueKey :| uniqueKey in todo;
        var channelID := ChannelOf(env, uniqueKey);
        var cmd := Cmd(uniqueKey, todo[uniqueKey]);
        SentStep(chArrays[..], q0, aggregationMsgs, todo.Keys, uniqueKey);
        chArrays[channelID] := chArrays[channelID] + [cmd];
        todo := todo - {uniqueKey};
      }
      assert todo.Keys == {};
      AllSent(chArrays[..], q0, batch);
      assert forall w :: 0 <= w < CHANNEL_NUM ==> chArrays[..][w] == chArrays[w] && q0[w] == old(chArrays[w]);
    }

    lemma AllSent(q: seq<seq<Cmd>>, q0: seq<seq<Cmd>>, batch: seq<KafkaMsg>)
      requires Sent(q, q0, Groups(env, batch), {})
      ensures |q| == |q0| == CHANNEL_NUM
      ensures forall w, k :: 0 <= w < CHANNEL_NUM ==>
                CmdsOfKey(q[w], k) ==
                CmdsOfKey(q0[w], k) +
                (if w == ChannelOf(env, k) && k in KeysOf(env, batch) then [Cmd(k, OfKey(env, batch, k))] else [])
    {
      forall w, k | 0 <= w < CHANNEL_NUM
        ensures Due(w, k, Groups(env, batch), {}) ==
                if w == ChannelOf(env, k) && k in KeysOf(env, batch) then [Cmd(k, OfKey(env, batch, k))] else []
      {
      }
    }

    /** The queues `q` are the queues `q0` plus the commands for all keys but `todo`. */
    ghost predicate Sent(q: seq<seq<Cmd>>, q0: seq<seq<Cmd>>, groups: map<string, seq<ContextMsg>>, todo: set<string>) {
      && |q| == |q0| == CHANNEL_NUM
      && forall w, k :: 0 <= w < CHANNEL_NUM ==>
           CmdsOfKey(q[w], k) == CmdsOfKey(q0[w], k) + Due(w, k, groups, todo)
    }

    /** What worker w has received of key k once all keys but `todo` are sent. */
    function Due(w: nat, k: string, groups: map<string, seq<ContextMsg>>, todo: set<string>): seq<Cmd> {
      if w == ChannelOf(env, k) && k in groups && k !in todo then [Cmd(k, groups[k])] else []
    }

    /** The command just sent, for its own key and worker. */
    lemma OwnKeySent(q: seq<Cmd>, q0: seq<Cmd>, groups: map<string, seq<ContextMsg>>, todo: set<string>, key: string)
      requires key in todo && key in groups
      requires CmdsOfKey(q, key) == CmdsOfKey(q0, key) + Due(ChannelOf(env, key), key, groups, todo)
      ensures CmdsOfKey(q + [Cmd(key, groups[key])], key)
              == CmdsOfKey(q0, key) + Due(ChannelOf(env, key), key, groups, todo - {key})
    {
      CmdsOfKeyAppend(q, Cmd(key, groups[key]), key);
      assert CmdsOfKey(q0, key) + [] == CmdsOfKey(q0, key);
    }

    /** For other keys and workers nothing changes. */
    lemma OtherKeySent(q: seq<Cmd>, w: nat, k: string, cmd: Cmd, groups: map<string, seq<ContextMsg>>, todo: set<string>)
      requires k != cmd.uniqueKey
      ensures CmdsOfKey(q + [cmd], k) == CmdsOfKey(q, k)
      ensures Due(w, k, groups, todo - {cmd.uniqueKey}) == Due(w, k, groups, todo)
    {
      CmdsOfKeyAppend(q, cmd, k);
    }

    lemma SentStep(q: seq<seq<Cmd>>, q0: seq<seq<Cmd>>, groups: map<string, seq<ContextMsg>>, todo: set<string>, key: string)
      requires Sent(q, q0, groups, todo) && key in todo && key in groups
      ensures var c := ChannelOf(env, key);
              Sent(q[c := q[c] + [Cmd(key, groups[key])]], q0, groups, todo - {key})
    {
      var c, cmd := ChannelOf(env, key), Cmd(key, groups[key]);
      var q' := q[c := q[c] + [cmd]];
      forall w, k | 0 <= w < CHANNEL_NUM
        ensures CmdsOfKey(q'[w], k) == CmdsOfKey(q0[w], k) + Due(w, k, groups, todo - {key})
      {
        assert CmdsOfKey(q[w], k) == CmdsOfKey(q0[w], k) + Due(w, k, groups, todo);
        if k != key {
          OtherKeySent(q[w], w, k, cmd, groups, todo);
        } else if w == c {
          OwnKeySent(q[c], q0[c], groups, todo, key);
        } else {
          assert q'[w] == q[w];
        }
      }
    }
  }
}
