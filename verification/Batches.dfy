/** The values that travel through the message pipeline, and the per-key views of them. */
module Batches {
  import opened Wrappers
  import opened Messages

  /** A record of the source topic. */
  datatype KafkaMsg = KafkaMsg(key: string, value: string, headers: seq<string>)

  /** A decoded message with the context rebuilt from the record's headers. */
  datatype ContextMsg = ContextMsg(message: Message, ctx: seq<string>)

  /** A command to a worker: one key and the messages of that key from one batch. */
  datatype Cmd = Cmd(uniqueKey: string, ctxMsgList: seq<ContextMsg>)

  /** What the pipeline does not decide: how bytes decode and how keys hash. */
  datatype Env = Env(decode: string -> Option<Message>, hash: string -> nat)

  const CHANNEL_NUM := 100

  /** The worker that handles a key. */
  function ChannelOf(env: Env, key: string): (w: nat)
    ensures w < CHANNEL_NUM
  {
    env.hash(key) % CHANNEL_NUM
  }

  // ---------- records ----------

  function Decoded(env: Env, m: KafkaMsg): seq<ContextMsg> {
    match env.decode(m.value)
    case None => []
    case Some(message) => [ContextMsg(message, m.headers)]
  }

  /** The decodable messages of a batch, in order. */
  function DecodedAll(env: Env, ms: seq<KafkaMsg>): seq<ContextMsg> {
    if ms == [] then [] else DecodedAll(env, ms[..|ms| - 1]) + Decoded(env, ms[|ms| - 1])
  }

  /** The decodable messages of one key, in order. */
  function OfKey(env: Env, ms: seq<KafkaMsg>, key: string): seq<ContextMsg> {
    if ms == [] then []
    else
      var last := ms[|ms| - 1];
      OfKey(env, ms[..|ms| - 1], key) + (if last.key == key then Decoded(env, last) else [])
  }

  lemma {:induction false} OfKeyConcat(env: Env, a: seq<KafkaMsg>, b: seq<KafkaMsg>, key: string)
    ensures OfKey(env, a + b, key) == OfKey(env, a, key) + OfKey(env, b, key)
  {
    if b == [] {
      assert a + b == a;
    } else {
      OfKeyConcat(env, a, b[..|b| - 1], key);
      assert (a + b)[..|a + b| - 1] == a + b[..|b| - 1];
    }
  }

  lemma OfKeyAppend(env: Env, ms: seq<KafkaMsg>, m: KafkaMsg, key: string)
    ensures OfKey(env, ms + [m], key) == OfKey(env, ms, key) + (if m.key == key then Decoded(env, m) else [])
  {
    assert (ms + [m])[..|ms|] == ms;
  }

  /** The records the receiver keeps. */
  function NonEmpty(ms: seq<KafkaMsg>): seq<KafkaMsg> {
    if ms == [] then []
    else NonEmpty(ms[..|ms| - 1]) + (if ms[|ms| - 1].value != "" then [ms[|ms| - 1]] else [])
  }

  lemma {:induction false} NonEmptyConcat(a: seq<KafkaMsg>, b: seq<KafkaMsg>)
    ensures NonEmpty(a + b) == NonEmpty(a) + NonEmpty(b)
  {
    if b == [] {
      assert a + b == a;
    } else {
      NonEmptyConcat(a, b[..|b| - 1]);
      assert (a + b)[..|a + b| - 1] == a + b[..|b| - 1];
    }
  }

  lemma NonEmptyAppend(ms: seq<KafkaMsg>, m: KafkaMsg)
    ensures NonEmpty(ms + [m]) == NonEmpty(ms) + NonEmpty([m])
    ensures NonEmpty([m]) == if m.value != "" then [m] else []
  {
    assert (ms + [m])[..|ms|] == ms && [m][..0] == [];
  }

  // ---------- commands ----------

  function CmdsOfKey(q: seq<Cmd>, key: string): seq<Cmd> {
    if q == [] then []
    else CmdsOfKey(q[..|q| - 1], key) + (if q[|q| - 1].uniqueKey == key then [q[|q| - 1]] else [])
  }

  lemma CmdsOfKeyAppend(q: seq<Cmd>, c: Cmd, key: string)
    ensures CmdsOfKey(q + [c], key) == CmdsOfKey(q, key) + (if c.uniqueKey == key then [c] else [])
  {
    assert (q + [c])[..|q|] == q;
  }

  /** The messages of one key in a queue of commands, in order. */
  function Payload(q: seq<Cmd>, key: string): seq<ContextMsg> {
    if q == [] then []
    else Payload(q[..|q| - 1], key) + (if q[|q| - 1].uniqueKey == key then q[|q| - 1].ctxMsgList else [])
  }

  lemma PayloadAppend(q: seq<Cmd>, c: Cmd, key: string)
    ensures Payload(q + [c], key) == Payload(q, key) + (if c.uniqueKey == key then c.ctxMsgList else [])
  {
    assert (q + [c])[..|q|] == q;
  }

  lemma {:induction false} PayloadConcat(a: seq<Cmd>, b: seq<Cmd>, key: string)
    ensures Payload(a + b, key) == Payload(a, key) + Payload(b, key)
  {
    if b == [] {
      assert a + b == a;
    } else {
      PayloadConcat(a, b[..|b| - 1], key);
      assert (a + b)[..|a + b| - 1] == a + b[..|b| - 1];
    }
  }

  lemma {:induction false} NoPayload(q: seq<Cmd>, key: string)
    requires forall c :: c in q ==> c.uniqueKey != key
    ensures Payload(q, key) == []
  {
    if q != [] {
      assert q[|q| - 1] in q;
      NoPayload(q[..|q| - 1], key);
    }
  }

  // ---------- sequences of sequences ----------

  lemma PrefixGrows<T>(s: seq<T>, n: nat)
    requires 0 < n <= |s|
    ensures s[..n - 1] + [s[n - 1]] == s[..n]
  {
  }

  lemma Assoc<T>(a: seq<T>, b: seq<T>, c: seq<T>)
    ensures a + b + c == a + (b + c)
  {
  }

  function Flatten<T>(ss: seq<seq<T>>): seq<T> {
    if ss == [] then [] else ss[0] + Flatten(ss[1..])
  }

  lemma {:induction false} FlattenConcat<T>(a: seq<seq<T>>, b: seq<seq<T>>)
    ensures Flatten(a + b) == Flatten(a) + Flatten(b)
  {
    if a == [] {
      assert a + b == b;
    } else {
      FlattenConcat(a[1..], b);
      assert (a + b)[0] == a[0] && (a + b)[1..] == a[1..] + b;
      Assoc(a[0], Flatten(a[1..]), Flatten(b));
    }
  }
}
