/** The two halves of the pipeline joined: from the order in which records of a key arrive to the
  numbers their stored messages carry. */
module PipelineWorker {
  import opened Conversation
  import opened Messages
  import opened Wrappers
  import opened Batches
  import opened Distributor
  import opened Pipeline
  import opened PipelineTheorems
  import opened Classifier
  import opened Positions
  import SeqStore
  import opened Watermarks
  import opened Worker
  import opened WorkerRun

  // ---------- no command is empty ----------

  ghost predicate NoEmpty(cmds: seq<Cmd>) {
    forall c :: c in cmds ==> c.ctxMsgList != []
  }

  /** No group at the distribution centre and no command on its way or taken is empty. */
  ghost predicate NothingEmpty(s: State) {
    && (forall k :: k in s.groups ==> s.groups[k] != [])
    && (forall w :: 0 <= w < |s.queues| ==> NoEmpty(s.queues[w]))
    && (forall w :: 0 <= w < |s.taken| ==> NoEmpty(s.taken[w]))
  }

  lemma GroupsNotEmpty(env: Env, batch: seq<KafkaMsg>)
    ensures forall k :: k in Groups(env, batch) ==> Groups(env, batch)[k] != []
  {
    forall k | k in Groups(env, batch)
      ensures Groups(env, batch)[k] != []
    {
      OfKeyEmptyIff(env, batch, k);
    }
  }

  lemma StepKeepsNonEmpty(cfg: Config, s: State, step: Step)
    requires NothingEmpty(s) && Enabled(cfg, s, step)
    ensures NothingEmpty(Apply(cfg, s, step))
  {
    match step
    case SendChunk(c) => GroupsNotEmpty(cfg.env, s.claims[c].inflight[0]);
    case SendGroup(k) => assert NoEmpty(s.queues[ChannelOf(cfg.env, k)]);
    case Take(w) =>
      assert NoEmpty(s.queues[w]) && NoEmpty(s.taken[w]);
      assert s.queues[w][0] in s.queues[w];
    case _ =>
  }

  lemma {:induction false} RunKeepsNonEmpty(cfg: Config, s: State, steps: seq<Step>)
    requires NothingEmpty(s) && Pipeline.Run(cfg, s, steps).Some?
    ensures NothingEmpty(Pipeline.Run(cfg, s, steps).value)
    decreases |steps|
  {
    if steps != [] {
      StepKeepsNonEmpty(cfg, s, steps[0]);
      RunKeepsNonEmpty(cfg, Apply(cfg, s, steps[0]), steps[1..]);
    }
  }

  /** In every reachable state no command is empty, so a worker always finds a first message. */
  lemma CommandsNeverEmpty(cfg: Config, s: State)
    requires Reachable(cfg, s)
    ensures NothingEmpty(s)
  {
    var n: nat, steps: seq<Step> :| Pipeline.Run(cfg, Init(n), steps) == Some(s);
    RunKeepsNonEmpty(cfg, Init(n), steps);
  }

  // ---------- from arrival to number ----------

  function Plain(cms: seq<ContextMsg>): (ms: seq<Message>)
    ensures |ms| == |cms|
  {
    seq(|cms|, i requires 0 <= i < |cms| => cms[i].message)
  }

  function PlainAll(cmds: seq<Cmd>): (vss: seq<seq<Message>>)
    ensures |vss| == |cmds|
  {
    seq(|cmds|, i requires 0 <= i < |cmds| => Plain(cmds[i].ctxMsgList))
  }

  lemma CollectOne(ms: seq<Message>, m: Message, bin: Bin)
    ensures Collect(ms + [m], bin) == Collect(ms, bin) + Into(m, bin)
  {
    assert (ms + [m])[..|ms|] == ms;
  }

  lemma {:induction false} CollectConcat(a: seq<Message>, b: seq<Message>, bin: Bin)
    ensures Collect(a + b, bin) == Collect(a, bin) + Collect(b, bin)
  {
    if b == [] {
      assert a + b == a;
    } else {
      var rest, last := b[..|b| - 1], b[|b| - 1];
      CollectConcat(a, rest, bin);
      assert b == rest + [last] && a + b == (a + rest) + [last];
      CollectOne(rest, last, bin);
      CollectOne(a + rest, last, bin);
      Assoc(Collect(a, bin), Collect(rest, bin), Into(last, bin));
    }
  }

  /** The chat conversation c is the key's: its commands and no others are stored under it. */
  ghost predicate ConversationOfKey(cmds: seq<Cmd>, bs: seq<Batch>, key: string, c: string) {
    |bs| == |cmds| && forall i :: 0 <= i < |bs| ==>
      (bs[i].chatID == c <==> cmds[i].uniqueKey == key) && bs[i].notificationID != c
  }

  /** Whether the command's stored chat messages get as far as being numbered: their list is not
      too long and the maximum can be read.  With nothing to store there is nothing to refuse. */
  ghost predicate Takes(b: Batch) {
    b.lists.storageMsg == [] || Numbered(|b.lists.storageMsg|, b.chat.faults)
  }

  /** The commands whose stored chat messages are numbered, in order. */
  ghost function Taking(cmds: seq<Cmd>, bs: seq<Batch>): seq<Cmd>
    requires |bs| == |cmds|
  {
    if bs == [] then []
    else
      var n := |bs| - 1;
      Taking(cmds[..n], bs[..n]) + (if Takes(bs[n]) then [cmds[n]] else [])
  }

  lemma TakingAppend(cmds: seq<Cmd>, bs: seq<Batch>, cmd: Cmd, b: Batch)
    requires |bs| == |cmds|
    ensures Taking(cmds + [cmd], bs + [b]) == Taking(cmds, bs) + (if Takes(b) then [cmd] else [])
  {
    assert (cmds + [cmd])[..|bs|] == cmds && (bs + [b])[..|bs|] == bs;
  }

  /** The elements of a are those of b at strictly increasing positions. */
  ghost predicate Picked<T>(a: seq<T>, b: seq<T>, from: seq<nat>) {
    && |from| == |a| && Increasing(from)
    && forall i :: 0 <= i < |a| ==> from[i] < |b| && a[i] == b[from[i]]
  }

  lemma PickAll<T>(a: seq<T>, b: seq<T>, from: seq<nat>, more: seq<T>) returns (from': seq<nat>)
    requires Picked(a, b, from)
    ensures Picked(a + more, b + more, from')
  {
    from' := seq(|a + more|, i requires 0 <= i < |a + more| => if i < |a| then from[i] else |b| + (i - |a|));
    forall i | 0 <= i < |a + more|
      ensures from'[i] < |b + more| && (a + more)[i] == (b + more)[from'[i]]
    {
      if i >= |a| {
        assert (a + more)[i] == more[i - |a|] == (b + more)[|b| + (i - |a|)];
      }
    }
  }

  lemma PickNone<T>(a: seq<T>, b: seq<T>, from: seq<nat>, more: seq<T>)
    requires Picked(a, b, from)
    ensures Picked(a, b + more, from)
  {
  }

  /** One command more: its messages of the key are added to what there is, and to what is
      numbered if it is one that is. */
  lemma PickCommand(cmds: seq<Cmd>, taking: seq<Cmd>, from: seq<nat>, cmd: Cmd, kept: bool, key: string) returns (from': seq<nat>)
    requires Picked(Payload(taking, key), Payload(cmds, key), from)
    ensures Picked(Payload(taking + (if kept then [cmd] else []), key), Payload(cmds + [cmd], key), from')
  {
    PayloadAppend(cmds, cmd, key);
    var more := if cmd.uniqueKey == key then cmd.ctxMsgList else [];
    if kept {
      PayloadAppend(taking, cmd, key);
      from' := PickAll(Payload(taking, key), Payload(cmds, key), from, more);
    } else {
      PickNone(Payload(taking, key), Payload(cmds, key), from, more);
      assert taking + [] == taking;
      from' := from;
    }
  }

  /** Not being numbered takes whole commands out and moves nothing. */
  lemma {:induction false} TakingInOrder(cmds: seq<Cmd>, bs: seq<Batch>, key: string) returns (from: seq<nat>)
    requires |bs| == |cmds|
    ensures Picked(Payload(Taking(cmds, bs), key), Payload(cmds, key), from)
  {
    if bs == [] {
      from := [];
    } else {
      var n := |bs| - 1;
      var before := TakingInOrder(cmds[..n], bs[..n], key);
      from := PickCommand(cmds[..n], Taking(cmds[..n], bs[..n]), before, cmds[n], Takes(bs[n]), key);
      PrefixGrows(cmds, n + 1);
      assert cmds[..n + 1] == cmds;
    }
  }

  /** When no list of the key is refused, all messages of the key are numbered. */
  lemma {:induction false} TakingAll(cmds: seq<Cmd>, bs: seq<Batch>, key: string)
    requires |bs| == |cmds| && forall i :: 0 <= i < |bs| && cmds[i].uniqueKey == key ==> Takes(bs[i])
    ensures Payload(Taking(cmds, bs), key) == Payload(cmds, key)
  {
    if bs != [] {
      var n := |bs| - 1;
      TakingAll(cmds[..n], bs[..n], key);
      PayloadAppend(Taking(cmds[..n], bs[..n]), cmds[n], key);
      if !Takes(bs[n]) {
        assert Taking(cmds, bs) == Taking(cmds[..n], bs[..n]);
      }
    }
  }

  /** It is so when the first message of each command has the command's key, is of a single or a
      super-group chat, and the key is used for one of the two only. */
  lemma KeyGivesConversation(p: Parties, q: Parties)
    requires p.sessionType.SingleChat? || p.sessionType.SuperGroupChat?
    requires q.sessionType.SingleChat? || q.sessionType.SuperGroupChat?
    requires ConversationUniqueKey(p) == ConversationUniqueKey(q) ==> p.sessionType == q.sessionType
    ensures ChatConversationID(p) == ChatConversationID(q) <==> ConversationUniqueKey(p) == ConversationUniqueKey(q)
    ensures NotificationConversationID(q) != ChatConversationID(p)
  {
    ChatIDsAgree(p, q);
    IDsFromDirected(p);
    IDsFromDirected(q);
    assert ChatConversationID(p)[0] == 's' && NotificationConversationID(q)[0] == 'n';
  }

  lemma LikeConcat(a: seq<MsgData>, x: seq<Message>, b: seq<MsgData>, y: seq<Message>, vals: map<MsgData, Message>)
    requires Like(a, x, vals) && Like(b, y, vals)
    ensures Like(a + b, x + y, vals)
  {
    forall i | 0 <= i < |a + b|
      ensures (a + b)[i] in vals && vals[(a + b)[i]] == (x + y)[i].(seqNo := vals[(a + b)[i]].seqNo)
    {
      if i < |a| {
        assert (a + b)[i] == a[i] && (x + y)[i] == x[i];
      } else {
        assert (a + b)[i] == b[i - |a|] && (x + y)[i] == y[i - |x|];
      }
    }
  }

  /** What one more command adds to the stored chat messages of a key. */
  lemma KeyStep(cmds: seq<Cmd>, cmd: Cmd, key: string)
    ensures Collect(Plain(Payload(cmds + [cmd], key)), StorageMsg) ==
            Collect(Plain(Payload(cmds, key)), StorageMsg) +
            (if cmd.uniqueKey == key then Collect(Plain(cmd.ctxMsgList), StorageMsg) else [])
  {
    var list := if cmd.uniqueKey == key then cmd.ctxMsgList else [];
    PayloadAppend(cmds, cmd, key);
    assert Plain(Payload(cmds, key) + list) == Plain(Payload(cmds, key)) + Plain(list);
    CollectConcat(Plain(Payload(cmds, key)), Plain(list), StorageMsg);
    assert Collect(Plain([]), StorageMsg) == [];
  }

  /** What one more command adds to the messages numbered in the key's conversation. */
  lemma NumberedStep(b: Batch, cmd: Cmd, key: string, c: string, vals: map<MsgData, Message>)
    requires (b.chatID == c <==> cmd.uniqueKey == key) && b.notificationID != c
    requires Like(b.lists.storageMsg, Collect(Plain(cmd.ctxMsgList), StorageMsg), vals)
    ensures Like(NumberedOf(b, c), if Takes(b) && cmd.uniqueKey == key then Collect(Plain(cmd.ctxMsgList), StorageMsg) else [], vals)
  {
    assert NotificationNumbered(b, c) == [];
    assert ChatNumbered(b, c) == if Takes(b) && cmd.uniqueKey == key then b.lists.storageMsg else [];
    NothingGrouped(ChatNumbered(b, c));
  }

  lemma NumberedAppend(taking: seq<Cmd>, bs: seq<Batch>, cmd: Cmd, b: Batch, key: string, c: string, vals: map<MsgData, Message>)
    requires Like(NumberedIn(bs, c), Collect(Plain(Payload(taking, key)), StorageMsg), vals)
    requires Like(NumberedOf(b, c), if Takes(b) && cmd.uniqueKey == key then Collect(Plain(cmd.ctxMsgList), StorageMsg) else [], vals)
    ensures Like(NumberedIn(bs + [b], c), Collect(Plain(Payload(taking + (if Takes(b) then [cmd] else []), key)), StorageMsg), vals)
  {
    RunAppends(bs, b, c);
    if Takes(b) {
      KeyStep(taking, cmd, key);
      LikeConcat(NumberedIn(bs, c), Collect(Plain(Payload(taking, key)), StorageMsg), NumberedOf(b, c),
        if cmd.uniqueKey == key then Collect(Plain(cmd.ctxMsgList), StorageMsg) else [], vals);
    } else {
      NothingGrouped(NumberedIn(bs, c));
      assert taking + [] == taking;
    }
  }

  /** The messages numbered in the key's conversation by the first n commands are the stored chat
      messages of the key's commands among them that were numbered, in the order of the commands. */
  lemma {:induction false} NumberedOfKey(cmds: seq<Cmd>, bs: seq<Batch>, n: nat, key: string, c: string, vals: map<MsgData, Message>)
    requires ConversationOfKey(cmds, bs, key, c) && n <= |bs|
    requires forall i :: 0 <= i < |bs| ==> Like(bs[i].lists.storageMsg, Collect(Plain(cmds[i].ctxMsgList), StorageMsg), vals)
    ensures Like(NumberedIn(bs[..n], c), Collect(Plain(Payload(Taking(cmds[..n], bs[..n]), key)), StorageMsg), vals)
  {
    if n > 0 {
      NumberedOfKey(cmds, bs, n - 1, key, c, vals);
      NumberedStep(bs[n - 1], cmds[n - 1], key, c, vals);
      NumberedAppend(Taking(cmds[..n - 1], bs[..n - 1]), bs[..n - 1], cmds[n - 1], bs[n - 1], key, c, vals);
      TakingAppend(cmds[..n - 1], bs[..n - 1], cmds[n - 1], bs[n - 1]);
      PrefixGrows(cmds, n);
      PrefixGrows(bs, n);
    }
  }

  /** The lists that a run keeps, as those of its commands. */
  lemma ListsOfCommands(cmds: seq<Cmd>, bs: seq<Batch>, s0: SeqStore.Seqs, vals: map<MsgData, Message>)
    requires Kept(bs, PlainAll(cmds), s0, vals)
    ensures |bs| == |cmds|
    ensures forall i :: 0 <= i < |bs| ==> Like(bs[i].lists.storageMsg, Collect(Plain(cmds[i].ctxMsgList), StorageMsg), vals)
  {
    forall i | 0 <= i < |bs|
      ensures Like(bs[i].lists.storageMsg, Collect(Plain(cmds[i].ctxMsgList), StorageMsg), vals)
    {
      assert Like(bs[i].lists.At(StorageMsg), Collect(PlainAll(cmds)[i], StorageMsg), vals);
    }
  }

  /** Arrival order is number order.  In every reachable state, once a worker has handled what it
      took, that is of each key what its records up to some moment give, in the order in which
      these arrived.  The numbered chat messages of the key are the stored ones of these, in this
      order, less those of whole commands that are refused a number.  The i-th of them carries the
      i-th number after the maximum the conversation had exactly when every maximum but the last
      was written. */
  lemma StoredInArrivalOrder(cfg: Config, s: State, key: string, c: string, bs: seq<Batch>, s0: SeqStore.Seqs, vals: map<MsgData, Message>)
      returns (from: seq<nat>)
    requires Reachable(cfg, s) && |s.taken| == CHANNEL_NUM
    requires Kept(bs, PlainAll(s.taken[ChannelOf(cfg.env, key)]), s0, vals)
    requires ConversationOfKey(s.taken[ChannelOf(cfg.env, key)], bs, key, c)
    ensures var taken := s.taken[ChannelOf(cfg.env, key)];
      && Payload(taken, key) <= OfKey(cfg.env, NonEmpty(Received(cfg, s, key)), key)
      && Picked(Payload(Taking(taken, bs), key), Payload(taken, key), from)
      && Like(NumberedIn(bs, c), Collect(Plain(Payload(Taking(taken, bs), key)), StorageMsg), vals)
      && ((forall i :: 0 <= i < |bs| && taken[i].uniqueKey == key ==> Takes(bs[i])) ==>
            Payload(Taking(taken, bs), key) == Payload(taken, key))
    ensures Consecutive(s0.Max(c), Numbers(NumberedIn(bs, c), vals)) <==> MaximaWritten(RunOps(bs), c)
  {
    var w := ChannelOf(cfg.env, key);
    var taken := s.taken[w];
    WorkerSeesPrefix(cfg, s, w, key);
    ListsOfCommands(taken, bs, s0, vals);
    NumberedOfKey(taken, bs, |bs|, key, c, vals);
    assert bs[..|bs|] == bs && taken[..|bs|] == taken;
    from := TakingInOrder(taken, bs, key);
    if forall i :: 0 <= i < |bs| && taken[i].uniqueKey == key ==> Takes(bs[i]) {
      TakingAll(taken, bs, key);
    }
    NumbersConsecutiveIff(s0, RunOps(bs), c);
  }
}
