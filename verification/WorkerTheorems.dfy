/** What a worker's log shows over whole runs, whatever inserts and hand-overs fail. */
module WorkerTheorems {
  import opened Messages
  import opened Classifier
  import opened SeqStore
  import opened Worker

  function RunEvents(bs: seq<Batch>): seq<Event<MsgData>> {
    if bs == [] then [] else BatchEvents(bs[0]) + RunEvents(bs[1..])
  }

  function StoredOf(b: Batch): seq<MsgData> {
    b.lists.storageMsg + b.lists.storageNotification
  }

  function NotStoredOf(b: Batch): seq<MsgData> {
    b.lists.notStorageMsg + b.lists.notStorageNotification
  }

  // ---------- what is pushed, and in which order ----------

  function Pushed(es: seq<Event<MsgData>>): seq<MsgData> {
    if es == [] then []
    else Pushed(es[..|es| - 1]) + (if es[|es| - 1].Push? then [es[|es| - 1].msg] else [])
  }

  lemma {:induction false} PushedConcat(a: seq<Event<MsgData>>, b: seq<Event<MsgData>>)
    ensures Pushed(a + b) == Pushed(a) + Pushed(b)
  {
    if b == [] {
      assert a + b == a;
    } else {
      PushedConcat(a, b[..|b| - 1]);
      assert (a + b)[..|a + b| - 1] == a + b[..|b| - 1];
    }
  }

  lemma {:induction false} PushedPushes(key: string, c: string, msgs: seq<MsgData>)
    ensures Pushed(Pushes(key, c, msgs)) == msgs
  {
    if msgs != [] {
      var rest := msgs[..|msgs| - 1];
      PushedPushes(key, c, rest);
      assert Pushes(key, c, msgs)[..|msgs| - 1] == Pushes(key, c, rest);
    }
  }

  lemma PushedOne(e: Event<MsgData>)
    ensures Pushed([e]) == if e.Push? then [e.msg] else []
  {
    assert [e][..0] == [];
  }

  lemma PushedNext(key: string, c: string, storage: seq<MsgData>, o: Outcome)
    requires storage != []
    ensures Pushed(NextTopics(key, c, storage, o)) == storage
  {
    var first := if o.created then [FirstConversation(c, storage[0])] else [];
    var toMongo := ToMongo(key, c, storage, o.sent);
    PushedPushes(key, c, storage);
    PushedOne(FirstConversation(c, storage[0]));
    PushedOne(toMongo);
    PushedConcat([toMongo], Pushes(key, c, storage));
    PushedConcat(first, [toMongo] + Pushes(key, c, storage));
  }

  lemma PushedStore(key: string, c: string, storage: seq<MsgData>, o: Outcome)
    ensures Pushed(StoreEvents(key, c, storage, o)) == if o.accepted then storage else []
  {
    if storage != [] {
      PushedOne(Stored(c, storage, o.accepted));
      PushedNext(key, c, storage, o);
      PushedConcat([Stored(c, storage, o.accepted)], if o.accepted then NextTopics(key, c, storage, o) else []);
    }
  }

  lemma PushedHandle(key: string, c: string, storage: seq<MsgData>, notStorage: seq<MsgData>, o: Outcome)
    ensures Pushed(Handle(key, c, storage, notStorage, o)) == notStorage + (if o.accepted then storage else [])
  {
    PushedPushes(key, c, notStorage);
    PushedStore(key, c, storage, o);
    PushedConcat(Pushes(key, c, notStorage), StoreEvents(key, c, storage, o));
  }

  /** The pushes one command should make. */
  function PushList(b: Batch): seq<MsgData> {
    b.lists.notStorageMsg + (if b.chat.accepted then b.lists.storageMsg else [])
    + (b.lists.notStorageNotification + (if b.notification.accepted then b.lists.storageNotification else []))
  }

  lemma PushedBatch(b: Batch)
    ensures Pushed(BatchEvents(b)) == PushList(b)
  {
    var x := Handle(b.key, b.chatID, b.lists.storageMsg, b.lists.notStorageMsg, b.chat);
    var y := Handle(b.key, b.notificationID, b.lists.storageNotification, b.lists.notStorageNotification, b.notification);
    var z := if b.lists.modifyMsg == [] then [] else [ToModify(b.key, b.notificationID, b.lists.modifyMsg)];
    PushedHandle(b.key, b.chatID, b.lists.storageMsg, b.lists.notStorageMsg, b.chat);
    PushedHandle(b.key, b.notificationID, b.lists.storageNotification, b.lists.notStorageNotification, b.notification);
    PushedConcat(x, y);
    PushedConcat(x + y, z);
    PushedOne(ToModify(b.key, b.notificationID, b.lists.modifyMsg));
  }

  function PushLists(bs: seq<Batch>): seq<MsgData> {
    if bs == [] then [] else PushList(bs[0]) + PushLists(bs[1..])
  }

  /** Over a whole run each list is pushed in its own order, whole or not at all, the stored
      ones exactly when their insert was accepted, and nothing else is pushed. */
  lemma {:induction false} PushedExactly(bs: seq<Batch>)
    ensures Pushed(RunEvents(bs)) == PushLists(bs)
  {
    if bs != [] {
      PushedBatch(bs[0]);
      PushedExactly(bs[1..]);
      PushedConcat(BatchEvents(bs[0]), RunEvents(bs[1..]));
    }
  }

  // ---------- a stored message is pushed only behind its insert ----------

  function AllStored(bs: seq<Batch>): set<MsgData> {
    set i, m | 0 <= i < |bs| && m in StoredOf(bs[i]) :: m
  }

  function AllNotStored(bs: seq<Batch>): set<MsgData> {
    set i, m | 0 <= i < |bs| && m in NotStoredOf(bs[i]) :: m
  }

  /** Before position i the message was stored by an accepted insert, and after that its
      hand-over to Mongo was attempted, both under the conversation it is pushed under. */
  ghost predicate Backed(es: seq<Event<MsgData>>, i: nat)
    requires i < |es| && es[i].Push?
  {
    exists j, k ::
      && 0 <= j < k < i
      && es[j].Stored? && es[j].accepted && es[i].msg in es[j].msgs && es[j].conversationID == es[i].conversationID
      && es[k].ToMongo? && es[k].msgs == es[j].msgs && es[k].conversationID == es[i].conversationID
  }

  ghost predicate Justified(es: seq<Event<MsgData>>, stored: set<MsgData>) {
    forall i :: 0 <= i < |es| && es[i].Push? && es[i].msg in stored ==> Backed(es, i)
  }

  /** What backs a push in part of a log backs it in the whole. */
  lemma BackedIn(pre: seq<Event<MsgData>>, part: seq<Event<MsgData>>, post: seq<Event<MsgData>>, i: nat)
    requires i < |part| && part[i].Push? && Backed(part, i)
    ensures var es := pre + part + post; es[|pre| + i] == part[i] && Backed(es, |pre| + i)
  {
    var es := pre + part + post;
    var j, k :| 0 <= j < k < i
      && part[j].Stored? && part[j].accepted && part[i].msg in part[j].msgs && part[j].conversationID == part[i].conversationID
      && part[k].ToMongo? && part[k].msgs == part[j].msgs && part[k].conversationID == part[i].conversationID;
    assert es[|pre| + j] == part[j] && es[|pre| + k] == part[k] && es[|pre| + i] == part[i];
  }

  lemma JustifiedConcat(a: seq<Event<MsgData>>, b: seq<Event<MsgData>>, stored: set<MsgData>)
    requires Justified(a, stored) && Justified(b, stored)
    ensures Justified(a + b, stored)
  {
    var es := a + b;
    assert es == [] + a + b && es == a + b + [];
    forall i | 0 <= i < |es| && es[i].Push? && es[i].msg in stored
      ensures Backed(es, i)
    {
      if i < |a| {
        BackedIn([], a, b, i);
      } else {
        var j := i - |a|;
        BackedIn(a, b, [], j);
      }
    }
  }

  lemma PushesForeign(key: string, c: string, msgs: seq<MsgData>, stored: set<MsgData>)
    requires forall m :: m in msgs ==> m !in stored
    ensures Justified(Pushes(key, c, msgs), stored)
  {
    var es := Pushes(key, c, msgs);
    assert forall i :: 0 <= i < |es| ==> es[i].msg in msgs;
  }

  /** An entry behind a list's insert and hand-over is a push of one of its messages. */
  lemma PushBacked(pre: seq<Event<MsgData>>, key: string, c: string, storage: seq<MsgData>, sent: bool, i: nat)
    requires |pre| >= 1 && pre[0] == Stored(c, storage, true) && i < |storage|
    ensures var es := pre + [ToMongo(key, c, storage, sent)] + Pushes(key, c, storage);
      es[|pre| + 1 + i].Push? && Backed(es, |pre| + 1 + i)
  {
    var es := pre + [ToMongo(key, c, storage, sent)] + Pushes(key, c, storage);
    assert es[0] == pre[0] && es[|pre|] == ToMongo(key, c, storage, sent);
    assert es[|pre| + 1 + i] == Push(key, c, storage[i]);
  }

  lemma StoreJustified(key: string, c: string, storage: seq<MsgData>, o: Outcome, stored: set<MsgData>)
    ensures Justified(StoreEvents(key, c, storage, o), stored)
  {
    if storage != [] && o.accepted {
      var pre := [Stored(c, storage, true)] + (if o.created then [FirstConversation(c, storage[0])] else []);
      var es := pre + [ToMongo(key, c, storage, o.sent)] + Pushes(key, c, storage);
      assert es == StoreEvents(key, c, storage, o);
      forall i | 0 <= i < |es| && es[i].Push? && es[i].msg in stored
        ensures Backed(es, i)
      {
        assert i > |pre|;
        PushBacked(pre, key, c, storage, o.sent, i - |pre| - 1);
      }
    }
  }

  lemma HandleJustified(key: string, c: string, storage: seq<MsgData>, notStorage: seq<MsgData>, o: Outcome, stored: set<MsgData>)
    requires forall m :: m in notStorage ==> m !in stored
    ensures Justified(Handle(key, c, storage, notStorage, o), stored)
  {
    PushesForeign(key, c, notStorage, stored);
    StoreJustified(key, c, storage, o, stored);
    JustifiedConcat(Pushes(key, c, notStorage), StoreEvents(key, c, storage, o), stored);
  }

  lemma BatchJustified(b: Batch, stored: set<MsgData>)
    requires forall m :: m in NotStoredOf(b) ==> m !in stored
    ensures Justified(BatchEvents(b), stored)
  {
    var x := Handle(b.key, b.chatID, b.lists.storageMsg, b.lists.notStorageMsg, b.chat);
    var y := Handle(b.key, b.notificationID, b.lists.storageNotification, b.lists.notStorageNotification, b.notification);
    var z := if b.lists.modifyMsg == [] then [] else [ToModify(b.key, b.notificationID, b.lists.modifyMsg)];
    forall m | m in b.lists.notStorageMsg || m in b.lists.notStorageNotification
      ensures m !in stored
    {
      assert m in NotStoredOf(b);
    }
    HandleJustified(b.key, b.chatID, b.lists.storageMsg, b.lists.notStorageMsg, b.chat, stored);
    HandleJustified(b.key, b.notificationID, b.lists.storageNotification, b.lists.notStorageNotification, b.notification, stored);
    JustifiedConcat(x, y, stored);
    JustifiedConcat(x + y, z, stored);
  }

  lemma {:induction false} RunJustified(bs: seq<Batch>, stored: set<MsgData>)
    requires forall i, m :: 0 <= i < |bs| && m in NotStoredOf(bs[i]) ==> m !in stored
    ensures Justified(RunEvents(bs), stored)
  {
    if bs != [] {
      BatchJustified(bs[0], stored);
      RunJustified(bs[1..], stored);
      JustifiedConcat(BatchEvents(bs[0]), RunEvents(bs[1..]), stored);
    }
  }

  /** Over all runs and whatever fails, a message of a stored list is pushed only after its
      insert was accepted and its hand-over to Mongo attempted.  Messages are objects, and no
      object is in both a stored and a not-stored list. */
  lemma StoredBeforePushed(bs: seq<Batch>)
    requires AllStored(bs) !! AllNotStored(bs)
    ensures Justified(RunEvents(bs), AllStored(bs))
  {
    forall i, m | 0 <= i < |bs| && m in NotStoredOf(bs[i])
      ensures m !in AllStored(bs)
    {
      assert m in AllNotStored(bs);
    }
    RunJustified(bs, AllStored(bs));
  }

  lemma StoreInserts(key: string, c: string, storage: seq<MsgData>, o: Outcome)
    ensures forall e :: e in StoreEvents(key, c, storage, o) && (e.Stored? || e.ToMongo?) ==> e.msgs == storage
  {
  }

  lemma BatchInserts(b: Batch)
    ensures forall e :: e in BatchEvents(b) && (e.Stored? || e.ToMongo?) ==>
              e.msgs == b.lists.storageMsg || e.msgs == b.lists.storageNotification
  {
    StoreInserts(b.key, b.chatID, b.lists.storageMsg, b.chat);
    StoreInserts(b.key, b.notificationID, b.lists.storageNotification, b.notification);
  }

  /** A message of a not-stored list is never inserted and never handed over to Mongo. */
  lemma {:induction false} NotStoredNeverInserted(bs: seq<Batch>)
    ensures forall e, m :: e in RunEvents(bs) && (e.Stored? || e.ToMongo?) && m in e.msgs ==> m in AllStored(bs)
  {
    if bs != [] {
      NotStoredNeverInserted(bs[1..]);
      BatchInserts(bs[0]);
      forall e, m | e in RunEvents(bs) && (e.Stored? || e.ToMongo?) && m in e.msgs
        ensures m in AllStored(bs)
      {
        if e in BatchEvents(bs[0]) {
          assert m in StoredOf(bs[0]);
        } else {
          assert e in RunEvents(bs[1..]) && m in AllStored(bs[1..]);
          var i :| 0 <= i < |bs[1..]| && m in StoredOf(bs[1..][i]);
          assert bs[i + 1] == bs[1..][i];
        }
      }
    }
  }

  // ---------- the log, entry by entry ----------

  /** What an entry of the log of one kind of message may be. */
  ghost predicate Fits(e: Event<MsgData>, key: string, c: string, storage: seq<MsgData>, notStorage: seq<MsgData>, o: Outcome) {
    match e
    case Push(k, d, m) => k == key && d == c && (m in notStorage || (o.accepted && m in storage))
    case Stored(d, ms, accepted) => d == c && ms == storage != [] && accepted == o.accepted
    case FirstConversation(d, m) => d == c && o.accepted && o.created && storage != [] && m == storage[0]
    case ToMongo(k, d, ms, sent) => k == key && d == c && ms == storage != [] && o.accepted && sent == o.sent
    case ToModify(_, _, _) => false
  }

  lemma StoreFits(key: string, c: string, storage: seq<MsgData>, notStorage: seq<MsgData>, o: Outcome)
    ensures forall e :: e in StoreEvents(key, c, storage, o) ==> Fits(e, key, c, storage, notStorage, o)
    ensures |StoreEvents(key, c, storage, o)| ==
      if storage == [] then 0 else if !o.accepted then 1 else 2 + (if o.created then 1 else 0) + |storage|
  {
    if storage != [] && o.accepted {
      forall e | e in NextTopics(key, c, storage, o)
        ensures Fits(e, key, c, storage, notStorage, o)
      {
        assert e in Pushes(key, c, storage) || e == ToMongo(key, c, storage, o.sent) || (o.created && e == FirstConversation(c, storage[0]));
      }
    }
  }

  /** Every entry is under its own key and conversation, and there are as many as there should be:
      a push each, and for a stored list its insert, then the hand-over and a new conversation. */
  lemma HandleFits(key: string, c: string, storage: seq<MsgData>, notStorage: seq<MsgData>, o: Outcome)
    ensures forall e :: e in Handle(key, c, storage, notStorage, o) ==> Fits(e, key, c, storage, notStorage, o)
    ensures |Handle(key, c, storage, notStorage, o)| == |notStorage| +
      if storage == [] then 0 else if !o.accepted then 1 else 2 + (if o.created then 1 else 0) + |storage|
    ensures storage != [] ==> Stored(c, storage, o.accepted) in Handle(key, c, storage, notStorage, o)
    ensures storage != [] && o.accepted ==> ToMongo(key, c, storage, o.sent) in Handle(key, c, storage, notStorage, o)
    ensures storage != [] && o.accepted && o.created ==> FirstConversation(c, storage[0]) in Handle(key, c, storage, notStorage, o)
  {
    StoreFits(key, c, storage, notStorage, o);
    var es := StoreEvents(key, c, storage, o);
    forall e | e in Pushes(key, c, notStorage)
      ensures Fits(e, key, c, storage, notStorage, o)
    {
    }
    if storage != [] {
      assert es[0] == Stored(c, storage, o.accepted) && es[0] in es;
      if o.accepted {
        assert ToMongo(key, c, storage, o.sent) in NextTopics(key, c, storage, o);
        assert o.created ==> FirstConversation(c, storage[0]) in NextTopics(key, c, storage, o);
        assert forall e :: e in NextTopics(key, c, storage, o) ==> e in es;
      }
    }
  }

  /** In the log of a command chat messages go under the chat conversation and notifications under
      the notification conversation, and modifications, if any, to their topic, once and last. */
  lemma EntriesOfBatch(b: Batch, e: Event<MsgData>)
    requires e in BatchEvents(b)
    ensures || Fits(e, b.key, b.chatID, b.lists.storageMsg, b.lists.notStorageMsg, b.chat)
            || Fits(e, b.key, b.notificationID, b.lists.storageNotification, b.lists.notStorageNotification, b.notification)
            || (b.lists.modifyMsg != [] && e == ToModify(b.key, b.notificationID, b.lists.modifyMsg)
                && e == BatchEvents(b)[|BatchEvents(b)| - 1])
    ensures b.lists.modifyMsg != [] ==>
      BatchEvents(b)[|BatchEvents(b)| - 1] == ToModify(b.key, b.notificationID, b.lists.modifyMsg)
  {
    HandleFits(b.key, b.chatID, b.lists.storageMsg, b.lists.notStorageMsg, b.chat);
    HandleFits(b.key, b.notificationID, b.lists.storageNotification, b.lists.notStorageNotification, b.notification);
  }

  // ---------- which stored lists go on ----------

  lemma SendersWithin(ms: seq<MsgData>, users: set<string>)
    ensures SenderSet(Senders(ms)) <= users <==> forall m :: m in ms ==> m.parties.sendID in users
  {
    if SenderSet(Senders(ms)) <= users {
      forall m | m in ms
        ensures m.parties.sendID in users
      {
        var i :| 0 <= i < |ms| && ms[i] == m;
        assert Senders(ms)[i] in SenderSet(Senders(ms));
      }
    } else {
      var u :| u in Senders(ms) && u !in users;
      var i :| 0 <= i < |ms| && Senders(ms)[i] == u;
      assert ms[i] in ms;
    }
  }

  /** When a stored message is pushed, by what the store does: the maximum can be read, the list is
      not too long, and the watermark of everyone who sent in it can be written.  For chat messages
      a watermark that cannot be written is no obstacle if the error reads as redis.Nil. */
  lemma PushedIff(b: Batch, m: MsgData)
    requires Judged(b) && Disjoint(b.lists)
    ensures m in b.lists.storageMsg ==>
      (m in Pushed(BatchEvents(b)) <==>
        && !b.chat.faults.getMaxFails && |b.lists.storageMsg| <= 100
        && ((forall x :: x in b.lists.storageMsg ==> x.parties.sendID in b.chat.faults.written) || b.chat.faults.readError == RedisNil))
    ensures m in b.lists.storageNotification ==>
      (m in Pushed(BatchEvents(b)) <==>
        && !b.notification.faults.getMaxFails && |b.lists.storageNotification| <= 100
        && forall x :: x in b.lists.storageNotification ==> x.parties.sendID in b.notification.faults.written)
  {
    PushedBatch(b);
    SendersWithin(b.lists.storageMsg, b.chat.faults.written);
    SendersWithin(b.lists.storageNotification, b.notification.faults.written);
    if m in b.lists.storageMsg {
      OnlyInStorage(b.lists, m);
    }
    if m in b.lists.storageNotification {
      OnlyInNotifications(b.lists, m);
    }
  }

  lemma OnlyInStorage(ls: Lists, m: MsgData)
    requires Disjoint(ls) && m in ls.storageMsg
    ensures m !in ls.notStorageMsg && m !in ls.storageNotification && m !in ls.notStorageNotification
  {
    assert m in ls.At(StorageMsg);
    assert m !in ls.At(NotStorageMsg) && m !in ls.At(StorageNotification) && m !in ls.At(NotStorageNotification);
  }

  lemma OnlyInNotifications(ls: Lists, m: MsgData)
    requires Disjoint(ls) && m in ls.storageNotification
    ensures m !in ls.storageMsg && m !in ls.notStorageMsg && m !in ls.notStorageNotification
  {
    assert m in ls.At(StorageNotification);
    assert m !in ls.At(NotStorageMsg) && m !in ls.At(StorageMsg) && m !in ls.At(NotStorageNotification);
  }

  /** Once numbering does not fail and every watermark is written, a stored message, chat or
      notification, is pushed exactly when its list has at most SINGLE_DOC_MSG_NUM messages. */
  lemma PushedIffSmall(b: Batch, m: MsgData)
    requires Judged(b) && Disjoint(b.lists)
    requires m in b.lists.storageMsg ==> !b.chat.faults.getMaxFails && SenderSet(Senders(b.lists.storageMsg)) <= b.chat.faults.written
    requires m in b.lists.storageNotification ==>
      !b.notification.faults.getMaxFails && SenderSet(Senders(b.lists.storageNotification)) <= b.notification.faults.written
    ensures m in b.lists.storageMsg ==>
      (m in Pushed(BatchEvents(b)) <==> |b.lists.storageMsg| <= SINGLE_DOC_MSG_NUM)
    ensures m in b.lists.storageNotification ==>
      (m in Pushed(BatchEvents(b)) <==> |b.lists.storageNotification| <= SINGLE_DOC_MSG_NUM)
  {
    PushedBatch(b);
    if m in b.lists.storageMsg {
      OnlyInStorage(b.lists, m);
    }
    if m in b.lists.storageNotification {
      OnlyInNotifications(b.lists, m);
    }
  }

  /** A list that is too long is refused whatever else happens: its messages are neither pushed
      nor handed over. */
  lemma LongListNeverGoesOn(b: Batch, m: MsgData)
    requires Judged(b) && Disjoint(b.lists)
    ensures m in b.lists.storageMsg && |b.lists.storageMsg| > SINGLE_DOC_MSG_NUM ==>
      m !in Pushed(BatchEvents(b)) && forall e :: e in BatchEvents(b) && e.ToMongo? ==> e.msgs != b.lists.storageMsg
    ensures m in b.lists.storageNotification && |b.lists.storageNotification| > SINGLE_DOC_MSG_NUM ==>
      m !in Pushed(BatchEvents(b)) && forall e :: e in BatchEvents(b) && e.ToMongo? ==> e.msgs != b.lists.storageNotification
  {
    PushedBatch(b);
    if m in b.lists.storageMsg {
      OnlyInStorage(b.lists, m);
      HandedOver(b);
    }
    if m in b.lists.storageNotification {
      OnlyInNotifications(b.lists, m);
      HandedOver(b);
    }
  }

  /** Only accepted lists are handed over. */
  lemma HandedOver(b: Batch)
    ensures forall e :: e in BatchEvents(b) && e.ToMongo? ==>
      (b.chat.accepted && e.msgs == b.lists.storageMsg) || (b.notification.accepted && e.msgs == b.lists.storageNotification)
  {
    StoreHandsOver(b.key, b.chatID, b.lists.storageMsg, b.chat);
    StoreHandsOver(b.key, b.notificationID, b.lists.storageNotification, b.notification);
  }

  lemma StoreHandsOver(key: string, c: string, storage: seq<MsgData>, o: Outcome)
    ensures forall e :: e in StoreEvents(key, c, storage, o) && e.ToMongo? ==> o.accepted && e.msgs == storage
  {
  }

  // ---------- the cache ----------

  /** A stored message that is pushed is in the cache exactly when the write of that message
      succeeded: a failed one is logged and forgotten. */
  lemma PushedIsCachedIff(b: Batch, i: nat)
    requires Judged(b) && Disjoint(b.lists) && Distinct(b.lists.storageMsg) && Distinct(b.lists.storageNotification)
    ensures i < |b.lists.storageMsg| && b.chat.accepted ==>
      && b.lists.storageMsg[i] in Pushed(BatchEvents(b))
      && ((b.chatID, b.lists.storageMsg[i]) in BatchCached(b) <==> i in b.chat.faults.cached)
    ensures i < |b.lists.storageNotification| && b.notification.accepted ==>
      && b.lists.storageNotification[i] in Pushed(BatchEvents(b))
      && ((b.notificationID, b.lists.storageNotification[i]) in BatchCached(b) <==> i in b.notification.faults.cached)
  {
    PushedBatch(b);
    if i < |b.lists.storageMsg| && b.chat.accepted {
      OnlyInStorage(b.lists, b.lists.storageMsg[i]);
      CachedExact(b.chatID, b.lists.storageMsg, b.chat.faults.cached, i);
    }
    if i < |b.lists.storageNotification| && b.notification.accepted {
      OnlyInNotifications(b.lists, b.lists.storageNotification[i]);
      CachedExact(b.notificationID, b.lists.storageNotification, b.notification.faults.cached, i);
    }
  }

  lemma CachedExact(c: string, msgs: seq<MsgData>, positions: set<nat>, i: nat)
    requires Distinct(msgs) && i < |msgs|
    ensures (c, msgs[i]) in Cached(c, msgs, positions) <==> i in positions
  {
  }
}
