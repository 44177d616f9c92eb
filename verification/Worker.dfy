/** A worker's handling of one command (Run, handleMsg, handleNotification, toPushTopic):
  classify, store, hand over to Mongo, push.  Every effect is an entry of a log. */
module Worker {
  import opened Conversation
  import opened Messages
  import opened Classifier
  import opened ClassifierTheorems
  import opened SeqStore
  import Batches
  import opened Watermarks

  datatype Event<R> =
    | Push(key: string, conversationID: string, msg: R)
    | Stored(conversationID: string, msgs: seq<R>, accepted: bool)
    | FirstConversation(conversationID: string, msg: R)
    | ToMongo(key: string, conversationID: string, msgs: seq<R>, sent: bool)
    | ToModify(key: string, conversationID: string, msgs: seq<R>)

  /** How handling one stored list went: the faults it met, whether the insert lets it go on,
      whether the conversation is created, whether the hand-over to Mongo succeeds. */
  datatype Outcome = Outcome(faults: Faults, accepted: bool, created: bool, sent: bool)

  function Pushes<R>(key: string, conversationID: string, msgs: seq<R>): seq<Event<R>> {
    seq(|msgs|, i requires 0 <= i < |msgs| => Push(key, conversationID, msgs[i]))
  }

  /** What follows an accepted insert. */
  function NextTopics<R>(key: string, c: string, storage: seq<R>, o: Outcome): seq<Event<R>>
    requires storage != []
  {
    (if o.created then [FirstConversation(c, storage[0])] else [])
    + ([ToMongo(key, c, storage, o.sent)] + Pushes(key, c, storage))
  }

  /** What storing a list does: what is stored is pushed only behind an accepted insert and a
      hand-over to Mongo. */
  function StoreEvents<R>(key: string, c: string, storage: seq<R>, o: Outcome): seq<Event<R>> {
    if storage == [] then []
    else [Stored(c, storage, o.accepted)] + (if o.accepted then NextTopics(key, c, storage, o) else [])
  }

  /** The effects of handling one kind of message: what is not stored is pushed at once. */
  function Handle<R>(key: string, c: string, storage: seq<R>, notStorage: seq<R>, o: Outcome): seq<Event<R>> {
    Pushes(key, c, notStorage) + StoreEvents(key, c, storage, o)
  }

  /** Whether an insert gets as far as numbering its messages. */
  predicate Numbered(n: nat, faults: Faults) {
    !faults.getMaxFails && 1 <= n <= SINGLE_DOC_MSG_NUM
  }

  /** When an insert of chat messages lets them go on: they are numbered, and either every
      sender's watermark is written or the failed write reports redis.Nil. */
  predicate ChatAccepted(senders: seq<string>, faults: Faults) {
    Numbered(|senders|, faults) && (SenderSet(senders) <= faults.written || faults.readError == RedisNil)
  }

  /** The same for notifications, for which redis.Nil is an error like any other. */
  predicate NotificationAccepted(senders: seq<string>, faults: Faults) {
    Numbered(|senders|, faults) && SenderSet(senders) <= faults.written
  }

  /** The session types for which a new conversation is created. */
  predicate Creates(kind: SessionType) {
    kind.SuperGroupChat? || kind.SingleChat? || kind.NotificationChat?
  }

  /** That is for all but ordinary groups, whose type has no case of its own. */
  lemma CreatesIff(kind: SessionType)
    ensures Creates(kind) <==> kind in {SingleChat, SuperGroupChat, NotificationChat}
    ensures !Creates(GroupChat)
  {
  }

  /** The insert of one list as a request on the stored numbers. */
  function InsertOps(c: string, senders: seq<string>, faults: Faults): seq<Op> {
    if Numbered(|senders|, faults) then [Insert(c, senders, faults.setMaxOk, faults.written)] else []
  }

  function SeqNos(ms: seq<MsgData>): (r: seq<int>)
    reads ms
    ensures |r| == |ms|
    ensures forall i :: 0 <= i < |ms| ==> r[i] == ms[i].seqNo
  {
    seq(|ms|, i requires 0 <= i < |ms| reads ms => ms[i].seqNo)
  }

  /** The stored numbers after one insert. */
  function AfterInsert(s: Seqs, c: string, senders: seq<string>, faults: Faults): Seqs {
    if Numbered(|senders|, faults) then Apply(s, Insert(c, senders, faults.setMaxOk, faults.written)) else s
  }

  /** An insert that is not numbered changes nothing. */
  lemma AfterApply(s: Seqs, c: string, senders: seq<string>, faults: Faults)
    ensures AfterInsert(s, c, senders, faults) ==
            if faults.getMaxFails then s else Apply(s, Insert(c, senders, faults.setMaxOk, faults.written))
  {
  }

  lemma RunOfInsert(s: Seqs, c: string, senders: seq<string>, faults: Faults)
    ensures SeqStore.Run(s, InsertOps(c, senders, faults)) == AfterInsert(s, c, senders, faults)
  {
    var ops := InsertOps(c, senders, faults);
    if ops != [] {
      assert ops[1..] == [];
    }
  }

  /** What can be seen of a store and of the messages of one insert. */
  datatype Sight = Sight(seqs: Seqs, cached: set<(string, MsgData)>, numbers: seq<int>)

  ghost function Seen(store: MsgStore, msgs: seq<MsgData>): Sight
    reads store, msgs
  {
    Sight(store.View(), store.cached, SeqNos(msgs))
  }

  /** What an insert leaves behind: the numbers moved on, the messages numbered, and those cached
      whose writes succeed. */
  ghost predicate LeftBy(now: Sight, c: string, msgs: seq<MsgData>, faults: Faults, before: Sight) {
    && now.seqs == AfterInsert(before.seqs, c, Senders(msgs), faults)
    && now.cached == before.cached + CachedBy(c, msgs, faults)
    && Carries(now.numbers, faults, before.seqs.Max(c))
  }

  function CachedBy(c: string, msgs: seq<MsgData>, faults: Faults): set<(string, MsgData)> {
    if Numbered(|msgs|, faults) then Cached(c, msgs, faults.cached) else {}
  }

  /** Messages that were numbered carry the numbers after `base`. */
  ghost predicate Carries(numbers: seq<int>, faults: Faults, base: int) {
    Numbered(|numbers|, faults) ==> numbers == Range(base, base + |numbers|)
  }

  lemma NumbersFollow(msgs: seq<MsgData>, faults: Faults, base: int)
    requires Numbered(|msgs|, faults) ==> forall i :: 0 <= i < |msgs| ==> msgs[i].Value().seqNo == base + 1 + i
    ensures Carries(SeqNos(msgs), faults, base)
  {
  }

  /** The log of handling one kind of message, entry by entry. */
  lemma HandleAdds<R>(log: seq<Event<R>>, key: string, c: string, storage: seq<R>, notStorage: seq<R>, o: Outcome)
    ensures log + Pushes(key, c, notStorage) + StoreEvents(key, c, storage, o) == log + Handle(key, c, storage, notStorage, o)
    ensures storage == [] ==> log + Pushes(key, c, notStorage) == log + Handle(key, c, storage, notStorage, o)
  {
    var x := Pushes(key, c, notStorage);
    Batches.Assoc(log, x, StoreEvents(key, c, storage, o));
    assert x + [] == x;
  }

  lemma StoreAdds<R>(log: seq<Event<R>>, key: string, c: string, storage: seq<R>, o: Outcome)
    requires storage != []
    ensures !o.accepted ==> log + [Stored(c, storage, false)] == log + StoreEvents(key, c, storage, o)
    ensures o.accepted ==>
              log + [Stored(c, storage, true)] + NextTopics(key, c, storage, o) == log + StoreEvents(key, c, storage, o)
  {
    if o.accepted {
      Batches.Assoc(log, [Stored(c, storage, true)], NextTopics(key, c, storage, o));
    } else {
      assert [Stored(c, storage, false)] + [] == [Stored(c, storage, false)];
    }
  }

  class Worker {
    const store: MsgStore
    var log: seq<Event<MsgData>>

    constructor (store: MsgStore)
      ensures this.store == store && log == []
    {
      this.store := store;
      log := [];
    }

    method ToPushTopic(key: string, conversationID: string, msgs: seq<MsgData>)
      modifies this`log
      ensures log == old(log) + Pushes(key, conversationID, msgs)
    {
      for i := 0 to |msgs|
        invariant log == old(log) + Pushes(key, conversationID, msgs[..i])
      {
        log := log + [Push(key, conversationID, msgs[i])];
      }
      assert msgs[..|msgs|] == msgs;
    }

    /** What follows an accepted insert. */
    method ToNextTopics(key: string, conversationID: string, storageList: seq<MsgData>, ghost o: Outcome, created: bool, sent: bool)
      requires storageList != [] && o.created == created && o.sent == sent
      modifies this`log
      ensures log == old(log) + NextTopics(key, conversationID, storageList, o)
    {
      ghost var l0 := log;
      if created {
        log := log + [FirstConversation(conversationID, storageList[0])];
      }
      assert log == l0 + if created then [FirstConversation(conversationID, storageList[0])] else [];
      log := log + [ToMongo(key, conversationID, storageList, sent)];
      ToPushTopic(key, conversationID, storageList);
    }

    /** The insert, and whether its failure is one that lets chat messages go on. */
    method InsertInto(conversationID: string, msgs: seq<MsgData>, faults: Faults) returns (failed: bool, fatal: bool, isNew: bool)
      requires Distinct(msgs) && msgs != []
      modifies store`maxSeq, store`hasRead, store`cached, msgs
      ensures LeftBy(Seen(store, msgs), conversationID, msgs, faults, old(Seen(store, msgs)))
      ensures forall m :: m in msgs ==> m.Value() == old(m.Value()).(seqNo := m.seqNo)
      ensures !failed <==> NotificationAccepted(Senders(msgs), faults)
      ensures !fatal <==> ChatAccepted(Senders(msgs), faults)
      ensures !fatal ==> (isNew <==> conversationID !in old(store.maxSeq))
    {
      ghost var base := store.View().Max(conversationID);
      var reply := store.BatchInsertChat2Cache(conversationID, msgs, faults);
      NumbersFollow(msgs, faults, base);
      AfterApply(old(store.View()), conversationID, Senders(msgs), faults);
      assert store.View() == AfterInsert(old(store.View()), conversationID, Senders(msgs), faults);
      assert store.cached == old(store.cached) + CachedBy(conversationID, msgs, faults);
      failed := reply.InsertFailed?;
      fatal := reply.InsertFailed? && reply.error != RedisNil;
      isNew := reply.isNew;
    }

    /** Records an insert and, if it lets the messages go on, hands them over. */
    method Advance(key: string, conversationID: string, storageList: seq<MsgData>, accepted: bool, created: bool, sent: bool, ghost o: Outcome)
      requires storageList != [] && o.accepted == accepted && o.created == created && o.sent == sent
      modifies this`log
      ensures log == old(log) + StoreEvents(key, conversationID, storageList, o)
    {
      StoreAdds(log, key, conversationID, storageList, o);
      log := log + [Stored(conversationID, storageList, accepted)];
      if accepted {
        ToNextTopics(key, conversationID, storageList, o, created, sent);
      }
    }

    /** Stores chat messages and, if the insert lets them go on, hands them over. */
    method StoreMsgs(key: string, conversationID: string, storageList: seq<MsgData>, faults: Faults, sent: bool)
      returns (ghost o: Outcome)
      requires Distinct(storageList) && storageList != []
      modifies this`log, store`maxSeq, store`hasRead, store`cached, storageList
      ensures o.faults == faults && o.sent == sent && o.accepted == ChatAccepted(Senders(storageList), faults)
      ensures o.created <==> o.accepted && conversationID !in old(store.maxSeq) && Creates(storageList[0].parties.sessionType)
      ensures log == old(log) + StoreEvents(key, conversationID, storageList, o)
      ensures LeftBy(Seen(store, storageList), conversationID, storageList, faults, old(Seen(store, storageList)))
      ensures forall m :: m in storageList ==> m.Value() == old(m.Value()).(seqNo := m.seqNo)
    {
      var _, fatal, isNew := InsertInto(conversationID, storageList, faults);
      ghost var seen := Seen(store, storageList);
      var created := !fatal && isNew && Creates(storageList[0].parties.sessionType);
      o := Outcome(faults, !fatal, created, sent);
      Advance(key, conversationID, storageList, !fatal, created, sent, o);
      assert Seen(store, storageList) == seen;
    }

    /** Stores and pushes chat messages. */
    method HandleMsg(key: string, conversationID: string, storageList: seq<MsgData>, notStorageList: seq<MsgData>,
                     faults: Faults, sent: bool) returns (ghost o: Outcome)
      requires Distinct(storageList)
      modifies this`log, store`maxSeq, store`hasRead, store`cached, storageList
      ensures o.faults == faults && o.sent == sent && o.accepted == ChatAccepted(Senders(storageList), faults)
      ensures o.created <==> o.accepted && conversationID !in old(store.maxSeq) && Creates(storageList[0].parties.sessionType)
      ensures log == old(log) + Handle(key, conversationID, storageList, notStorageList, o)
      ensures LeftBy(Seen(store, storageList), conversationID, storageList, faults, old(Seen(store, storageList)))
      ensures forall m :: m in storageList ==> m.Value() == old(m.Value()).(seqNo := m.seqNo)
    {
      ToPushTopic(key, conversationID, notStorageList);
      o := Outcome(faults, false, false, sent);
      if |storageList| > 0 {
        o := StoreMsgs(key, conversationID, storageList, faults, sent);
      }
      HandleAdds(old(log), key, conversationID, storageList, notStorageList, o);
    }

    /** Stores notifications and, if the insert succeeds, hands them over. */
    method StoreNotifications(key: string, conversationID: string, storageList: seq<MsgData>, faults: Faults, sent: bool)
      returns (ghost o: Outcome)
      requires Distinct(storageList) && storageList != []
      modifies this`log, store`maxSeq, store`hasRead, store`cached, storageList
      ensures o == Outcome(faults, NotificationAccepted(Senders(storageList), faults), false, sent)
      ensures log == old(log) + StoreEvents(key, conversationID, storageList, o)
      ensures LeftBy(Seen(store, storageList), conversationID, storageList, faults, old(Seen(store, storageList)))
      ensures forall m :: m in storageList ==> m.Value() == old(m.Value()).(seqNo := m.seqNo)
    {
      var failed, _, _ := InsertInto(conversationID, storageList, faults);
      ghost var seen := Seen(store, storageList);
      o := Outcome(faults, !failed, false, sent);
      Advance(key, conversationID, storageList, !failed, false, sent, o);
      assert Seen(store, storageList) == seen;
    }

    /** Stores and pushes notifications. */
    method HandleNotification(key: string, conversationID: string, storageList: seq<MsgData>, notStorageList: seq<MsgData>,
                              faults: Faults, sent: bool) returns (ghost o: Outcome)
      requires Distinct(storageList)
      modifies this`log, store`maxSeq, store`hasRead, store`cached, storageList
      ensures o == Outcome(faults, NotificationAccepted(Senders(storageList), faults), false, sent)
      ensures log == old(log) + Handle(key, conversationID, storageList, notStorageList, o)
      ensures LeftBy(Seen(store, storageList), conversationID, storageList, faults, old(Seen(store, storageList)))
      ensures forall m :: m in storageList ==> m.Value() == old(m.Value()).(seqNo := m.seqNo)
    {
      ToPushTopic(key, conversationID, notStorageList);
      o := Outcome(faults, false, false, sent);
      if |storageList| > 0 {
        o := StoreNotifications(key, conversationID, storageList, faults, sent);
      }
      HandleAdds(old(log), key, conversationID, storageList, notStorageList, o);
    }

    /** Notifications, handled behind a list of other messages, which keep their numbers. */
    method HandleSecond(key: string, conversationID: string, storageList: seq<MsgData>, notStorageList: seq<MsgData>,
                        faults: Faults, sent: bool, ghost first: seq<MsgData>, ghost vals: map<MsgData, Message>) returns (ghost o: Outcome)
      requires Distinct(storageList) && forall m :: m in first ==> m !in storageList
      requires forall m :: m in vals ==> m.Value() == vals[m].(seqNo := m.seqNo)
      modifies this`log, store`maxSeq, store`hasRead, store`cached, storageList
      ensures o == Outcome(faults, NotificationAccepted(Senders(storageList), faults), false, sent)
      ensures log == old(log) + Handle(key, conversationID, storageList, notStorageList, o)
      ensures LeftBy(Seen(store, storageList), conversationID, storageList, faults, old(Seen(store, storageList)))
      ensures SeqNos(first) == old(SeqNos(first))
      ensures forall m :: m in vals ==> m.Value() == vals[m].(seqNo := m.seqNo)
    {
      o := HandleNotification(key, conversationID, storageList, notStorageList, faults, sent);
      assert forall m :: m in first ==> m.seqNo == old(m.seqNo);
      forall m | m in vals
        ensures m.Value() == vals[m].(seqNo := m.seqNo)
      {
        if m in storageList {
          assert m.Value() == old(m.Value()).(seqNo := m.seqNo);
        } else {
          assert m.Value() == old(m.Value());
        }
      }
    }

    /** The two kinds of messages of a classified command, one after the other. */
    method HandleBoth(key: string, chatID: string, notificationID: string, ls: Lists,
                      chatFaults: Faults, chatSent: bool, notificationFaults: Faults, notificationSent: bool,
                      ghost vals: map<MsgData, Message>)
      returns (ghost b: Batch, ghost s1: Seqs)
      requires forall m :: m in vals ==> m.Value() == vals[m]
      requires Distinct(ls.storageMsg) && Distinct(ls.storageNotification)
      requires forall m :: m in ls.storageMsg ==> m !in ls.storageNotification
      modifies this`log, store`maxSeq, store`hasRead, store`cached, ls.storageMsg, ls.storageNotification
      ensures log == old(log) + Handle(key, chatID, ls.storageMsg, ls.notStorageMsg, b.chat)
                     + Handle(key, notificationID, ls.storageNotification, ls.notStorageNotification, b.notification)
      ensures b.key == key && b.chatID == chatID && b.notificationID == notificationID && b.lists == ls
      ensures b.chat.faults == chatFaults && b.notification.faults == notificationFaults && Judged(b)
      ensures b.chat.created <==> b.chat.accepted && chatID !in old(store.maxSeq) && Creates(ls.storageMsg[0].parties.sessionType)
      ensures s1 == AfterInsert(old(store.View()), chatID, Senders(ls.storageMsg), chatFaults)
      ensures store.View() == AfterInsert(s1, notificationID, Senders(ls.storageNotification), notificationFaults)
      ensures store.cached == old(store.cached) + BatchCached(b)
      ensures CarryNumbers(b, old(store.View()), s1)
      ensures forall m :: m in vals ==> m.Value() == vals[m].(seqNo := m.seqNo)
    {
      ghost var chat := HandleMsg(key, chatID, ls.storageMsg, ls.notStorageMsg, chatFaults, chatSent);
      s1 := store.View();
      ghost var notification := HandleSecond(key, notificationID, ls.storageNotification, ls.notStorageNotification,
        notificationFaults, notificationSent, ls.storageMsg, vals);
      b := Batch(key, chatID, notificationID, ls, chat, notification);
    }

    /** The same, with the store told by the requests of the command. */
    method HandleCounted(key: string, chatID: string, notificationID: string, ls: Lists,
                         chatFaults: Faults, chatSent: bool, notificationFaults: Faults, notificationSent: bool,
                         ghost vals: map<MsgData, Message>)
      returns (ghost b: Batch)
      requires Distinct(ls.storageMsg) && Distinct(ls.storageNotification)
      requires forall m :: m in ls.storageMsg ==> m !in ls.storageNotification
      requires forall m :: m in vals ==> m.Value() == vals[m]
      modifies this`log, store`maxSeq, store`hasRead, store`cached, ls.storageMsg, ls.storageNotification
      ensures log == old(log) + Handle(key, chatID, ls.storageMsg, ls.notStorageMsg, b.chat)
                     + Handle(key, notificationID, ls.storageNotification, ls.notStorageNotification, b.notification)
      ensures b.key == key && b.chatID == chatID && b.notificationID == notificationID && b.lists == ls
      ensures b.chat.faults == chatFaults && b.notification.faults == notificationFaults && Judged(b)
      ensures b.chat.created <==> b.chat.accepted && chatID !in old(store.maxSeq) && Creates(ls.storageMsg[0].parties.sessionType)
      ensures store.View() == SeqStore.Run(old(store.View()), BatchOps(b))
      ensures store.cached == old(store.cached) + BatchCached(b)
      ensures CarryAssigned(b, SeqNos(b.lists.storageMsg), SeqNos(b.lists.storageNotification), old(store.View()))
      ensures forall m :: m in vals ==> m.Value() == vals[m].(seqNo := m.seqNo)
    {
      ghost var s1;
      b, s1 := HandleBoth(key, chatID, notificationID, ls, chatFaults, chatSent, notificationFaults, notificationSent, vals);
      TwoInserts(old(store.View()), s1, store.View(), b);
    }

    /** Modifications go to their own topic. */
    method ToModifyTopic(key: string, notificationID: string, modifyMsg: seq<MsgData>)
      modifies this`log
      ensures log == if modifyMsg == [] then old(log) else old(log) + [ToModify(key, notificationID, modifyMsg)]
    {
      if |modifyMsg| > 0 {
        log := log + [ToModify(key, notificationID, modifyMsg)];
      }
    }

    /** The effects of one classified command; `vals` are its messages' values before. */
    method HandleLists(key: string, chatID: string, notificationID: string, ls: Lists,
                       chatFaults: Faults, chatSent: bool, notificationFaults: Faults, notificationSent: bool,
                       ghost vals: map<MsgData, Message>)
      returns (ghost b: Batch)
      requires Distinct(ls.storageMsg) && Distinct(ls.storageNotification)
      requires forall m :: m in ls.storageMsg ==> m !in ls.storageNotification
      requires forall m :: m in vals ==> m.Value() == vals[m]
      modifies this`log, store`maxSeq, store`hasRead, store`cached, ls.storageMsg, ls.storageNotification
      ensures log == old(log) + BatchEvents(b)
      ensures b.key == key && b.chatID == chatID && b.notificationID == notificationID && b.lists == ls
      ensures b.chat.faults == chatFaults && b.notification.faults == notificationFaults && Judged(b)
      ensures b.chat.created <==> b.chat.accepted && chatID !in old(store.maxSeq) && Creates(ls.storageMsg[0].parties.sessionType)
      ensures store.View() == SeqStore.Run(old(store.View()), BatchOps(b))
      ensures store.cached == old(store.cached) + BatchCached(b)
      ensures CarryAssigned(b, SeqNos(b.lists.storageMsg), SeqNos(b.lists.storageNotification), old(store.View()))
      ensures forall m :: m in vals ==> m.Value() == vals[m].(seqNo := m.seqNo)
    {
      b := HandleCounted(key, chatID, notificationID, ls, chatFaults, chatSent, notificationFaults, notificationSent, vals);
      ghost var l2, view, x, y := log, store.View(), SeqNos(ls.storageMsg), SeqNos(ls.storageNotification);
      ToModifyTopic(key, notificationID, ls.modifyMsg);
      BatchEventsFrom(old(log), l2, log, b);
      assert store.View() == view && SeqNos(ls.storageMsg) == x && SeqNos(ls.storageNotification) == y;
    }

    /** One command.  The distribution centre sends no empty group. */
    method Process(uniqueKey: string, ctxMsgList: seq<MsgData>,
                   chatFaults: Faults, chatSent: bool, notificationFaults: Faults, notificationSent: bool)
      returns (ghost b: Batch)
      requires ctxMsgList != [] && Distinct(ctxMsgList)
      modifies this`log, store`maxSeq, store`hasRead, store`cached, ctxMsgList
      ensures log == old(log) + BatchEvents(b)
      ensures b.key == uniqueKey
      ensures b.chatID == ChatConversationID(ctxMsgList[0].parties)
      ensures b.notificationID == NotificationConversationID(ctxMsgList[0].parties)
      ensures b.chat.faults == chatFaults && b.notification.faults == notificationFaults && Judged(b)
      ensures b.chat.created <==> b.chat.accepted && b.chatID !in old(store.maxSeq) && Creates(b.lists.storageMsg[0].parties.sessionType)
      ensures store.View() == SeqStore.Run(old(store.View()), BatchOps(b))
      ensures store.cached == old(store.cached) + BatchCached(b)
      ensures CarryAssigned(b, SeqNos(b.lists.storageMsg), SeqNos(b.lists.storageNotification), old(store.View()))
      ensures Disjoint(b.lists) && forall bin :: Distinct(b.lists.At(bin))
      ensures forall bin, m :: m in b.lists.At(bin) ==> m in ctxMsgList || fresh(m)
      ensures forall bin :: SameButForNumber(b.lists.At(bin), Collect(old(Values(ctxMsgList)), bin))
      ensures forall m :: m in b.lists.storageMsg + b.lists.storageNotification ==> m.options.Is(History)
      ensures forall m :: m in b.lists.notStorageMsg + b.lists.notStorageNotification ==> !m.options.Is(History)
    {
      ghost var vs := Values(ctxMsgList);
      var ls := GetPushStorageMsgList(ctxMsgList);
      assert ls.At(StorageMsg) == ls.storageMsg && ls.At(StorageNotification) == ls.storageNotification;
      assert forall i :: 0 <= i < |ls.storageMsg| ==> ls.storageMsg[i] in ctxMsgList || fresh(ls.storageMsg[i]);
      assert forall i :: 0 <= i < |ls.storageNotification| ==> ls.storageNotification[i] in ctxMsgList;
      assert forall m :: m in ls.At(StorageMsg) ==> m !in ls.At(StorageNotification);
      ghost var vals := AllValues(ls);
      forall bin
        ensures Recorded(vals, ls.At(bin), Collect(vs, bin))
      {
        RecordedNow(vals, ls.At(bin), Collect(vs, bin));
      }
      b := HandleLists(uniqueKey, ChatConversationID(ctxMsgList[0].parties),
        NotificationConversationID(ctxMsgList[0].parties), ls,
        chatFaults, chatSent, notificationFaults, notificationSent, vals);
      forall bin
        ensures SameButForNumber(ls.At(bin), Collect(vs, bin))
      {
        StillSame(vals, ls.At(bin), Collect(vs, bin));
      }
      HistoryOfLists(ls, vs);
    }
  }

  lemma HistoryOfList(ms: seq<MsgData>, vs: seq<Message>, stored: bool)
    requires SameButForNumber(ms, vs) && forall x :: x in vs ==> (x.options.Is(History) <==> stored)
    ensures forall m :: m in ms ==> (m.options.Is(History) <==> stored)
  {
    forall m | m in ms
      ensures m.options.Is(History) <==> stored
    {
      var i :| 0 <= i < |ms| && ms[i] == m;
      assert vs[i] in vs && m.Value().options == vs[i].options;
    }
  }

  /** What is stored is what the history flag says, and what is only pushed is the rest. */
  lemma HistoryOfLists(ls: Lists, vs: seq<Message>)
    requires forall bin :: SameButForNumber(ls.At(bin), Collect(vs, bin))
    ensures forall m :: m in ls.storageMsg + ls.storageNotification ==> m.options.Is(History)
    ensures forall m :: m in ls.notStorageMsg + ls.notStorageNotification ==> !m.options.Is(History)
  {
    forall x
      ensures x in Collect(vs, StorageMsg) || x in Collect(vs, StorageNotification) ==> x.options.Is(History)
      ensures x in Collect(vs, NotStorageMsg) || x in Collect(vs, NotStorageNotification) ==> !x.options.Is(History)
    {
      HistoryDecides(vs, x);
    }
    HistoryOfList(ls.At(StorageMsg), Collect(vs, StorageMsg), true);
    HistoryOfList(ls.At(StorageNotification), Collect(vs, StorageNotification), true);
    HistoryOfList(ls.At(NotStorageMsg), Collect(vs, NotStorageMsg), false);
    HistoryOfList(ls.At(NotStorageNotification), Collect(vs, NotStorageNotification), false);
  }

  function Everything(ls: Lists): seq<MsgData> {
    ls.storageMsg + ls.notStorageMsg + ls.storageNotification + ls.notStorageNotification + ls.modifyMsg
  }

  lemma WhichList(ls: Lists, m: MsgData) returns (bin: Bin)
    requires m in Everything(ls)
    ensures m in ls.At(bin)
  {
    bin := if m in ls.storageMsg then StorageMsg else if m in ls.notStorageMsg then NotStorageMsg
           else if m in ls.storageNotification then StorageNotification
           else if m in ls.notStorageNotification then NotStorageNotification else ModifyMsg;
  }

  /** The messages of five lists and their values. */
  ghost function AllValues(ls: Lists): (vals: map<MsgData, Message>)
    reads ls.storageMsg, ls.notStorageMsg, ls.storageNotification, ls.notStorageNotification, ls.modifyMsg
    ensures forall bin, m :: m in ls.At(bin) ==> m in vals
    ensures forall m :: m in vals ==> m.Value() == vals[m] && m in Everything(ls)
  {
    map m | m in Everything(ls) :: m.Value()
  }

  ghost predicate Recorded(vals: map<MsgData, Message>, ms: seq<MsgData>, vs: seq<Message>) {
    |ms| == |vs| && forall i :: 0 <= i < |ms| ==> ms[i] in vals && vals[ms[i]] == vs[i]
  }

  lemma RecordedNow(vals: map<MsgData, Message>, ms: seq<MsgData>, vs: seq<Message>)
    requires Denotes(ms, vs) && forall m :: m in ms ==> m in vals && m.Value() == vals[m]
    ensures Recorded(vals, ms, vs)
  {
    assert forall i :: 0 <= i < |ms| ==> ms[i] in ms;
  }

  lemma StillSame(vals: map<MsgData, Message>, ms: seq<MsgData>, vs: seq<Message>)
    requires Recorded(vals, ms, vs)
    requires forall m :: m in ms ==> m.Value() == vals[m].(seqNo := m.seqNo)
    ensures SameButForNumber(ms, vs)
  {
    assert forall i :: 0 <= i < |ms| ==> ms[i] in ms;
  }

  /** A handled command: its lists, and how each of its two inserts went. */
  datatype Batch = Batch(key: string, chatID: string, notificationID: string, lists: Lists, chat: Outcome, notification: Outcome)

  /** The outcomes are those the faults lead to. */
  predicate Judged(b: Batch) {
    && b.chat.accepted == ChatAccepted(Senders(b.lists.storageMsg), b.chat.faults)
    && b.notification.accepted == NotificationAccepted(Senders(b.lists.storageNotification), b.notification.faults)
    && (b.chat.created ==> b.chat.accepted) && !b.notification.created
  }

  function BatchEvents(b: Batch): seq<Event<MsgData>> {
    Handle(b.key, b.chatID, b.lists.storageMsg, b.lists.notStorageMsg, b.chat)
    + Handle(b.key, b.notificationID, b.lists.storageNotification, b.lists.notStorageNotification, b.notification)
    + (if b.lists.modifyMsg == [] then [] else [ToModify(b.key, b.notificationID, b.lists.modifyMsg)])
  }

  /** A command's inserts as requests on the stored numbers. */
  function BatchOps(b: Batch): seq<Op> {
    InsertOps(b.chatID, Senders(b.lists.storageMsg), b.chat.faults)
    + InsertOps(b.notificationID, Senders(b.lists.storageNotification), b.notification.faults)
  }

  function BatchCached(b: Batch): set<(string, MsgData)> {
    CachedBy(b.chatID, b.lists.storageMsg, b.chat.faults)
    + CachedBy(b.notificationID, b.lists.storageNotification, b.notification.faults)
  }

  /** The messages of one conversation a command numbers. */
  function NumberedOf(b: Batch, c: string): seq<MsgData> {
    ChatNumbered(b, c) + NotificationNumbered(b, c)
  }

  function ChatNumbered(b: Batch, c: string): seq<MsgData> {
    if b.chatID == c && Numbered(|b.lists.storageMsg|, b.chat.faults) then b.lists.storageMsg else []
  }

  function NotificationNumbered(b: Batch, c: string): seq<MsgData> {
    if b.notificationID == c && Numbered(|b.lists.storageNotification|, b.notification.faults)
    then b.lists.storageNotification else []
  }

  // ---------- requests one after another ----------

  lemma {:induction false} RunConcat(s: Seqs, a: seq<Op>, b: seq<Op>)
    ensures SeqStore.Run(s, a + b) == SeqStore.Run(SeqStore.Run(s, a), b)
    decreases |a|
  {
    if a == [] {
      assert a + b == b;
    } else {
      assert (a + b)[0] == a[0] && (a + b)[1..] == a[1..] + b;
      RunConcat(Apply(s, a[0]), a[1..], b);
    }
  }

  lemma FirstOf(s: Seqs, ops: seq<Op>, c: string, s': Seqs, first: seq<int>)
    requires ops != [] && s' == Apply(s, ops[0])
    requires first == if InsertsInto(ops[0], c) then Range(s.Max(c), s.Max(c) + |ops[0].senders|) else []
    ensures Assigned(s, ops, c) == first + Assigned(s', ops[1..], c)
    ensures SeqStore.Run(s, ops) == SeqStore.Run(s', ops[1..])
  {
    AssignedSplit(s, ops, c);
  }

  /** What the first request of two runs that begin alike gives out, and where it leaves them. */
  lemma FirstRequest(s: Seqs, x: seq<Op>, y: seq<Op>, c: string) returns (s': Seqs, first: seq<int>)
    requires x != [] && y != [] && x[0] == y[0]
    ensures Assigned(s, x, c) == first + Assigned(s', x[1..], c) && SeqStore.Run(s, x) == SeqStore.Run(s', x[1..])
    ensures Assigned(s, y, c) == first + Assigned(s', y[1..], c)
  {
    s', first := Apply(s, x[0]), if InsertsInto(x[0], c) then Range(s.Max(c), s.Max(c) + |x[0].senders|) else [];
    FirstOf(s, x, c, s', first);
    FirstOf(s, y, c, s', first);
  }

  lemma Prepended<T>(first: seq<T>, x: seq<T>, y: seq<T>, z: seq<T>)
    requires y == x + z
    ensures first + y == first + x + z
  {
  }

  lemma {:induction false} AssignedConcat(s: Seqs, a: seq<Op>, b: seq<Op>, c: string)
    ensures Assigned(s, a + b, c) == Assigned(s, a, c) + Assigned(SeqStore.Run(s, a), b, c)
    decreases |a|
  {
    if a == [] {
      assert a + b == b;
    } else {
      var rest, all := a[1..], a + b;
      assert all[0] == a[0] && all[1..] == rest + b;
      var s', first := FirstRequest(s, a, all, c);
      AssignedConcat(s', rest, b, c);
      Prepended(first, Assigned(s', rest, c), Assigned(s', rest + b, c), Assigned(SeqStore.Run(s', rest), b, c));
    }
  }

  /** The numbers one insert gives out. */
  lemma AssignedByInsert(s: Seqs, d: string, senders: seq<string>, faults: Faults, c: string)
    ensures Assigned(s, InsertOps(d, senders, faults), c) ==
            if d == c && Numbered(|senders|, faults) then Range(s.Max(d), s.Max(d) + |senders|) else []
  {
    var ops := InsertOps(d, senders, faults);
    if ops != [] {
      AssignedSplit(s, ops, c);
      assert ops[1..] == [];
    }
  }

  /** Each numbered list of a command carries the numbers that follow the maximum it met. */
  ghost predicate CarryNumbers(b: Batch, s0: Seqs, s1: Seqs)
    reads b.lists.storageMsg, b.lists.storageNotification
  {
    && Carries(SeqNos(b.lists.storageMsg), b.chat.faults, s0.Max(b.chatID))
    && Carries(SeqNos(b.lists.storageNotification), b.notification.faults, s1.Max(b.notificationID))
  }

  /** The numbers of one conversation's messages, those of the command's two stored lists being
      `x` and `y`. */
  function NumbersBy(b: Batch, c: string, x: seq<int>, y: seq<int>): seq<int> {
    (if b.chatID == c && Numbered(|b.lists.storageMsg|, b.chat.faults) then x else [])
    + (if b.notificationID == c && Numbered(|b.lists.storageNotification|, b.notification.faults) then y else [])
  }

  lemma NumbersOfLists(b: Batch, c: string)
    ensures SeqNos(NumberedOf(b, c)) == NumbersBy(b, c, SeqNos(b.lists.storageMsg), SeqNos(b.lists.storageNotification))
  {
    SeqNosConcat(ChatNumbered(b, c), NotificationNumbered(b, c));
  }

  /** The messages of each conversation carry the numbers its requests give out. */
  ghost predicate CarryAssigned(b: Batch, x: seq<int>, y: seq<int>, s0: Seqs) {
    forall c :: NumbersBy(b, c, x, y) == Assigned(s0, BatchOps(b), c)
  }

  lemma TwoInserts(s0: Seqs, s1: Seqs, s2: Seqs, b: Batch)
    requires s1 == AfterInsert(s0, b.chatID, Senders(b.lists.storageMsg), b.chat.faults)
    requires s2 == AfterInsert(s1, b.notificationID, Senders(b.lists.storageNotification), b.notification.faults)
    requires CarryNumbers(b, s0, s1)
    ensures s2 == SeqStore.Run(s0, BatchOps(b))
    ensures CarryAssigned(b, SeqNos(b.lists.storageMsg), SeqNos(b.lists.storageNotification), s0)
  {
    var x := InsertOps(b.chatID, Senders(b.lists.storageMsg), b.chat.faults);
    var y := InsertOps(b.notificationID, Senders(b.lists.storageNotification), b.notification.faults);
    RunOfInsert(s0, b.chatID, Senders(b.lists.storageMsg), b.chat.faults);
    RunOfInsert(s1, b.notificationID, Senders(b.lists.storageNotification), b.notification.faults);
    RunConcat(s0, x, y);
    forall c
      ensures NumbersBy(b, c, SeqNos(b.lists.storageMsg), SeqNos(b.lists.storageNotification)) == Assigned(s0, BatchOps(b), c)
    {
      AssignedConcat(s0, x, y, c);
      OneInsertAt(s0, b.chatID, b.lists.storageMsg, b.chat.faults, c);
      OneInsertAt(s1, b.notificationID, b.lists.storageNotification, b.notification.faults, c);
    }
  }

  lemma OneInsertAt(s: Seqs, d: string, msgs: seq<MsgData>, faults: Faults, c: string)
    requires Carries(SeqNos(msgs), faults, s.Max(d))
    ensures Assigned(s, InsertOps(d, Senders(msgs), faults), c) ==
            if d == c && Numbered(|msgs|, faults) then SeqNos(msgs) else []
  {
    AssignedByInsert(s, d, Senders(msgs), faults, c);
  }

  lemma SeqNosConcat(a: seq<MsgData>, b: seq<MsgData>)
    ensures SeqNos(a + b) == SeqNos(a) + SeqNos(b)
  {
  }

  // ---------- logs one after another ----------

  lemma BatchEventsFrom(l0: seq<Event<MsgData>>, l2: seq<Event<MsgData>>, l3: seq<Event<MsgData>>, b: Batch)
    requires l2 == l0 + Handle(b.key, b.chatID, b.lists.storageMsg, b.lists.notStorageMsg, b.chat)
                   + Handle(b.key, b.notificationID, b.lists.storageNotification, b.lists.notStorageNotification, b.notification)
    requires l3 == if b.lists.modifyMsg == [] then l2 else l2 + [ToModify(b.key, b.notificationID, b.lists.modifyMsg)]
    ensures l3 == l0 + BatchEvents(b)
  {
    var x := Handle(b.key, b.chatID, b.lists.storageMsg, b.lists.notStorageMsg, b.chat);
    var y := Handle(b.key, b.notificationID, b.lists.storageNotification, b.lists.notStorageNotification, b.notification);
    var z := if b.lists.modifyMsg == [] then [] else [ToModify(b.key, b.notificationID, b.lists.modifyMsg)];
    Associate(l0, x, y, z);
    assert l2 + [] == l2;
  }

  lemma Associate<T>(a: seq<T>, x: seq<T>, y: seq<T>, z: seq<T>)
    ensures a + x + y + z == a + (x + y + z) == a + (x + (y + z))
  {
  }

  ghost predicate SameButForNumber(ms: seq<MsgData>, vs: seq<Message>)
    reads ms
  {
    |ms| == |vs| && forall i :: 0 <= i < |ms| ==> ms[i].Value() == vs[i].(seqNo := ms[i].seqNo)
  }
}
