/** What the classifier keeps, and where its output is stored. */
module ClassifierTheorems {
  import opened Conversation
  import opened Positions
  import opened Messages
  import opened Classifier

  // ---------- conservation and order ----------

  lemma SumsAdd<T>(a: seq<T>, b: seq<T>, c: seq<T>, d: seq<T>, e: seq<T>, f: seq<T>,
                   a': seq<T>, b': seq<T>, c': seq<T>, d': seq<T>, e': seq<T>, f': seq<T>)
    requires multiset(a) + multiset(b) + multiset(c) + multiset(d) == multiset(e) + multiset(f)
    requires multiset(a') + multiset(b') + multiset(c') + multiset(d') == multiset(e') + multiset(f')
    ensures multiset(a + a') + multiset(b + b') + multiset(c + c') + multiset(d + d') == multiset(e + e') + multiset(f + f')
  {
    calc {
      multiset(a + a') + multiset(b + b') + multiset(c + c') + multiset(d + d');
      (multiset(a) + multiset(b) + multiset(c) + multiset(d)) + (multiset(a') + multiset(b') + multiset(c') + multiset(d'));
      (multiset(e) + multiset(f)) + (multiset(e') + multiset(f'));
      multiset(e + e') + multiset(f + f');
    }
  }

  /** What the last message of a batch adds. */
  lemma LastMessageConserved(ms: seq<Message>)
    returns (a: seq<Message>, b: seq<Message>, c: seq<Message>, d: seq<Message>, e: seq<Message>, f: seq<Message>)
    requires ms != []
    ensures var rest := ms[..|ms| - 1];
            && Collect(ms, StorageMsg) == Collect(rest, StorageMsg) + a
            && Collect(ms, NotStorageMsg) == Collect(rest, NotStorageMsg) + b
            && Collect(ms, StorageNotification) == Collect(rest, StorageNotification) + c
            && Collect(ms, NotStorageNotification) == Collect(rest, NotStorageNotification) + d
            && EditedAll(ms) == EditedAll(rest) + e
            && Clones(ms) == Clones(rest) + f
    ensures multiset(a) + multiset(b) + multiset(c) + multiset(d) == multiset(e) + multiset(f)
  {
    var m := ms[|ms| - 1];
    a, b := Into(m, StorageMsg), Into(m, NotStorageMsg);
    c, d := Into(m, StorageNotification), Into(m, NotStorageNotification);
    e, f := [Edited(m)], CloneIfAny(m);
  }

  /** Nothing is lost or doubled: the four lists together are the edited inputs, each once,
      and one clone for every notification that is also sent as a message. */
  lemma {:induction false} ClassifierConserves(ms: seq<Message>)
    ensures multiset(Collect(ms, StorageMsg)) + multiset(Collect(ms, NotStorageMsg))
            + multiset(Collect(ms, StorageNotification)) + multiset(Collect(ms, NotStorageNotification))
            == multiset(EditedAll(ms)) + multiset(Clones(ms))
  {
    if ms == [] {
    } else {
      var rest := ms[..|ms| - 1];
      ClassifierConserves(rest);
      var a, b, c, d, e, f := LastMessageConserved(ms);
      SumsAdd(Collect(rest, StorageMsg), Collect(rest, NotStorageMsg), Collect(rest, StorageNotification),
              Collect(rest, NotStorageNotification), EditedAll(rest), Clones(rest), a, b, c, d, e, f);
    }
  }

  lemma IntoAtMostOne(m: Message, bin: Bin)
    ensures |Into(m, bin)| <= 1
  {
  }

  /** What each message adds to one list. */
  function Added(ms: seq<Message>, bin: Bin): seq<seq<Message>> {
    seq(|ms|, i requires 0 <= i < |ms| => Into(ms[i], bin))
  }

  /** Where a list's elements come from: `from` names the positions that add them. */
  ghost predicate ComesFrom<T>(added: seq<seq<T>>, list: seq<T>, from: seq<nat>) {
    && |from| == |list| && Increasing(from)
    && (forall i :: 0 <= i < |from| ==> from[i] < |added| && added[from[i]] == [list[i]])
    && (forall p :: 0 <= p < |added| && added[p] != [] ==> p in from)
  }

  /** Every list keeps input order: its elements come from strictly increasing input positions,
      and a position is used exactly when its message belongs in the list. */
  lemma {:induction false} CollectKeepsOrder(ms: seq<Message>, bin: Bin) returns (from: seq<nat>)
    ensures ComesFrom(Added(ms, bin), Collect(ms, bin), from)
  {
    if ms == [] {
      from := [];
    } else {
      var rest, last := ms[..|ms| - 1], ms[|ms| - 1];
      var before := CollectKeepsOrder(rest, bin);
      IntoAtMostOne(last, bin);
      assert Added(ms, bin) == Added(rest, bin) + [Into(last, bin)];
      from := ComesFromStep(Added(rest, bin), Collect(rest, bin), Into(last, bin), before);
    }
  }

  lemma ComesFromStep<T>(added: seq<seq<T>>, list: seq<T>, last: seq<T>, before: seq<nat>) returns (from: seq<nat>)
    requires ComesFrom(added, list, before) && |last| <= 1
    ensures ComesFrom(added + [last], list + last, from)
  {
    if last == [] {
      from := before;
      assert list + last == list;
    } else {
      from := before + [|added|];
      forall p | 0 <= p < |added + [last]| && (added + [last])[p] != []
        ensures p in from
      {
        assert p < |added| ==> p in before;
        assert from[|before|] == |added|;
      }
    }
  }

  // ---------- which list, by the flags alone ----------

  /** The history flag of what is stored is set, and of what is not stored it is not; chat lists
      hold chat messages and notification lists notifications. */
  lemma HistoryDecides(ms: seq<Message>, x: Message)
    ensures x in Collect(ms, StorageMsg) ==> x.options.Is(History) && x.options.Is(NotNotification)
    ensures x in Collect(ms, StorageNotification) ==> x.options.Is(History) && !x.options.Is(NotNotification)
    ensures x in Collect(ms, NotStorageMsg) ==> !x.options.Is(History) && x.options.Is(NotNotification)
    ensures x in Collect(ms, NotStorageNotification) ==> !x.options.Is(History) && !x.options.Is(NotNotification)
  {
    forall bin | bin != ModifyMsg && x in Collect(ms, bin)
      ensures x.options.Is(History) <==> bin == StorageMsg || bin == StorageNotification
      ensures x.options.Is(NotNotification) <==> bin == StorageMsg || bin == NotStorageMsg
    {
      var m := CollectOrigin(ms, bin, x);
      if Cloned(m) {
        FlagsMoveToClone(m);
      }
    }
  }

  /** Whether a message is to go to a list: a notification that is also to be sent goes to the
      stored chat list whatever its history flag says. */
  predicate Belongs(m: Message, bin: Bin) {
    match bin
    case StorageMsg => if !m.options.Is(NotNotification) then m.options.Is(SendMsg) else m.options.Is(History)
    case NotStorageMsg => m.options.Is(NotNotification) && !m.options.Is(History)
    case StorageNotification => !m.options.Is(NotNotification) && m.options.Is(History)
    case NotStorageNotification => !m.options.Is(NotNotification) && !m.options.Is(History)
    case ModifyMsg => m.contentType == ReactionModifier || m.contentType == ReactionDeleter
  }

  /** How a message reads in a list it goes to.  Only the flags of a notification that is also to
      be sent are changed: its clone has every flag set, and itself the two that moved unset. */
  ghost predicate Arrives(m: Message, bin: Bin, x: Message) {
    && x.parties == m.parties && x.contentType == m.contentType && x.clientMsgID == m.clientMsgID && x.seqNo == m.seqNo
    && if m.options.Is(NotNotification) || !m.options.Is(SendMsg) then x == m
       else if bin == StorageMsg then forall f :: x.options.Is(f)
       else forall f :: x.options.Is(f) <==> m.options.Is(f) && f != OfflinePush && f != UnreadCount
  }

  lemma IntoByFlags(m: Message, bin: Bin)
    ensures Into(m, bin) != [] <==> Belongs(m, bin)
    ensures |Into(m, bin)| <= 1 && (Into(m, bin) != [] ==> Arrives(m, bin, Into(m, bin)[0]))
  {
    if Cloned(m) {
      FlagsMoveToClone(m);
      assert NEW_MSG_OPTIONS.flags == map[];
    }
  }

  /** Each list holds, in input order, exactly the messages whose flags send them there. */
  lemma ListsByFlags(ms: seq<Message>, bin: Bin) returns (from: seq<nat>)
    ensures |from| == |Collect(ms, bin)| && Increasing(from)
    ensures forall i: nat :: i in from <==> i < |ms| && Belongs(ms[i], bin)
    ensures forall j :: 0 <= j < |from| ==> from[j] in from && Arrives(ms[from[j]], bin, Collect(ms, bin)[j])
  {
    from := CollectKeepsOrder(ms, bin);
    forall i: nat | i < |ms|
      ensures Added(ms, bin)[i] != [] <==> Belongs(ms[i], bin)
    {
      IntoByFlags(ms[i], bin);
    }
    forall j | 0 <= j < |from|
      ensures Arrives(ms[from[j]], bin, Collect(ms, bin)[j])
    {
      IntoByFlags(ms[from[j]], bin);
      assert Added(ms, bin)[from[j]] == Into(ms[from[j]], bin);
    }
    forall i: nat | i in from
      ensures i < |ms| && Belongs(ms[i], bin)
    {
      var j :| 0 <= j < |from| && from[j] == i;
      assert Added(ms, bin)[i] == [Collect(ms, bin)[j]];
    }
  }

  // ---------- flags ----------

  /** After the edits the notification asks for neither offline push nor unread count, its
      clone asks for both, the notification's other flags are as they were, and the clone is
      a chat message that is kept in history. */
  lemma FlagsMoveToClone(m: Message)
    requires Cloned(m)
    ensures !Edited(m).options.Is(OfflinePush) && !Edited(m).options.Is(UnreadCount)
    ensures CloneOf(m).options.Is(OfflinePush) && CloneOf(m).options.Is(UnreadCount)
    ensures forall f :: f != OfflinePush && f != UnreadCount ==> Edited(m).options.Is(f) == m.options.Is(f)
    ensures !CloneOf(m).Notification() && CloneOf(m).options.Is(History)
  {
  }

  /** The clone is meant to inherit the notification's wish to be pushed offline.  It does so
      exactly when the notification wishes it: the clone's map is empty, and a missing flag
      counts as set. */
  lemma CloneInheritsPushIff(m: Message)
    requires Cloned(m)
    ensures CloneOf(m).options.Is(OfflinePush) == m.options.Is(OfflinePush) <==> m.options.Is(OfflinePush)
    ensures CloneOf(m).options.Is(UnreadCount) == m.options.Is(UnreadCount) <==> m.options.Is(UnreadCount)
  {
    FlagsMoveToClone(m);
  }

  /** A silent notification whose clone is pushed and counted. */
  lemma SilentNotificationGetsLoudClone()
    ensures exists m: Message ::
              Cloned(m) && !m.options.Is(OfflinePush) && !m.options.Is(UnreadCount) &&
              CloneOf(m).options.Is(OfflinePush) && CloneOf(m).options.Is(UnreadCount)
  {
    var flags := map[NotNotification := false, SendMsg := true, OfflinePush := false, UnreadCount := false];
    var m := Message(Parties(SingleChat, "a", "b", ""), OtherContent(0), "", OptionMap(flags), 0);
    assert Cloned(m) && !m.options.Is(OfflinePush) && !m.options.Is(UnreadCount);
    FlagsMoveToClone(m);
  }

  // ---------- stored under the identifier it is delivered under ----------

  predicate IsChatBin(bin: Bin) {
    bin == StorageMsg || bin == NotStorageMsg
  }

  predicate IsNotificationBin(bin: Bin) {
    bin == StorageNotification || bin == NotStorageNotification
  }

  /** What the worker stores a list under: computed once, from the batch's first message. */
  function StoredID(first: Message, bin: Bin): string {
    if IsChatBin(bin) then ChatConversationID(first.parties) else NotificationConversationID(first.parties)
  }

  /** Every message of the batch's four lists is delivered under the identifier it is stored under. */
  ghost predicate StoredAsDelivered(batch: seq<Message>)
    requires batch != []
  {
    forall bin, x :: bin != ModifyMsg && x in Collect(batch, bin) ==> x.DeliveredID() == StoredID(batch[0], bin)
  }

  /** What a caller can check: a message that goes to a chat list has the first message's
      session type and direction, and a notification its direction. */
  predicate Consistent(first: Message, m: Message) {
    && (!m.Notification() || m.options.Is(SendMsg) ==> SameChat(m.parties, first.parties))
    && (m.Notification() ==> SameNotices(m.parties, first.parties))
  }

  ghost predicate OneKey(batch: seq<Message>, key: string) {
    forall m :: m in batch ==> ConversationUniqueKey(m.parties) == key
  }

  lemma {:induction false} CollectOrigin(ms: seq<Message>, bin: Bin, x: Message) returns (m: Message)
    requires x in Collect(ms, bin)
    ensures m in ms && x in Into(m, bin)
  {
    var last := ms[|ms| - 1];
    if x in Into(last, bin) {
      m := last;
    } else {
      m := CollectOrigin(ms[..|ms| - 1], bin, x);
    }
  }

  lemma {:induction false} CollectHas(ms: seq<Message>, bin: Bin, m: Message, x: Message)
    requires m in ms && x in Into(m, bin)
    ensures x in Collect(ms, bin)
  {
    var rest, last := ms[..|ms| - 1], ms[|ms| - 1];
    assert ms == rest + [last];
    if m != last {
      CollectHas(rest, bin, m, x);
    }
  }

  /** An output keeps its message's parties, and its flag says which kind of list it is in. */
  lemma OutputShape(m: Message, bin: Bin, x: Message)
    requires bin != ModifyMsg && x in Into(m, bin)
    ensures x.parties == m.parties
    ensures x.options.Is(NotNotification) <==> IsChatBin(bin)
    ensures IsChatBin(bin) ==> !m.Notification() || m.options.Is(SendMsg)
    ensures IsNotificationBin(bin) ==> m.Notification()
    ensures x.DeliveredID() == StoredID(m, bin)
  {
    GatewayIDIsOneOfTwo(x.parties, x.options.Is(NotNotification));
  }

  /** A batch is stored as it is delivered exactly when every message is consistent with the
      first one. */
  lemma StoredAsDeliveredIff(batch: seq<Message>)
    requires batch != []
    ensures StoredAsDelivered(batch) <==> forall m :: m in batch ==> Consistent(batch[0], m)
  {
    var first := batch[0];
    forall m | m in batch
      ensures ChatConversationID(m.parties) == ChatConversationID(first.parties) <==> SameChat(m.parties, first.parties)
      ensures NotificationConversationID(m.parties) == NotificationConversationID(first.parties)
              <==> SameNotices(m.parties, first.parties)
    {
      ChatIDsAgree(m.parties, first.parties);
      NotificationIDsAgree(m.parties, first.parties);
    }
    if forall m :: m in batch ==> Consistent(first, m) {
      forall bin, x | bin != ModifyMsg && x in Collect(batch, bin)
        ensures x.DeliveredID() == StoredID(first, bin)
      {
        var m := CollectOrigin(batch, bin, x);
        OutputShape(m, bin, x);
      }
    }
    if StoredAsDelivered(batch) {
      forall m | m in batch
        ensures Consistent(first, m)
      {
        ConsistentFromStored(batch, m);
      }
    }
  }

  /** A batch stored as delivered has one identifier for each kind of list used. */
  lemma OneIDPerKind(batch: seq<Message>, m: Message, bin: Bin, x: Message)
    requires m in batch && bin != ModifyMsg && x in Into(m, bin) && StoredAsDelivered(batch)
    ensures StoredID(m, bin) == StoredID(batch[0], bin)
  {
    CollectHas(batch, bin, m, x);
    OutputShape(m, bin, x);
  }

  lemma ConsistentFromStored(batch: seq<Message>, m: Message)
    requires m in batch && StoredAsDelivered(batch)
    requires StoredID(m, StorageMsg) == StoredID(batch[0], StorageMsg) <==> SameChat(m.parties, batch[0].parties)
    requires StoredID(m, StorageNotification) == StoredID(batch[0], StorageNotification)
             <==> SameNotices(m.parties, batch[0].parties)
    ensures Consistent(batch[0], m)
  {
    if !m.Notification() || m.options.Is(SendMsg) {
      var bin, x := ChatOutput(m);
      OneIDPerKind(batch, m, bin, x);
    }
    if m.Notification() {
      var bin, x := NotificationOutput(m);
      OneIDPerKind(batch, m, bin, x);
    }
  }

  lemma ChatOutput(m: Message) returns (bin: Bin, x: Message)
    requires !m.Notification() || m.options.Is(SendMsg)
    ensures IsChatBin(bin) && x in Into(m, bin)
  {
    bin := if Cloned(m) || m.options.Is(History) then StorageMsg else NotStorageMsg;
    assert Into(m, bin) != [];
    x := Into(m, bin)[0];
  }

  lemma NotificationOutput(m: Message) returns (bin: Bin, x: Message)
    requires m.Notification()
    ensures IsNotificationBin(bin) && x in Into(m, bin)
  {
    bin := if m.options.Is(History) then StorageNotification else NotStorageNotification;
    x := Into(m, bin)[0];
  }

  /** The usual batch: one key, and one session type, single or super-group chat. */
  lemma UniformBatchStoredAsDelivered(batch: seq<Message>, key: string)
    requires batch != [] && OneKey(batch, key)
    requires batch[0].parties.sessionType.SingleChat? || batch[0].parties.sessionType.SuperGroupChat?
    requires forall m :: m in batch ==> m.parties.sessionType == batch[0].parties.sessionType
    ensures StoredAsDelivered(batch)
  {
    assert forall m :: m in batch ==> Directed(m.parties) == ConversationUniqueKey(m.parties) == key;
    StoredAsDeliveredIff(batch);
  }

  /** A key is not enough: "g" writing to "h" and a message to the group "g_h" make a batch of
      one key, the second of which is stored under a conversation it is not delivered under. */
  lemma MixedBatchStoredElsewhere(options: Options)
    requires options.Is(NotNotification)
    ensures
      var chat := Message(Parties(SingleChat, "g", "h", ""), OtherContent(0), "1", options, 0);
      var group := Message(Parties(SuperGroupChat, "g", "h", "g_h"), OtherContent(0), "2", options, 0);
      OneKey([chat, group], "g_h") && !StoredAsDelivered([chat, group])
  {
    var chat := Message(Parties(SingleChat, "g", "h", ""), OtherContent(0), "1", options, 0);
    var group := Message(Parties(SuperGroupChat, "g", "h", "g_h"), OtherContent(0), "2", options, 0);
    assert SortedPair("g", "h") == "g_h";
    assert group in [chat, group] && !Consistent(chat, group);
    StoredAsDeliveredIff([chat, group]);
  }
}
