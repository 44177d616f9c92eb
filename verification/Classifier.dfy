/** The worker's classifier (getPushStorageMsgList) and the conversation identifiers it
  stores under.

  Notifications and chat messages are separated, stored and not stored.  A notification
  that is also to be sent as a message is cloned into the stored chat list, and the push
  and unread flags move from the notification to its clone by editing option maps in place.
 */
module Classifier {
  import opened Messages

  datatype Bin = StorageMsg | NotStorageMsg | StorageNotification | NotStorageNotification | ModifyMsg

  /** A notification that is also sent as a message. */
  predicate Cloned(m: Message) {
    m.Notification() && m.options.Is(SendMsg)
  }

  /** The message after the classifier's edits. */
  function Edited(m: Message): Message {
    if !Cloned(m) then m
    else
      var o1 := if m.options.Is(OfflinePush) then m.options.With(OfflinePush, false) else m.options;
      var o2 := if o1.Is(UnreadCount) then o1.With(UnreadCount, false) else o1;
      m.(options := o2)
  }

  function CloneOf(m: Message): Message
    requires Cloned(m)
  {
    var o1 := if m.options.Is(OfflinePush) then NEW_MSG_OPTIONS.With(OfflinePush, true) else NEW_MSG_OPTIONS;
    var o2 := if m.options.Is(UnreadCount) then o1.With(UnreadCount, true) else o1;
    m.(options := o2)
  }

  predicate Reaction(m: Message) {
    m.contentType.ReactionModifier? || m.contentType.ReactionDeleter?
  }

  /** What one message adds to one list. */
  function Into(m: Message, bin: Bin): seq<Message> {
    match bin
    case StorageMsg =>
      if Cloned(m) then [CloneOf(m)]
      else if !m.Notification() && m.options.Is(History) then [Edited(m)] else []
    case NotStorageMsg => if !m.Notification() && !m.options.Is(History) then [Edited(m)] else []
    case StorageNotification => if m.Notification() && m.options.Is(History) then [Edited(m)] else []
    case NotStorageNotification => if m.Notification() && !m.options.Is(History) then [Edited(m)] else []
    case ModifyMsg => if Reaction(m) then [Edited(m)] else []
  }

  /** One list of a batch, in input order. */
  function Collect(ms: seq<Message>, bin: Bin): seq<Message> {
    if ms == [] then [] else Collect(ms[..|ms| - 1], bin) + Into(ms[|ms| - 1], bin)
  }

  function EditedAll(ms: seq<Message>): (r: seq<Message>)
    ensures |r| == |ms|
  {
    seq(|ms|, i requires 0 <= i < |ms| => Edited(ms[i]))
  }

  /** The clone one message gives rise to, if any. */
  function CloneIfAny(m: Message): seq<Message> {
    if Cloned(m) then [CloneOf(m)] else []
  }

  /** The clones of a batch, in input order. */
  function Clones(ms: seq<Message>): seq<Message> {
    if ms == [] then [] else Clones(ms[..|ms| - 1]) + CloneIfAny(ms[|ms| - 1])
  }

  // ---------- the method over message objects ----------

  ghost predicate Denotes(ms: seq<MsgData>, vs: seq<Message>)
    reads ms
  {
    |ms| == |vs| && forall i :: 0 <= i < |ms| ==> ms[i].Value() == vs[i]
  }

  /** Clones a notification and moves its push and unread flags to the clone.  The map
      written is never nil: a notification has at least the flag that makes it one. */
  method CloneNotification(v: MsgData) returns (msg: MsgData)
    requires Cloned(v.Value())
    modifies v
    ensures fresh(msg)
    ensures msg.Value() == CloneOf(old(v.Value()))
    ensures v.Value() == Edited(old(v.Value()))
  {
    msg := new MsgData(v.Value());
    if v.options != NilOptions {
      msg.options := NEW_MSG_OPTIONS;
    }
    if v.options.Is(OfflinePush) {
      v.SetFlag(OfflinePush, false);
      msg.SetFlag(OfflinePush, true);
    }
    if v.options.Is(UnreadCount) {
      v.SetFlag(UnreadCount, false);
      msg.SetFlag(UnreadCount, true);
    }
  }

  /** The five lists the classifier returns. */
  datatype Lists = Lists(
    storageMsg: seq<MsgData>, notStorageMsg: seq<MsgData>,
    storageNotification: seq<MsgData>, notStorageNotification: seq<MsgData>, modifyMsg: seq<MsgData>) {

    function At(bin: Bin): seq<MsgData> {
      match bin
      case StorageMsg => storageMsg
      case NotStorageMsg => notStorageMsg
      case StorageNotification => storageNotification
      case NotStorageNotification => notStorageNotification
      case ModifyMsg => modifyMsg
    }

    function Append(added: Lists): (r: Lists)
      ensures forall bin :: r.At(bin) == At(bin) + added.At(bin)
    {
      Lists(storageMsg + added.storageMsg, notStorageMsg + added.notStorageMsg,
            storageNotification + added.storageNotification,
            notStorageNotification + added.notStorageNotification, modifyMsg + added.modifyMsg)
    }
  }

  /** No message is in two lists, the list of modifications apart. */
  ghost predicate Disjoint(ls: Lists) {
    forall a, b, m :: a != b && a != ModifyMsg && b != ModifyMsg && m in ls.At(a) ==> m !in ls.At(b)
  }

  /** The four lists of one message, the list of modifications left out. */
  ghost predicate Places(added: Lists, v: MsgData, m: Message)
    reads v, added.storageMsg, added.notStorageMsg, added.storageNotification, added.notStorageNotification
  {
    && added.modifyMsg == []
    && Denotes(added.storageMsg, Into(m, StorageMsg)) && Denotes(added.notStorageMsg, Into(m, NotStorageMsg))
    && Denotes(added.storageNotification, Into(m, StorageNotification))
    && Denotes(added.notStorageNotification, Into(m, NotStorageNotification))
  }

  method PlaceNotification(v: MsgData) returns (added: Lists)
    requires v.Value().Notification()
    modifies v
    ensures v.Value() == Edited(old(v.Value()))
    ensures Places(added, v, old(v.Value()))
    ensures |added.storageMsg| <= 1 && forall m :: m in added.storageMsg ==> fresh(m)
    ensures (added.storageNotification == [v] && added.notStorageNotification == []) ||
            (added.storageNotification == [] && added.notStorageNotification == [v])
    ensures added.notStorageMsg == []
  {
    added := Lists([], [], [], [], []);
    ghost var m := v.Value();
    if v.options.Is(SendMsg) {
      var msg := CloneNotification(v);
      added := added.(storageMsg := [msg]);
      FlagsLeftAlone(m);
    }
    if v.options.Is(History) {
      added := added.(storageNotification := [v]);
    } else {
      added := added.(notStorageNotification := [v]);
    }
  }

  lemma FlagsLeftAlone(m: Message)
    ensures Edited(m).options.Is(History) == m.options.Is(History)
  {
  }

  method PlaceChat(v: MsgData) returns (added: Lists)
    requires !v.Value().Notification()
    ensures v.Value() == Edited(v.Value())
    ensures Places(added, v, v.Value())
    ensures (added.storageMsg == [v] && added.notStorageMsg == []) || (added.storageMsg == [] && added.notStorageMsg == [v])
    ensures added.storageNotification == [] && added.notStorageNotification == []
  {
    added := Lists([], [], [], [], []);
    if v.options.Is(History) {
      added := added.(storageMsg := [v]);
    } else {
      added := added.(notStorageMsg := [v]);
    }
  }

  lemma DisjointLists(ls: Lists)
    requires forall m :: m in ls.storageMsg ==> m !in ls.notStorageMsg && m !in ls.storageNotification && m !in ls.notStorageNotification
    requires forall m :: m in ls.notStorageMsg ==> m !in ls.storageNotification && m !in ls.notStorageNotification
    requires forall m :: m in ls.storageNotification ==> m !in ls.notStorageNotification
    ensures Disjoint(ls)
  {
  }

  /** One turn of the classifier's loop: what one message adds to the lists. */
  method Place(v: MsgData) returns (added: Lists)
    modifies v
    ensures v.Value() == Edited(old(v.Value()))
    ensures forall bin :: Denotes(added.At(bin), Into(old(v.Value()), bin))
    ensures forall bin, m :: m in added.At(bin) ==> m == v || (bin == StorageMsg && fresh(m))
    ensures Disjoint(added)
  {
    if !v.options.Is(NotNotification) {
      added := PlaceNotification(v);
    } else {
      added := PlaceChat(v);
    }
    if v.contentType == ReactionModifier || v.contentType == ReactionDeleter {
      added := added.(modifyMsg := [v]);
    }
    DisjointLists(added);
  }

  lemma DenotesAppend(a: seq<MsgData>, b: seq<MsgData>, x: seq<Message>, y: seq<Message>)
    requires Denotes(a, x) && Denotes(b, y)
    ensures Denotes(a + b, x + y)
  {
    forall i | 0 <= i < |a + b|
      ensures (a + b)[i].Value() == (x + y)[i]
    {
      if i < |a| {
      } else {
        assert (a + b)[i] == b[i - |a|] && (x + y)[i] == y[i - |x|];
      }
    }
  }

  lemma DistinctAppend<T>(a: seq<T>, b: seq<T>)
    requires Distinct(a) && |b| <= 1
    requires forall x :: x in b ==> x !in a
    ensures Distinct(a + b)
  {
    if b != [] {
      assert b[0] in b;
      assert a + b == a + [b[0]];
    }
  }

  lemma DisjointAppend(ls: Lists, added: Lists)
    requires Disjoint(ls) && Disjoint(added)
    requires forall a, b, m :: m in added.At(a) ==> m !in ls.At(b)
    ensures Disjoint(ls.Append(added))
  {
  }

  /** One turn of the classifier's loop, seen on the lists of the messages `vs` so far. */
  method Extend(v: MsgData, ls: Lists, ghost vs: seq<Message>) returns (r: Lists)
    requires forall bin :: Denotes(ls.At(bin), Collect(vs, bin)) && Distinct(ls.At(bin)) && v !in ls.At(bin)
    requires Disjoint(ls)
    modifies v
    ensures v.Value() == Edited(old(v.Value()))
    ensures forall bin :: Denotes(r.At(bin), Collect(vs + [old(v.Value())], bin)) && Distinct(r.At(bin))
    ensures Disjoint(r)
    ensures forall bin, m :: m in r.At(bin) ==> m in ls.At(bin) || m == v || (bin == StorageMsg && fresh(m))
  {
    var added := Place(v);
    ListsAppend(ls, added, vs, old(v.Value()));
    DisjointAppend(ls, added);
    r := ls.Append(added);
  }

  lemma ListsAppend(ls: Lists, added: Lists, vs: seq<Message>, m: Message)
    requires forall bin :: Denotes(ls.At(bin), Collect(vs, bin)) && Distinct(ls.At(bin))
    requires forall bin :: Denotes(added.At(bin), Into(m, bin))
    requires forall a, b, x :: x in added.At(a) ==> x !in ls.At(b)
    ensures forall bin :: Denotes(ls.Append(added).At(bin), Collect(vs + [m], bin)) && Distinct(ls.Append(added).At(bin))
  {
    forall bin
      ensures Denotes(ls.Append(added).At(bin), Collect(vs + [m], bin)) && Distinct(ls.Append(added).At(bin))
    {
      assert (vs + [m])[..|vs|] == vs;
      DenotesAppend(ls.At(bin), added.At(bin), Collect(vs, bin), Into(m, bin));
      DistinctAppend(ls.At(bin), added.At(bin));
    }
  }

  method GetPushStorageMsgList(totalMsgs: seq<MsgData>) returns (ls: Lists)
    requires Distinct(totalMsgs)
    modifies totalMsgs
    ensures forall bin :: Denotes(ls.At(bin), Collect(old(Values(totalMsgs)), bin))
    ensures Denotes(totalMsgs, EditedAll(old(Values(totalMsgs))))
    ensures forall bin :: Distinct(ls.At(bin))
    ensures Disjoint(ls)
    ensures forall bin, m :: m in ls.At(bin) ==> m in totalMsgs || (bin == StorageMsg && fresh(m))
  {
    ls := Lists([], [], [], [], []);
    ghost var vs := Values(totalMsgs);
    for i := 0 to |totalMsgs|
      invariant forall j :: i <= j < |totalMsgs| ==> totalMsgs[j].Value() == vs[j]
      invariant forall j :: 0 <= j < i ==> totalMsgs[j].Value() == Edited(vs[j])
      invariant forall bin :: Denotes(ls.At(bin), Collect(vs[..i], bin)) && Distinct(ls.At(bin))
      invariant Disjoint(ls)
      invariant forall bin, m :: m in ls.At(bin) ==> m in totalMsgs[..i] || (bin == StorageMsg && fresh(m))
    {
      var v := totalMsgs[i];
      assert vs[..i + 1] == vs[..i] + [vs[i]] && totalMsgs[..i + 1] == totalMsgs[..i] + [v];
      assert v !in totalMsgs[..i];
      ls := Extend(v, ls, vs[..i]);
    }
    assert vs[..|totalMsgs|] == vs && totalMsgs[..|totalMsgs|] == totalMsgs;
  }
}
