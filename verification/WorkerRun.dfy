/** A worker handling one command after another: its log and the store at the end. */
module WorkerRun {
  import Batches
  import opened Conversation
  import opened Messages
  import opened Classifier
  import opened ClassifierTheorems
  import opened SeqStore
  import opened Watermarks
  import opened Worker
  import opened WorkerTheorems

  /** A command as the worker takes it, with what fails while it is handled. */
  datatype Task = Task(key: string, msgs: seq<MsgData>, chatFaults: Faults, chatSent: bool,
                       notificationFaults: Faults, notificationSent: bool)

  /** Commands are never empty, and every message was decoded for one command only. */
  ghost predicate Separate(tasks: seq<Task>) {
    && (forall i :: 0 <= i < |tasks| ==> tasks[i].msgs != [] && Distinct(tasks[i].msgs))
    && (forall i, j, m :: 0 <= i < j < |tasks| && m in tasks[i].msgs ==> m !in tasks[j].msgs)
  }

  function Objects(tasks: seq<Task>): set<MsgData> {
    set i, m | 0 <= i < |tasks| && m in tasks[i].msgs :: m
  }

  /** A run's inserts as requests on the stored numbers. */
  function RunOps(bs: seq<Batch>): seq<Op> {
    if bs == [] then [] else RunOps(bs[..|bs| - 1]) + BatchOps(bs[|bs| - 1])
  }

  /** The messages of one conversation a run numbers, in the order in which it does. */
  function NumberedIn(bs: seq<Batch>, c: string): seq<MsgData> {
    if bs == [] then [] else NumberedIn(bs[..|bs| - 1], c) + NumberedOf(bs[|bs| - 1], c)
  }

  lemma {:induction false} RunEventsAppend(bs: seq<Batch>, b: Batch)
    ensures RunEvents(bs + [b]) == RunEvents(bs) + BatchEvents(b)
  {
    if bs == [] {
      assert [b][1..] == [];
    } else {
      assert (bs + [b])[0] == bs[0] && (bs + [b])[1..] == bs[1..] + [b];
      RunEventsAppend(bs[1..], b);
      Associate([], BatchEvents(bs[0]), RunEvents(bs[1..]), BatchEvents(b));
    }
  }

  lemma RunAppends(bs: seq<Batch>, b: Batch, c: string)
    ensures RunOps(bs + [b]) == RunOps(bs) + BatchOps(b)
    ensures NumberedIn(bs + [b], c) == NumberedIn(bs, c) + NumberedOf(b, c)
  {
    assert (bs + [b])[..|bs|] == bs;
  }

  // ---------- the values of a run's messages ----------

  /** The messages have these values, but for the numbers they were given. */
  ghost predicate Like(ms: seq<MsgData>, vs: seq<Message>, vals: map<MsgData, Message>) {
    |ms| == |vs| && forall i :: 0 <= i < |ms| ==> ms[i] in vals && vals[ms[i]] == vs[i].(seqNo := vals[ms[i]].seqNo)
  }

  ghost function Numbers(ms: seq<MsgData>, vals: map<MsgData, Message>): seq<int> {
    seq(|ms|, i requires 0 <= i < |ms| => if ms[i] in vals then vals[ms[i]].seqNo else 0)
  }

  /** What is kept of a run: every list is as classified, and every conversation's messages carry
      the numbers the run's requests give out. */
  ghost predicate Kept(bs: seq<Batch>, vss: seq<seq<Message>>, s0: Seqs, vals: map<MsgData, Message>) {
    && |bs| == |vss|
    && (forall i, bin :: 0 <= i < |bs| ==> Like(bs[i].lists.At(bin), Collect(vss[i], bin), vals))
    && (forall c :: Numbers(NumberedIn(bs, c), vals) == Assigned(s0, RunOps(bs), c))
  }

  ghost predicate Extends(vals: map<MsgData, Message>, vals': map<MsgData, Message>) {
    forall m :: m in vals ==> m in vals' && vals'[m] == vals[m]
  }

  lemma {:induction false} NumberedInLists(bs: seq<Batch>, c: string, vals: map<MsgData, Message>)
    requires forall i, bin, m :: 0 <= i < |bs| && m in bs[i].lists.At(bin) ==> m in vals
    ensures forall m :: m in NumberedIn(bs, c) ==> m in vals
  {
    if bs != [] {
      var rest, b := bs[..|bs| - 1], bs[|bs| - 1];
      assert forall i :: 0 <= i < |rest| ==> rest[i] == bs[i];
      NumberedInLists(rest, c, vals);
      assert forall m :: m in b.lists.At(StorageMsg) ==> m in vals;
      assert forall m :: m in b.lists.At(StorageNotification) ==> m in vals;
    }
  }

  lemma LikeIn(ms: seq<MsgData>, vs: seq<Message>, vals: map<MsgData, Message>)
    requires Like(ms, vs, vals)
    ensures forall m :: m in ms ==> m in vals
  {
  }

  lemma LikeExtends(ms: seq<MsgData>, vs: seq<Message>, vals: map<MsgData, Message>, vals': map<MsgData, Message>)
    requires Like(ms, vs, vals) && Extends(vals, vals')
    ensures Like(ms, vs, vals')
  {
  }

  lemma NumbersExtend(ms: seq<MsgData>, more: seq<MsgData>, vals: map<MsgData, Message>, vals': map<MsgData, Message>)
    requires Extends(vals, vals') && forall m :: m in ms ==> m in vals
    ensures Numbers(ms + more, vals') == Numbers(ms, vals) + Numbers(more, vals')
  {
  }

  lemma NumbersStep(bs: seq<Batch>, s0: Seqs, vals: map<MsgData, Message>, b: Batch, vals': map<MsgData, Message>, c: string)
    requires Extends(vals, vals') && forall m :: m in NumberedIn(bs, c) ==> m in vals
    requires Numbers(NumberedIn(bs, c), vals) == Assigned(s0, RunOps(bs), c)
    requires Numbers(NumberedOf(b, c), vals') == Assigned(SeqStore.Run(s0, RunOps(bs)), BatchOps(b), c)
    ensures Numbers(NumberedIn(bs + [b], c), vals') == Assigned(s0, RunOps(bs + [b]), c)
  {
    RunAppends(bs, b, c);
    AssignedConcat(s0, RunOps(bs), BatchOps(b), c);
    NumbersExtend(NumberedIn(bs, c), NumberedOf(b, c), vals, vals');
  }

  lemma ListsKept(bs: seq<Batch>, vss: seq<seq<Message>>, vals: map<MsgData, Message>)
    requires |bs| == |vss| && forall i, bin :: 0 <= i < |bs| ==> Like(bs[i].lists.At(bin), Collect(vss[i], bin), vals)
    ensures forall i, bin, m :: 0 <= i < |bs| && m in bs[i].lists.At(bin) ==> m in vals
  {
    forall i, bin, m | 0 <= i < |bs| && m in bs[i].lists.At(bin)
      ensures m in vals
    {
      LikeIn(bs[i].lists.At(bin), Collect(vss[i], bin), vals);
    }
  }

  lemma KeptStep(bs: seq<Batch>, vss: seq<seq<Message>>, s0: Seqs, vals: map<MsgData, Message>,
                 b: Batch, vs: seq<Message>, vals': map<MsgData, Message>)
    requires Kept(bs, vss, s0, vals) && Extends(vals, vals')
    requires forall bin :: Like(b.lists.At(bin), Collect(vs, bin), vals')
    requires forall c :: Numbers(NumberedOf(b, c), vals') == Assigned(SeqStore.Run(s0, RunOps(bs)), BatchOps(b), c)
    ensures Kept(bs + [b], vss + [vs], s0, vals')
  {
    ListsKept(bs, vss, vals);
    forall i, bin | 0 <= i < |bs| + 1
      ensures Like((bs + [b])[i].lists.At(bin), Collect((vss + [vs])[i], bin), vals')
    {
      if i < |bs| {
        LikeExtends(bs[i].lists.At(bin), Collect(vss[i], bin), vals, vals');
      }
    }
    forall c
      ensures Numbers(NumberedIn(bs + [b], c), vals') == Assigned(s0, RunOps(bs + [b]), c)
    {
      NumberedInLists(bs, c, vals);
      NumbersStep(bs, s0, vals, b, vals', c);
    }
  }

  // ---------- stored and not stored ----------

  lemma NotBoth(b: Batch, m: MsgData)
    requires Disjoint(b.lists) && m in StoredOf(b)
    ensures m !in NotStoredOf(b)
  {
    if m in b.lists.storageMsg {
      OnlyInStorage(b.lists, m);
    } else {
      OnlyInNotifications(b.lists, m);
    }
  }

  lemma AllAppend(bs: seq<Batch>, b: Batch)
    ensures forall m :: m in AllStored(bs + [b]) <==> m in AllStored(bs) || m in StoredOf(b)
    ensures forall m :: m in AllNotStored(bs + [b]) <==> m in AllNotStored(bs) || m in NotStoredOf(b)
  {
    var all := bs + [b];
    assert all[|bs|] == b && forall i :: 0 <= i < |bs| ==> all[i] == bs[i];
    forall m | m in AllStored(bs) || m in StoredOf(b)
      ensures m in AllStored(all)
    {
      if m in AllStored(bs) {
        var i :| 0 <= i < |bs| && m in StoredOf(bs[i]);
        assert m in StoredOf(all[i]);
      } else {
        assert m in StoredOf(all[|bs|]);
      }
    }
    forall m | m in AllNotStored(bs) || m in NotStoredOf(b)
      ensures m in AllNotStored(all)
    {
      if m in AllNotStored(bs) {
        var i :| 0 <= i < |bs| && m in NotStoredOf(bs[i]);
        assert m in NotStoredOf(all[i]);
      } else {
        assert m in NotStoredOf(all[|bs|]);
      }
    }
  }

  lemma AllSeen(bs: seq<Batch>, seen: set<MsgData>)
    requires forall i, bin, m :: 0 <= i < |bs| && m in bs[i].lists.At(bin) ==> m in seen
    ensures AllStored(bs) <= seen && AllNotStored(bs) <= seen
  {
    assert forall i, m :: 0 <= i < |bs| && m in bs[i].lists.At(StorageMsg) ==> m in seen;
    assert forall i, m :: 0 <= i < |bs| && m in bs[i].lists.At(StorageNotification) ==> m in seen;
    assert forall i, m :: 0 <= i < |bs| && m in bs[i].lists.At(NotStorageMsg) ==> m in seen;
    assert forall i, m :: 0 <= i < |bs| && m in bs[i].lists.At(NotStorageNotification) ==> m in seen;
  }

  lemma ApartStep(bs: seq<Batch>, b: Batch, seen: set<MsgData>)
    requires AllStored(bs) !! AllNotStored(bs) && Disjoint(b.lists)
    requires forall i, bin, m :: 0 <= i < |bs| && m in bs[i].lists.At(bin) ==> m in seen
    requires forall bin, m :: m in b.lists.At(bin) ==> m !in seen
    ensures AllStored(bs + [b]) !! AllNotStored(bs + [b])
  {
    AllAppend(bs, b);
    AllSeen(bs, seen);
    assert forall m :: m in b.lists.At(StorageMsg) || m in b.lists.At(StorageNotification) ==> m !in seen;
    assert forall m :: m in b.lists.At(NotStorageMsg) || m in b.lists.At(NotStorageNotification) ==> m !in seen;
    forall m | m in StoredOf(b)
      ensures m !in NotStoredOf(b)
    {
      NotBoth(b, m);
    }
  }

  // ---------- the method ----------

  ghost predicate Does(task: Task, b: Batch) {
    && b.key == task.key && Judged(b) && Disjoint(b.lists)
    && b.chat.faults == task.chatFaults && b.notification.faults == task.notificationFaults
    && task.msgs != [] && b.chatID == ChatConversationID(task.msgs[0].parties)
    && b.notificationID == NotificationConversationID(task.msgs[0].parties)
  }

  /** What one command does, told by values: `vs` are its messages' values, `s0` the numbers it
      met, `vals` and `vals'` the values of the messages listed before and after. */
  ghost predicate Stepped(task: Task, b: Batch, vs: seq<Message>, s0: Seqs, vals: map<MsgData, Message>, vals': map<MsgData, Message>) {
    && Does(task, b) && Extends(vals, vals')
    && (forall bin, m :: m in b.lists.At(bin) ==> m !in vals)
    && (forall bin :: Like(b.lists.At(bin), Collect(vs, bin), vals'))
    && (forall c :: Numbers(NumberedOf(b, c), vals') == Assigned(s0, BatchOps(b), c))
  }

  /** Handles one command.  `others` are the values of messages of other commands, which stay. */
  method StepAlone(w: Worker, task: Task, ghost others: map<MsgData, Message>) returns (ghost b: Batch, ghost now: map<MsgData, Message>)
    requires task.msgs != [] && Distinct(task.msgs)
    requires forall m :: m in others ==> m.Value() == others[m] && m !in task.msgs
    modifies w`log, w.store`maxSeq, w.store`hasRead, w.store`cached, task.msgs
    ensures w.log == old(w.log) + BatchEvents(b)
    ensures w.store.View() == SeqStore.Run(old(w.store.View()), BatchOps(b))
    ensures w.store.cached == old(w.store.cached) + BatchCached(b)
    ensures Does(task, b)
    ensures forall bin :: SameButForNumber(b.lists.At(bin), Collect(old(Values(task.msgs)), bin))
    ensures CarryAssigned(b, SeqNos(b.lists.storageMsg), SeqNos(b.lists.storageNotification), old(w.store.View()))
    ensures forall bin, m :: m in b.lists.At(bin) ==> m in now && m !in others
    ensures forall m :: m in now ==> m.Value() == now[m] && m !in others
    ensures forall m :: m in others ==> m.Value() == others[m]
  {
    b := w.Process(task.key, task.msgs, task.chatFaults, task.chatSent, task.notificationFaults, task.notificationSent);
    now := AllValues(b.lists);
    forall m | m in now
      ensures m !in others
    {
      var bin := WhichList(b.lists, m);
    }
  }

  /** Handles one command.  `vals` are the values of the messages handled before and `left` those
      of messages to come, which all stay. */
  method Step(w: Worker, task: Task, ghost vals: map<MsgData, Message>, ghost left: map<MsgData, Message>) returns (ghost b: Batch, ghost vals': map<MsgData, Message>)
    requires task.msgs != [] && Distinct(task.msgs)
    requires forall m :: m in vals ==> m.Value() == vals[m] && m !in task.msgs
    requires forall m :: m in left ==> m.Value() == left[m] && m !in task.msgs && m !in vals
    modifies w`log, w.store`maxSeq, w.store`hasRead, w.store`cached, task.msgs
    ensures w.log == old(w.log) + BatchEvents(b)
    ensures w.store.View() == SeqStore.Run(old(w.store.View()), BatchOps(b))
    ensures w.store.cached == old(w.store.cached) + BatchCached(b)
    ensures Stepped(task, b, old(Values(task.msgs)), old(w.store.View()), vals, vals')
    ensures forall m :: m in vals' ==> m.Value() == vals'[m]
    ensures forall m :: m in left ==> m.Value() == left[m] && m !in vals'
  {
    ghost var s0, vs := w.store.View(), Values(task.msgs);
    ghost var now;
    b, now := StepAlone(w, task, vals + left);
    assert forall m :: m in vals || m in left ==> m in vals + left;
    vals' := vals + now;
    StepValues(b, vs, s0, vals');
  }

  lemma StepValues(b: Batch, vs: seq<Message>, s0: Seqs, vals: map<MsgData, Message>)
    requires forall bin :: SameButForNumber(b.lists.At(bin), Collect(vs, bin))
    requires CarryAssigned(b, SeqNos(b.lists.storageMsg), SeqNos(b.lists.storageNotification), s0)
    requires forall bin, m :: m in b.lists.At(bin) ==> m in vals && vals[m] == m.Value()
    ensures forall bin :: Like(b.lists.At(bin), Collect(vs, bin), vals)
    ensures forall c :: Numbers(NumberedOf(b, c), vals) == Assigned(s0, BatchOps(b), c)
  {
    forall bin
      ensures Like(b.lists.At(bin), Collect(vs, bin), vals)
    {
      LikeNow(b.lists.At(bin), Collect(vs, bin), vals);
    }
    forall c
      ensures Numbers(NumberedOf(b, c), vals) == Assigned(s0, BatchOps(b), c)
    {
      NumbersNow(b, c, vals);
      NumbersOfLists(b, c);
    }
  }

  lemma LikeNow(ms: seq<MsgData>, vs: seq<Message>, vals: map<MsgData, Message>)
    requires SameButForNumber(ms, vs) && forall m :: m in ms ==> m in vals && vals[m] == m.Value()
    ensures Like(ms, vs, vals)
  {
    assert forall i :: 0 <= i < |ms| ==> ms[i] in ms;
  }

  lemma NumbersNow(b: Batch, c: string, vals: map<MsgData, Message>)
    requires forall bin, m :: m in b.lists.At(bin) ==> m in vals && vals[m] == m.Value()
    ensures Numbers(NumberedOf(b, c), vals) == SeqNos(NumberedOf(b, c))
  {
    forall m | m in NumberedOf(b, c)
      ensures m in vals && vals[m].seqNo == m.seqNo
    {
      assert m in b.lists.At(StorageMsg) || m in b.lists.At(StorageNotification);
    }
    assert forall i :: 0 <= i < |NumberedOf(b, c)| ==> NumberedOf(b, c)[i] in NumberedOf(b, c);
  }

  /** The commands handled so far, in order. */
  ghost predicate Ran(tasks: seq<Task>, bs: seq<Batch>) {
    |bs| <= |tasks| && forall i :: 0 <= i < |bs| ==> Does(tasks[i], bs[i])
  }

  /** What holds between commands; `vals` are the values of the messages listed so far. */
  ghost predicate Between(tasks: seq<Task>, bs: seq<Batch>, vss: seq<seq<Message>>, s0: Seqs, vals: map<MsgData, Message>) {
    && Ran(tasks, bs) && |vss| == |tasks|
    && AllStored(bs) !! AllNotStored(bs)
    && Kept(bs, vss[..|bs|], s0, vals)
  }

  lemma BetweenStep(tasks: seq<Task>, bs: seq<Batch>, vss: seq<seq<Message>>, s0: Seqs, vals: map<MsgData, Message>,
                    b: Batch, more: map<MsgData, Message>)
    requires Between(tasks, bs, vss, s0, vals) && |bs| < |tasks|
    requires Stepped(tasks[|bs|], b, vss[|bs|], SeqStore.Run(s0, RunOps(bs)), vals, more)
    ensures Between(tasks, bs + [b], vss, s0, more)
  {
    ListsKept(bs, vss[..|bs|], vals);
    ApartStep(bs, b, vals.Keys);
    KeptStep(bs, vss[..|bs|], s0, vals, b, vss[|bs|], more);
    assert vss[..|bs| + 1] == vss[..|bs|] + [vss[|bs|]];
  }

  /** The messages of the commands from the i-th on are still to come. */
  ghost predicate ToCome(tasks: seq<Task>, i: nat, left: map<MsgData, Message>, init: map<MsgData, Message>) {
    forall j, m :: i <= j < |tasks| && m in tasks[j].msgs ==> m in left && m in init && left[m] == init[m]
  }

  function Without(left: map<MsgData, Message>, ms: seq<MsgData>): map<MsgData, Message> {
    map m | m in left && m !in ms :: left[m]
  }

  lemma ToComeStep(tasks: seq<Task>, i: nat, left: map<MsgData, Message>, init: map<MsgData, Message>)
    requires Separate(tasks) && i < |tasks| && ToCome(tasks, i, left, init)
    ensures ToCome(tasks, i + 1, Without(left, tasks[i].msgs), init)
    ensures forall m :: m in tasks[i].msgs ==> m in left && m in init && left[m] == init[m]
  {
  }

  lemma InObjects(tasks: seq<Task>, i: nat)
    requires i < |tasks|
    ensures forall m :: m in tasks[i].msgs ==> m in Objects(tasks)
  {
  }

  /** The values the messages of a command had at first. */
  ghost function FirstValues(ms: seq<MsgData>, init: map<MsgData, Message>): (vs: seq<Message>)
    requires forall m :: m in ms ==> m in init
    ensures |vs| == |ms| && forall i :: 0 <= i < |ms| ==> vs[i] == init[ms[i]]
  {
    seq(|ms|, i requires 0 <= i < |ms| => init[ms[i]])
  }

  ghost predicate Covers(init: map<MsgData, Message>, tasks: seq<Task>) {
    forall i, m :: 0 <= i < |tasks| && m in tasks[i].msgs ==> m in init
  }

  ghost function AllFirst(tasks: seq<Task>, init: map<MsgData, Message>): seq<seq<Message>>
    requires Covers(init, tasks)
  {
    seq(|tasks|, i requires 0 <= i < |tasks| => FirstValues(tasks[i].msgs, init))
  }

  lemma StillFirst(ms: seq<MsgData>, init: map<MsgData, Message>)
    requires forall m :: m in ms ==> m in init && m.Value() == init[m]
    ensures Values(ms) == FirstValues(ms, init)
  {
  }

  lemma RunGrows(log: seq<Event<MsgData>>, s0: Seqs, bs: seq<Batch>, b: Batch)
    ensures log + RunEvents(bs) + BatchEvents(b) == log + RunEvents(bs + [b])
    ensures SeqStore.Run(SeqStore.Run(s0, RunOps(bs)), BatchOps(b)) == SeqStore.Run(s0, RunOps(bs + [b]))
  {
    RunEventsAppend(bs, b);
    Batches.Assoc(log, RunEvents(bs), BatchEvents(b));
    RunAppends(bs, b, "");
    RunConcat(s0, RunOps(bs), BatchOps(b));
  }

  /** The next command of a run. */
  method Turn(w: Worker, tasks: seq<Task>, i: nat, ghost bs: seq<Batch>, ghost vss: seq<seq<Message>>, ghost s0: Seqs,
              ghost vals: map<MsgData, Message>, ghost left: map<MsgData, Message>, ghost init: map<MsgData, Message>)
    returns (ghost b: Batch, ghost more: map<MsgData, Message>, ghost rest: map<MsgData, Message>)
    requires Separate(tasks) && i == |bs| < |tasks| && Covers(init, tasks) && vss == AllFirst(tasks, init)
    requires Between(tasks, bs, vss, s0, vals) && ToCome(tasks, i, left, init)
    requires w.store.View() == SeqStore.Run(s0, RunOps(bs))
    requires forall m :: m in vals ==> m.Value() == vals[m]
    requires forall m :: m in left ==> m.Value() == left[m] && m !in vals
    modifies w`log, w.store`maxSeq, w.store`hasRead, w.store`cached, tasks[i].msgs
    ensures w.log == old(w.log) + BatchEvents(b)
    ensures w.store.View() == SeqStore.Run(old(w.store.View()), BatchOps(b))
    ensures Between(tasks, bs + [b], vss, s0, more) && ToCome(tasks, i + 1, rest, init)
    ensures forall m :: m in more ==> m.Value() == more[m]
    ensures forall m :: m in rest ==> m.Value() == rest[m] && m !in more
  {
    ToComeStep(tasks, i, left, init);
    StillFirst(tasks[i].msgs, init);
    rest := Without(left, tasks[i].msgs);
    b, more := Step(w, tasks[i], vals, rest);
    BetweenStep(tasks, bs, vss, s0, vals, b, more);
  }

  /** Handles commands one after another; `init` are the messages' values before.  No message is
      in both a stored and a not-stored list of the run; every list is as classified from its
      command; the log, and the numbers the messages of any conversation carry, are those of
      the run as a whole. */
  method Run(w: Worker, tasks: seq<Task>, ghost init: map<MsgData, Message>) returns (ghost bs: seq<Batch>, ghost vals: map<MsgData, Message>)
    requires Separate(tasks)
    requires Covers(init, tasks) && forall m :: m in init ==> m.Value() == init[m]
    modifies w`log, w.store`maxSeq, w.store`hasRead, w.store`cached, Objects(tasks)
    ensures |bs| == |tasks| && Ran(tasks, bs)
    ensures w.log == old(w.log) + RunEvents(bs)
    ensures AllStored(bs) !! AllNotStored(bs) && Justified(RunEvents(bs), AllStored(bs))
    ensures w.store.View() == SeqStore.Run(old(w.store.View()), RunOps(bs))
    ensures Kept(bs, AllFirst(tasks, init), old(w.store.View()), vals)
    ensures forall m :: m in vals ==> m.Value() == vals[m]
    ensures forall m :: m in AllStored(bs) ==> m in vals && vals[m].options.Is(History)
    ensures forall m :: m in AllNotStored(bs) ==> m in vals && !vals[m].options.Is(History)
  {
    ghost var s0, vss, left := w.store.View(), AllFirst(tasks, init), init;
    bs, vals := [], map[];
    for i := 0 to |tasks|
      invariant |bs| == i && Between(tasks, bs, vss, s0, vals)
      invariant w.log == old(w.log) + RunEvents(bs)
      invariant w.store.View() == SeqStore.Run(s0, RunOps(bs))
      invariant forall m :: m in vals ==> m.Value() == vals[m]
      invariant forall m :: m in left ==> m.Value() == left[m] && m !in vals
      invariant ToCome(tasks, i, left, init)
    {
      InObjects(tasks, i);
      ghost var b, more, rest := Turn(w, tasks, i, bs, vss, s0, vals, left, init);
      RunGrows(old(w.log), s0, bs, b);
      bs, vals, left := bs + [b], more, rest;
    }
    RunEnds(tasks, bs, vss, s0, vals);
  }

  /** What holds between commands, after the last one. */
  lemma RunEnds(tasks: seq<Task>, bs: seq<Batch>, vss: seq<seq<Message>>, s0: Seqs, vals: map<MsgData, Message>)
    requires Between(tasks, bs, vss, s0, vals) && |bs| == |tasks|
    ensures Ran(tasks, bs) && Kept(bs, vss, s0, vals)
    ensures AllStored(bs) !! AllNotStored(bs) && Justified(RunEvents(bs), AllStored(bs))
    ensures forall m :: m in AllStored(bs) ==> m in vals && vals[m].options.Is(History)
    ensures forall m :: m in AllNotStored(bs) ==> m in vals && !vals[m].options.Is(History)
  {
    assert vss[..|tasks|] == vss;
    StoredBeforePushed(bs);
    HistoryOfRun(bs, vss, s0, vals);
  }

  lemma LikeHistory(ms: seq<MsgData>, vs: seq<Message>, vals: map<MsgData, Message>, stored: bool)
    requires Like(ms, vs, vals) && forall x :: x in vs ==> (x.options.Is(History) <==> stored)
    ensures forall m :: m in ms ==> m in vals && (vals[m].options.Is(History) <==> stored)
  {
    forall m | m in ms
      ensures m in vals && (vals[m].options.Is(History) <==> stored)
    {
      var i :| 0 <= i < |ms| && ms[i] == m;
      assert vs[i] in vs && vals[m].options == vs[i].options;
    }
  }

  lemma HistoryOfBatch(b: Batch, vs: seq<Message>, vals: map<MsgData, Message>)
    requires forall bin :: Like(b.lists.At(bin), Collect(vs, bin), vals)
    ensures forall m :: m in StoredOf(b) ==> m in vals && vals[m].options.Is(History)
    ensures forall m :: m in NotStoredOf(b) ==> m in vals && !vals[m].options.Is(History)
  {
    forall x
      ensures x in Collect(vs, StorageMsg) || x in Collect(vs, StorageNotification) ==> x.options.Is(History)
      ensures x in Collect(vs, NotStorageMsg) || x in Collect(vs, NotStorageNotification) ==> !x.options.Is(History)
    {
      HistoryDecides(vs, x);
    }
    LikeHistory(b.lists.At(StorageMsg), Collect(vs, StorageMsg), vals, true);
    LikeHistory(b.lists.At(StorageNotification), Collect(vs, StorageNotification), vals, true);
    LikeHistory(b.lists.At(NotStorageMsg), Collect(vs, NotStorageMsg), vals, false);
    LikeHistory(b.lists.At(NotStorageNotification), Collect(vs, NotStorageNotification), vals, false);
  }

  /** Over a run, every message of a stored list has the history flag and none of the others has. */
  lemma HistoryOfRun(bs: seq<Batch>, vss: seq<seq<Message>>, s0: Seqs, vals: map<MsgData, Message>)
    requires Kept(bs, vss, s0, vals)
    ensures forall m :: m in AllStored(bs) ==> m in vals && vals[m].options.Is(History)
    ensures forall m :: m in AllNotStored(bs) ==> m in vals && !vals[m].options.Is(History)
  {
    forall i | 0 <= i < |bs|
      ensures forall m :: m in StoredOf(bs[i]) ==> m in vals && vals[m].options.Is(History)
      ensures forall m :: m in NotStoredOf(bs[i]) ==> m in vals && !vals[m].options.Is(History)
    {
      HistoryOfBatch(bs[i], vss[i], vals);
    }
  }

  // ---------- one message too many ----------

  predicate PlainChat(m: Message) {
    !m.Notification() && m.options.Is(History) && !Reaction(m)
  }

  lemma PlainInto(m: Message)
    requires PlainChat(m)
    ensures Into(m, StorageMsg) == [m]
    ensures Into(m, NotStorageMsg) == [] && Into(m, StorageNotification) == [] && Into(m, NotStorageNotification) == []
  {
  }

  lemma CollectLast(ms: seq<Message>, bin: Bin, add: seq<Message>)
    requires ms != [] && Into(ms[|ms| - 1], bin) == add
    ensures Collect(ms, bin) == Collect(ms[..|ms| - 1], bin) + add
  {
  }

  /** A list into which no message goes. */
  lemma {:induction false} CollectNone(ms: seq<Message>, bin: Bin)
    requires forall m :: m in ms ==> Into(m, bin) == []
    ensures Collect(ms, bin) == []
  {
    if ms != [] {
      CollectNone(ms[..|ms| - 1], bin);
      CollectLast(ms, bin, []);
    }
  }

  /** A list into which every message goes as it is. */
  lemma {:induction false} CollectAll(ms: seq<Message>, bin: Bin)
    requires forall m :: m in ms ==> Into(m, bin) == [m]
    ensures Collect(ms, bin) == ms
  {
    if ms != [] {
      CollectAll(ms[..|ms| - 1], bin);
      CollectLast(ms, bin, [ms[|ms| - 1]]);
      Batches.PrefixGrows(ms, |ms|);
      assert ms[..|ms|] == ms;
    }
  }

  lemma CollectPlain(ms: seq<Message>)
    requires forall i :: 0 <= i < |ms| ==> PlainChat(ms[i])
    ensures Collect(ms, StorageMsg) == ms
    ensures |Collect(ms, NotStorageMsg)| == 0 && |Collect(ms, StorageNotification)| == 0 && |Collect(ms, NotStorageNotification)| == 0
  {
    forall m | m in ms
      ensures Into(m, StorageMsg) == [m]
      ensures Into(m, NotStorageMsg) == [] && Into(m, StorageNotification) == [] && Into(m, NotStorageNotification) == []
    {
      PlainInto(m);
    }
    CollectAll(ms, StorageMsg);
    CollectNone(ms, NotStorageMsg);
    CollectNone(ms, StorageNotification);
    CollectNone(ms, NotStorageNotification);
  }

  method Copies(n: nat, value: Message) returns (msgs: seq<MsgData>)
    ensures |msgs| == n && Distinct(msgs) && fresh(msgs)
    ensures forall j :: 0 <= j < n ==> msgs[j].Value() == value
  {
    msgs := [];
    for i := 0 to n
      invariant |msgs| == i && Distinct(msgs) && fresh(msgs)
      invariant forall j :: 0 <= j < i ==> msgs[j].Value() == value
    {
      var m := new MsgData(value);
      msgs := msgs + [m];
    }
  }

  lemma Sizes(ls: Lists, vs: seq<Message>)
    requires forall bin :: SameButForNumber(ls.At(bin), Collect(vs, bin))
    ensures forall bin :: |ls.At(bin)| == |Collect(vs, bin)|
    ensures |ls.storageMsg| == |Collect(vs, StorageMsg)|
    ensures forall i :: 0 <= i < |ls.storageMsg| ==> ls.storageMsg[i].parties == Collect(vs, StorageMsg)[i].parties
  {
    assert SameButForNumber(ls.At(StorageMsg), Collect(vs, StorageMsg));
    forall i | 0 <= i < |ls.storageMsg|
      ensures ls.storageMsg[i].parties == Collect(vs, StorageMsg)[i].parties
    {
      assert ls.storageMsg[i].Value().parties == Collect(vs, StorageMsg)[i].parties;
    }
  }

  lemma PlainSizes(ls: Lists, vs: seq<Message>, u: string)
    requires forall bin :: |ls.At(bin)| == |Collect(vs, bin)|
    requires |ls.storageMsg| == |Collect(vs, StorageMsg)|
    requires forall i :: 0 <= i < |ls.storageMsg| ==> ls.storageMsg[i].parties == Collect(vs, StorageMsg)[i].parties
    requires forall i :: 0 <= i < |vs| ==> PlainChat(vs[i]) && vs[i].parties.sendID == u
    ensures |ls.storageMsg| == |vs| && SenderSet(Senders(ls.storageMsg)) <= {u}
    ensures |ls.notStorageMsg| == 0 && |ls.storageNotification| == 0 && |ls.notStorageNotification| == 0
  {
    CollectPlain(vs);
    assert |ls.At(NotStorageMsg)| == 0;
    assert |ls.At(StorageNotification)| == 0;
    assert |ls.At(NotStorageNotification)| == 0;
  }

  /** From plain chat messages of one sender come stored chat messages of that sender only. */
  lemma PlainOnly(ls: Lists, vs: seq<Message>, u: string)
    requires forall bin :: SameButForNumber(ls.At(bin), Collect(vs, bin))
    requires forall i :: 0 <= i < |vs| ==> PlainChat(vs[i]) && vs[i].parties.sendID == u
    ensures |ls.storageMsg| == |vs| && SenderSet(Senders(ls.storageMsg)) <= {u}
    ensures |ls.notStorageMsg| == 0 && |ls.storageNotification| == 0 && |ls.notStorageNotification| == 0
  {
    Sizes(ls, vs);
    PlainSizes(ls, vs, u);
  }

  /** More chat messages than fit: none is pushed, none is handed over. */
  lemma LostBatch(b: Batch)
    requires Judged(b) && |b.lists.storageMsg| > SINGLE_DOC_MSG_NUM
    requires |b.lists.notStorageMsg| == 0 && |b.lists.storageNotification| == 0 && |b.lists.notStorageNotification| == 0
    ensures Pushed(BatchEvents(b)) == [] && forall e :: e in BatchEvents(b) ==> !e.ToMongo?
  {
    PushedBatch(b);
    HandedOver(b);
  }

  method Positions(n: nat) returns (all: set<nat>)
    ensures forall i: nat :: i < n ==> i in all
  {
    all := {};
    for i := 0 to n
      invariant forall j: nat :: j < i ==> j in all
    {
      all := all + {i};
    }
  }

  const FROM_U_TO_V := Message(Parties(SingleChat, "u", "v", ""), OtherContent(0), "", OptionMap(map[]), 0)

  /** Handles plain chat messages from u to v. */
  method HandlePlain(w: Worker, msgs: seq<MsgData>, faults: Faults) returns (ghost b: Batch)
    requires msgs != [] && Distinct(msgs) && forall i :: 0 <= i < |msgs| ==> msgs[i].Value() == FROM_U_TO_V
    modifies w`log, w.store`maxSeq, w.store`hasRead, w.store`cached, msgs
    ensures w.log == old(w.log) + BatchEvents(b) && Judged(b) && b.chat.faults == faults
    ensures |b.lists.storageMsg| == |msgs| && SenderSet(Senders(b.lists.storageMsg)) <= {"u"}
    ensures |b.lists.notStorageMsg| == 0 && |b.lists.storageNotification| == 0 && |b.lists.notStorageNotification| == 0
    ensures b.chatID == ChatConversationID(FROM_U_TO_V.parties)
    ensures forall i :: 0 <= i < |b.lists.storageMsg| ==> b.lists.storageMsg[i] in msgs || fresh(b.lists.storageMsg[i])
    ensures w.store.cached == old(w.store.cached) + BatchCached(b)
  {
    ghost var vs := Values(msgs);
    assert msgs[0].Value() == FROM_U_TO_V;
    b := w.Process("u_v", msgs, faults, true, faults, true);
    PlainOnly(b.lists, vs, "u");
    assert b.lists.At(StorageMsg) == b.lists.storageMsg;
  }

  /** A worker that gets a batch of 101 chat messages to keep, in a store in which nothing fails:
      it pushes none of them and hands none over. */
  method OneTooMany(store: MsgStore) returns (w: Worker, ghost b: Batch)
    modifies store
    ensures fresh(w) && w.log == BatchEvents(b) && |b.lists.storageMsg| == 101
    ensures !b.chat.faults.getMaxFails && b.chat.faults.setMaxOk && forall i: nat :: i < 101 ==> i in b.chat.faults.cached
    ensures SenderSet(Senders(b.lists.storageMsg)) <= b.chat.faults.written
    ensures Pushed(w.log) == [] && forall e :: e in w.log ==> !e.ToMongo?
  {
    var all := Positions(101);
    w := new Worker(store);
    var msgs := Copies(101, FROM_U_TO_V);
    b := HandlePlain(w, msgs, Faults(false, all, true, {"u"}, OtherError));
    assert [] + BatchEvents(b) == BatchEvents(b);
    LostBatch(b);
  }

  lemma OnePushed(b: Batch)
    requires Judged(b) && b.chat.faults == Faults(false, {}, true, {"u"}, OtherError)
    requires |b.lists.storageMsg| == 1 && SenderSet(Senders(b.lists.storageMsg)) <= {"u"}
    requires |b.lists.notStorageMsg| == 0 && |b.lists.storageNotification| == 0 && |b.lists.notStorageNotification| == 0
    ensures Pushed(BatchEvents(b)) == [b.lists.storageMsg[0]] && BatchCached(b) == {}
  {
    PushedBatch(b);
    assert b.lists.storageMsg == [b.lists.storageMsg[0]];
  }

  method HandleOne(store: MsgStore, msg: MsgData) returns (w: Worker, ghost b: Batch)
    requires msg.Value() == FROM_U_TO_V
    modifies store, msg
    ensures fresh(w) && w.log == BatchEvents(b) && store.cached == old(store.cached)
    ensures |b.lists.storageMsg| == 1 && (b.lists.storageMsg[0] == msg || fresh(b.lists.storageMsg[0]))
    ensures Pushed(BatchEvents(b)) == [b.lists.storageMsg[0]]
  {
    w := new Worker(store);
    b := HandlePlain(w, [msg], Faults(false, {}, true, {"u"}, OtherError));
    OnePushed(b);
    assert [] + BatchEvents(b) == BatchEvents(b);
  }

  /** A worker that gets one chat message to keep, in a store in which only its write to the cache
      fails: the message is pushed, and is not in the cache. */
  method PushedUncached(store: MsgStore) returns (w: Worker, ghost m: MsgData)
    modifies store
    ensures fresh(w) && fresh(m) && Pushed(w.log) == [m]
    ensures ("si_u_v", m) !in store.cached
  {
    ghost var cached := store.cached;
    var msg := new MsgData(FROM_U_TO_V);
    ghost var b;
    w, b := HandleOne(store, msg);
    m := b.lists.storageMsg[0];
  }
}
