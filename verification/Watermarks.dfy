/** What holds of read watermarks and sequence numbers over whole runs. */
module Watermarks {
  import opened Conversation
  import opened SeqStore

  /** No user has read beyond what exists, so no unread count is negative. */
  ghost predicate Bounded(s: Seqs) {
    forall u, c :: s.HasRead(u, c) <= s.Max(c)
  }

  /** The requests that move a watermark past the maximum: MarkConversationAsRead does not
      compare with it, and an insert may fail to write it after numbering. */
  predicate Overshoots(s: Seqs, op: Op, u: string, c: string) {
    match op
    case MarkConversation(u', c', kind, h, _, a) =>
      && u' == u && c' == c && MovesWatermark(kind) && h > s.Max(c)
      && a.lookup && a.getRead && (kind.SingleChat? ==> a.mark) && a.setRead
    case Insert(c', senders, setMaxOk, written) => c' == c && Accepted(op) && !setMaxOk && u in senders && u in written
    case _ => false
  }

  /** The one request that may lower a watermark, and when it does. */
  predicate Lowers(s: Seqs, op: Op, u: string, c: string) {
    op.SetHasRead? && op.setRead && op.u == u && op.c == c && c in s.maxSeq && op.hasReadSeq <= s.Max(c) && op.hasReadSeq < s.HasRead(u, c)
  }

  lemma WriteReadAt(hasRead: UserSeqs, c: string, seqs: map<string, int>, u: string, d: string)
    ensures UserSeq(WriteRead(hasRead, c, seqs), u, d) == if d == c && u in seqs then seqs[u] else UserSeq(hasRead, u, d)
  {
  }

  lemma WriteSomeAt(was: UserSeqs, v: string, seqs: map<string, int>, some: set<string>, u: string, c: string)
    ensures UserSeq(WriteUser(was, v, Restrict(seqs, some)), u, c) ==
            if u == v && c in seqs && c in some then seqs[c] else UserSeq(was, u, c)
  {
    WriteUserAt(was, v, Restrict(seqs, some), u, c);
  }

  lemma WriteUserAt(was: UserSeqs, v: string, seqs: map<string, int>, u: string, c: string)
    ensures UserSeq(WriteUser(was, v, seqs), u, c) == if u == v && c in seqs then seqs[c] else UserSeq(was, u, c)
  {
  }

  /** Whether a clear gets to a conversation that has messages. */
  predicate Clears(s: Seqs, op: Op, c: string) {
    op.Clear? && c in op.convs && s.Max(c) != 0
  }

  /** Whether a clear gets as far as writing watermarks. */
  predicate ReachesReads(s: Seqs, op: Op) {
    op.Clear? && MaxSeqs(s, op.convs).Keys <= op.minWritten
  }

  /** The numbers a clear writes, for one user and conversation. */
  lemma ClearedAt(s: Seqs, op: Op, v: string, c: string, h: int, m: int)
    requires op.Clear? && h == Apply(s, op).HasRead(v, c) && m == UserSeq(Apply(s, op).userMinSeq, v, c)
    ensures h == if v == op.u && Clears(s, op, c) && ReachesReads(s, op) && c in op.readWritten then s.Max(c) else s.HasRead(v, c)
    ensures m == if !op.syncOther && v == op.u && Clears(s, op, c) && c in op.minWritten then s.Max(c) + 1
                 else UserSeq(s.userMinSeq, v, c)
  {
    var maxSeqs := MaxSeqs(s, op.convs);
    assert c in maxSeqs <==> Clears(s, op, c);
    WriteSomeAt(s.hasRead, op.u, maxSeqs, op.readWritten, v, c);
    WriteSomeAt(s.userMinSeq, op.u, PlusOne(maxSeqs), op.minWritten, v, c);
  }

  /** The watermark an insert writes, for one user and conversation. */
  lemma InsertedAt(s: Seqs, op: Op, u: string, c: string, h: int)
    requires op.Insert? && h == ApplyInsert(s, op).HasRead(u, c)
    ensures if Accepted(op) && c == op.c && u in op.senders && u in op.written
            then s.Max(c) < h <= s.Max(c) + |op.senders|
            else h == s.HasRead(u, c)
  {
    if Accepted(op) {
      var last := LastSeqs(s.Max(op.c), op.senders);
      LastSeqsKeys(s.Max(op.c), op.senders);
      WriteReadAt(s.hasRead, op.c, Restrict(last, op.written), u, c);
    }
  }

  /** The watermark and the maximum after one request, for one user and conversation. */
  lemma OneStep(s: Seqs, op: Op, u: string, c: string)
    requires Bounded(s)
    ensures var s' := Apply(s, op);
            && (s'.HasRead(u, c) > s'.Max(c) <==> Overshoots(s, op, u, c))
            && (s'.HasRead(u, c) < s.HasRead(u, c) <==> Lowers(s, op, u, c))
            && s'.Max(c) >= s.Max(c)
  {
    assert s.HasRead(u, c) <= s.Max(c);
    var s' := Apply(s, op);
    match op
    case Insert(_, _, _, _) =>
      InsertedAt(s, op, u, c, s'.HasRead(u, c));
      MaxKept(s, op, c);
    case Clear(_, _, _, _, _) => ClearedAt(s, op, u, c, s'.HasRead(u, c), UserSeq(s'.userMinSeq, u, c));
    case MarkConversation(_, _, _, _, _, _) => MarkedAt(s, op, u, c, s'.HasRead(u, c));
    case _ =>
  }

  /** The watermark a MarkConversationAsRead writes, for one user and conversation. */
  lemma MarkedAt(s: Seqs, op: Op, u: string, c: string, h: int)
    requires op.MarkConversation? && h == Apply(s, op).HasRead(u, c)
    ensures h == if op.u == u && op.c == c && MovesWatermark(op.kind) && op.hasReadSeq > s.HasRead(u, c)
                    && op.access.lookup && op.access.getRead && (op.kind.SingleChat? ==> op.access.mark) && op.access.setRead
                 then op.hasReadSeq else s.HasRead(u, c)
  {
    OvershootMarks(s, op.u, op.c, op.kind, op.hasReadSeq, op.seqs);
  }

  lemma OvershootMarks(s: Seqs, u: string, c: string, kind: SessionType, h: int, seqs: seq<int>)
    ensures h > s.HasRead(u, c) ==> (CallList(s, u, c, kind, h, seqs) != [] <==> kind.SingleChat?)
  {
    ReadListExact(s.HasRead(u, c), h, seqs);
  }

  /** A request breaks the bound exactly when it overshoots for somebody. */
  lemma BoundKeptIff(s: Seqs, op: Op)
    requires Bounded(s)
    ensures Bounded(Apply(s, op)) <==> forall u, c :: !Overshoots(s, op, u, c)
  {
    forall u, c
      ensures Apply(s, op).HasRead(u, c) > Apply(s, op).Max(c) <==> Overshoots(s, op, u, c)
    {
      OneStep(s, op, u, c);
    }
  }

  ghost predicate NoOvershoot(s: Seqs, ops: seq<Op>)
    decreases |ops|
  {
    ops == [] || ((forall u, c :: !Overshoots(s, ops[0], u, c)) && NoOvershoot(Apply(s, ops[0]), ops[1..]))
  }

  ghost predicate NoLowering(s: Seqs, ops: seq<Op>, u: string, c: string)
    decreases |ops|
  {
    ops == [] || (!Lowers(s, ops[0], u, c) && NoLowering(Apply(s, ops[0]), ops[1..], u, c))
  }

  /** Over any run without an overshoot nobody's unread count is ever negative, and a
      watermark that no SetConversationHasReadSeq lowers never goes back. */
  lemma {:induction false} RunWatermarks(s: Seqs, ops: seq<Op>, u: string, c: string)
    requires Bounded(s) && NoOvershoot(s, ops)
    ensures Bounded(Run(s, ops)) && Run(s, ops).Unread(u, c) >= 0
    ensures NoLowering(s, ops, u, c) ==> Run(s, ops).HasRead(u, c) >= s.HasRead(u, c)
    decreases |ops|
  {
    if ops != [] {
      BoundKeptIff(s, ops[0]);
      OneStep(s, ops[0], u, c);
      RunWatermarks(Apply(s, ops[0]), ops[1..], u, c);
    }
  }

  /** A conversation with one message, read past its end. */
  lemma ReadPastTheEnd()
    ensures exists s: Seqs, op: Op :: Bounded(s) && op.MarkConversation? && Apply(s, op).Unread(op.u, op.c) < 0
  {
    var s := Seqs(map["c" := 1], map[], map[], map[], {});
    var op := MarkConversation("u", "c", SingleChat, 2, [], Access(true, true, {}, true, true));
    assert Bounded(s);
    OneStep(s, op, "u", "c");
    assert Apply(s, op).Unread("u", "c") < 0;
  }

  // ---------- clearing ----------

  /** Right after a user clears conversations for itself alone, and every write succeeds, nothing
      in them is unread and the first visible number is the one after the watermark; a
      conversation without messages is left exactly as it was, and so is every other user and
      conversation. */
  lemma ClearSelf(s: Seqs, op: Op, v: string, c: string)
    requires op.Clear? && !op.syncOther && MaxSeqs(s, op.convs).Keys <= op.minWritten * op.readWritten
    ensures var s' := Apply(s, op);
            && s'.maxSeq == s.maxSeq && s'.minSeq == s.minSeq && s'.marked == s.marked
            && if v == op.u && c in op.convs && s.Max(c) != 0
               then s'.Unread(v, c) == 0 && UserSeq(s'.userMinSeq, v, c) == s'.HasRead(v, c) + 1
               else s'.HasRead(v, c) == s.HasRead(v, c) && UserSeq(s'.userMinSeq, v, c) == UserSeq(s.userMinSeq, v, c)
  {
    var s' := Apply(s, op);
    assert Clears(s, op, c) ==> c in MaxSeqs(s, op.convs).Keys;
    ClearedAt(s, op, v, c, s'.HasRead(v, c), UserSeq(s'.userMinSeq, v, c));
  }

  /** Whatever fails, a self-only clear that touched a watermark has hidden what it marks read. */
  lemma ClearHidesBeforeReading(s: Seqs, op: Op, v: string, c: string)
    requires op.Clear? && !op.syncOther && Apply(s, op).HasRead(v, c) != s.HasRead(v, c)
    ensures Apply(s, op).Unread(v, c) == 0
    ensures UserSeq(Apply(s, op).userMinSeq, v, c) == Apply(s, op).HasRead(v, c) + 1
  {
    var s' := Apply(s, op);
    ClearedAt(s, op, v, c, s'.HasRead(v, c), UserSeq(s'.userMinSeq, v, c));
    assert c in MaxSeqs(s, op.convs).Keys;
  }

  /** Clearing for everybody hides what exists from every user, as far as the writes succeed, but
      marks it read only for the user who clears. */
  lemma ClearAll(s: Seqs, op: Op, v: string, c: string)
    requires op.Clear? && op.syncOther
    ensures var s' := Apply(s, op);
            && s'.maxSeq == s.maxSeq && s'.userMinSeq == s.userMinSeq && s'.marked == s.marked
            && (if Clears(s, op, c) && c in op.minWritten then c in s'.minSeq && s'.minSeq[c] == s.Max(c) + 1
                else (c in s'.minSeq <==> c in s.minSeq) && (c in s.minSeq ==> s'.minSeq[c] == s.minSeq[c]))
            && s'.HasRead(v, c) == if v == op.u && Clears(s, op, c) && ReachesReads(s, op) && c in op.readWritten
                                   then s.Max(c) else s.HasRead(v, c)
  {
    var s' := Apply(s, op);
    assert c in MaxSeqs(s, op.convs).Keys <==> Clears(s, op, c);
    ClearedAt(s, op, v, c, s'.HasRead(v, c), UserSeq(s'.userMinSeq, v, c));
  }

  // ---------- what a receipt lists ----------

  ghost predicate NoRepeats(s: seq<int>) {
    forall i, j :: 0 <= i < j < |s| ==> s[i] != s[j]
  }

  lemma {:induction false} AddMissingElements(seqs: seq<int>, more: seq<int>)
    requires NoRepeats(seqs)
    ensures NoRepeats(AddMissing(seqs, more))
    ensures seqs <= AddMissing(seqs, more)
    ensures forall q :: q in AddMissing(seqs, more) <==> q in seqs || q in more
  {
    if more != [] {
      var rest, last := more[..|more| - 1], more[|more| - 1];
      AddMissingElements(seqs, rest);
      assert more == rest + [last];
    }
  }

  lemma RangeElements(lo: int, hi: int)
    ensures forall q :: q in Range(lo, hi) <==> lo < q <= hi
  {
    forall q | lo < q <= hi
      ensures q in Range(lo, hi)
    {
      assert Range(lo, hi)[q - lo - 1] == q;
    }
  }

  /** The list has no duplicates, starts with the new range in order, and holds exactly the new
      range and the requested numbers. */
  lemma ReadListExact(current: int, h: int, requested: seq<int>)
    ensures NoRepeats(ReadList(current, h, requested))
    ensures Range(current, h) <= ReadList(current, h, requested)
    ensures forall q :: q in ReadList(current, h, requested) <==> current < q <= h || q in requested
  {
    AddMissingElements(Range(current, h), requested);
    RangeElements(current, h);
  }

  /** Requests that leave one user's watermark in one conversation to MarkConversationAsRead. */
  predicate LeavesTo(op: Op, u: string, c: string) {
    match op
    case MarkConversation(u', c', kind, _, _, _) => (u' == u && c' == c) ==> kind.SingleChat?
    case Insert(c', senders, _, written) => !(c' == c && u in senders && u in written)
    case MarkMsgs(u', c', _, _) => !(u' == u && c' == c)
    case SetHasRead(u', c', _, _) => !(u' == u && c' == c)
    case Clear(u', convs, _, _, _) => !(u' == u && c in convs)
  }

  lemma MarkingCovers(s: Seqs, op: Op, u: string, c: string)
    requires op.MarkConversation? && LeavesTo(op, u, c) && Apply(s, op).HasRead(u, c) != s.HasRead(u, c)
    ensures forall q :: s.HasRead(u, c) < q <= Apply(s, op).HasRead(u, c) ==> Mark(u, c, q) in Apply(s, op).marked
  {
    var list := ReadList(s.HasRead(u, c), op.hasReadSeq, op.seqs);
    ReadListExact(s.HasRead(u, c), op.hasReadSeq, op.seqs);
    forall q | s.HasRead(u, c) < q <= Apply(s, op).HasRead(u, c)
      ensures Mark(u, c, q) in Apply(s, op).marked
    {
      assert q in list;
      var i :| 0 <= i < |list| && list[i] == q;
      assert Mark(u, c, list[i]) in Marks(u, c, list);
    }
  }

  lemma SingleStepCovers(s: Seqs, op: Op, u: string, c: string)
    requires LeavesTo(op, u, c)
    ensures var s' := Apply(s, op);
            && s.marked <= s'.marked
            && forall q :: s.HasRead(u, c) < q <= s'.HasRead(u, c) ==> Mark(u, c, q) in s'.marked
  {
    var s' := Apply(s, op);
    match op
    case Insert(_, _, _, _) => InsertedAt(s, op, u, c, s'.HasRead(u, c));
    case Clear(_, _, _, _, _) => ClearedAt(s, op, u, c, s'.HasRead(u, c), UserSeq(s'.userMinSeq, u, c));
    case MarkConversation(_, _, _, _, _, _) =>
      if s'.HasRead(u, c) != s.HasRead(u, c) {
        MarkingCovers(s, op, u, c);
      }
    case _ =>
  }

  /** In a single chat, over any run that leaves the watermark to MarkConversationAsRead, every
      number the watermark has passed has been marked read. */
  lemma {:induction false} PassedIsMarked(s: Seqs, ops: seq<Op>, u: string, c: string, q: int)
    requires forall op :: op in ops ==> LeavesTo(op, u, c)
    requires s.HasRead(u, c) < q <= Run(s, ops).HasRead(u, c)
    ensures Mark(u, c, q) in Run(s, ops).marked
    decreases |ops|
  {
    var s' := Apply(s, ops[0]);
    SingleStepCovers(s, ops[0], u, c);
    if q <= s'.HasRead(u, c) {
      MarksStay(s', ops[1..]);
    } else {
      PassedIsMarked(s', ops[1..], u, c, q);
    }
  }

  lemma {:induction false} MarksStay(s: Seqs, ops: seq<Op>)
    ensures s.marked <= Run(s, ops).marked
    decreases |ops|
  {
    if ops != [] {
      MarksStay(Apply(s, ops[0]), ops[1..]);
    }
  }

  // ---------- sequence numbers ----------

  predicate InsertsInto(op: Op, c: string) {
    Accepted(op) && op.c == c
  }

  /** The numbers a run gives to the messages of one conversation, in order. */
  function Assigned(s: Seqs, ops: seq<Op>, c: string): seq<int>
    decreases |ops|
  {
    if ops == [] then []
    else
      var now := if InsertsInto(ops[0], c) then Range(s.Max(c), s.Max(c) + |ops[0].senders|) else [];
      now + Assigned(Apply(s, ops[0]), ops[1..], c)
  }

  predicate HasInsert(ops: seq<Op>, c: string) {
    exists op :: op in ops && InsertsInto(op, c)
  }

  /** Every insert that another one follows managed to write the new maximum. */
  predicate MaximaWritten(ops: seq<Op>, c: string)
    decreases |ops|
  {
    ops == [] ||
    ((InsertsInto(ops[0], c) && HasInsert(ops[1..], c) ==> ops[0].setMaxOk) && MaximaWritten(ops[1..], c))
  }

  lemma {:induction false} AssignedStarts(s: Seqs, ops: seq<Op>, c: string)
    ensures Assigned(s, ops, c) == [] <==> !HasInsert(ops, c)
    ensures Assigned(s, ops, c) != [] ==> Assigned(s, ops, c)[0] == s.Max(c) + 1
    decreases |ops|
  {
    if ops != [] {
      assert ops == [ops[0]] + ops[1..];
      if !InsertsInto(ops[0], c) {
        MaxKept(s, ops[0], c);
      }
      AssignedStarts(Apply(s, ops[0]), ops[1..], c);
    }
  }

  lemma MaxKept(s: Seqs, op: Op, c: string)
    ensures Apply(s, op).Max(c) == if InsertsInto(op, c) && op.setMaxOk then s.Max(c) + |op.senders| else s.Max(c)
  {
  }

  /** Numbers that run on from `base`, without gap or repetition. */
  ghost predicate Consecutive(base: int, numbers: seq<int>) {
    forall i :: 0 <= i < |numbers| ==> numbers[i] == base + 1 + i
  }

  /** A range followed by numbers that start from `next` runs on exactly when those numbers do
      and there are none of them unless `next` follows the range. */
  lemma RangeThen(base: int, n: nat, later: seq<int>, next: int)
    requires n >= 1 && (next == base || next == base + n)
    requires later != [] ==> later[0] == next + 1
    ensures Consecutive(base, Range(base, base + n) + later)
            <==> Consecutive(next, later) && (later == [] || next == base + n)
  {
    var a := Range(base, base + n);
    var all := a + later;
    assert forall i :: 0 <= i < |later| ==> all[n + i] == later[i];
    if Consecutive(base, all) && later != [] {
      assert all[n] == base + 1 + n;
    }
  }

  lemma AssignedSplit(s: Seqs, ops: seq<Op>, c: string)
    requires ops != []
    ensures var later := Assigned(Apply(s, ops[0]), ops[1..], c);
            Assigned(s, ops, c) == if InsertsInto(ops[0], c) then Range(s.Max(c), s.Max(c) + |ops[0].senders|) + later else later
  {
  }

  /** What follows a run's first request: its numbers, and the maximum they start from. */
  lemma {:induction false} AfterFirst(s: Seqs, ops: seq<Op>, c: string) returns (next: int, later: seq<int>)
    requires ops != []
    ensures next == if InsertsInto(ops[0], c) && ops[0].setMaxOk then s.Max(c) + |ops[0].senders| else s.Max(c)
    ensures later != [] ==> later[0] == next + 1
    ensures Assigned(s, ops, c) == if InsertsInto(ops[0], c) then Range(s.Max(c), s.Max(c) + |ops[0].senders|) + later else later
    ensures later == [] <==> !HasInsert(ops[1..], c)
    ensures Consecutive(next, later) <==> MaximaWritten(ops[1..], c)
    decreases |ops|, 0
  {
    var s' := Apply(s, ops[0]);
    next, later := s'.Max(c), Assigned(s', ops[1..], c);
    MaxKept(s, ops[0], c);
    AssignedSplit(s, ops, c);
    AssignedStarts(s', ops[1..], c);
    NumbersConsecutiveIff(s', ops[1..], c);
  }

  /** A conversation's numbers run on from its maximum without gap or repetition exactly when
      every insert that another one follows managed to write the new maximum. */
  lemma {:induction false} NumbersConsecutiveIff(s: Seqs, ops: seq<Op>, c: string)
    ensures Consecutive(s.Max(c), Assigned(s, ops, c)) <==> MaximaWritten(ops, c)
    decreases |ops|, 1
  {
    if ops != [] {
      var next, later := AfterFirst(s, ops, c);
      if InsertsInto(ops[0], c) {
        RangeThen(s.Max(c), |ops[0].senders|, later, next);
      }
    }
  }

  /** Two messages one after another, the first of which does not get its maximum written: both
      get the same number. */
  lemma NumberGivenTwice(s: Seqs, op: Op)
    requires op == Insert("c", ["u"], false, {"u"})
    ensures Assigned(s, [op, op], "c") == [s.Max("c") + 1, s.Max("c") + 1]
    ensures !Consecutive(s.Max("c"), Assigned(s, [op, op], "c"))
  {
    var n := s.Max("c");
    assert [op, op][1..] == [op];
    AssignedSplit(s, [op, op], "c");
    OneNumber(Apply(s, op), op);
    MaxKept(s, op, "c");
    assert Assigned(s, [op, op], "c") == [n + 1] + [n + 1];
    assert Assigned(s, [op, op], "c")[1] == n + 1;
  }

  lemma OneNumber(s: Seqs, op: Op)
    requires op == Insert("c", ["u"], false, {"u"})
    ensures Assigned(s, [op], "c") == [s.Max("c") + 1]
  {
    AssignedSplit(s, [op], "c");
    assert [op][1..] == [];
  }
}
