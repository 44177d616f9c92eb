/** Everything one request or insert changes in the stored numbers, told without naming how it is
  computed. */
module Requests {
  import opened Conversation
  import opened SeqStore
  import opened Watermarks

  // ---------- marks ----------

  /** Whether a request marks number q of a conversation for a user.  Marking that fails part-way
      has got to the numbers in `partly`. */
  predicate MarksNumber(s: Seqs, op: Op, u: string, c: string, q: int) {
    match op
    case MarkMsgs(v, d, seqs, a) =>
      && v == u && d == c && q in seqs && (a.mark || q in a.partly)
      && a.lookup && d in s.maxSeq && seqs[|seqs| - 1] <= s.maxSeq[d]
    case MarkConversation(v, d, kind, h, seqs, a) =>
      && v == u && d == c && kind == SingleChat && (s.HasRead(u, c) < q <= h || q in seqs) && (a.mark || q in a.partly)
      && a.lookup && a.getRead
    case _ => false
  }

  lemma MarksMadeExact(u: string, c: string, seqs: seq<int>, a: Access, m: Mark)
    ensures m in MarksMade(u, c, seqs, a) <==>
      m.userID == u && m.conversationID == c && m.seqNo in seqs && (a.mark || m.seqNo in a.partly)
  {
    if m.userID == u && m.conversationID == c && m.seqNo in seqs {
      var i :| 0 <= i < |seqs| && seqs[i] == m.seqNo;
      assert m == Mark(u, c, seqs[i]);
    }
  }

  /** After one request exactly those marks are there that were, and those it makes. */
  lemma MarksAfter(s: Seqs, op: Op, u: string, c: string, q: int)
    ensures Mark(u, c, q) in Apply(s, op).marked <==> Mark(u, c, q) in s.marked || MarksNumber(s, op, u, c, q)
  {
    match op
    case MarkMsgs(v, d, seqs, a) => MarksMadeExact(v, d, seqs, a, Mark(u, c, q));
    case MarkConversation(v, d, kind, h, seqs, a) =>
      ReadListExact(s.HasRead(v, d), h, seqs);
      MarksMadeExact(v, d, CallList(s, v, d, kind, h, seqs), a, Mark(u, c, q));
    case _ =>
  }

  /** A receipt of a single chat lists exactly the numbers newly passed and those asked for, and
      that of another conversation nothing. */
  lemma ReceiptExact(s: Seqs, u: string, c: string, kind: SessionType, h: int, seqs: seq<int>, q: int)
    ensures q in CallList(s, u, c, kind, h, seqs) <==> kind == SingleChat && (s.HasRead(u, c) < q <= h || q in seqs)
  {
    ReadListExact(s.HasRead(u, c), h, seqs);
  }

  // ---------- watermarks ----------

  /** The position of the last message a user sent in a batch. */
  ghost predicate LastOf(senders: seq<string>, u: string, i: int) {
    0 <= i < |senders| && senders[i] == u && forall j :: i < j < |senders| ==> senders[j] != u
  }

  lemma {:induction false} LastSeqsExact(base: int, senders: seq<string>, u: string)
    requires u in senders
    ensures u in LastSeqs(base, senders)
    ensures exists i :: LastOf(senders, u, i) && LastSeqs(base, senders)[u] == base + 1 + i
  {
    var rest, last := senders[..|senders| - 1], senders[|senders| - 1];
    assert senders == rest + [last];
    if last == u {
      assert LastOf(senders, u, |senders| - 1);
    } else {
      LastSeqsExact(base, rest, u);
      var i :| LastOf(rest, u, i) && LastSeqs(base, rest)[u] == base + 1 + i;
      assert LastOf(senders, u, i);
    }
  }

  /** An insert puts the watermark of everyone who sent in it, and whose write succeeds, at the
      number of the last message sent, and moves no other. */
  lemma InsertWatermark(s: Seqs, op: Op, u: string, c: string)
    requires op.Insert?
    ensures var h := Apply(s, op).HasRead(u, c);
      if c == op.c && 1 <= |op.senders| <= 100 && u in op.senders && u in op.written
      then exists i :: LastOf(op.senders, u, i) && h == s.Max(c) + 1 + i
      else h == s.HasRead(u, c)
  {
    if Accepted(op) {
      var last := LastSeqs(s.Max(op.c), op.senders);
      LastSeqsKeys(s.Max(op.c), op.senders);
      WriteReadAt(s.hasRead, op.c, Restrict(last, op.written), u, c);
      if u in op.senders {
        LastSeqsExact(s.Max(op.c), op.senders, u);
      }
    }
  }

  /** The watermark after a request that marks or sets it: marking raises it only, to the last
      number named or the one asked for, and only if nothing before it is refused or fails; setting
      takes any number up to the maximum. */
  lemma MarkingWatermark(s: Seqs, op: Op, u: string, c: string)
    requires op.MarkMsgs? || op.MarkConversation? || op.SetHasRead?
    ensures var h := Apply(s, op).HasRead(u, c);
      if op.u != u || op.c != c then h == s.HasRead(u, c)
      else match op
        case MarkMsgs(_, _, seqs, a) =>
          if seqs != [] && c in s.maxSeq && s.HasRead(u, c) < seqs[|seqs| - 1] <= s.maxSeq[c] && a == Access(true, true, a.partly, true, true)
          then h == seqs[|seqs| - 1] else h == s.HasRead(u, c)
        case MarkConversation(_, _, kind, wanted, _, a) =>
          if wanted > s.HasRead(u, c) && a.lookup && a.getRead && a.setRead
             && ((kind == SingleChat && a.mark) || kind == SuperGroupChat || kind == NotificationChat)
          then h == wanted else h == s.HasRead(u, c)
        case SetHasRead(_, _, wanted, ok) =>
          if c in s.maxSeq && wanted <= s.maxSeq[c] && ok then h == wanted else h == s.HasRead(u, c)
        case _ => true
  {
    if op.MarkConversation? {
      MarkedAt(s, op, u, c, Apply(s, op).HasRead(u, c));
    }
  }

  /** A clear puts the caller's watermark at the maximum of every conversation named that has
      messages, once all their smallest numbers are written. */
  lemma ClearWatermark(s: Seqs, op: Op, u: string, c: string)
    requires op.Clear?
    ensures Apply(s, op).HasRead(u, c) ==
      if u == op.u && c in op.convs && s.Max(c) != 0 && c in op.readWritten
         && (forall d :: d in op.convs && s.Max(d) != 0 ==> d in op.minWritten)
      then s.Max(c) else s.HasRead(u, c)
  {
    ClearedAt(s, op, u, c, Apply(s, op).HasRead(u, c), UserSeq(Apply(s, op).userMinSeq, u, c));
    assert forall d :: d in MaxSeqs(s, op.convs).Keys <==> d in op.convs && s.Max(d) != 0;
  }

  // ---------- the other numbers ----------

  /** Only an insert moves a maximum, by as many as it numbers and if its write succeeds; only a
      clear moves smallest numbers, to the one after the maximum. */
  lemma NumbersAfter(s: Seqs, op: Op, u: string, c: string)
    ensures var s' := Apply(s, op);
      && s'.Max(c) == (if op.Insert? && op.c == c && 1 <= |op.senders| <= 100 && op.setMaxOk
                       then s.Max(c) + |op.senders| else s.Max(c))
      && UserSeq(s'.userMinSeq, u, c) ==
           (if op.Clear? && !op.syncOther && op.u == u && c in op.convs && s.Max(c) != 0 && c in op.minWritten
            then s.Max(c) + 1 else UserSeq(s.userMinSeq, u, c))
      && (if op.Clear? && op.syncOther && c in op.convs && s.Max(c) != 0 && c in op.minWritten
          then c in s'.minSeq && s'.minSeq[c] == s.Max(c) + 1
          else (c in s'.minSeq <==> c in s.minSeq) && (c in s.minSeq ==> s'.minSeq[c] == s.minSeq[c]))
  {
    match op
    case Insert(_, _, _, _) => MaxKept(s, op, c);
    case Clear(_, _, _, _, _) =>
      ClearedAt(s, op, u, c, Apply(s, op).HasRead(u, c), UserSeq(Apply(s, op).userMinSeq, u, c));
      if op.syncOther {
        ClearAll(s, op, u, c);
      }
    case _ =>
  }

  /** What an insert answers: the numbers it gave out follow the one it reports, and a conversation
      it reports new had no maximum.  It answers so exactly when nothing that is reported failed. */
  lemma ReplyTells(s: Seqs, c: string, senders: seq<string>, faults: Faults)
    ensures var reply := Reply(s, c, senders, faults);
      && (reply.Inserted? <==> !faults.getMaxFails && 1 <= |senders| <= 100 && forall u :: u in senders ==> u in faults.written)
      && (reply.Inserted? ==>
            Assigned(s, [Insert(c, senders, faults.setMaxOk, faults.written)], c) == Range(reply.lastMaxSeq, reply.lastMaxSeq + |senders|))
      && (reply.InsertFailed? && !faults.getMaxFails && 1 <= |senders| <= 100 ==> reply.error == faults.readError)
      && (!faults.getMaxFails && 1 <= |senders| <= 100 ==> (reply.isNew <==> c !in s.maxSeq))
  {
    var ops := [Insert(c, senders, faults.setMaxOk, faults.written)];
    AssignedSplit(s, ops, c);
    assert ops[1..] == [];
  }
}
