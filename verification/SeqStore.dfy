/** Sequence numbers and read watermarks: the insert that numbers messages
  (BatchInsertChat2Cache) and the RPCs that move watermarks (as_read.go, delete.go). */
module SeqStore {
  import opened Conversation
  import opened Messages

  const SINGLE_DOC_MSG_NUM := 100

  /** Per-user numbers, grouped by conversation. */
  type UserSeqs = map<string, map<string, int>>

  function UserSeq(m: UserSeqs, u: string, c: string): int {
    if c in m && u in m[c] then m[c][u] else 0
  }

  function SetUserSeq(m: UserSeqs, u: string, c: string, v: int): UserSeqs {
    m[c := (if c in m then m[c] else map[])[u := v]]
  }

  datatype Mark = Mark(userID: string, conversationID: string, seqNo: int)

  /** What the store holds.  A key that is absent reads as zero. */
  datatype Seqs = Seqs(
    maxSeq: map<string, int>,
    minSeq: map<string, int>,
    userMinSeq: UserSeqs,
    hasRead: UserSeqs,
    marked: set<Mark>) {

    function Max(c: string): int {
      if c in maxSeq then maxSeq[c] else 0
    }

    function HasRead(u: string, c: string): int {
      UserSeq(hasRead, u, c)
    }

    function Unread(u: string, c: string): int {
      Max(c) - HasRead(u, c)
    }
  }

  /** Which of a marking request's store accesses succeed, should it come to them: looking up
      what it refers to, marking, reading the watermark and writing it.  Marking goes document by
      document; where it fails, `partly` are the numbers it got to. */
  datatype Access = Access(lookup: bool, mark: bool, partly: set<int>, getRead: bool, setRead: bool)

  /** One request, or one batch of new messages.  An insert's `setMaxOk` and `written` say which
      of its own writes succeed: the new maximum, and the senders' watermarks.  A clear writes
      conversation by conversation; `minWritten` and `readWritten` are those it can write. */
  datatype Op =
    | Insert(c: string, senders: seq<string>, setMaxOk: bool, written: set<string>)
    | MarkMsgs(u: string, c: string, seqs: seq<int>, access: Access)
    | MarkConversation(u: string, c: string, kind: SessionType, hasReadSeq: int, seqs: seq<int>, access: Access)
    | SetHasRead(u: string, c: string, hasReadSeq: int, setRead: bool)
    | Clear(u: string, convs: seq<string>, syncOther: bool, minWritten: set<string>, readWritten: set<string>)

  // ---------- new messages ----------

  predicate Accepted(op: Op) {
    op.Insert? && 1 <= |op.senders| <= SINGLE_DOC_MSG_NUM
  }

  /** The last number a sender gets in a batch numbered from base + 1. */
  function LastSeqs(base: int, senders: seq<string>): map<string, int> {
    if senders == [] then map[]
    else LastSeqs(base, senders[..|senders| - 1])[senders[|senders| - 1] := base + |senders|]
  }

  /** Writes numbers for some users of one conversation. */
  function WriteRead(hasRead: UserSeqs, c: string, seqs: map<string, int>): UserSeqs {
    hasRead[c := (if c in hasRead then hasRead[c] else map[]) + seqs]
  }

  function Restrict(seqs: map<string, int>, users: set<string>): map<string, int> {
    seqs - (seqs.Keys - users)
  }

  function ApplyInsert(s: Seqs, op: Op): Seqs
    requires op.Insert?
  {
    if !Accepted(op) then s
    else
      var base := s.Max(op.c);
      s.(maxSeq := if op.setMaxOk then s.maxSeq[op.c := base + |op.senders|] else s.maxSeq,
         hasRead := WriteRead(s.hasRead, op.c, Restrict(LastSeqs(base, op.senders), op.written)))
  }

  // ---------- marking as read ----------

  /** The numbers from lo + 1 up to hi. */
  function Range(lo: int, hi: int): (r: seq<int>)
    ensures |r| == if lo < hi then hi - lo else 0
    ensures forall i :: 0 <= i < |r| ==> r[i] == lo + 1 + i
    decreases hi - lo
  {
    if lo < hi then Range(lo, hi - 1) + [hi] else []
  }

  /** Adds, in order, the requested numbers that are not there yet. */
  function AddMissing(seqs: seq<int>, more: seq<int>): seq<int> {
    if more == [] then seqs
    else
      var r := AddMissing(seqs, more[..|more| - 1]);
      var v := more[|more| - 1];
      if v in r then r else r + [v]
  }

  /** What one MarkConversationAsRead of a single chat marks. */
  function ReadList(current: int, hasReadSeq: int, requested: seq<int>): seq<int> {
    AddMissing(Range(current, hasReadSeq), requested)
  }

  function Marks(u: string, c: string, seqs: seq<int>): set<Mark> {
    set i | 0 <= i < |seqs| :: Mark(u, c, seqs[i])
  }

  /** What a request gets marked. */
  function MarksMade(u: string, c: string, seqs: seq<int>, a: Access): set<Mark> {
    if a.mark then Marks(u, c, seqs) else set i | 0 <= i < |seqs| && seqs[i] in a.partly :: Mark(u, c, seqs[i])
  }

  function ApplyMarkMsgs(s: Seqs, u: string, c: string, seqs: seq<int>, a: Access): Seqs {
    if seqs == [] || c !in s.maxSeq || seqs[|seqs| - 1] > s.Max(c) || !a.lookup then s
    else
      var h := seqs[|seqs| - 1];
      s.(marked := s.marked + MarksMade(u, c, seqs, a),
         hasRead := if a.mark && a.getRead && h > s.HasRead(u, c) && a.setRead then SetUserSeq(s.hasRead, u, c, h) else s.hasRead)
  }

  /** The conversation types for which MarkConversationAsRead does anything. */
  predicate MovesWatermark(kind: SessionType) {
    kind.SingleChat? || kind.SuperGroupChat? || kind.NotificationChat?
  }

  /** What one call marks: only single chats have marks. */
  function CallList(s: Seqs, u: string, c: string, kind: SessionType, h: int, seqs: seq<int>): seq<int> {
    if kind.SingleChat? then ReadList(s.HasRead(u, c), h, seqs) else []
  }

  function ApplyMarkConversation(s: Seqs, u: string, c: string, kind: SessionType, h: int, seqs: seq<int>, a: Access): Seqs {
    var list := CallList(s, u, c, kind, h, seqs);
    if !MovesWatermark(kind) || !a.lookup || !a.getRead then s
    else
      s.(marked := s.marked + MarksMade(u, c, list, a),
         hasRead := if (list != [] ==> a.mark) && h > s.HasRead(u, c) && a.setRead then SetUserSeq(s.hasRead, u, c, h) else s.hasRead)
  }

  // ---------- clearing ----------

  /** GetMaxSeqs leaves out conversations whose maximum is absent or zero. */
  function MaxSeqs(s: Seqs, convs: seq<string>): map<string, int> {
    map c | c in convs && s.Max(c) != 0 :: s.Max(c)
  }

  function PlusOne(m: map<string, int>): map<string, int> {
    map c | c in m :: m[c] + 1
  }

  /** Writes numbers for one user in some conversations. */
  function WriteUser(was: UserSeqs, u: string, seqs: map<string, int>): UserSeqs {
    map c | c in was.Keys + seqs.Keys ::
      (if c in was then was[c] else map[]) + (if c in seqs then map[u := seqs[c]] else map[])
  }

  /** Watermarks are written only once every smallest number is. */
  function ApplyClear(s: Seqs, u: string, convs: seq<string>, syncOther: bool, minWritten: set<string>, readWritten: set<string>): Seqs {
    var maxSeqs := MaxSeqs(s, convs);
    var minSeqs := Restrict(PlusOne(maxSeqs), minWritten);
    s.(userMinSeq := if syncOther then s.userMinSeq else WriteUser(s.userMinSeq, u, minSeqs),
       minSeq := if syncOther then s.minSeq + minSeqs else s.minSeq,
       hasRead := if maxSeqs.Keys <= minWritten then WriteUser(s.hasRead, u, Restrict(maxSeqs, readWritten)) else s.hasRead)
  }

  function Apply(s: Seqs, op: Op): Seqs {
    match op
    case Insert(_, _, _, _) => ApplyInsert(s, op)
    case MarkMsgs(u, c, seqs, a) => ApplyMarkMsgs(s, u, c, seqs, a)
    case MarkConversation(u, c, kind, h, seqs, a) => ApplyMarkConversation(s, u, c, kind, h, seqs, a)
    case SetHasRead(u, c, h, ok) =>
      if c !in s.maxSeq || h > s.Max(c) || !ok then s else s.(hasRead := SetUserSeq(s.hasRead, u, c, h))
    case Clear(u, convs, syncOther, minWritten, readWritten) => ApplyClear(s, u, convs, syncOther, minWritten, readWritten)
  }

  function Run(s: Seqs, ops: seq<Op>): Seqs
    decreases |ops|
  {
    if ops == [] then s else Run(Apply(s, ops[0]), ops[1..])
  }

  // ---------- the server ----------

  datatype CacheError = RedisNil | OtherError
  datatype InsertReply = Inserted(lastMaxSeq: int, isNew: bool) | InsertFailed(error: CacheError, isNew: bool)

  /** Which of an insert's store accesses fail.  `cached` are the positions whose messages can be
      written to the cache, `written` the senders whose watermarks can. */
  datatype Faults = Faults(getMaxFails: bool, cached: set<nat>, setMaxOk: bool, written: set<string>, readError: CacheError)

  function SenderSet(senders: seq<string>): set<string> {
    set u | u in senders
  }

  /** What an insert reports.  Failed writes of messages or of the new maximum go unreported. */
  function Reply(s: Seqs, c: string, senders: seq<string>, faults: Faults): InsertReply {
    if faults.getMaxFails || !(1 <= |senders| <= SINGLE_DOC_MSG_NUM) then InsertFailed(OtherError, false)
    else if SenderSet(senders) <= faults.written then Inserted(s.Max(c), c !in s.maxSeq)
    else InsertFailed(faults.readError, c !in s.maxSeq)
  }

  function Senders(ms: seq<MsgData>): (r: seq<string>)
    ensures |r| == |ms|
    ensures forall i :: 0 <= i < |ms| ==> r[i] == ms[i].parties.sendID
  {
    seq(|ms|, i requires 0 <= i < |ms| => ms[i].parties.sendID)
  }

  /** The messages of a batch that reach the cache, under their conversation. */
  function Cached(c: string, msgs: seq<MsgData>, positions: set<nat>): set<(string, MsgData)> {
    set i | 0 <= i < |msgs| && i in positions :: (c, msgs[i])
  }

  /** Gives the messages of a batch consecutive numbers. */
  method Number(msgs: seq<MsgData>, lastMaxSeq: int) returns (currentMaxSeq: int, userSeqMap: map<string, int>)
    requires Distinct(msgs)
    modifies msgs
    ensures currentMaxSeq == lastMaxSeq + |msgs|
    ensures userSeqMap == LastSeqs(lastMaxSeq, Senders(msgs))
    ensures forall i :: 0 <= i < |msgs| ==> msgs[i].Value() == old(msgs[i].Value()).(seqNo := lastMaxSeq + 1 + i)
  {
    currentMaxSeq, userSeqMap := lastMaxSeq, map[];
    ghost var senders := Senders(msgs);
    for i := 0 to |msgs|
      invariant currentMaxSeq == lastMaxSeq + i
      invariant userSeqMap == LastSeqs(lastMaxSeq, senders[..i])
      invariant forall j :: 0 <= j < i ==> msgs[j].Value() == old(msgs[j].Value()).(seqNo := lastMaxSeq + 1 + j)
      invariant forall j :: i <= j < |msgs| ==> msgs[j].Value() == old(msgs[j].Value())
    {
      currentMaxSeq := currentMaxSeq + 1;
      msgs[i].seqNo := currentMaxSeq;
      userSeqMap := userSeqMap[msgs[i].parties.sendID := currentMaxSeq];
      assert senders[..i + 1][..i] == senders[..i];
    }
    assert senders[..|msgs|] == senders;
  }

  lemma AcceptedInsert(s: Seqs, op: Op, maxSeq: map<string, int>, hasRead: UserSeqs)
    requires Accepted(op)
    requires maxSeq == if op.setMaxOk then s.maxSeq[op.c := s.Max(op.c) + |op.senders|] else s.maxSeq
    requires hasRead == WriteRead(s.hasRead, op.c, Restrict(LastSeqs(s.Max(op.c), op.senders), op.written))
    ensures Apply(s, op) == s.(maxSeq := maxSeq, hasRead := hasRead)
  {
  }

  class MsgStore {
    var maxSeq: map<string, int>
    var minSeq: map<string, int>
    var userMinSeq: UserSeqs
    var hasRead: UserSeqs
    var marked: set<Mark>
    var cached: set<(string, MsgData)>

    function View(): Seqs
      reads this
    {
      Seqs(maxSeq, minSeq, userMinSeq, hasRead, marked)
    }

    /** Writes the new maximum and the senders' watermarks, as far as the store lets it. */
    method Record(conversationID: string, currentMaxSeq: int, userSeqMap: map<string, int>, faults: Faults,
                  ghost senders: seq<string>) returns (ok: bool)
      requires 1 <= |senders| <= SINGLE_DOC_MSG_NUM
      requires currentMaxSeq == View().Max(conversationID) + |senders|
      requires userSeqMap == LastSeqs(View().Max(conversationID), senders)
      modifies this`maxSeq, this`hasRead
      ensures ok <==> SenderSet(senders) <= faults.written
      ensures View() == Apply(old(View()), Insert(conversationID, senders, faults.setMaxOk, faults.written))
    {
      ghost var s0 := View();
      LastSeqsKeys(s0.Max(conversationID), senders);
      if faults.setMaxOk {
        maxSeq := maxSeq[conversationID := currentMaxSeq];
      }
      hasRead := WriteRead(hasRead, conversationID, Restrict(userSeqMap, faults.written));
      ok := userSeqMap.Keys <= faults.written;
      AcceptedInsert(s0, Insert(conversationID, senders, faults.setMaxOk, faults.written), maxSeq, hasRead);
    }

    /** Numbers a batch of admissible size, and writes what it can of messages and numbers. */
    method NumberAndRecord(conversationID: string, msgs: seq<MsgData>, faults: Faults) returns (ok: bool)
      requires Distinct(msgs) && 1 <= |msgs| <= SINGLE_DOC_MSG_NUM
      modifies this`maxSeq, this`hasRead, this`cached, msgs
      ensures ok <==> SenderSet(Senders(msgs)) <= faults.written
      ensures View() == Apply(old(View()), Insert(conversationID, Senders(msgs), faults.setMaxOk, faults.written))
      ensures cached == old(cached) + Cached(conversationID, msgs, faults.cached)
      ensures forall i :: 0 <= i < |msgs| ==>
                msgs[i].Value() == old(msgs[i].Value()).(seqNo := old(View()).Max(conversationID) + 1 + i)
    {
      var lastMaxSeq := if conversationID in maxSeq then maxSeq[conversationID] else 0;
      ghost var s0 := View();
      var currentMaxSeq, userSeqMap := Number(msgs, lastMaxSeq);
      assert View() == s0;
      cached := cached + Cached(conversationID, msgs, faults.cached);
      assert View() == s0;
      ok := Record(conversationID, currentMaxSeq, userSeqMap, faults, Senders(msgs));
    }

    /** Numbers a batch and stores it.  Batches of more than SINGLE_DOC_MSG_NUM are refused. */
    method BatchInsertChat2Cache(conversationID: string, msgs: seq<MsgData>, faults: Faults) returns (reply: InsertReply)
      requires Distinct(msgs)
      modifies this`maxSeq, this`hasRead, this`cached, msgs
      ensures reply == Reply(old(View()), conversationID, Senders(msgs), faults)
      ensures View() == if faults.getMaxFails then old(View())
                        else Apply(old(View()), Insert(conversationID, Senders(msgs), faults.setMaxOk, faults.written))
      ensures cached == if faults.getMaxFails || |msgs| > SINGLE_DOC_MSG_NUM then old(cached)
                        else old(cached) + Cached(conversationID, msgs, faults.cached)
      ensures forall i :: 0 <= i < |msgs| ==>
                msgs[i].Value() ==
                if faults.getMaxFails || |msgs| > SINGLE_DOC_MSG_NUM then old(msgs[i].Value())
                else old(msgs[i].Value()).(seqNo := old(View()).Max(conversationID) + 1 + i)
    {
      if faults.getMaxFails {
        return InsertFailed(OtherError, false);
      }
      if |msgs| > SINGLE_DOC_MSG_NUM {
        return InsertFailed(OtherError, false);
      }
      if |msgs| < 1 {
        return InsertFailed(OtherError, false);
      }
      var lastMaxSeq := if conversationID in maxSeq then maxSeq[conversationID] else 0;
      var isNew := conversationID !in maxSeq;
      var ok := NumberAndRecord(conversationID, msgs, faults);
      reply := if ok then Inserted(lastMaxSeq, isNew) else InsertFailed(faults.readError, isNew);
    }

    /** SetConversationHasReadSeq writes whatever is not beyond the maximum, lower values too. */
    method SetConversationHasReadSeq(userID: string, conversationID: string, hasReadSeq: int, setRead: bool) returns (ok: bool)
      modifies this
      ensures View() == Apply(old(View()), SetHasRead(userID, conversationID, hasReadSeq, setRead)) && cached == old(cached)
      ensures ok <==> conversationID in old(maxSeq) && hasReadSeq <= old(View().Max(conversationID)) && setRead
    {
      if conversationID !in maxSeq || hasReadSeq > maxSeq[conversationID] || !setRead {
        return false;
      }
      hasRead := SetUserSeq(hasRead, userID, conversationID, hasReadSeq);
      ok := true;
    }

    /** MarkMsgsAsRead; false when the request is refused or an access fails.  Messages stay
        marked when a later access fails. */
    method MarkMsgsAsRead(userID: string, conversationID: string, seqs: seq<int>, access: Access) returns (ok: bool)
      modifies this
      ensures View() == Apply(old(View()), MarkMsgs(userID, conversationID, seqs, access)) && cached == old(cached)
      ensures ok <==>
        && seqs != [] && conversationID in old(maxSeq) && seqs[|seqs| - 1] <= old(View().Max(conversationID))
        && access.lookup && access.mark && access.getRead
        && (seqs[|seqs| - 1] > old(View().HasRead(userID, conversationID)) ==> access.setRead)
    {
      if |seqs| < 1 {
        return false;
      }
      if conversationID !in maxSeq || !access.lookup {
        return false;
      }
      var hasReadSeq := seqs[|seqs| - 1];
      if hasReadSeq > maxSeq[conversationID] {
        return false;
      }
      marked := marked + MarksMade(userID, conversationID, seqs, access);
      if !access.mark {
        return false;
      }
      if !access.getRead {
        return false;
      }
      var currentHasReadSeq := UserSeq(hasRead, userID, conversationID);
      if hasReadSeq > currentHasReadSeq {
        if !access.setRead {
          return false;
        }
        hasRead := SetUserSeq(hasRead, userID, conversationID, hasReadSeq);
      }
      ok := true;
    }

    /** The list a call marks and tells the other side: an index loop, then what is missing. */
    method MarkList(hasReadSeq: int, reqHasReadSeq: int, reqSeqs: seq<int>) returns (seqs: seq<int>)
      ensures seqs == ReadList(hasReadSeq, reqHasReadSeq, reqSeqs)
    {
      seqs := [];
      var i := hasReadSeq + 1;
      while i <= reqHasReadSeq
        invariant hasReadSeq + 1 <= i
        invariant i <= reqHasReadSeq + 1 || i == hasReadSeq + 1
        invariant seqs == Range(hasReadSeq, i - 1)
      {
        seqs := seqs + [i];
        i := i + 1;
      }
      ghost var range := seqs;
      for j := 0 to |reqSeqs|
        invariant seqs == AddMissing(range, reqSeqs[..j])
      {
        assert reqSeqs[..j + 1][..j] == reqSeqs[..j];
        if reqSeqs[j] !in seqs {
          seqs := seqs + [reqSeqs[j]];
        }
      }
      assert reqSeqs[..|reqSeqs|] == reqSeqs;
      assert range == Range(hasReadSeq, reqHasReadSeq);
    }

    /** MarkConversationAsRead.  `seqs` is what the receipt tells the other side, if one is sent. */
    method MarkConversationAsRead(userID: string, conversationID: string, kind: SessionType,
                                  reqHasReadSeq: int, reqSeqs: seq<int>, access: Access) returns (seqs: seq<int>, ok: bool)
      modifies this
      ensures View() == Apply(old(View()), MarkConversation(userID, conversationID, kind, reqHasReadSeq, reqSeqs, access))
      ensures cached == old(cached)
      ensures ok ==> seqs == CallList(old(View()), userID, conversationID, kind, reqHasReadSeq, reqSeqs)
      ensures ok <==>
        && access.lookup && access.getRead
        && (CallList(old(View()), userID, conversationID, kind, reqHasReadSeq, reqSeqs) != [] ==> access.mark)
        && (MovesWatermark(kind) && reqHasReadSeq > old(View().HasRead(userID, conversationID)) ==> access.setRead)
    {
      seqs := [];
      if !access.lookup || !access.getRead {
        return seqs, false;
      }
      var hasReadSeq := UserSeq(hasRead, userID, conversationID);
      if kind == SingleChat {
        seqs := MarkList(hasReadSeq, reqHasReadSeq, reqSeqs);
        if |seqs| > 0 {
          marked := marked + MarksMade(userID, conversationID, seqs, access);
          if !access.mark {
            return seqs, false;
          }
        }
        if reqHasReadSeq > hasReadSeq {
          if !access.setRead {
            return seqs, false;
          }
          hasRead := SetUserSeq(hasRead, userID, conversationID, reqHasReadSeq);
        }
      } else if kind == SuperGroupChat || kind == NotificationChat {
        if reqHasReadSeq > hasReadSeq {
          if !access.setRead {
            return seqs, false;
          }
          hasRead := SetUserSeq(hasRead, userID, conversationID, reqHasReadSeq);
        }
      }
      ok := true;
    }

    method GetMinSeqs(maxSeqs: map<string, int>) returns (minSeqs: map<string, int>)
      ensures minSeqs == PlusOne(maxSeqs)
    {
      minSeqs := map[];
      var todo := maxSeqs.Keys;
      while todo != {}
        invariant todo <= maxSeqs.Keys
        invariant minSeqs == map c | c in maxSeqs && c !in todo :: maxSeqs[c] + 1
      {
        var k :| k in todo;
        minSeqs := minSeqs[k := maxSeqs[k] + 1];
        todo := todo - {k};
      }
    }

    /** clearConversation, given the requested conversations that exist. */
    method ClearConversation(existConversationIDs: seq<string>, userID: string, isSyncOther: bool,
                             minWritten: set<string>, readWritten: set<string>) returns (ok: bool)
      modifies this
      ensures View() == Apply(old(View()), Clear(userID, existConversationIDs, isSyncOther, minWritten, readWritten))
      ensures cached == old(cached)
      ensures ok <==> MaxSeqs(old(View()), existConversationIDs).Keys <= minWritten * readWritten
    {
      var maxSeqs := MaxSeqs(View(), existConversationIDs);
      var minSeqs := GetMinSeqs(maxSeqs);
      assert minSeqs.Keys == maxSeqs.Keys;
      if !isSyncOther {
        userMinSeq := WriteUser(userMinSeq, userID, Restrict(minSeqs, minWritten));
      } else {
        minSeq := minSeq + Restrict(minSeqs, minWritten);
      }
      if !(minSeqs.Keys <= minWritten) {
        return false;
      }
      hasRead := WriteUser(hasRead, userID, Restrict(maxSeqs, readWritten));
      ok := maxSeqs.Keys <= readWritten;
    }
  }

  lemma {:induction false} LastSeqsKeys(base: int, senders: seq<string>)
    ensures LastSeqs(base, senders).Keys == SenderSet(senders)
    ensures forall u :: u in LastSeqs(base, senders) ==> base < LastSeqs(base, senders)[u] <= base + |senders|
  {
    if senders != [] {
      var rest, last := senders[..|senders| - 1], senders[|senders| - 1];
      LastSeqsKeys(base, rest);
      assert senders == rest + [last];
    }
  }
}
