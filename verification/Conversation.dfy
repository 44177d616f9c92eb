/** Conversation identifiers (pkg/msgprocessor/conversation.go).

  Every message belongs to a conversation whose identifier is a prefix, an underscore and
  the identifiers of the parties.  User and group identifiers are arbitrary strings: they
  may themselves hold underscores, and nothing below assumes otherwise.
 */
module Conversation {

  datatype SessionType = SingleChat | GroupChat | SuperGroupChat | NotificationChat | UnknownSession(code: int)

  /** The fields of a message from which identifiers are computed. */
  datatype Parties = Parties(sessionType: SessionType, sendID: string, recvID: string, groupID: string)

  // ---------- Go's string order, and the sorted pair ----------

  /** Go's `<=` on strings: lexicographic order. */
  predicate StringLeq(a: string, b: string) {
    if a == [] then true
    else if b == [] then false
    else if a[0] != b[0] then a[0] < b[0]
    else StringLeq(a[1..], b[1..])
  }

  lemma {:induction false} StringLeqTotal(a: string, b: string)
    ensures StringLeq(a, b) || StringLeq(b, a)
    ensures StringLeq(a, b) && StringLeq(b, a) ==> a == b
  {
    if a == [] || b == [] || a[0] != b[0] {
    } else {
      StringLeqTotal(a[1..], b[1..]);
      assert a == [a[0]] + a[1..] && b == [b[0]] + b[1..];
    }
  }

  /** The order is decided by the first place where two strings differ, or else by one being the
      beginning of the other; their lengths alone decide nothing. */
  lemma {:induction false} StringLeqExact(a: string, b: string)
    ensures StringLeq(a, b) <==> a <= b || exists i :: 0 <= i < |a| && i < |b| && a[..i] == b[..i] && a[i] < b[i]
  {
    if a != [] && b != [] {
      if a[0] == b[0] {
        StringLeqExact(a[1..], b[1..]);
        assert a <= b <==> a[1..] <= b[1..] by {
          assert a == [a[0]] + a[1..] && b == [b[0]] + b[1..];
        }
        LessAfter(a, b);
      } else {
        assert a[..0] == b[..0];
        assert forall i :: 0 < i <= |a| && i <= |b| ==> a[..i][0] != b[..i][0];
      }
    }
  }

  /** Behind an equal first character, the first difference is that of the rests. */
  lemma LessAfter(a: string, b: string)
    requires a != [] && b != [] && a[0] == b[0]
    ensures (exists i :: 0 <= i < |a| && i < |b| && a[..i] == b[..i] && a[i] < b[i]) <==>
            (exists i :: 0 <= i < |a[1..]| && i < |b[1..]| && a[1..][..i] == b[1..][..i] && a[1..][i] < b[1..][i])
  {
    var x, y := a[1..], b[1..];
    if i :| 0 <= i < |a| && i < |b| && a[..i] == b[..i] && a[i] < b[i] {
      assert i > 0;
      assert x[..i - 1] == a[..i][1..] && y[..i - 1] == b[..i][1..];
      assert x[i - 1] < y[i - 1];
    }
    if i :| 0 <= i < |x| && i < |y| && x[..i] == y[..i] && x[i] < y[i] {
      assert a[..i + 1] == [a[0]] + x[..i] && b[..i + 1] == [b[0]] + y[..i];
      assert a[i + 1] < b[i + 1];
    }
  }

  /** The two identifiers in sorted order, joined by an underscore. */
  function SortedPair(a: string, b: string): string {
    if StringLeq(a, b) then a + "_" + b else b + "_" + a
  }

  lemma SortedPairSymmetric(a: string, b: string)
    ensures SortedPair(a, b) == SortedPair(b, a)
  {
    StringLeqTotal(a, b);
  }

  // ---------- identifier generators ----------

  function NotificationConversationID(p: Parties): string {
    match p.sessionType
    case SingleChat => "n_" + SortedPair(p.sendID, p.recvID)
    case GroupChat => "n_" + p.groupID
    case SuperGroupChat => "n_" + p.groupID
    case NotificationChat => "n_" + p.sendID + "_" + p.recvID
    case UnknownSession(_) => ""
  }

  function ChatConversationID(p: Parties): string {
    match p.sessionType
    case SingleChat => "si_" + SortedPair(p.sendID, p.recvID)
    case GroupChat => "g_" + p.groupID
    case SuperGroupChat => "sg_" + p.groupID
    case NotificationChat => "sn_" + p.sendID + "_" + p.recvID
    case UnknownSession(_) => ""
  }

  /** The Kafka key of a message. */
  function ConversationUniqueKey(p: Parties): string {
    match p.sessionType
    case SingleChat => SortedPair(p.sendID, p.recvID)
    case NotificationChat => SortedPair(p.sendID, p.recvID)
    case SuperGroupChat => p.groupID
    case GroupChat => ""
    case UnknownSession(_) => ""
  }

  /** The identifier the gateway recomputes from the message it delivers. */
  function ConversationIDByMsg(p: Parties, isNotNotification: bool): string {
    match p.sessionType
    case SingleChat =>
      if !isNotNotification then "n_" + SortedPair(p.sendID, p.recvID) else "si_" + SortedPair(p.sendID, p.recvID)
    case GroupChat => if !isNotNotification then "n_" + p.groupID else "g_" + p.groupID
    case SuperGroupChat => if !isNotNotification then "n_" + p.groupID else "sg_" + p.groupID
    case NotificationChat =>
      if !isNotNotification then "n_" + p.sendID + "_" + p.recvID else "sn_" + p.sendID + "_" + p.recvID
    case UnknownSession(_) => ""
  }

  predicate IsNotification(conversationID: string) {
    "n_" <= conversationID
  }

  /** What follows the prefix in both identifiers.  It is the key for single and super-group
      chats; a server notification keeps its direction while its key does not, and an ordinary
      group has no key. */
  function Directed(p: Parties): string {
    match p.sessionType
    case SingleChat => SortedPair(p.sendID, p.recvID)
    case GroupChat => p.groupID
    case SuperGroupChat => p.groupID
    case NotificationChat => p.sendID + "_" + p.recvID
    case UnknownSession(_) => ""
  }

  lemma IDsFromDirected(p: Parties)
    requires !p.sessionType.UnknownSession?
    ensures NotificationConversationID(p) == "n_" + Directed(p)
    ensures p.sessionType.SingleChat? ==> ChatConversationID(p) == "si_" + Directed(p)
    ensures p.sessionType.GroupChat? ==> ChatConversationID(p) == "g_" + Directed(p)
    ensures p.sessionType.SuperGroupChat? ==> ChatConversationID(p) == "sg_" + Directed(p)
    ensures p.sessionType.NotificationChat? ==> ChatConversationID(p) == "sn_" + Directed(p)
  {
    assert "n_" + p.sendID + "_" + p.recvID == "n_" + (p.sendID + "_" + p.recvID);
    assert "sn_" + p.sendID + "_" + p.recvID == "sn_" + (p.sendID + "_" + p.recvID);
  }

  // ---------- strings.Split and strings.Join on the underscore ----------

  function Split(s: string): (parts: seq<string>)
    ensures |parts| >= 1
  {
    if s == [] then [""]
    else if s[0] == '_' then [""] + Split(s[1..])
    else
      var rest := Split(s[1..]);
      [[s[0]] + rest[0]] + rest[1..]
  }

  function Join(parts: seq<string>): string {
    if parts == [] then ""
    else if |parts| == 1 then parts[0]
    else parts[0] + "_" + Join(parts[1..])
  }

  /** Splitting loses nothing. */
  lemma {:induction false} JoinSplit(s: string)
    ensures Join(Split(s)) == s
  {
    if s == [] {
    } else {
      JoinSplit(s[1..]);
      assert s == [s[0]] + s[1..];
      var rest := Split(s[1..]);
      if s[0] == '_' {
        assert ([""] + rest)[1..] == rest;
      } else {
        var parts := [[s[0]] + rest[0]] + rest[1..];
        assert parts[1..] == rest[1..];
      }
    }
  }

  /** A prefix without underscores comes back as the first part. */
  lemma {:induction false} SplitAfterPrefix(prefix: string, rest: string)
    requires '_' !in prefix
    ensures Split(prefix + "_" + rest) == [prefix] + Split(rest)
  {
    var s := prefix + "_" + rest;
    if prefix == [] {
      assert s[1..] == rest;
    } else {
      SplitAfterPrefix(prefix[1..], rest);
      assert s[1..] == prefix[1..] + "_" + rest;
      assert prefix == [prefix[0]] + prefix[1..];
      assert ([prefix[1..]] + Split(rest))[1..] == Split(rest);
    }
  }

  /** Without an underscore there is a single part; with one there are several. */
  lemma {:induction false} SplitCounts(s: string)
    ensures |Split(s)| > 1 <==> '_' in s
  {
    if s != [] {
      SplitCounts(s[1..]);
      assert s == [s[0]] + s[1..];
    }
  }

  /** Every string with an underscore is a prefix without one, an underscore and a rest. */
  lemma {:induction false} FirstUnderscore(s: string) returns (prefix: string, rest: string)
    requires '_' in s
    ensures '_' !in prefix && s == prefix + "_" + rest
  {
    assert s == [s[0]] + s[1..];
    if s[0] == '_' {
      prefix, rest := "", s[1..];
    } else {
      var p, r := FirstUnderscore(s[1..]);
      prefix, rest := [s[0]] + p, r;
    }
  }

  // ---------- rewriting a conversation identifier into its notification identifier ----------

  function NotificationIDByConversationID(conversationID: string): string {
    var l := Split(conversationID);
    if |l| > 1 then Join(["n"] + l[1..]) else ""
  }

  /** The rewrite replaces everything before the first underscore, and nothing else. */
  lemma RewriteReplacesPrefix(prefix: string, rest: string)
    requires '_' !in prefix
    ensures NotificationIDByConversationID(prefix + "_" + rest) == "n_" + rest
  {
    SplitAfterPrefix(prefix, rest);
    JoinSplit(rest);
    var l := Split(prefix + "_" + rest);
    assert l[1..] == Split(rest);
    assert (["n"] + Split(rest))[1..] == Split(rest);
    assert "n" + "_" + rest == "n_" + rest;
  }

  /** For every message of a known session type, whatever its identifiers hold, rewriting
      the chat identifier gives the notification identifier. */
  lemma RewriteUndoesPrefix(p: Parties)
    requires !p.sessionType.UnknownSession?
    ensures NotificationIDByConversationID(ChatConversationID(p)) == NotificationConversationID(p)
  {
    var d := Directed(p);
    IDsFromDirected(p);
    match p.sessionType
    case SingleChat => RewriteFrom("si", "si_", d);
    case GroupChat => RewriteFrom("g", "g_", d);
    case SuperGroupChat => RewriteFrom("sg", "sg_", d);
    case NotificationChat => RewriteFrom("sn", "sn_", d);
  }

  lemma RewriteFrom(prefix: string, withUnderscore: string, rest: string)
    requires '_' !in prefix && withUnderscore == prefix + "_"
    ensures NotificationIDByConversationID(withUnderscore + rest) == "n_" + rest
  {
    RewriteReplacesPrefix(prefix, rest);
  }

  /** The rewrite is idempotent, and its result is a notification identifier exactly when
      there was an underscore to split at. */
  lemma RewriteIdempotent(id: string)
    ensures NotificationIDByConversationID(NotificationIDByConversationID(id)) == NotificationIDByConversationID(id)
    ensures IsNotification(NotificationIDByConversationID(id)) <==> '_' in id
  {
    SplitCounts(id);
    if '_' in id {
      var prefix, rest := FirstUnderscore(id);
      RewriteReplacesPrefix(prefix, rest);
      RewriteReplacesPrefix("n", rest);
      assert "n" + "_" + rest == "n_" + rest;
    }
  }

  /** Single-chat identifiers, and the key, do not depend on who sends. */
  lemma SingleChatSymmetric(a: string, b: string, g: string, h: string)
    ensures var p, q := Parties(SingleChat, a, b, g), Parties(SingleChat, b, a, h);
            && ChatConversationID(p) == ChatConversationID(q)
            && NotificationConversationID(p) == NotificationConversationID(q)
            && ConversationUniqueKey(p) == ConversationUniqueKey(q)
  {
    SortedPairSymmetric(a, b);
  }

  /** What the identifiers of the four kinds look like; "10" comes before "9". */
  lemma IdentifierExamples()
    ensures var p := Parties(SingleChat, "9", "10", "");
      ChatConversationID(p) == "si_10_9" && NotificationConversationID(p) == "n_10_9" && ConversationUniqueKey(p) == "10_9"
    ensures var p := Parties(GroupChat, "9", "", "1");
      ChatConversationID(p) == "g_1" && NotificationConversationID(p) == "n_1" && ConversationUniqueKey(p) == ""
    ensures var p := Parties(SuperGroupChat, "9", "", "1");
      ChatConversationID(p) == "sg_1" && NotificationConversationID(p) == "n_1" && ConversationUniqueKey(p) == "1"
    ensures var p := Parties(NotificationChat, "9", "10", "");
      ChatConversationID(p) == "sn_9_10" && NotificationConversationID(p) == "n_9_10" && ConversationUniqueKey(p) == "10_9"
  {
    assert SortedPair("9", "10") == "10_9";
  }

  lemma OneUnderscore(x: string, y: string, z: string, w: string)
    requires '_' !in x && '_' !in y && x + "_" + y == z + "_" + w
    ensures x == z && y == w
  {
    var s, t := x + "_" + y, z + "_" + w;
    forall i | 0 <= i < |s|
      ensures s[i] == '_' <==> i == |x|
    {
      assert s[i] == if i < |x| then x[i] else if i == |x| then '_' else y[i - |x| - 1];
    }
    assert t[|z|] == '_';
    assert x == s[..|x|] && y == s[|x| + 1..];
    assert z == t[..|z|] && w == t[|z| + 1..];
  }

  /** Two users without underscores in their identifiers share their conversation with no other pair,
      whatever identifiers those have. */
  lemma PairsApart(a: string, b: string, c: string, d: string)
    requires '_' !in a && '_' !in b
    ensures SortedPair(a, b) == SortedPair(c, d) <==> (a == c && b == d) || (a == d && b == c)
  {
    SortedPairSymmetric(a, b);
    if SortedPair(a, b) == SortedPair(c, d) {
      var x, y := if StringLeq(a, b) then a else b, if StringLeq(a, b) then b else a;
      var z, w := if StringLeq(c, d) then c else d, if StringLeq(c, d) then d else c;
      OneUnderscore(x, y, z, w);
    }
  }

  /** With underscores they may: "a_b" and "c" share theirs with "a" and "b_c". */
  lemma PairsCollide()
    ensures SortedPair("a_b", "c") == SortedPair("a", "b_c") == "a_b_c"
  {
    assert "a_b" + "_" + "c" == "a_b_c" == "a" + "_" + "b_c";
  }

  /** The key of a server notification, too, is the same from either side, though its identifiers
      are not. */
  lemma NotificationKeySymmetric(a: string, b: string, g: string, h: string)
    ensures ConversationUniqueKey(Parties(NotificationChat, a, b, g)) == ConversationUniqueKey(Parties(SingleChat, b, a, h))
    ensures a != b && '_' !in a + b ==>
      ChatConversationID(Parties(NotificationChat, a, b, g)) != ChatConversationID(Parties(NotificationChat, b, a, h))
  {
    SortedPairSymmetric(a, b);
    if a != b && '_' !in a + b {
      assert forall c :: c in a + b <==> c in a || c in b;
      SplitAfterPrefix(a, b);
      SplitAfterPrefix(b, a);
      var x, y := "sn_" + a + "_" + b, "sn_" + b + "_" + a;
      assert x[3..] == a + "_" + b && y[3..] == b + "_" + a;
      assert Split(a + "_" + b)[0] == a && Split(b + "_" + a)[0] == b;
    }
  }

  // ---------- one key, one conversation? ----------

  /** One session type and one direction; unknown types are all alike. */
  predicate SameChat(p: Parties, q: Parties) {
    if p.sessionType.UnknownSession? then q.sessionType.UnknownSession?
    else p.sessionType == q.sessionType && Directed(p) == Directed(q)
  }

  /** One direction, whatever the session types; unknown types are all alike. */
  predicate SameNotices(p: Parties, q: Parties) {
    p.sessionType.UnknownSession? == q.sessionType.UnknownSession? && Directed(p) == Directed(q)
  }

  lemma PrefixesDiffer(p: Parties, q: Parties)
    requires !p.sessionType.UnknownSession? && !q.sessionType.UnknownSession?
    ensures ChatConversationID(p) == ChatConversationID(q) ==> p.sessionType == q.sessionType
  {
    IDsFromDirected(p);
    IDsFromDirected(q);
    var x, y := ChatConversationID(p), ChatConversationID(q);
    assert p.sessionType.GroupChat? <==> x[0] == 'g';
    assert q.sessionType.GroupChat? <==> y[0] == 'g';
    assert p.sessionType.SingleChat? <==> x[1] == 'i';
    assert q.sessionType.SingleChat? <==> y[1] == 'i';
    assert p.sessionType.SuperGroupChat? <==> x[0] == 's' && x[1] == 'g';
    assert q.sessionType.SuperGroupChat? <==> y[0] == 's' && y[1] == 'g';
  }

  /** Two messages share their chat identifier exactly when they have one session type and one
      direction.  A shared key gives the direction in single and super-group chats. */
  lemma ChatIDsAgree(p: Parties, q: Parties)
    ensures ChatConversationID(p) == ChatConversationID(q) <==> SameChat(p, q)
    ensures ConversationUniqueKey(p) == ConversationUniqueKey(q) && p.sessionType == q.sessionType
            && (p.sessionType.SingleChat? || p.sessionType.SuperGroupChat?)
            ==> ChatConversationID(p) == ChatConversationID(q)
  {
    if p.sessionType.UnknownSession? || q.sessionType.UnknownSession? {
      assert !p.sessionType.UnknownSession? ==> ChatConversationID(p) != "";
      assert !q.sessionType.UnknownSession? ==> ChatConversationID(q) != "";
    } else {
      IDsFromDirected(p);
      IDsFromDirected(q);
      PrefixesDiffer(p, q);
      if p.sessionType == q.sessionType {
        var x, y, n := ChatConversationID(p), ChatConversationID(q), if p.sessionType.GroupChat? then 2 else 3;
        assert x[n..] == Directed(p) && y[n..] == Directed(q);
      }
    }
  }

  /** The notification identifiers agree exactly when the directions do, whatever the session
      types.  A shared key gives the direction outside server notifications and groups. */
  lemma NotificationIDsAgree(p: Parties, q: Parties)
    ensures NotificationConversationID(p) == NotificationConversationID(q) <==> SameNotices(p, q)
    ensures ConversationUniqueKey(p) == ConversationUniqueKey(q)
            && (p.sessionType.SingleChat? || p.sessionType.SuperGroupChat?)
            && (q.sessionType.SingleChat? || q.sessionType.SuperGroupChat?)
            ==> NotificationConversationID(p) == NotificationConversationID(q)
  {
    if p.sessionType.UnknownSession? || q.sessionType.UnknownSession? {
      assert !p.sessionType.UnknownSession? ==> NotificationConversationID(p) != "";
      assert !q.sessionType.UnknownSession? ==> NotificationConversationID(q) != "";
    } else {
      IDsFromDirected(p);
      IDsFromDirected(q);
      assert NotificationConversationID(p)[2..] == Directed(p) && NotificationConversationID(q)[2..] == Directed(q);
    }
  }

  /** The gateway's identifier is one of the two, chosen by the notification flag. */
  lemma GatewayIDIsOneOfTwo(p: Parties, isNotNotification: bool)
    ensures ConversationIDByMsg(p, isNotNotification)
            == if isNotNotification then ChatConversationID(p) else NotificationConversationID(p)
  {
  }

  /** Sharing a key is not enough: a user called "g" writing to "h" and the group "g_h"
      share the key "g_h" but not the chat conversation. */
  lemma KeyDoesNotDetermineConversation()
    ensures exists p: Parties, q: Parties ::
              ConversationUniqueKey(p) == ConversationUniqueKey(q) &&
              ChatConversationID(p) != ChatConversationID(q)
  {
    var p := Parties(SingleChat, "g", "h", "");
    var q := Parties(SuperGroupChat, "g", "h", "g_h");
    assert SortedPair("g", "h") == "g_h";
    assert ConversationUniqueKey(p) == ConversationUniqueKey(q);
    ChatIDsAgree(p, q);
  }
}
