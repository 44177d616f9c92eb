/** Messages and their option flags (pkg/msgprocessor/options.go). */
module Messages {
  import opened Conversation

  datatype Flag = NotNotification | SendMsg | History | OfflinePush | UnreadCount | OtherFlag(name: string)

  /** A Go map from flags to booleans, which may be nil: it can then be read but not written. */
  datatype Options = NilOptions | OptionMap(flags: map<Flag, bool>) {

    /** A missing flag counts as set. */
    predicate Is(f: Flag) {
      NilOptions? || f !in flags || flags[f]
    }

    function With(f: Flag, b: bool): (o: Options)
      requires OptionMap?
      ensures o.OptionMap? && o.Is(f) == b
      ensures forall g :: g != f ==> o.Is(g) == Is(g)
    {
      OptionMap(flags[f := b])
    }
  }

  /** A flag reads as unset only where a map says so: not where it is missing, nor from a nil map. */
  lemma UnsetIff(o: Options, f: Flag)
    ensures !o.Is(f) <==> o.OptionMap? && (f, false) in o.flags.Items
  {
  }

  /** NewMsgOptions fills a map, then returns another one, which is empty. */
  const NEW_MSG_OPTIONS: Options := OptionMap(map[])

  datatype ContentType = ReactionModifier | ReactionDeleter | OtherContent(code: int)

  /** The value of a message at some moment. */
  datatype Message = Message(
    parties: Parties, contentType: ContentType, clientMsgID: string, options: Options, seqNo: int) {

    predicate Notification() {
      !options.Is(NotNotification)
    }

    /** The identifier under which the gateway delivers this message. */
    function DeliveredID(): string {
      ConversationIDByMsg(parties, options.Is(NotNotification))
    }
  }

  /** A message as the server holds it: options and sequence number change in place. */
  class MsgData {
    const parties: Parties
    const contentType: ContentType
    const clientMsgID: string
    var options: Options
    var seqNo: int

    constructor (value: Message)
      ensures Value() == value
    {
      parties, contentType, clientMsgID := value.parties, value.contentType, value.clientMsgID;
      options, seqNo := value.options, value.seqNo;
    }

    function Value(): Message
      reads this
    {
      Message(parties, contentType, clientMsgID, options, seqNo)
    }

    method SetFlag(f: Flag, b: bool)
      requires options.OptionMap?
      modifies this
      ensures Value() == old(Value()).(options := old(options).With(f, b))
    {
      options := options.With(f, b);
    }
  }

  ghost function Values(ms: seq<MsgData>): (vs: seq<Message>)
    reads ms
    ensures |vs| == |ms|
    ensures forall i :: 0 <= i < |ms| ==> vs[i] == ms[i].Value()
  {
    seq(|ms|, i requires 0 <= i < |ms| reads ms => ms[i].Value())
  }

  ghost predicate Distinct<T>(s: seq<T>) {
    forall i, j :: 0 <= i < j < |s| ==> s[i] != s[j]
  }
}
