/** The receive buffer of one partition claim, and the ticker that cuts it into chunks
  (ConsumeClaim). */
module ClaimBuffer {
  import opened Batches

  const SPLIT := 1000

  /** A buffer cut into pieces of SPLIT, the last of which may be shorter. */
  function Chunks<T>(s: seq<T>): seq<seq<T>> {
    if s == [] then []
    else if |s| <= SPLIT then [s]
    else [s[..SPLIT]] + Chunks(s[SPLIT..])
  }

  lemma {:induction false} ChunksConcat<T>(a: seq<T>, b: seq<T>)
    requires |a| % SPLIT == 0
    ensures Chunks(a + b) == Chunks(a) + Chunks(b)
  {
    if a == [] {
      assert a + b == b;
    } else if |a| == SPLIT {
      assert (a + b)[..SPLIT] == a && (a + b)[SPLIT..] == b;
      if b == [] {
        assert a + b == a;
      }
    } else {
      ChunksConcat(a[SPLIT..], b);
      assert (a + b)[..SPLIT] == a[..SPLIT] && (a + b)[SPLIT..] == a[SPLIT..] + b;
    }
  }

  /** The chunks are the buffer, cut: together they are the buffer, each holds between one and
      SPLIT records, all but the last hold exactly SPLIT, and there are as few as possible. */
  lemma {:induction false} ChunksProperties<T>(s: seq<T>)
    ensures Flatten(Chunks(s)) == s
    ensures forall i :: 0 <= i < |Chunks(s)| ==> 1 <= |Chunks(s)[i]| <= SPLIT
    ensures forall i :: 0 <= i < |Chunks(s)| - 1 ==> |Chunks(s)[i]| == SPLIT
    ensures |Chunks(s)| == (|s| + SPLIT - 1) / SPLIT
  {
    if s == [] {
    } else if |s| <= SPLIT {
      assert Chunks(s)[1..] == [];
    } else {
      ChunksProperties(s[SPLIT..]);
      assert Chunks(s)[1..] == Chunks(s[SPLIT..]);
      assert s == s[..SPLIT] + s[SPLIT..];
    }
  }

  /** A Go slice of a buffer: the half-open range of positions it shows. */
  datatype Slice = Slice(lo: nat, hi: nat)

  ghost predicate Shows(buffer: array<KafkaMsg>, slices: seq<Slice>, chunks: seq<seq<KafkaMsg>>)
    reads buffer
  {
    && |slices| == |chunks|
    && forall i :: 0 <= i < |slices| ==>
         slices[i].lo <= slices[i].hi <= buffer.Length && buffer[slices[i].lo..slices[i].hi] == chunks[i]
  }

  lemma ChunksExtend<T>(s: seq<T>, lo: nat, hi: nat)
    requires lo <= hi <= |s| && lo % SPLIT == 0 && 0 < hi - lo <= SPLIT
    ensures Chunks(s[..hi]) == Chunks(s[..lo]) + [s[lo..hi]]
  {
    assert s[..hi] == s[..lo] + s[lo..hi];
    ChunksConcat(s[..lo], s[lo..hi]);
  }

  /** Cuts a full buffer: whole chunks first, then what is left. */
  method Cut(buffer: array<KafkaMsg>) returns (emitted: seq<Slice>)
    ensures Shows(buffer, emitted, Chunks(buffer[..]))
  {
    ghost var s := buffer[..];
    emitted := [];
    for i := 0 to buffer.Length / SPLIT
      invariant Shows(buffer, emitted, Chunks(s[..i * SPLIT]))
    {
      ChunksExtend(s, i * SPLIT, (i + 1) * SPLIT);
      emitted := emitted + [Slice(i * SPLIT, (i + 1) * SPLIT)];
    }
    ghost var whole := SPLIT * (buffer.Length / SPLIT);
    assert s[..buffer.Length] == s;
    if buffer.Length % SPLIT > 0 {
      ChunksExtend(s, whole, buffer.Length);
      emitted := emitted + [Slice(SPLIT * (buffer.Length / SPLIT), buffer.Length)];
    }
  }

  class MessageBuffer {
    var backing: array<KafkaMsg>
    var length: nat

    ghost predicate Valid()
      reads this
    {
      length <= backing.Length
    }

    ghost function Contents(): seq<KafkaMsg>
      requires Valid()
      reads this, backing
    {
      backing[..length]
    }

    constructor ()
      ensures Valid() && fresh(backing) && Contents() == []
    {
      backing := new KafkaMsg[1000];
      length := 0;
    }

    /** Go's append: in place while there is room, otherwise into a larger array. */
    method Append(m: KafkaMsg)
      requires Valid()
      modifies this, backing
      ensures Valid() && (backing == old(backing) || fresh(backing))
      ensures Contents() == old(Contents()) + [m]
    {
      if length == backing.Length {
        var larger := new KafkaMsg[2 * length + 1];
        forall i | 0 <= i < length {
          larger[i] := backing[i];
        }
        backing := larger;
      }
      backing[length] := m;
      length := length + 1;
    }

    /** The receiver: an empty record is skipped, any other is appended. */
    method Receive(m: KafkaMsg)
      requires Valid()
      modifies this, backing
      ensures Valid() && (backing == old(backing) || fresh(backing))
      ensures Contents() == old(Contents()) + NonEmpty([m])
    {
      if m.value != "" {
        Append(m);
      }
    }

    /** One tick: copies the buffer out, empties it for reuse, and cuts the copy. */
    method Tick() returns (buffer: array<KafkaMsg>, emitted: seq<Slice>)
      requires Valid()
      modifies this
      ensures Valid() && backing == old(backing) && Contents() == []
      ensures fresh(buffer) && buffer[..] == old(Contents())
      ensures Shows(buffer, emitted, Chunks(old(Contents())))
    {
      buffer := new KafkaMsg[length];
      forall i | 0 <= i < length {
        buffer[i] := backing[i];
      }
      assert buffer[..] == Contents();
      length := 0;
      emitted := Cut(buffer);
    }

    /** While the ticker is still sending its chunks the receiver goes on appending, into the
        array the ticker copied from.  What was emitted does not change under it. */
    method SendWhileReceiving(more: seq<KafkaMsg>) returns (buffer: array<KafkaMsg>, emitted: seq<Slice>)
      requires Valid()
      modifies this, backing
      ensures Valid()
      ensures Contents() == NonEmpty(more)
      ensures Shows(buffer, emitted, Chunks(old(Contents())))
    {
      buffer, emitted := Tick();
      ghost var s := old(Contents());
      for i := 0 to |more|
        invariant Valid() && backing != buffer && (backing == old(backing) || fresh(backing))
        invariant Contents() == NonEmpty(more[..i])
        invariant Shows(buffer, emitted, Chunks(s))
      {
        Receive(more[i]);
        assert more[..i + 1] == more[..i] + [more[i]];
        NonEmptyConcat(more[..i], [more[i]]);
      }
      assert more[..|more|] == more;
    }
  }
}
