/** Requests and arrivals that overlap.  A request reads and compares first and writes watermarks
  later; an insert numbers its messages and writes the maximum first and its senders' watermarks
  later.  Every watermark is a write of its own, in no transaction: between any two, others may
  write.  Inserts into one conversation number their messages one after another. */
module WatermarkRaces {
  import opened SeqStore
  import opened Watermarks

  /** A user's watermark in a conversation. */
  type Place = (string, string)

  /** Watermarks decided but not yet written. */
  type Late = map<Place, int>

  function At(s: Seqs, k: Place): int {
    s.HasRead(k.0, k.1)
  }

  // ---------- decision and writes ----------

  /** The watermarks a request or an insert decides to write: none if it is refused, fails or has
      nothing to raise. */
  function Decide(s: Seqs, op: Op): Late {
    match op
    case Insert(c, senders, _, written) =>
      if Accepted(op) then Placed(c, Restrict(LastSeqs(s.Max(c), senders), written)) else map[]
    case MarkMsgs(u, c, seqs, a) =>
      if seqs != [] && c in s.maxSeq && seqs[|seqs| - 1] <= s.Max(c) && a.lookup && a.mark && a.getRead
         && seqs[|seqs| - 1] > s.HasRead(u, c) && a.setRead
      then map[(u, c) := seqs[|seqs| - 1]] else map[]
    case MarkConversation(u, c, kind, h, seqs, a) =>
      if MovesWatermark(kind) && a.lookup && a.getRead && (kind.SingleChat? ==> a.mark) && h > s.HasRead(u, c) && a.setRead
      then map[(u, c) := h] else map[]
    case SetHasRead(u, c, h, ok) =>
      if c !in s.maxSeq || h > s.Max(c) || !ok then map[] else map[(u, c) := h]
    case Clear(u, convs, _, minWritten, readWritten) =>
      if MaxSeqs(s, convs).Keys <= minWritten then PlacedFor(u, Restrict(MaxSeqs(s, convs), readWritten)) else map[]
  }

  function Placed(c: string, seqs: map<string, int>): Late {
    map u | u in seqs :: (u, c) := seqs[u]
  }

  function PlacedFor(u: string, seqs: map<string, int>): Late {
    map c | c in seqs :: (u, c) := seqs[c]
  }

  lemma PlacedForAt(u: string, seqs: map<string, int>, k: Place)
    ensures k in PlacedFor(u, seqs) <==> k.0 == u && k.1 in seqs
    ensures k in PlacedFor(u, seqs) ==> PlacedFor(u, seqs)[k] == seqs[k.1]
  {
    assert k == (k.0, k.1);
  }

  /** What is written before: the maximum, marks, and smallest numbers. */
  function Early(s: Seqs, op: Op): Seqs {
    Apply(s, op).(hasRead := s.hasRead)
  }

  function Written(s: Seqs, k: Place, v: int): Seqs {
    s.(hasRead := SetUserSeq(s.hasRead, k.0, k.1, v))
  }

  /** The watermarks after a whole request are those it decides, and the old ones elsewhere. */
  lemma DecidedIsWhole(s: Seqs, op: Op, k: Place)
    ensures At(Apply(s, op), k) == if k in Decide(s, op) then Decide(s, op)[k] else At(s, k)
  {
    match op
    case Insert(_, _, _, _) => InsertDecided(s, op, k);
    case MarkMsgs(_, _, _, _) => MsgsDecided(s, op, k);
    case MarkConversation(_, _, _, _, _, _) => MarkedAt(s, op, k.0, k.1, At(Apply(s, op), k));
    case SetHasRead(_, _, _, _) =>
    case Clear(_, _, _, _, _) => ClearDecided(s, op, k);
  }

  lemma InsertDecided(s: Seqs, op: Op, k: Place)
    requires op.Insert?
    ensures At(Apply(s, op), k) == if k in Decide(s, op) then Decide(s, op)[k] else At(s, k)
  {
    if Accepted(op) {
      WriteReadAt(s.hasRead, op.c, Restrict(LastSeqs(s.Max(op.c), op.senders), op.written), k.0, k.1);
      assert k == (k.0, k.1);
    }
  }

  lemma MsgsDecided(s: Seqs, op: Op, k: Place)
    requires op.MarkMsgs?
    ensures At(Apply(s, op), k) == if k in Decide(s, op) then Decide(s, op)[k] else At(s, k)
  {
    assert k == (k.0, k.1);
  }

  lemma ClearDecided(s: Seqs, op: Op, k: Place)
    requires op.Clear?
    ensures At(Apply(s, op), k) == if k in Decide(s, op) then Decide(s, op)[k] else At(s, k)
  {
    var seqs := Restrict(MaxSeqs(s, op.convs), op.readWritten);
    PlacedForAt(op.u, seqs, k);
    if MaxSeqs(s, op.convs).Keys <= op.minWritten {
      WriteUserAt(s.hasRead, op.u, seqs, k.0, k.1);
    }
  }

  // ---------- overlapping runs ----------

  /** The store, and by number of request the writes decided but not yet made. */
  datatype Racing = Racing(s: Seqs, pending: map<nat, Late>, next: nat)

  datatype Step =
    | Begin(op: Op)               // a request or an insert up to its decision
    | Finish(id: nat, k: Place)   // one of the decided writes, in any order
    | Fail(id: nat, k: Place)     // one that is never made

  predicate Waits(r: Racing, id: nat, k: Place) {
    id in r.pending && k in r.pending[id]
  }

  predicate Enabled(r: Racing, step: Step) {
    match step
    case Begin(_) => true
    case Finish(id, k) => Waits(r, id, k)
    case Fail(id, k) => Waits(r, id, k)
  }

  function Dropped(r: Racing, id: nat, k: Place): map<nat, Late>
    requires Waits(r, id, k)
  {
    r.pending[id := r.pending[id] - {k}]
  }

  function After(r: Racing, step: Step): Racing
    requires Enabled(r, step)
  {
    match step
    case Begin(op) => Racing(Early(r.s, op), r.pending[r.next := Decide(r.s, op)], r.next + 1)
    case Finish(id, k) => r.(s := Written(r.s, k, r.pending[id][k]), pending := Dropped(r, id, k))
    case Fail(id, k) => r.(pending := Dropped(r, id, k))
  }

  ghost predicate Runs(r: Racing, steps: seq<Step>)
    decreases |steps|
  {
    steps == [] || (Enabled(r, steps[0]) && Runs(After(r, steps[0]), steps[1..]))
  }

  function RunRacing(r: Racing, steps: seq<Step>): Racing
    requires Runs(r, steps)
    decreases |steps|
  {
    if steps == [] then r else RunRacing(After(r, steps[0]), steps[1..])
  }

  /** Requests are numbered in the order in which they begin. */
  ghost predicate Counted(r: Racing) {
    forall id :: id in r.pending ==> id < r.next
  }

  lemma WrittenAt(s: Seqs, k: Place, v: int, j: Place)
    ensures At(Written(s, k, v), j) == if j == k then v else At(s, j)
    ensures Written(s, k, v).maxSeq == s.maxSeq
  {
  }

  lemma EarlySame(s: Seqs, op: Op)
    ensures Early(s, op).hasRead == s.hasRead
    ensures forall c :: Early(s, op).Max(c) == Apply(s, op).Max(c)
  {
  }

  // ---------- a request whose writes are undisturbed ----------

  /** All steps are writes of one request. */
  ghost predicate OnlyWrites(steps: seq<Step>, id: nat) {
    forall i :: 0 <= i < |steps| ==> steps[i].Finish? && steps[i].id == id
  }

  lemma {:induction false} WritesOf(r: Racing, id: nat, steps: seq<Step>, k: Place)
    requires Runs(r, steps) && OnlyWrites(steps, id) && id in r.pending
    ensures var r' := RunRacing(r, steps);
      && id in r'.pending && r'.s == r.s.(hasRead := r'.s.hasRead)
      && (k in r'.pending[id] ==> k in r.pending[id] && r'.pending[id][k] == r.pending[id][k])
      && At(r'.s, k) == if k in r.pending[id] && k !in r'.pending[id] then r.pending[id][k] else At(r.s, k)
    decreases |steps|
  {
    if steps != [] {
      var r1 := After(r, steps[0]);
      WrittenAt(r.s, steps[0].k, r.pending[id][steps[0].k], k);
      assert forall i :: 0 <= i < |steps[1..]| ==> steps[1..][i] == steps[i + 1];
      WritesOf(r1, id, steps[1..], k);
    }
  }

  /** A request whose writes all follow its decision, in any order and with nothing in between,
      does what the whole request does. */
  lemma SplitIsWhole(r: Racing, op: Op, steps: seq<Step>, k: Place)
    requires Runs(After(r, Begin(op)), steps) && OnlyWrites(steps, r.next)
    requires var r' := RunRacing(After(r, Begin(op)), steps); r.next in r'.pending && r'.pending[r.next] == map[]
    ensures var s' := RunRacing(After(r, Begin(op)), steps).s;
      At(s', k) == At(Apply(r.s, op), k) && s' == Apply(r.s, op).(hasRead := s'.hasRead)
  {
    WritesOf(After(r, Begin(op)), r.next, steps, k);
    DecidedIsWhole(r.s, op, k);
    EarlySame(r.s, op);
  }

  // ---------- nobody reads beyond the maximum ----------

  /** Nothing overshoots at the moment it begins. */
  ghost predicate Calm(r: Racing, steps: seq<Step>)
    requires Runs(r, steps)
    decreases |steps|
  {
    steps != [] ==>
      && (steps[0].Begin? ==> forall u, c :: !Overshoots(r.s, steps[0].op, u, c))
      && Calm(After(r, steps[0]), steps[1..])
  }

  ghost predicate LateWithin(s: Seqs, late: Late) {
    forall k :: k in late ==> late[k] <= s.Max(k.1)
  }

  /** Neither a watermark nor one about to be written is beyond its maximum. */
  ghost predicate Within(r: Racing) {
    Bounded(r.s) && forall id :: id in r.pending ==> LateWithin(r.s, r.pending[id])
  }

  lemma DecideWithin(s: Seqs, op: Op)
    requires Bounded(s) && forall u, c :: !Overshoots(s, op, u, c)
    ensures LateWithin(Early(s, op), Decide(s, op))
  {
    forall k | k in Decide(s, op)
      ensures Decide(s, op)[k] <= Early(s, op).Max(k.1)
    {
      assert !Overshoots(s, op, k.0, k.1);
      OneStep(s, op, k.0, k.1);
      DecidedIsWhole(s, op, k);
      EarlySame(s, op);
    }
  }

  lemma EarlyBounded(s: Seqs, op: Op)
    requires Bounded(s)
    ensures Bounded(Early(s, op)) && forall c :: Early(s, op).Max(c) >= s.Max(c)
  {
    EarlySame(s, op);
    forall u, c
      ensures Early(s, op).HasRead(u, c) <= Early(s, op).Max(c) && Early(s, op).Max(c) >= s.Max(c)
    {
      OneStep(s, op, u, c);
      assert s.HasRead(u, c) <= s.Max(c);
    }
  }

  lemma LateStays(s: Seqs, s': Seqs, late: Late)
    requires LateWithin(s, late) && forall c :: s'.Max(c) >= s.Max(c)
    ensures LateWithin(s', late)
  {
  }

  lemma BeginWithin(r: Racing, op: Op)
    requires Within(r) && forall u, c :: !Overshoots(r.s, op, u, c)
    ensures Within(After(r, Begin(op)))
  {
    EarlyBounded(r.s, op);
    DecideWithin(r.s, op);
    forall id | id in r.pending
      ensures LateWithin(Early(r.s, op), r.pending[id])
    {
      LateStays(r.s, Early(r.s, op), r.pending[id]);
    }
  }

  lemma DroppedWithin(r: Racing, id: nat, k: Place)
    requires Within(r) && Waits(r, id, k)
    ensures forall i :: i in Dropped(r, id, k) ==> LateWithin(r.s, Dropped(r, id, k)[i])
  {
    assert LateWithin(r.s, r.pending[id]);
  }

  lemma FinishWithin(r: Racing, id: nat, k: Place)
    requires Within(r) && Waits(r, id, k)
    ensures Within(After(r, Finish(id, k)))
  {
    var v := r.pending[id][k];
    var s' := Written(r.s, k, v);
    assert LateWithin(r.s, r.pending[id]);
    forall u, c
      ensures s'.HasRead(u, c) <= s'.Max(c)
    {
      WrittenAt(r.s, k, v, (u, c));
      assert r.s.HasRead(u, c) <= r.s.Max(c);
    }
    DroppedWithin(r, id, k);
    forall i | i in Dropped(r, id, k)
      ensures LateWithin(s', Dropped(r, id, k)[i])
    {
      assert LateWithin(r.s, Dropped(r, id, k)[i]);
    }
  }

  lemma StepWithin(r: Racing, step: Step)
    requires Within(r) && Enabled(r, step)
    requires step.Begin? ==> forall u, c :: !Overshoots(r.s, step.op, u, c)
    ensures Within(After(r, step))
  {
    match step
    case Begin(op) => BeginWithin(r, op);
    case Finish(id, k) => FinishWithin(r, id, k);
    case Fail(id, k) => DroppedWithin(r, id, k);
  }

  /** However requests and arrivals overlap, watermark by watermark, and whatever fails in between,
      nobody's unread count is ever negative as long as nothing overshoots when it begins. */
  lemma {:induction false} RacingKeepsBound(r: Racing, steps: seq<Step>, u: string, c: string)
    requires Within(r) && Runs(r, steps) && Calm(r, steps)
    ensures Within(RunRacing(r, steps)) && RunRacing(r, steps).s.Unread(u, c) >= 0
    decreases |steps|
  {
    if steps == [] {
      assert r.s.HasRead(u, c) <= r.s.Max(c);
    } else {
      StepWithin(r, steps[0]);
      RacingKeepsBound(After(r, steps[0]), steps[1..], u, c);
    }
  }

  // ---------- when a watermark goes back ----------

  datatype LastWrite = Nothing | Wrote(id: nat, value: int)

  /** The last write of a watermark in a run. */
  function Last(r: Racing, steps: seq<Step>, k: Place): LastWrite
    requires Runs(r, steps)
    decreases |steps|
  {
    if steps == [] then Nothing
    else
      var later := Last(After(r, steps[0]), steps[1..], k);
      if later == Nothing && steps[0].Finish? && steps[0].k == k then Wrote(steps[0].id, r.pending[steps[0].id][k])
      else later
  }

  /** A watermark is what was last written, and what it was if nothing was. */
  lemma {:induction false} LastIsSeen(r: Racing, steps: seq<Step>, k: Place)
    requires Runs(r, steps)
    ensures At(RunRacing(r, steps).s, k) == match Last(r, steps, k) case Nothing => At(r.s, k) case Wrote(_, v) => v
    decreases |steps|
  {
    if steps != [] {
      LastIsSeen(After(r, steps[0]), steps[1..], k);
      match steps[0] {
        case Begin(op) => EarlySame(r.s, op);
        case Finish(id, j) => WrittenAt(r.s, j, r.pending[id][j], k);
        case Fail(_, _) =>
      }
    }
  }

  /** What a request has decided for a watermark stays as decided until it is written. */
  lemma {:induction false} DecisionStays(r: Racing, steps: seq<Step>, id: nat, k: Place)
    requires Runs(r, steps) && Counted(r) && id < r.next && Waits(RunRacing(r, steps), id, k)
    ensures Waits(r, id, k) && RunRacing(r, steps).pending[id][k] == r.pending[id][k]
    ensures Last(r, steps, k) != Nothing ==> Last(r, steps, k).id != id
    decreases |steps|
  {
    if steps != [] {
      DecisionStays(After(r, steps[0]), steps[1..], id, k);
    }
  }

  /** When a late write takes a watermark back.  A request or an insert begins at `r`; `steps`
      follow, whatever they are; then its write of watermark k is made.  The watermark goes back
      if and only if the last write of k meanwhile, another's, was above what had been decided,
      or there was none and the request lowers the watermark outright. */
  lemma GoesBackIff(r: Racing, op: Op, steps: seq<Step>, k: Place)
    requires Within(r) && Counted(r) && Runs(After(r, Begin(op)), steps)
    requires Waits(RunRacing(After(r, Begin(op)), steps), r.next, k)
    ensures k in Decide(r.s, op)
    ensures var r1 := RunRacing(After(r, Begin(op)), steps);
      At(After(r1, Finish(r.next, k)).s, k) < At(r1.s, k) <==>
      match Last(After(r, Begin(op)), steps, k)
      case Nothing => Lowers(r.s, op, k.0, k.1)
      case Wrote(id, v) => id != r.next && v > Decide(r.s, op)[k]
  {
    var r0 := After(r, Begin(op));
    var r1 := RunRacing(r0, steps);
    DecisionStays(r0, steps, r.next, k);
    LastIsSeen(r0, steps, k);
    EarlySame(r.s, op);
    DecidedIsWhole(r.s, op, k);
    OneStep(r.s, op, k.0, k.1);
    WrittenAt(r1.s, k, r1.pending[r.next][k], k);
  }

  // ---------- when none goes back ----------

  /** Nothing lowers watermark k outright, and nothing that decides to write it begins while a
      write of it is pending. */
  ghost predicate Alone(r: Racing, steps: seq<Step>, k: Place)
    requires Runs(r, steps)
    decreases |steps|
  {
    steps != [] ==>
      && (steps[0].Begin? && k in Decide(r.s, steps[0].op) ==>
            !Lowers(r.s, steps[0].op, k.0, k.1) && forall id :: id in r.pending ==> k !in r.pending[id])
      && Alone(After(r, steps[0]), steps[1..], k)
  }

  /** At most one write of k is pending, and it is not below the watermark. */
  ghost predicate LoneWrite(r: Racing, k: Place) {
    && (forall i, j :: Waits(r, i, k) && Waits(r, j, k) ==> i == j)
    && (forall id :: Waits(r, id, k) ==> r.pending[id][k] >= At(r.s, k))
  }

  /** A step that begins nothing for k leaves at most the writes of k that waited before. */
  lemma WaitedBefore(r: Racing, step: Step, k: Place, id: nat)
    requires Enabled(r, step) && Waits(After(r, step), id, k) && (step.Begin? ==> id != r.next)
    ensures Waits(r, id, k) && After(r, step).pending[id][k] == r.pending[id][k]
  {
  }

  lemma BeginLone(r: Racing, op: Op, k: Place)
    requires Bounded(r.s) && LoneWrite(r, k)
    requires k in Decide(r.s, op) ==> !Lowers(r.s, op, k.0, k.1) && forall id :: id in r.pending ==> k !in r.pending[id]
    ensures LoneWrite(After(r, Begin(op)), k) && At(After(r, Begin(op)).s, k) == At(r.s, k)
  {
    var r' := After(r, Begin(op));
    EarlySame(r.s, op);
    DecidedIsWhole(r.s, op, k);
    OneStep(r.s, op, k.0, k.1);
    forall id | Waits(r', id, k)
      ensures r'.pending[id][k] >= At(r'.s, k) && (k in Decide(r.s, op) ==> id == r.next)
    {
      if id != r.next {
        WaitedBefore(r, Begin(op), k, id);
      }
    }
    forall i, j | Waits(r', i, k) && Waits(r', j, k)
      ensures i == j
    {
      if k !in Decide(r.s, op) {
        WaitedBefore(r, Begin(op), k, i);
        WaitedBefore(r, Begin(op), k, j);
      }
    }
  }

  lemma DropLone(r: Racing, step: Step, k: Place)
    requires LoneWrite(r, k) && Enabled(r, step) && !step.Begin?
    ensures LoneWrite(After(r, step), k) && At(After(r, step).s, k) >= At(r.s, k)
  {
    var r' := After(r, step);
    if step.Finish? {
      assert step.k == k ==> Waits(r, step.id, k);
      WrittenAt(r.s, step.k, r.pending[step.id][step.k], k);
    }
    forall id | Waits(r', id, k)
      ensures Waits(r, id, k) && r'.pending[id][k] == r.pending[id][k] && !(step.Finish? && step.k == k)
    {
      WaitedBefore(r, step, k, id);
    }
  }

  lemma LoneStep(r: Racing, step: Step, k: Place)
    requires Bounded(r.s) && LoneWrite(r, k) && Enabled(r, step)
    requires step.Begin? && k in Decide(r.s, step.op) ==>
      !Lowers(r.s, step.op, k.0, k.1) && forall id :: id in r.pending ==> k !in r.pending[id]
    ensures LoneWrite(After(r, step), k) && At(After(r, step).s, k) >= At(r.s, k)
  {
    if step.Begin? {
      BeginLone(r, step.op, k);
    } else {
      DropLone(r, step, k);
    }
  }

  /** In every run in which nothing overshoots, nothing lowers the watermark outright, and no
      request on it begins and no message of its user arrives while a write of it is pending, it
      never goes back. */
  lemma {:induction false} AloneNeverGoesBack(r: Racing, steps: seq<Step>, k: Place)
    requires Within(r) && LoneWrite(r, k) && Runs(r, steps) && Calm(r, steps) && Alone(r, steps, k)
    ensures At(RunRacing(r, steps).s, k) >= At(r.s, k)
    decreases |steps|
  {
    if steps != [] {
      LoneStep(r, steps[0], k);
      StepWithin(r, steps[0]);
      AloneNeverGoesBack(After(r, steps[0]), steps[1..], k);
    }
  }

  // ---------- runs in which one goes back ----------

  lemma TwoSteps(r: Racing, x: Step, y: Step)
    requires Enabled(r, x) && Enabled(After(r, x), y)
    ensures Runs(r, [x, y]) && RunRacing(r, [x, y]) == After(After(r, x), y)
  {
    assert [x, y][1..] == [y] && [y][1..] == [];
    assert Runs(After(r, x), [y]) && RunRacing(After(r, x), [y]) == After(After(r, x), y);
  }

  /** Two overlapping MarkMsgsAsRead of one user, the first of which is written last: each raises
      the watermark it read, and the watermark goes back from 5 to 2. */
  lemma OverlapGoesBack(r: Racing) returns (steps: seq<Step>)
    requires Within(r) && Counted(r) && "c" in r.s.maxSeq && r.s.Max("c") == 5 && r.s.HasRead("u", "c") == 0
    ensures var first := Begin(MarkMsgs("u", "c", [2], Access(true, true, {}, true, true)));
      && Runs(After(r, first), steps)
      && At(RunRacing(After(r, first), steps).s, ("u", "c")) == 5
      && Waits(RunRacing(After(r, first), steps), r.next, ("u", "c"))
      && At(After(RunRacing(After(r, first), steps), Finish(r.next, ("u", "c"))).s, ("u", "c")) == 2
  {
    var all, k := Access(true, true, {}, true, true), ("u", "c");
    var second := MarkMsgs("u", "c", [5], all);
    var r0 := After(r, Begin(MarkMsgs("u", "c", [2], all)));
    steps := [Begin(second), Finish(r0.next, k)];
    TwoSteps(r0, steps[0], steps[1]);
    var r1 := After(r0, steps[0]);
    WrittenAt(r1.s, k, 5, k);
    WrittenAt(RunRacing(r0, steps).s, k, 2, k);
  }

  /** No second request is needed: messages of u and v arrive as numbers 6 and 7, u marks the
      conversation read up to 7, and the insert's own write puts u back to 6. */
  lemma ArrivalGoesBack(r: Racing) returns (steps: seq<Step>)
    requires Within(r) && Counted(r) && "c" in r.s.maxSeq && r.s.Max("c") == 5 && r.s.HasRead("u", "c") == 5
    ensures var arrival := Begin(Insert("c", ["u", "v"], true, {"u", "v"}));
      && Runs(After(r, arrival), steps)
      && At(RunRacing(After(r, arrival), steps).s, ("u", "c")) == 7
      && Waits(RunRacing(After(r, arrival), steps), r.next, ("u", "c"))
      && At(After(RunRacing(After(r, arrival), steps), Finish(r.next, ("u", "c"))).s, ("u", "c")) == 6
  {
    var all, k, arrival := Access(true, true, {}, true, true), ("u", "c"), Insert("c", ["u", "v"], true, {"u", "v"});
    TwoSenders();
    var late := Decide(r.s, arrival);
    assert k in late && late[k] == 6;
    var r0 := After(r, Begin(arrival));
    EarlySame(r.s, arrival);
    MaxKept(r.s, arrival, "c");
    var mark := MarkMsgs("u", "c", [7], all);
    steps := [Begin(mark), Finish(r0.next, k)];
    TwoSteps(r0, steps[0], steps[1]);
    WrittenAt(After(r0, steps[0]).s, k, 7, k);
    WrittenAt(RunRacing(r0, steps).s, k, 6, k);
  }

  lemma TwoSenders()
    ensures LastSeqs(5, ["u", "v"]) == map["u" := 6, "v" := 7]
  {
    assert ["u", "v"][..1] == ["u"] && ["u"][..0] == [];
    assert LastSeqs(5, ["u"]) == map["u" := 6];
  }
}
