/** One writer and one reader on a stream buffer or message buffer, with no lock between them.

    The steps are the reads and writes of the shared memory: each byte that is copied, each reading of an
    index, each publication. They interleave freely, and the bytes of one copy move in any order. */
module StreamConcurrency {

  import opened StreamRing

  /** The writer, inside a send of `data`. */
  datatype Writer =
    | WriterIdle
    /** About to read the tail, in the loop of `xStreamBufferSpacesAvailable`. */
    | Asking(data: seq<Byte>)
    | ReadTailOnce(data: seq<Byte>, originalTail: nat)
    | ReadTailTwice(data: seq<Byte>, originalTail: nat, sum: nat)
    | TookHeadOff(data: seq<Byte>, originalTail: nat, rest: nat)
    | HaveSpace(data: seq<Byte>, space: nat)
    /** Copying `out` in behind the head; the bytes at `done` are there. Published at the end if `publish`. */
    | CopyingIn(data: seq<Byte>, out: seq<Byte>, done: set<nat>, publish: bool)

  /** The reader, inside a receive with `room` bytes of its own. */
  datatype Reader =
    | ReaderIdle
    | SawBytes(room: nat, bytes: nat)
    | ReadingLength(room: nat, bytes: nat, got: map<nat, Byte>)
    /** Copying out; the first `skip` bytes are the length of a message. */
    | CopyingOut(skip: nat, count: nat, bytes: nat, got: map<nat, Byte>)

  datatype State = State(
    framed: bool,
    ring: seq<Byte>,
    head: nat,
    tail: nat,
    writer: Writer,
    reader: Reader,
    // What was published and what was consumed so far.
    sent: seq<Byte>,
    received: seq<Byte>,
    sentMessages: seq<seq<Byte>>,
    receivedMessages: seq<seq<Byte>>)

  datatype Step =
    | StartSend(data: seq<Byte>)
    | ReadOriginalTail
    | AddTail
    | SubtractHead
    | CheckTail
    | AskAgain
    | PlanWrite
    | CopyIn(i: nat)
    | PublishHead
    | StartReceive(room: nat)
    | PlanRead
    | CopyOut(i: nat)
    | DecodeLength
    | PublishTail

  predicate InRange(s: State) {
    |s.ring| > 1 && s.head < |s.ring| && s.tail < |s.ring|
  }

  /** The place `i` bytes on from an index. */
  function Ahead(from: nat, i: nat, length: nat): nat {
    WrapIndex(from + i, length)
  }

  predicate AllDone(done: set<nat>, count: nat) {
    forall i :: 0 <= i < count ==> i in done
  }

  function Taken(got: map<nat, Byte>, from: nat, count: nat): (r: seq<Byte>)
    requires AllDone(got.Keys, from + count)
    ensures |r| == count
  {
    seq(count, i requires 0 <= i < count => got[from + i])
  }

  function Unread(s: State): nat
    requires InRange(s)
  {
    Distance(s.tail, s.head, |s.ring|)
  }

  /** What the space calculation makes of the difference it took. */
  function SpaceFrom(rest: int, length: nat): int {
    if rest - 1 >= length then rest - 1 - length else rest - 1
  }

  predicate Enabled(s: State, step: Step)
    requires InRange(s)
  {
    match step
    case StartSend(data) => s.writer.WriterIdle? && (s.framed ==> |data| + LENGTH_BYTES < LENGTH_LIMIT)
    case ReadOriginalTail => s.writer.Asking?
    case AddTail => s.writer.ReadTailOnce?
    case SubtractHead => s.writer.ReadTailTwice? && s.writer.sum >= s.head
    case CheckTail => s.writer.TookHeadOff? && SpaceFrom(s.writer.rest, |s.ring|) >= 0
    case AskAgain => s.writer.HaveSpace?
    case PlanWrite => s.writer.HaveSpace?
    case CopyIn(i) => s.writer.CopyingIn? && i < |s.writer.out| && i !in s.writer.done
    case PublishHead => s.writer.CopyingIn? && AllDone(s.writer.done, |s.writer.out|)
    case StartReceive(room) => s.reader.ReaderIdle?
    case PlanRead => s.reader.SawBytes?
    case CopyOut(i) =>
      || (s.reader.ReadingLength? && i < LENGTH_BYTES && i !in s.reader.got)
      || (s.reader.CopyingOut? && i < s.reader.skip + s.reader.count && i !in s.reader.got)
    case DecodeLength => s.reader.ReadingLength? && AllDone(s.reader.got.Keys, LENGTH_BYTES)
                         && s.reader.bytes >= LENGTH_BYTES
    case PublishTail => s.reader.CopyingOut? && AllDone(s.reader.got.Keys, s.reader.skip + s.reader.count)
  }

  function Plan(framed: bool, data: seq<Byte>, space: nat): Writer
    requires framed ==> |data| < LENGTH_LIMIT
  {
    if framed then
      if space >= |data| + LENGTH_BYTES then CopyingIn(data, LengthBytes(|data|) + data, {}, data != [])
      else WriterIdle
    else
      var n := if |data| < space then |data| else space;
      if n == 0 then WriterIdle else CopyingIn(data, data[..n], {}, true)
  }

  function PlanOfRead(framed: bool, room: nat, bytes: nat): Reader {
    if framed then
      if bytes > LENGTH_BYTES then ReadingLength(room, bytes, map[]) else ReaderIdle
    else
      var n := if room < bytes then room else bytes;
      if n == 0 then ReaderIdle else CopyingOut(0, n, bytes, map[])
  }

  function PlanOfBody(room: nat, bytes: nat, got: map<nat, Byte>): Reader
    requires AllDone(got.Keys, LENGTH_BYTES) && bytes >= LENGTH_BYTES
  {
    var length := LengthOf(Taken(got, 0, LENGTH_BYTES));
    var wanted := if length > room then 0 else length;
    var count := if wanted < bytes - LENGTH_BYTES then wanted else bytes - LENGTH_BYTES;
    if count == 0 then ReaderIdle else CopyingOut(LENGTH_BYTES, count, bytes, got)
  }

  function Next(s: State, step: Step): State
    requires InRange(s) && Enabled(s, step)
    requires s.framed && s.writer.HaveSpace? ==> |s.writer.data| < LENGTH_LIMIT
  {
    var n := |s.ring|;
    match step
    case StartSend(data) => s.(writer := Asking(data))
    case ReadOriginalTail => s.(writer := ReadTailOnce(s.writer.data, s.tail))
    case AddTail => s.(writer := ReadTailTwice(s.writer.data, s.writer.originalTail, n + s.tail))
    case SubtractHead => s.(writer := TookHeadOff(s.writer.data, s.writer.originalTail, s.writer.sum - s.head))
    case CheckTail =>
      s.(writer := if s.writer.originalTail == s.tail then HaveSpace(s.writer.data, SpaceFrom(s.writer.rest, n))
                   else Asking(s.writer.data))
    case AskAgain => s.(writer := Asking(s.writer.data))
    case PlanWrite => s.(writer := Plan(s.framed, s.writer.data, s.writer.space))
    case CopyIn(i) =>
      var p := Ahead(s.head, i, n);
      if p < n then
        s.(ring := s.ring[p := s.writer.out[i]], writer := s.writer.(done := s.writer.done + {i}))
      else s
    case PublishHead =>
      if s.writer.publish then
        s.(head := WrapIndex(s.head + |s.writer.out|, n), writer := WriterIdle, sent := s.sent + s.writer.out,
           sentMessages := if s.framed then s.sentMessages + [s.writer.data] else s.sentMessages)
      else
        s.(writer := WriterIdle)
    case StartReceive(room) => s.(reader := SawBytes(room, Unread(s)))
    case PlanRead => s.(reader := PlanOfRead(s.framed, s.reader.room, s.reader.bytes))
    case CopyOut(i) =>
      var p := Ahead(s.tail, i, n);
      if p < n then s.(reader := s.reader.(got := s.reader.got[i := s.ring[p]])) else s
    case DecodeLength => s.(reader := PlanOfBody(s.reader.room, s.reader.bytes, s.reader.got))
    case PublishTail =>
      s.(tail := WrapIndex(s.tail + (s.reader.skip + s.reader.count), n), reader := ReaderIdle,
         received := s.received + Taken(s.reader.got, 0, s.reader.skip + s.reader.count),
         receivedMessages := if s.framed
           then s.receivedMessages + [Taken(s.reader.got, s.reader.skip, s.reader.count)]
           else s.receivedMessages)
  }

  // ---------- the invariant ----------

  /** What lies between the indices is what was sent and not received. */
  ghost predicate Conserved(s: State)
    requires InRange(s)
  {
    s.sent == s.received + Window(s.ring, s.tail, Unread(s))
  }

  /** A tail that was read some time ago: it hides space, it never invents any. */
  predicate OldTail(s: State, t: int)
    requires InRange(s)
  {
    0 <= t < |s.ring| && Distance(t, s.head, |s.ring|) >= Unread(s)
  }

  /** A tail that was read before the tail `t`. */
  predicate OlderTail(s: State, originalTail: int, t: int)
    requires InRange(s)
  {
    0 <= originalTail < |s.ring| && 0 <= t < |s.ring| && Distance(originalTail, s.head, |s.ring|) >= Distance(t,
        s.head, |s.ring|)
  }

  ghost predicate WriterInv(s: State)
    requires InRange(s)
  {
    && (s.framed && !s.writer.WriterIdle? ==> |s.writer.data| + LENGTH_BYTES < LENGTH_LIMIT)
    && match s.writer
       case ReadTailOnce(_, originalTail) => OldTail(s, originalTail)
       case ReadTailTwice(_, originalTail, sum) =>
         OldTail(s, sum - |s.ring|) && OlderTail(s, originalTail, sum - |s.ring|)
       case TookHeadOff(_, originalTail, rest) =>
         OldTail(s, rest + s.head - |s.ring|) && OlderTail(s, originalTail, rest + s.head - |s.ring|)
       case HaveSpace(_, space) => Unread(s) + space < |s.ring|
       case CopyingIn(data, out, done, publish) =>
         && Unread(s) + |out| < |s.ring|
         && (forall i :: i in done ==> i < |out| && s.ring[Ahead(s.head, i, |s.ring|)] == out[i])
         && (s.framed ==> out == LengthBytes(|data|) + data && (publish <==> data != []))
         && (!s.framed ==> publish)
       case _ => true
  }

  ghost predicate Got(s: State, got: map<nat, Byte>, count: nat)
    requires InRange(s) && count < |s.ring|
  {
    forall i :: i in got ==> i < count && got[i] == s.ring[Ahead(s.tail, i, |s.ring|)]
  }

  /** The reader has seen the whole of the next message. */
  ghost predicate SawMessage(s: State, bytes: nat) {
    s.framed && bytes > 0 ==>
      && |s.receivedMessages| < |s.sentMessages|
      && bytes >= LENGTH_BYTES + |s.sentMessages[|s.receivedMessages|]|
  }

  ghost predicate ReaderInv(s: State)
    requires InRange(s)
  {
    match s.reader
    case ReaderIdle => true
    case SawBytes(_, bytes) => bytes <= Unread(s) && SawMessage(s, bytes)
    case ReadingLength(_, bytes, got) =>
      && s.framed && LENGTH_BYTES < bytes <= Unread(s) && SawMessage(s, bytes)
      && Got(s, got, LENGTH_BYTES)
    case CopyingOut(skip, count, bytes, got) =>
      && 0 < count && skip + count <= bytes <= Unread(s) && SawMessage(s, bytes)
      && Got(s, got, skip + count)
      && skip == (if s.framed then LENGTH_BYTES else 0)
      && (s.framed ==> count == |s.sentMessages[|s.receivedMessages|]|)
  }

  /** Both histories are whole messages. */
  ghost predicate FramedInv(s: State) {
    s.framed ==>
      && AreMessages(s.sentMessages) && AreMessages(s.receivedMessages)
      && s.sent == Frames(s.sentMessages) && s.received == Frames(s.receivedMessages)
  }

  ghost predicate Inv(s: State) {
    InRange(s) && Conserved(s) && WriterInv(s) && ReaderInv(s) && FramedInv(s)
  }

  ghost predicate Init(s: State) {
    && InRange(s) && s.head == s.tail && s.writer == WriterIdle && s.reader == ReaderIdle
    && s.sent == [] && s.received == [] && s.sentMessages == [] && s.receivedMessages == []
  }

  // ---------- every step keeps it ----------

  /** A byte that is copied in lies outside what is unread, and no two of them fall on the same place. */
  lemma SlotsApart(s: State, i: nat, j: nat)
    requires InRange(s) && Unread(s) + i < |s.ring|
    ensures Ahead(s.head, i, |s.ring|) < |s.ring|
    ensures j < Unread(s) ==> Ahead(s.tail, j, |s.ring|) != Ahead(s.head, i, |s.ring|)
    ensures j != i && Unread(s) + j < |s.ring| ==> Ahead(s.head, j, |s.ring|) != Ahead(s.head, i, |s.ring|)
  {
  }

  /** The unread bytes are the same, read one by one. */
  lemma SameWindow(s: State, t: State)
    requires InRange(s) && t.tail == s.tail && |t.ring| == |s.ring|
    requires forall j :: 0 <= j < Unread(s) ==> t.ring[Ahead(s.tail, j, |s.ring|)] == s.ring[Ahead(s.tail, j, |s.ring|)]
    ensures Window(t.ring, t.tail, Unread(s)) == Window(s.ring, s.tail, Unread(s))
  {
    forall j | 0 <= j < Unread(s)
      ensures Window(t.ring, t.tail, Unread(s))[j] == Window(s.ring, s.tail, Unread(s))[j]
    {
      assert t.ring[Ahead(s.tail, j, |s.ring|)] == s.ring[Ahead(s.tail, j, |s.ring|)];
    }
  }

  lemma CopyInKeeps(s: State, i: nat)
    requires Inv(s) && Enabled(s, CopyIn(i))
    ensures Inv(Next(s, CopyIn(i)))
  {
    hide Ahead, Distance, Window, Frames;
    var t, n := Next(s, CopyIn(i)), |s.ring|;
    forall j | 0 <= j < Unread(s)
      ensures Ahead(s.tail, j, n) != Ahead(s.head, i, n) && Ahead(s.tail, j, n) < n
    {
      SlotsApart(s, i, j);
      SlotInRange(s.tail, j, n);
    }
    SlotsApart(s, i, i);
    SameWindow(s, t);
    forall j | j in t.writer.done
      ensures j < |s.writer.out| && Ahead(s.head, j, n) < n && t.ring[Ahead(s.head, j, n)] == s.writer.out[j]
    {
      SlotsApart(s, i, j);
      SlotInRange(s.head, j, n);
    }
  }

  lemma SlotInRange(from: nat, i: nat, n: nat)
    requires from < n && i < n
    ensures Ahead(from, i, n) < n
  {
  }

  /** The bytes copied in, seen from the reader's side once they are published. */
  lemma PublishedWindow(s: State)
    requires InRange(s) && WriterInv(s) && s.writer.CopyingIn? && AllDone(s.writer.done, |s.writer.out|)
    ensures var n, count := |s.ring|, Unread(s) + |s.writer.out|;
            && Window(s.ring, s.tail, count) == Window(s.ring, s.tail, Unread(s)) + s.writer.out
            && WrapIndex(s.head + |s.writer.out|, n) < n
            && Distance(s.tail, WrapIndex(s.head + |s.writer.out|, n), n) == count
  {
    var n, count, out := |s.ring|, Unread(s), s.writer.out;
    forall i | 0 <= i < count + |out|
      ensures Window(s.ring, s.tail, count + |out|)[i] == (Window(s.ring, s.tail, count) + out)[i]
    {
      if i >= count {
        assert WrapIndex(s.tail + i, n) == Ahead(s.head, i - count, n);
        assert i - count in s.writer.done;
      }
    }
  }

  lemma PublishHeadKeeps(s: State)
    requires Inv(s) && Enabled(s, PublishHead)
    ensures Inv(Next(s, PublishHead))
  {
    hide Ahead, Distance, Window, Frames, WrapIndex;
    PublishedWindow(s);
    if s.writer.publish && s.framed {
      assert s.writer.out == Frame(s.writer.data);
      FramesAppend(s.sentMessages, s.writer.data);
    }
  }

  /** A reader that starts when the buffer is at rest sees whole messages. */
  lemma SeesWholeMessages(s: State)
    requires InRange(s) && Conserved(s) && FramedInv(s)
    ensures SawMessage(s, Unread(s))
  {
    if s.framed {
      var unread := Window(s.ring, s.tail, Unread(s));
      FramesPrefix(s.receivedMessages, unread, s.sentMessages);
      NoFrames(s.sentMessages[|s.receivedMessages|..]);
      if unread != [] {
        FirstFrame(s.sentMessages[|s.receivedMessages|..]);
      }
    }
  }

  /** What the reader has of the next message, when it has seen all of it. */
  lemma NextMessage(s: State, bytes: nat)
    requires InRange(s) && Conserved(s) && FramedInv(s)
    requires s.framed && 0 < bytes <= Unread(s) && SawMessage(s, bytes)
    ensures var m := s.sentMessages[|s.receivedMessages|];
            && IsMessage(m)
            && Unread(s) >= LENGTH_BYTES + |m|
            && Window(s.ring, s.tail, LENGTH_BYTES) == LengthBytes(|m|)
            && Window(s.ring, s.tail, LENGTH_BYTES + |m|) == Frame(m)
  {
    hide Window;
    var unread := Window(s.ring, s.tail, Unread(s));
    FramesPrefix(s.receivedMessages, unread, s.sentMessages);
    var ms := s.sentMessages[|s.receivedMessages|..];
    FirstFrame(ms);
    WindowSplit(s.ring, s.tail, LENGTH_BYTES + |ms[0]|, Unread(s));
    WindowSplit(s.ring, s.tail, LENGTH_BYTES, LENGTH_BYTES + |ms[0]|);
  }

  lemma TakenIsWindow(s: State, got: map<nat, Byte>, count: nat)
    requires InRange(s) && count < |s.ring| && Got(s, got, count) && AllDone(got.Keys, count)
    ensures Taken(got, 0, count) == Window(s.ring, s.tail, count)
  {
  }

  lemma DecodeKeeps(s: State)
    requires Inv(s) && Enabled(s, DecodeLength)
    ensures Inv(Next(s, DecodeLength))
  {
    hide Window, Frames, LengthOf, LengthBytes;
    TakenIsWindow(s, s.reader.got, LENGTH_BYTES);
    NextMessage(s, s.reader.bytes);
    LengthRoundTrip(|s.sentMessages[|s.receivedMessages|]|);
  }

  /** What the reader took, and what it leaves. */
  lemma TakenOut(s: State)
    requires InRange(s) && Conserved(s) && ReaderInv(s) && Enabled(s, PublishTail)
    ensures var n, k := |s.ring|, s.reader.skip + s.reader.count;
            var next := WrapIndex(s.tail + k, n);
            && next < n && Distance(next, s.head, n) == Unread(s) - k
            && Taken(s.reader.got, 0, k) == Window(s.ring, s.tail, k)
            && Window(s.ring, s.tail, Unread(s)) == Taken(s.reader.got, 0, k) + Window(s.ring, next, Unread(s) - k)
  {
    hide Window, Taken, Ahead;
    var n, k := |s.ring|, s.reader.skip + s.reader.count;
    IndexOfDistance(s.tail, s.head, n);
    DistanceAfter(s.tail, k, Unread(s), n);
    TakenIsWindow(s, s.reader.got, k);
    WindowSplit(s.ring, s.tail, k, Unread(s));
    var w := Window(s.ring, s.tail, Unread(s));
    assert w == w[..k] + w[k..];
  }

  /** In a message buffer the bytes taken are the next message, length and body. */
  lemma TakenMessage(s: State)
    requires InRange(s) && Conserved(s) && ReaderInv(s) && FramedInv(s) && Enabled(s, PublishTail) && s.framed
    ensures var m := s.sentMessages[|s.receivedMessages|];
            && IsMessage(m)
            && Taken(s.reader.got, 0, s.reader.skip + s.reader.count) == Frame(m)
            && Taken(s.reader.got, s.reader.skip, s.reader.count) == m
  {
    hide Window, Frames, LengthBytes;
    var k := s.reader.skip + s.reader.count;
    NextMessage(s, s.reader.bytes);
    TakenIsWindow(s, s.reader.got, k);
    assert Taken(s.reader.got, s.reader.skip, s.reader.count) == Taken(s.reader.got, 0, k)[LENGTH_BYTES..];
  }

  lemma PublishTailKeeps(s: State)
    requires Inv(s) && Enabled(s, PublishTail)
    ensures Inv(Next(s, PublishTail))
  {
    hide Window, Frames, WrapIndex, Ahead, Taken, Got, Conserved;
    TakenOut(s);
    PublishTailConserves(s);
    if s.framed {
      TakenMessage(s);
      FramesAppend(s.receivedMessages, s.sentMessages[|s.receivedMessages|]);
    }
  }

  lemma PublishTailConserves(s: State)
    requires Inv(s) && Enabled(s, PublishTail)
    ensures Conserved(Next(s, PublishTail))
  {
    hide Window, Frames, WrapIndex, Ahead, Taken, Got;
    TakenOut(s);
    if s.framed {
      TakenMessage(s);
      FramesAppend(s.receivedMessages, s.sentMessages[|s.receivedMessages|]);
    }
  }

  /** Steps that only read the indices. */
  lemma WriterAsksKeeps(s: State, step: Step)
    requires Inv(s) && Enabled(s, step)
    requires !step.CopyIn? && !step.PublishHead? && !step.StartReceive? && !step.PlanRead?
    requires !step.CopyOut? && !step.DecodeLength? && !step.PublishTail?
    ensures Inv(Next(s, step))
  {
    hide Window, Frames, LengthBytes;
  }

  lemma ReaderCopiesKeeps(s: State, i: nat)
    requires Inv(s) && Enabled(s, CopyOut(i))
    ensures Inv(Next(s, CopyOut(i)))
  {
    hide Window, Frames;
  }

  lemma InvStep(s: State, step: Step)
    requires Inv(s) && Enabled(s, step)
    ensures Inv(Next(s, step))
  {
    match step
    case CopyIn(i) => CopyInKeeps(s, i);
    case PublishHead => PublishHeadKeeps(s);
    case StartReceive(room) => StartReceiveKeeps(s, room);
    case PlanRead => PlanReadKeeps(s);
    case CopyOut(i) => ReaderCopiesKeeps(s, i);
    case DecodeLength => DecodeKeeps(s);
    case PublishTail => PublishTailKeeps(s);
    case _ => WriterAsksKeeps(s, step);
  }

  lemma StartReceiveKeeps(s: State, room: nat)
    requires Inv(s) && Enabled(s, StartReceive(room))
    ensures Inv(Next(s, StartReceive(room)))
  {
    hide Window, Frames, Distance;
    SeesWholeMessages(s);
  }

  lemma PlanReadKeeps(s: State)
    requires Inv(s) && Enabled(s, PlanRead)
    ensures Inv(Next(s, PlanRead))
  {
    hide Window, Frames, Distance;
    if s.framed && s.reader.bytes > 0 {
      NextMessage(s, s.reader.bytes);
    }
  }

  // ---------- what the two sides may rely on ----------

  /** Whatever the reader is doing, a byte that the writer stores is not unread. */
  lemma StoredByteIsFree(s: State, i: nat)
    requires Inv(s) && Enabled(s, CopyIn(i))
    ensures Distance(s.tail, Ahead(s.head, i, |s.ring|), |s.ring|) >= Unread(s)
  {
    hide Window, Frames, Conserved;
  }

  /** Whatever the writer is doing, a byte that the reader loads is unread. */
  lemma LoadedByteIsUnread(s: State, j: nat)
    requires Inv(s) && Enabled(s, CopyOut(j))
    ensures Distance(s.tail, Ahead(s.tail, j, |s.ring|), |s.ring|) < Unread(s)
  {
    hide Window, Frames, Conserved;
  }

  /** So the byte the writer stores and the byte the reader loads are never the same one. */
  lemma NoByteIsShared(s: State, i: nat, j: nat)
    requires Inv(s) && Enabled(s, CopyIn(i)) && Enabled(s, CopyOut(j))
    ensures Ahead(s.head, i, |s.ring|) != Ahead(s.tail, j, |s.ring|)
  {
    hide Window, Frames, Conserved, Distance, Ahead;
    StoredByteIsFree(s, i);
    LoadedByteIsUnread(s, j);
  }

  /** No step that a side takes is cut short: the subtractions do not go below zero, and every byte index is
      inside the storage. */
  lemma StepsAreDefined(s: State)
    requires Inv(s)
    ensures s.writer.ReadTailTwice? ==> Enabled(s, SubtractHead)
    ensures s.writer.TookHeadOff? ==> Enabled(s, CheckTail)
    ensures s.reader.ReadingLength? && AllDone(s.reader.got.Keys, LENGTH_BYTES) ==> Enabled(s, DecodeLength)
    ensures forall i :: Enabled(s, CopyIn(i)) ==> Ahead(s.head, i, |s.ring|) < |s.ring|
    ensures forall i :: Enabled(s, CopyOut(i)) ==> Ahead(s.tail, i, |s.ring|) < |s.ring|
  {
  }

  /** The space a writer goes by is the space there is at its last look at the tail: a tail that has moved and come back
      would have passed the head. Whatever the reader does later can only add to it. */
  lemma SpaceIsExact(s: State)
    requires Inv(s)
    ensures Enabled(s, CheckTail) ==>
              var r := Next(s, CheckTail);
              && (r.writer.HaveSpace? <==> s.writer.originalTail == s.tail)
              && (r.writer.HaveSpace? ==> r.writer.space == |s.ring| - 1 - Unread(s))
    ensures s.writer.HaveSpace? ==> s.writer.space <= |s.ring| - 1 - Unread(s)
  {
    hide Window, Frames, Conserved;
  }

  // ---------- whole runs ----------

  ghost predicate CanRun(s: State, steps: seq<Step>)
    requires Inv(s)
    decreases |steps|
  {
    steps == [] || (Enabled(s, steps[0]) && (InvStep(s, steps[0]); CanRun(Next(s, steps[0]), steps[1..])))
  }

  ghost function After(s: State, steps: seq<Step>): State
    requires Inv(s) && CanRun(s, steps)
    decreases |steps|
  {
    if steps == [] then s else (InvStep(s, steps[0]); After(Next(s, steps[0]), steps[1..]))
  }

  lemma InitInv(s: State)
    requires Init(s)
    ensures Inv(s)
  {
  }

  // ---------- what the callers gave and asked for ----------

  /** As much of the data as there is space for, from its start. */
  function FirstThatFit(data: seq<Byte>, space: nat): seq<Byte> {
    if |data| < space then data else data[..space]
  }

  /** The bytes that a run writes to a stream, told from its steps: of the data of each send, as many of the first as
      fit the space it went by. `given` is the data of the send in progress. */
  ghost function Written(s: State, steps: seq<Step>, given: seq<Byte>): seq<Byte>
    requires Inv(s) && CanRun(s, steps)
    decreases |steps|
  {
    if steps == [] then []
    else
      InvStep(s, steps[0]);
      var now := if steps[0].PlanWrite? then FirstThatFit(given, s.writer.space) else [];
      now + Written(Next(s, steps[0]), steps[1..], GivenAfter(steps[0], given))
  }

  /** The messages that a run writes to a message buffer: the data of each send that fitted with its length; an empty
      one leaves nothing. */
  ghost function WrittenMessages(s: State, steps: seq<Step>, given: seq<Byte>): seq<seq<Byte>>
    requires Inv(s) && CanRun(s, steps)
    decreases |steps|
  {
    if steps == [] then []
    else
      InvStep(s, steps[0]);
      var now := if steps[0].PlanWrite? && given != [] && |given| + LENGTH_BYTES <= s.writer.space then [given] else [];
      now + WrittenMessages(Next(s, steps[0]), steps[1..], GivenAfter(steps[0], given))
  }

  function GivenAfter(step: Step, given: seq<Byte>): seq<Byte> {
    if step.StartSend? then step.data else given
  }

  /** What a receive that starts now takes: of a stream as many bytes as there are and the caller has room for, of a
      message buffer the next message, if there is one and the caller has room for it. */
  ghost function Wanted(s: State, room: nat): nat
    requires Inv(s)
  {
    if s.framed then
      if Unread(s) > 0 && |s.receivedMessages| < |s.sentMessages|
          && |s.sentMessages[|s.receivedMessages|]| <= room then 1
      else 0
    else if room < Unread(s) then room
    else Unread(s)
  }

  /** How much the receives of a run take, in bytes of a stream or in messages. */
  ghost function Read(s: State, steps: seq<Step>): nat
    requires Inv(s) && CanRun(s, steps)
    decreases |steps|
  {
    if steps == [] then 0
    else
      InvStep(s, steps[0]);
      (if steps[0].StartReceive? then Wanted(s, steps[0].room) else 0) + Read(Next(s, steps[0]), steps[1..])
  }

  /** What the send in progress has still to publish. */
  ghost function ToPublish(s: State): seq<Byte> {
    if s.writer.CopyingIn? then s.writer.out else []
  }

  ghost function MessageToPublish(s: State): seq<seq<Byte>> {
    if s.writer.CopyingIn? && s.writer.publish then [s.writer.data] else []
  }

  /** What the receive in progress has still to take. */
  ghost function ToTake(s: State): nat {
    match s.reader
    case ReaderIdle => 0
    case SawBytes(room, bytes) =>
      if s.framed then
        if bytes > 0 && |s.receivedMessages| < |s.sentMessages| && |s.sentMessages[|s.receivedMessages|]| <= room then 1
        else 0
      else if room < bytes then room
      else bytes
    case ReadingLength(room, bytes, _) =>
      if |s.receivedMessages| < |s.sentMessages| && |s.sentMessages[|s.receivedMessages|]| <= room then 1 else 0
    case CopyingOut(_, count, _, _) => if s.framed then 1 else count
  }

  ghost predicate Sending(s: State, given: seq<Byte>) {
    !s.writer.WriterIdle? ==> s.writer.data == given
  }

  lemma WriteStep(s: State, step: Step, given: seq<Byte>)
    requires Inv(s) && Enabled(s, step) && Sending(s, given)
    ensures var r := Next(s, step);
            && r.framed == s.framed && Sending(r, GivenAfter(step, given))
            && (!s.framed ==>
                  r.sent + ToPublish(r)
                  == s.sent + ToPublish(s) + if step.PlanWrite? then FirstThatFit(given, s.writer.space) else [])
            && (s.framed ==>
                  r.sentMessages + MessageToPublish(r)
                  == s.sentMessages + MessageToPublish(s)
                     + if step.PlanWrite? && given != []
                         && |given| + LENGTH_BYTES <= s.writer.space then [given] else [])
  {
    hide Window, Frames, Conserved, FramedInv, ReaderInv, LengthBytes, Taken;
  }

  lemma ReadStep(s: State, step: Step)
    requires Inv(s) && Enabled(s, step)
    ensures var r := Next(s, step);
            var more := if step.StartReceive? then Wanted(s, step.room) else 0;
            && (!s.framed ==> |r.received| + ToTake(r) == |s.received| + ToTake(s) + more)
            && (s.framed ==> |r.receivedMessages| + ToTake(r) == |s.receivedMessages| + ToTake(s) + more)
  {
    hide Window, Frames, LengthOf, LengthBytes;
    if step.StartReceive? {
      SeesWholeMessages(s);
    } else if step.PlanRead? && s.framed && s.reader.bytes > 0 {
      NextMessage(s, s.reader.bytes);
    } else if step.DecodeLength? {
      TakenIsWindow(s, s.reader.got, LENGTH_BYTES);
      NextMessage(s, s.reader.bytes);
      LengthRoundTrip(|s.sentMessages[|s.receivedMessages|]|);
    }
  }

  lemma {:induction false} AllWritten(s: State, steps: seq<Step>, given: seq<Byte>)
    requires Inv(s) && CanRun(s, steps) && Sending(s, given)
    ensures var t := After(s, steps);
            && Inv(t) && t.framed == s.framed
            && (!s.framed ==> t.sent + ToPublish(t) == s.sent + ToPublish(s) + Written(s, steps, given))
            && (s.framed ==>
                  t.sentMessages + MessageToPublish(t)
                  == s.sentMessages + MessageToPublish(s) + WrittenMessages(s, steps, given))
    decreases |steps|
  {
    hide Conserved, ReaderInv, FramedInv, Next, Enabled, ToPublish, MessageToPublish, FirstThatFit;
    if steps != [] {
      InvStep(s, steps[0]);
      WriteStep(s, steps[0], given);
      AllWritten(Next(s, steps[0]), steps[1..], GivenAfter(steps[0], given));
    }
  }

  lemma {:induction false} AllRead(s: State, steps: seq<Step>)
    requires Inv(s) && CanRun(s, steps)
    ensures var t := After(s, steps);
            && Inv(t) && t.framed == s.framed
            && (!s.framed ==> |t.received| + ToTake(t) == |s.received| + ToTake(s) + Read(s, steps))
            && (s.framed ==> |t.receivedMessages| + ToTake(t) == |s.receivedMessages| + ToTake(s) + Read(s, steps))
    decreases |steps|
  {
    hide Conserved, ReaderInv, FramedInv, Next, Enabled, ToTake, Wanted;
    if steps != [] {
      InvStep(s, steps[0]);
      ReadStep(s, steps[0]);
      StaysFramed(s, steps[0]);
      AllRead(Next(s, steps[0]), steps[1..]);
    }
  }

  lemma StaysFramed(s: State, step: Step)
    requires Inv(s) && Enabled(s, step)
    ensures Next(s, step).framed == s.framed
  {
  }

  /** Under every interleaving, and told from the calls alone: the bytes received from a stream are the first of those
      that the sends wrote, and messages arrive whole and in order, each one that fitted. When both sides are done, as
      many have been received as the receives wanted, and what the sends wrote beyond them is in the buffer. */
  lemma ReceivedIsPrefixOfSent(s: State, steps: seq<Step>)
    requires Init(s)
    requires (InitInv(s); CanRun(s, steps))
    ensures (InitInv(s);
             var t, written := After(s, steps), Written(s, steps, []);
             && Inv(t)
             && (!s.framed ==> t.received <= t.sent <= written && |t.received| <= Read(s, steps))
             && (!s.framed && t.writer.WriterIdle? ==> t.received + Window(t.ring, t.tail, Unread(t)) == written)
             && (!s.framed && t.writer.WriterIdle? && t.reader.ReaderIdle? ==>
                   Read(s, steps) <= |written| && t.received == written[..Read(s, steps)]))
    ensures (InitInv(s);
             var t, written := After(s, steps), WrittenMessages(s, steps, []);
             && (s.framed ==> t.receivedMessages <= t.sentMessages <= written && |t.receivedMessages| <= Read(s, steps))
             && (s.framed && t.writer.WriterIdle? && t.head == t.tail ==> t.receivedMessages == written)
             && (s.framed && t.writer.WriterIdle? && t.reader.ReaderIdle? ==>
                   Read(s, steps) <= |written| && t.receivedMessages == written[..Read(s, steps)]))
  {
    hide Frames, CanRun, After, Written, WrittenMessages, Read;
    InitInv(s);
    AllWritten(s, steps, []);
    AllRead(s, steps);
    var t := After(s, steps);
    ArrivesInOrder(t);
    assert !s.framed ==> Written(s, steps, []) == t.sent + ToPublish(t);
    assert s.framed ==> WrittenMessages(s, steps, []) == t.sentMessages + MessageToPublish(t);
  }

  lemma ArrivesInOrder(t: State)
    requires Inv(t)
    ensures t.received <= t.sent
    ensures t.framed ==> t.receivedMessages <= t.sentMessages
    ensures t.framed && t.head == t.tail ==> t.receivedMessages == t.sentMessages
  {
    if t.framed {
      FramesPrefix(t.receivedMessages, Window(t.ring, t.tail, Unread(t)), t.sentMessages);
      NoFrames(t.sentMessages[|t.receivedMessages|..]);
      if t.head == t.tail {
        assert t.received == t.sent;
        FramesUnique(t.receivedMessages, t.sentMessages);
      }
    }
  }
}
