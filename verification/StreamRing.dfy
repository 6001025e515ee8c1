/** The storage of a stream buffer: a ring of bytes with one slot always free, and the framing that a message
    buffer puts on top of it. */
module StreamRing {

  type Byte = b: nat | b < 256

  /** An index that has run past the end of the ring once. */
  function WrapIndex(k: nat, length: nat): nat {
    if k >= length then k - length else k
  }

  /** The bytes from `tail` on. */
  function Window(ring: seq<Byte>, tail: nat, count: nat): (r: seq<Byte>)
    requires tail < |ring| && count <= |ring|
    ensures |r| == count
  {
    seq(count, i requires 0 <= i < count => ring[WrapIndex(tail + i, |ring|)])
  }

  /** The distance from `tail` forward to `head`. */
  function Distance(tail: nat, head: nat, length: nat): nat
    requires tail < length && head < length
  {
    if head >= tail then head - tail else head + length - tail
  }

  /** The ring holds `data` from `head` on, and is otherwise as it was. */
  ghost predicate Written(before: seq<Byte>, after: seq<Byte>, head: nat, data: seq<Byte>) {
    && |before| == |after| && head < |after| && |data| <= |after|
    && (forall p :: 0 <= p < |after| ==>
                      after[p] == if Distance(head, p, |after|) < |data| then data[Distance(head, p, |after|)]
                          else before[p])
  }

  /** Bytes written behind the unread ones leave those alone and extend them. */
  lemma WrittenExtends(before: seq<Byte>, after: seq<Byte>, tail: nat, count: nat, data: seq<Byte>)
    requires tail < |before| && count + |data| <= |before|
    requires count < |before|
    requires Written(before, after, WrapIndex(tail + count, |before|), data)
    ensures Window(after, tail, count) == Window(before, tail, count)
    ensures Window(after, tail, count + |data|) == Window(before, tail, count) + data
  {
    var n, head := |before|, WrapIndex(tail + count, |before|);
    var whole := Window(after, tail, count + |data|);
    forall i | 0 <= i < count + |data|
      ensures whole[i] == (Window(before, tail, count) + data)[i]
    {
      var p := WrapIndex(tail + i, n);
      assert Distance(head, p, n) == if i < count then n - count + i else i - count;
    }
    assert Window(after, tail, count) == whole[..count];
  }

  /** A window is its first bytes followed by the window that starts after them. */
  lemma WindowSplit(ring: seq<Byte>, tail: nat, k: nat, count: nat)
    requires tail < |ring| && k <= count <= |ring| && k < |ring|
    ensures Window(ring, tail, count)[..k] == Window(ring, tail, k)
    ensures Window(ring, tail, count)[k..] == Window(ring, WrapIndex(tail + k, |ring|), count - k)
  {
    var next := Window(ring, WrapIndex(tail + k, |ring|), count - k);
    forall i | 0 <= i < count - k
      ensures Window(ring, tail, count)[k..][i] == next[i]
    {
      assert WrapIndex(WrapIndex(tail + k, |ring|) + i, |ring|) == WrapIndex(tail + (k + i), |ring|);
    }
  }

  /** A window lies in the storage as one piece, or as the end of the storage and its start. */
  lemma WindowInTwoPieces(ring: seq<Byte>, from: nat, count: nat)
    requires from < |ring| && count <= |ring|
    ensures Window(ring, from, count)
         == if count <= |ring| - from then ring[from..from + count] else ring[from..] + ring[..count - (|ring| - from)]
  {
    var first := |ring| - from;
    if count <= first {
      forall i | 0 <= i < count
        ensures ring[from..from + count][i] == Window(ring, from, count)[i]
      {
        assert WrapIndex(from + i, |ring|) == from + i || from + i == |ring|;
      }
    } else {
      var rest := ring[..count - first];
      forall i | 0 <= i < count
        ensures (ring[from..] + rest)[i] == Window(ring, from, count)[i]
      {
        if i >= first {
          assert (ring[from..] + rest)[i] == rest[i - first];
          assert WrapIndex(from + i, |ring|) == i - first;
        } else {
          assert WrapIndex(from + i, |ring|) == from + i;
        }
      }
    }
  }

  /** The index after the bytes of a window is at the window's distance. */
  lemma DistanceOfWrap(tail: nat, count: nat, length: nat)
    requires tail < length && count < length
    ensures WrapIndex(tail + count, length) < length
    ensures Distance(tail, WrapIndex(tail + count, length), length) == count
  {
  }

  lemma IndexOfDistance(tail: nat, head: nat, length: nat)
    requires tail < length && head < length
    ensures Distance(tail, head, length) < length
    ensures head == WrapIndex(tail + Distance(tail, head, length), length)
  {
  }

  lemma WrapTwice(tail: nat, a: nat, b: nat, length: nat)
    requires tail < length && a + b < length
    ensures WrapIndex(tail, length) == tail
    ensures WrapIndex(WrapIndex(tail + a, length) + b, length) == WrapIndex(tail + a + b, length)
  {
  }

  /** What is left of a window after its first bytes. */
  lemma DistanceAfter(tail: nat, gone: nat, count: nat, length: nat)
    requires tail < length && gone <= count < length
    ensures WrapIndex(tail + gone, length) < length && WrapIndex(tail + count, length) < length
    ensures Distance(WrapIndex(tail + gone, length), WrapIndex(tail + count, length), length) == count - gone
  {
  }

  // ---------- framing ----------

  /** `sbBYTES_TO_STORE_MESSAGE_LENGTH`: a message length is stored as a `size_t`. */
  const LENGTH_BYTES: nat := 4

  const LENGTH_LIMIT: nat := 0x1_0000_0000

  /** A length as it lies in memory, least significant byte first. */
  function LengthBytes(n: nat): (r: seq<Byte>)
    requires n < LENGTH_LIMIT
    ensures |r| == LENGTH_BYTES
  {
    [n % 0x100, n / 0x100 % 0x100, n / 0x1_0000 % 0x100, n / 0x100_0000]
  }

  function LengthOf(b: seq<Byte>): (n: nat)
    requires |b| == LENGTH_BYTES
    ensures n < LENGTH_LIMIT
  {
    var b0: nat, b1: nat, b2: nat, b3: nat := b[0], b[1], b[2], b[3];
    b0 + 0x100 * b1 + 0x1_0000 * b2 + 0x100_0000 * b3
  }

  lemma LengthRoundTrip(n: nat)
    requires n < LENGTH_LIMIT
    ensures LengthOf(LengthBytes(n)) == n
  {
    assert n / 0x1_0000 == n / 0x100 / 0x100;
    assert n / 0x100_0000 == n / 0x1_0000 / 0x100;
  }

  /** A message that can be in a buffer: not empty, and of a length that can be stored. */
  predicate IsMessage(m: seq<Byte>) {
    0 < |m| < LENGTH_LIMIT
  }

  ghost predicate AreMessages(ms: seq<seq<Byte>>) {
    forall i :: 0 <= i < |ms| ==> IsMessage(ms[i])
  }

  function Frame(m: seq<Byte>): seq<Byte>
    requires IsMessage(m)
  {
    LengthBytes(|m|) + m
  }

  ghost function Frames(ms: seq<seq<Byte>>): seq<Byte>
    requires AreMessages(ms)
  {
    if ms == [] then [] else Frame(ms[0]) + Frames(ms[1..])
  }

  lemma {:induction false} FramesAppend(ms: seq<seq<Byte>>, m: seq<Byte>)
    requires AreMessages(ms) && IsMessage(m)
    ensures AreMessages(ms + [m]) && Frames(ms + [m]) == Frames(ms) + Frame(m)
  {
    if ms == [] {
      assert (ms + [m])[1..] == [];
    } else {
      FramesAppend(ms[1..], m);
      assert (ms + [m])[1..] == ms[1..] + [m];
    }
  }

  /** The first message of a framed stream is read back whole: its length from the first bytes, its body
      from those that follow, and what remains are the frames of the other messages. */
  lemma FirstFrame(ms: seq<seq<Byte>>)
    requires AreMessages(ms) && ms != []
    ensures var s := Frames(ms);
            && |s| >= LENGTH_BYTES + |ms[0]| > LENGTH_BYTES
            && LengthOf(s[..LENGTH_BYTES]) == |ms[0]|
            && s[LENGTH_BYTES..LENGTH_BYTES + |ms[0]|] == ms[0]
            && s[..LENGTH_BYTES + |ms[0]|] == Frame(ms[0])
            && s[LENGTH_BYTES + |ms[0]|..] == Frames(ms[1..])
  {
    var s := Frames(ms);
    LengthRoundTrip(|ms[0]|);
    assert s == LengthBytes(|ms[0]|) + ms[0] + Frames(ms[1..]);
    assert s[..LENGTH_BYTES] == LengthBytes(|ms[0]|);
  }

  lemma NoFrames(ms: seq<seq<Byte>>)
    requires AreMessages(ms)
    ensures |Frames(ms)| > LENGTH_BYTES <==> ms != []
    ensures ms == [] ==> Frames(ms) == []
  {
    if ms != [] {
      FirstFrame(ms);
    }
  }

  /** A framed stream parses in one way only. */
  lemma {:induction false} FramesUnique(a: seq<seq<Byte>>, b: seq<seq<Byte>>)
    requires AreMessages(a) && AreMessages(b) && Frames(a) == Frames(b)
    ensures a == b
  {
    NoFrames(a);
    NoFrames(b);
    if a != [] {
      FirstFrame(a);
      FirstFrame(b);
      FramesUnique(a[1..], b[1..]);
    }
  }

  /** Framed bytes that begin a framed stream are its first messages, and the rest are its other messages. */
  lemma {:induction false} FramesPrefix(a: seq<seq<Byte>>, rest: seq<Byte>, b: seq<seq<Byte>>)
    requires AreMessages(a) && AreMessages(b) && Frames(a) + rest == Frames(b)
    ensures a <= b && AreMessages(b[|a|..]) && rest == Frames(b[|a|..])
  {
    if a == [] {
      assert Frames(a) + rest == rest;
    } else {
      NoFrames(a);
      NoFrames(b);
      FirstFrame(a);
      var sa, sb := Frames(a), Frames(b);
      assert sb[..LENGTH_BYTES] == sa[..LENGTH_BYTES];
      FirstFrame(b);
      var k := LENGTH_BYTES + |a[0]|;
      assert sb[LENGTH_BYTES..k] == sa[LENGTH_BYTES..k];
      assert sb[k..] == sa[k..] + rest;
      FramesPrefix(a[1..], rest, b[1..]);
    }
  }

  /** A length and a body written behind framed messages make one more framed message. */
  lemma MessageWritten(before: seq<Byte>, middle: seq<Byte>, after: seq<Byte>, tail: nat, ms: seq<seq<Byte>>,
                       m: seq<Byte>)
    requires AreMessages(ms) && IsMessage(m)
    requires tail < |before| && |Frames(ms)| + LENGTH_BYTES + |m| < |before|
    requires Window(before, tail, |Frames(ms)|) == Frames(ms)
    requires Written(before, middle, WrapIndex(tail + |Frames(ms)|, |before|), LengthBytes(|m|))
    requires Written(middle, after, WrapIndex(tail + |Frames(ms)| + LENGTH_BYTES, |before|), m)
    ensures AreMessages(ms + [m])
    ensures |Frames(ms + [m])| == |Frames(ms)| + LENGTH_BYTES + |m|
    ensures Window(after, tail, |Frames(ms + [m])|) == Frames(ms + [m])
  {
    var count := |Frames(ms)|;
    WrittenExtends(before, middle, tail, count, LengthBytes(|m|));
    WrittenExtends(middle, after, tail, count + LENGTH_BYTES, m);
    FramesAppend(ms, m);
    assert Frames(ms) + LengthBytes(|m|) + m == Frames(ms) + Frame(m);
  }

  /** The first framed message of a window: where its length and body lie, and what remains without it. */
  lemma MessageRead(ring: seq<Byte>, tail: nat, ms: seq<seq<Byte>>)
    requires tail < |ring| && AreMessages(ms) && ms != [] && |Frames(ms)| < |ring|
    requires Window(ring, tail, |Frames(ms)|) == Frames(ms)
    ensures |Frames(ms)| == LENGTH_BYTES + |ms[0]| + |Frames(ms[1..])|
    ensures LengthOf(Window(ring, tail, LENGTH_BYTES)) == |ms[0]|
    ensures Window(ring, WrapIndex(tail + LENGTH_BYTES, |ring|), |ms[0]|) == ms[0]
    ensures Window(ring, WrapIndex(tail + LENGTH_BYTES + |ms[0]|, |ring|), |Frames(ms[1..])|) == Frames(ms[1..])
  {
    hide Window, Frames, LengthOf, WrapIndex, LengthBytes;
    var s, k := Frames(ms), LENGTH_BYTES + |ms[0]|;
    FirstFrame(ms);
    WindowSplit(ring, tail, LENGTH_BYTES, |s|);
    WindowSplit(ring, tail, k, |s|);
    WindowSplit(ring, tail, LENGTH_BYTES, k);
  }
}
