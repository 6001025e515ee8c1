/** Stream buffers and message buffers: the byte ring, and the length-prefixed messages in it. */
module StreamBuffers {

  import opened StreamRing

  class StreamBuffer {

    const buffer: array<Byte>
    const isMessageBuffer: bool
    const isBatchingBuffer: bool
    const triggerLevel: nat
    var head: nat
    var tail: nat

    /** The messages in a message buffer. */
    ghost var messages: seq<seq<Byte>>

    ghost predicate InRange()
      reads this
    {
      1 < buffer.Length && head < buffer.Length && tail < buffer.Length && 0 < triggerLevel
    }

    /** The bytes that are in the buffer, oldest first. */
    ghost function Contents(): (s: seq<Byte>)
      requires InRange()
      reads this, buffer
    {
      Window(buffer[..], tail, Distance(tail, head, buffer.Length))
    }

    ghost predicate Valid()
      reads this, buffer
    {
      && InRange()
      && (isMessageBuffer ==> AreMessages(messages) && Contents() == Frames(messages))
    }

    constructor (size: nat, trigger: nat, isMessageBuffer: bool, isBatchingBuffer: bool)
      requires size > 1
      ensures Valid() && fresh(buffer) && buffer.Length == size && Contents() == [] && messages == []
      ensures this.isMessageBuffer == isMessageBuffer && this.isBatchingBuffer == isBatchingBuffer
      ensures triggerLevel == if trigger == 0 then 1 else trigger
    {
      buffer := new Byte[size](_ => 0);
      this.isMessageBuffer := isMessageBuffer;
      this.isBatchingBuffer := isBatchingBuffer;
      triggerLevel := if trigger == 0 then 1 else trigger;
      head, tail := 0, 0;
      messages := [];
    }

    // ---------- how full it is ----------

    method BytesInBuffer() returns (count: nat)
      requires Valid()
      ensures count == |Contents()|
    {
      count := buffer.Length + head - tail;
      if count >= buffer.Length {
        count := count - buffer.Length;
      }
    }

    method SpacesAvailable() returns (space: nat)
      requires Valid()
      ensures space + |Contents()| == buffer.Length - 1
    {
      space := buffer.Length + tail - head - 1;
      if space >= buffer.Length {
        space := space - buffer.Length;
      }
    }

    // ---------- moving bytes ----------

    method WriteBytesToBuffer(data: seq<Byte>, from: nat) returns (next: nat)
      requires 0 < |data| < buffer.Length && from < buffer.Length
      modifies buffer
      ensures next == WrapIndex(from + |data|, buffer.Length)
      ensures Written(old(buffer[..]), buffer[..], from, data)
    {
      var firstLength := if buffer.Length - from < |data| then buffer.Length - from else |data|;
      forall i | 0 <= i < firstLength {
        buffer[from + i] := data[i];
      }
      if |data| > firstLength {
        forall i | 0 <= i < |data| - firstLength {
          buffer[i] := data[firstLength + i];
        }
      }
      next := from + |data|;
      if next >= buffer.Length {
        next := next - buffer.Length;
      }
    }

    method ReadBytesFromBuffer(count: nat, from: nat) returns (data: seq<Byte>, next: nat)
      requires 0 < count < buffer.Length && from < buffer.Length
      ensures next == WrapIndex(from + count, buffer.Length)
      ensures data == Window(buffer[..], from, count)
    {
      var firstLength := if buffer.Length - from < count then buffer.Length - from else count;
      data := buffer[from..from + firstLength];
      if count > firstLength {
        data := data + buffer[..count - firstLength];
      }
      WindowInTwoPieces(buffer[..], from, count);
      next := from + count;
      if next >= buffer.Length {
        next := next - buffer.Length;
      }
    }

    // ---------- sending ----------

    /** What a send leaves: a message is sent whole or not at all, a stream takes what fits. */
    twostate predicate Sent(data: seq<Byte>, space: nat, sent: nat)
      requires old(InRange()) && InRange()
      reads this, buffer
    {
      if isMessageBuffer then
        if space < |data| + LENGTH_BYTES || data == [] then
          sent == 0 && messages == old(messages) && Contents() == old(Contents())
        else
          sent == |data| && messages == old(messages) + [data]
      else
        && sent == (if |data| < space then |data| else space)
        && Contents() == old(Contents()) + data[..sent]
    }

    method WriteMessageToBuffer(data: seq<Byte>, space: nat, requiredSpace: nat) returns (sent: nat)
      requires Valid()
      requires space + |Contents()| <= buffer.Length - 1
      requires isMessageBuffer ==> |data| < LENGTH_LIMIT && requiredSpace == |data| + LENGTH_BYTES
      modifies this`head, this`messages, buffer
      ensures Valid() && Sent(data, space, sent)
    {
      hide Window, Frames, WrapIndex, Distance, Written;
      ghost var before := buffer[..];
      ghost var count := |Contents()|;
      DistanceOfWrap(tail, count, buffer.Length);
      IndexOfDistance(tail, head, buffer.Length);
      var nextHead := head;
      sent := |data|;
      if isMessageBuffer {
        if space >= requiredSpace {
          DistanceOfWrap(tail, count + LENGTH_BYTES, buffer.Length);
          nextHead := WriteBytesToBuffer(LengthBytes(|data|), nextHead);
          WrapTwice(tail, count, LENGTH_BYTES, buffer.Length);
          WrittenExtends(before, buffer[..], tail, count, LengthBytes(|data|));
        } else {
          sent := 0;
        }
      } else {
        sent := if |data| < space then |data| else space;
      }
      if sent != 0 {
        ghost var middle := buffer[..];
        ghost var held := if isMessageBuffer then count + LENGTH_BYTES else count;
        nextHead := WriteBytesToBuffer(data[..sent], nextHead);
        WrapTwice(tail, held, sent, buffer.Length);
        DistanceOfWrap(tail, held + sent, buffer.Length);
        head := nextHead;
        if isMessageBuffer {
          assert data[..sent] == data;
          MessageWritten(before, middle, buffer[..], tail, messages, data);
          messages := messages + [data];
        } else {
          WrittenExtends(before, buffer[..], tail, count, data[..sent]);
        }
      }
    }

    /** A send once it has stopped waiting. `waitedSpace` is the space it last saw while waiting, 0 when it did not
        wait; only the one writer adds bytes, so there is at least that much still. */
    method Send(data: seq<Byte>, waitedSpace: nat) returns (sent: nat, wakeReader: bool)
      requires Valid()
      requires waitedSpace + |Contents()| <= buffer.Length - 1
      requires isMessageBuffer ==> |data| + LENGTH_BYTES < LENGTH_LIMIT
      modifies this`head, this`messages, buffer
      ensures Valid()
      ensures waitedSpace != 0 ==> Sent(data, waitedSpace, sent)
      ensures waitedSpace == 0 ==> Sent(data, buffer.Length - 1 - |old(Contents())|, sent)
      ensures wakeReader <==> sent > 0 && |Contents()| >= triggerLevel
    {
      var space := waitedSpace;
      var requiredSpace := |data|;
      if isMessageBuffer {
        requiredSpace := requiredSpace + LENGTH_BYTES;
      } else if requiredSpace > buffer.Length - 1 {
        requiredSpace := buffer.Length - 1;
      }
      if space == 0 {
        space := SpacesAvailable();
      }
      sent := WriteMessageToBuffer(data, space, requiredSpace);
      wakeReader := false;
      if sent > 0 {
        var count := BytesInBuffer();
        wakeReader := count >= triggerLevel;
      }
    }

    // ---------- receiving ----------

    /** What a receive leaves: a message is taken whole or not at all, a stream gives what there is. */
    twostate predicate Received(room: nat, data: seq<Byte>)
      requires old(InRange()) && InRange()
      reads this, buffer
    {
      && buffer[..] == old(buffer[..]) && head == old(head)
      && if isMessageBuffer then
           if old(messages) == [] || |old(messages)[0]| > room then
             data == [] && messages == old(messages) && tail == old(tail)
           else
             data == old(messages)[0] && messages == old(messages)[1..]
         else
           && |data| == (if room < |old(Contents())| then room else |old(Contents())|)
           && data + Contents() == old(Contents())
    }

    method ReadMessageFromBuffer(room: nat, bytesAvailable: nat) returns (data: seq<Byte>)
      requires Valid()
      requires bytesAvailable == |Contents()|
      requires isMessageBuffer ==> bytesAvailable > LENGTH_BYTES
      modifies this`tail, this`messages
      ensures Valid() && Received(room, data)
    {
      hide Window, Frames, LengthOf, WrapIndex, Distance;
      var nextTail, available, wanted := tail, bytesAvailable, room;
      ghost var ring := buffer[..];
      IndexOfDistance(tail, head, buffer.Length);
      if isMessageBuffer {
        NoFrames(messages);
        MessageRead(ring, tail, messages);
        var lengthBytes;
        lengthBytes, nextTail := ReadBytesFromBuffer(LENGTH_BYTES, nextTail);
        DistanceOfWrap(tail, LENGTH_BYTES, buffer.Length);
        wanted := LengthOf(lengthBytes);
        available := available - LENGTH_BYTES;
        if wanted > room {
          wanted := 0;
        }
      }
      var count := if wanted < available then wanted else available;
      data := [];
      if count != 0 {
        data, nextTail := ReadBytesFromBuffer(count, nextTail);
        ghost var gone := bytesAvailable - available + count;
        WrapTwice(tail, gone - count, count, buffer.Length);
        DistanceAfter(tail, gone, bytesAvailable, buffer.Length);
        WindowSplit(ring, tail, gone, bytesAvailable);
        tail := nextTail;
        if isMessageBuffer {
          messages := messages[1..];
        }
      }
    }

    method NextMessageLengthBytes() returns (length: nat)
      requires Valid()
      ensures length == if isMessageBuffer && messages != [] then |messages[0]| else 0
    {
      length := 0;
      if isMessageBuffer {
        var available := BytesInBuffer();
        NoFrames(messages);
        if available > LENGTH_BYTES {
          FirstFrame(messages);
          WindowSplit(buffer[..], tail, LENGTH_BYTES, available);
          var lengthBytes, _ := ReadBytesFromBuffer(LENGTH_BYTES, tail);
          length := LengthOf(lengthBytes);
        } else {
          assert available == 0;
        }
      }
    }

    /** A receive once it has stopped waiting. */
    method Receive(room: nat) returns (data: seq<Byte>, wakeWriter: bool)
      requires Valid()
      modifies this`tail, this`messages
      ensures Valid()
      ensures if !isMessageBuffer && isBatchingBuffer && |old(Contents())| <= triggerLevel
              then data == [] && tail == old(tail) && messages == old(messages)
              else Received(room, data)
      ensures wakeWriter <==> data != []
    {
      var threshold := if isMessageBuffer then LENGTH_BYTES else if isBatchingBuffer then triggerLevel else 0;
      data, wakeWriter := ReceiveAbove(threshold, room);
    }

    method ReceiveFromISR(room: nat) returns (data: seq<Byte>, wakeWriter: bool)
      requires Valid()
      modifies this`tail, this`messages
      ensures Valid() && Received(room, data)
      ensures wakeWriter <==> data != []
    {
      var threshold := if isMessageBuffer then LENGTH_BYTES else 0;
      data, wakeWriter := ReceiveAbove(threshold, room);
    }

    method ReceiveAbove(threshold: nat, room: nat) returns (data: seq<Byte>, wakeWriter: bool)
      requires Valid()
      requires isMessageBuffer ==> threshold == LENGTH_BYTES
      modifies this`tail, this`messages
      ensures Valid()
      ensures if !isMessageBuffer && |old(Contents())| <= threshold && threshold > 0
              then data == [] && tail == old(tail) && messages == old(messages)
              else Received(room, data)
      ensures wakeWriter <==> data != []
    {
      var available := BytesInBuffer();
      data := [];
      if isMessageBuffer {
        NoFrames(messages);
      }
      if available > threshold {
        data := ReadMessageFromBuffer(room, available);
      }
      wakeWriter := data != [];
    }
  }
}
