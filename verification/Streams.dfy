/**
 `stream::asyncWrite` and `stream::asyncRead`: frames over a byte stream.

 The stream hands over its bytes in chunks of any size. A `reliable` stream never fails before it ends; another one
 may fail, or be closed by the operation's timer, after any chunk. Reading past the end fails. What may go wrong with a
 write is an argument.
 */
module Streams {
  import opened Common
  import opened BigEndian
  import opened Frames
  import TO = TimedOperations

  function Min(a: nat, b: nat): nat {
    if a <= b then a else b
  }

  /** One direction of a connection: the bytes written and not read yet. */
  class Wire {
    var bytes: seq<Byte>

    constructor ()
      ensures bytes == []
    {
      bytes := [];
    }
  }

  /** `streambuf` with a maximum size. */
  class StreamBuffer {
    var data: seq<Byte>
    const maxSize: nat

    constructor (maxSize: nat)
      ensures this.maxSize == maxSize && data == []
    {
      data, this.maxSize := [], maxSize;
    }

    method Commit(bytes: seq<Byte>)
      requires |data| + |bytes| <= maxSize
      modifies this
      ensures data == old(data) + bytes
    {
      data := data + bytes;
    }

    method Consume(n: nat)
      modifies this
      ensures data == old(data)[Min(n, |old(data)|)..]
    {
      data := data[if n <= |data| then n else |data|..];
    }
  }

  /** A `ConstStreamBuffer` or `ConstVectorBuffer`; its constructor asserts the bound. */
  function Window(buffer: seq<Byte>, numBytes: nat, offset: nat): seq<Byte>
    requires offset + numBytes <= |buffer|
  {
    buffer[offset..offset + numBytes]
  }

  // ---------- Writing ----------

  /** What may go wrong with a write: how many bytes are transferred, an error, the stream closed by the timer. */
  datatype Fault = Fault(transferred: nat, failed: bool, closed: bool)

  function Transferred(fault: Option<Fault>, size: nat): nat {
    if fault.None? then size else Min(fault.value.transferred, size)
  }

  /**
   The error is `Aborted` only if the frame was transferred completely and the stream was closed afterwards; a timeout
   in the middle of a frame is reported as `FailedOperation`.
   */
  method AsyncWrite(wire: Wire, data: seq<Byte>, fault: Option<Fault>) returns (error: Error)
    modifies wire
    ensures wire.bytes == old(wire.bytes) + FrameOf(data)[..Transferred(fault, |FrameOf(data)|)]
    ensures error == Success || error == Aborted ==> wire.bytes == old(wire.bytes) + FrameOf(data)
    ensures var complete := fault.None? || |FrameOf(data)| <= fault.value.transferred;
      && (error == Success <==> complete && (fault.None? || !(fault.value.failed || fault.value.closed)))
      && (error == Aborted <==> complete && fault.Some? && fault.value.closed)
      && (error == FailedOperation <==> !complete || (fault.Some? && fault.value.failed && !fault.value.closed))
  {
    var frame := new Frame(data);
    var buffers := frame.GetBuffers();
    var size := frame.GetSize();
    var bytes := buffers[0] + buffers[1];
    var transferred := Transferred(fault, size);
    wire.bytes := wire.bytes + bytes[..transferred];
    error := TO.Classify(fault.None? || !fault.value.closed, fault.Some? && fault.value.failed);
    if transferred < size {
      error := FailedOperation;
    }
  }

  // ---------- Reading ----------

  /**
   `async_read` with `transfer_exactly(n)`: it stops early when the buffer is full, and then reports no error.
   */
  method ReadExactly(wire: Wire, buffer: StreamBuffer, n: nat, reliable: bool) returns (failed: bool, transferred: nat)
    requires |buffer.data| <= buffer.maxSize
    modifies wire, buffer
    ensures transferred <= Min(|old(wire.bytes)|, Min(n, buffer.maxSize - |old(buffer.data)|))
    ensures buffer.data == old(buffer.data) + old(wire.bytes)[..transferred]
    ensures wire.bytes == old(wire.bytes)[transferred..]
    ensures !failed ==> transferred == Min(n, buffer.maxSize - |old(buffer.data)|)
    ensures failed && reliable ==> transferred == |old(wire.bytes)| < Min(n, buffer.maxSize - |old(buffer.data)|)
  {
    ghost var was := wire.bytes;
    failed, transferred := false, 0;
    var limit := Min(n, buffer.maxSize - |buffer.data|);
    while transferred < limit && !failed
      invariant transferred <= limit && transferred <= |was|
      invariant buffer.data == old(buffer.data) + was[..transferred]
      invariant wire.bytes == was[transferred..]
      invariant failed && reliable ==> transferred == |was| < limit
      decreases limit - transferred, !failed
    {
      var fault := false;
      if !reliable {
        fault := *;
      }
      if fault || wire.bytes == [] {
        failed := true;
      } else {
        var chunk: nat :| 1 <= chunk <= limit - transferred && chunk <= |wire.bytes|;
        buffer.Commit(wire.bytes[..chunk]);
        wire.bytes := wire.bytes[chunk..];
        assert was[..transferred + chunk] == was[..transferred] + was[transferred..][..chunk];
        transferred := transferred + chunk;
      }
    }
  }

  /** `ReadExactly` raced by a timer, which may have closed the stream: the error that the handler sees. */
  method TimedRead(wire: Wire, buffer: StreamBuffer, n: nat, reliable: bool)
    returns (error: Error, transferred: nat, ghost failed: bool, ghost closed: bool)
    requires |buffer.data| <= buffer.maxSize
    modifies wire, buffer
    ensures transferred <= Min(|old(wire.bytes)|, Min(n, buffer.maxSize - |old(buffer.data)|))
    ensures buffer.data == old(buffer.data) + old(wire.bytes)[..transferred]
    ensures wire.bytes == old(wire.bytes)[transferred..]
    ensures !failed ==> transferred == Min(n, buffer.maxSize - |old(buffer.data)|)
    ensures error == TO.Classify(!closed, failed)
    ensures error != Success && reliable ==>
      error == FailedOperation && transferred == |old(wire.bytes)| < Min(n, buffer.maxSize - |old(buffer.data)|)
  {
    var fails;
    fails, transferred := ReadExactly(wire, buffer, n, reliable);
    var closes := false;
    if !reliable {
      closes := *;
    }
    failed, closed := fails, closes;
    error := TO.Classify(!closes, fails);
  }

  method NumDataBytesFromBuffer(buffer: StreamBuffer) returns (numDataBytes: nat)
    requires HEADER_SIZE <= |buffer.data|
    ensures numDataBytes == Length(buffer.data)
  {
    numDataBytes := FromBigEndian(buffer.data, HEADER_SIZE, 4);
  }

  /** What reading one frame from the front of `input` gives, and how many bytes it uses up. */
  datatype Reading = Reading(error: Error, data: seq<Byte>, consumed: nat)

  /**
   The reference decoder, on the whole input behind what the buffer already holds: the header is at the front of both
   together, and the read takes as many bytes from the input as a frame with that header has. A frame is delivered if
   the input has that many and the rest of the buffer takes them. Otherwise the input either ends before that or before
   the buffer is full, which fails, or the buffer cuts the frame off.
   */
  function DecodeBehind(held: seq<Byte>, input: seq<Byte>, limit: nat): Reading
    requires |held| <= limit
  {
    var space := limit - |held|;
    var needed := if |input| < HEADER_SIZE || space < HEADER_SIZE then HEADER_SIZE
                  else HEADER_SIZE + Length(held + input);
    if needed <= |input| && needed <= space then Reading(Success, (held + input)[HEADER_SIZE..needed], needed)
    else if |input| < Min(needed, space) then Reading(FailedOperation, [], |input|)
    else Reading(InvalidFrame, [], space)
  }

  /** The usual case: what was read before has been used up. */
  function DecodeFrame(input: seq<Byte>, limit: nat): Reading {
    DecodeBehind([], input, limit)
  }

  /** The second stage, after a header; `told` is the error with which its handler is called. */
  method ReadBody(wire: Wire, buffer: StreamBuffer, numDataBytes: nat, reliable: bool)
    returns (error: Error, data: seq<Byte>, ghost transferred: nat, ghost told: Error)
    requires HEADER_SIZE <= |buffer.data| <= buffer.maxSize
    modifies wire, buffer
    ensures transferred <= |old(wire.bytes)| && wire.bytes == old(wire.bytes)[transferred..]
    ensures buffer.data == (old(buffer.data) + old(wire.bytes)[..transferred])[HEADER_SIZE + transferred..]
    ensures error == Success ==>
      && transferred == numDataBytes <= buffer.maxSize - |old(buffer.data)|
      && data == Window(old(buffer.data) + old(wire.bytes)[..transferred], numDataBytes, HEADER_SIZE)
    ensures error != Success ==> data == []
    ensures told != Success ==> error == told && told in {FailedOperation, Aborted}
    ensures told == Success ==>
      var space := buffer.maxSize - |old(buffer.data)|;
      transferred == Min(numDataBytes, space) && error == if space < numDataBytes then InvalidFrame else Success
    ensures reliable ==>
      var space := buffer.maxSize - |old(buffer.data)|;
      && transferred == Min(|old(wire.bytes)|, Min(numDataBytes, space))
      && error == if |old(wire.bytes)| < Min(numDataBytes, space) then FailedOperation
                  else if space < numDataBytes then InvalidFrame else Success
  {
    var count;
    ghost var failed, closed;
    error, count, failed, closed := TimedRead(wire, buffer, numDataBytes, reliable);
    transferred, data, told := count, [], error;
    if error != Success {
      buffer.Consume(HEADER_SIZE + count);
      return;
    }
    if count != numDataBytes {
      error := InvalidFrame;
      buffer.Consume(HEADER_SIZE + count);
      return;
    }
    data := Window(buffer.data, numDataBytes, HEADER_SIZE);
    buffer.Consume(HEADER_SIZE + count);
  }

  /**
   Reads one frame. The handler sees `error` and `data`; afterwards as many bytes have left the front of the buffer as
   were read into it. The result does not depend on the chunks. With any faults, success means that the bytes held and
   read together start with the frame of `data`. `told` is the error with which the last handler inside was called: it
   is passed on, and without one the result is the reference decoder's.
   */
  method AsyncRead(wire: Wire, buffer: StreamBuffer, reliable: bool)
    returns (error: Error, data: seq<Byte>, ghost consumed: nat, ghost told: Error)
    requires |buffer.data| <= buffer.maxSize
    modifies wire, buffer
    ensures consumed <= |old(wire.bytes)| && wire.bytes == old(wire.bytes)[consumed..]
    ensures buffer.data == (old(buffer.data) + old(wire.bytes)[..consumed])[consumed..]
    ensures error != Success ==> data == []
    ensures error == Success ==>
      && StartsWithFrame(old(buffer.data) + old(wire.bytes), data)
      && consumed == HEADER_SIZE + |data| <= buffer.maxSize - |old(buffer.data)|
    ensures told != Success ==> error == told && told in {FailedOperation, Aborted}
    ensures reliable || told == Success ==>
      Reading(error, data, consumed) == DecodeBehind(old(buffer.data), old(wire.bytes), buffer.maxSize)
  {
    ghost var was, input := buffer.data, wire.bytes;
    var transferred;
    ghost var failed, closed;
    error, transferred, failed, closed := TimedRead(wire, buffer, HEADER_SIZE, reliable);
    data, consumed, told := [], transferred, error;
    if error != Success {
      buffer.Consume(transferred);
      return;
    }
    if transferred != HEADER_SIZE {
      error := InvalidFrame;
      buffer.Consume(transferred);
      return;
    }
    var numDataBytes := NumDataBytesFromBuffer(buffer);
    HeaderIsInFront(was, input, HEADER_SIZE);
    if numDataBytes == 0 {
      buffer.Consume(transferred);
      StartsWithFrameIff(was + input, []);
      return;
    }
    ghost var count;
    error, data, count, told := ReadBody(wire, buffer, numDataBytes, reliable);
    consumed := HEADER_SIZE + count;
    BodyFollowsHeader(was, input, count);
    HeaderIsInFront(was, input, consumed);
    BodyDecodes(was, input, buffer.maxSize, error, data, count, reliable || told == Success);
  }

  /** What is read later does not change the bytes in front. */
  lemma HeaderIsInFront(held: seq<Byte>, input: seq<Byte>, n: nat)
    requires HEADER_SIZE <= n <= |input|
    ensures Length(held + input[..n]) == Length(held + input)
    ensures (held + input[..n])[HEADER_SIZE..n] == (held + input)[HEADER_SIZE..n]
  {
    assert (held + input[..n])[..HEADER_SIZE] == (held + input)[..HEADER_SIZE];
  }

  lemma BodyDecodes(held: seq<Byte>, input: seq<Byte>, limit: nat, error: Error, data: seq<Byte>, count: nat,
                    exact: bool)
    requires |held| + HEADER_SIZE <= limit && HEADER_SIZE + count <= |input| && Length(held + input) > 0
    requires var space := limit - |held| - HEADER_SIZE;
      && (if error == Success then
            count == Length(held + input) <= space && data == (held + input)[HEADER_SIZE..HEADER_SIZE + count]
          else data == [])
      && (exact ==>
            && count == Min(|input| - HEADER_SIZE, Min(Length(held + input), space))
            && error == if |input| - HEADER_SIZE < Min(Length(held + input), space) then FailedOperation
                        else if space < Length(held + input) then InvalidFrame else Success)
    ensures error == Success ==> StartsWithFrame(held + input, data) && count == |data|
    ensures exact ==> Reading(error, data, HEADER_SIZE + count) == DecodeBehind(held, input, limit)
  {
    StartsWithFrameIff(held + input, data);
  }

  lemma BodyFollowsHeader(was: seq<Byte>, input: seq<Byte>, count: nat)
    requires HEADER_SIZE + count <= |input|
    ensures (was + input[..HEADER_SIZE]) + input[HEADER_SIZE..][..count] == was + input[..HEADER_SIZE + count]
    ensures input[HEADER_SIZE..][count..] == input[HEADER_SIZE + count..]
  {
  }

  // ---------- Main results ----------

  /**
   With an empty buffer and no fault, a read succeeds with payload `p` if and only if the stream starts with the frame
   of `p` and the frame fits the buffer. An oversize or incomplete frame never yields data.
   */
  lemma ReadSucceedsIff(input: seq<Byte>, limit: nat, p: seq<Byte>)
    ensures DecodeFrame(input, limit).error == Success && DecodeFrame(input, limit).data == p
      <==> StartsWithFrame(input, p) && HEADER_SIZE + |p| <= limit
    ensures DecodeFrame(input, limit).consumed <= Min(|input|, limit)
    ensures StartsWithFrame(input, p) && limit < HEADER_SIZE + |p| ==> DecodeFrame(input, limit).error == InvalidFrame
  {
    StartsWithFrameIff(input, p);
    assert [] + input == input;
  }

  /**
   A payload that is written as a frame is read back, and the read stops at the end of the frame, if and only if the
   payload is shorter than 2^32 bytes and its frame fits the buffer. A longer payload is cut off without an error if
   what is left of it fits.
   */
  lemma RoundTripIff(p: seq<Byte>, rest: seq<Byte>, limit: nat)
    ensures DecodeFrame(FrameOf(p) + rest, limit) == Reading(Success, p, |FrameOf(p)|)
      <==> |p| < LENGTH_LIMIT && HEADER_SIZE + |p| <= limit
    ensures HEADER_SIZE + |p| % LENGTH_LIMIT <= limit ==>
      DecodeFrame(FrameOf(p) + rest, limit) == Reading(Success, p[..|p| % LENGTH_LIMIT], |FrameOf(p)|)
    ensures limit < HEADER_SIZE + |p| % LENGTH_LIMIT ==>
      DecodeFrame(FrameOf(p) + rest, limit) == Reading(InvalidFrame, [], limit)
  {
    FrameParses(p, rest);
    var n := |p| % LENGTH_LIMIT;
    ReadSucceedsIff(FrameOf(p) + rest, limit, p);
    assert [] + (FrameOf(p) + rest) == FrameOf(p) + rest;
    if |p| < LENGTH_LIMIT {
      SmallMod(|p|, LENGTH_LIMIT);
      assert p[..n] == p;
      assert FrameOf(p) <= FrameOf(p) + rest;
    }
  }

  ghost predicate AllFit(payloads: seq<seq<Byte>>, limit: nat) {
    forall i :: 0 <= i < |payloads| ==> |payloads[i]| < LENGTH_LIMIT && HEADER_SIZE + |payloads[i]| <= limit
  }

  /**
   Whatever the chunks, as many reads on one buffer as there are frames on the wire deliver exactly their payloads, in
   order, and leave the buffer empty and the rest of the wire untouched.
   */
  method ReadAll(wire: Wire, buffer: StreamBuffer, ghost sent: seq<seq<Byte>>, ghost rest: seq<Byte>, count: nat)
    returns (payloads: seq<seq<Byte>>)
    requires wire.bytes == FramesOf(sent) + rest && count == |sent| && AllFit(sent, buffer.maxSize)
    requires buffer.data == []
    modifies wire, buffer
    ensures payloads == sent && wire.bytes == rest && buffer.data == []
  {
    payloads := [];
    var i := 0;
    while i < count
      invariant i <= count && payloads == sent[..i]
      invariant wire.bytes == FramesOf(sent[i..]) + rest
      invariant buffer.data == []
    {
      ghost var remaining := FramesOf(sent[i + 1..]) + rest;
      assert sent[i..][0] == sent[i] && sent[i..][1..] == sent[i + 1..];
      assert wire.bytes == FrameOf(sent[i]) + remaining;
      RoundTripIff(sent[i], remaining, buffer.maxSize);
      var error, data, consumed, told := AsyncRead(wire, buffer, true);
      payloads := payloads + [data];
      i := i + 1;
    }
    assert sent[count..] == [];
  }

  /** Writing frames back to back and reading them is the identity on payloads that fit. */
  method Exchange(payloads: seq<seq<Byte>>, maxMessageSize: nat) returns (received: seq<seq<Byte>>)
    requires forall i :: 0 <= i < |payloads| ==> |payloads[i]| < LENGTH_LIMIT && |payloads[i]| <= maxMessageSize
    ensures received == payloads
  {
    var wire := new Wire();
    var i := 0;
    while i < |payloads|
      invariant i <= |payloads| && wire.bytes == FramesOf(payloads[..i])
    {
      var error := AsyncWrite(wire, payloads[i], None);
      FramesSnoc(payloads[..i], payloads[i]);
      assert payloads[..i + 1] == payloads[..i] + [payloads[i]];
      i := i + 1;
    }
    assert payloads[..|payloads|] == payloads;
    assert FramesOf(payloads) + [] == FramesOf(payloads);
    var buffer := new StreamBuffer(maxMessageSize + HEADER_SIZE);
    received := ReadAll(wire, buffer, payloads, [], |payloads|);
  }

  lemma {:induction false} FramesSnoc(payloads: seq<seq<Byte>>, p: seq<Byte>)
    ensures FramesOf(payloads + [p]) == FramesOf(payloads) + FrameOf(p)
  {
    if payloads == [] {
      assert payloads + [p] == [p] && [p][1..] == [];
      assert FrameOf(p) + [] == [] + FrameOf(p);
    } else {
      var head, tail := FrameOf(payloads[0]), payloads[1..];
      FramesSnoc(tail, p);
      assert (payloads + [p])[1..] == tail + [p];
      assert head + (FramesOf(tail) + FrameOf(p)) == (head + FramesOf(tail)) + FrameOf(p);
    }
  }
}
