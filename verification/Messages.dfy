/** The message layer over a stream: encoding before a write, decoding after a read. */
module Messages {
  import opened Common
  import opened BigEndian
  import opened Frames
  import opened Streams

  /** A user's `Encoder` and `Decoder`; an exception is `None`. */
  datatype Codec<!M> = Codec(encode: M -> Option<seq<Byte>>, decode: seq<Byte> -> Option<M>)

  /** Nothing is sent if the encoder throws; otherwise the handler is told what the write reports. */
  method AsyncSend<M>(codec: Codec<M>, wire: Wire, message: M, fault: Option<Fault>) returns (error: Error)
    modifies wire
    ensures error == Encoding <==> codec.encode(message) == None
    ensures error == Encoding ==> wire.bytes == old(wire.bytes)
    ensures error == Success ==> wire.bytes == old(wire.bytes) + FrameOf(codec.encode(message).value)
    ensures codec.encode(message).Some? ==>
      var frame := FrameOf(codec.encode(message).value);
      var complete := fault.None? || |frame| <= fault.value.transferred;
      && wire.bytes == old(wire.bytes) + frame[..Transferred(fault, |frame|)]
      && (error == Success <==> complete && (fault.None? || !(fault.value.failed || fault.value.closed)))
      && (error == Aborted <==> complete && fault.Some? && fault.value.closed)
  {
    var data := codec.encode(message);
    if data.None? {
      return Encoding;
    }
    error := AsyncWrite(wire, data.value, fault);
  }

  /** What the user handler gets when the read delivers `error` and `data`. */
  function Deliver<M>(codec: Codec<M>, error: Error, data: seq<Byte>): (Error, Option<M>) {
    var message := codec.decode(data);
    if message.None? then (Decoding, None) else (error, message)
  }

  /** The wire started with the frame of an encoding of the message, and what follows is left. */
  ghost predicate Delivered<M>(codec: Codec<M>, input: seq<Byte>, message: Option<M>, rest: seq<Byte>) {
    exists p :: StartsWithFrame(input, p) && codec.decode(p) == message && input == FrameOf(p) + rest
  }

  /**
   The decoder sees what the read delivers. `consumed` bytes leave the buffer and the wire behind it; on success they
   are the frame of an encoding of the message. `told` is the error, if any, that the stream layer is told of.
   */
  method AsyncReceive<M>(codec: Codec<M>, wire: Wire, buffer: StreamBuffer, reliable: bool)
    returns (error: Error, message: Option<M>, ghost consumed: nat, ghost told: Error)
    requires |buffer.data| <= buffer.maxSize
    modifies wire, buffer
    ensures consumed <= |old(wire.bytes)| && wire.bytes == old(wire.bytes)[consumed..]
    ensures buffer.data == (old(buffer.data) + old(wire.bytes)[..consumed])[consumed..]
    ensures error == Success ==>
      message.Some? && Delivered(codec, old(buffer.data) + old(wire.bytes), message, buffer.data + wire.bytes)
    ensures told != Success ==> told in {FailedOperation, Aborted} && (error, message) == Deliver(codec, told, [])
    ensures reliable || told == Success ==>
      var r := DecodeBehind(old(buffer.data), old(wire.bytes), buffer.maxSize);
      (error, message) == Deliver(codec, r.error, r.data) && consumed == r.consumed
  {
    var data;
    error, data, consumed, told := AsyncRead(wire, buffer, reliable);
    message := codec.decode(data);
    if message.None? {
      error := Decoding;
    }
    if error == Success {
      FrameLeaves(old(buffer.data), old(wire.bytes), data);
      assert StartsWithFrame(old(buffer.data) + old(wire.bytes), data);
    }
  }

  /** A frame at the front of what is held and read together leaves exactly the rest behind. */
  lemma FrameLeaves(held: seq<Byte>, input: seq<Byte>, data: seq<Byte>)
    requires StartsWithFrame(held + input, data) && HEADER_SIZE + |data| <= |input|
    ensures var n := HEADER_SIZE + |data|;
      held + input == FrameOf(data) + ((held + input[..n])[n..] + input[n..])
  {
    StartsWithFrameIff(held + input, data);
    SmallMod(|data|, LENGTH_LIMIT);
    var n := HEADER_SIZE + |data|;
    assert |FrameOf(data)| == n;
    assert held + input == (held + input)[..n] + (held + input)[n..];
    assert (held + input)[n..] == (held + input[..n])[n..] + input[n..];
  }

  /**
   On a stream without faults, a message is received if and only if the stream starts with a frame that fits the buffer
   and decodes to it. Decoding takes precedence: a transport error reaches the user handler if and only if the decoder
   accepts the empty buffer that comes with every transport error.
   */
  lemma ReceiveSucceedsIff<M>(codec: Codec<M>, input: seq<Byte>, limit: nat, message: M)
    ensures var r := DecodeFrame(input, limit);
      && (Deliver(codec, r.error, r.data) == (Success, Some(message)) <==> Carries(codec, input, limit, message))
      && (Deliver(codec, r.error, r.data).0 == Decoding <==> codec.decode(r.data).None?)
      && (r.error != Success ==> (Deliver(codec, r.error, r.data).0 == r.error <==> codec.decode([]).Some?))
  {
    var r := DecodeFrame(input, limit);
    ReadSucceedsIff(input, limit, r.data);
    if Carries(codec, input, limit, message) {
      var p :| StartsWithFrame(input, p) && HEADER_SIZE + |p| <= limit && codec.decode(p) == Some(message);
      ReadSucceedsIff(input, limit, p);
    }
  }

  /** The input starts with a frame that fits the limit and decodes to the message. */
  ghost predicate Carries<M>(codec: Codec<M>, input: seq<Byte>, limit: nat, message: M) {
    exists p :: StartsWithFrame(input, p) && HEADER_SIZE + |p| <= limit && codec.decode(p) == Some(message)
  }

  /**
   What is sent for a message arrives as that message if and only if what is left of its encoding after the truncation
   to less than 2^32 bytes fits the receiver's buffer and decodes to it. So a shorter encoding arrives if and only if it
   fits; a longer one is delivered as whatever its first bytes decode to.
   */
  lemma MessageArrives<M>(codec: Codec<M>, message: M, data: seq<Byte>, rest: seq<Byte>, limit: nat)
    requires codec.encode(message) == Some(data)
    ensures var r, sent := DecodeFrame(FrameOf(data) + rest, limit), data[..|data| % LENGTH_LIMIT];
      && (Deliver(codec, r.error, r.data) == (Success, Some(message))
          <==> HEADER_SIZE + |sent| <= limit && codec.decode(sent) == Some(message))
      && (Deliver(codec, r.error, r.data).0 == Success <==> HEADER_SIZE + |sent| <= limit && codec.decode(sent).Some?)
    ensures |data| < LENGTH_LIMIT ==> data[..|data| % LENGTH_LIMIT] == data
  {
    RoundTripIff(data, rest, limit);
    if |data| < LENGTH_LIMIT {
      SmallMod(|data|, LENGTH_LIMIT);
    }
  }
}
