/** The frame of a datagram: `socket::numDataBytesFromBuffer` and the completion handlers around it. */
module Datagrams {
  import opened Common
  import opened BigEndian
  import opened Frames
  import opened Streams
  import TO = TimedOperations

  /** Finds the payload's length in the first `transferred` bytes; false if they do not hold a whole frame. */
  method NumDataBytesFromBuffer(buffer: seq<Byte>, transferred: nat) returns (ok: bool, numDataBytes: nat)
    requires transferred <= |buffer|
    ensures ok <==> HoldsFrame(buffer[..transferred])
    ensures ok ==>
      && HEADER_SIZE + numDataBytes <= transferred
      && StartsWithFrame(buffer[..transferred], Window(buffer, numDataBytes, HEADER_SIZE))
  {
    ghost var received := buffer[..transferred];
    HoldsFrameIff(received);
    numDataBytes := 0;
    if transferred < 4 {
      return false, 0;
    }
    numDataBytes := FromBigEndian(buffer, 4, 4);
    assert buffer[..4] == received[..4];
    if transferred < 4 + numDataBytes {
      return false, numDataBytes;
    }
    ok := true;
    StartsWithFrameIff(received, Window(buffer, numDataBytes, HEADER_SIZE));
  }

  /** The bytes are the frame of some payload, with any bytes behind it. */
  ghost predicate HoldsFrame(bytes: seq<Byte>) {
    exists p :: StartsWithFrame(bytes, p)
  }

  lemma HoldsFrameIff(bytes: seq<Byte>)
    ensures HoldsFrame(bytes) <==> HEADER_SIZE <= |bytes| && HEADER_SIZE + Length(bytes) <= |bytes|
  {
    if HEADER_SIZE <= |bytes| && HEADER_SIZE + Length(bytes) <= |bytes| {
      ParsedIsFrame(bytes);
      assert StartsWithFrame(bytes, bytes[HEADER_SIZE..HEADER_SIZE + Length(bytes)]);
    } else if p :| StartsWithFrame(bytes, p) {
      StartsWithFrameIff(bytes, p);
    }
  }

  /** The payload is unique. */
  lemma PayloadIsUnique(bytes: seq<Byte>, p: seq<Byte>, q: seq<Byte>)
    requires StartsWithFrame(bytes, p) && StartsWithFrame(bytes, q)
    ensures p == q
  {
    StartsWithFrameIff(bytes, p);
    StartsWithFrameIff(bytes, q);
  }

  /** The receive buffer keeps its size; a datagram overwrites its front, and what does not fit is lost. */
  function Received(buffer: seq<Byte>, datagram: seq<Byte>): (r: seq<Byte>)
    ensures |r| == |buffer|
  {
    var n := Min(|datagram|, |buffer|);
    datagram[..n] + buffer[n..]
  }

  /** The completion handler of `asyncReceiveFrom`. */
  method ReceiveHandler(buffer: seq<Byte>, transferred: nat, isOpen: bool, failed: bool)
    returns (error: Error, data: seq<Byte>)
    requires transferred <= |buffer|
    ensures error == Success <==> isOpen && !failed && HoldsFrame(buffer[..transferred])
    ensures error == Success ==> StartsWithFrame(buffer[..transferred], data)
    ensures error != Success ==> data == []
    ensures error == InvalidFrame <==> isOpen && !failed && !HoldsFrame(buffer[..transferred])
    ensures error == Aborted <==> !isOpen
    ensures error == FailedOperation <==> isOpen && failed
  {
    error, data := TO.Classify(isOpen, failed), [];
    if error != Success {
      return;
    }
    var ok, numDataBytes := NumDataBytesFromBuffer(buffer, transferred);
    if !ok {
      return InvalidFrame, [];
    }
    data := Window(buffer, numDataBytes, HEADER_SIZE);
  }

  /**
   A payload that is sent as one datagram is received if and only if its frame fits the receive buffer; a datagram that
   the buffer cuts off is always rejected, whatever the buffer held before.
   */
  lemma DatagramArrivesIff(p: seq<Byte>, buffer: seq<Byte>)
    requires |p| < LENGTH_LIMIT
    ensures var bytes := Received(buffer, FrameOf(p))[..Min(|FrameOf(p)|, |buffer|)];
      && (HoldsFrame(bytes) <==> HEADER_SIZE + |p| <= |buffer|)
      && (HoldsFrame(bytes) ==> StartsWithFrame(bytes, p))
  {
    var frame := FrameOf(p);
    var n := Min(|frame|, |buffer|);
    var bytes := Received(buffer, frame)[..n];
    assert bytes == frame[..n];
    SmallMod(|p|, LENGTH_LIMIT);
    FrameParses(p, []);
    assert frame + [] == frame;
    HoldsFrameIff(bytes);
    if HEADER_SIZE <= n {
      assert bytes[..HEADER_SIZE] == frame[..HEADER_SIZE];
    }
    if HEADER_SIZE + |p| <= |buffer| {
      assert bytes == frame;
    }
  }

  /** The completion handler of `asyncSendTo`: no error hides an incomplete transfer, but that hides an abort. */
  method SendHandler(frame: Frame, transferred: nat, isOpen: bool, failed: bool) returns (error: Error)
    requires frame.Valid()
    ensures transferred < |FrameOf(frame.data)| ==> error == FailedOperation
    ensures error == Success <==> isOpen && !failed && |FrameOf(frame.data)| <= transferred
    ensures error == Aborted <==> !isOpen && |FrameOf(frame.data)| <= transferred
    ensures error == FailedOperation <==> transferred < |FrameOf(frame.data)| || (isOpen && failed)
  {
    var size := frame.GetSize();
    if transferred < size {
      return FailedOperation;
    }
    error := TO.Classify(isOpen, failed);
  }
}
