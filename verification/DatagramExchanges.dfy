/**
 Datagram operations on the bytes that are transferred: the completions of `DatagramClients`, whose reports come from
 the handlers of `Datagrams` and the decoder of `Messages`.
 */
module DatagramExchanges {
  import opened Common
  import opened BigEndian
  import opened Frames
  import opened Streams
  import opened Datagrams
  import opened Messages
  import D = DatagramClients
  import TO = TimedOperations
  import Ops = OperationManager

  /** The decoder is given the payload of the received frame, or nothing. */
  ghost predicate ReceiveFits<M>(o: D.Outcome, isOpen: bool, received: seq<Byte>, codec: Codec<M>) {
    && (isOpen && !o.failed ==> (o.full <==> HoldsFrame(received)))
    && (o.decodes <==> codec.decode(if isOpen && !o.failed then Payload(received) else []).Some?)
  }

  predicate SendFits(o: D.Outcome, data: seq<Byte>, transferred: nat) {
    o.full <==> |FrameOf(data)| <= transferred
  }

  lemma PayloadOfFrame(bytes: seq<Byte>, p: seq<Byte>)
    ensures StartsWithFrame(bytes, p) ==> Payload(bytes) == p
    ensures HoldsFrame(bytes) ==> StartsWithFrame(bytes, Payload(bytes))
    ensures !HoldsFrame(bytes) ==> Payload(bytes) == []
  {
    StartsWithFrameIff(bytes, p);
    StartsWithFrameIff(bytes, Payload(bytes));
    HoldsFrameIff(bytes);
  }

  /** The handler of a received datagram reports what fits, and tells the error that the receiver passes on. */
  method ReportReceive<M>(buffer: seq<Byte>, transferred: nat, isOpen: bool, failed: bool, codec: Codec<M>)
    returns (o: D.Outcome, error: Error)
    requires transferred <= |buffer|
    ensures o.failed == failed && ReceiveFits(o, isOpen, buffer[..transferred], codec)
    ensures error == D.ReceiveError(TO.Classify(isOpen, failed), o)
  {
    var data;
    error, data := ReceiveHandler(buffer, transferred, isOpen, failed);
    PayloadOfFrame(buffer[..transferred], data);
    o := D.Outcome(failed, error == Success, codec.decode(data).Some?);
    if !o.decodes {
      error := Decoding;
    }
  }

  method ReportSend(frame: Frame, transferred: nat, isOpen: bool, failed: bool) returns (o: D.Outcome, error: Error)
    requires frame.Valid()
    ensures o.failed == failed && SendFits(o, frame.data, transferred)
    ensures error == D.SendError(TO.Classify(isOpen, failed), o)
  {
    error := SendHandler(frame, transferred, isOpen, failed);
    var size := frame.GetSize();
    o := D.Outcome(failed, size <= transferred, true);
  }

  /** Some payload that decodes is at the front of the received bytes. */
  ghost predicate Decodable<M>(received: seq<Byte>, codec: Codec<M>) {
    exists p :: StartsWithFrame(received, p) && codec.decode(p).Some?
  }

  // ---------- Main results ----------

  /**
   At every completion of every run of a receiver, the handler is told of success if and only if the flag is clear, the
   socket open, asio content, and a frame that decodes at the front of the bytes; of an invalid frame if and only if
   there is no frame, and the decoder accepts the empty data that come instead.
   */
  lemma ReceiveMatchesDatagram<M>(before: seq<D.Event>, s: D.State, o: D.Outcome, now: int, after: seq<D.Event>,
                                  t: D.State, received: seq<Byte>, codec: Codec<M>)
    requires D.Runs(D.Init(Ops.Replacer(None)), before, s) && D.Completable(s)
    requires D.Runs(D.CompleteStep(s, o, now), after, t)
    requires ReceiveFits(o, D.SOCKET in s.timed.open, received, codec)
    ensures |s.log| < |t.log|
    ensures var called := t.log[|s.log|].called;
      var heard := !s.mgr.canceled && D.SOCKET in s.timed.open && !o.failed;
      && (called == Some(Success) <==> heard && Decodable(received, codec))
      && (called == Some(InvalidFrame) <==> heard && !HoldsFrame(received) && codec.decode([]).Some?)
      && (heard && called == Some(Decoding) ==> !Decodable(received, codec))
  {
    D.ReceivesAreReported(before, s, o, now, after, t);
    PayloadOfFrame(received, []);
    forall p | StartsWithFrame(received, p) ensures p == Payload(received) {
      PayloadOfFrame(received, p);
    }
  }

  /**
   From end to end: when the datagram that a sender has sent for a payload comes in, the receiver's handler is told of
   success if and only if the operation is not canceled or closed, the frame fits the buffer, and the payload decodes.
   */
  lemma DatagramDelivers<M>(before: seq<D.Event>, s: D.State, o: D.Outcome, now: int, after: seq<D.Event>, t: D.State,
                            p: seq<Byte>, buffer: seq<Byte>, codec: Codec<M>)
    requires D.Runs(D.Init(Ops.Replacer(None)), before, s) && D.Completable(s)
    requires D.Runs(D.CompleteStep(s, o, now), after, t) && |p| < LENGTH_LIMIT
    requires var bytes := Received(buffer, FrameOf(p))[..Min(|FrameOf(p)|, |buffer|)];
      ReceiveFits(o, D.SOCKET in s.timed.open, bytes, codec)
    ensures |s.log| < |t.log|
    ensures t.log[|s.log|].called == Some(Success)
      <==> && !s.mgr.canceled && D.SOCKET in s.timed.open && !o.failed
           && HEADER_SIZE + |p| <= |buffer| && codec.decode(p).Some?
  {
    var bytes := Received(buffer, FrameOf(p))[..Min(|FrameOf(p)|, |buffer|)];
    ReceiveMatchesDatagram(before, s, o, now, after, t, bytes, codec);
    DatagramArrivesIff(p, buffer);
    forall q | StartsWithFrame(bytes, q) ensures q == p {
      PayloadIsUnique(bytes, p, q);
    }
  }
}
