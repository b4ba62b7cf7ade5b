/**
 Service calls on the bytes that their connections deliver: the phases of `ServiceClients`, whose reports come from the
 reads of `Streams` and the decoder of `Messages`.

 Each call reads with a buffer of its own, which is empty at first. What the buffer then holds is what has been taken
 from the front of the connection's input.
 */
module ServiceExchanges {
  import opened Common
  import opened BigEndian
  import opened Frames
  import opened Streams
  import opened Messages
  import S = ServiceClients
  import TO = TimedOperations
  import Ops = OperationManager

  /** What the calls read: the bytes that come in for each call, the size of its buffer, and the user's decoder. */
  datatype Peer<!M> = Peer(codec: Codec<M>, limit: nat, inputs: Ops.OpId -> seq<Byte>)

  /** A read of `n` bytes that finds `space` in the buffer and `rest` in front of it. */
  predicate ReadFits(o: S.Outcome, n: nat, space: nat, rest: nat) {
    !o.failed ==> (o.full <==> n <= space) && Min(n, space) <= rest
  }

  predicate HeaderFits<M>(o: S.Outcome, input: seq<Byte>, peer: Peer<M>) {
    && ReadFits(o, HEADER_SIZE, peer.limit, |input|)
    && (!o.failed && o.full ==> (o.empty <==> Length(input) == 0))
    && (o.decodes <==> peer.codec.decode([]).Some?)
  }

  /** The decoder is given the payload unless the handler is told of an error. */
  predicate BodyFits<M>(o: S.Outcome, error: Error, input: seq<Byte>, peer: Peer<M>)
    requires HEADER_SIZE <= Min(|input|, peer.limit)
  {
    && ReadFits(o, Length(input), peer.limit - HEADER_SIZE, |input| - HEADER_SIZE)
    && (o.decodes <==> peer.codec.decode(if error == Success && o.full then Payload(input) else []).Some?)
  }

  /** What asio reports for the current phase and what the decoder does agree with the bytes. */
  predicate Fits<M>(s: S.State, o: S.Outcome, peer: Peer<M>)
    requires s.call.Some?
  {
    var call := s.call.value;
    var input := peer.inputs(call.id);
    match call.phase
    case ReadingHeader => HeaderFits(o, input, peer)
    case ReadingBody =>
      && HEADER_SIZE <= Min(|input|, peer.limit)
      && BodyFits(o, TO.Classify(S.SOCKET in s.timed.open, o.failed), input, peer)
    case _ => true
  }

  /** The reads of the stream layer report what fits. */
  method ReportHeader<M>(wire: Wire, buffer: StreamBuffer, peer: Peer<M>) returns (o: S.Outcome)
    requires buffer.data == [] && buffer.maxSize == peer.limit
    modifies wire, buffer
    ensures HeaderFits(o, old(wire.bytes), peer)
    ensures !o.failed && o.full ==> buffer.data + wire.bytes == old(wire.bytes) && |buffer.data| == HEADER_SIZE
  {
    var failed, transferred := ReadExactly(wire, buffer, HEADER_SIZE, false);
    var full := transferred == HEADER_SIZE;
    var empty := false;
    if full {
      var numDataBytes := NumDataBytesFromBuffer(buffer);
      empty := numDataBytes == 0;
      HeaderIsInFront([], old(wire.bytes), HEADER_SIZE);
      assert [] + old(wire.bytes) == old(wire.bytes);
    }
    o := S.Outcome(failed, full, true, empty, peer.codec.decode([]).Some?);
  }

  method ReportBody<M>(wire: Wire, buffer: StreamBuffer, isOpen: bool, peer: Peer<M>, ghost input: seq<Byte>)
    returns (o: S.Outcome)
    requires |buffer.data| == HEADER_SIZE <= buffer.maxSize == peer.limit && input == buffer.data + wire.bytes
    modifies wire, buffer
    ensures BodyFits(o, TO.Classify(isOpen, o.failed), input, peer)
  {
    assert input[..HEADER_SIZE] == buffer.data[..HEADER_SIZE];
    var numDataBytes := NumDataBytesFromBuffer(buffer);
    var failed, transferred := ReadExactly(wire, buffer, numDataBytes, false);
    var full := transferred == numDataBytes;
    var data := [];
    if TO.Classify(isOpen, failed) == Success && full {
      assert buffer.data == input[..HEADER_SIZE + numDataBytes];
      data := Window(buffer.data, numDataBytes, HEADER_SIZE);
      assert data == Payload(input);
    }
    o := S.Outcome(failed, full, true, false, peer.codec.decode(data).Some?);
  }

  /** A run in which every report agrees with the bytes. */
  ghost predicate Runs<M>(s: S.State, events: seq<S.Event>, t: S.State, jitter: nat, peer: Peer<M>)
    decreases |events|
  {
    if events == [] then s == t
    else
      && S.Possible(s, events[0], jitter)
      && (events[0].Complete? ==> Fits(s, events[0].outcome, peer))
      && Runs(S.Step(s, events[0], jitter), events[1..], t, jitter, peer)
  }

  lemma {:induction false} RunsAreRuns<M>(s: S.State, events: seq<S.Event>, t: S.State, jitter: nat, peer: Peer<M>)
    requires Runs(s, events, t, jitter, peer)
    ensures S.Runs(s, events, t, jitter)
    decreases |events|
  {
    if events == [] {
    } else {
      RunsAreRuns(S.Step(s, events[0], jitter), events[1..], t, jitter, peer);
    }
  }

  // ---------- The invariant ----------

  /** What the reference decoder makes of all the input of a call. */
  function Reference<M>(peer: Peer<M>, id: Ops.OpId): Error {
    var r := DecodeFrame(peer.inputs(id), peer.limit);
    Deliver(peer.codec, r.error, r.data).0
  }

  /** An error of the transport, or what the reference decoder says. */
  predicate Truthful<M>(error: Error, id: Ops.OpId, peer: Peer<M>) {
    || error in {Aborted, FailedOperation}
    || (error == Decoding && peer.codec.decode([]).None?)
    || error == Reference(peer, id)
  }

  /** The body is read only behind a header that announces one. */
  ghost predicate HeaderRead<M>(call: S.Call, peer: Peer<M>) {
    var input := peer.inputs(call.id);
    call.phase == S.ReadingBody ==> HEADER_SIZE <= Min(|input|, peer.limit) && Length(input) > 0
  }

  ghost predicate Matched<M>(s: S.State, peer: Peer<M>) {
    && (s.call.Some? ==> HeaderRead(s.call.value, peer))
    && (forall i :: 0 <= i < |s.results| ==> Truthful(s.results[i].error, s.results[i].call.id, peer))
  }

  /** How the error of a read that ends the call compares with the reference decoder. */
  lemma HeaderTells<M>(o: S.Outcome, input: seq<Byte>, peer: Peer<M>)
    requires HeaderFits(o, input, peer) && !o.failed
    ensures var r := DecodeFrame(input, peer.limit);
      && (!o.full ==> (r.error, r.data) == (InvalidFrame, []))
      && (o.full && o.empty ==> (r.error, r.data) == (Success, []))
      && (o.full && !o.empty ==> HEADER_SIZE <= Min(|input|, peer.limit) && Length(input) > 0)
  {
    assert [] + input == input;
    assert o.full ==> input[HEADER_SIZE..HEADER_SIZE] == [];
  }

  lemma BodyTells<M>(o: S.Outcome, error: Error, input: seq<Byte>, peer: Peer<M>)
    requires HEADER_SIZE <= Min(|input|, peer.limit) && Length(input) > 0
    requires BodyFits(o, error, input, peer) && !o.failed
    ensures var r := DecodeFrame(input, peer.limit);
      (r.error, r.data) == if o.full then (Success, Payload(input)) else (InvalidFrame, [])
  {
    assert [] + input == input;
  }

  /** The error with which a report ends a call in one of its read phases. */
  function ReadError(error: Error, o: S.Outcome): Error {
    S.DecodeOutcome(if error != Success then error else if !o.full then InvalidFrame else Success, o.decodes)
  }

  lemma ReadTells<M>(s: S.State, o: S.Outcome, peer: Peer<M>)
    requires s.call.Some? && Fits(s, o, peer) && HeaderRead(s.call.value, peer)
    requires s.call.value.phase == S.ReadingBody || s.call.value.phase == S.ReadingHeader
    ensures var call, error := s.call.value, TO.Classify(S.SOCKET in s.timed.open, o.failed);
      if call.phase == S.ReadingHeader && error == Success && o.full && !o.empty then
        HeaderRead(call.(phase := S.ReadingBody), peer)
      else
        Truthful(ReadError(error, o), call.id, peer)
  {
    var call := s.call.value;
    var input := peer.inputs(call.id);
    if !o.failed {
      if call.phase == S.ReadingHeader {
        HeaderTells(o, input, peer);
      } else {
        BodyTells(o, TO.Classify(S.SOCKET in s.timed.open, o.failed), input, peer);
      }
    }
  }

  lemma FinishCallKeepsMatched<M>(s: S.State, error: Error, r: S.Readings, peer: Peer<M>)
    requires s.call.Some? && s.timed.operations != [] && Matched(s, peer)
    requires Truthful(error, s.call.value.id, peer)
    ensures Matched(S.FinishCall(s, error, r), peer)
  {
    S.FinishCallReports(s, error, r);
  }

  lemma HandlePhaseKeepsMatched<M>(s: S.State, error: Error, o: S.Outcome, r: S.Readings, peer: Peer<M>)
    requires s.call.Some? && s.timed.operations != [] && Matched(s, peer)
    requires error in {Success, Aborted, FailedOperation}
    requires s.call.value.phase in {S.ReadingHeader, S.ReadingBody} ==>
      if s.call.value.phase == S.ReadingHeader && error == Success && o.full && !o.empty then
        HeaderRead(s.call.value.(phase := S.ReadingBody), peer)
      else
        Truthful(ReadError(error, o), s.call.value.id, peer)
    ensures Matched(S.HandlePhase(s, error, o, r), peer)
  {
    match s.call.value.phase
    case Resolving => if error != Success { FinishCallKeepsMatched(s, error, r, peer); }
    case Connecting => if error != Success { FinishCallKeepsMatched(s, error, r, peer); }
    case Writing =>
      if !o.full {
        FinishCallKeepsMatched(s, FailedOperation, r, peer);
      } else if error != Success {
        FinishCallKeepsMatched(s, error, r, peer);
      }
    case ReadingHeader =>
      if !(error == Success && o.full && !o.empty) {
        FinishCallKeepsMatched(s, ReadError(error, o), r, peer);
      }
    case ReadingBody => FinishCallKeepsMatched(s, ReadError(error, o), r, peer);
  }

  lemma StepKeepsMatched<M>(s: S.State, e: S.Event, jitter: nat, peer: Peer<M>)
    requires S.Inv(s, jitter) && S.Possible(s, e, jitter) && Matched(s, peer)
    requires e.Complete? ==> Fits(s, e.outcome, peer)
    ensures Matched(S.Step(s, e, jitter), peer)
  {
    match e
    case AsyncCall(_, _, _) =>
    case RunPost =>
    case Cancel =>
    case Elapse(_) =>
    case Timeout(_) =>
    case Complete(o, r) =>
      S.CompletionIsPhaseDone(s, o, r, jitter);
      var last := |s.timed.operations| - 1;
      var timed := TO.Step(s.timed, TO.Complete(last, o.failed, s.clock));
      if s.call.value.phase == S.ReadingHeader || s.call.value.phase == S.ReadingBody {
        ReadTells(s, o, peer);
      }
      HandlePhaseKeepsMatched(s.(timed := timed), timed.operations[last].done.value, o, r, peer);
    case SetClock(_) =>
  }

  lemma {:induction false} RunKeepsMatched<M>(s: S.State, events: seq<S.Event>, t: S.State, jitter: nat, peer: Peer<M>)
    requires S.Inv(s, jitter) && Matched(s, peer) && Runs(s, events, t, jitter, peer)
    ensures S.Inv(t, jitter) && Matched(t, peer)
    decreases |events|
  {
    if events == [] {
    } else {
      S.StepKeepsInv(s, events[0], jitter);
      StepKeepsMatched(s, events[0], jitter, peer);
      RunKeepsMatched(S.Step(s, events[0], jitter), events[1..], t, jitter, peer);
    }
  }

  lemma ReachableMatched<M>(clock: int, events: seq<S.Event>, t: S.State, jitter: nat, peer: Peer<M>)
    requires Runs(S.Init(clock), events, t, jitter, peer)
    ensures S.Inv(t, jitter) && Matched(t, peer)
  {
    S.RunFromInit(clock, [], S.Init(clock), jitter);
    RunKeepsMatched(S.Init(clock), events, t, jitter, peer);
  }

  // ---------- Main results ----------

  /**
   In every run, what a call's handler is told agrees with the bytes that came in for this call, whatever the chunks and
   the interleaving with timers, cancels and other calls: success only if the input starts with a frame that fits the
   buffer and decodes to a message, an invalid frame only if the buffer cuts the frame off, and a decoding error only if
   the decoder rejects the payload, or the empty data that come with every other error.
   */
  lemma ResultsMatchInput<M>(clock: int, events: seq<S.Event>, t: S.State, jitter: nat, peer: Peer<M>, i: nat)
    requires Runs(S.Init(clock), events, t, jitter, peer) && i < |t.results|
    ensures var r, input := t.results[i], peer.inputs(t.results[i].call.id);
      && (r.error == Success ==> Arrives(peer, r.call.id))
      && (r.error == InvalidFrame ==> DecodeFrame(input, peer.limit).error == InvalidFrame)
      && (r.error == Decoding ==>
            || peer.codec.decode([]).None?
            || exists p :: StartsWithFrame(input, p) && HEADER_SIZE + |p| <= peer.limit && peer.codec.decode(p).None?)
  {
    ReachableMatched(clock, events, t, jitter, peer);
    var r, input := t.results[i], peer.inputs(t.results[i].call.id);
    assert Truthful(r.error, r.call.id, peer);
    var f := DecodeFrame(input, peer.limit);
    ReadSucceedsIff(input, peer.limit, f.data);
  }

  /** The input of call `id` starts with a frame that fits the buffer and decodes to a message. */
  ghost predicate Arrives<M>(peer: Peer<M>, id: Ops.OpId) {
    exists p :: StartsWithFrame(peer.inputs(id), p) && HEADER_SIZE + |p| <= peer.limit && peer.codec.decode(p).Some?
  }

  /**
   At every completion of every run that ends a call in one of its read phases: the handler is told what the message
   layer makes of an abort if the socket is closed, of a failure if asio reports one, and otherwise exactly what the
   reference decoder makes of the input.
   */
  lemma ReadEndsAsReference<M>(clock: int, before: seq<S.Event>, s: S.State, o: S.Outcome, r: S.Readings, jitter: nat,
                               after: seq<S.Event>, t: S.State, peer: Peer<M>)
    requires Runs(S.Init(clock), before, s, jitter, peer)
    requires S.Possible(s, S.Complete(o, r), jitter) && Fits(s, o, peer)
    requires Runs(S.CompleteStep(s, o, r), after, t, jitter, peer)
    requires S.Reads(s.call.value) && !S.GoesOn(s.call.value, S.SOCKET in s.timed.open, o)
    ensures |s.results| < |t.results| && t.results[|s.results|].call == s.call.value
    ensures t.results[|s.results|].error
      == if S.SOCKET !in s.timed.open then Deliver(peer.codec, Aborted, []).0
         else if o.failed then Deliver(peer.codec, FailedOperation, []).0
         else Reference(peer, s.call.value.id)
  {
    RunsAreRuns(S.Init(clock), before, s, jitter, peer);
    RunsAreRuns(S.CompleteStep(s, o, r), after, t, jitter, peer);
    ReachableMatched(clock, before, s, jitter, peer);
    S.CompletionsAreReported(clock, before, s, o, r, jitter, after, t);
    ToldOfReference(t.results[|s.results|].error, s, o, peer);
  }

  lemma ToldOfReference<M>(error: Error, s: S.State, o: S.Outcome, peer: Peer<M>)
    requires s.call.Some? && Fits(s, o, peer) && HeaderRead(s.call.value, peer)
    requires S.Reads(s.call.value) && !S.GoesOn(s.call.value, S.SOCKET in s.timed.open, o)
    requires S.ToldOf(error, s.call.value, S.SOCKET in s.timed.open, o)
    ensures error
      == if S.SOCKET !in s.timed.open then Deliver(peer.codec, Aborted, []).0
         else if o.failed then Deliver(peer.codec, FailedOperation, []).0
         else Reference(peer, s.call.value.id)
  {
    var input := peer.inputs(s.call.value.id);
    if S.SOCKET in s.timed.open && !o.failed {
      if s.call.value.phase == S.ReadingHeader {
        HeaderTells(o, input, peer);
      } else {
        BodyTells(o, Success, input, peer);
      }
    }
  }

  /** In no run is the handler of call `id` told of success. */
  ghost predicate NeverDelivers<M>(s: S.State, id: Ops.OpId, jitter: nat, peer: Peer<M>) {
    forall events, t :: Runs(s, events, t, jitter, peer) ==> S.NoSuccess(t, id)
  }

  /** The report of a phase in which nothing goes wrong. */
  function Report<M>(call: S.Call, peer: Peer<M>): S.Outcome {
    var input := peer.inputs(call.id);
    var data := if call.phase == S.ReadingBody then Payload(input) else [];
    S.Outcome(false, true, true, HEADER_SIZE <= |input| && Length(input) == 0, peer.codec.decode(data).Some?)
  }

  /** An input that carries a message has its payload behind the header, within the limit. */
  lemma ArrivedPayload<M>(peer: Peer<M>, id: Ops.OpId)
    requires Arrives(peer, id)
    ensures var input := peer.inputs(id);
      && HEADER_SIZE <= |input| && HEADER_SIZE + Length(input) <= Min(|input|, peer.limit)
      && peer.codec.decode(Payload(input)).Some?
      && (Length(input) == 0 ==> Payload(input) == [])
  {
    var input := peer.inputs(id);
    var p :| StartsWithFrame(input, p) && HEADER_SIZE + |p| <= peer.limit && peer.codec.decode(p).Some?;
    StartsWithFrameIff(input, p);
    assert Payload(input) == p;
  }

  lemma ReportFits<M>(s: S.State, peer: Peer<M>)
    requires s.call.Some? && Arrives(peer, s.call.value.id)
    requires S.TargetOf(s.call.value) in s.timed.open
    ensures Fits(s, Report(s.call.value, peer), peer)
    ensures S.Last(s.call.value.phase, Report(s.call.value, peer)) ==> Report(s.call.value, peer).decodes
  {
    ArrivedPayload(peer, s.call.value.id);
  }

  lemma {:induction false} DeliveryRun<M>(s: S.State, r: S.Readings, jitter: nat, peer: Peer<M>)
    returns (events: seq<S.Event>, t: S.State)
    requires S.Inv(s, jitter) && Matched(s, peer) && s.call.Some? && S.Near(r, jitter)
    requires S.TargetOf(s.call.value) in s.timed.open && Arrives(peer, s.call.value.id)
    ensures Runs(s, events, t, jitter, peer) && !S.NoSuccess(t, s.call.value.id)
    decreases S.PhasesLeft(s.call.value.phase)
  {
    var o := Report(s.call.value, peer);
    var e := S.Complete(o, r);
    ReportFits(s, peer);
    S.GoodReport(s, o, r, jitter);
    S.StepKeepsInv(s, e, jitter);
    StepKeepsMatched(s, e, jitter, peer);
    var u := S.Step(s, e, jitter);
    var rest := [];
    if S.Last(s.call.value.phase, o) {
      t := u;
      assert t.results[|s.results|].error == Success;
    } else {
      rest, t := DeliveryRun(u, r, jitter, peer);
    }
    events := [e] + rest;
    assert events[1..] == rest;
  }

  lemma MatchedArrives<M>(s: S.State, id: Ops.OpId, peer: Peer<M>)
    requires Matched(s, peer) && !S.NoSuccess(s, id)
    ensures Arrives(peer, id)
  {
    var i :| 0 <= i < |s.results| && s.results[i].call.id == id && s.results[i].error == Success;
    var f := DecodeFrame(peer.inputs(id), peer.limit);
    ReadSucceedsIff(peer.inputs(id), peer.limit, f.data);
    assert Truthful(Success, id, peer);
  }

  /**
   At any moment of any run, the active call can still be answered if and only if what its phase works on is open and
   its input starts with a frame that fits the buffer and decodes to a message.
   */
  lemma NeverDeliversIff<M>(clock: int, before: seq<S.Event>, s: S.State, jitter: nat, peer: Peer<M>)
    requires Runs(S.Init(clock), before, s, jitter, peer) && s.call.Some?
    ensures NeverDelivers(s, s.call.value.id, jitter, peer)
      <==> S.TargetOf(s.call.value) !in s.timed.open || !Arrives(peer, s.call.value.id)
  {
    ReachableMatched(clock, before, s, jitter, peer);
    var id := s.call.value.id;
    if S.TargetOf(s.call.value) in s.timed.open && Arrives(peer, id) {
      var events, t := DeliveryRun(s, S.Readings(s.clock, s.clock, s.clock), jitter, peer);
    } else {
      forall events, t | Runs(s, events, t, jitter, peer) ensures S.NoSuccess(t, id) {
        UnansweredRun(s, events, t, jitter, peer);
      }
    }
  }

  lemma UnansweredRun<M>(s: S.State, events: seq<S.Event>, t: S.State, jitter: nat, peer: Peer<M>)
    requires S.Inv(s, jitter) && Matched(s, peer) && s.call.Some? && Runs(s, events, t, jitter, peer)
    requires S.TargetOf(s.call.value) !in s.timed.open || !Arrives(peer, s.call.value.id)
    ensures S.NoSuccess(t, s.call.value.id)
  {
    RunsAreRuns(s, events, t, jitter, peer);
    S.NeverSucceedsIffLost(s, jitter);
    RunKeepsMatched(s, events, t, jitter, peer);
    if !S.NoSuccess(t, s.call.value.id) {
      MatchedArrives(t, s.call.value.id, peer);
    }
  }
}
