/** `Frame`: a payload behind its length, four bytes in big-endian order. */
module Frames {
  import opened BigEndian

  const HEADER_SIZE: nat := 4

  /** The length field holds lengths below this; the constructor reduces longer ones modulo it. */
  const LENGTH_LIMIT: nat := 0x1_0000_0000

  lemma HeaderHoldsLength()
    ensures Pow256(HEADER_SIZE) == LENGTH_LIMIT
  {
    assert Pow256(1) == 256;
    assert Pow256(2) == 0x1_0000;
    assert Pow256(3) == 0x100_0000;
  }

  /** The bytes that are sent for a payload. */
  function FrameOf(data: seq<Byte>): (bytes: seq<Byte>) {
    var n := |data| % LENGTH_LIMIT;
    Encode(n, HEADER_SIZE) + data[..n]
  }

  function FramesOf(payloads: seq<seq<Byte>>): seq<Byte> {
    if payloads == [] then [] else FrameOf(payloads[0]) + FramesOf(payloads[1..])
  }

  /** The length that a header announces. */
  function Length(bytes: seq<Byte>): nat
    requires HEADER_SIZE <= |bytes|
  {
    Decode(bytes[..HEADER_SIZE])
  }

  /** The payload that the header announces, if all of it is there. */
  function Payload(input: seq<Byte>): seq<Byte> {
    if HEADER_SIZE <= |input| && HEADER_SIZE + Length(input) <= |input| then
      input[HEADER_SIZE..HEADER_SIZE + Length(input)]
    else []
  }

  /** Parsing a stream that starts with a frame finds the payload, up to the truncation of its length. */
  lemma FrameParses(data: seq<Byte>, rest: seq<Byte>)
    ensures var bytes, n := FrameOf(data) + rest, |data| % LENGTH_LIMIT;
      && |FrameOf(data)| == HEADER_SIZE + n
      && Length(bytes) == n
      && bytes[HEADER_SIZE..HEADER_SIZE + n] == data[..n]
  {
    var bytes, n := FrameOf(data) + rest, |data| % LENGTH_LIMIT;
    HeaderHoldsLength();
    DecodeEncode(n, HEADER_SIZE);
    SmallMod(n, LENGTH_LIMIT);
    assert bytes[..HEADER_SIZE] == Encode(n, HEADER_SIZE);
  }

  /** Conversely, bytes that hold as much as their header announces start with the frame of that payload. */
  lemma ParsedIsFrame(bytes: seq<Byte>)
    requires HEADER_SIZE <= |bytes| && HEADER_SIZE + Length(bytes) <= |bytes|
    ensures var data := bytes[HEADER_SIZE..HEADER_SIZE + Length(bytes)];
      |data| < LENGTH_LIMIT && FrameOf(data) <= bytes
  {
    var data := bytes[HEADER_SIZE..HEADER_SIZE + Length(bytes)];
    HeaderHoldsLength();
    EncodeDecode(bytes[..HEADER_SIZE]);
    SmallMod(|data|, LENGTH_LIMIT);
    assert FrameOf(data) == bytes[..HEADER_SIZE] + data;
    assert FrameOf(data) == bytes[..HEADER_SIZE + |data|];
  }

  /** `bytes` starts with the frame of `data`, and the length field is exact. */
  predicate StartsWithFrame(bytes: seq<Byte>, data: seq<Byte>) {
    |data| < LENGTH_LIMIT && FrameOf(data) <= bytes
  }

  lemma StartsWithFrameIff(bytes: seq<Byte>, data: seq<Byte>)
    ensures StartsWithFrame(bytes, data)
      <==> && HEADER_SIZE <= |bytes| && HEADER_SIZE + Length(bytes) <= |bytes|
           && data == bytes[HEADER_SIZE..HEADER_SIZE + Length(bytes)]
  {
    if StartsWithFrame(bytes, data) {
      SmallMod(|data|, LENGTH_LIMIT);
      var rest := bytes[|FrameOf(data)|..];
      assert bytes == FrameOf(data) + rest;
      FrameParses(data, rest);
      assert data[..|data|] == data;
    }
    if HEADER_SIZE <= |bytes| && HEADER_SIZE + Length(bytes) <= |bytes| {
      ParsedIsFrame(bytes);
    }
  }

  class Frame {
    const data: seq<Byte>
    const numDataBytes: nat
    const header: array<Byte>

    ghost predicate Valid()
      reads header
    {
      header[..] == Encode(numDataBytes, HEADER_SIZE) && numDataBytes == |data| % LENGTH_LIMIT
    }

    /** The size is narrowed to 32 bits. */
    constructor (data: seq<Byte>)
      ensures Valid() && this.data == data && fresh(header)
    {
      var n := |data| % LENGTH_LIMIT;
      this.data, numDataBytes := data, n;
      header := new Byte[HEADER_SIZE];
      new;
      ToBigEndian(header, HEADER_SIZE, n);
      assert header[..] == header[..HEADER_SIZE];
    }

    /** `getBuffers`: the header and the data, sent one after the other. */
    method GetBuffers() returns (buffers: seq<seq<Byte>>)
      requires Valid()
      ensures |buffers| == 2 && buffers[0] + buffers[1] == FrameOf(data)
    {
      buffers := [header[..], data[..numDataBytes]];
    }

    method GetSize() returns (size: nat)
      requires Valid()
      ensures size == |FrameOf(data)|
    {
      size := header.Length + numDataBytes;
      assert header.Length == |header[..]|;
    }
  }
}
