/** core/domain/src/message.rs: messages behind a 4-byte big-endian size, on a stream of bytes. */
module Framing {
  import opened Wrappers
  import opened Messages
  import opened Wire
  import opened Codec

  /** `size as u32` and its big-endian bytes: sizes of 4 GiB and more lose their high bits. */
  function SizeBytes(size: nat): (b: seq<Byte>)
    ensures |b| == 4
  {
    BytesOf(size % 0x1_0000_0000)
  }

  function BytesOf(s: UInt32): (b: seq<Byte>)
    ensures |b| == 4
  {
    [s / 0x100_0000, s / 0x1_0000 % 0x100, s / 0x100 % 0x100, s % 0x100]
  }

  function SizeFrom(b: seq<Byte>): nat
    requires |b| == 4
  {
    var b0: nat, b1: nat, b2: nat, b3: nat := b[0], b[1], b[2], b[3];
    b0 * 0x100_0000 + b1 * 0x1_0000 + b2 * 0x100 + b3
  }

  lemma SizeRoundTrip(size: nat)
    ensures SizeFrom(SizeBytes(size)) == size % 0x1_0000_0000
  {
    var s := size % 0x1_0000_0000;
    var a, b := s / 0x100, s / 0x1_0000;
    assert s == a * 0x100 + s % 0x100;
    assert a == b * 0x100 + a % 0x100;
    assert b == s / 0x100_0000 * 0x100 + b % 0x100;
  }

  function Frame(payload: seq<Byte>): seq<Byte> {
    SizeBytes(|payload|) + payload
  }

  /** The payload of the first frame and what follows it; None when the stream ends too early. */
  function ReadFrame(b: seq<Byte>): (r: Option<(seq<Byte>, seq<Byte>)>)
    ensures r.Some? ==> |r.value.1| < |b|
  {
    match Take(b, 4)
    case None => None
    case Some((header, rest)) => Take(rest, SizeFrom(header))
  }

  /** What a reader takes off the stream is the size modulo 4 GiB. */
  lemma ReadWrittenFrame(payload: seq<Byte>, more: seq<Byte>)
    ensures ReadFrame(Frame(payload) + more) == Take(payload + more, |payload| % 0x1_0000_0000)
  {
    var header := SizeBytes(|payload|);
    SizeRoundTrip(|payload|);
    hide SizeBytes, SizeFrom;
    assert Frame(payload) + more == header + (payload + more);
    assert (header + (payload + more))[..4] == header;
  }

  /** A frame is read back exactly, with the exact remainder, if and only if it is under 4 GiB. */
  lemma FrameRoundTrip(payload: seq<Byte>, more: seq<Byte>)
    ensures ReadFrame(Frame(payload) + more) == Some((payload, more)) <==> |payload| < TWO_32
  {
    ReadWrittenFrame(payload, more);
    hide Frame, ReadFrame;
    var size := |payload| % 0x1_0000_0000;
    assert size <= |payload|;
    if |payload| < TWO_32 {
      assert (payload + more)[..|payload|] == payload && (payload + more)[|payload|..] == more;
    } else {
      assert |(payload + more)[..size]| == size;
    }
  }

  function Frames(payloads: seq<seq<Byte>>): seq<Byte> {
    if payloads == [] then [] else Frame(payloads[0]) + Frames(payloads[1..])
  }

  /** Reads `n` frames one after the other. */
  function ReadFrames(b: seq<Byte>, n: nat): Option<(seq<seq<Byte>>, seq<Byte>)> {
    if n == 0 then Some(([], b))
    else
      match ReadFrame(b)
      case None => None
      case Some((payload, rest)) =>
        match ReadFrames(rest, n - 1)
        case None => None
        case Some((payloads, rest')) => Some(([payload] + payloads, rest'))
  }

  /** Frames parse back one by one from their concatenation, leaving the exact remainder. */
  lemma {:induction false} FramesRoundTrip(payloads: seq<seq<Byte>>, more: seq<Byte>)
    requires forall i | 0 <= i < |payloads| :: |payloads[i]| < TWO_32
    ensures ReadFrames(Frames(payloads) + more, |payloads|) == Some((payloads, more))
    decreases |payloads|
  {
    if payloads == [] {
      assert Frames(payloads) + more == more;
    } else {
      hide *;
      var first, rest := payloads[0], payloads[1..];
      assert payloads == [first] + rest;
      FramesCons(first, rest);
      assert Frame(first) + Frames(rest) + more == Frame(first) + (Frames(rest) + more);
      FrameRoundTrip(first, Frames(rest) + more);
      ReadOneMore(Frame(first) + (Frames(rest) + more), |rest| + 1);
      FramesRoundTrip(rest, more);
    }
  }

  lemma FramesCons(first: seq<Byte>, rest: seq<seq<Byte>>)
    ensures Frames([first] + rest) == Frame(first) + Frames(rest) && TWO_32 == 0x1_0000_0000
  {
    hide Frame;
    assert ([first] + rest)[1..] == rest;
  }

  lemma ReadOneMore(b: seq<Byte>, n: nat)
    requires n > 0 && ReadFrame(b).Some?
    ensures ReadFrames(b, n) ==
      match ReadFrames(ReadFrame(b).value.1, n - 1)
      case None => None
      case Some((payloads, rest)) => Some(([ReadFrame(b).value.0] + payloads, rest))
  {
    hide ReadFrame;
  }

  // ---------- Streams ----------

  /** The reading half of a stream whose sender has finished: the bytes still to come. */
  class InStream {
    var rest: seq<Byte>

    constructor (bytes: seq<Byte>)
      ensures rest == bytes
    {
      rest := bytes;
    }

    /** read_exact: all of the bytes or an unexpected end of the stream, which is then used up. */
    method ReadExact(n: nat) returns (r: Option<seq<Byte>>)
      modifies this
      ensures r.Some? <==> n <= |old(rest)|
      ensures r.Some? ==> r.value == old(rest)[..n] && rest == old(rest)[n..]
      ensures r.None? ==> rest == []
    {
      if |rest| < n {
        rest := [];
        return None;
      }
      r := Some(rest[..n]);
      rest := rest[n..];
    }
  }

  lemma SizeOnce(size: nat)
    ensures SizeBytes(size % 0x1_0000_0000) == SizeBytes(size)
  {
    hide BytesOf;
  }

  /** The size is written in base 256, its highest digit first, and the message follows it. */
  lemma FrameBytes(message: seq<Byte>)
    ensures var b := Frame(message);
      && |b| == 4 + |message| && b[4..] == message
      && b[0] as int * 0x100_0000 + b[1] as int * 0x1_0000 + b[2] as int * 0x100 + b[3] as int == |message| % 0x1_0000_0000
  {
    var header := SizeBytes(|message|);
    SizeRoundTrip(|message|);
    assert SizeFrom(header) == header[0] as int * 0x100_0000 + header[1] as int * 0x1_0000 + header[2] as int * 0x100 + header[3] as int;
    hide SizeBytes;
    assert forall i | 0 <= i < 4 :: (header + message)[i] == header[i];
  }

  /** prefix_size_message for a message that serializes to `message`. */
  method PrefixSizeMessage(message: seq<Byte>) returns (result: seq<Byte>)
    ensures result == Frame(message)
    ensures |result| == 4 + |message| && result[4..] == message
    ensures result[0] as int * 0x100_0000 + result[1] as int * 0x1_0000 + result[2] as int * 0x100 + result[3] as int == |message| % 0x1_0000_0000
  {
    SizeOnce(|message|);
    FrameBytes(message);
    hide SizeBytes;
    var size := |message| % 0x1_0000_0000;
    var sizeBuffer := SizeBytes(size);
    result := [];
    result := result + sizeBuffer;
    result := result + message;
  }

  /** read_prefix_size_message, up to the decoding of the message. */
  method ReadPrefixSizeMessage(stream: InStream) returns (r: Option<seq<Byte>>)
    modifies stream
    ensures match ReadFrame(old(stream.rest))
      case None => r.None?
      case Some((payload, more)) => r == Some(payload) && stream.rest == more
    ensures var b := old(stream.rest);
      r.Some? <==> |b| >= 4 && |b| >= 4 + (b[0] as int * 0x100_0000 + b[1] as int * 0x1_0000 + b[2] as int * 0x100 + b[3] as int)
    ensures r.Some? ==>
      var b := old(stream.rest);
      var size := b[0] as int * 0x100_0000 + b[1] as int * 0x1_0000 + b[2] as int * 0x100 + b[3] as int;
      r.value == b[4..4 + size] && stream.rest == b[4 + size..]
  {
    var sizeBuffer := stream.ReadExact(4);
    if sizeBuffer.None? {
      return None;
    }
    var size := SizeFrom(sizeBuffer.value);
    ghost var b := old(stream.rest);
    assert size == b[0] as int * 0x100_0000 + b[1] as int * 0x1_0000 + b[2] as int * 0x100 + b[3] as int;
    r := stream.ReadExact(size);
  }
}
