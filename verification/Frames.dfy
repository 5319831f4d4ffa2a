/**
 * Length-prefixed frames: the encoder, the streaming decoder, the server loop
 * that reads in chunks, and the client's decoder.
 */
module Frames {
  import opened Wrappers
  import opened Bytes

  const MAX_FRAME_BYTES := 64 * 1024

  datatype FrameError = EmptyFrame | OversizedFrame | InvalidUtf8

  datatype Decoded = NeedMore | Got(frame: Text, rest: seq<byte>) | Bad(error: FrameError)

  function EncodeFrame(payload: Text): Result<seq<byte>, FrameError>
  {
    if |payload| == 0 then Failure(EmptyFrame)
    else if |payload| > MAX_FRAME_BYTES then Failure(OversizedFrame)
    else Success(LeBytes(|payload|, 4) + payload)
  }

  /** One step of the streaming decoder on the bytes buffered so far. */
  function DecodeFrame(buffer: seq<byte>): (d: Decoded)
    ensures d.Got? ==> |d.rest| < |buffer|
  {
    if |buffer| < 4 then NeedMore else
    var length := LeValue(buffer[..4]);
    if length == 0 then Bad(EmptyFrame)
    else if length > MAX_FRAME_BYTES then Bad(OversizedFrame)
    else if |buffer| < 4 + length then NeedMore
    else if !ValidUtf8(buffer[4..4 + length]) then Bad(InvalidUtf8)
    else Got(buffer[4..4 + length], buffer[4 + length..])
  }

  /** How decoding a whole stream ends: waiting for more bytes, or dropping the connection. */
  datatype End = Waiting(rest: seq<byte>) | Dropped(error: FrameError)

  datatype Stream = Stream(frames: seq<Text>, end: End)

  function Prepend(frame: Text, s: Stream): Stream
  {
    Stream([frame] + s.frames, s.end)
  }

  function DecodeStream(bytes: seq<byte>): Stream
    decreases |bytes|
  {
    match DecodeFrame(bytes)
    case NeedMore => Stream([], Waiting(bytes))
    case Bad(error) => Stream([], Dropped(error))
    case Got(frame, rest) => Prepend(frame, DecodeStream(rest))
  }

  // ---------------------------------------------------------------------
  // More bytes never change what was already decided
  // ---------------------------------------------------------------------

  lemma DecodeFrameExtends(buffer: seq<byte>, more: seq<byte>)
    ensures match DecodeFrame(buffer)
      case NeedMore => true
      case Bad(error) => DecodeFrame(buffer + more) == Bad(error)
      case Got(frame, rest) => DecodeFrame(buffer + more) == Got(frame, rest + more)
  {
    hide LeValue, ValidUtf8;
    if |buffer| >= 4 {
      assert (buffer + more)[..4] == buffer[..4];
      var length := LeValue(buffer[..4]);
      if |buffer| >= 4 + length {
        assert (buffer + more)[4..4 + length] == buffer[4..4 + length];
        assert (buffer + more)[4 + length..] == buffer[4 + length..] + more;
      }
    }
  }

  function After(frames: seq<Text>, s: Stream): Stream
  {
    Stream(frames + s.frames, s.end)
  }

  /** Decoding a prefix first and continuing with the rest is decoding the whole. */
  lemma {:induction false} DecodeInTwo(bytes: seq<byte>, more: seq<byte>)
    ensures var first := DecodeStream(bytes);
      DecodeStream(bytes + more) == if first.end.Dropped? then first
                                    else After(first.frames, DecodeStream(first.end.rest + more))
    decreases |bytes|
  {
    DecodeFrameExtends(bytes, more);
    hide DecodeFrame;
    var d := DecodeFrame(bytes);
    if d.Got? {
      DecodeInTwo(d.rest, more);
      var tail := DecodeStream(d.rest);
      if tail.end.Waiting? {
        var s := DecodeStream(tail.end.rest + more);
        assert [d.frame] + (tail.frames + s.frames) == ([d.frame] + tail.frames) + s.frames;
      }
    } else if d.NeedMore? {
      assert [] + DecodeStream(bytes + more).frames == DecodeStream(bytes + more).frames;
    }
  }

  // ---------------------------------------------------------------------
  // Encoded frames decode to their payloads, and nothing else does
  // ---------------------------------------------------------------------

  predicate Framable(payload: Text)
  {
    0 < |payload| <= MAX_FRAME_BYTES
  }

  function FrameBytes(payload: Text): seq<byte>
  {
    LeBytes(|payload|, 4) + payload
  }

  function StreamBytes(payloads: seq<Text>): seq<byte>
  {
    if payloads == [] then [] else FrameBytes(payloads[0]) + StreamBytes(payloads[1..])
  }

  lemma DecodeFrameIff(buffer: seq<byte>, payload: Text, rest: seq<byte>)
    ensures DecodeFrame(buffer) == Got(payload, rest) <==> Framable(payload) && buffer == FrameBytes(payload) + rest
  {
    hide LeBytes, LeValue, ValidUtf8;
    Pow256Values();
    if Framable(payload) && buffer == FrameBytes(payload) + rest {
      LeValueOfBytes(|payload|, 4);
      assert buffer[..4] == LeBytes(|payload|, 4);
      assert buffer[4..4 + |payload|] == payload;
      assert buffer[4 + |payload|..] == rest;
    }
    if DecodeFrame(buffer) == Got(payload, rest) {
      LeBytesOfValue(buffer[..4]);
      assert buffer == buffer[..4] + buffer[4..4 + |payload|] + buffer[4 + |payload|..];
    }
  }

  /** The encoder succeeds exactly on the bytes the decoder gives back as this payload. */
  lemma EncodeIffDecodes(payload: Text, bytes: seq<byte>, rest: seq<byte>)
    ensures EncodeFrame(payload).Success? <==> Framable(payload)
    ensures Framable(payload) ==> EncodeFrame(payload) == Success(FrameBytes(payload))
    ensures EncodeFrame(payload) == Success(bytes) <==> DecodeFrame(bytes + rest) == Got(payload, rest)
  {
    DecodeFrameIff(bytes + rest, payload, rest);
    hide DecodeFrame;
    if bytes + rest == FrameBytes(payload) + rest {
      assert |bytes| == |FrameBytes(payload)|;
      assert bytes == (bytes + rest)[..|bytes|] && FrameBytes(payload) == (bytes + rest)[..|bytes|];
    }
  }

  /** The checks on a frame whose length field is in, in the order they are made. */
  function FrameChecks(buffer: seq<byte>): seq<Check<FrameError>>
    requires |buffer| >= 4
  {
    var length := LeValue(buffer[..4]);
    [
      Check(length > 0, EmptyFrame),
      Check(length <= 0x1_0000, OversizedFrame),
      Check(|buffer| >= 4 + length ==> ValidUtf8(buffer[4..4 + length]), InvalidUtf8)
    ]
  }

  /** A frame is dropped with its first failing check; else it is awaited until all its bytes are in. */
  lemma FrameErrorIsFirstFailure(buffer: seq<byte>)
    ensures |buffer| < 4 ==> DecodeFrame(buffer) == NeedMore
    ensures |buffer| >= 4 ==>
      var d, end := DecodeFrame(buffer), 4 + LeValue(buffer[..4]);
      match FirstFailure(FrameChecks(buffer))
      case Some(error) => d == Bad(error)
      case None =>
        if |buffer| < end then d == NeedMore else d.Got? && d.frame == buffer[4..end] && d.rest == buffer[end..]
  {
    hide LeValue, ValidUtf8, FirstFailure;
    if |buffer| >= 4 {
      var place := FirstFailurePlace(FrameChecks(buffer));
    }
  }

  /** A stream decodes to exactly these payloads with nothing left over iff it is their encoding. */
  lemma {:induction false} StreamRoundTrip(bytes: seq<byte>, payloads: seq<Text>)
    ensures DecodeStream(bytes) == Stream(payloads, Waiting([]))
      <==> (forall p :: p in payloads ==> Framable(p)) && bytes == StreamBytes(payloads)
    decreases |bytes|
  {
    hide *;
    match DecodeFrame(bytes) {
      case Got(frame, rest) =>
        StreamBegins(bytes);
        DecodeFrameIff(bytes, frame, rest);
        if payloads == [] {
          FrameIsNotEmpty(frame, rest);
          EmptyStream();
        } else {
          StreamRoundTrip(rest, payloads[1..]);
          StreamInTwo(payloads);
          if (forall p :: p in payloads ==> Framable(p)) && bytes == StreamBytes(payloads) {
            DecodeFrameIff(bytes, payloads[0], StreamBytes(payloads[1..]));
          }
          assert payloads == [payloads[0]] + payloads[1..];
        }
      case NeedMore =>
        StreamBegins(bytes);
        UndecodedIsNotStream(bytes, payloads);
        EmptyStream();
      case Bad(_) =>
        StreamBegins(bytes);
        UndecodedIsNotStream(bytes, payloads);
        EmptyStream();
    }
  }

  lemma StreamBegins(bytes: seq<byte>)
    ensures match DecodeFrame(bytes)
      case NeedMore => DecodeStream(bytes) == Stream([], Waiting(bytes))
      case Bad(error) => DecodeStream(bytes) == Stream([], Dropped(error))
      case Got(frame, rest) =>
        && |rest| < |bytes|
        && DecodeStream(bytes) == Stream([frame] + DecodeStream(rest).frames, DecodeStream(rest).end)
  {
    hide DecodeFrame;
  }

  lemma EmptyStream()
    ensures StreamBytes([]) == []
  {
  }

  lemma StreamInTwo(payloads: seq<Text>)
    requires payloads != []
    ensures StreamBytes(payloads) == FrameBytes(payloads[0]) + StreamBytes(payloads[1..])
    ensures (forall p :: p in payloads ==> Framable(p))
        <==> Framable(payloads[0]) && forall p :: p in payloads[1..] ==> Framable(p)
  {
    hide FrameBytes, Framable;
    assert payloads == [payloads[0]] + payloads[1..];
  }

  lemma FrameIsNotEmpty(frame: Text, rest: seq<byte>)
    ensures FrameBytes(frame) + rest != []
  {
  }

  lemma UndecodedIsNotStream(bytes: seq<byte>, payloads: seq<Text>)
    requires !DecodeFrame(bytes).Got?
    ensures (forall p :: p in payloads ==> Framable(p)) && bytes == StreamBytes(payloads)
      ==> payloads == [] && bytes == [] && DecodeFrame(bytes).NeedMore?
  {
    hide FrameBytes, Framable;
    if payloads != [] && (forall p :: p in payloads ==> Framable(p)) && bytes == StreamBytes(payloads) {
      DecodeFrameIff(bytes, payloads[0], StreamBytes(payloads[1..]));
    }
  }

  // ---------------------------------------------------------------------
  // The server: reading in chunks
  // ---------------------------------------------------------------------

  function Concat(chunks: seq<seq<byte>>): seq<byte>
  {
    if chunks == [] then [] else chunks[0] + Concat(chunks[1..])
  }

  /** How a stream without a complete frame at its front ends. */
  function EndOf(bytes: seq<byte>): End
  {
    match DecodeFrame(bytes)
    case Bad(error) => Dropped(error)
    case _ => Waiting(bytes)
  }

  datatype ServeRead = Frame(frame: Text) | Closed

  /** One connection: the chunks the peer will still deliver, and the bytes buffered. */
  class Connection {
    var incoming: seq<seq<byte>>
    var buffer: seq<byte>

    constructor (incoming: seq<seq<byte>>)
      ensures this.incoming == incoming && buffer == []
    {
      this.incoming, buffer := incoming, [];
    }

    function Unread(): seq<byte>
      reads this
    {
      buffer + Concat(incoming)
    }

    /** Decode from the buffer, otherwise read one more chunk; close on a bad frame or at the end. */
    method ReadFrame() returns (r: ServeRead)
      modifies this
      ensures match r
        case Frame(frame) => DecodeFrame(old(Unread())) == Got(frame, Unread())
        case Closed => !DecodeFrame(old(Unread())).Got? && Unread() == old(Unread())
    {
      hide DecodeFrame;
      while true
        invariant Unread() == old(Unread())
        decreases |incoming|
      {
        DecodeFrameExtends(buffer, Concat(incoming));
        match DecodeFrame(buffer) {
          case Got(frame, rest) =>
            buffer := rest;
            return Frame(frame);
          case Bad(_) =>
            return Closed;
          case NeedMore =>
        }
        if incoming == [] {
          assert buffer + Concat(incoming) == buffer;
          return Closed;
        }
        assert (buffer + incoming[0]) + Concat(incoming[1..]) == buffer + (incoming[0] + Concat(incoming[1..]));
        buffer := buffer + incoming[0];
        incoming := incoming[1..];
      }
    }

    /**
     * The frames one connection delivers and how it ends: both depend on the
     * bytes the peer sent, not on how they were cut into chunks.
     */
    method ReadAll() returns (frames: seq<Text>)
      modifies this
      ensures DecodeStream(old(Unread())) == Stream(frames, EndOf(Unread()))
    {
      frames := [];
      assert [] + DecodeStream(Unread()).frames == DecodeStream(Unread()).frames;
      while true
        invariant DecodeStream(old(Unread())) == After(frames, DecodeStream(Unread()))
        decreases |Unread()|
      {
        hide DecodeFrame;
        ghost var unread := Unread();
        var r := ReadFrame();
        if r.Closed? {
          assert frames + [] == frames;
          return;
        }
        FrameShrinks(unread);
        assert frames + ([r.frame] + DecodeStream(Unread()).frames)
            == (frames + [r.frame]) + DecodeStream(Unread()).frames;
        frames := frames + [r.frame];
      }
    }
  }

  lemma FrameShrinks(bytes: seq<byte>)
    ensures DecodeFrame(bytes).Got? ==> |DecodeFrame(bytes).rest| < |bytes|
  {
  }

  // ---------------------------------------------------------------------
  // The client: decodeFrames
  // ---------------------------------------------------------------------

  /** The client's result: raw frame bytes and the undecoded rest, or an out-of-bounds header. */
  datatype ClientFrames = Frames(frames: seq<seq<byte>>, rest: seq<byte>) | OutOfBounds

  function ClientDecode(bytes: seq<byte>): ClientFrames
    decreases |bytes|
  {
    if |bytes| < 4 then Frames([], bytes) else
    var length := LeValue(bytes[..4]);
    if length == 0 || length > MAX_FRAME_BYTES then OutOfBounds
    else if |bytes| < 4 + length then Frames([], bytes)
    else
      match ClientDecode(bytes[4 + length..])
      case OutOfBounds => OutOfBounds
      case Frames(frames, rest) => Frames([bytes[4..4 + length]] + frames, rest)
  }

  function ClientPrepend(done: seq<seq<byte>>, c: ClientFrames): ClientFrames
  {
    if c.OutOfBounds? then OutOfBounds else Frames(done + c.frames, c.rest)
  }

  /** One round of the client loop at an offset. */
  lemma ClientRound(buffer: seq<byte>, offset: nat, frames: seq<seq<byte>>)
    requires offset + 4 <= |buffer|
    ensures var length, here := LeValue(buffer[offset..offset + 4]), ClientDecode(buffer[offset..]);
      if length == 0 || length > MAX_FRAME_BYTES then here == OutOfBounds
      else if offset + 4 + length > |buffer| then here == Frames([], buffer[offset..])
      else ClientPrepend(frames, here)
           == ClientPrepend(frames + [buffer[offset + 4..offset + 4 + length]],
                            ClientDecode(buffer[offset + 4 + length..]))
  {
    hide LeValue;
    var length := LeValue(buffer[offset..offset + 4]);
    assert buffer[offset..][..4] == buffer[offset..offset + 4];
    if 0 < length <= MAX_FRAME_BYTES && offset + 4 + length <= |buffer| {
      var frame, tail := buffer[offset + 4..offset + 4 + length], ClientDecode(buffer[offset + 4 + length..]);
      assert buffer[offset..][4..4 + length] == frame;
      assert buffer[offset..][4 + length..] == buffer[offset + 4 + length..];
      if tail.Frames? {
        assert frames + ([frame] + tail.frames) == (frames + [frame]) + tail.frames;
      }
    }
  }

  lemma ClientWaits(bytes: seq<byte>)
    ensures |bytes| < 4 ==> ClientDecode(bytes) == Frames([], bytes)
  {
  }

  method DecodeFrames(buffer: seq<byte>) returns (result: ClientFrames)
    ensures result == ClientDecode(buffer)
  {
    hide LeValue, ClientDecode;
    var frames: seq<seq<byte>> := [];
    var offset := 0;
    assert buffer[0..] == buffer;
    assert ClientDecode(buffer).Frames? ==> [] + ClientDecode(buffer).frames == ClientDecode(buffer).frames;
    while offset + 4 <= |buffer|
      invariant 0 <= offset <= |buffer|
      invariant ClientDecode(buffer) == ClientPrepend(frames, ClientDecode(buffer[offset..]))
    {
      ClientRound(buffer, offset, frames);
      var length := LeValue(buffer[offset..offset + 4]);
      if length == 0 || length > MAX_FRAME_BYTES {
        return OutOfBounds;
      }
      if offset + 4 + length > |buffer| {
        break;
      }
      frames := frames + [buffer[offset + 4..offset + 4 + length]];
      offset := offset + 4 + length;
    }
    ClientWaits(buffer[offset..]);
    assert frames + [] == frames;
    return Frames(frames, buffer[offset..]);
  }

  /**
   * Client and server agree: where the server waits, the client has the same
   * frames and remainder; where the server drops on a header, the client
   * reports it out of bounds.
   */
  lemma {:induction false} ClientAgrees(bytes: seq<byte>)
    ensures var s := DecodeStream(bytes);
      match s.end
      case Waiting(rest) => ClientDecode(bytes) == Frames(s.frames, rest)
      case Dropped(error) => error.InvalidUtf8? || ClientDecode(bytes) == OutOfBounds
    decreases |bytes|
  {
    hide LeValue, ValidUtf8;
    if DecodeFrame(bytes).Got? {
      ClientAgrees(DecodeFrame(bytes).rest);
    }
  }
}
