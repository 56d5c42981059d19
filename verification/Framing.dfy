/** Length-prefixed frames: decoding does not depend on how the stream is cut into chunks. */
module Framing {
  import opened Wrappers

  newtype byte = x: int | 0 <= x < 256

  const HEADER: nat := 4
  const MAX_FRAME: nat := 1048576
  const MAX_BUFFER: nat := 4 * MAX_FRAME

  datatype FrameError = FrameTooLarge | BufferTooLarge | BadPayload | TrailingBytes

  /** What a payload decodes to; None when it is no JSON text. */
  type Codec<V> = seq<byte> -> Option<V>

  /** A 32-bit number in big-endian order. */
  function Header(n: nat): (h: seq<byte>)
    requires n < 0x1_0000_0000
    ensures |h| == HEADER && ReadHeader(h) == n
  {
    var a := n / 256;
    var b := a / 256;
    var c := b / 256;
    [c as byte, (b % 256) as byte, (a % 256) as byte, (n % 256) as byte]
  }

  function ReadHeader(b: seq<byte>): nat
    requires |b| >= HEADER
  {
    ((b[0] as nat * 256 + b[1] as nat) * 256 + b[2] as nat) * 256 + b[3] as nat
  }

  /** The most significant byte comes first. */
  lemma {:induction false} HeaderBytes(n: nat)
    requires n < 0x1_0000_0000
    ensures var h := Header(n);
            h[0] as nat == n / 0x100_0000 && h[1] as nat == n / 0x1_0000 % 0x100 && h[2] as nat == n / 0x100 % 0x100 &&
            h[3] as nat == n % 0x100
  {
    assert n / 0x100 / 0x100 == n / 0x1_0000 && n / 0x100 / 0x100 / 0x100 == n / 0x100_0000;
  }

  function EncodeFrame(payload: seq<byte>): Result<seq<byte>, FrameError> {
    if |payload| > MAX_FRAME then Err(FrameTooLarge) else Ok(Header(|payload|) + payload)
  }

  /** The values of the complete frames at the front of a buffer, and what is left. */
  datatype Parsed<V> = Parsed(values: seq<V>, rest: seq<byte>)

  /** Values decoded before further ones. */
  function Before<V>(values: seq<V>, more: Result<Parsed<V>, FrameError>): Result<Parsed<V>, FrameError> {
    if more.Err? then more else Ok(Parsed(values + more.value.values, more.value.rest))
  }

  function Decode<V>(codec: Codec<V>, b: seq<byte>): Result<Parsed<V>, FrameError>
    decreases |b|
  {
    if |b| < HEADER then Ok(Parsed([], b))
    else if ReadHeader(b) > MAX_FRAME then Err(FrameTooLarge)
    else if |b| < HEADER + ReadHeader(b) then Ok(Parsed([], b))
    else
      var end := HEADER + ReadHeader(b);
      var value := codec(b[HEADER..end]);
      if value.None? then Err(BadPayload) else Before([value.value], Decode(codec, b[end..]))
  }

  lemma {:induction false} BeforeNothing<V>(more: Result<Parsed<V>, FrameError>)
    ensures Before([], more) == more
  {
    if more.Ok? { assert [] + more.value.values == more.value.values; }
  }

  lemma {:induction false} BeforeTwice<V>(x: seq<V>, y: seq<V>, more: Result<Parsed<V>, FrameError>)
    ensures Before(x, Before(y, more)) == Before(x + y, more)
  {
    if more.Ok? { assert x + (y + more.value.values) == x + y + more.value.values; }
  }

  /** More bytes behind a buffer: its complete frames come first, and what it left is decoded with the new bytes. */
  lemma {:induction false} DecodeMore<V>(codec: Codec<V>, b: seq<byte>, c: seq<byte>)
    requires Decode(codec, b).Ok?
    ensures Decode(codec, b + c) == Before(Decode(codec, b).value.values, Decode(codec, Decode(codec, b).value.rest + c))
    decreases |b|
  {
    if |b| >= HEADER && |b| >= HEADER + ReadHeader(b) {
      var end := HEADER + ReadHeader(b);
      FirstFrame(b, c);
      DecodeMore(codec, b[end..], c);
      var first := Decode(codec, b[end..]).value;
      BeforeTwice([codec(b[HEADER..end]).value], first.values, Decode(codec, first.rest + c));
    } else {
      BeforeNothing(Decode(codec, b + c));
    }
  }

  /** Later bytes leave the first frame as it is. */
  lemma {:induction false} FirstFrame(b: seq<byte>, c: seq<byte>)
    requires |b| >= HEADER && |b| >= HEADER + ReadHeader(b)
    ensures var end := HEADER + ReadHeader(b);
            ReadHeader(b + c) == ReadHeader(b) && (b + c)[HEADER..end] == b[HEADER..end] && (b + c)[end..] == b[end..] + c
  {
  }

  /** What is left holds no complete frame. */
  lemma {:induction false} NothingComplete<V>(codec: Codec<V>, b: seq<byte>)
    requires Decode(codec, b).Ok?
    ensures var rest := Decode(codec, b).value.rest; |rest| < HEADER || |rest| < HEADER + ReadHeader(rest)
    decreases |b|
  {
    if |b| >= HEADER && |b| >= HEADER + ReadHeader(b) { NothingComplete(codec, b[HEADER + ReadHeader(b)..]); }
  }

  // ----- streams of frames -------------------------------------------------------

  predicate Decodable<V>(codec: Codec<V>, payloads: seq<seq<byte>>) {
    forall i :: 0 <= i < |payloads| ==> |payloads[i]| <= MAX_FRAME && codec(payloads[i]).Some?
  }

  function Stream<V>(codec: Codec<V>, payloads: seq<seq<byte>>): seq<byte>
    requires Decodable(codec, payloads)
  {
    if payloads == [] then [] else EncodeFrame(payloads[0]).value + Stream(codec, payloads[1..])
  }

  function Values<V>(codec: Codec<V>, payloads: seq<seq<byte>>): seq<V>
    requires Decodable(codec, payloads)
  {
    if payloads == [] then [] else [codec(payloads[0]).value] + Values(codec, payloads[1..])
  }

  /** Decoding encoded frames gives back their values in order, with nothing left. */
  lemma {:induction false} DecodeStream<V>(codec: Codec<V>, payloads: seq<seq<byte>>)
    requires Decodable(codec, payloads)
    ensures Decode(codec, Stream(codec, payloads)) == Ok(Parsed(Values(codec, payloads), []))
  {
    if payloads != [] {
      var p, more := payloads[0], Stream(codec, payloads[1..]);
      var b := Header(|p|) + p + more;
      assert ReadHeader(b) == ReadHeader(Header(|p|)) == |p|;
      assert b[HEADER..HEADER + |p|] == p && b[HEADER + |p|..] == more;
      DecodeStream(codec, payloads[1..]);
    }
  }

  // ----- the decoder -------------------------------------------------------------

  /** One push, given what is buffered. */
  function Pushed<V>(codec: Codec<V>, buffer: seq<byte>, chunk: seq<byte>): Result<Parsed<V>, FrameError> {
    if |buffer| + |chunk| > MAX_BUFFER then Err(BufferTooLarge) else Decode(codec, buffer + chunk)
  }

  /** Pushing chunk after chunk, from a given buffer. */
  function PushAll<V>(codec: Codec<V>, buffer: seq<byte>, chunks: seq<seq<byte>>): Result<Parsed<V>, FrameError>
    decreases chunks
  {
    if chunks == [] then Ok(Parsed([], buffer))
    else
      var first := Pushed(codec, buffer, chunks[0]);
      if first.Err? then first else Before(first.value.values, PushAll(codec, first.value.rest, chunks[1..]))
  }

  function Joined(chunks: seq<seq<byte>>): seq<byte> {
    if chunks == [] then [] else chunks[0] + Joined(chunks[1..])
  }

  lemma {:induction false} ChunkStep<V>(codec: Codec<V>, buffer: seq<byte>, chunk: seq<byte>, later: seq<byte>)
    requires Decode(codec, buffer + chunk).Ok?
    ensures var first := Decode(codec, buffer + chunk).value;
            Decode(codec, buffer + (chunk + later)) == Before(first.values, Decode(codec, first.rest + later))
  {
    DecodeMore(codec, buffer + chunk, later);
    assert buffer + (chunk + later) == buffer + chunk + later;
  }

  /** However a text is cut into chunks: if every push succeeds, together they decode what one decode of it decodes. */
  lemma {:induction false} ChunksDecode<V>(codec: Codec<V>, buffer: seq<byte>, chunks: seq<seq<byte>>)
    requires PushAll(codec, buffer, chunks).Ok? && Decode(codec, buffer) == Ok(Parsed([], buffer))
    ensures Decode(codec, buffer + Joined(chunks)) == PushAll(codec, buffer, chunks)
    decreases chunks
  {
    if chunks == [] {
      assert buffer + [] == buffer;
    } else {
      RestIsRest(codec, buffer + chunks[0]);
      ChunksDecode(codec, Decode(codec, buffer + chunks[0]).value.rest, chunks[1..]);
      ChunkStep(codec, buffer, chunks[0], Joined(chunks[1..]));
    }
  }

  lemma {:induction false} RestIsRest<V>(codec: Codec<V>, b: seq<byte>)
    requires Decode(codec, b).Ok?
    ensures Decode(codec, Decode(codec, b).value.rest) == Ok(Parsed([], Decode(codec, b).value.rest))
    decreases |b|
  {
    if |b| >= HEADER && |b| >= HEADER + ReadHeader(b) { RestIsRest(codec, b[HEADER + ReadHeader(b)..]); }
  }

  /** A stream of encoded frames, cut anywhere: the pushes together return exactly the values, in order, and leave nothing. */
  lemma {:induction false} ChunkingDoesNotMatter<V>(codec: Codec<V>, payloads: seq<seq<byte>>, chunks: seq<seq<byte>>)
    requires Decodable(codec, payloads) && Joined(chunks) == Stream(codec, payloads)
    ensures PushAll(codec, [], chunks).Ok? ==> PushAll(codec, [], chunks) == Ok(Parsed(Values(codec, payloads), []))
    ensures PushAll(codec, [], chunks).Err? ==> PushAll(codec, [], chunks).error == BufferTooLarge
  {
    DecodeStream(codec, payloads);
    assert [] + Joined(chunks) == Stream(codec, payloads);
    if PushAll(codec, [], chunks).Ok? {
      ChunksDecode(codec, [], chunks);
    } else {
      OnlyLimitFails(codec, [], chunks);
    }
  }

  /** While the whole text decodes, a push can fail only by the buffer limit. */
  lemma {:induction false} OnlyLimitFails<V>(codec: Codec<V>, buffer: seq<byte>, chunks: seq<seq<byte>>)
    requires Decode(codec, buffer + Joined(chunks)).Ok? && PushAll(codec, buffer, chunks).Err?
    ensures PushAll(codec, buffer, chunks).error == BufferTooLarge
    decreases chunks
  {
    if chunks != [] {
      assert buffer + Joined(chunks) == buffer + chunks[0] + Joined(chunks[1..]);
      PrefixDecodes(codec, buffer + chunks[0], Joined(chunks[1..]));
      if Pushed(codec, buffer, chunks[0]).Ok? {
        DecodeMore(codec, buffer + chunks[0], Joined(chunks[1..]));
        OnlyLimitFails(codec, Pushed(codec, buffer, chunks[0]).value.rest, chunks[1..]);
      }
    }
  }

  /** A beginning of a text that decodes decodes as well. */
  lemma {:induction false} PrefixDecodes<V>(codec: Codec<V>, b: seq<byte>, c: seq<byte>)
    requires Decode(codec, b + c).Ok?
    ensures Decode(codec, b).Ok?
    decreases |b|
  {
    if |b| >= HEADER && |b| >= HEADER + ReadHeader(b) {
      var end := HEADER + ReadHeader(b);
      assert (b + c)[HEADER..end] == b[HEADER..end] && (b + c)[end..] == b[end..] + c;
      PrefixDecodes(codec, b[end..], c);
    }
  }

  /** What is left is shorter than the longest frame. */
  lemma {:induction false} RestIsShort<V>(codec: Codec<V>, b: seq<byte>)
    requires Decode(codec, b).Ok?
    ensures |Decode(codec, b).value.rest| < HEADER + MAX_FRAME
    decreases |b|
  {
    if |b| >= HEADER && |b| >= HEADER + ReadHeader(b) { RestIsShort(codec, b[HEADER + ReadHeader(b)..]); }
  }

  /** Every chunk fits behind the longest beginning of a frame that can be buffered. */
  predicate SmallChunks(chunks: seq<seq<byte>>) {
    forall i :: 0 <= i < |chunks| ==> |chunks[i]| <= MAX_BUFFER - (HEADER + MAX_FRAME - 1)
  }

  /** Small chunks never meet the buffer limit, however many there are. */
  lemma {:induction false} SmallChunksFit<V>(codec: Codec<V>, buffer: seq<byte>, chunks: seq<seq<byte>>)
    requires SmallChunks(chunks) && |buffer| < HEADER + MAX_FRAME && Decode(codec, buffer + Joined(chunks)).Ok?
    ensures PushAll(codec, buffer, chunks).Ok?
    decreases chunks
  {
    if chunks != [] {
      assert buffer + Joined(chunks) == buffer + chunks[0] + Joined(chunks[1..]);
      PrefixDecodes(codec, buffer + chunks[0], Joined(chunks[1..]));
      RestIsShort(codec, buffer + chunks[0]);
      DecodeMore(codec, buffer + chunks[0], Joined(chunks[1..]));
      SmallChunksFit(codec, Pushed(codec, buffer, chunks[0]).value.rest, chunks[1..]);
    }
  }

  /** A stream of encoded frames cut into small chunks always arrives whole. */
  lemma {:induction false} SmallChunksArrive<V>(codec: Codec<V>, payloads: seq<seq<byte>>, chunks: seq<seq<byte>>)
    requires Decodable(codec, payloads) && Joined(chunks) == Stream(codec, payloads) && SmallChunks(chunks)
    ensures PushAll(codec, [], chunks) == Ok(Parsed(Values(codec, payloads), []))
  {
    DecodeStream(codec, payloads);
    assert [] + Joined(chunks) == Stream(codec, payloads);
    SmallChunksFit(codec, [], chunks);
    ChunkingDoesNotMatter(codec, payloads, chunks);
  }

  class FrameDecoder<V> {
    const codec: Codec<V>
    var buffer: seq<byte>

    constructor (codec: Codec<V>)
      ensures this.codec == codec && buffer == []
    {
      this.codec, buffer := codec, [];
    }

    /** Add a chunk and take every complete frame. */
    method Push(chunk: seq<byte>) returns (r: Result<seq<V>, FrameError>)
      modifies this
      ensures var p := Pushed(codec, old(buffer), chunk);
              if p.Ok? then r == Ok(p.value.values) && buffer == p.value.rest else r == Err(p.error)
    {
      if |buffer| + |chunk| > MAX_BUFFER { return Err(BufferTooLarge); }
      buffer := buffer + chunk;
      ghost var whole := buffer;
      var decoded: seq<V> := [];
      BeforeNothing(Decode(codec, buffer));
      while |buffer| >= HEADER
        invariant Decode(codec, whole) == Before(decoded, Decode(codec, buffer))
        decreases |buffer|
      {
        var length := ReadHeader(buffer);
        if length > MAX_FRAME { return Err(FrameTooLarge); }
        if |buffer| < HEADER + length { break; }
        var value := codec(buffer[HEADER..HEADER + length]);
        if value.None? { return Err(BadPayload); }
        BeforeTwice(decoded, [value.value], Decode(codec, buffer[HEADER + length..]));
        decoded := decoded + [value.value];
        buffer := buffer[HEADER + length..];
      }
      assert decoded + [] == decoded;
      return Ok(decoded);
    }

    method Finish() returns (r: Result<seq<V>, FrameError>)
      ensures r == if buffer == [] then Ok([]) else Err(TrailingBytes)
    {
      return if |buffer| != 0 then Err(TrailingBytes) else Ok([]);
    }
  }

  /** Decode a complete buffer at once. */
  method DecodeFrames<V>(codec: Codec<V>, b: seq<byte>) returns (r: Result<seq<V>, FrameError>)
    ensures var p := Pushed(codec, [], b);
            r == if p.Err? then Err(p.error) else if p.value.rest != [] then Err(TrailingBytes) else Ok(p.value.values)
  {
    var decoder := new FrameDecoder(codec);
    var decoded := decoder.Push(b);
    if decoded.Err? { return decoded; }
    var end := decoder.Finish();
    return if end.Err? then end else decoded;
  }
}
