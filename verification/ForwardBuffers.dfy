/**
 Whether the reader of a forward stays inside its buffers. A chunk is read into 16384 bytes, but its command may
 announce up to 65535; and the LZ4 layer puts a raw frame into the caller's buffer before it compares lengths.
 */
module ForwardBuffers {
  import opened Bytes
  import opened Compression
  import opened Forward

  /** One read of the stream: the bytes before it, the length asked for, and the room in the buffer given. */
  datatype ReadCall = ReadCall(bytes: seq<byte>, length: nat, room: nat)

  function BoundedReads(c: Codec, bytes: seq<byte>, remaining: nat): seq<ReadCall>
    decreases |bytes|
  {
    var desired := Min(remaining, CHUNK);
    [ReadCall(bytes, desired, CHUNK)]
      + match Decode(c, bytes, desired, CHUNK)
        case Message(m, rest) => if remaining == |m| then [] else BoundedReads(c, rest, remaining - |m|)
        case _ => []
  }

  function UnboundedReads(c: Codec, bytes: seq<byte>): seq<ReadCall>
    decreases |bytes|
  {
    [ReadCall(bytes, COMMAND, COMMAND)]
      + match Decode(c, bytes, COMMAND, COMMAND)
        case Message(m, rest) =>
          var command := DecodeInt64(m);
          if command == FORWARD_END || !(0 < command <= UINT16_MAX) then []
          else
            [ReadCall(rest, command, CHUNK)]
              + (match Decode(c, rest, command, CHUNK)
                 case Message(_, rest') => UnboundedReads(c, rest')
                 case _ => [])
        case _ => []
  }

  /** Every read that a forward makes of a byte string. */
  function Reads(c: Codec, bytes: seq<byte>): seq<ReadCall> {
    [ReadCall(bytes, COMMAND, COMMAND)]
      + match Decode(c, bytes, COMMAND, COMMAND)
        case Message(m, rest) =>
          var command := DecodeInt64(m);
          if command == FORWARD_BOUNDED then
            [ReadCall(rest, COMMAND, COMMAND)]
              + (match Decode(c, rest, COMMAND, COMMAND)
                 case Message(n, rest') => BoundedReads(c, rest', DecodeLE(n))
                 case _ => [])
          else if command == FORWARD_UNBOUNDED then UnboundedReads(c, rest)
          else []
        case _ => []
  }

  /** More is on its way into the buffer than it has room for: what was asked for, a raw frame, or a packed one. */
  predicate Overruns(c: Codec, r: ReadCall) {
    match c
    case Plain => r.length > r.room && |r.bytes| > r.room
    case LZ4(_, decompress) =>
      && r.length <= UINT16_MAX && |r.bytes| > LZ4_HEADER
      && var size, body := HeaderSize(r.bytes[..LZ4_HEADER]), r.bytes[LZ4_HEADER..];
         if r.bytes[0] == 0 then size > r.room && |body| > r.room
         else && 0 < size <= |body| && decompress(body[..size]).Some?
              && r.room < |decompress(body[..size]).value| <= r.length
  }

  lemma OverrunsIsOverran(c: Codec, r: ReadCall)
    ensures Overruns(c, r) <==> Decode(c, r.bytes, r.length, r.room).Overran?
  {
  }

  ghost predicate SomeOverruns(c: Codec, rs: seq<ReadCall>) { exists r <- rs :: Overruns(c, r) }

  lemma FirstOrLater(c: Codec, first: ReadCall, later: seq<ReadCall>)
    ensures SomeOverruns(c, [first] + later) <==> Overruns(c, first) || SomeOverruns(c, later)
  {
    hide Overruns;
    assert first in [first] + later;
    forall r <- later ensures r in [first] + later {
    }
  }

  lemma {:induction false} BoundedStaysInside(c: Codec, bytes: seq<byte>, remaining: nat)
    ensures ReadBounded(c, bytes, remaining).Spilled? <==> SomeOverruns(c, BoundedReads(c, bytes, remaining))
    decreases |bytes|
  {
    hide Decode, Overruns, SomeOverruns;
    var first := ReadCall(bytes, Min(remaining, CHUNK), CHUNK);
    OverrunsIsOverran(c, first);
    FirstOrLater(c, first, BoundedReads(c, bytes, remaining)[1..]);
    NoneOverrun(c);
    var d := Decode(c, bytes, Min(remaining, CHUNK), CHUNK);
    if d.Message? && remaining != |d.m| {
      BoundedStaysInside(c, d.rest, remaining - |d.m|);
    }
  }

  lemma NoneOverrun(c: Codec)
    ensures !SomeOverruns(c, [])
  {
  }

  lemma {:induction false} UnboundedStaysInside(c: Codec, bytes: seq<byte>)
    ensures ReadUnbounded(c, bytes).Spilled? <==> SomeOverruns(c, UnboundedReads(c, bytes))
    decreases |bytes|
  {
    hide Decode, Overruns, SomeOverruns, DecodeInt64;
    var first, later := ReadCall(bytes, COMMAND, COMMAND), UnboundedReads(c, bytes)[1..];
    OverrunsIsOverran(c, first);
    FirstOrLater(c, first, later);
    NoneOverrun(c);
    var d := Decode(c, bytes, COMMAND, COMMAND);
    if d.Message? && 0 < DecodeInt64(d.m) <= UINT16_MAX {
      var second := ReadCall(d.rest, DecodeInt64(d.m), CHUNK);
      OverrunsIsOverran(c, second);
      FirstOrLater(c, second, later[1..]);
      var d' := Decode(c, d.rest, DecodeInt64(d.m), CHUNK);
      if d'.Message? {
        UnboundedStaysInside(c, d'.rest);
      }
    }
  }

  /** On any bytes at all: the reader leaves a buffer exactly when one of its reads is sent more than fits. */
  lemma ReaderStaysInsideIff(c: Codec, bytes: seq<byte>)
    ensures ReadForward(c, bytes).Spilled? <==> SomeOverruns(c, Reads(c, bytes))
  {
    hide Decode, Overruns, SomeOverruns, DecodeInt64, DecodeLE, ReadBounded, ReadUnbounded, BoundedReads, UnboundedReads;
    var first, later := ReadCall(bytes, COMMAND, COMMAND), Reads(c, bytes)[1..];
    OverrunsIsOverran(c, first);
    FirstOrLater(c, first, later);
    NoneOverrun(c);
    var d := Decode(c, bytes, COMMAND, COMMAND);
    if d.Message? {
      if DecodeInt64(d.m) == FORWARD_BOUNDED {
        var second := ReadCall(d.rest, COMMAND, COMMAND);
        OverrunsIsOverran(c, second);
        FirstOrLater(c, second, later[1..]);
        var d' := Decode(c, d.rest, COMMAND, COMMAND);
        if d'.Message? {
          BoundedStaysInside(c, d'.rest, DecodeLE(d'.m));
        }
      } else if DecodeInt64(d.m) == FORWARD_UNBOUNDED {
        UnboundedStaysInside(c, d.rest);
      }
    }
  }

  /**
   So a peer that keeps every chunk command to 16384, and every raw frame to the room of the read that meets it,
   cannot make the reader leave its buffers, whatever else it sends.
   */
  lemma ModestPeersStayInside(c: Codec, bytes: seq<byte>)
    requires forall r <- Reads(c, bytes) :: r.length <= r.room && !(c.LZ4? && RawFrameOver(r.bytes, r.room))
    ensures !ReadForward(c, bytes).Spilled?
  {
    ReaderStaysInsideIff(c, bytes);
    hide Decode, Reads, ReadForward;
    forall r <- Reads(c, bytes) ensures !Overruns(c, r) {
      OverrunsIsOverran(c, r);
      WhenAReadOverruns(c, r.bytes, r.length, r.room);
    }
  }

  /** Whatever part of a forward has arrived, the reader stays inside its buffers. */
  lemma ScriptsStayInside(c: Codec, bounded: bool, data: seq<byte>, arrived: seq<byte>)
    requires Lossless(c) && |data| < TWO_TO_64 && (bounded ==> data != [])
    requires arrived <= EncodeAll(c, Script(bounded, data))
    ensures !SomeOverruns(c, Reads(c, arrived))
  {
    ReaderStaysInsideIff(c, arrived);
    hide ReadForward, Reads, EncodeAll, Script, SomeOverruns, Lossless;
    if arrived == EncodeAll(c, Script(bounded, data)) {
      ForwardRoundTrip(c, bounded, data, []);
      assert arrived + [] == arrived;
    } else {
      ForwardCutShort(c, bounded, data, arrived);
    }
  }

  // ---- The same on the bytes of a plain stream ----

  /** Chunks, each behind its command. */
  function Blocks(chunks: seq<seq<byte>>): seq<byte> {
    if chunks == [] then [] else Command(|chunks[0]|) + (chunks[0] + Blocks(chunks[1..]))
  }

  /** Chunks that fit, and then a command for more than fits with more than fits behind it. */
  predicate Oversizes(bytes: seq<byte>, chunks: seq<seq<byte>>, n: nat, tail: seq<byte>) {
    && (forall chunk <- chunks :: 1 <= |chunk| <= CHUNK)
    && CHUNK < n <= UINT16_MAX && |tail| > CHUNK
    && bytes == Blocks(chunks) + (Command(n) + tail)
  }

  lemma {:induction false} SpillOversizes(bytes: seq<byte>)
    returns (chunks: seq<seq<byte>>, n: nat, tail: seq<byte>)
    requires ReadUnbounded(Plain, bytes).Spilled?
    ensures Oversizes(bytes, chunks, n, tail)
    decreases |bytes|
  {
    hide EncodeInt64, DecodeInt64;
    n, tail := DecodeInt64(bytes[..COMMAND]), bytes[COMMAND..];
    EncodeDecodeInt64(bytes[..COMMAND]);
    assert bytes == Command(n) + tail;
    if n > CHUNK {
      chunks := [];
      assert Blocks(chunks) + (Command(n) + tail) == bytes;
    } else {
      var chunk, rest := tail[..n], tail[n..];
      assert tail == chunk + rest;
      chunks, n, tail := SpillOversizes(rest);
      OneMoreBlock(chunk, chunks, Command(n) + tail);
      chunks := [chunk] + chunks;
    }
  }

  lemma OneMoreBlock(chunk: seq<byte>, chunks: seq<seq<byte>>, rest: seq<byte>)
    ensures Blocks([chunk] + chunks) + rest == Command(|chunk|) + (chunk + (Blocks(chunks) + rest))
  {
    hide EncodeInt64;
    assert ([chunk] + chunks)[1..] == chunks;
  }

  lemma {:induction false} OversizesSpills(bytes: seq<byte>, chunks: seq<seq<byte>>, n: nat, tail: seq<byte>)
    requires Oversizes(bytes, chunks, n, tail)
    ensures ReadUnbounded(Plain, bytes).Spilled?
    decreases |chunks|
  {
    hide EncodeInt64, DecodeInt64, ReadUnbounded;
    if chunks == [] {
      assert bytes == Command(n) + tail;
      LargeCommandSpills(n, tail);
    } else {
      var chunk, later := chunks[0], chunks[1..];
      assert chunks == [chunk] + later;
      OneMoreBlock(chunk, later, Command(n) + tail);
      var rest := Blocks(later) + (Command(n) + tail);
      UnboundedStep(Plain, chunk, rest);
      OversizesSpills(rest, later, n, tail);
    }
  }

  lemma LargeCommandSpills(n: nat, tail: seq<byte>)
    requires CHUNK < n <= UINT16_MAX && |tail| > CHUNK
    ensures ReadUnbounded(Plain, Command(n) + tail).Spilled?
  {
    hide EncodeInt64, DecodeInt64;
    DecodeEncodeInt64(n);
    DecodeEncode(Plain, Command(n), tail, COMMAND);
  }

  lemma {:induction false} BoundedNeverSpills(bytes: seq<byte>, remaining: nat)
    ensures !ReadBounded(Plain, bytes, remaining).Spilled?
    decreases |bytes|
  {
    var d := Decode(Plain, bytes, Min(remaining, CHUNK), CHUNK);
    if d.Message? && remaining != |d.m| {
      BoundedNeverSpills(d.rest, remaining - |d.m|);
    }
  }

  /**
   The reader of a plain stream leaves its buffer exactly on an unbounded forward that, after chunks of up to 16384
   bytes, commands a chunk of 16385 to 65535, with at least 16385 bytes behind the command.
   */
  lemma PlainReaderSpillsIff(bytes: seq<byte>)
    ensures ReadForward(Plain, bytes).Spilled?
      <==> |bytes| >= COMMAND && bytes[..COMMAND] == Command(FORWARD_UNBOUNDED)
           && exists chunks, n, tail :: Oversizes(bytes[COMMAND..], chunks, n, tail)
  {
    hide EncodeInt64, DecodeInt64, ReadUnbounded, ReadBounded, Oversizes;
    if |bytes| >= COMMAND {
      EncodeDecodeInt64(bytes[..COMMAND]);
      DecodeEncodeInt64(FORWARD_UNBOUNDED);
      var rest := bytes[COMMAND..];
      if |rest| >= COMMAND {
        BoundedNeverSpills(rest[COMMAND..], DecodeLE(rest[..COMMAND]));
      }
      if ReadUnbounded(Plain, rest).Spilled? {
        var chunks, n, tail := SpillOversizes(rest);
      }
      forall chunks, n, tail | Oversizes(rest, chunks, n, tail) ensures ReadUnbounded(Plain, rest).Spilled? {
        OversizesSpills(rest, chunks, n, tail);
      }
    }
  }

  /** A chunk command that the reader accepts, of more than its buffer holds, followed by that many bytes. */
  lemma OversizedChunkSpills(chunk: seq<byte>, tail: seq<byte>)
    requires CHUNK < |chunk| <= UINT16_MAX
    ensures ReadForward(Plain, Command(FORWARD_UNBOUNDED) + (Command(|chunk|) + (chunk + tail)))
         == Spilled([], [COMMAND, COMMAND, |chunk|])
  {
    hide EncodeInt64, DecodeInt64;
    var rest := Command(|chunk|) + (chunk + tail);
    DecodeEncodeInt64(FORWARD_UNBOUNDED);
    DecodeEncodeInt64(|chunk|);
    DecodeEncode(Plain, Command(FORWARD_UNBOUNDED), rest, COMMAND);
    DecodeEncode(Plain, Command(|chunk|), chunk + tail, COMMAND);
    assert [COMMAND] + [COMMAND, |chunk|] == [COMMAND, COMMAND, |chunk|];
  }
}
