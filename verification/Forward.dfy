/**
 File forwarding over a stream. The writer announces whether it knows the length; the reader follows.
 Both ends must name the same message lengths in the same order, because one read takes one frame.
 */
module Forward {
  import opened Bytes
  import opened Pipes
  import opened Compression
  import opened Streams

  const FORWARD_BOUNDED := -2
  const FORWARD_UNBOUNDED := -3
  const FORWARD_END := -4
  const COMMAND := 8
  const CHUNK := 16384

  function Command(x: int): seq<byte> { EncodeInt64(x) }

  /** The messages that carry the data; an unbounded forward puts a length before each chunk. */
  function Body(bounded: bool, data: seq<byte>): seq<seq<byte>>
    decreases |data|
  {
    if data == [] then []
    else
      var n := Min(|data|, CHUNK);
      (if bounded then [data[..n]] else [Command(n), data[..n]]) + Body(bounded, data[n..])
  }

  function Prologue(bounded: bool, length: nat): seq<seq<byte>> {
    if bounded then [Command(FORWARD_BOUNDED), EncodeLE(length, 8)] else [Command(FORWARD_UNBOUNDED)]
  }

  function Epilogue(bounded: bool): seq<seq<byte>> {
    if bounded then [] else [Command(FORWARD_END)]
  }

  /** Every message of one forward of `data`. */
  function Script(bounded: bool, data: seq<byte>): seq<seq<byte>> {
    Prologue(bounded, |data|) + Body(bounded, data) + Epilogue(bounded)
  }

  function Lengths(ms: seq<seq<byte>>): (ls: seq<nat>)
    ensures |ls| == |ms|
  {
    seq(|ms|, i requires 0 <= i < |ms| => |ms[i]|)
  }

  // ---- What the reader makes of a byte string ----

  /**
   Dry: the bytes ran out, at a place where a command was due or inside data.
   Broken: an assertion failed. Spilled: a read went past the end of its buffer. `lengths` are the read requests
   issued so far.
   */
  datatype Outcome =
    | Finished(out: seq<byte>, rest: seq<byte>, lengths: seq<nat>)
    | Dry(out: seq<byte>, lengths: seq<nat>, atCommand: bool)
    | Broken(out: seq<byte>, lengths: seq<nat>)
    | Spilled(out: seq<byte>, lengths: seq<nat>)

  function After(out: seq<byte>, lengths: seq<nat>, o: Outcome): Outcome {
    match o
    case Finished(out', rest, lengths') => Finished(out + out', rest, lengths + lengths')
    case Dry(out', lengths', at) => Dry(out + out', lengths + lengths', at)
    case Broken(out', lengths') => Broken(out + out', lengths + lengths')
    case Spilled(out', lengths') => Spilled(out + out', lengths + lengths')
  }

  function ReadBounded(c: Codec, bytes: seq<byte>, remaining: nat): Outcome
    decreases |bytes|
  {
    var desired := Min(remaining, CHUNK);
    match Decode(c, bytes, desired, CHUNK)
    case Message(m, rest) =>
      if remaining == |m| then Finished(m, rest, [desired])
      else After(m, [desired], ReadBounded(c, rest, remaining - |m|))
    case Starved(partial) => Dry(partial, [desired], false)
    case Fatal => Broken([], [desired])
    case Overran => Spilled([], [desired])
  }

  function ReadUnbounded(c: Codec, bytes: seq<byte>): Outcome
    decreases |bytes|
  {
    match Decode(c, bytes, COMMAND, COMMAND)
    case Starved(_) => Dry([], [COMMAND], true)
    case Fatal => Broken([], [COMMAND])
    case Overran => Spilled([], [COMMAND])
    case Message(m, rest) =>
      var command := DecodeInt64(m);
      if command == FORWARD_END then Finished([], rest, [COMMAND])
      else if !(0 < command <= UINT16_MAX) then Broken([], [COMMAND])
      else match Decode(c, rest, command, CHUNK)
        case Message(chunk, rest') => After(chunk, [COMMAND, command], ReadUnbounded(c, rest'))
        case Starved(partial) => Dry(partial, [COMMAND, command], false)
        case Fatal => Broken([], [COMMAND, command])
        case Overran => Spilled([], [COMMAND, command])
  }

  function ReadForward(c: Codec, bytes: seq<byte>): Outcome {
    match Decode(c, bytes, COMMAND, COMMAND)
    case Starved(_) => Dry([], [COMMAND], true)
    case Fatal => Broken([], [COMMAND])
    case Overran => Spilled([], [COMMAND])
    case Message(m, rest) =>
      var command := DecodeInt64(m);
      if command == FORWARD_BOUNDED then
        match Decode(c, rest, COMMAND, COMMAND)
        case Starved(_) => Dry([], [COMMAND, COMMAND], true)
        case Fatal => Broken([], [COMMAND, COMMAND])
        case Overran => Spilled([], [COMMAND, COMMAND])
        case Message(n, rest') => After([], [COMMAND, COMMAND], ReadBounded(c, rest', DecodeLE(n)))
      else if command == FORWARD_UNBOUNDED then After([], [COMMAND], ReadUnbounded(c, rest))
      else Broken([], [COMMAND])
  }

  // ---- The reader undoes the writer ----

  lemma LengthsAppend(a: seq<seq<byte>>, b: seq<seq<byte>>)
    ensures Lengths(a + b) == Lengths(a) + Lengths(b)
  {
  }

  lemma EncodeAllCons(c: Codec, m: seq<byte>, ms: seq<seq<byte>>, tail: seq<byte>)
    ensures EncodeAll(c, [m] + ms) + tail == Encode(c, m) + (EncodeAll(c, ms) + tail)
  {
    assert ([m] + ms)[1..] == ms;
  }

  lemma {:induction false} BoundedRoundTrip(c: Codec, data: seq<byte>, tail: seq<byte>)
    requires Lossless(c) && data != []
    ensures ReadBounded(c, EncodeAll(c, Body(true, data)) + tail, |data|)
         == Finished(data, tail, Lengths(Body(true, data)))
    decreases |data|
  {
    hide Decode, Encode, EncodeInt64, DecodeInt64, EncodeLE, DecodeLE;
    var n := Min(|data|, CHUNK);
    var chunk, later := data[..n], Body(true, data[n..]);
    var rest := EncodeAll(c, later) + tail;
    EncodeAllCons(c, chunk, later, tail);
    DecodeEncode(c, chunk, rest, CHUNK);
    LengthsAppend([chunk], later);
    assert data == chunk + data[n..];
    if n < |data| {
      BoundedRoundTrip(c, data[n..], tail);
    } else {
      assert rest == tail;
    }
  }

  /** One chunk of an unbounded forward, seen from the reader. */
  lemma UnboundedStep(c: Codec, chunk: seq<byte>, rest: seq<byte>)
    requires Lossless(c) && 0 < |chunk| <= CHUNK
    ensures ReadUnbounded(c, Encode(c, Command(|chunk|)) + (Encode(c, chunk) + rest))
         == After(chunk, [COMMAND, |chunk|], ReadUnbounded(c, rest))
  {
    hide Decode, Encode, EncodeInt64, DecodeInt64, EncodeLE, DecodeLE, Lossless;
    DecodeEncodeInt64(|chunk|);
    DecodeEncode(c, Command(|chunk|), Encode(c, chunk) + rest, COMMAND);
    DecodeEncode(c, chunk, rest, CHUNK);
  }

  lemma UnboundedEnd(c: Codec, tail: seq<byte>)
    requires Lossless(c)
    ensures ReadUnbounded(c, Encode(c, Command(FORWARD_END)) + tail) == Finished([], tail, [COMMAND])
  {
    hide Decode, Encode, EncodeInt64, DecodeInt64, EncodeLE, DecodeLE, Lossless;
    DecodeEncodeInt64(FORWARD_END);
    DecodeEncode(c, Command(FORWARD_END), tail, COMMAND);
  }

  /** The messages of a non-empty unbounded forward: the first chunk's pair, then the rest. */
  lemma UnboundedBody(c: Codec, data: seq<byte>, tail: seq<byte>)
    requires data != []
    ensures var n := Min(|data|, CHUNK);
            var all, later := Body(false, data) + Epilogue(false), Body(false, data[n..]) + Epilogue(false);
            && all == [Command(n)] + ([data[..n]] + later)
            && Lengths(all) == [COMMAND, n] + Lengths(later)
            && EncodeAll(c, all) + tail
            == Encode(c, Command(n)) + (Encode(c, data[..n]) + (EncodeAll(c, later) + tail))
  {
    hide Encode, EncodeInt64;
    var n := Min(|data|, CHUNK);
    var later := Body(false, data[n..]) + Epilogue(false);
    assert Body(false, data) == [Command(n), data[..n]] + Body(false, data[n..]);
    assert Body(false, data) + Epilogue(false) == [Command(n)] + ([data[..n]] + later);
    EncodeAllCons(c, data[..n], later, tail);
    EncodeAllCons(c, Command(n), [data[..n]] + later, tail);
  }

  lemma {:induction false} UnboundedRoundTrip(c: Codec, data: seq<byte>, tail: seq<byte>)
    requires Lossless(c)
    ensures ReadUnbounded(c, EncodeAll(c, Body(false, data) + Epilogue(false)) + tail)
         == Finished(data, tail, Lengths(Body(false, data) + Epilogue(false)))
    decreases |data|
  {
    hide Encode, EncodeInt64, ReadUnbounded, Lossless;
    if data == [] {
      UnboundedEnd(c, tail);
      assert Body(false, []) + Epilogue(false) == [Command(FORWARD_END)] + [];
      EncodeAllCons(c, Command(FORWARD_END), [], tail);
      assert EncodeAll(c, []) + tail == tail;
    } else {
      hide Body, EncodeAll, Epilogue;
      var n := Min(|data|, CHUNK);
      var later := Body(false, data[n..]) + Epilogue(false);
      UnboundedBody(c, data, tail);
      UnboundedStep(c, data[..n], EncodeAll(c, later) + tail);
      UnboundedRoundTrip(c, data[n..], tail);
      assert data == data[..n] + data[n..];
    }
  }

  lemma BoundedForward(c: Codec, data: seq<byte>, tail: seq<byte>)
    requires Lossless(c) && 0 < |data| < TWO_TO_64
    ensures ReadForward(c, EncodeAll(c, Script(true, data)) + tail)
         == Finished(data, tail, Lengths(Script(true, data)))
  {
    hide Decode, Encode, EncodeInt64, DecodeInt64, EncodeLE, DecodeLE, Body, ReadBounded, ReadUnbounded, Lossless;
    var all, later, length := Script(true, data), Body(true, data), EncodeLE(|data|, 8);
    var rest := EncodeAll(c, later) + tail;
    Capacities();
    assert all == [Command(FORWARD_BOUNDED)] + ([length] + later);
    EncodeAllCons(c, length, later, tail);
    EncodeAllCons(c, Command(FORWARD_BOUNDED), [length] + later, tail);
    DecodeEncodeInt64(FORWARD_BOUNDED);
    DecodeEncodeLE(|data|, 8);
    DecodeEncode(c, Command(FORWARD_BOUNDED), Encode(c, length) + rest, COMMAND);
    DecodeEncode(c, length, rest, COMMAND);
    hide EncodeAll;
    BoundedRoundTrip(c, data, tail);
    LengthsAppend([Command(FORWARD_BOUNDED), length], later);
    assert [Command(FORWARD_BOUNDED), length] + later == all;
  }

  lemma UnboundedForward(c: Codec, data: seq<byte>, tail: seq<byte>)
    requires Lossless(c)
    ensures ReadForward(c, EncodeAll(c, Script(false, data)) + tail)
         == Finished(data, tail, Lengths(Script(false, data)))
  {
    hide Decode, Encode, EncodeInt64, DecodeInt64, EncodeLE, DecodeLE, Body, ReadBounded, ReadUnbounded, Lossless;
    var later := Body(false, data) + Epilogue(false);
    var rest := EncodeAll(c, later) + tail;
    assert Script(false, data) == [Command(FORWARD_UNBOUNDED)] + later;
    EncodeAllCons(c, Command(FORWARD_UNBOUNDED), later, tail);
    DecodeEncodeInt64(FORWARD_UNBOUNDED);
    DecodeEncode(c, Command(FORWARD_UNBOUNDED), rest, COMMAND);
    hide EncodeAll;
    UnboundedRoundTrip(c, data, tail);
    LengthsAppend([Command(FORWARD_UNBOUNDED)], later);
  }

  /**
   The reader issues exactly the writer's message lengths, in order, produces exactly the data and stops
   exactly at the end of what the writer wrote, whatever follows on the pipe.
   */
  lemma ForwardRoundTrip(c: Codec, bounded: bool, data: seq<byte>, tail: seq<byte>)
    requires Lossless(c) && |data| < TWO_TO_64
    requires bounded ==> data != []
    ensures ReadForward(c, EncodeAll(c, Script(bounded, data)) + tail)
         == Finished(data, tail, Lengths(Script(bounded, data)))
  {
    hide ReadForward, EncodeAll, Script, Lossless;
    if bounded {
      BoundedForward(c, data, tail);
    } else {
      UnboundedForward(c, data, tail);
    }
  }

  // ---- Partial arrival ----

  /** Reading from a proper prefix of a message and its successors: the message whole, or nothing of it. */
  lemma DecodePrefix(c: Codec, m: seq<byte>, later: seq<byte>, cut: seq<byte>, room: nat) returns (cut': seq<byte>)
    requires Lossless(c) && IsMessage(m) && |m| <= room && cut < Encode(c, m) + later
    ensures var r := Decode(c, cut, |m|, room);
            if |cut| < |Encode(c, m)| then r.Starved? && r.partial <= m
            else r == Message(m, cut') && cut' < later
  {
    var e := Encode(c, m);
    cut' := [];
    hide Decode, Encode;
    if |cut| < |e| {
      assert cut == (e + later)[..|cut|] == e[..|cut|];
      DecodeCutShort(c, m, cut, room);
    } else {
      cut' := cut[|e|..];
      assert cut == (e + later)[..|cut|];
      assert cut == e + cut';
      assert cut' == later[..|cut'|];
      DecodeEncode(c, m, cut', room);
    }
  }

  lemma {:induction false} BoundedCutShort(c: Codec, data: seq<byte>, cut: seq<byte>)
    requires Lossless(c) && data != [] && cut < EncodeAll(c, Body(true, data))
    ensures var o := ReadBounded(c, cut, |data|);
            o.Dry? && o.out <= data && o.lengths <= Lengths(Body(true, data))
    decreases |data|
  {
    hide Decode, Encode;
    var n := Min(|data|, CHUNK);
    var chunk, later := data[..n], Body(true, data[n..]);
    EncodeAllCons(c, chunk, later, []);
    LengthsAppend([chunk], later);
    var cut' := DecodePrefix(c, chunk, EncodeAll(c, later), cut, CHUNK);
    assert data == chunk + data[n..];
    if |cut| >= |Encode(c, chunk)| && n < |data| {
      BoundedCutShort(c, data[n..], cut');
    }
  }

  /** One chunk of an unbounded forward, when what follows is cut off somewhere: it is read whole, or in part. */
  lemma ChunkCutShort(c: Codec, chunk: seq<byte>, later: seq<byte>, cut: seq<byte>) returns (cut': seq<byte>)
    requires Lossless(c) && 0 < |chunk| <= CHUNK
    requires cut < Encode(c, Command(|chunk|)) + (Encode(c, chunk) + later)
    ensures var o := ReadUnbounded(c, cut);
            || (o.Dry? && o.out <= chunk && o.lengths <= [COMMAND, |chunk|])
            || (cut' < later && o == After(chunk, [COMMAND, |chunk|], ReadUnbounded(c, cut')))
  {
    hide Decode, Encode, EncodeInt64, DecodeInt64, Lossless;
    DecodeEncodeInt64(|chunk|);
    cut' := DecodePrefix(c, Command(|chunk|), Encode(c, chunk) + later, cut, COMMAND);
    if |cut| >= |Encode(c, Command(|chunk|))| {
      cut' := DecodePrefix(c, chunk, later, cut', CHUNK);
    }
  }

  lemma EndCutShort(c: Codec, cut: seq<byte>)
    requires Lossless(c) && cut < EncodeAll(c, Epilogue(false))
    ensures ReadUnbounded(c, cut) == Dry([], [COMMAND], true)
  {
    hide Decode, Encode, EncodeInt64, Lossless;
    assert Epilogue(false) == [Command(FORWARD_END)] + [];
    EncodeAllCons(c, Command(FORWARD_END), [], []);
    var cut' := DecodePrefix(c, Command(FORWARD_END), [], cut, COMMAND);
  }

  lemma {:induction false} UnboundedCutShort(c: Codec, data: seq<byte>, cut: seq<byte>)
    requires Lossless(c) && cut < EncodeAll(c, Body(false, data) + Epilogue(false))
    ensures var o := ReadUnbounded(c, cut);
            o.Dry? && o.out <= data && o.lengths <= Lengths(Body(false, data) + Epilogue(false))
    decreases |data|
  {
    hide ReadUnbounded, Encode, EncodeAll, EncodeInt64, Lossless;
    if data == [] {
      assert Body(false, data) + Epilogue(false) == Epilogue(false);
      EndCutShort(c, cut);
    } else {
      hide Body, Epilogue;
      var n := Min(|data|, CHUNK);
      var chunk, later := data[..n], Body(false, data[n..]) + Epilogue(false);
      UnboundedBody(c, data, []);
      var bytes := EncodeAll(c, Body(false, data) + Epilogue(false));
      assert bytes + [] == bytes && EncodeAll(c, later) + [] == EncodeAll(c, later);
      var cut' := ChunkCutShort(c, chunk, EncodeAll(c, later), cut);
      assert data == chunk + data[n..];
      if cut' < EncodeAll(c, later) {
        UnboundedCutShort(c, data[n..], cut');
      }
    }
  }

  /**
   However little has arrived, the reader waits rather than fails, what it has already put out is a prefix
   of the data, and the lengths it has asked for are the first lengths the writer used.
   */
  lemma ForwardCutShort(c: Codec, bounded: bool, data: seq<byte>, cut: seq<byte>)
    requires Lossless(c) && |data| < TWO_TO_64
    requires bounded ==> data != []
    requires cut < EncodeAll(c, Script(bounded, data))
    ensures var o := ReadForward(c, cut);
            o.Dry? && o.out <= data && o.lengths <= Lengths(Script(bounded, data))
  {
    hide Decode, Encode, EncodeInt64, DecodeInt64, EncodeLE, DecodeLE, Body, ReadBounded, ReadUnbounded;
    var all := Script(bounded, data);
    var later := Body(bounded, data) + Epilogue(bounded);
    Capacities();
    if bounded {
      var length := EncodeLE(|data|, 8);
      assert later == Body(true, data);
      assert all == [Command(FORWARD_BOUNDED)] + ([length] + later);
      assert [Command(FORWARD_BOUNDED), length] + later == all;
      LengthsAppend([Command(FORWARD_BOUNDED), length], later);
      EncodeAllCons(c, length, later, []);
      EncodeAllCons(c, Command(FORWARD_BOUNDED), [length] + later, []);
      DecodeEncodeInt64(FORWARD_BOUNDED);
      DecodeEncodeLE(|data|, 8);
      var cut' := DecodePrefix(c, Command(FORWARD_BOUNDED), EncodeAll(c, [length] + later), cut, COMMAND);
      if |cut| >= |Encode(c, Command(FORWARD_BOUNDED))| {
        var cut'' := DecodePrefix(c, length, EncodeAll(c, later), cut', COMMAND);
        if |cut'| >= |Encode(c, length)| {
          BoundedCutShort(c, data, cut'');
        }
      }
    } else {
      assert all == [Command(FORWARD_UNBOUNDED)] + later;
      LengthsAppend([Command(FORWARD_UNBOUNDED)], later);
      EncodeAllCons(c, Command(FORWARD_UNBOUNDED), later, []);
      DecodeEncodeInt64(FORWARD_UNBOUNDED);
      var cut' := DecodePrefix(c, Command(FORWARD_UNBOUNDED), EncodeAll(c, later), cut, COMMAND);
      if |cut| >= |Encode(c, Command(FORWARD_UNBOUNDED))| {
        UnboundedCutShort(c, data, cut');
      }
    }
  }

  // ---- Where a forward is cut ----

  /** The j-th chunk of the data. */
  function Chunk(data: seq<byte>, j: nat): seq<byte>
    requires j * 16384 <= |data|
  {
    data[j * 16384..Min(|data|, (j + 1) * 16384)]
  }

  lemma ChunkFits(data: seq<byte>, j: nat)
    requires j * 16384 < |data|
    ensures 0 < |Chunk(data, j)| <= 16384
  {
  }

  lemma LaterChunk(data: seq<byte>, j: nat)
    requires j > 0 && j * 16384 < |data|
    ensures (j - 1) * 16384 < |data[16384..]| && Chunk(data[16384..], j - 1) == Chunk(data, j)
  {
  }

  lemma BodyCons(bounded: bool, data: seq<byte>)
    requires data != []
    ensures var n := Min(|data|, CHUNK);
            Body(bounded, data) == (if bounded then [data[..n]] else [Command(n), data[..n]]) + Body(bounded, data[n..])
  {
  }

  lemma {:induction false} BodyAt(bounded: bool, data: seq<byte>, j: nat)
    requires j * 16384 < |data|
    ensures var ms, chunk := Body(bounded, data), Chunk(data, j);
            if bounded then j < |ms| && ms[j] == chunk
            else 2 * j + 1 < |ms| && ms[2 * j] == Command(|chunk|) && ms[2 * j + 1] == chunk
    decreases j
  {
    BodyCons(bounded, data);
    hide Body, EncodeInt64;
    if j > 0 {
      LaterChunk(data, j);
      BodyAt(bounded, data[CHUNK..], j - 1);
    }
  }

  /** A body is as long as the data have chunks, the last of which may be short. */
  lemma {:induction false} BodyLength(bounded: bool, data: seq<byte>)
    ensures |Body(bounded, data)| == (if bounded then 1 else 2) * ((|data| + 16383) / 16384)
    decreases |data|
  {
    if data != [] {
      BodyCons(bounded, data);
      BodyLength(bounded, data[Min(|data|, CHUNK)..]);
    }
    hide Command;
  }

  /**
   The messages of a forward, one by one: what kind it is; the length, or before each chunk the chunk's; the chunks of
   16384 bytes and a shorter last one; and if no length was announced, the end.
   */
  lemma ScriptLayout(bounded: bool, data: seq<byte>, j: nat)
    requires j * 16384 < |data|
    ensures var ms, chunks := Script(bounded, data), (|data| + 16383) / 16384;
            if bounded then
              && |ms| == 2 + chunks && ms[0] == [254, 255, 255, 255, 255, 255, 255, 255]
              && ms[1] == EncodeLE(|data|, 8) && 2 + j < |ms| && ms[2 + j] == Chunk(data, j)
            else
              && |ms| == 2 * chunks + 2 && ms[0] == [253, 255, 255, 255, 255, 255, 255, 255]
              && 2 * j + 2 < |ms| && ms[2 * j + 1] == EncodeLE(|Chunk(data, j)|, 8) && ms[2 * j + 2] == Chunk(data, j)
              && ms[|ms| - 1] == [252, 255, 255, 255, 255, 255, 255, 255]
  {
    hide Body, Command, EncodeLE, Chunk;
    CommandLayout(|Chunk(data, j)|);
    CommandLayout(-2);
    CommandLayout(-3);
    CommandLayout(-4);
    BodyAt(bounded, data, j);
    BodyLength(bounded, data);
    ChunkFits(data, j);
  }

  lemma HighOnes(n: nat)
    requires TWO_TO_64 - 256 <= n < TWO_TO_64
    ensures n % 256 == n - (TWO_TO_64 - 256)
    ensures n / 0x100 % 256 == n / 0x1_0000 % 256 == n / 0x100_0000 % 256 == 255
    ensures n / 0x1_0000_0000 == 0xFFFF_FFFF
  {
  }

  lemma CommandEncodes(x: int)
    ensures 0 <= x < TWO_TO_63 ==> Command(x) == EncodeLE(x, 8)
    ensures -256 <= x < 0 ==> Command(x) == EncodeLE(TWO_TO_64 + x, 8)
  {
    hide EncodeLE;
  }

  /** Commands are 64-bit numbers in two's complement. */
  lemma CommandLayout(x: int)
    ensures 0 <= x < TWO_TO_63 ==> Command(x) == EncodeLE(x, 8)
    ensures -256 <= x < 0 ==> Command(x) == [256 + x, 255, 255, 255, 255, 255, 255, 255]
  {
    hide EncodeLE, EncodeInt64, Command;
    CommandEncodes(x);
    if -256 <= x < 0 {
      LittleEndian8(TWO_TO_64 + x);
      HighOnes(TWO_TO_64 + x);
    }
  }

  /** A read that meets part of its message has a part of it, or with LZ4 nothing. */
  function Held(c: Codec, part: seq<byte>): seq<byte> { if c.Plain? then part else [] }

  lemma DecodePart(c: Codec, m: seq<byte>, part: seq<byte>, room: nat)
    requires Lossless(c) && IsMessage(m) && |m| <= room && part < Encode(c, m)
    ensures Decode(c, part, |m|, room) == Starved(Held(c, part))
  {
    DecodeCutShort(c, m, part, room);
  }

  lemma HeldIsPrefix(c: Codec, m: seq<byte>, part: seq<byte>)
    requires part < Encode(c, m)
    ensures Held(c, part) <= m
  {
  }

  /** What the reader has put out when it stands before chunk j and has this much of it. */
  function OutAt(data: seq<byte>, j: nat, held: seq<byte>): seq<byte>
    requires j * 16384 <= |data|
  {
    data[..j * 16384] + held
  }

  /** The reader waits inside the data and has put this out. */
  predicate WaitsWith(o: Outcome, out: seq<byte>) { o.Dry? && !o.atCommand && o.out == out }

  lemma OutLater(data: seq<byte>, j: nat, held: seq<byte>, lengths: seq<nat>, o: Outcome)
    requires j > 0 && j * 16384 < |data| && WaitsWith(o, OutAt(data[CHUNK..], j - 1, held))
    ensures WaitsWith(After(data[..CHUNK], lengths, o), OutAt(data, j, held))
  {
    assert data[..CHUNK] + data[CHUNK..][..(j - 1) * 16384] == data[..j * 16384];
  }

  /** What the reader makes of the first k messages of a body and part of another. */
  function BoundedCut(c: Codec, data: seq<byte>, k: nat, part: seq<byte>): Outcome
    requires k <= |Body(true, data)|
  {
    ReadBounded(c, EncodeAll(c, Body(true, data)[..k]) + part, |data|)
  }

  function UnboundedCut(c: Codec, data: seq<byte>, k: nat, part: seq<byte>): Outcome
    requires k <= |Body(false, data)|
  {
    ReadUnbounded(c, EncodeAll(c, (Body(false, data) + Epilogue(false))[..k]) + part)
  }

  lemma BoundedCutFirst(c: Codec, data: seq<byte>, part: seq<byte>)
    requires Lossless(c) && data != [] && part < Encode(c, Chunk(data, 0))
    ensures WaitsWith(BoundedCut(c, data, 0, part), Held(c, part))
  {
    hide Decode, Encode, Held, Lossless, Body;
    assert Body(true, data)[..0] == [] && [] + part == part;
    DecodePart(c, Chunk(data, 0), part, CHUNK);
  }

  /** One chunk is whole; the rest is as it would be without it. */
  lemma BoundedCutLater(c: Codec, data: seq<byte>, k: nat, part: seq<byte>)
    requires Lossless(c) && |data| > CHUNK && 1 <= k <= |Body(true, data)|
    ensures k - 1 <= |Body(true, data[CHUNK..])|
    ensures BoundedCut(c, data, k, part) == After(data[..CHUNK], [CHUNK], BoundedCut(c, data[CHUNK..], k - 1, part))
  {
    hide Decode, Encode, Lossless;
    BodyCons(true, data);
    hide Body;
    var later := Body(true, data[CHUNK..])[..k - 1];
    assert Body(true, data)[..k] == [data[..CHUNK]] + later;
    EncodeAllCons(c, data[..CHUNK], later, part);
    hide EncodeAll;
    DecodeEncode(c, data[..CHUNK], EncodeAll(c, later) + part, CHUNK);
  }

  lemma {:induction false} BoundedCutAt(c: Codec, data: seq<byte>, j: nat, part: seq<byte>)
    requires Lossless(c) && j * 16384 < |data| && part < Encode(c, Chunk(data, j))
    ensures j < |Body(true, data)|
    ensures WaitsWith(BoundedCut(c, data, j, part), OutAt(data, j, Held(c, part)))
    decreases j
  {
    hide Decode, Encode, EncodeAll, EncodeInt64, Body, Epilogue, Lossless, Chunk, Held, OutAt, WaitsWith, After;
    hide BoundedCut, UnboundedCut, ReadBounded, ReadUnbounded;
    BodyAt(true, data, j);
    if j == 0 {
      BoundedCutFirst(c, data, part);
      NothingBefore(data, Held(c, part));
    } else {
      LaterChunk(data, j);
      BoundedCutAt(c, data[CHUNK..], j - 1, part);
      BoundedCutLater(c, data, j, part);
      OutLater(data, j, Held(c, part), [CHUNK], BoundedCut(c, data[CHUNK..], j - 1, part));
    }
  }

  lemma UnboundedCutFirst(c: Codec, data: seq<byte>, part: seq<byte>)
    requires Lossless(c) && data != [] && part < Encode(c, Chunk(data, 0))
    ensures |Body(false, data)| >= 1
    ensures WaitsWith(UnboundedCut(c, data, 1, part), Held(c, part))
  {
    hide Decode, Encode, EncodeInt64, DecodeInt64, Lossless, Held;
    BodyCons(false, data);
    hide Body, Epilogue;
    var n := |Chunk(data, 0)|;
    assert (Body(false, data) + Epilogue(false))[..1] == [Command(n)] + [];
    EncodeAllCons(c, Command(n), [], part);
    assert EncodeAll(c, []) + part == part;
    DecodeEncodeInt64(n);
    DecodeEncode(c, Command(n), part, COMMAND);
    DecodePart(c, Chunk(data, 0), part, CHUNK);
  }

  lemma UnboundedCutLater(c: Codec, data: seq<byte>, k: nat, part: seq<byte>)
    requires Lossless(c) && data != [] && 2 <= k <= |Body(false, data)|
    ensures var n := Min(|data|, CHUNK);
            && k - 2 <= |Body(false, data[n..])|
            && UnboundedCut(c, data, k, part)
               == After(data[..n], [COMMAND, n], UnboundedCut(c, data[n..], k - 2, part))
  {
    hide Decode, Encode, EncodeInt64, ReadUnbounded, Lossless;
    BodyCons(false, data);
    hide Body, Epilogue;
    var n := Min(|data|, CHUNK);
    var later := (Body(false, data[n..]) + Epilogue(false))[..k - 2];
    assert (Body(false, data) + Epilogue(false))[..k] == [Command(n)] + ([data[..n]] + later);
    EncodeAllCons(c, data[..n], later, part);
    EncodeAllCons(c, Command(n), [data[..n]] + later, part);
    UnboundedStep(c, data[..n], EncodeAll(c, later) + part);
  }

  lemma {:induction false} UnboundedCutAt(c: Codec, data: seq<byte>, j: nat, part: seq<byte>)
    requires Lossless(c) && j * 16384 < |data| && part < Encode(c, Chunk(data, j))
    ensures 2 * j + 1 < |Body(false, data)|
    ensures WaitsWith(UnboundedCut(c, data, 2 * j + 1, part), OutAt(data, j, Held(c, part)))
    decreases j
  {
    hide Decode, Encode, EncodeAll, EncodeInt64, Body, Epilogue, Lossless, Chunk, Held, OutAt, WaitsWith, After;
    hide BoundedCut, UnboundedCut, ReadBounded, ReadUnbounded;
    BodyAt(false, data, j);
    if j == 0 {
      UnboundedCutFirst(c, data, part);
      NothingBefore(data, Held(c, part));
    } else {
      LaterChunk(data, j);
      UnboundedCutAt(c, data[CHUNK..], j - 1, part);
      UnboundedCutLater(c, data, 2 * j + 1, part);
      OutLater(data, j, Held(c, part), [COMMAND, CHUNK], UnboundedCut(c, data[CHUNK..], 2 * j - 1, part));
    }
  }

  lemma NothingBefore(data: seq<byte>, held: seq<byte>)
    ensures OutAt(data, 0, held) == held
  {
  }

  lemma CommandCut(c: Codec, m: seq<byte>, part: seq<byte>)
    requires Lossless(c) && |m| == COMMAND && part < Encode(c, m)
    ensures ReadUnbounded(c, part) == Dry([], [COMMAND], true)
  {
    hide Decode, Encode, Lossless, Held;
    DecodePart(c, m, part, COMMAND);
  }

  /** The reader waits for a command, or for the announcement. */
  predicate WaitsForCommand(o: Outcome) { o.Dry? && o.atCommand }

  /** The 2j-th message of an unbounded body is a command. */
  lemma {:induction false} UnboundedCutAtCommand(c: Codec, data: seq<byte>, j: nat, part: seq<byte>)
    requires Lossless(c) && 2 * j <= |Body(false, data)|
    requires part < Encode(c, (Body(false, data) + Epilogue(false))[2 * j])
    ensures WaitsForCommand(UnboundedCut(c, data, 2 * j, part))
    decreases j
  {
    hide Decode, Encode, EncodeInt64, ReadUnbounded, Lossless;
    if j == 0 {
      assert [] + part == part && (Body(false, data) + Epilogue(false))[..0] == [];
      CommandCut(c, (Body(false, data) + Epilogue(false))[0], part);
    } else {
      BodyCons(false, data);
      hide Body, Epilogue, UnboundedCut;
      var n := Min(|data|, CHUNK);
      var later := Body(false, data[n..]) + Epilogue(false);
      assert Body(false, data) + Epilogue(false) == [Command(n), data[..n]] + later;
      UnboundedCutLater(c, data, 2 * j, part);
      UnboundedCutAtCommand(c, data[n..], j - 1, part);
    }
  }

  /** Whether a cut in the k-th message is a cut in the data. */
  predicate InData(bounded: bool, k: nat) { k >= 2 && (bounded || k % 2 == 0) }

  /** How many whole chunks are before the k-th message, if that is a chunk. */
  function ChunksBefore(bounded: bool, k: nat): nat
    requires k >= 2
  {
    if bounded then k - 2 else (k - 2) / 2
  }

  /** The stream holds k messages of a forward and part of the next. */
  ghost predicate HoldsPart(c: Codec, bytes: seq<byte>, bounded: bool, data: seq<byte>, k: nat, part: seq<byte>) {
    && Lossless(c) && |data| < TWO_TO_64 && (bounded ==> data != [])
    && k < |Script(bounded, data)| && part < Encode(c, Script(bounded, data)[k])
    && bytes == EncodeAll(c, Script(bounded, data)[..k]) + part
  }

  /** The stream holds a whole forward. */
  ghost predicate HoldsForward(c: Codec, bytes: seq<byte>, bounded: bool, data: seq<byte>, tail: seq<byte>) {
    && Lossless(c) && |data| < TWO_TO_64 && (bounded ==> data != [])
    && bytes == EncodeAll(c, Script(bounded, data)) + tail
  }

  lemma BoundedPart(c: Codec, bytes: seq<byte>, data: seq<byte>, k: nat, part: seq<byte>)
    requires HoldsPart(c, bytes, true, data, k, part)
    ensures k < 2 ==> WaitsForCommand(ReadForward(c, bytes))
    ensures k >= 2 ==> (k - 2) * 16384 < |data|
                       && WaitsWith(ReadForward(c, bytes), OutAt(data, k - 2, Held(c, part)))
  {
    hide Decode, Encode, EncodeInt64, DecodeInt64, EncodeLE, DecodeLE, Body, ReadBounded, ReadUnbounded, Lossless, Held;
    var body, length := Body(true, data), EncodeLE(|data|, 8);
    Capacities();
    DecodeEncodeInt64(FORWARD_BOUNDED);
    DecodeEncodeLE(|data|, 8);
    assert Script(true, data) == [Command(FORWARD_BOUNDED), length] + body;
    if k == 0 {
      assert Script(true, data)[..0] == [] && [] + part == part;
      DecodePart(c, Command(FORWARD_BOUNDED), part, COMMAND);
    } else if k == 1 {
      assert Script(true, data)[..1] == [Command(FORWARD_BOUNDED)] + [];
      EncodeAllCons(c, Command(FORWARD_BOUNDED), [], part);
      assert EncodeAll(c, []) + part == part;
      DecodeEncode(c, Command(FORWARD_BOUNDED), part, COMMAND);
      DecodePart(c, length, part, COMMAND);
    } else {
      assert Script(true, data)[..k] == [Command(FORWARD_BOUNDED)] + ([length] + body[..k - 2]);
      EncodeAllCons(c, length, body[..k - 2], part);
      EncodeAllCons(c, Command(FORWARD_BOUNDED), [length] + body[..k - 2], part);
      hide EncodeAll, OutAt, Chunk;
      var rest := EncodeAll(c, body[..k - 2]) + part;
      DecodeEncode(c, Command(FORWARD_BOUNDED), Encode(c, length) + rest, COMMAND);
      DecodeEncode(c, length, rest, COMMAND);
      BodyLength(true, data);
      BodyAt(true, data, k - 2);
      BoundedCutAt(c, data, k - 2, part);
    }
  }

  lemma UnboundedPart(c: Codec, bytes: seq<byte>, data: seq<byte>, k: nat, part: seq<byte>)
    requires HoldsPart(c, bytes, false, data, k, part)
    ensures !InData(false, k) ==> WaitsForCommand(ReadForward(c, bytes))
    ensures InData(false, k) ==> (k - 2) / 2 * 16384 < |data|
                                 && WaitsWith(ReadForward(c, bytes), OutAt(data, (k - 2) / 2, Held(c, part)))
  {
    hide Decode, Encode, EncodeInt64, DecodeInt64, Body, ReadUnbounded, Lossless, Held;
    var body := Body(false, data) + Epilogue(false);
    DecodeEncodeInt64(FORWARD_UNBOUNDED);
    assert Script(false, data) == [Command(FORWARD_UNBOUNDED)] + body;
    BodyLength(false, data);
    if k == 0 {
      assert Script(false, data)[..0] == [] && [] + part == part;
      DecodePart(c, Command(FORWARD_UNBOUNDED), part, COMMAND);
    } else {
      assert Script(false, data)[..k] == [Command(FORWARD_UNBOUNDED)] + body[..k - 1];
      EncodeAllCons(c, Command(FORWARD_UNBOUNDED), body[..k - 1], part);
      hide EncodeAll, OutAt, Chunk;
      var rest := EncodeAll(c, body[..k - 1]) + part;
      DecodeEncode(c, Command(FORWARD_UNBOUNDED), rest, COMMAND);
      assert [] + ReadUnbounded(c, rest).out == ReadUnbounded(c, rest).out;
      if InData(false, k) {
        BodyAt(false, data, (k - 2) / 2);
        UnboundedCutAt(c, data, (k - 2) / 2, part);
      } else {
        UnboundedCutAtCommand(c, data, (k - 1) / 2, part);
      }
    }
  }

  /** However a forward is cut, it is cut in some message of it. */
  lemma {:induction false} EveryCutIsInAMessage(c: Codec, ms: seq<seq<byte>>, cut: seq<byte>)
    returns (k: nat, part: seq<byte>)
    requires cut < EncodeAll(c, ms)
    ensures k < |ms| && part < Encode(c, ms[k]) && cut == EncodeAll(c, ms[..k]) + part
    decreases |ms|
  {
    hide Encode;
    var e := Encode(c, ms[0]);
    if |cut| < |e| {
      k, part := 0, cut;
      assert ms[..0] == [] && [] + part == part;
    } else {
      k, part := EveryCutIsInAMessage(c, ms[1..], cut[|e|..]);
      assert ms[..k + 1] == [ms[0]] + ms[1..][..k];
      EncodeAllCons(c, ms[0], ms[1..][..k], part);
      assert cut == e + cut[|e|..];
      k := k + 1;
    }
  }

  lemma ForwardsAreRead(c: Codec, bytes: seq<byte>)
    ensures forall bounded, data, tail | HoldsForward(c, bytes, bounded, data, tail) ::
              ReadForward(c, bytes).Finished? && |ReadForward(c, bytes).out| == |data|
    ensures forall bounded, data, k, part | HoldsPart(c, bytes, bounded, data, k, part) ::
              var o := ReadForward(c, bytes);
              && o.Dry? && (o.atCommand <==> !InData(bounded, k))
              && (InData(bounded, k) ==> |o.out| == ChunksBefore(bounded, k) * 16384 + |Held(c, part)|)
  {
    forall bounded, data, tail | HoldsForward(c, bytes, bounded, data, tail)
      ensures ReadForward(c, bytes).Finished? && |ReadForward(c, bytes).out| == |data|
    {
      ForwardRoundTrip(c, bounded, data, tail);
      hide ReadForward, EncodeAll, Script;
    }
    hide ReadForward, HoldsPart, Held;
    forall bounded, data, k, part | HoldsPart(c, bytes, bounded, data, k, part)
      ensures var o := ReadForward(c, bytes);
              && o.Dry? && (o.atCommand <==> !InData(bounded, k))
              && (InData(bounded, k) ==> |o.out| == ChunksBefore(bounded, k) * 16384 + |Held(c, part)|)
    {
      if bounded {
        BoundedPart(c, bytes, data, k, part);
      } else {
        UnboundedPart(c, bytes, data, k, part);
      }
    }
  }

  // ---- The two loops ----

  /** The stream has gained exactly these messages since it held `before` and had logged `lengths`. */
  ghost predicate Wrote(s: Stream, before: seq<byte>, lengths: seq<nat>, ms: seq<seq<byte>>)
    reads s, s.down
  {
    && s.down.data == before + EncodeAll(s.downCodec, ms)
    && s.written == lengths + Lengths(ms)
  }

  method Send(s: Stream, m: seq<byte>, ghost before: seq<byte>, ghost lengths: seq<nat>, ghost sent: seq<seq<byte>>)
    requires Lossless(s.downCodec) && IsMessage(m) && Wrote(s, before, lengths, sent)
    modifies s`written, s.down
    ensures Wrote(s, before, lengths, sent + [m])
  {
    hide Encode;
    var ok := s.WriteDown(m);
    EncodeAllSnoc(s.downCodec, sent, m);
  }

  /** What one turn of the writer's loop sends for the chunk it read. */
  function Turn(bounded: bool, chunk: seq<byte>): seq<seq<byte>> {
    if chunk == [] then [] else if bounded then [chunk] else [Command(|chunk|), chunk]
  }

  method SendTurn(
    s: Stream, bounded: bool, chunk: seq<byte>,
    ghost before: seq<byte>, ghost lengths: seq<nat>, ghost sent: seq<seq<byte>>)
    requires Lossless(s.downCodec) && |chunk| <= CHUNK && Wrote(s, before, lengths, sent)
    modifies s`written, s.down
    ensures Wrote(s, before, lengths, sent + Turn(bounded, chunk))
  {
    hide Wrote, Encode, EncodeInt64, Lossless;
    ghost var soFar := sent;
    if !bounded && chunk != [] {
      Send(s, Command(|chunk|), before, lengths, soFar);
      soFar := soFar + [Command(|chunk|)];
    }
    if chunk != [] {
      Send(s, chunk, before, lengths, soFar);
      soFar := soFar + [chunk];
    }
    assert soFar == sent + Turn(bounded, chunk);
  }

  lemma BodyTurn(bounded: bool, sent: seq<seq<byte>>, left: seq<byte>)
    ensures var n := Min(|left|, CHUNK);
            sent + Turn(bounded, left[..n]) + Body(bounded, left[n..]) == sent + Body(bounded, left)
  {
    var n := Min(|left|, CHUNK);
    assert left == [] ==> left[n..] == [];
    assert Turn(bounded, left[..n]) + Body(bounded, left[n..]) == Body(bounded, left);
  }

  /**
   File to stream. `length` is given for a bounded forward. A bounded forward of nothing, or of more than the
   file holds, ends in a failed assertion; every other forward writes exactly its script.
   */
  method ForwardFromFile(s: Stream, file: Pipe, length: Option<nat>) returns (ok: bool, off: nat)
    requires Lossless(s.downCodec) && file != s.down
    requires length.Some? ==> length.value < TWO_TO_64
    modifies s`written, s.down, file
    ensures ok <==> (length.Some? ==> 0 < length.value <= |old(file.data)|)
    ensures ok ==>
      var n := if length.Some? then length.value else |old(file.data)|;
      var script := Script(length.Some?, old(file.data)[..n]);
      && off == n && file.data == old(file.data)[n..]
      && s.down.data == old(s.down.data) + EncodeAll(s.downCodec, script)
      && s.written == old(s.written) + Lengths(script)
  {
    hide Encode, EncodeAll, EncodeInt64, EncodeLE, Body, Wrote, Lossless, Turn;
    off := 0;
    var bounded := length.Some?;
    var remaining := if bounded then length.value else 0;
    ghost var all := file.data;
    ghost var size := if bounded then Min(remaining, |all|) else |all|;
    ghost var left, beyond := all[..size], all[size..];
    ghost var before, lengths := s.down.data, s.written;
    ghost var sent: seq<seq<byte>> := [];
    NothingWritten(s);
    Send(s, Command(if bounded then FORWARD_BOUNDED else FORWARD_UNBOUNDED), before, lengths, sent);
    sent := sent + [Command(if bounded then FORWARD_BOUNDED else FORWARD_UNBOUNDED)];
    if bounded {
      Send(s, EncodeLE(remaining, 8), before, lengths, sent);
      sent := sent + [EncodeLE(remaining, 8)];
    }
    assert sent == Prologue(bounded, remaining);
    ghost var plan := sent + Body(bounded, left);
    var lastIter := false;
    while !lastIter
      invariant off + |left| == size && file.data == left + beyond
      invariant bounded ==> remaining == length.value - off
      invariant bounded && remaining == 0 ==> off == 0 || lastIter
      invariant lastIter ==> left == []
      invariant lastIter && bounded ==> length.value > 0
      invariant Wrote(s, before, lengths, sent)
      invariant sent + Body(bounded, left) == plan
      decreases |left|, !lastIter
    {
      var desired := if bounded then Min(remaining, CHUNK) else CHUNK;
      var result, chunk := ReadFull(file, desired);
      if result.Aborted? {
        return false, off;
      }
      if result.EndOfFile? {
        lastIter := true;
      }
      assert |chunk| == Min(|left|, CHUNK) && chunk == left[..|chunk|];
      BodyTurn(bounded, sent, left);
      SendTurn(s, bounded, chunk, before, lengths, sent);
      sent, left := sent + Turn(bounded, chunk), left[|chunk|..];
      if bounded {
        remaining := remaining - |chunk|;
        if remaining == 0 {
          lastIter := true;
        }
      }
      off := off + |chunk|;
    }
    NoBody(bounded);
    assert sent == plan;
    if !bounded {
      Send(s, Command(FORWARD_END), before, lengths, sent);
      sent := sent + [Command(FORWARD_END)];
    } else if off != length.value {
      return false, off;
    }
    WroteAll(s, before, lengths, sent);
    ok := true;
  }

  lemma NoBody(bounded: bool)
    ensures Body(bounded, []) == []
  {
  }

  lemma NothingWritten(s: Stream)
    ensures Wrote(s, s.down.data, s.written, [])
  {
  }

  lemma WroteAll(s: Stream, before: seq<byte>, lengths: seq<nat>, ms: seq<seq<byte>>)
    requires Wrote(s, before, lengths, ms)
    ensures s.down.data == before + EncodeAll(s.downCodec, ms) && s.written == lengths + Lengths(ms)
  {
  }

  /** The reader's loop, from where it stands. */
  function ReadOn(c: Codec, bounded: bool, bytes: seq<byte>, remaining: nat): Outcome {
    if bounded then ReadBounded(c, bytes, remaining) else ReadUnbounded(c, bytes)
  }

  lemma BoundedTurn(c: Codec, bytes: seq<byte>, remaining: nat, out: seq<byte>, lengths: seq<nat>)
    ensures var desired := Min(remaining, CHUNK);
            After(out, lengths, ReadBounded(c, bytes, remaining)) ==
            match Decode(c, bytes, desired, CHUNK)
            case Message(m, rest) =>
              if remaining == |m| then Finished(out + m, rest, lengths + [desired])
              else After(out + m, lengths + [desired], ReadBounded(c, rest, remaining - |m|))
            case Starved(partial) => Dry(out + partial, lengths + [desired], false)
            case Fatal => Broken(out, lengths + [desired])
            case Overran => Spilled(out, lengths + [desired])
  {
    hide Decode;
    var r := Decode(c, bytes, Min(remaining, CHUNK), CHUNK);
    assert out + [] == out;
    if r.Message? && remaining != |r.m| {
      AfterAfter(out, lengths, r.m, [Min(remaining, CHUNK)], ReadBounded(c, r.rest, remaining - |r.m|));
    }
  }

  lemma UnboundedTurn(c: Codec, bytes: seq<byte>, out: seq<byte>, lengths: seq<nat>)
    ensures After(out, lengths, ReadUnbounded(c, bytes)) ==
            match Decode(c, bytes, COMMAND, COMMAND)
            case Starved(_) => Dry(out, lengths + [COMMAND], true)
            case Fatal => Broken(out, lengths + [COMMAND])
            case Overran => Spilled(out, lengths + [COMMAND])
            case Message(m, rest) =>
              var command := DecodeInt64(m);
              if command == FORWARD_END then Finished(out, rest, lengths + [COMMAND])
              else if !(0 < command <= UINT16_MAX) then Broken(out, lengths + [COMMAND])
              else match Decode(c, rest, command, CHUNK)
                case Message(chunk, rest') =>
                  After(out + chunk, lengths + [COMMAND, command], ReadUnbounded(c, rest'))
                case Starved(partial) => Dry(out + partial, lengths + [COMMAND, command], false)
                case Fatal => Broken(out, lengths + [COMMAND, command])
                case Overran => Spilled(out, lengths + [COMMAND, command])
  {
    hide Decode, DecodeInt64;
    assert out + [] == out;
    var r := Decode(c, bytes, COMMAND, COMMAND);
    if r.Message? && 0 < DecodeInt64(r.m) <= UINT16_MAX {
      var command := DecodeInt64(r.m);
      var r' := Decode(c, r.rest, command, CHUNK);
      if r'.Message? {
        AfterAfter(out, lengths, r'.m, [COMMAND, command], ReadUnbounded(c, r'.rest));
      }
    }
  }

  lemma AfterAfter(out: seq<byte>, lengths: seq<nat>, out': seq<byte>, lengths': seq<nat>, o: Outcome)
    ensures After(out, lengths, After(out', lengths', o)) == After(out + out', lengths + lengths', o)
  {
    Concat(out, out', o.out);
    Concat(lengths, lengths', o.lengths);
  }

  /** ReadUp, keeping the log as an offset from where the call began. */
  method Ask(s: Stream, length: nat, room: nat, ghost base: seq<nat>, ghost lengths: seq<nat>)
    returns (result: IOResult, got: seq<byte>)
    requires s.asked == base + lengths
    modifies s`asked, s.up
    ensures match Decode(s.upCodec, old(s.up.data), length, room)
            case Message(m, rest) => result.Success? && got == m && s.up.data == rest
            case Starved(partial) => result.EndOfFile? && got == partial
            case Fatal => result.Aborted?
            case Overran => result.Overrun?
    ensures |s.up.data| <= |old(s.up.data)|
    ensures s.asked == base + (lengths + [length])
  {
    result, got := s.ReadUp(length, room);
    Concat(base, lengths, [length]);
  }

  method Put(file: Pipe, chunk: seq<byte>, ghost base: seq<byte>, ghost out: seq<byte>)
    requires file.data == base + out
    modifies file
    ensures file.data == base + (out + chunk)
  {
    if chunk != [] {
      var result, written := WriteFull(file, chunk);
    }
    Concat(base, out, chunk);
  }

  /** The opening of a forward: whether a length was announced, and which. */
  method ReadAnnouncement(s: Stream) returns (ok: bool, bounded: bool, remaining: nat, ghost lengths: seq<nat>)
    modifies s`asked, s.up
    ensures s.asked == old(s.asked) + lengths
    ensures var o := ReadForward(s.upCodec, old(s.up.data));
            if ok then o == After([], lengths, ReadOn(s.upCodec, bounded, s.up.data, remaining))
            else !o.Finished? && o.out == [] && o.lengths == lengths && (o.Dry? ==> o.atCommand)
  {
    hide Decode, DecodeInt64, DecodeLE, ReadBounded, ReadUnbounded;
    bounded, remaining, lengths := false, 0, [];
    var result, m := Ask(s, COMMAND, COMMAND, s.asked, lengths);
    lengths := [COMMAND];
    if !result.Success? {
      return false, false, 0, lengths;
    }
    var command := DecodeInt64(m);
    bounded := command == FORWARD_BOUNDED;
    if bounded {
      result, m := Ask(s, COMMAND, COMMAND, old(s.asked), lengths);
      lengths := [COMMAND, COMMAND];
      if !result.Success? {
        return false, bounded, 0, lengths;
      }
      remaining := DecodeLE(m);
    }
    ok := bounded || command == FORWARD_UNBOUNDED;
  }

  /**
   Stream to file: the loop does what ReadForward says of the bytes on the pipe, well formed or not, up to the
   first byte that would land past the end of its 16384-byte buffer.
   */
  method CopyToFile(s: Stream, file: Pipe, expected: Option<nat>) returns (ok: bool, off: nat)
    requires file != s.up
    modifies s`asked, s.up, file
    ensures var o := ReadForward(s.upCodec, old(s.up.data));
            && (ok <==> (o.Finished? || (o.Dry? && !o.atCommand)) && (expected.Some? ==> expected.value == off))
            && off == |o.out| && file.data == old(file.data) + o.out
            && s.asked == old(s.asked) + o.lengths
            && (o.Finished? ==> s.up.data == o.rest)
  {
    hide Decode, DecodeInt64, ReadBounded, ReadUnbounded, ReadForward;
    off := 0;
    ghost var outcome := ReadForward(s.upCodec, s.up.data);
    ghost var base, before, out := s.asked, file.data, [];
    var started: bool, bounded: bool, remaining: nat;
    ghost var lengths: seq<nat>;
    started, bounded, remaining, lengths := ReadAnnouncement(s);
    if !started {
      return false, 0;
    }
    var lastIter := false;
    while !lastIter
      invariant s.asked == base + lengths && file.data == before + out && off == |out|
      invariant !lastIter ==> outcome == After(out, lengths, ReadOn(s.upCodec, bounded, s.up.data, remaining))
      invariant lastIter ==> outcome == Finished(out, s.up.data, lengths) || outcome == Dry(out, lengths, false)
      decreases |s.up.data|, !lastIter
    {
      var desired: nat := if bounded then Min(remaining, CHUNK) else CHUNK;
      if bounded {
        BoundedTurn(s.upCodec, s.up.data, remaining, out, lengths);
      } else {
        UnboundedTurn(s.upCodec, s.up.data, out, lengths);
        var result, m := Ask(s, COMMAND, COMMAND, base, lengths);
        if !result.Success? {
          return false, off;
        }
        desired := if DecodeInt64(m) > 0 then DecodeInt64(m) else 0;
        if DecodeInt64(m) == FORWARD_END {
          lengths := lengths + [COMMAND];
          break;
        }
        if !(0 < DecodeInt64(m) <= UINT16_MAX) {
          return false, off;
        }
        assert lengths + [COMMAND, desired] == lengths + [COMMAND] + [desired];
        lengths := lengths + [COMMAND];
      }
      var result, chunk := Ask(s, desired, CHUNK, base, lengths);
      lengths := lengths + [desired];
      if result.Aborted? || result.Overrun? {
        return false, off;
      }
      if result.EndOfFile? {
        lastIter := true;
      }
      Put(file, chunk, before, out);
      out := out + chunk;
      if bounded {
        remaining := remaining - |chunk|;
        if remaining == 0 {
          lastIter := true;
        }
      }
      off := off + |chunk|;
    }
    assert outcome == Finished(out, s.up.data, lengths) || outcome == Dry(out, lengths, false);
    ok := expected.Some? ==> off == expected.value;
  }

  /**
   It succeeds, on what a forward has written, if the forward is whole or cut in its data, and then only if that has
   the length expected.
   */
  method ForwardToFile(s: Stream, file: Pipe, expected: Option<nat>) returns (ok: bool, off: nat)
    requires file != s.up
    modifies s`asked, s.up, file
    ensures var o := ReadForward(s.upCodec, old(s.up.data));
            && (ok <==> (o.Finished? || (o.Dry? && !o.atCommand)) && (expected.Some? ==> expected.value == off))
            && off == |o.out| && file.data == old(file.data) + o.out
            && s.asked == old(s.asked) + o.lengths
            && (o.Finished? ==> s.up.data == o.rest)
    ensures forall bounded, data, tail | HoldsForward(s.upCodec, old(s.up.data), bounded, data, tail) ::
              ok <==> (expected.Some? ==> expected.value == |data|)
    ensures forall bounded, data, k, part | HoldsPart(s.upCodec, old(s.up.data), bounded, data, k, part) ::
              ok <==> InData(bounded, k)
                      && (expected.Some? ==> expected.value == ChunksBefore(bounded, k) * 16384 + |Held(s.upCodec, part)|)
  {
    ForwardsAreRead(s.upCodec, s.up.data);
    hide ReadForward, HoldsForward, HoldsPart, InData, ChunksBefore, Held;
    ok, off := CopyToFile(s, file, expected);
  }
}
