/**
 The compression layer under a stream. LZ4 itself is a pair of functions taken as a parameter;
 what is modelled is the frame around it and the fallback that stores incompressible data raw.
 */
module Compression {
  import opened Bytes
  import opened Pipes

  const UINT16_MAX := 65535
  const LZ4_HEADER := 4

  datatype Codec =
    | Plain
    | LZ4(compress: seq<byte> -> seq<byte>, decompress: seq<byte> -> Option<seq<byte>>)

  /** What liblz4 promises for the sizes one message can have. */
  ghost predicate Lossless(c: Codec) {
    c.LZ4? ==> forall b {:trigger c.compress(b)} :: 1 <= |b| <= UINT16_MAX ==>
      c.compress(b) != [] && c.decompress(c.compress(b)) == Some(b)
  }

  predicate IsMessage(m: seq<byte>) { 1 <= |m| <= UINT16_MAX }

  function Header(compressed: bool, size: nat): (h: seq<byte>)
    ensures |h| == LZ4_HEADER
  {
    [if compressed then 1 else 0, 0] + EncodeLE(size % (UINT16_MAX + 1), 2)
  }

  function HeaderSize(h: seq<byte>): (n: nat)
    requires |h| == LZ4_HEADER
    ensures n <= UINT16_MAX
  {
    Capacities();
    DecodeLE(h[2..])
  }

  /** The bytes one message becomes on the pipe. */
  function Encode(c: Codec, m: seq<byte>): seq<byte> {
    match c
    case Plain => m
    case LZ4(compress, _) =>
      var packed := compress(m);
      if |packed| < |m| then Header(true, |packed|) + packed else Header(false, |m|) + m
  }

  function EncodeAll(c: Codec, ms: seq<seq<byte>>): seq<byte> {
    if ms == [] then [] else Encode(c, ms[0]) + EncodeAll(c, ms[1..])
  }

  /**
   Starved holds what had already reached the caller's buffer when the pipe ran dry. Overran: more bytes than the
   buffer has room for were put into it.
   */
  datatype ReadOutcome = Message(m: seq<byte>, rest: seq<byte>) | Starved(partial: seq<byte>) | Fatal | Overran

  /**
   What a stream read that asks for exactly `length` bytes, with a buffer of `room`, makes of the bytes on the
   pipe. A raw frame goes straight into the buffer, whatever was asked for; lengths are compared afterwards.
   */
  function Decode(c: Codec, bytes: seq<byte>, length: nat, room: nat): (r: ReadOutcome)
    ensures r.Message? ==> |r.m| == length && |r.rest| <= |bytes|
    ensures r.Message? ==> |r.rest| < |bytes|
    ensures r.Message? ==> |r.m| <= room
    ensures r.Starved? ==> |r.partial| <= length
  {
    match c
    case Plain =>
      if length == 0 then Fatal
      else if Min(|bytes|, length) > room then Overran
      else if |bytes| < length then Starved(bytes)
      else Message(bytes[..length], bytes[length..])
    case LZ4(_, decompress) =>
      if length > UINT16_MAX then Fatal
      else if |bytes| < LZ4_HEADER then Starved([])
      else
        var size := HeaderSize(bytes[..LZ4_HEADER]);
        var body := bytes[LZ4_HEADER..];
        if size == 0 then Fatal
        else if bytes[0] == 0 then
          if Min(|body|, size) > room then Overran
          else if |body| < size then Starved([])
          else if size == length || length == 0 then Message(body[..length], body[size..])
          else Fatal
        else if |body| < size then Starved([])
        else match decompress(body[..size])
          case None => Fatal
          case Some(m) =>
            if |m| > length then Fatal
            else if |m| > room then Overran
            else if |m| == length then Message(m, body[size..])
            else Fatal
  }

  /** The bytes on the pipe begin with a frame that is not compressed and announces more than n bytes. */
  predicate RawFrameOver(bytes: seq<byte>, n: nat) {
    |bytes| >= LZ4_HEADER && bytes[0] == 0 && HeaderSize(bytes[..LZ4_HEADER]) > n
  }

  /**
   A read stays inside its buffer unless it asks for more than the buffer holds, or a raw frame announces more;
   and then it leaves the buffer as soon as enough bytes have come.
   */
  lemma WhenAReadOverruns(c: Codec, bytes: seq<byte>, length: nat, room: nat)
    ensures Decode(c, bytes, length, room).Overran? ==>
              length > room || (c.LZ4? && RawFrameOver(bytes, room))
    ensures c.Plain? ==> (Decode(c, bytes, length, room).Overran? <==> length > room && |bytes| > room)
    ensures c.LZ4? && length <= UINT16_MAX && |bytes| > LZ4_HEADER + room && bytes[0] == 0 ==>
              (Decode(c, bytes, length, room).Overran? <==> RawFrameOver(bytes, room))
  {
  }

  /** One write is undone by one read of the same length, whatever follows it on the pipe. */
  lemma DecodeEncode(c: Codec, m: seq<byte>, rest: seq<byte>, room: nat)
    requires Lossless(c) && IsMessage(m) && |m| <= room
    ensures Decode(c, Encode(c, m) + rest, |m|, room) == Message(m, rest)
  {
    if c.LZ4? {
      var packed := c.compress(m);
      var compressed := |packed| < |m|;
      var body := if compressed then packed else m;
      var bytes := Encode(c, m) + rest;
      HeaderRoundTrip(compressed, |body|);
      var h := Header(compressed, |body|);
      assert bytes == h + (body + rest);
      assert bytes[..LZ4_HEADER] == h && bytes[LZ4_HEADER..] == body + rest;
      assert (body + rest)[..|body|] == body && (body + rest)[|body|..] == rest;
    } else {
      assert (m + rest)[..|m|] == m && (m + rest)[|m|..] == rest;
    }
  }

  lemma HeaderRoundTrip(compressed: bool, size: nat)
    requires size <= UINT16_MAX
    ensures HeaderSize(Header(compressed, size)) == size
  {
    Capacities();
    DecodeEncodeLE(size, 2);
    assert Header(compressed, size)[2..] == EncodeLE(size, 2);
  }

  /** The payload never outgrows the message, so storing its size in 16 bits loses nothing. */
  lemma PayloadFitsItsSizeField(c: Codec, m: seq<byte>)
    requires Lossless(c) && c.LZ4? && IsMessage(m)
    ensures var e := Encode(c, m);
            LZ4_HEADER < |e| <= LZ4_HEADER + |m| && HeaderSize(e[..LZ4_HEADER]) == |e| - LZ4_HEADER
  {
    var packed := c.compress(m);
    var body := if |packed| < |m| then packed else m;
    HeaderRoundTrip(|packed| < |m|, |body|);
    assert Encode(c, m)[..LZ4_HEADER] == Header(|packed| < |m|, |body|);
  }

  /**
   What one write puts on the pipe, byte by byte: whether the body is packed, a byte of padding, the body's length
   with the low byte first, and the shorter of the packed and the raw bytes.
   */
  lemma FrameLayout(c: Codec, m: seq<byte>)
    requires c.LZ4? && IsMessage(m)
    ensures var packed, e := c.compress(m), Encode(c, m);
      && |e| == 4 + Min(|packed|, |m|)
      && e[0] == (if |packed| < |m| then 1 else 0)
      && e[2] as int + 256 * e[3] as int == Min(|packed|, |m|)
      && e[4..] == if |packed| < |m| then packed else m
  {
    hide EncodeLE, HeaderSize, Header;
    var packed := c.compress(m);
    if |packed| < |m| {
      HeaderLayout(true, |packed|, packed);
    } else {
      HeaderLayout(false, |m|, m);
    }
  }

  lemma HeaderLayout(compressed: bool, size: nat, body: seq<byte>)
    requires size <= 65535
    ensures var e := Header(compressed, size) + body;
      && e[0] == (if compressed then 1 else 0) && e[2] as int + 256 * e[3] as int == size && e[4..] == body
  {
    hide EncodeLE;
    LittleEndian2(size);
  }

  /** The bytes are one frame of m: its body is m, or unpacks to m. */
  predicate IsFrameOf(c: Codec, f: seq<byte>, m: seq<byte>)
    requires c.LZ4?
  {
    && |f| > 4 && f[2] as int + 256 * f[3] as int == |f| - 4
    && if f[0] == 0 then f[4..] == m else c.decompress(f[4..]) == Some(m)
  }

  /** A read comes to m, for a caller with room for it, exactly when the pipe begins with a frame of m. */
  lemma ReadsExactlyOneFrame(c: Codec, bytes: seq<byte>, m: seq<byte>, rest: seq<byte>, room: nat)
    requires c.LZ4? && IsMessage(m) && |m| <= room
    ensures Decode(c, bytes, |m|, room) == Message(m, rest)
      <==> |rest| <= |bytes| && bytes[|bytes| - |rest|..] == rest && IsFrameOf(c, bytes[..|bytes| - |rest|], m)
  {
    if |bytes| >= LZ4_HEADER {
      SizeField(bytes[..LZ4_HEADER]);
      var size, body := HeaderSize(bytes[..LZ4_HEADER]), bytes[LZ4_HEADER..];
      if |body| >= size {
        assert bytes[..LZ4_HEADER + size][4..] == body[..size] && bytes[LZ4_HEADER + size..] == body[size..];
      }
    }
  }

  /**
   A read waits for more exactly while the four bytes of a header, or the body they announce, have not all come; unless
   so much of a raw body has come that the caller's buffer is full.
   */
  lemma ReadWaitsIff(c: Codec, bytes: seq<byte>, length: nat, room: nat)
    requires c.LZ4? && length <= 65535
    ensures Decode(c, bytes, length, room).Starved? <==>
      || |bytes| < 4
      || (|bytes| - 4 < bytes[2] as int + 256 * bytes[3] as int && (bytes[0] == 0 ==> |bytes| - 4 <= room))
  {
    if |bytes| >= LZ4_HEADER {
      SizeField(bytes[..LZ4_HEADER]);
    }
  }

  lemma SizeField(h: seq<byte>)
    requires |h| == LZ4_HEADER
    ensures HeaderSize(h) == h[2] as int + 256 * h[3] as int
  {
    assert h[2..][1..] == [h[3]];
    assert DecodeLE([h[3]]) == h[3];
  }

  /** A read meets a message that has only partly arrived: it waits, and has nothing wrong in its buffer. */
  lemma DecodeCutShort(c: Codec, m: seq<byte>, cut: seq<byte>, room: nat)
    requires Lossless(c) && IsMessage(m) && |m| <= room
    requires cut < Encode(c, m)
    ensures var r := Decode(c, cut, |m|, room); r.Starved? && r.partial <= m
  {
    if c.LZ4? && |cut| >= LZ4_HEADER {
      PayloadFitsItsSizeField(c, m);
      assert cut[..LZ4_HEADER] == Encode(c, m)[..LZ4_HEADER];
    }
  }

  lemma {:induction false} EncodeAllAppend(c: Codec, a: seq<seq<byte>>, b: seq<seq<byte>>)
    ensures EncodeAll(c, a + b) == EncodeAll(c, a) + EncodeAll(c, b)
  {
    hide Encode;
    if a == [] {
      assert a + b == b;
    } else {
      var e, later := Encode(c, a[0]), EncodeAll(c, a[1..]);
      calc {
        EncodeAll(c, a + b);
        { assert (a + b)[0] == a[0] && (a + b)[1..] == a[1..] + b; }
        e + EncodeAll(c, a[1..] + b);
        { EncodeAllAppend(c, a[1..], b); }
        e + (later + EncodeAll(c, b));
        { Concat(e, later, EncodeAll(c, b)); }
        EncodeAll(c, a) + EncodeAll(c, b);
      }
    }
  }

  lemma EncodeAllSnoc(c: Codec, ms: seq<seq<byte>>, m: seq<byte>)
    ensures EncodeAll(c, ms + [m]) == EncodeAll(c, ms) + Encode(c, m)
  {
    EncodeAllAppend(c, ms, [m]);
    assert EncodeAll(c, [m]) == Encode(c, m) + EncodeAll(c, []);
  }

  /** The LZ4 write path: header first, then the shorter of the packed and the raw bytes. */
  method LZ4Write(c: Codec, p: Pipe, m: seq<byte>) returns (result: IOResult)
    requires c.LZ4?
    modifies p
    ensures result.Success? <==> IsMessage(m) && c.compress(m) != []
    ensures result.Success? ==> p.data == old(p.data) + Encode(c, m)
    ensures result.Success? ==>
      var packed, n := c.compress(m), |old(p.data)|;
      && |p.data| == n + 4 + Min(|packed|, |m|) && p.data[..n] == old(p.data)
      && p.data[n] == (if |packed| < |m| then 1 else 0)
      && p.data[n + 4..] == if |packed| < |m| then packed else m
  {
    var packed := c.compress(m);
    if |m| > UINT16_MAX || packed == [] || m == [] {
      return Aborted;
    }
    var compressUnderlying := |packed| < |m|;
    var size := (if compressUnderlying then |packed| else |m|) % (UINT16_MAX + 1);
    var written;
    result, written := WriteFull(p, Header(compressUnderlying, size));
    var underlying := if compressUnderlying then packed else m;
    result, written := WriteFull(p, underlying[..size]);
    assert underlying[..size] == underlying;
  }

  /** The LZ4 read path, for a caller with a buffer of `room`; `got` is what the caller is told it holds. */
  method LZ4Read(c: Codec, p: Pipe, length: nat, room: nat) returns (result: IOResult, got: seq<byte>)
    requires c.LZ4?
    modifies p
    ensures match Decode(c, old(p.data), length, room)
            case Message(m, rest) => result.Success? && got == m && p.data == rest
            case Starved(partial) => result.EndOfFile? && got == partial
            case Fatal => result.Aborted? || (result.Success? && |got| != length)
            case Overran => result.Overrun?
    ensures |p.data| <= |old(p.data)|
  {
    ghost var before := p.data;
    got := [];
    if length > UINT16_MAX {
      return Aborted, got;
    }
    var header;
    result, header := ReadFull(p, LZ4_HEADER);
    if !result.Success? {
      return result, got;
    }
    assert header == before[..LZ4_HEADER] && p.data == before[LZ4_HEADER..];
    var size := HeaderSize(header);
    var body;
    result, body := ReadFull(p, size);
    if header[0] == 0 {
      if |body| > room {
        return Overrun, got;
      }
      if result.Success? && |body| == length {
        got := body;
      }
    } else if result.Success? {
      match c.decompress(body)
      case None => result := Aborted;
      case Some(m) =>
        if |m| > length {
          result := Aborted;
        } else if |m| > room {
          result := Overrun;
        } else {
          got := m;
        }
    }
  }
}
