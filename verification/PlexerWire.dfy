/** Plexer frames: a 16-byte header, then the payload it announces; a negative command closes a stream. */
module PlexerWire {
  import opened Bytes

  type StreamID = id: nat | id < TWO_TO_64

  const ID_MAX: StreamID := TWO_TO_64 - 1

  /** Where an endpoint's count of its own ids stands before it has drawn any. */
  function LastID(even: bool): StreamID { if even then ID_MAX - 1 else ID_MAX }

  const HEADER := 16
  const COMMAND_CLOSE := -2
  const COMMAND_MAX := 65535
  const CHUNK_MAX := 16384

  datatype Frame = Data(id: StreamID, payload: seq<byte>) | Close(id: StreamID)

  predicate IsFrame(f: Frame) { f.Data? ==> 1 <= |f.payload| <= COMMAND_MAX }

  /** The C struct: a 32-bit command, four bytes of padding, a 64-bit id. */
  function Header(command: int, id: StreamID): (h: seq<byte>)
    ensures |h| == HEADER
  {
    EncodeInt32(command) + [0, 0, 0, 0] + EncodeLE(id, 8)
  }

  function HeaderCommand(h: seq<byte>): int
    requires |h| >= HEADER
  {
    DecodeInt32(h[..4])
  }

  function HeaderID(h: seq<byte>): StreamID
    requires |h| >= HEADER
  {
    Capacities();
    DecodeLE(h[8..16])
  }

  lemma HeaderRoundTrip(command: int, id: StreamID, rest: seq<byte>)
    requires IsInt32(command)
    ensures var h := Header(command, id) + rest;
            HeaderCommand(h) == command && HeaderID(h) == id && h[HEADER..] == rest
  {
    var h := Header(command, id) + rest;
    Capacities();
    DecodeEncodeInt32(command);
    DecodeEncodeLE(id, 8);
    assert h[..4] == EncodeInt32(command);
    assert h[8..16] == EncodeLE(id, 8);
  }

  /** Byte by byte: a length, or minus 2 for a close; then the id; the low bytes first. */
  lemma HeaderLayout(command: int, id: StreamID)
    requires 0 <= command <= 65535 || command == -2
    ensures Header(command, id) ==
      (if command == -2 then [254, 255, 255, 255] else [command % 256, command / 256, 0, 0]) + [0, 0, 0, 0]
      + [id % 256, id / 0x100 % 256, id / 0x1_0000 % 256, id / 0x100_0000 % 256,
         id / 0x1_0000_0000 % 256, id / 0x1_0000_0000 / 0x100 % 256,
         id / 0x1_0000_0000 / 0x1_0000 % 256, id / 0x1_0000_0000 / 0x100_0000 % 256]
  {
    hide EncodeLE;
    LittleEndian8(id);
    CommandBytes(command);
  }

  lemma CommandBytes(command: int)
    requires 0 <= command <= 65535 || command == -2
    ensures EncodeInt32(command) == if command == -2 then [254, 255, 255, 255] else [command % 256, command / 256, 0, 0]
  {
    hide EncodeLE;
    if command == -2 {
      assert command % TWO_TO_32 == 0xFFFF_FFFE;
      LittleEndian4(0xFFFF_FFFE);
    } else {
      assert command % TWO_TO_32 == command;
      LittleEndian4(command);
      TwoBytes(command);
    }
  }

  lemma TwoBytes(n: nat)
    requires n <= 65535
    ensures n / 0x100 % 256 == n / 256 && n / 0x1_0000 == 0 && n / 0x100_0000 == 0
  {
  }

  /** The payload length a command announces; none for a close. */
  function Announced(command: int): nat { if command > 0 then command else 0 }

  predicate IsCommand(command: int) { command == COMMAND_CLOSE || 1 <= command <= COMMAND_MAX }

  function Serialize(f: Frame): seq<byte> {
    match f
    case Data(id, payload) => Header(|payload|, id) + payload
    case Close(id) => Header(COMMAND_CLOSE, id)
  }

  function SerializeAll(fs: seq<Frame>): seq<byte> {
    if fs == [] then [] else Serialize(fs[0]) + SerializeAll(fs[1..])
  }

  /** The frames a byte string consists of, if it is whole frames. */
  function Parse(bytes: seq<byte>): Option<seq<Frame>>
    decreases |bytes|
  {
    if bytes == [] then Some([])
    else if |bytes| < HEADER then None
    else
      var command, id := HeaderCommand(bytes), HeaderID(bytes);
      var n := Announced(command);
      if !IsCommand(command) || |bytes| < HEADER + n then None
      else match Parse(bytes[HEADER + n..])
        case None => None
        case Some(fs) =>
          Some([if command == COMMAND_CLOSE then Close(id) else Data(id, bytes[HEADER..HEADER + n])] + fs)
  }

  lemma ParseCons(f: Frame, rest: seq<byte>)
    requires IsFrame(f)
    ensures Parse(Serialize(f) + rest)
         == match Parse(rest) case None => None case Some(fs) => Some([f] + fs)
  {
    hide Header;
    var bytes := Serialize(f) + rest;
    match f
    case Close(id) =>
      HeaderRoundTrip(COMMAND_CLOSE, id, rest);
    case Data(id, payload) =>
      Concat(Header(|payload|, id), payload, rest);
      HeaderRoundTrip(|payload|, id, payload + rest);
      assert bytes[HEADER..HEADER + |payload|] == payload;
      assert bytes[HEADER + |payload|..] == rest;
  }

  /** Frames parse back, so a byte string is the image of at most one sequence of frames. */
  lemma {:induction false} ParseSerialize(fs: seq<Frame>)
    requires forall f <- fs :: IsFrame(f)
    ensures Parse(SerializeAll(fs)) == Some(fs)
  {
    if fs != [] {
      ParseSerialize(fs[1..]);
      ParseCons(fs[0], SerializeAll(fs[1..]));
      assert [fs[0]] + fs[1..] == fs;
    }
  }

  /** A frame put on the end of a wire that parses is parsed last. */
  lemma {:induction false} ParseSnoc(bytes: seq<byte>, f: Frame)
    requires Parse(bytes).Some? && IsFrame(f)
    ensures Parse(bytes + Serialize(f)) == Some(Parse(bytes).value + [f])
    decreases |bytes|
  {
    hide Header, HeaderCommand, HeaderID, Serialize;
    var e := Serialize(f);
    if bytes == [] {
      assert bytes + e == e + [];
      ParseCons(f, []);
      assert Parse(bytes).value + [f] == [f] + Parse(bytes).value;
    } else {
      var n := HEADER + Announced(HeaderCommand(bytes));
      var all := bytes + e;
      SameHeader(bytes, e);
      assert all[n..] == bytes[n..] + e;
      assert all[HEADER..n] == bytes[HEADER..n];
      ParseSnoc(bytes[n..], f);
      var first, later := Parse(bytes).value[..1], Parse(bytes[n..]).value;
      assert Parse(bytes).value == first + later;
      Concat(first, later, [f]);
    }
  }

  lemma SameHeader(bytes: seq<byte>, more: seq<byte>)
    requires |bytes| >= HEADER
    ensures HeaderCommand(bytes + more) == HeaderCommand(bytes) && HeaderID(bytes + more) == HeaderID(bytes)
  {
    assert (bytes + more)[..4] == bytes[..4];
    assert (bytes + more)[8..16] == bytes[8..16];
  }

  lemma ParseUnfolds(bytes: seq<byte>)
    requires Parse(bytes).Some? && |bytes| >= HEADER
    ensures var command, id := HeaderCommand(bytes), HeaderID(bytes);
            var n := Announced(command);
            && IsCommand(command) && |bytes| >= HEADER + n && Parse(bytes[HEADER + n..]).Some?
            && Parse(bytes).value
               == [if command == COMMAND_CLOSE then Close(id) else Data(id, bytes[HEADER..HEADER + n])]
                  + Parse(bytes[HEADER + n..]).value
  {
    hide HeaderCommand, HeaderID;
  }

  /** The first frame of a byte string, seen behind its header. */
  lemma ParseHead(bytes: seq<byte>)
    requires Parse(bytes).Some? && |bytes| >= HEADER
    ensures Parse(bytes).value != []
    ensures var f, rest, later := Parse(bytes).value[0], bytes[HEADER..], Parse(bytes).value[1..];
            && f.id == HeaderID(bytes)
            && match f
               case Close(_) => HeaderCommand(bytes) == COMMAND_CLOSE && Parse(rest) == Some(later)
               case Data(_, payload) =>
                 && 1 <= |payload| == HeaderCommand(bytes) <= COMMAND_MAX && payload <= rest
                 && Parse(rest[|payload|..]) == Some(later)
  {
    hide HeaderCommand, HeaderID, Parse;
    ParseUnfolds(bytes);
    var n := HEADER + Announced(HeaderCommand(bytes));
    assert bytes[HEADER..][n - HEADER..] == bytes[n..];
    assert bytes[HEADER..n] == bytes[HEADER..][..n - HEADER];
    assert Parse(bytes).value[1..] == Parse(bytes[n..]).value;
  }

  /** The payload bytes a run of frames carries for one stream. */
  function DataOf(fs: seq<Frame>, id: StreamID): seq<byte> {
    if fs == [] then []
    else (if fs[0].Data? && fs[0].id == id then fs[0].payload else []) + DataOf(fs[1..], id)
  }

  lemma {:induction false} DataOfSnoc(fs: seq<Frame>, f: Frame, id: StreamID)
    ensures DataOf(fs + [f], id) == DataOf(fs, id) + DataOf([f], id)
  {
    if fs == [] {
      assert fs + [f] == [f];
    } else {
      var own := if fs[0].Data? && fs[0].id == id then fs[0].payload else [];
      calc {
        DataOf(fs + [f], id);
        { assert (fs + [f])[0] == fs[0] && (fs + [f])[1..] == fs[1..] + [f]; }
        own + DataOf(fs[1..] + [f], id);
        { DataOfSnoc(fs[1..], f, id); }
        own + (DataOf(fs[1..], id) + DataOf([f], id));
        { Concat(own, DataOf(fs[1..], id), DataOf([f], id)); }
        DataOf(fs, id) + DataOf([f], id);
      }
    }
  }

  lemma {:induction false} NoDataOf(fs: seq<Frame>, id: StreamID)
    requires forall f <- fs :: f.id != id
    ensures DataOf(fs, id) == []
  {
    if fs != [] {
      NoDataOf(fs[1..], id);
    }
  }
}
