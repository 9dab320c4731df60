/**
 The data path as a whole: a stream is opened, a file is forwarded on it, and the peer writes what it reads to
 a file of its own, while any number of other streams share the wire.
 */
module EndToEnd {
  import opened Bytes
  import opened Compression
  import opened Forward
  import opened Pipes
  import opened Streams
  import opened StreamOpen
  import opened PlexerWire
  import opened PlexerProtocol
  import opened PlexerTheorems
  import opened PlexerHistories
  import PlexerClose
  import Party = ConnectionParty
  import Setup = ConnectionSetup
  import Dialogue = ConnectionScript

  /** A setup that succeeds leaves the two plexers in the state from which the protocol's runs start. */
  lemma SetupStartsThePlexers(server: Party.Config, client: Party.Config, moves: seq<Setup.Move>)
    requires Party.IsConfig(server) && Party.IsConfig(client) && Dialogue.Compatible(server, client)
    requires Setup.Stuck(Setup.Run(Dialogue.Both(server, client), moves))
    ensures var net := Setup.Run(Dialogue.Both(server, client), moves);
            var s := State(Started(net.server.even), Started(net.client.even), {});
            s == INITIAL && s.master.lastID == net.server.lastID && s.slave.lastID == net.client.lastID
  {
    Dialogue.SetupOutcome(server, client, moves);
    hide Setup.Run, Setup.Stuck;
  }

  /** All that the opener of a stream ever writes on it: the announcement, then one forward. */
  function Sent(ctype: nat, lz4: Codec, bounded: bool, data: seq<byte>): seq<byte> {
    Encode(Plain, InitMessage(BUILTIN_VERSION, ctype)) + EncodeAll(CodecFor(ctype, lz4), Script(bounded, data))
  }

  /** What the acceptor makes of the bytes it has been given so far. */
  function Received(lz4: Codec, bytes: seq<byte>): Outcome {
    match Decode(Plain, bytes, INIT, INIT)
    case Message(m, rest) =>
      if Judge(DecodeLE(m[..2]), DecodeLE(m[2..])).Okay?
      then ReadForward(CodecFor(DecodeLE(m[2..]), lz4), rest)
      else Broken([], [])
    case Starved(_) => Dry([], [], true)
    case Fatal => Broken([], [])
    case Overran => Spilled([], [])
  }

  predicate Forwardable(ctype: nat, lz4: Codec, bounded: bool, data: seq<byte>) {
    && (ctype == TYPE_NONE || ctype == TYPE_LZ4)
    && |data| < TWO_TO_64 && (bounded ==> data != [])
  }

  lemma PrefixIsUnderstood(ctype: nat, lz4: Codec, bounded: bool, data: seq<byte>, arrived: seq<byte>)
    requires Lossless(lz4) && Forwardable(ctype, lz4, bounded, data)
    requires arrived <= Sent(ctype, lz4, bounded, data)
    ensures var o := Received(lz4, arrived);
            if arrived == Sent(ctype, lz4, bounded, data)
            then o == Finished(data, [], Lengths(Script(bounded, data)))
            else o.Dry? && o.out <= data
  {
    hide ReadForward, EncodeAll, Script, Encode, Decode;
    var c := CodecFor(ctype, lz4);
    var m, later := InitMessage(BUILTIN_VERSION, ctype), EncodeAll(c, Script(bounded, data));
    InitRoundTrip(BUILTIN_VERSION, ctype);
    if arrived == Sent(ctype, lz4, bounded, data) {
      DecodeEncode(Plain, m, later, INIT);
      ForwardRoundTrip(c, bounded, data, []);
      assert later + [] == later;
    } else {
      assert arrived < Encode(Plain, m) + later;
      var rest := DecodePrefix(Plain, m, later, arrived, INIT);
      if |arrived| >= |Encode(Plain, m)| {
        ForwardCutShort(c, bounded, data, rest);
      }
    }
  }

  /**
   Whatever the schedule of both plexers, of every other stream, of the pipe reads and of the writer's own progress:
   if the calls at one end have written part of an opening and a forward, then the acceptor, on the bytes its reads
   have got so far, never misreads, its output is a prefix of the data, it is exactly the data once it has read all
   that is sent, and until then it is waiting for more. And all has come up whenever the writer is done and the service
   threads have come to rest, unless one of them stands at a full pipe or waits for a callback.
   */
  lemma ForwardedExactly(
    schedule: seq<(Side, Action)>, side: Side, id: StreamID, ctype: nat, lz4: Codec, bounded: bool, data: seq<byte>)
    requires Lossless(lz4) && Forwardable(ctype, lz4, bounded, data)
    requires IsOpen(Run(INITIAL, schedule), side, id)
    requires AllWritten(schedule, side, id) <= Sent(ctype, lz4, bounded, data)
    ensures var taken := AllRead(schedule, Other(side), id);
            var o := Received(lz4, taken);
            && o.out <= data && (o.Dry? || o.Finished?)
            && (taken == Sent(ctype, lz4, bounded, data) <==> o.Finished?)
            && (o.Finished? ==> o.out == data && o.rest == [] && o.lengths == Lengths(Script(bounded, data)))
  {
    hide Run, Received, Sent, Lossless, Script, AllRead, AllWritten;
    ReadsGetWhatWasWritten(schedule, side, id);
    PrefixIsUnderstood(ctype, lz4, bounded, data, AllRead(schedule, Other(side), id));
  }

  lemma ForwardArrives(
    schedule: seq<(Side, Action)>, l: Limits, side: Side, id: StreamID,
    ctype: nat, lz4: Codec, bounded: bool, data: seq<byte>)
    requires Lossless(lz4) && Forwardable(ctype, lz4, bounded, data)
    requires l.pipe >= 1 && l.wire >= HEADER
    requires var s := Run(INITIAL, schedule);
             && AtRest(s, l) && IsOpen(s, side, id) && !UpStalled(PeerOf(s, side), l) && !DownStalled(Of(s, side), l)
             && !CallStalled(Of(s, side), PeerOf(s, side))
    requires AllWritten(schedule, side, id) == Sent(ctype, lz4, bounded, data)
    ensures var peer := PeerOf(Run(INITIAL, schedule), side);
            var left := if id in peer.streams then peer.streams[id].up else [];
            Received(lz4, AllRead(schedule, Other(side), id) + left)
            == Finished(data, [], Lengths(Script(bounded, data)))
  {
    hide Run, Received, Sent, Lossless, Script, AtRest, UpStalled, DownStalled, CallStalled, AllRead, AllWritten;
    RestMeansReadable(schedule, l, side, id);
    PrefixIsUnderstood(ctype, lz4, bounded, data, Sent(ctype, lz4, bounded, data));
  }

  // ---- A forward that closes its stream when it is done ----

  /** What comes behind a forward is left over. */
  lemma TailIsLeft(ctype: nat, lz4: Codec, bounded: bool, data: seq<byte>, tail: seq<byte>)
    requires Lossless(lz4) && Forwardable(ctype, lz4, bounded, data)
    ensures Received(lz4, Sent(ctype, lz4, bounded, data) + tail) == Finished(data, tail, Lengths(Script(bounded, data)))
  {
    hide ReadForward, EncodeAll, Script, Encode, Decode;
    var c := CodecFor(ctype, lz4);
    var m, later := InitMessage(BUILTIN_VERSION, ctype), EncodeAll(c, Script(bounded, data));
    InitRoundTrip(BUILTIN_VERSION, ctype);
    assert Sent(ctype, lz4, bounded, data) + tail == Encode(Plain, m) + (later + tail);
    DecodeEncode(Plain, m, later + tail, INIT);
    ForwardRoundTrip(c, bounded, data, tail);
  }

  /** All of a forward has been written when its stream's close is taken up. */
  ghost predicate ForwardClosedAt(
    schedule: seq<(Side, Action)>, k: nat, side: Side, id: StreamID,
    ctype: nat, lz4: Codec, bounded: bool, data: seq<byte>)
  {
    && Lossless(lz4) && Forwardable(ctype, lz4, bounded, data)
    && PlexerClose.ClosesAt(schedule, k, side, id) && PlexerClose.LeftToDrain(schedule, k, side, id)
    && Creations(schedule, side) <= TWO_TO_63
    && Of(Run(INITIAL, schedule[..k]), side).streams[id].written == Sent(ctype, lz4, bounded, data)
  }

  /**
   The close marker cannot spoil a forward. Wherever the close finds it, the acceptor never misreads, has a prefix of
   the data, and has all of it once it has read what was sent, with at most the marker left over.
   */
  lemma ClosedForwardIsExact(
    schedule: seq<(Side, Action)>, k: nat, side: Side, id: StreamID,
    ctype: nat, lz4: Codec, bounded: bool, data: seq<byte>)
    requires ForwardClosedAt(schedule, k, side, id, ctype, lz4, bounded, data)
    requires var s := Run(INITIAL, schedule); s.master.active && s.slave.active
    ensures var taken := TakenFrom(PeerOf(Run(INITIAL, schedule), side), id);
            var o := Received(lz4, taken);
            && o.out <= data && (o.Dry? || o.Finished?)
            && (Sent(ctype, lz4, bounded, data) <= taken <==> o.Finished?)
            && (o.Finished? ==> o.out == data && (o.rest == [] || o.rest == [CLOSE_MARKER])
                                && o.lengths == Lengths(Script(bounded, data)))
  {
    hide Run, Received, Sent, Lossless, Script, PlexerClose.ClosesAt, PlexerClose.LeftToDrain, TakenFrom, Delivered;
    PlexerClose.ClosedStreamIsPrefix(schedule, k, side, id);
    TakenIsDelivered(schedule, Other(side), id);
    var taken := TakenFrom(PeerOf(Run(INITIAL, schedule), side), id);
    var all := Sent(ctype, lz4, bounded, data);
    assert taken <= all + [CLOSE_MARKER];
    if all < taken {
      assert taken == all + [CLOSE_MARKER];
      TailIsLeft(ctype, lz4, bounded, data, [CLOSE_MARKER]);
    } else {
      assert taken <= all;
      PrefixIsUnderstood(ctype, lz4, bounded, data, taken);
    }
  }

  /** At rest the acceptor has the whole file, and the marker behind it exactly when the close is lost. */
  lemma ClosedForwardArrives(
    schedule: seq<(Side, Action)>, k: nat, l: Limits, side: Side, id: StreamID,
    ctype: nat, lz4: Codec, bounded: bool, data: seq<byte>)
    requires ForwardClosedAt(schedule, k, side, id, ctype, lz4, bounded, data)
    requires l.pipe >= 1 && l.wire >= HEADER
    requires var s := Run(INITIAL, schedule);
             && s.master.active && s.slave.active && AtRest(s, l)
             && !UpStalled(PeerOf(s, side), l) && !DownStalled(Of(s, side), l)
             && !CallStalled(Of(s, side), PeerOf(s, side))
    ensures var s, at := Run(INITIAL, schedule), Of(Run(INITIAL, schedule[..k]), side).streams[id];
            var left := if |at.down| % CHUNK_MAX == 0 then [] else [CLOSE_MARKER];
            Received(lz4, Delivered(PeerOf(s, side), id)) == Finished(data, left, Lengths(Script(bounded, data)))
  {
    var at, all := Of(Run(INITIAL, schedule[..k]), side).streams[id], Sent(ctype, lz4, bounded, data);
    hide Run, Received, Sent, Lossless, Script, AtRest, UpStalled, DownStalled, CallStalled, PlexerClose.ClosesAt,
      PlexerClose.LeftToDrain;
    PlexerClose.CloseArrivesIffPendingIsWholeChunks(schedule, k, l, side, id);
    TailIsLeft(ctype, lz4, bounded, data, if |at.down| % CHUNK_MAX == 0 then [] else [CLOSE_MARKER]);
    assert all + [] == all;
  }

  // ---- The two programs at the ends ----

  /** The opener's side: announce the codec, then forward a file. It writes what Sent says. */
  method OpenAndForward(s: Stream, file: Pipe, ctype: nat, lz4: Codec, length: Option<nat>) returns (ok: bool)
    requires Lossless(lz4) && s.downCodec == Plain && file != s.down && s.down.data == []
    requires length.Some? ==> 0 < length.value <= |file.data|
    requires var n := if length.Some? then length.value else |file.data|;
             Forwardable(ctype, lz4, length.Some?, file.data[..n])
    modifies s`written, s`downCodec, s`upCodec, s.down, file
    ensures var n := if length.Some? then length.value else |old(file.data)|;
            ok && s.down.data == Sent(ctype, lz4, length.Some?, old(file.data)[..n]) && file.data == old(file.data)[n..]
  {
    hide Encode, EncodeAll, Script, Lossless;
    var okay := SendInit(s, BUILTIN_VERSION, ctype, lz4);
    CodecsAreLossless(ctype, lz4);
    var off;
    ok, off := ForwardFromFile(s, file, length);
    assert [] + Encode(Plain, InitMessage(BUILTIN_VERSION, ctype)) == Encode(Plain, InitMessage(BUILTIN_VERSION, ctype));
  }

  lemma CodecsAreLossless(ctype: nat, lz4: Codec)
    requires Lossless(lz4)
    ensures Lossless(CodecFor(ctype, lz4))
  {
  }

  /** The acceptor's side: take up the codec, then write what comes to a file. It does what Received says. */
  method AcceptAndForward(s: Stream, file: Pipe, lz4: Codec) returns (ok: bool)
    requires Lossless(lz4) && s.downCodec == Plain && s.upCodec == Plain
    requires s.down != s.up && file != s.up && file != s.down
    modifies s`written, s`asked, s`downCodec, s`upCodec, s.down, s.up, file
    ensures var o := Received(lz4, old(s.up.data));
            && (ok <==> o.Finished? || (o.Dry? && !o.atCommand)) && (o.Finished? ==> s.up.data == o.rest)
            && file.data == old(file.data) + o.out
  {
    hide Decode, Encode, ReadForward, Lossless;
    CodecsAreLossless(TYPE_NONE, lz4);
    var okay, verdict := Accept(s, lz4);
    if !okay {
      assert file.data + [] == file.data;
      return false;
    }
    var off;
    ok, off := ForwardToFile(s, file, None);
  }
}
