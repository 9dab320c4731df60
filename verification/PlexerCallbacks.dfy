/**
 The upstream thread delivers for every stream, and it waits for the user's callbacks. A callback that reads waits
 for bytes that only the thread waiting for it could bring.
 */
module PlexerCallbacks {
  import opened Bytes
  import opened PlexerWire
  import opened PlexerProtocol
  import opened PlexerInvariant
  import opened PlexerTheorems
  import opened PlexerClosing
  import opened PlexerClose

  /** A callback waits to read from a stream in the table that has nothing to read and is not at its end. */
  predicate WaitsForBytes(e: Endpoint) {
    && WantOf(e).Bytes? && WantOf(e).from in e.streams
    && e.streams[WantOf(e).from].up == [] && WantOf(e).from !in e.closes
  }

  /** A callback waits to write into a stream in the table whose pipe has no room. */
  predicate WaitsForRoom(e: Endpoint, l: Limits) {
    && WantOf(e).Room? && WantOf(e).to in e.streams && |e.streams[WantOf(e).to].down| >= l.pipe
  }

  /** A callback that has not returned when all the threads are at rest waits for the one or for the other. */
  lemma RestingCallback(s: State, l: Limits, side: Side)
    requires AtRest(s, l) && Of(s, side).active && Of(s, side).upThread.Notifying?
    ensures WaitsForBytes(Of(s, side)) || WaitsForRoom(Of(s, side), l)
  {
    CannotMove(s, l, side, CallReturn);
    CannotMove(s, l, side, CallEnd);
    match WantOf(Of(s, side))
    case Bytes(_, _) => CannotMove(s, l, side, CallTake(1));
    case Room(_, _) =>
      if !WaitsForRoom(Of(s, side), l) {
        CannotMove(s, l, side, CallPut(1));
        assert false;
      }
    case Nothing =>
  }

  /** A thread that waits for its callback goes on waiting, and nothing comes up to the stream. */
  ghost predicate GoesOnWaiting(e: Endpoint, e': Endpoint) {
    WaitsForBytes(e) ==> e'.upThread == e.upThread && (WantOf(e).from in e'.streams ==> WaitsForBytes(e'))
  }

  lemma UserLeavesItWaiting(e: Endpoint, wire: seq<byte>, a: Action)
    requires WaitsForBytes(e) && Enabled(e, wire, a)
    requires a.CreateStream? || a.WriteDown? || a.ReadUp? || a.AskClose? || a.SetCallbacks? || a.Interrupt?
    ensures GoesOnWaiting(e, Act(e, wire, a).0)
  {
    hide Header, NextID, Receive, GotPayload, Deliver, Returned, Took, Put, Wanting, StartMarking, Mark, TakeChunk,
      SentHeader, SentPayload, SentClose;
  }

  lemma RequestLeavesItWaiting(e: Endpoint, wire: seq<byte>, a: Action)
    requires WaitsForBytes(e) && Enabled(e, wire, a) && (a.BeginClose? || a.PutMarker?)
    ensures GoesOnWaiting(e, Act(e, wire, a).0)
  {
    hide Header, NextID, Receive, GotPayload, Deliver, Returned, Took, Put, Wanting, Create, Read, Write, TakeChunk,
      SentHeader, SentPayload, SentClose;
  }

  lemma SendingLeavesItWaiting(e: Endpoint, wire: seq<byte>, a: Action)
    requires WaitsForBytes(e) && Enabled(e, wire, a)
    requires a.ReadChunk? || a.SendHeader? || a.SendPayload? || a.SendClose?
    ensures GoesOnWaiting(e, Act(e, wire, a).0)
  {
    hide Header, NextID, Receive, GotPayload, Deliver, Returned, Took, Put, Wanting, StartMarking, Mark, Create, Read, Write;
  }

  lemma CallCannotMove(e: Endpoint, wire: seq<byte>, a: Action)
    requires WaitsForBytes(e) && IsCall(a)
    ensures !Enabled(e, wire, a)
  {
  }

  lemma WaitingThreadStays(e: Endpoint, wire: seq<byte>, a: Action)
    requires WaitsForBytes(e) && Enabled(e, wire, a)
    ensures GoesOnWaiting(e, Act(e, wire, a).0) && Act(e, wire, a).1 == wire
  {
    assert !a.ReadHeader? && !a.ReadPayload? && !a.WriteUp?;
    if IsCall(a) {
      CallCannotMove(e, wire, a);
      assert false;
    }
    OtherStepsKeepTheReader(e, wire, a);
    hide Act, Enabled, WaitsForBytes, GoesOnWaiting;
    if a.BeginClose? || a.PutMarker? {
      RequestLeavesItWaiting(e, wire, a);
    } else if a.ReadChunk? || a.SendHeader? || a.SendPayload? || a.SendClose? {
      SendingLeavesItWaiting(e, wire, a);
    } else {
      UserLeavesItWaiting(e, wire, a);
    }
  }

  lemma OutLeavesItWaiting(e: Endpoint, out: seq<byte>)
    ensures GoesOnWaiting(e, e.(out := out))
  {
  }

  lemma WireOnlyGrows(e: Endpoint, wire: seq<byte>, a: Action)
    requires Enabled(e, wire, a)
    ensures e.out <= Act(e, wire, a).0.out
  {
    if IsUpstream(a) {
      UpstreamLeavesDown(e, wire, a);
      hide Act, Enabled;
    } else {
      hide Header, Receive, GotPayload, Deliver, Took, Put, Returned, Wanting, NextID;
    }
  }

  /**
   Nothing that either end can do brings a callback the bytes it waits for, or takes a frame off the wire before it,
   as long as the stream it reads is in the table.
   */
  lemma CallbackWaitsForItsOwnThread(s: State, side: Side, actor: Side, a: Action)
    requires WaitsForBytes(Of(s, side)) && Enabled(Of(s, actor), PeerOf(s, actor).out, a)
    ensures var s' := Next(s, actor, a);
            GoesOnWaiting(Of(s, side), Of(s', side)) && PeerOf(s, side).out <= PeerOf(s', side).out
  {
    if actor == side {
      WaitingThreadStays(Of(s, side), PeerOf(s, side).out, a);
    } else {
      OutLeavesItWaiting(Of(s, side), Act(Of(s, actor), PeerOf(s, actor).out, a).1);
      WireOnlyGrows(Of(s, actor), PeerOf(s, actor).out, a);
    }
    hide Act, Enabled, GoesOnWaiting, WaitsForBytes;
  }

  /** So it waits for ever: through any further run that leaves the stream in the table. */
  lemma {:induction false} CallbackWaitsOn(s: State, side: Side, later: seq<(Side, Action)>)
    requires WaitsForBytes(Of(s, side))
    requires forall j | 0 <= j <= |later| :: WantOf(Of(s, side)).from in Of(Run(s, later[..j]), side).streams
    ensures var s' := Run(s, later);
            && WaitsForBytes(Of(s', side)) && Of(s', side).upThread == Of(s, side).upThread
            && PeerOf(s, side).out <= PeerOf(s', side).out
    decreases |later|
  {
    if later != [] {
      var last := |later| - 1;
      var before, step := later[..last], later[last];
      assert forall j | 0 <= j <= last :: before[..j] == later[..j];
      assert later[..|later|] == later;
      CallbackWaitsOn(s, side, before);
      var at := Run(s, before);
      if Enabled(Of(at, step.0), PeerOf(at, step.0).out, step.1) {
        CallbackWaitsForItsOwnThread(at, side, step.0, step.1);
      }
      hide Enabled, Act, WaitsForBytes;
    }
  }

  // ---- A run that ends so ----

  function Send(side: Side, id: StreamID, n: nat): seq<(Side, Action)> {
    [(side, ReadChunk(id, n)), (side, SendHeader), (side, SendPayload(n))]
  }

  function Take(side: Side, n: nat): seq<(Side, Action)> {
    [(side, ReadHeader), (side, ReadPayload(n)), (side, WriteUp(n))]
  }

  lemma RunThree(p: seq<(Side, Action)>, c: seq<(Side, Action)>)
    requires |c| == 3
    ensures Run(INITIAL, p + c)
         == Next(Next(Next(Run(INITIAL, p), c[0].0, c[0].1), c[1].0, c[1].1), c[2].0, c[2].1)
  {
    assert c[..1] == [c[0]] && c[..2] == c[..1] + [c[1]] && c == c[..2] + [c[2]];
    hide Run, Next;
    RunSnoc(p, c[0]);
    RunFurther(p, c[..1], c[1]);
    RunFurther(p, c[..2], c[2]);
  }

  /** A whole pipe goes out as one frame. */
  lemma SendsAFrame(e: Endpoint, id: StreamID, data: seq<byte>)
    requires e.active && e.downThread.DownIdle? && id in e.streams && e.streams[id].down == data
    requires 1 <= |data| <= CHUNK_MAX && !e.streams[id].userClosed
    ensures var e1 := TakeChunk(e, id, |data|);
            && Enabled(e, [], ReadChunk(id, |data|)) && e1.active && e1.downThread == ChunkRead(id, data)
            && SentHeader(e1).active && SentHeader(e1).downThread == HeaderSent(id, data)
            && SentPayload(SentHeader(e1), |data|)
               == e.(out := e.out + Serialize(Data(id, data)), streams := e.streams[id := e.streams[id].(down := [])])
  {
    DownstreamSendsOneFrame(e, id, |data|);
    hide Header;
    assert data[..|data|] == data && data[|data|..] == [];
    Concat(e.out, Header(|data|, id), data);
  }

  function Pack(side: Side, me: Endpoint, peer: Endpoint, closed: set<StreamID>): State {
    if side.Master? then State(me, peer, closed) else State(peer, me, closed)
  }

  lemma NextIs(side: Side, me: Endpoint, peer: Endpoint, closed: set<StreamID>, a: Action)
    requires Enabled(me, peer.out, a) && !a.BeginClose?
    ensures var (me', out') := Act(me, peer.out, a);
            Next(Pack(side, me, peer, closed), side, a) == Pack(side, me', peer.(out := out'), closed)
  {
    hide Act, Enabled;
  }

  lemma SendActs(e: Endpoint, wire: seq<byte>, id: StreamID, data: seq<byte>)
    requires e.active && e.downThread.DownIdle? && id in e.streams && e.streams[id].down == data
    requires 1 <= |data| <= CHUNK_MAX
    requires var e1 := TakeChunk(e, id, |data|);
             e1.active && e1.downThread == ChunkRead(id, data)
             && SentHeader(e1).active && SentHeader(e1).downThread == HeaderSent(id, data)
    ensures var e1 := TakeChunk(e, id, |data|);
            && Enabled(e, wire, ReadChunk(id, |data|)) && Act(e, wire, ReadChunk(id, |data|)) == (e1, wire)
            && Enabled(e1, wire, SendHeader) && Act(e1, wire, SendHeader) == (SentHeader(e1), wire)
            && Enabled(SentHeader(e1), wire, SendPayload(|data|))
            && Act(SentHeader(e1), wire, SendPayload(|data|)) == (SentPayload(SentHeader(e1), |data|), wire)
  {
    hide TakeChunk, SentHeader, SentPayload;
  }

  lemma SendRuns(side: Side, me: Endpoint, peer: Endpoint, closed: set<StreamID>, id: StreamID, data: seq<byte>)
    requires me.active && me.downThread.DownIdle? && id in me.streams && me.streams[id].down == data
    requires 1 <= |data| <= CHUNK_MAX && !me.streams[id].userClosed
    ensures var c, s := Send(side, id, |data|), Pack(side, me, peer, closed);
            var me' := me.(
              out := me.out + Serialize(Data(id, data)), streams := me.streams[id := me.streams[id].(down := [])]);
            Next(Next(Next(s, c[0].0, c[0].1), c[1].0, c[1].1), c[2].0, c[2].1) == Pack(side, me', peer, closed)
  {
    SendsAFrame(me, id, data);
    var e1 := TakeChunk(me, id, |data|);
    var e2 := SentHeader(e1);
    hide Serialize, TakeChunk, SentHeader, SentPayload, Next, Pack;
    SendActs(me, peer.out, id, data);
    hide Act, Enabled;
    assert peer.(out := peer.out) == peer;
    NextIs(side, me, peer, closed, ReadChunk(id, |data|));
    NextIs(side, e1, peer, closed, SendHeader);
    NextIs(side, e2, peer, closed, SendPayload(|data|));
  }

  lemma TakesHeader(e: Endpoint, id: StreamID, data: seq<byte>)
    requires 1 <= |data| <= COMMAND_MAX && (id in e.streams || !(id % 2 == 0 && e.even)) && e.active
    ensures Receive(e, Header(|data|, id))
         == e.(streams := if id in e.streams then e.streams else e.streams[id := FreshStream(false)],
               upThread := HeaderRead(id, |data|, [], id !in e.streams))
  {
    assert Header(|data|, id) + [] == Header(|data|, id);
    HeaderRoundTrip(|data|, id, []);
    hide Header, HeaderCommand, HeaderID;
  }

  lemma TakenIs(e: Endpoint, id: StreamID, data: seq<byte>)
    requires 1 <= |data| <= COMMAND_MAX && (id in e.streams || !(id % 2 == 0 && e.even)) && e.active
    ensures var e1 := Receive(e, Header(|data|, id));
            && e1.active && e1.upThread.HeaderRead? && e1.upThread.length == |data|
            && GotPayload(e1, data).active && GotPayload(e1, data).upThread.PayloadRead?
            && GotPayload(e1, data).upThread.chunk == data
            && Deliver(GotPayload(e1, data), |data|) == Taken(e, id, data)
  {
    TakesHeader(e, id, data);
    var e1 := Receive(e, Header(|data|, id));
    hide Header, Receive;
    TakesPayload(e1, id, data);
    hide GotPayload, Deliver;
    var st := if id in e.streams then e.streams[id] else FreshStream(false);
    assert e1.streams[id] == st;
    var st' := st.(delivered := st.delivered + data, up := st.up + data);
    assert e1.streams[id := st'] == e.streams[id := st'];
  }

  lemma FrameParts(id: StreamID, data: seq<byte>)
    ensures var wire := Serialize(Data(id, data));
            |wire| == HEADER + |data| && wire[..HEADER] == Header(|data|, id) && wire[HEADER..] == data
    ensures data[..|data|] == data && data[|data|..] == []
  {
  }

  lemma TakeRuns(side: Side, me: Endpoint, peer: Endpoint, closed: set<StreamID>, id: StreamID, data: seq<byte>)
    requires me.active && me.upThread.UpIdle? && 1 <= |data| <= COMMAND_MAX
    requires (id in me.streams || !(id % 2 == 0 && me.even)) && peer.out == Serialize(Data(id, data))
    ensures var c, s := Take(side, |data|), Pack(side, me, peer, closed);
            Next(Next(Next(s, c[0].0, c[0].1), c[1].0, c[1].1), c[2].0, c[2].1)
            == Pack(side, Taken(me, id, data), peer.(out := []), closed)
  {
    hide Header, Receive, GotPayload, Deliver, Next, Pack, Serialize, Act, Enabled, Taken;
    FrameParts(id, data);
    TakenIs(me, id, data);
    var e1 := Receive(me, Header(|data|, id));
    ReadHeaderActs(me, peer.out);
    NextIs(side, me, peer, closed, ReadHeader);
    ReadPayloadActs(e1, data, |data|);
    NextIs(side, e1, peer.(out := data), closed, ReadPayload(|data|));
    WriteUpActs(GotPayload(e1, data), [], |data|);
    NextIs(side, GotPayload(e1, data), peer.(out := []), closed, WriteUp(|data|));
  }

  // ---- The chat ----

  /** A stream of which `up` is left to read, or all has been read. */
  function Record(local: bool, written: seq<byte>, down: seq<byte>, delivered: seq<byte>, up: seq<byte>): StreamState {
    StreamState(local, false, written, down, delivered, up, if up == [] then delivered else [])
  }

  /** The client: it has created stream 0 and written so much, some of which is still in the pipe or on the wire. */
  function Client(written: seq<byte>, down: seq<byte>, delivered: seq<byte>, up: seq<byte>, out: seq<byte>): Endpoint {
    Started(true).(
      lastID := 0, streams := map[0 := Record(true, written, down, delivered, up)], out := out)
  }

  /** The server, whose callback for new streams has been called for stream 0. */
  function Server(written: seq<byte>, down: seq<byte>, delivered: seq<byte>, up: seq<byte>, want: Want, out: seq<byte>)
    : Endpoint
  {
    Started(false).(
      onNew := true, onClose := true, streams := map[0 := Record(false, written, down, delivered, up)],
      upThread := Notifying(0, false, want), out := out)
  }

  /** The client opens a stream with its hello. */
  function Opens(hello: seq<byte>): seq<(Side, Action)> {
    [(Slave, SetCallbacks(true, true)), (Master, CreateStream), (Master, WriteDown(0, hello))]
  }

  /** The server's callback reads the hello and writes the answer. */
  function Answers(hello: seq<byte>, answer: seq<byte>): seq<(Side, Action)> {
    [(Slave, CallRead(0, |hello|)), (Slave, CallTake(|hello|)), (Slave, CallWrite(0, answer)), (Slave, CallPut(|answer|))]
  }

  /** Still in the callback, the server's user reads one byte more. */
  const ReadsOneMore: seq<(Side, Action)> := [(Slave, CallRead(0, 1))]

  /** The client reads the answer, and only then writes that byte. */
  function GoesOn(answer: seq<byte>, bang: byte): seq<(Side, Action)> {
    [(Master, ReadUp(0, |answer|)), (Master, WriteDown(0, [bang]))]
  }

  function Chat(hello: seq<byte>, answer: seq<byte>, bang: byte): seq<(Side, Action)> {
    Opens(hello) + Send(Master, 0, |hello|) + Take(Slave, |hello|)
      + Answers(hello, answer) + Send(Slave, 0, |answer|) + ReadsOneMore
      + Take(Master, |answer|) + GoesOn(answer, bang) + Send(Master, 0, 1)
  }

  function Listening(): Endpoint { Started(false).(onNew := true, onClose := true) }

  lemma OneStream(s: StreamState, s': StreamState)
    ensures var streams: map<StreamID, StreamState> := map[0 := s]; streams[0 := s'] == map[0 := s']
  {
  }

  lemma OpensRuns(hello: seq<byte>)
    ensures Run(INITIAL, Opens(hello)) == Pack(Master, Client(hello, hello, [], [], []), Listening(), {})
  {
    var c := Opens(hello);
    assert [] + c == c && [] + hello == hello;
    RunStarts();
    RunThree([], c);
    hide Run;
  }

  lemma AnswersRuns(p: seq<(Side, Action)>, client: Endpoint, hello: seq<byte>, answer: seq<byte>)
    requires hello != [] && answer != []
    requires Run(INITIAL, p) == Pack(Slave, Server([], [], hello, hello, Nothing, []), client, {})
    ensures Run(INITIAL, p + Answers(hello, answer))
         == Pack(Slave, Server(answer, answer, hello, [], Nothing, []), client, {})
  {
    var c := Answers(hello, answer);
    assert c[..3] == [c[0], c[1], c[2]] && c == c[..3] + [c[3]];
    RunThree(p, c[..3]);
    RunFurther(p, c[..3], c[3]);
    hide Run;
    assert hello[|hello|..] == [] && [] + answer == answer && answer[..|answer|] == answer;
    CallbackReads(client, hello);
    CallbackWrites(client, hello, answer);
  }

  lemma CallbackReads(client: Endpoint, hello: seq<byte>)
    requires hello != []
    ensures var s := Pack(Slave, Server([], [], hello, hello, Nothing, []), client, {});
            Next(Next(s, Slave, CallRead(0, |hello|)), Slave, CallTake(|hello|))
            == Pack(Slave, Server([], [], hello, [], Nothing, []), client, {})
  {
    assert client.(out := client.out) == client && hello[|hello|..] == [] && [] + hello[..|hello|] == hello;
    NextIs(Slave, Server([], [], hello, hello, Nothing, []), client, {}, CallRead(0, |hello|));
    NextIs(Slave, Server([], [], hello, hello, Bytes(0, |hello|), []), client, {}, CallTake(|hello|));
    hide Next;
  }

  lemma PutsAll(e: Endpoint, wire: seq<byte>, answer: seq<byte>)
    requires answer != [] && e.active && e.upThread == Notifying(0, false, Room(0, answer))
    requires 0 in e.streams && e.streams[0].written == [] == e.streams[0].down
    ensures Enabled(e, wire, CallPut(|answer|))
    ensures Act(e, wire, CallPut(|answer|)) ==
      (e.(streams := e.streams[0 := e.streams[0].(written := answer, down := answer)],
          upThread := Notifying(0, false, Nothing)), wire)
  {
    assert [] + answer == answer && answer[..|answer|] == answer;
    hide Create, Read, Took, Returned, Receive, GotPayload, Deliver, StartMarking, Mark, TakeChunk, SentHeader, SentPayload,
      SentClose;
  }

  lemma CallbackWrites(client: Endpoint, hello: seq<byte>, answer: seq<byte>)
    requires answer != []
    ensures var s := Pack(Slave, Server([], [], hello, [], Nothing, []), client, {});
            Next(Next(s, Slave, CallWrite(0, answer)), Slave, CallPut(|answer|))
            == Pack(Slave, Server(answer, answer, hello, [], Nothing, []), client, {})
  {
    var e0, e1 := Server([], [], hello, [], Nothing, []), Server([], [], hello, [], Room(0, answer), []);
    assert client.(out := client.out) == client;
    assert Enabled(e0, client.out, CallWrite(0, answer)) && Act(e0, client.out, CallWrite(0, answer)) == (e1, client.out);
    PutsAll(e1, client.out, answer);
    hide Next, Act, Enabled;
    NextIs(Slave, e0, client, {}, CallWrite(0, answer));
    NextIs(Slave, e1, client, {}, CallPut(|answer|));
  }

  lemma GoesOnRuns(p: seq<(Side, Action)>, server: Endpoint, hello: seq<byte>, answer: seq<byte>, bang: byte)
    requires answer != []
    requires Run(INITIAL, p) == Pack(Master, Client(hello, [], answer, answer, []), server, {})
    ensures Run(INITIAL, p + GoesOn(answer, bang))
         == Pack(Master, Client(hello + [bang], [bang], answer, [], []), server, {})
  {
    var c := GoesOn(answer, bang);
    assert c[..1] == [c[0]] && c == c[..1] + [c[1]];
    RunSnoc(p, c[0]);
    RunFurther(p, c[..1], c[1]);
    hide Run;
    assert server.(out := server.out) == server;
    var e0, e1 := Client(hello, [], answer, answer, []), Client(hello, [], answer, [], []);
    ClientReads(server.out, hello, answer);
    ClientWrites(server.out, hello, answer, bang);
    hide Next, Act, Enabled;
    NextIs(Master, e0, server, {}, ReadUp(0, |answer|));
    NextIs(Master, e1, server, {}, WriteDown(0, [bang]));
  }

  lemma ClientReads(wire: seq<byte>, hello: seq<byte>, answer: seq<byte>)
    requires answer != []
    ensures Enabled(Client(hello, [], answer, answer, []), wire, ReadUp(0, |answer|))
    ensures Act(Client(hello, [], answer, answer, []), wire, ReadUp(0, |answer|))
         == (Client(hello, [], answer, [], []), wire)
  {
    hide Create, Write, Took, Put, Returned, Receive, GotPayload, Deliver, StartMarking, Mark, TakeChunk, SentHeader,
      SentPayload, SentClose;
    assert answer[|answer|..] == [] && [] + answer[..|answer|] == answer;
    OneStream(Record(true, hello, [], answer, answer), Record(true, hello, [], answer, []));
  }

  lemma ClientWrites(wire: seq<byte>, hello: seq<byte>, answer: seq<byte>, bang: byte)
    ensures Enabled(Client(hello, [], answer, [], []), wire, WriteDown(0, [bang]))
    ensures Act(Client(hello, [], answer, [], []), wire, WriteDown(0, [bang]))
         == (Client(hello + [bang], [bang], answer, [], []), wire)
  {
    hide Create, Read, Took, Put, Returned, Receive, GotPayload, Deliver, StartMarking, Mark, TakeChunk, SentHeader,
      SentPayload, SentClose;
    assert [] + [bang] == [bang];
    OneStream(Record(true, hello, [], answer, []), Record(true, hello + [bang], [bang], answer, []));
  }

  lemma ClientSent(written: seq<byte>, data: seq<byte>, delivered: seq<byte>, up: seq<byte>)
    ensures var e, frame := Client(written, data, delivered, up, []), Serialize(Data(0, data));
            e.(out := e.out + frame, streams := e.streams[0 := e.streams[0].(down := [])])
            == Client(written, [], delivered, up, frame)
  {
    var frame := Serialize(Data(0, data));
    hide Serialize;
    assert [] + frame == frame;
  }

  /** The opening, up to the server's callback for the new stream. */
  lemma CallbackBegins(hello: seq<byte>)
    requires 1 <= |hello| <= CHUNK_MAX
    ensures Run(INITIAL, Opens(hello) + Send(Master, 0, |hello|) + Take(Slave, |hello|))
         == Pack(Slave, Server([], [], hello, hello, Nothing, []), Client(hello, [], [], [], []), {})
  {
    OpensRuns(hello);
    hide Run, Next, Serialize;
    var p, frame := Opens(hello), Serialize(Data(0, hello));
    ClientSent(hello, hello, [], []);
    SendRuns(Master, Client(hello, hello, [], [], []), Listening(), {}, 0, hello);
    RunThree(p, Send(Master, 0, |hello|));
    TakeRuns(Slave, Listening(), Client(hello, [], [], [], frame), {}, 0, hello);
    RunThree(p + Send(Master, 0, |hello|), Take(Slave, |hello|));
    assert [] + hello == hello;
    assert Taken(Listening(), 0, hello) == Server([], [], hello, hello, Nothing, []);
    assert Client(hello, [], [], [], frame).(out := []) == Client(hello, [], [], [], []);
  }

  lemma ServerSent(written: seq<byte>, data: seq<byte>, delivered: seq<byte>)
    ensures var e, frame := Server(written, data, delivered, [], Nothing, []), Serialize(Data(0, data));
            e.(out := e.out + frame, streams := e.streams[0 := e.streams[0].(down := [])])
            == Server(written, [], delivered, [], Nothing, frame)
  {
    var frame := Serialize(Data(0, data));
    hide Serialize;
    assert [] + frame == frame;
  }

  /** The callback reads the hello and answers, and its user reads on. */
  lemma CallbackAnswers(p: seq<(Side, Action)>, hello: seq<byte>, answer: seq<byte>)
    requires hello != [] && 1 <= |answer| <= CHUNK_MAX
    requires Run(INITIAL, p)
          == Pack(Slave, Server([], [], hello, hello, Nothing, []), Client(hello, [], [], [], []), {})
    ensures Run(INITIAL, p + Answers(hello, answer) + Send(Slave, 0, |answer|) + ReadsOneMore)
         == Pack(Slave, Server(answer, [], hello, [], Bytes(0, 1), Serialize(Data(0, answer))),
                 Client(hello, [], [], [], []), {})
  {
    var client, frame := Client(hello, [], [], [], []), Serialize(Data(0, answer));
    AnswersRuns(p, client, hello, answer);
    hide Run, Serialize;
    var q := p + Answers(hello, answer);
    ServerSent(answer, answer, hello);
    SendRuns(Slave, Server(answer, answer, hello, [], Nothing, []), client, {}, 0, answer);
    CallbackReadsOn(client, hello, answer, frame);
    hide Next, Pack;
    RunThree(q, Send(Slave, 0, |answer|));
    RunSnoc(q + Send(Slave, 0, |answer|), ReadsOneMore[0]);
  }

  lemma CallbackReadsOn(client: Endpoint, hello: seq<byte>, answer: seq<byte>, frame: seq<byte>)
    ensures Next(Pack(Slave, Server(answer, [], hello, [], Nothing, frame), client, {}), Slave, CallRead(0, 1))
         == Pack(Slave, Server(answer, [], hello, [], Bytes(0, 1), frame), client, {})
  {
    assert client.(out := client.out) == client;
    NextIs(Slave, Server(answer, [], hello, [], Nothing, frame), client, {}, CallRead(0, 1));
    hide Next;
  }

  /** The client reads the answer and sends the byte. */
  lemma ClientGoesOn(p: seq<(Side, Action)>, hello: seq<byte>, answer: seq<byte>, bang: byte)
    requires 1 <= |answer| <= CHUNK_MAX
    requires Run(INITIAL, p)
          == Pack(Slave, Server(answer, [], hello, [], Bytes(0, 1), Serialize(Data(0, answer))),
                  Client(hello, [], [], [], []), {})
    ensures Run(INITIAL, p + Take(Master, |answer|) + GoesOn(answer, bang) + Send(Master, 0, 1))
         == Pack(Master, Client(hello + [bang], [], answer, [], Serialize(Data(0, [bang]))),
                 Server(answer, [], hello, [], Bytes(0, 1), []), {})
  {
    var client, frame := Client(hello, [], [], [], []), Serialize(Data(0, answer));
    var server := Server(answer, [], hello, [], Bytes(0, 1), []);
    hide Run, Serialize, Next;
    assert Pack(Slave, server.(out := frame), client, {}) == Pack(Master, client, server.(out := frame), {});
    TakeRuns(Master, client, server.(out := frame), {}, 0, answer);
    RunThree(p, Take(Master, |answer|));
    OneStream(Record(true, hello, [], [], []), Record(true, hello, [], answer, answer));
    assert [] + answer == answer && Taken(client, 0, answer) == Client(hello, [], answer, answer, []);
    var q := p + Take(Master, |answer|);
    GoesOnRuns(q, server, hello, answer, bang);
    ClientSent(hello + [bang], [bang], answer, []);
    SendRuns(Master, Client(hello + [bang], [bang], answer, [], []), server, {}, 0, [bang]);
    RunThree(q + GoesOn(answer, bang), Send(Master, 0, 1));
  }

  lemma ServerHasNothingToDo(e: Endpoint, wire: seq<byte>, a: Action)
    requires IsService(a) && e.downThread.DownIdle? && e.asked == [] && WaitsForBytes(e)
    requires forall id <- e.streams :: e.streams[id].down == []
    ensures !Enabled(e, wire, a)
  {
  }

  lemma ChatEnds(hello: seq<byte>, answer: seq<byte>, bang: byte)
    requires 1 <= |hello| <= CHUNK_MAX && 1 <= |answer| <= CHUNK_MAX
    ensures Run(INITIAL, Chat(hello, answer, bang))
         == Pack(Master, Client(hello + [bang], [], answer, [], Serialize(Data(0, [bang]))),
                 Server(answer, [], hello, [], Bytes(0, 1), []), {})
  {
    hide Run, Serialize;
    var p := Opens(hello) + Send(Master, 0, |hello|) + Take(Slave, |hello|);
    CallbackBegins(hello);
    CallbackAnswers(p, hello, answer);
    ClientGoesOn(p + Answers(hello, answer) + Send(Slave, 0, |answer|) + ReadsOneMore, hello, answer, bang);
  }

  lemma NothingComesUp(
    client: Endpoint, server: Endpoint, l: Limits, hello: seq<byte>, answer: seq<byte>, bang: byte)
    requires client == Client(hello + [bang], [], answer, [], Serialize(Data(0, [bang])))
    requires server == Server(answer, [], hello, [], Bytes(0, 1), [])
    ensures WaitsForBytes(server) && !UpStalled(client, l) && !UpStalled(server, l)
    ensures !AllDelivered(State(client, server, {}), Master) && AllDelivered(State(client, server, {}), Slave)
  {
    hide Serialize;
    var s := State(client, server, {});
    assert |hello + [bang]| == |hello| + 1;
    assert 0 in Of(s, Master).streams && Of(s, Master).streams[0].written != Delivered(PeerOf(s, Master), 0);
    forall id <- Of(s, Slave).streams ensures Delivered(PeerOf(s, Slave), id) == Of(s, Slave).streams[id].written {
    }
  }

  lemma NothingMoves(
    client: Endpoint, server: Endpoint, l: Limits, hello: seq<byte>, answer: seq<byte>, bang: byte)
    requires client == Client(hello + [bang], [], answer, [], Serialize(Data(0, [bang])))
    requires server == Server(answer, [], hello, [], Bytes(0, 1), [])
    ensures AtRest(State(client, server, {}), l)
  {
    assert client.streams.Keys == {0} == server.streams.Keys;
    NothingComesUp(client, server, l, hello, answer, bang);
    hide Serialize, WaitsForBytes, AllDelivered;
    var s := State(client, server, {});
    forall side: Side, a: Action | IsService(a) ensures !Enabled(Of(s, side), PeerOf(s, side).out, a) {
      if side.Master? {
        NothingToDo(client, a);
      } else {
        ServerHasNothingToDo(server, client.out, a);
      }
    }
  }

  /**
   A server's callback for new streams reads on after the opening. The client sends no more until it has its answer,
   so that byte is in a later frame, which the thread that waits for the callback never reads. Nothing has been closed,
   nobody has hung up and no pipe is full; and no service thread has anything to do, whatever the capacities.
   */
  lemma CallbackReadingOnStandsStill(hello: seq<byte>, answer: seq<byte>, bang: byte, l: Limits)
    requires 1 <= |hello| <= CHUNK_MAX && 1 <= |answer| <= CHUNK_MAX && l.pipe >= 1
    ensures var s := Run(INITIAL, Chat(hello, answer, bang));
            && AtRest(s, l) && s.closed == {} && s.master.active && s.slave.active
            && !UpStalled(s.master, l) && !UpStalled(s.slave, l)
            && WaitsForBytes(s.slave) && s.master.out == Serialize(Data(0, [bang]))
            && !AllDelivered(s, Master) && AllDelivered(s, Slave)
  {
    ChatEnds(hello, answer, bang);
    var s := Run(INITIAL, Chat(hello, answer, bang));
    hide Run, Serialize, AllDelivered, AtRest, WaitsForBytes, UpStalled;
    NothingComesUp(s.master, s.slave, l, hello, answer, bang);
    NothingMoves(s.master, s.slave, l, hello, answer, bang);
  }
}
