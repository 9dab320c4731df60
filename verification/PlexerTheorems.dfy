/** What holds of two plexers after any schedule of their threads, their users and the peer. */
module PlexerTheorems {
  import opened Bytes
  import opened PlexerWire
  import opened PlexerProtocol
  import opened PlexerInvariant

  lemma ActKeeps(me: Endpoint, peer: Endpoint, closed: set<StreamID>, a: Action)
    requires Both(me, peer, closed) && Enabled(me, peer.out, a)
    ensures var (me', out') := Act(me, peer.out, a);
            me'.active ==> Both(me', peer.(out := out'), if a.BeginClose? then closed + {me.asked[0]} else closed)
  {
    hide Flow, Receive, Deliver, TakeChunk, StartMarking, Mark, Write, Create, SentHeader, SentPayload, SentClose,
      GotPayload, Took, Put, Returned;
    assert peer.(out := peer.out) == peer;
    match a
    case CreateStream => CreateKeeps(me, peer, closed);
    case WriteDown(id, data) => WriteKeeps(me, peer, closed, id, data);
    case ReadUp(id, n) => ReadKeeps(me, peer, closed, id, n);
    case AskClose(id) => PlainKeeps(me, peer, closed, me.(asked := me.asked + [id]));
    case BeginClose => StartMarkingKeeps(me, peer, closed);
    case PutMarker => MarkKeeps(me, peer, closed);
    case ReadChunk(id, n) => TakeChunkKeeps(me, peer, closed, id, n);
    case SendHeader => SendHeaderKeeps(me, peer, closed);
    case SendPayload(n) => SendPayloadKeeps(me, peer, closed, n);
    case SendClose => SendCloseKeeps(me, peer, closed);
    case ReadHeader => ReadHeaderKeeps(me, peer, closed);
    case ReadPayload(n) => ReadPayloadKeeps(me, peer, closed, n);
    case WriteUp(n) => WriteUpKeeps(me, peer, closed, n);
    case SetCallbacks(onNew, onClose) => PlainKeeps(me, peer, closed, me.(onNew := onNew, onClose := onClose));
    case CallRead(id, n) => PlainKeeps(me, peer, closed, Wanting(me, Bytes(id, n)));
    case CallWrite(id, data) => PlainKeeps(me, peer, closed, Wanting(me, Room(id, data)));
    case CallTake(n) => TookKeeps(me, peer, closed, n);
    case CallPut(n) => PutKeeps(me, peer, closed, n);
    case CallEnd => PlainKeeps(me, peer, closed, Wanting(me, Nothing));
    case CallReturn => ReturnKeeps(me, peer, closed);
    case Interrupt =>
  }

  /** Only a creation draws an id. */
  lemma ActDrawsNext(e: Endpoint, wire: seq<byte>, a: Action)
    requires Enabled(e, wire, a)
    ensures var e' := Act(e, wire, a).0;
            e'.even == e.even && e'.lastID == if a.CreateStream? then NextID(e) else e.lastID
  {
    if a.ReadHeader? {
      ReceiveChanges(e, wire[..HEADER]);
    }
    hide Header, Receive, NextID;
  }

  lemma ActKeepsIDs(e: Endpoint, wire: seq<byte>, a: Action)
    requires Enabled(e, wire, a) && OwnParity(e, e.lastID)
    ensures var e' := Act(e, wire, a).0; e'.even == e.even && OwnParity(e', e'.lastID)
  {
    ActDrawsNext(e, wire, a);
    NextIDIsOwn(e);
    hide Act, Enabled, NextID;
  }

  lemma NextKeeps(s: State, side: Side, a: Action)
    requires Inv(s)
    ensures Inv(Next(s, side, a))
  {
    var me, peer := Of(s, side), PeerOf(s, side);
    if Enabled(me, peer.out, a) {
      ActKeepsIDs(me, peer.out, a);
      hide Flow, Act, OwnParity;
      if me.active && peer.active {
        assert Both(me, peer, s.closed);
        ActKeeps(me, peer, s.closed, a);
      }
    }
  }

  /** Safety over whole runs: every reachable state keeps the books. */
  lemma {:induction false} RunKeeps(schedule: seq<(Side, Action)>)
    ensures Inv(Run(INITIAL, schedule))
    decreases |schedule|
  {
    hide Flow, Next;
    if schedule == [] {
      CalmStart();
    } else {
      var last := |schedule| - 1;
      RunKeeps(schedule[..last]);
      NextKeeps(Run(INITIAL, schedule[..last]), schedule[last].0, schedule[last].1);
    }
  }

  /** An open stream: known to the sender, neither end interrupted, and nobody has asked to close it. */
  predicate IsOpen(s: State, side: Side, id: StreamID) {
    && Of(s, side).active && PeerOf(s, side).active
    && id in Of(s, side).streams && id !in s.closed
  }

  /**
   Conservation and order. What was written on an open stream is what has been delivered, then what the
   peer holds, then the payloads in whole frames on the wire, then what the sender holds, then what waits
   in the pipe; and the wire parses, because one thread writes it.
   */
  lemma BytesAreConserved(schedule: seq<(Side, Action)>, side: Side, id: StreamID)
    requires IsOpen(Run(INITIAL, schedule), side, id)
    ensures var s := Run(INITIAL, schedule);
            WireParses(Of(s, side), PeerOf(s, side)) && Conserved(Of(s, side), PeerOf(s, side), id)
  {
    RunKeeps(schedule);
    var s := Run(INITIAL, schedule);
    assert EntryOK(Of(s, side), PeerOf(s, side), id);
  }

  /** The peer only ever sees a prefix of what was written, under every interleaving and chunk split. */
  lemma DeliveryIsPrefix(schedule: seq<(Side, Action)>, side: Side, id: StreamID)
    requires IsOpen(Run(INITIAL, schedule), side, id)
    ensures var s := Run(INITIAL, schedule);
            Delivered(PeerOf(s, side), id) <= Of(s, side).streams[id].written
  {
    BytesAreConserved(schedule, side, id);
  }

  /** Nothing of stream id is between the user's write and the peer's delivery. */
  predicate Settled(a: Endpoint, b: Endpoint, id: StreamID) {
    && (id in a.streams ==> a.streams[id].down == [])
    && a.downThread.DownIdle? && a.out == [] && !b.upThread.PayloadRead?
  }

  lemma SettledWire(a: Endpoint, b: Endpoint, closed: set<StreamID>, id: StreamID)
    requires WireParses(a, b) && ThreadsOK(a, b, closed) && Settled(a, b, id)
    ensures (b.upThread.UpIdle? || b.upThread.Notifying?) && InFlight(a, b) == []
  {
  }

  /** Once the pipe and the wire have drained, the peer has everything. */
  lemma SettledMeansDelivered(schedule: seq<(Side, Action)>, side: Side, id: StreamID)
    requires IsOpen(Run(INITIAL, schedule), side, id)
    requires var s := Run(INITIAL, schedule); Settled(Of(s, side), PeerOf(s, side), id)
    ensures var s := Run(INITIAL, schedule);
            Delivered(PeerOf(s, side), id) == Of(s, side).streams[id].written
  {
    BytesAreConserved(schedule, side, id);
    RunKeeps(schedule);
    var s := Run(INITIAL, schedule);
    assert Flow(Of(s, side), PeerOf(s, side), s.closed);
    SettledWire(Of(s, side), PeerOf(s, side), s.closed, id);
    hide Flow, Delivered, InFlight, WireParses, Run;
  }

  // ---- Where the threads come to rest, when pipes and connection hold only so much ----

  /** The bytes a stream's pipe holds each way, and those the connection holds each way. */
  datatype Limits = Limits(pipe: nat, wire: nat)

  /** Room for what an action writes; a blocking write that lacks it waits. */
  predicate Fits(e: Endpoint, a: Action, l: Limits) {
    match a
    case WriteDown(id, data) => id in e.streams ==> |e.streams[id].down| + |data| <= l.pipe
    case PutMarker =>
      e.downThread.Marking? && e.downThread.id in e.streams ==> |e.streams[e.downThread.id].down| < l.pipe
    case SendHeader => |e.out| + HEADER <= l.wire
    case SendPayload(n) => |e.out| + n <= l.wire
    case SendClose => |e.out| + HEADER <= l.wire
    case WriteUp(n) =>
      e.upThread.PayloadRead? && e.upThread.id in e.streams ==> |e.streams[e.upThread.id].up| + n <= l.pipe
    case CallPut(n) =>
      WantOf(e).Room? && WantOf(e).to in e.streams ==> |e.streams[WantOf(e).to].down| + n <= l.pipe
    case _ => true
  }

  /** The steps of the service threads, as opposed to what users and their callbacks ask for. */
  predicate IsService(a: Action) {
    && !(a.CreateStream? || a.WriteDown? || a.ReadUp? || a.AskClose? || a.Interrupt?)
    && !(a.SetCallbacks? || a.CallRead? || a.CallWrite?)
  }

  /** No service thread of either plexer can move. */
  ghost predicate AtRest(s: State, l: Limits) {
    forall side: Side, a: Action :: IsService(a) && Fits(Of(s, side), a, l) ==> !Enabled(Of(s, side), PeerOf(s, side).out, a)
  }

  /** The upstream thread stands at a full pipe that the stream's user is not reading. */
  predicate UpStalled(e: Endpoint, l: Limits) {
    && e.upThread.PayloadRead? && e.upThread.id in e.streams
    && |e.streams[e.upThread.id].up| >= l.pipe
  }

  /** The downstream thread stands at a full pipe with a close marker, and is the only one that could empty it. */
  predicate DownStalled(e: Endpoint, l: Limits) {
    && e.downThread.Marking? && e.downThread.id in e.streams
    && |e.streams[e.downThread.id].down| >= l.pipe
  }

  /** The upstream thread waits for a callback to return, with more on the wire before it. */
  predicate CallStalled(a: Endpoint, b: Endpoint) { b.upThread.Notifying? && a.out != [] }

  function Other(side: Side): Side { if side.Master? then Slave else Master }

  lemma CannotMove(s: State, l: Limits, side: Side, a: Action)
    requires AtRest(s, l) && IsService(a) && Fits(Of(s, side), a, l)
    ensures !Enabled(Of(s, side), PeerOf(s, side).out, a)
  {
  }

  /** A wire whose reader is between frames is empty or starts with a whole header. */
  lemma WireIsEmptyOrHasAHeader(a: Endpoint, b: Endpoint)
    requires WireParses(a, b) && TailOK(a, b) && b.upThread.UpIdle?
    requires a.downThread.HeaderSent? ==> a.downThread.chunk != []
    ensures (a.out == [] && !a.downThread.HeaderSent?) || |a.out| >= HEADER
  {
    var wire := Wire(a);
    assert wire[0..] == wire;
    if a.downThread.HeaderSent? {
      LastPayloadFits(wire, InFlight(a, b));
    }
  }

  /** The last payload of a byte string of frames stands behind a header. */
  lemma {:induction false} LastPayloadFits(bytes: seq<byte>, fs: seq<Frame>)
    requires Parse(bytes) == Some(fs) && fs != []
    ensures |bytes| >= HEADER
    ensures fs[|fs| - 1].Data? ==> |bytes| >= HEADER + |fs[|fs| - 1].payload|
    decreases |bytes|
  {
    hide HeaderCommand, HeaderID;
    var n := HEADER + Announced(HeaderCommand(bytes));
    if |fs| > 1 {
      assert Parse(bytes[n..]) == Some(fs[1..]);
      LastPayloadFits(bytes[n..], fs[1..]);
    }
  }

  /** At rest the upstream thread is stalled, or waits for a callback, or has an empty wire before it. */
  lemma RestedReader(s: State, l: Limits, side: Side)
    requires AtRest(s, l) && l.pipe >= 1 && l.wire >= HEADER
    requires Of(s, side).active && PeerOf(s, side).active && Flow(Of(s, side), PeerOf(s, side), s.closed)
    ensures var me, peer := Of(s, side), PeerOf(s, side);
            UpStalled(peer, l) || peer.upThread.Notifying? || (peer.upThread.UpIdle? && me.out == [])
  {
    hide Parse, Books, FramesOK;
    var me, peer, other := Of(s, side), PeerOf(s, side), Other(side);
    assert Of(s, other) == peer && PeerOf(s, other) == me;
    match peer.upThread
    case PayloadRead(_, _, _) =>
      if !UpStalled(peer, l) {
        CannotMove(s, l, other, WriteUp(1));
        assert false;
      }
    case HeaderRead(_, length, _, _) =>
      CannotMove(s, l, other, ReadPayload(1));
      CannotMove(s, l, side, SendPayload(1));
      assert false;
    case Notifying(_, _, _) =>
    case UpIdle =>
      WireIsEmptyOrHasAHeader(me, peer);
      CannotMove(s, l, other, ReadHeader);
  }

  /** At rest before an empty wire, the downstream thread is idle and the pipe empty, or the marker has no room. */
  lemma RestedWriter(s: State, l: Limits, side: Side, id: StreamID)
    requires AtRest(s, l) && l.pipe >= 1 && l.wire >= HEADER && Of(s, side).active && Of(s, side).out == []
    requires !DownStalled(Of(s, side), l) && (Of(s, side).downThread.HeaderSent? ==> Of(s, side).downThread.chunk != [])
    ensures Of(s, side).downThread.DownIdle?
    ensures id in Of(s, side).streams ==> Of(s, side).streams[id].down == []
  {
    match Of(s, side).downThread
    case Marking(_) =>
      CannotMove(s, l, side, PutMarker);
      assert false;
    case ChunkRead(_, _) =>
      CannotMove(s, l, side, SendHeader);
      assert false;
    case HeaderSent(_, _) =>
      CannotMove(s, l, side, SendPayload(1));
      assert false;
    case CloseDue(_) =>
      CannotMove(s, l, side, SendClose);
      assert false;
    case DownIdle =>
      CannotMove(s, l, side, ReadChunk(id, 1));
  }

  /** At rest, with no thread at a full pipe and nothing held up by a callback, nothing of any stream is on the way. */
  lemma RestedIsSettled(s: State, l: Limits, side: Side, id: StreamID)
    requires AtRest(s, l) && l.pipe >= 1 && l.wire >= HEADER
    requires Of(s, side).active && PeerOf(s, side).active && Flow(Of(s, side), PeerOf(s, side), s.closed)
    requires !UpStalled(PeerOf(s, side), l) && !CallStalled(Of(s, side), PeerOf(s, side)) && !DownStalled(Of(s, side), l)
    ensures Settled(Of(s, side), PeerOf(s, side), id)
  {
    assert ThreadsOK(Of(s, side), PeerOf(s, side), s.closed);
    RestedReader(s, l, side);
    hide Flow, AtRest;
    RestedWriter(s, l, side, id);
  }

  /**
   The threads come to rest with every open stream delivered whole, unless one of them stands at a full pipe or the
   upstream one waits for a callback.
   */
  lemma RestMeansDelivered(schedule: seq<(Side, Action)>, l: Limits, side: Side, id: StreamID)
    requires l.pipe >= 1 && l.wire >= HEADER
    requires AtRest(Run(INITIAL, schedule), l) && IsOpen(Run(INITIAL, schedule), side, id)
    requires var s := Run(INITIAL, schedule);
             !UpStalled(PeerOf(s, side), l) && !CallStalled(Of(s, side), PeerOf(s, side)) && !DownStalled(Of(s, side), l)
    ensures var s := Run(INITIAL, schedule);
            Delivered(PeerOf(s, side), id) == Of(s, side).streams[id].written
  {
    RunKeeps(schedule);
    RestedIsSettled(Run(INITIAL, schedule), l, side, id);
    SettledMeansDelivered(schedule, side, id);
  }

  /** Every stream of one side has been delivered whole. */
  ghost predicate AllDelivered(s: State, side: Side) {
    forall id <- Of(s, side).streams :: Delivered(PeerOf(s, side), id) == Of(s, side).streams[id].written
  }

  /** The first frame of a wire that waits for a callback belongs to an open stream and is still to be delivered. */
  lemma HeldUpFrame(a: Endpoint, b: Endpoint) returns (id: StreamID)
    requires Flow(a, b, {}) && CallStalled(a, b)
    ensures id in a.streams && DataOf(InFlight(a, b), id) != []
  {
    var wire, fs := Wire(a), InFlight(a, b);
    assert wire[0..] == wire && wire != [];
    ParseHead(wire);
    assert FrameOK(a, fs[0], {});
    id := fs[0].id;
    FirstFrame(fs, id);
  }

  lemma HeldUpIsUndelivered(a: Endpoint, b: Endpoint, id: StreamID)
    requires WireParses(a, b) && id in a.streams && EntryOK(a, b, id)
    requires Arriving(a, b, id) != [] || DataOf(InFlight(a, b), id) != []
    ensures Delivered(b, id) != a.streams[id].written
  {
    hide Delivered, Arriving, DataOf, InFlight, WireParses, Leaving;
  }

  /**
   No deadlock but two. While no stream has been closed, the threads rest with everything delivered exactly when the
   peer's one upstream thread neither stands at the full pipe of a stream whose user has stopped reading, nor waits for
   a callback with more on the wire before it.
   */
  lemma RestMeansAllDeliveredUnlessStalled(schedule: seq<(Side, Action)>, l: Limits, side: Side)
    requires l.pipe >= 1 && l.wire >= HEADER
    requires var s := Run(INITIAL, schedule);
             AtRest(s, l) && s.closed == {} && s.master.active && s.slave.active
    ensures var s := Run(INITIAL, schedule);
            AllDelivered(s, side) <==> !UpStalled(PeerOf(s, side), l) && !CallStalled(Of(s, side), PeerOf(s, side))
  {
    RunKeeps(schedule);
    var s := Run(INITIAL, schedule);
    var me, peer := Of(s, side), PeerOf(s, side);
    assert Flow(me, peer, {});
    hide Run;
    if UpStalled(peer, l) {
      var id := peer.upThread.id;
      assert EntryOK(me, peer, id) && Arriving(me, peer, id) != [];
      HeldUpIsUndelivered(me, peer, id);
    } else if CallStalled(me, peer) {
      var id := HeldUpFrame(me, peer);
      assert EntryOK(me, peer, id);
      HeldUpIsUndelivered(me, peer, id);
    } else {
      assert !DownStalled(me, l);
      hide Flow;
      forall id <- me.streams ensures Delivered(peer, id) == me.streams[id].written {
        RestMeansDelivered(schedule, l, side, id);
      }
    }
  }

  // ---- Stream ids ----

  /** The n-th id an endpoint draws. */
  function Drawn(even: bool, n: nat): StreamID
  {
    if n == 0 then LastID(even) else NextID(Started(even).(lastID := Drawn(even, n - 1)))
  }

  lemma TwoFurther(x: nat)
    ensures (x + 2) % TWO_TO_64 == if x % TWO_TO_64 >= ID_MAX - 1 then x % TWO_TO_64 + 2 - TWO_TO_64 else x % TWO_TO_64 + 2
  {
  }

  lemma {:induction false} NthID(even: bool, n: nat)
    requires n >= 1
    ensures Drawn(even, n) == (2 * (n - 1) + if even then 0 else 1) % TWO_TO_64
    ensures Drawn(even, n) % 2 == if even then 0 else 1
  {
    if n > 1 {
      NthID(even, n - 1);
      TwoFurther(2 * (n - 2) + if even then 0 else 1);
    }
  }

  lemma EarlyID(even: bool, n: nat)
    requires 1 <= n <= TWO_TO_63
    ensures Drawn(even, n) == 2 * (n - 1) + if even then 0 else 1
  {
    hide Drawn;
    NthID(even, n);
    Small(2 * (n - 1) + if even then 0 else 1);
  }

  lemma Small(x: nat)
    requires x < TWO_TO_64
    ensures x % TWO_TO_64 == x
  {
  }

  /** Before 2^63 draws no endpoint repeats an id, and the two endpoints never draw the same one. */
  lemma DrawsAreDistinct(even: bool, m: nat, even': bool, n: nat)
    requires 1 <= m <= TWO_TO_63 && 1 <= n <= TWO_TO_63
    ensures Drawn(even, m) == Drawn(even', n) <==> even == even' && m == n
  {
    hide Drawn;
    EarlyID(even, m);
    EarlyID(even', n);
  }

  /** After n creations the local streams in the table have the n lowest ids of the endpoint's parity. */
  ghost predicate HasDrawn(e: Endpoint, n: nat) {
    && n <= TWO_TO_63
    && e.lastID == (if n == 0 then LastID(e.even) else 2 * (n - 1) + if e.even then 0 else 1)
    && (forall id <- e.streams :: e.streams[id].local ==> n > 0 && id <= e.lastID && OwnParity(e, id))
  }

  /** How many streams a schedule asks one side to create. */
  function Creations(schedule: seq<(Side, Action)>, side: Side): nat
    decreases |schedule|
  {
    if schedule == [] then 0
    else
      var last := |schedule| - 1;
      Creations(schedule[..last], side) + if schedule[last] == (side, CreateStream) then 1 else 0
  }

  /** Whatever happens, an endpoint that has been told to create n streams stands at the n-th id, wrap-around and all. */
  lemma {:induction false} LastIDIsDrawn(schedule: seq<(Side, Action)>, side: Side)
    ensures var e := Of(Run(INITIAL, schedule), side);
            e.even == side.Master? && e.lastID == Drawn(e.even, Creations(schedule, side))
    decreases |schedule|
  {
    hide Act, Enabled, NextID;
    if schedule != [] {
      var last := |schedule| - 1;
      LastIDIsDrawn(schedule[..last], side);
      var s, step := Run(INITIAL, schedule[..last]), schedule[last];
      CreateIsEnabled(Of(s, step.0), PeerOf(s, step.0).out);
      if Enabled(Of(s, step.0), PeerOf(s, step.0).out, step.1) && step.0 == side {
        ActDrawsNext(Of(s, side), PeerOf(s, side).out, step.1);
        SameDraw(Of(s, side), Creations(schedule[..last], side));
      }
    }
  }

  lemma SameDraw(e: Endpoint, n: nat)
    requires e.lastID == Drawn(e.even, n)
    ensures NextID(e) == Drawn(e.even, n + 1)
  {
  }

  lemma CreateDraws(e: Endpoint, n: nat)
    requires HasDrawn(e, n) && n < TWO_TO_63
    ensures HasDrawn(Create(e), n + 1)
  {
  }

  lemma ActDraws(e: Endpoint, wire: seq<byte>, a: Action, n: nat)
    requires Enabled(e, wire, a) && HasDrawn(e, n) && (a.CreateStream? ==> n < TWO_TO_63)
    ensures HasDrawn(Act(e, wire, a).0, if a.CreateStream? then n + 1 else n)
  {
    if a.CreateStream? {
      CreateDraws(e, n);
      hide HasDrawn, Create;
    } else {
      KeepsDraws(e, wire, a);
      hide Act, Enabled;
    }
  }

  /** No stream becomes local. */
  ghost predicate KeepsLocals(e: Endpoint, e': Endpoint) {
    && e'.lastID == e.lastID && e'.even == e.even
    && forall id <- e'.streams | e'.streams[id].local :: id in e.streams && e.streams[id].local
  }

  lemma ReceiveKeepsLocals(e: Endpoint, header: seq<byte>)
    requires |header| == HEADER
    ensures KeepsLocals(e, Receive(e, header))
  {
    hide HeaderCommand, HeaderID;
  }

  /** The steps of the upstream thread and of its callbacks. */
  predicate IsUpstream(a: Action) {
    || a.ReadHeader? || a.ReadPayload? || a.WriteUp?
    || a.CallRead? || a.CallWrite? || a.CallTake? || a.CallPut? || a.CallEnd? || a.CallReturn?
  }

  lemma UpstreamKeepsDraws(e: Endpoint, wire: seq<byte>, a: Action)
    requires Enabled(e, wire, a) && IsUpstream(a)
    ensures KeepsLocals(e, Act(e, wire, a).0)
  {
    if a.ReadHeader? {
      ReceiveKeepsLocals(e, wire[..HEADER]);
    }
    hide Receive;
  }

  lemma KeepsDraws(e: Endpoint, wire: seq<byte>, a: Action)
    requires Enabled(e, wire, a) && !a.CreateStream?
    ensures KeepsLocals(e, Act(e, wire, a).0)
  {
    if IsUpstream(a) {
      UpstreamKeepsDraws(e, wire, a);
    }
    hide Header, Receive, GotPayload, Deliver, Took, Put, Returned, Wanting;
  }

  /** Whatever else happens, an endpoint's own streams are numbered by how many it has created. */
  lemma {:induction false} RunDraws(schedule: seq<(Side, Action)>, side: Side)
    requires Creations(schedule, side) <= TWO_TO_63
    ensures HasDrawn(Of(Run(INITIAL, schedule), side), Creations(schedule, side))
    decreases |schedule|
  {
    hide HasDrawn, Act, Enabled;
    if schedule == [] {
      DrawsStart(side);
    } else {
      var last := |schedule| - 1;
      RunDraws(schedule[..last], side);
      var s, step := Run(INITIAL, schedule[..last]), schedule[last];
      var n := Creations(schedule[..last], side);
      CreateIsEnabled(Of(s, step.0), PeerOf(s, step.0).out);
      if Enabled(Of(s, step.0), PeerOf(s, step.0).out, step.1) {
        if step.0 == side {
          ActDraws(Of(s, side), PeerOf(s, side).out, step.1, n);
        } else {
          OutDoesNotDraw(Of(s, side), Act(Of(s, step.0), PeerOf(s, step.0).out, step.1).1, n);
        }
      }
    }
  }

  lemma DrawsStart(side: Side)
    ensures HasDrawn(Of(INITIAL, side), 0)
  {
  }

  lemma CreateIsEnabled(e: Endpoint, wire: seq<byte>)
    ensures Enabled(e, wire, CreateStream)
  {
  }

  lemma OutDoesNotDraw(e: Endpoint, out: seq<byte>, n: nat)
    requires HasDrawn(e, n)
    ensures HasDrawn(e.(out := out), n)
  {
  }

  // ---- Runs in which nothing is closed ----

  /** No downstream thread took up a close request and neither end was interrupted from outside. */
  predicate Calm(schedule: seq<(Side, Action)>) {
    forall step <- schedule :: !step.1.BeginClose? && !step.1.Interrupt?
  }

  lemma ActStaysUp(me: Endpoint, peer: Endpoint, a: Action, n: nat)
    requires Both(me, peer, {}) && Enabled(me, peer.out, a) && !a.BeginClose? && !a.Interrupt?
    requires HasDrawn(me, n) && (a.CreateStream? ==> n < TWO_TO_63)
    ensures Act(me, peer.out, a).0.active
  {
    hide Flow;
    if a.ReadHeader? {
      ReadHeaderKeeps(me, peer, {});
    } else if a.CreateStream? && NextID(me) in me.streams {
      NextIDIsOwn(me);
      LocalIffOwn(me, peer, NextID(me));
      assert false;
    }
  }

  lemma LocalIffOwn(a: Endpoint, b: Endpoint, id: StreamID)
    requires Both(a, b, {}) && id in a.streams
    ensures a.streams[id].local <==> OwnParity(a, id)
    ensures !a.streams[id].local ==> id in b.streams
  {
    assert EntryOK(a, b, id);
  }

  ghost predicate CalmState(s: State) { s.closed == {} && Both(s.master, s.slave, {}) }

  lemma CalmStep(s: State, side: Side, a: Action, n: nat)
    requires CalmState(s) && !a.BeginClose? && !a.Interrupt?
    requires HasDrawn(Of(s, side), n) && (a.CreateStream? ==> n < TWO_TO_63)
    ensures CalmState(Next(s, side, a))
  {
    hide Flow, Act, HasDrawn;
    var me, peer := Of(s, side), PeerOf(s, side);
    if Enabled(me, peer.out, a) {
      ActStaysUp(me, peer, a, n);
      ActKeeps(me, peer, {}, a);
    }
  }

  lemma StartedFlow(even: bool, even': bool)
    ensures Flow(Started(even), Started(even'), {})
  {
    assert Wire(Started(even)) == [] && InFlight(Started(even), Started(even')) == [];
    hide Parse, DataOf, LastID;
  }

  lemma CalmStart()
    ensures CalmState(INITIAL)
  {
    hide Flow;
    StartedFlow(true, false);
    StartedFlow(false, true);
  }

  lemma {:induction false} CalmRunInvariant(schedule: seq<(Side, Action)>)
    requires Calm(schedule)
    requires Creations(schedule, Master) <= TWO_TO_63 && Creations(schedule, Slave) <= TWO_TO_63
    ensures CalmState(Run(INITIAL, schedule))
    decreases |schedule|
  {
    hide CalmState, Next, HasDrawn;
    if schedule == [] {
      CalmStart();
    } else {
      var last := |schedule| - 1;
      CalmRunInvariant(schedule[..last]);
      assert schedule[last] in schedule;
      var side := schedule[last].0;
      assert side == Master || side == Slave;
      RunDraws(schedule[..last], side);
      CalmStep(Run(INITIAL, schedule[..last]), side, schedule[last].1, Creations(schedule[..last], side));
    }
  }

  /**
   While nobody closes or hangs up, no header is ever refused, an endpoint can create all 2^63 streams its
   parity allows before ids run out, and in each table the entries of own parity are exactly the locally created
   ones; every other entry is one the peer created.
   */
  lemma CalmRunsStayUp(schedule: seq<(Side, Action)>, side: Side)
    requires Calm(schedule)
    requires Creations(schedule, Master) <= TWO_TO_63 && Creations(schedule, Slave) <= TWO_TO_63
    ensures var s := Run(INITIAL, schedule);
            var me, peer := Of(s, side), PeerOf(s, side);
            && me.active && peer.active
            && (forall id <- me.streams :: me.streams[id].local <==> OwnParity(me, id))
            && (forall id <- me.streams :: !me.streams[id].local ==> id in peer.streams && peer.streams[id].local)
  {
    CalmRunInvariant(schedule);
    var s := Run(INITIAL, schedule);
    var me, peer := Of(s, side), PeerOf(s, side);
    assert Both(me, peer, {}) && Both(peer, me, {});
    hide Flow, Run;
    forall id <- me.streams
      ensures me.streams[id].local <==> OwnParity(me, id)
      ensures !me.streams[id].local ==> id in peer.streams && peer.streams[id].local
    {
      LocalIffOwn(me, peer, id);
      if id in peer.streams {
        LocalIffOwn(peer, me, id);
      }
    }
  }
}
