/**
 From a close request on: where the bytes of the stream, and then its end or the marker, can be, and how every
 step of either plexer keeps them there. The theorems about runs that close a stream follow.
 */
module PlexerClosing {
  import opened Bytes
  import opened PlexerWire
  import opened PlexerProtocol
  import opened PlexerInvariant
  import opened PlexerTheorems

  /** The end of a stream, among its bytes. */
  const CLOSED := -1

  function Told(f: Frame, id: StreamID): seq<int> {
    if f.id != id then []
    else match f
      case Data(_, payload) => payload
      case Close(_) => [CLOSED]
  }

  function Tokens(fs: seq<Frame>, id: StreamID): seq<int> {
    if fs == [] then [] else Told(fs[0], id) + Tokens(fs[1..], id)
  }

  lemma {:induction false} TokensSnoc(fs: seq<Frame>, f: Frame, id: StreamID)
    ensures Tokens(fs + [f], id) == Tokens(fs, id) + Told(f, id)
  {
    if fs == [] {
      assert fs + [f] == [f];
    } else {
      assert (fs + [f])[0] == fs[0] && (fs + [f])[1..] == fs[1..] + [f];
      TokensSnoc(fs[1..], f, id);
    }
  }

  /** What the downstream thread holds of a stream. */
  function Held(a: Endpoint, id: StreamID): seq<int> {
    if a.downThread.ChunkRead? && a.downThread.id == id then a.downThread.chunk
    else if a.downThread == CloseDue(id) then [CLOSED]
    else []
  }

  /** What has reached the peer. */
  function Seen(b: Endpoint, id: StreamID): seq<int> {
    Delivered(b, id) + if id in b.closes then [CLOSED] else []
  }

  function Sent(a: Endpoint, b: Endpoint, id: StreamID): seq<int>
    requires WireParses(a, b)
  {
    Seen(b, id) + Arriving(a, b, id) + Tokens(InFlight(a, b), id) + Held(a, id)
  }

  /** What full reads make of some bytes with a marker behind them. */
  function Parting(pending: seq<byte>): seq<int> {
    pending + [if |pending| % CHUNK_MAX == 0 then CLOSED else CLOSE_MARKER]
  }

  function ToCome(a: Endpoint, id: StreamID): seq<int> {
    if id !in a.streams then []
    else
      var down := a.streams[id].down;
      if a.downThread == Marking(id) then Parting(down)
      else if down == [] then []
      else Parting(down[..|down| - 1])
  }

  function Whole(written: seq<byte>, whole: bool): seq<int> {
    written + [if whole then CLOSED else CLOSE_MARKER]
  }

  /** The closing end: the marker is behind what is left in the pipe, and the stream goes with its close frame. */
  predicate Packed(a: Endpoint, id: StreamID, whole: bool) {
    && OwnParity(a, id) && id <= a.lastID && id !in a.asked
    && (a.downThread == Marking(id) ==> id in a.streams)
    && (a.downThread == CloseDue(id) ==> id in a.streams && a.streams[id].down == [] && whole)
    && (id !in a.streams ==> whole)
    && (id in a.streams ==>
          var s := a.streams[id];
          && s.userClosed
          && (a.downThread == Marking(id) || a.downThread == CloseDue(id)
              || if s.down == [] then !whole else s.down[|s.down| - 1] == CLOSE_MARKER))
  }

  /** What a thread has in hand of a stream; a header that is out is on the wire with its payload. */
  function DownOn(e: Endpoint, id: StreamID): DownThread {
    match e.downThread
    case DownIdle => DownIdle
    case HeaderSent(_, _) => DownIdle
    case other => if other.id == id then other else DownIdle
  }

  function UpOn(e: Endpoint, id: StreamID): UpThread {
    if e.upThread.UpIdle? || e.upThread.id != id then UpIdle
    else if e.upThread.Notifying? then Notifying(id, e.upThread.closing, Nothing)
    else e.upThread
  }

  /** Nothing of stream id is on the way from b's user to a's. */
  ghost predicate Quiet(b: Endpoint, a: Endpoint, id: StreamID)
    requires WireParses(b, a)
  {
    && (id in b.streams ==> b.streams[id].down == [] && !b.streams[id].local)
    && id !in b.asked && DownOn(b, id).DownIdle?
    && (forall f <- InFlight(b, a) :: f.id != id)
    && UpOn(a, id).UpIdle?
  }

  function Count(s: seq<StreamID>, id: StreamID): nat {
    if s == [] then 0 else Count(s[..|s| - 1], id) + if s[|s| - 1] == id then 1 else 0
  }

  /**
   The receiving end: a stream is closed once at most, and once the callback about it has returned it is off the
   table, if there is a callback.
   */
  predicate Met(b: Endpoint, id: StreamID) {
    && (!UpOn(b, id).UpIdle? ==> id in b.streams)
    && (id in b.ended ==> id in b.closes)
    && Count(b.closes, id) == (if id in b.closes then 1 else 0)
    && (UpOn(b, id) == Notifying(id, true, Nothing) ==> id in b.closes && b.onClose)
    && (id in b.closes && UpOn(b, id) != Notifying(id, true, Nothing) ==> (id in b.streams <==> !b.onClose))
  }

  /** From the close request on: everything written, and then the end or the marker, is somewhere on its way. */
  ghost predicate Closing(a: Endpoint, b: Endpoint, id: StreamID, written: seq<byte>, whole: bool) {
    && WireParses(a, b) && WireParses(b, a)
    && Sent(a, b, id) + ToCome(a, id) == Whole(written, whole)
    && Packed(a, id, whole) && Quiet(b, a, id) && Met(b, id)
  }

  // ---- Steps that have nothing to do with the stream ----

  /** What an endpoint has of stream id in its tables is left alone. */
  predicate SameRecords(e: Endpoint, e': Endpoint, id: StreamID) {
    && (id in e'.streams <==> id in e.streams)
    && (id in e.streams ==> e'.streams[id] == e.streams[id].(up := e'.streams[id].up, taken := e'.streams[id].taken))
    && (id in e'.ended <==> id in e.ended) && (id in e.ended ==> e'.ended[id] == e.ended[id])
    && Count(e'.closes, id) == Count(e.closes, id) && (id in e'.closes <==> id in e.closes)
  }

  /** And what its threads have of it in hand. */
  predicate SameHands(e: Endpoint, e': Endpoint, id: StreamID) {
    && (id in e'.asked ==> id in e.asked)
    && DownOn(e', id) == DownOn(e, id) && UpOn(e', id) == UpOn(e, id)
    && e'.even == e.even && (OwnParity(e, id) ==> e'.lastID == e.lastID || e'.lastID > id)
  }

  predicate Untouched(e: Endpoint, e': Endpoint, id: StreamID) { SameRecords(e, e', id) && SameHands(e, e', id) }

  lemma MetKept(b: Endpoint, b': Endpoint, id: StreamID)
    requires Met(b, id) && Untouched(b, b', id) && b'.onClose == b.onClose
    ensures Met(b', id) && Seen(b', id) == Seen(b, id)
  {
    hide Count;
  }

  lemma PackedKept(a: Endpoint, a': Endpoint, id: StreamID, whole: bool)
    requires Packed(a, id, whole) && Untouched(a, a', id)
    ensures Packed(a', id, whole) && ToCome(a', id) == ToCome(a, id) && Held(a', id) == Held(a, id)
  {
    hide Count, Parting;
  }

  lemma QuietKept(b: Endpoint, a: Endpoint, b': Endpoint, a': Endpoint, id: StreamID)
    requires WireParses(b, a) && Quiet(b, a, id) && WireParses(b', a') && Untouched(a, a', id) && Untouched(b, b', id)
    requires forall f <- InFlight(b', a') :: f.id != id
    ensures Quiet(b', a', id)
  {
    hide WireParses, InFlight, Count;
  }

  lemma Elsewhere(
    a: Endpoint, b: Endpoint, id: StreamID, written: seq<byte>, whole: bool, a': Endpoint, b': Endpoint)
    requires Closing(a, b, id, written, whole) && Untouched(a, a', id) && Untouched(b, b', id)
    requires b'.onClose == b.onClose
    requires WireParses(a', b') && WireParses(b', a')
    requires Tokens(InFlight(a', b'), id) == Tokens(InFlight(a, b), id) && Arriving(a', b', id) == Arriving(a, b, id)
    requires forall f <- InFlight(b', a') :: f.id != id
    ensures Closing(a', b', id, written, whole)
  {
    hide Tokens, WireParses, InFlight, Arriving, Wire, Met, Packed, Quiet, Seen, ToCome, Held, Untouched;
    MetKept(b, b', id);
    PackedKept(a, a', id, whole);
    QuietKept(b, a, b', a', id);
  }

  /** Whether an action is about stream id. */
  predicate Concerns(e: Endpoint, wire: seq<byte>, a: Action, id: StreamID)
    requires Enabled(e, wire, a)
  {
    match a
    case CreateStream => NextID(e) == id
    case WriteDown(i, _) => i == id
    case AskClose(i) => i == id
    case BeginClose => e.asked[0] == id
    case PutMarker => e.downThread.id == id
    case ReadChunk(i, _) => i == id
    case SendHeader => e.downThread.id == id
    case SendClose => e.downThread.id == id
    case ReadHeader => HeaderID(wire[..HEADER]) == id
    case ReadPayload(_) => e.upThread.id == id
    case WriteUp(_) => e.upThread.id == id
    case CallPut(_) => WantOf(e).to == id
    case CallReturn => e.upThread.id == id
    case _ => false
  }

  lemma OneMore(s: seq<StreamID>, x: StreamID, id: StreamID)
    ensures Count(s + [x], id) == Count(s, id) + if x == id then 1 else 0
    ensures id in s + [x] <==> id in s || x == id
  {
    assert (s + [x])[..|s|] == s;
  }

  lemma ChooseLeavesAlone(e: Endpoint, i: StreamID, id: StreamID)
    requires i != id && Choose(e, i).active
    ensures SameRecords(e, Choose(e, i), id)
    ensures var e' := Choose(e, i); e' == e.(streams := e'.streams)
  {
  }

  lemma CloseReceivedLeavesAlone(e: Endpoint, i: StreamID, id: StreamID)
    requires i != id && e.upThread.UpIdle?
    ensures Untouched(e, CloseReceived(e, i), id)
  {
    OneMore(e.closes, i, id);
    hide Count;
  }

  lemma ReceiveLeavesAlone(e: Endpoint, header: seq<byte>, id: StreamID)
    requires |header| == HEADER && HeaderID(header) != id && e.upThread.UpIdle? && Receive(e, header).active
    ensures Untouched(e, Receive(e, header), id)
  {
    hide HeaderCommand, HeaderID, Choose, IsCommand, Count, SameRecords, SameHands;
    var i := HeaderID(header);
    if Choose(e, i).active {
      ChooseLeavesAlone(e, i, id);
      TableLeavesHands(e, Choose(e, i), id);
      if HeaderCommand(header) == COMMAND_CLOSE {
        CloseReceivedLeavesAlone(Choose(e, i), i, id);
        UntouchedTwice(e, Choose(e, i), Receive(e, header), id);
      } else {
        HeadingLeavesAlone(Choose(e, i), Receive(e, header).upThread, id);
        UntouchedTwice(e, Choose(e, i), Receive(e, header), id);
      }
    }
  }

  lemma TableLeavesHands(e: Endpoint, e': Endpoint, id: StreamID)
    requires e' == e.(streams := e'.streams)
    ensures SameHands(e, e', id)
  {
  }

  lemma HeadingLeavesAlone(e: Endpoint, t: UpThread, id: StreamID)
    requires UpOn(e.(upThread := t), id) == UpOn(e, id)
    ensures Untouched(e, e.(upThread := t), id)
  {
  }

  lemma UntouchedTwice(e: Endpoint, e': Endpoint, e'': Endpoint, id: StreamID)
    requires Untouched(e, e', id) && Untouched(e', e'', id)
    ensures Untouched(e, e'', id)
  {
    hide Count;
  }

  lemma EndLeavesAlone(e: Endpoint, i: StreamID, id: StreamID)
    requires i != id
    ensures Untouched(e, End(e, i), id)
  {
    hide Count;
  }

  lemma TakeChunkLeavesAlone(e: Endpoint, i: StreamID, n: nat, id: StreamID)
    requires i != id && i in e.streams && e.downThread.DownIdle? && 1 <= n <= |e.streams[i].down|
    ensures Untouched(e, TakeChunk(e, i, n), id)
  {
    hide Count;
  }

  lemma MarkLeavesAlone(e: Endpoint, id: StreamID)
    requires e.downThread.Marking? && e.downThread.id != id
    ensures Untouched(e, Mark(e), id)
  {
    hide Count;
  }

  lemma StartMarkingLeavesAlone(e: Endpoint, id: StreamID)
    requires e.downThread.DownIdle? && e.asked != [] && e.asked[0] != id
    ensures Untouched(e, StartMarking(e), id)
  {
    hide Count;
  }

  lemma SendingLeavesAlone(e: Endpoint, a: Action, id: StreamID)
    requires Enabled(e, [], a) && !Concerns(e, [], a, id) && (a.SendHeader? || a.SendPayload?)
    ensures Untouched(e, Act(e, [], a).0, id)
  {
    hide Header, Count;
  }

  lemma SentCloseLeavesAlone(e: Endpoint, id: StreamID)
    requires e.downThread.CloseDue? && e.downThread.id != id
    ensures Untouched(e, SentClose(e), id)
  {
    hide Header, Count, End;
    var sent := e.(out := e.out + Header(COMMAND_CLOSE, e.downThread.id), downThread := DownIdle);
    assert Untouched(e, sent, id);
    hide SameRecords, SameHands;
    EndLeavesAlone(sent, e.downThread.id, id);
    UntouchedTwice(e, sent, SentClose(e), id);
  }

  lemma WriteLeavesAlone(e: Endpoint, i: StreamID, data: seq<byte>, id: StreamID)
    requires i != id && i in e.streams
    ensures Untouched(e, Write(e, i, data), id)
  {
    hide Count;
  }

  lemma ReadLeavesAlone(e: Endpoint, i: StreamID, n: nat, id: StreamID)
    requires i in e.streams && n <= |e.streams[i].up|
    ensures Untouched(e, Read(e, i, n), id)
  {
    hide Count;
  }

  lemma DeliverLeavesAlone(e: Endpoint, n: nat, id: StreamID)
    requires e.upThread.PayloadRead? && 1 <= n <= |e.upThread.chunk| && e.upThread.id != id
    ensures Untouched(e, Deliver(e, n), id)
  {
    hide Count;
  }

  lemma ReturnLeavesAlone(e: Endpoint, id: StreamID)
    requires e.upThread.Notifying? && e.upThread.id != id
    ensures Untouched(e, Returned(e), id)
  {
    hide SameRecords, SameHands, End;
    var idle := e.(upThread := UpIdle);
    HeadingLeavesAlone(e, UpIdle, id);
    EndLeavesAlone(idle, e.upThread.id, id);
    UntouchedTwice(e, idle, End(idle, e.upThread.id), id);
  }

  lemma CreateLeavesAlone(e: Endpoint, id: StreamID)
    requires Create(e).active && NextID(e) != id && (NextID(e) > id || !OwnParity(e, id))
    ensures Untouched(e, Create(e), id)
  {
    hide Count, NextID;
  }

  predicate IsCall(a: Action) {
    a.CallRead? || a.CallWrite? || a.CallTake? || a.CallPut? || a.CallEnd? || a.CallReturn?
  }

  lemma CallLeavesAlone(e: Endpoint, a: Action, id: StreamID)
    requires Enabled(e, [], a) && !Concerns(e, [], a, id) && IsCall(a)
    ensures Untouched(e, Act(e, [], a).0, id)
  {
    hide SameRecords, SameHands, Read, Write, Returned;
    var e' := Act(e, [], a).0;
    match a
    case CallTake(n) =>
      ReadLeavesAlone(e, WantOf(e).from, n, id);
      ReadKeepsThreads(e, WantOf(e).from, n);
      HeadingLeavesAlone(Read(e, WantOf(e).from, n), e'.upThread, id);
      UntouchedTwice(e, Read(e, WantOf(e).from, n), e', id);
    case CallPut(n) =>
      var data := WantOf(e).data[..n];
      WriteLeavesAlone(e, WantOf(e).to, data, id);
      WriteKeepsThreads(e, WantOf(e).to, data);
      HeadingLeavesAlone(Write(e, WantOf(e).to, data), e'.upThread, id);
      UntouchedTwice(e, Write(e, WantOf(e).to, data), e', id);
    case CallReturn => ReturnLeavesAlone(e, id);
    case _ => HeadingLeavesAlone(e, e'.upThread, id);
  }

  lemma ReadKeepsThreads(e: Endpoint, i: StreamID, n: nat)
    requires i in e.streams && n <= |e.streams[i].up|
    ensures Read(e, i, n).upThread == e.upThread
  {
  }

  lemma WriteKeepsThreads(e: Endpoint, i: StreamID, data: seq<byte>)
    requires i in e.streams
    ensures Write(e, i, data).upThread == e.upThread
  {
  }

  /** A request or a setting, or a step of the wire's, that leaves the stream alone. */
  lemma PlainLeavesAlone(e: Endpoint, wire: seq<byte>, a: Action, id: StreamID)
    requires Enabled(e, wire, a) && !Concerns(e, wire, a, id) && (a.AskClose? || a.SetCallbacks? || a.ReadPayload?)
    ensures Untouched(e, Act(e, wire, a).0, id)
  {
    hide Count;
  }

  lemma ActLeavesAlone(e: Endpoint, wire: seq<byte>, a: Action, id: StreamID)
    requires Enabled(e, wire, a) && !Concerns(e, wire, a, id) && Act(e, wire, a).0.active
    requires a.CreateStream? ==> NextID(e) > id || !OwnParity(e, id)
    ensures Untouched(e, Act(e, wire, a).0, id)
  {
    hide Untouched, Receive, Mark, TakeChunk, SentHeader, SentPayload, SentClose, NextID, Took, Put, Returned, Wanting,
      Create, Write, Read, StartMarking, GotPayload, Deliver, AtEnd, OwnParity;
    match a
    case CreateStream => CreateLeavesAlone(e, id);
    case WriteDown(i, data) => WriteLeavesAlone(e, i, data, id);
    case ReadUp(i, n) => ReadLeavesAlone(e, i, n, id);
    case BeginClose => StartMarkingLeavesAlone(e, id);
    case PutMarker => MarkLeavesAlone(e, id);
    case ReadChunk(i, n) => TakeChunkLeavesAlone(e, i, n, id);
    case SendHeader => SendingLeavesAlone(e, a, id);
    case SendPayload(_) => SendingLeavesAlone(e, a, id);
    case SendClose => SentCloseLeavesAlone(e, id);
    case ReadHeader => ReceiveLeavesAlone(e, wire[..HEADER], id);
    case WriteUp(n) => DeliverLeavesAlone(e, n, id);
    case AskClose(_) => PlainLeavesAlone(e, wire, a, id);
    case SetCallbacks(_, _) => PlainLeavesAlone(e, wire, a, id);
    case ReadPayload(_) => PlainLeavesAlone(e, wire, a, id);
    case Interrupt =>
    case _ => CallLeavesAlone(e, a, id);
  }

  // ---- What each step does to the two wires ----

  /** The frame a step puts on the wire. */
  function NewFrames(e: Endpoint, a: Action): seq<Frame> {
    if a.SendHeader? && e.downThread.ChunkRead? then [Data(e.downThread.id, e.downThread.chunk)]
    else if a.SendClose? && e.downThread.CloseDue? then [Close(e.downThread.id)]
    else []
  }

  lemma ActOutbound(me: Endpoint, peer: Endpoint, closed: set<StreamID>, a: Action)
    requires Both(me, peer, closed) && Enabled(me, peer.out, a) && Act(me, peer.out, a).0.active
    ensures var (me', out') := Act(me, peer.out, a);
            var peer' := peer.(out := out');
            && WireParses(me', peer') && InFlight(me', peer') == InFlight(me, peer) + NewFrames(me, a)
            && forall i :: Arriving(me', peer', i) == Arriving(me, peer, i)
  {
    var (me', out') := Act(me, peer.out, a);
    var peer' := peer.(out := out');
    if a.SendHeader? {
      assert ThreadsOK(me, peer, closed);
      HeaderJoins(me);
      WireGains(me, peer, me', NewFrames(me, a)[0]);
    } else if a.SendClose? {
      WireGains(me, peer, me', NewFrames(me, a)[0]);
    } else {
      if a.SendPayload? {
        PayloadJoins(me, a.n);
      } else {
        OtherStepsKeepTheWire(me, peer.out, a);
      }
      SameWire(me, peer, me');
      assert InFlight(me, peer) + [] == InFlight(me, peer);
    }
    hide Act, Flow, Parse, Wire;
    SameReader(me', peer, peer');
  }

  lemma OtherStepsKeepTheWire(e: Endpoint, wire: seq<byte>, a: Action)
    requires Enabled(e, wire, a) && !a.SendHeader? && !a.SendClose? && !a.SendPayload?
    ensures Wire(Act(e, wire, a).0) == Wire(e)
  {
    if IsUpstream(a) {
      UpstreamLeavesDown(e, wire, a);
      hide Act, Enabled;
    } else {
      hide Receive, GotPayload, Deliver, Took, Put, Returned, Wanting, NextID;
    }
  }

  /** The upstream thread and its callbacks leave the downstream thread, its requests and the wire out alone. */
  lemma UpstreamLeavesDown(e: Endpoint, wire: seq<byte>, a: Action)
    requires Enabled(e, wire, a) && IsUpstream(a)
    ensures var e' := Act(e, wire, a).0; e'.downThread == e.downThread && e'.out == e.out && e'.asked == e.asked
  {
    if a.ReadHeader? {
      ReceiveChanges(e, wire[..HEADER]);
    }
    hide Receive;
  }

  lemma SameReader(a: Endpoint, b: Endpoint, b': Endpoint)
    requires WireParses(a, b) && (b'.upThread == b.upThread || StillCalling(b.upThread, b'.upThread))
    ensures WireParses(a, b') && InFlight(a, b') == InFlight(a, b)
    ensures forall i :: Arriving(a, b', i) == Arriving(a, b, i)
  {
  }

  lemma ActInbound(me: Endpoint, peer: Endpoint, closed: set<StreamID>, a: Action)
    requires Both(me, peer, closed) && Enabled(me, peer.out, a) && Act(me, peer.out, a).0.active
    ensures a.ReadHeader? ==> InFlight(peer, me) != [] && InFlight(peer, me)[0].id == HeaderID(peer.out[..HEADER])
    ensures var (me', out') := Act(me, peer.out, a);
            var peer' := peer.(out := out');
            && WireParses(peer', me')
            && InFlight(peer', me') == (if a.ReadHeader? then InFlight(peer, me)[1..] else InFlight(peer, me))
            && (!a.ReadHeader? && !a.WriteUp? ==> forall i :: Arriving(peer', me', i) == Arriving(peer, me, i))
  {
    var (me', out') := Act(me, peer.out, a);
    var peer' := peer.(out := out');
    if a.ReadHeader? {
      ReceiveIsReceived(me, peer, closed);
      HeaderTaken(me, peer, InFlight(peer, me)[0], me', peer');
    } else if a.ReadPayload? {
      WireLosesPayload(peer, me, a.n);
    } else if a.WriteUp? {
      WriteUpBooks(me, peer, closed, a.n);
      assert peer' == peer;
    } else {
      OtherStepsKeepTheReader(me, peer.out, a);
      hide Act;
      SameReader(peer, me, me');
      assert peer' == peer;
    }
  }

  lemma OtherStepsKeepTheReader(e: Endpoint, wire: seq<byte>, a: Action)
    requires Enabled(e, wire, a) && !a.ReadHeader? && !a.ReadPayload? && !a.WriteUp?
    ensures var (e', wire') := Act(e, wire, a);
            wire' == wire && (e'.upThread == e.upThread || (IsCall(a) && StillCalling(e.upThread, e'.upThread)))
  {
    hide Header;
  }

  /** Only the user's own setting changes whether there is a callback for closes. */
  lemma ActKeepsOnClose(e: Endpoint, wire: seq<byte>, a: Action)
    requires Enabled(e, wire, a)
    ensures Act(e, wire, a).0.onClose == if a.SetCallbacks? then a.onClose else e.onClose
  {
    if a.ReadHeader? {
      ReceiveChanges(e, wire[..HEADER]);
    }
    hide Header, Receive, NextID;
  }

  // ---- Steps about other streams ----

  lemma OutIsUntouched(e: Endpoint, out: seq<byte>, id: StreamID)
    ensures Untouched(e, e.(out := out), id)
  {
  }

  lemma NewFramesAreOthers(e: Endpoint, wire: seq<byte>, a: Action, id: StreamID)
    requires Enabled(e, wire, a) && !Concerns(e, wire, a, id)
    ensures forall f <- NewFrames(e, a) :: f.id != id
  {
  }

  lemma {:induction false} OthersTellNothing(fs: seq<Frame>, more: seq<Frame>, id: StreamID)
    requires forall f <- more :: f.id != id
    ensures Tokens(fs + more, id) == Tokens(fs, id)
    decreases |more|
  {
    if more == [] {
      assert fs + more == fs;
    } else {
      OthersTellNothing(fs + [more[0]], more[1..], id);
      assert fs + more == fs + [more[0]] + more[1..];
      TokensSnoc(fs, more[0], id);
    }
  }

  /** A step of the closing end that is not about the stream. */
  lemma CloserElsewhere(
    a: Endpoint, b: Endpoint, closed: set<StreamID>, id: StreamID, written: seq<byte>, whole: bool, act: Action)
    requires Both(a, b, closed) && Closing(a, b, id, written, whole)
    requires Enabled(a, b.out, act) && !Concerns(a, b.out, act, id) && Act(a, b.out, act).0.active
    requires act.CreateStream? ==> NextID(a) > id
    ensures var (a', out') := Act(a, b.out, act); Closing(a', b.(out := out'), id, written, whole)
  {
    hide Flow, Act, Untouched, Concerns, NewFrames, Packed, Met, Sent, ToCome, WireParses, InFlight, Arriving, Tokens,
      Enabled, Parse, Wire, DownOn, UpOn;
    var (a', out') := Act(a, b.out, act);
    var b' := b.(out := out');
    ActLeavesAlone(a, b.out, act, id);
    OutIsUntouched(b, out', id);
    assert b'.onClose == b.onClose;
    ActOutbound(a, b, closed, act);
    ActInbound(a, b, closed, act);
    NewFramesAreOthers(a, b.out, act, id);
    OthersTellNothing(InFlight(a, b), NewFrames(a, act), id);
    Elsewhere(a, b, id, written, whole, a', b');
  }

  lemma NothingArrives(a: Endpoint, b: Endpoint, act: Action, id: StreamID, a': Endpoint, b': Endpoint)
    requires Enabled(b, a.out, act) && !Concerns(b, a.out, act, id) && (act.ReadHeader? || act.WriteUp?)
    requires b' == Act(b, a.out, act).0 && WireParses(a, b) && WireParses(a', b')
    ensures Arriving(a, b, id) == [] == Arriving(a', b', id)
  {
    hide HeaderCommand, HeaderID, Parse;
  }

  /** A step of the receiving end that is not about the stream. */
  lemma ReceiverElsewhere(
    a: Endpoint, b: Endpoint, closed: set<StreamID>, id: StreamID, written: seq<byte>, whole: bool, act: Action)
    requires Both(b, a, closed) && Closing(a, b, id, written, whole)
    requires Enabled(b, a.out, act) && !Concerns(b, a.out, act, id) && Act(b, a.out, act).0.active
    requires act.SetCallbacks? ==> act.onClose == b.onClose
    ensures var (b', out') := Act(b, a.out, act); Closing(a.(out := out'), b', id, written, whole)
  {
    var (b', out') := Act(b, a.out, act);
    var a' := a.(out := out');
    assert !OwnParity(b, id);
    ActKeepsOnClose(b, a.out, act);
    hide Flow, WireParses, InFlight, HeaderID, Tokens, Wire;
    ActLeavesAlone(b, a.out, act, id);
    OutIsUntouched(a, out', id);
    ActOutbound(b, a, closed, act);
    ActInbound(b, a, closed, act);
    NewFramesAreOthers(b, a.out, act, id);
    var fs := InFlight(a, b);
    if act.ReadHeader? {
      TokensFirst(fs, id);
      assert Told(fs[0], id) + Tokens(fs[1..], id) == Tokens(fs[1..], id);
    }
    if act.ReadHeader? || act.WriteUp? {
      NothingArrives(a, b, act, id, a', b');
    }
    hide Act, Arriving, Untouched, Concerns, NewFrames, Packed, Met, Sent, ToCome;
    Elsewhere(a, b, id, written, whole, a', b');
  }

  lemma TokensFirst(fs: seq<Frame>, id: StreamID)
    requires fs != []
    ensures Tokens(fs, id) == Told(fs[0], id) + Tokens(fs[1..], id)
  {
  }

  // ---- Steps of the closing end about the stream ----

  lemma DownStepKeepsReader(e: Endpoint, wire: seq<byte>, a: Action)
    requires Enabled(e, wire, a) && (a.PutMarker? || a.ReadChunk? || a.SendHeader? || a.SendClose?)
    ensures Act(e, wire, a).0.upThread == e.upThread && Act(e, wire, a).1 == wire
  {
    hide Header;
  }

  /** Nothing of the stream comes towards the closing end, whose steps about it are therefore downstream. */
  lemma CloserKeepsQuiet(
    a: Endpoint, b: Endpoint, closed: set<StreamID>, id: StreamID, written: seq<byte>, whole: bool, act: Action)
    requires Both(a, b, closed) && Closing(a, b, id, written, whole)
    requires Enabled(a, b.out, act) && (act.PutMarker? || act.ReadChunk? || act.SendHeader? || act.SendClose?)
    requires Act(a, b.out, act).0.active
    ensures var (a', out') := Act(a, b.out, act);
            out' == b.out && WireParses(a', b) && WireParses(b, a') && Quiet(b, a', id)
  {
    hide Act, Enabled, Flow, Parse, Wire, Packed, Met, Sent, ToCome, WireParses, InFlight, NewFrames, Arriving, Tokens;
    DownStepKeepsReader(a, b.out, act);
    assert b.(out := b.out) == b;
    ActInbound(a, b, closed, act);
    ActOutbound(a, b, closed, act);
  }

  lemma MarkKeepsPacked(a: Endpoint, id: StreamID, whole: bool)
    requires Packed(a, id, whole) && a.downThread == Marking(id)
    ensures Packed(Mark(a), id, whole) && ToCome(Mark(a), id) == ToCome(a, id) && Held(Mark(a), id) == Held(a, id)
  {
    hide Parting;
    var down := a.streams[id].down;
    assert (down + [CLOSE_MARKER])[..|down|] == down;
  }

  lemma CloserMarks(
    a: Endpoint, b: Endpoint, closed: set<StreamID>, id: StreamID, written: seq<byte>, whole: bool)
    requires Both(a, b, closed) && Closing(a, b, id, written, whole) && a.downThread == Marking(id)
    ensures Closing(Mark(a), b, id, written, whole)
  {
    CloserKeepsQuiet(a, b, closed, id, written, whole, PutMarker);
    ActOutbound(a, b, closed, PutMarker);
    MarkKeepsPacked(a, id, whole);
    assert b.(out := b.out) == b;
    hide Flow, Parse, Wire, WireParses, InFlight, Arriving, Quiet, Met, Tokens, ToCome, Held, Packed, Mark, Seen;
    assert InFlight(Mark(a), b) == InFlight(a, b) + [] == InFlight(a, b);
  }

  /** One full read of a pipe with the marker at its end. */
  lemma PartingStep(down: seq<byte>)
    requires down != [] && down[|down| - 1] == CLOSE_MARKER
    ensures var n := Min(|down|, CHUNK_MAX);
            var chunk, rest := down[..n], down[n..];
            && (rest != [] ==> rest[|rest| - 1] == CLOSE_MARKER)
            && Parting(down[..|down| - 1])
               == (if chunk == [CLOSE_MARKER] then [CLOSED] else chunk)
                  + (if rest == [] then [] else Parting(rest[..|rest| - 1]))
            && (chunk == [CLOSE_MARKER] ==> rest == [])
  {
    var n, pending := Min(|down|, CHUNK_MAX), down[..|down| - 1];
    assert down == pending + [CLOSE_MARKER];
    if |pending| < CHUNK_MAX {
      assert down[..n] == down && down[n..] == [];
      assert pending == [] ==> down == [CLOSE_MARKER];
    } else {
      var later := pending[CHUNK_MAX..];
      assert down[n..] == later + [CLOSE_MARKER] && down[n..][..|down[n..]| - 1] == later;
      assert |later| % CHUNK_MAX == |pending| % CHUNK_MAX;
      assert pending == down[..n] + later;
    }
  }

  /** A full read by the thread moves what is to come into its hand. */
  lemma TakenToCome(a: Endpoint, id: StreamID, whole: bool)
    requires Packed(a, id, whole) && id in a.streams && a.downThread.DownIdle? && a.streams[id].down != []
    ensures var a' := TakeChunk(a, id, Min(|a.streams[id].down|, CHUNK_MAX));
            && ToCome(a, id) == Held(a', id) + ToCome(a', id) && Held(a, id) == []
            && (ToCome(a', id) == [] && Held(a', id) != [CLOSED] ==> Held(a', id)[|Held(a', id)| - 1] == CLOSE_MARKER)
            && ((ToCome(a', id) == [] ==> whole == (Held(a', id) == [CLOSED])) ==> Packed(a', id, whole))
  {
    PartingStep(a.streams[id].down);
    hide Parting;
  }

  lemma CloserReads(
    a: Endpoint, b: Endpoint, closed: set<StreamID>, id: StreamID, written: seq<byte>, whole: bool, n: nat)
    requires Both(a, b, closed) && Closing(a, b, id, written, whole)
    requires Enabled(a, b.out, ReadChunk(id, n)) && n == Min(|a.streams[id].down|, CHUNK_MAX)
    ensures Closing(TakeChunk(a, id, n), b, id, written, whole)
  {
    CloserKeepsQuiet(a, b, closed, id, written, whole, ReadChunk(id, n));
    ActOutbound(a, b, closed, ReadChunk(id, n));
    assert b.(out := b.out) == b;
    var a' := TakeChunk(a, id, n);
    assert InFlight(a', b) == InFlight(a, b) + [] == InFlight(a, b);
    TakenToCome(a, id, whole);
    hide Flow, Parse, Wire, WireParses, InFlight, Arriving, Quiet, Met, Parting, Tokens, Seen, Held, ToCome, TakeChunk,
      Packed, Enabled;
    var before := Seen(b, id) + Arriving(a, b, id) + Tokens(InFlight(a, b), id);
    assert before + [] == before;
    Concat(before, Held(a', id), ToCome(a', id));
    if ToCome(a', id) == [] {
      assert ToCome(a, id) == Held(a', id);
      LastToCome(a, b, id, written, whole);
    }
  }

  /** The last of what is to come is the last of it all. */
  lemma LastToCome(a: Endpoint, b: Endpoint, id: StreamID, written: seq<byte>, whole: bool)
    requires WireParses(a, b) && Sent(a, b, id) + ToCome(a, id) == Whole(written, whole) && ToCome(a, id) != []
    ensures ToCome(a, id)[|ToCome(a, id)| - 1] == if whole then CLOSED else CLOSE_MARKER
  {
    hide Sent, ToCome;
    var all, rest := Whole(written, whole), ToCome(a, id);
    assert (Sent(a, b, id) + rest)[|all| - 1] == rest[|rest| - 1];
  }

  /** What the thread had in hand is told by the frame it sends. */
  lemma SentIsHeld(a: Endpoint, b: Endpoint, a': Endpoint, f: Frame, id: StreamID)
    requires WireParses(a, b) && WireParses(a', b) && InFlight(a', b) == InFlight(a, b) + [f]
    requires Arriving(a', b, id) == Arriving(a, b, id) && Held(a, id) == Told(f, id) && Held(a', id) == []
    ensures Sent(a', b, id) == Sent(a, b, id)
  {
    hide Tokens, Parse, Wire, WireParses, InFlight, Arriving, Held, Told, Seen;
    TokensSnoc(InFlight(a, b), f, id);
    Concat(Seen(b, id) + Arriving(a, b, id), Tokens(InFlight(a, b), id), Told(f, id));
    assert Sent(a', b, id) == Seen(b, id) + Arriving(a, b, id) + Tokens(InFlight(a', b), id);
  }

  lemma SendingKeepsPacked(a: Endpoint, id: StreamID, whole: bool)
    requires Packed(a, id, whole) && (a.downThread.ChunkRead? || a.downThread.CloseDue?) && a.downThread.id == id
    ensures var (a', f) := if a.downThread.ChunkRead? then (SentHeader(a), Data(id, a.downThread.chunk))
                         else (SentClose(a), Close(id));
            Packed(a', id, whole) && ToCome(a', id) == ToCome(a, id) && Held(a, id) == Told(f, id) && Held(a', id) == []
  {
    hide Header, Parting;
  }

  lemma CloserSendsHeader(
    a: Endpoint, b: Endpoint, closed: set<StreamID>, id: StreamID, written: seq<byte>, whole: bool)
    requires Both(a, b, closed) && Closing(a, b, id, written, whole)
    requires a.downThread.ChunkRead? && a.downThread.id == id
    ensures Closing(SentHeader(a), b, id, written, whole)
  {
    CloserKeepsQuiet(a, b, closed, id, written, whole, SendHeader);
    ActOutbound(a, b, closed, SendHeader);
    SendingKeepsPacked(a, id, whole);
    assert b.(out := b.out) == b;
    hide Flow, Parse, Wire, WireParses, InFlight, Arriving, Quiet, Met, Packed, ToCome, Held, Told, Seen, SentHeader, Sent;
    SentIsHeld(a, b, SentHeader(a), Data(id, a.downThread.chunk), id);
  }

  lemma CloserSendsClose(
    a: Endpoint, b: Endpoint, closed: set<StreamID>, id: StreamID, written: seq<byte>, whole: bool)
    requires Both(a, b, closed) && Closing(a, b, id, written, whole) && a.downThread == CloseDue(id)
    ensures Closing(SentClose(a), b, id, written, whole)
  {
    CloserKeepsQuiet(a, b, closed, id, written, whole, SendClose);
    ActOutbound(a, b, closed, SendClose);
    SendingKeepsPacked(a, id, whole);
    assert b.(out := b.out) == b;
    hide Flow, Parse, Wire, WireParses, InFlight, Arriving, Quiet, Met, Packed, ToCome, Held, Told, Seen, SentClose, Sent;
    SentIsHeld(a, b, SentClose(a), Close(id), id);
  }

  lemma CloserStep(
    a: Endpoint, b: Endpoint, closed: set<StreamID>, id: StreamID, written: seq<byte>, whole: bool, act: Action)
    requires Both(a, b, closed) && Closing(a, b, id, written, whole)
    requires Enabled(a, b.out, act) && Act(a, b.out, act).0.active
    requires act.CreateStream? ==> NextID(a) > id
    requires (act.WriteDown? ==> act.id != id) && (act.CallPut? ==> WantOf(a).to != id)
    requires act.ReadChunk? && act.id == id ==> act.n == Min(|a.streams[id].down|, CHUNK_MAX)
    ensures var (a', out') := Act(a, b.out, act); Closing(a', b.(out := out'), id, written, whole)
  {
    if !Concerns(a, b.out, act, id) {
      CloserElsewhere(a, b, closed, id, written, whole, act);
    } else {
      CloserConcerns(a, b, closed, id, written, whole, act);
      assert b.(out := b.out) == b;
      hide Flow, Closing, Concerns, TakeChunk, Mark, SentHeader, SentClose;
      match act
      case PutMarker => CloserMarks(a, b, closed, id, written, whole);
      case ReadChunk(_, n) => CloserReads(a, b, closed, id, written, whole, n);
      case SendHeader => CloserSendsHeader(a, b, closed, id, written, whole);
      case SendClose => CloserSendsClose(a, b, closed, id, written, whole);
      case _ =>
    }
  }

  /** The closing end's steps about the stream are those of its downstream thread. */
  lemma CloserConcerns(
    a: Endpoint, b: Endpoint, closed: set<StreamID>, id: StreamID, written: seq<byte>, whole: bool, act: Action)
    requires Both(a, b, closed) && Closing(a, b, id, written, whole)
    requires Enabled(a, b.out, act) && Concerns(a, b.out, act, id) && Act(a, b.out, act).0.active
    requires act.CreateStream? ==> NextID(a) > id
    requires (act.WriteDown? ==> act.id != id) && (act.CallPut? ==> WantOf(a).to != id)
    ensures act.PutMarker? || act.ReadChunk? || act.SendHeader? || act.SendClose?
  {
    if act.ReadHeader? {
      ActInbound(a, b, closed, act);
      assert InFlight(b, a)[0] in InFlight(b, a);
    }
    hide Act, Flow, WireParses, InFlight, Sent, ToCome, Met, HeaderID;
  }

  // ---- Steps of the receiving end about the stream ----

  /** Once the end has been seen, nothing follows it. */
  lemma NothingAfterTheEnd(a: Endpoint, b: Endpoint, id: StreamID, written: seq<byte>, whole: bool)
    requires Closing(a, b, id, written, whole) && id in b.closes
    ensures Arriving(a, b, id) == [] && Tokens(InFlight(a, b), id) == [] && Held(a, id) == [] && ToCome(a, id) == []
    ensures whole && Delivered(b, id) == written
  {
    hide Packed, Quiet, Met, WireParses, InFlight, Arriving, Held, ToCome, Tokens, Delivered;
    var before, rest := Delivered(b, id), Arriving(a, b, id) + Tokens(InFlight(a, b), id) + Held(a, id) + ToCome(a, id);
    var all := Whole(written, whole);
    assert all == before + [CLOSED] + rest;
    assert all[|before|] == CLOSED;
    assert |rest| == 0 && all[..|written|] == written && all[..|before|] == before;
  }

  lemma ReceiverKeepsQuiet(
    a: Endpoint, b: Endpoint, closed: set<StreamID>, id: StreamID, written: seq<byte>, whole: bool, act: Action)
    requires Both(b, a, closed) && Closing(a, b, id, written, whole)
    requires Enabled(b, a.out, act) && (act.ReadHeader? || act.ReadPayload? || act.WriteUp? || act.CallReturn?)
    requires Act(b, a.out, act).0.active
    ensures var (b', out') := Act(b, a.out, act);
            var a' := a.(out := out');
            WireParses(a', b') && WireParses(b', a') && Quiet(b', a', id) && Packed(a', id, whole)
  {
    hide Act, Enabled, Flow, Parse, Wire, Met, Sent, ToCome, WireParses, InFlight, Arriving, Tokens, Packed, Quiet, OwnParity,
      Untouched, KeepsPipe;
    var (b', out') := Act(b, a.out, act);
    var a' := a.(out := out');
    ReadingLeavesDown(b, a.out, act, id);
    OutIsUntouched(a, out', id);
    PackedKept(a, a', id, whole);
    ActInbound(b, a, closed, act);
    ActOutbound(b, a, closed, act);
    assert NewFrames(b, act) == [] && InFlight(b, a) + [] == InFlight(b, a);
    QuietAfterReading(b, a, b', a', id);
  }

  lemma QuietAfterReading(b: Endpoint, a: Endpoint, b': Endpoint, a': Endpoint, id: StreamID)
    requires WireParses(b, a) && Quiet(b, a, id) && WireParses(b', a') && InFlight(b', a') == InFlight(b, a)
    requires b'.downThread == b.downThread && b'.asked == b.asked && KeepsPipe(b, b', id)
    requires a' == a.(out := a'.out)
    ensures Quiet(b', a', id)
  {
    hide WireParses, InFlight;
  }

  /** The table keeps what is in the pipe of a stream and where it was made, or takes it up for the peer. */
  predicate KeepsPipe(b: Endpoint, b': Endpoint, id: StreamID) {
    id in b'.streams ==>
      if id in b.streams then b'.streams[id].down == b.streams[id].down && b'.streams[id].local == b.streams[id].local
      else b'.streams[id] == FreshStream(false)
  }

  lemma ReceiveKeepsPipe(b: Endpoint, header: seq<byte>, id: StreamID)
    requires |header| == HEADER
    ensures KeepsPipe(b, Receive(b, header), id)
  {
    hide HeaderCommand, HeaderID, IsCommand;
  }

  lemma ReadingLeavesDown(b: Endpoint, wire: seq<byte>, act: Action, id: StreamID)
    requires Enabled(b, wire, act) && (act.ReadHeader? || act.ReadPayload? || act.WriteUp? || act.CallReturn?)
    ensures var b' := Act(b, wire, act).0;
            b'.downThread == b.downThread && b'.asked == b.asked && KeepsPipe(b, b', id)
  {
    UpstreamLeavesDown(b, wire, act);
    if act.ReadHeader? {
      ReceiveKeepsPipe(b, wire[..HEADER], id);
    }
    hide Receive;
  }

  lemma HeaderLedger(a: Endpoint, b: Endpoint, a': Endpoint, b': Endpoint, id: StreamID)
    requires WireParses(a, b) && WireParses(a', b') && InFlight(a, b) != [] && InFlight(a', b') == InFlight(a, b)[1..]
    requires Seen(b', id) + Arriving(a', b', id) == Seen(b, id) + Told(InFlight(a, b)[0], id)
    requires Arriving(a, b, id) == [] && Held(a', id) == Held(a, id)
    ensures Sent(a', b', id) == Sent(a, b, id)
  {
    hide Parse, WireParses, InFlight, Tokens, Wire, Seen, Told, Arriving, Held;
    TokensFirst(InFlight(a, b), id);
    var first, rest := Told(InFlight(a, b)[0], id), Tokens(InFlight(a', b'), id);
    assert Seen(b, id) + [] == Seen(b, id);
    Concat(Seen(b, id), first, rest);
  }

  /** What a header tells moves from the wire to the receiving end. */
  lemma ChosenSees(a': Endpoint, b: Endpoint, f: Frame, id: StreamID)
    requires b.upThread.UpIdle? && f.id == id && id !in b.closes && Met(b, id) && Choose(b, id).active
    requires WireParses(a', Chosen(b, f)) && (f.Data? ==> f.payload <= Wire(a'))
    ensures var b' := Chosen(b, f);
            Met(b', id) && Seen(b', id) + Arriving(a', b', id) == Seen(b, id) + Told(f, id)
  {
    hide Parse, Wire, Count;
    OneMore(b.closes, id, id);
    var b', was := Chosen(b, f), Delivered(b, id);
    assert was + [] == was;
    if f.Data? {
      assert Seen(b', id) == was;
      assert [] + Wire(a')[..|f.payload|] == f.payload;
    } else {
      assert Seen(b', id) == was + [CLOSED];
      assert was + [CLOSED] + [] == was + [CLOSED];
    }
  }

  /** The header of the stream's next frame comes off the wire. */
  lemma HeaderComesOff(a: Endpoint, b: Endpoint, id: StreamID)
    requires WireParses(a, b) && b.upThread.UpIdle? && |a.out| >= HEADER
    requires HeaderID(a.out[..HEADER]) == id && Receive(b, a.out[..HEADER]).active
    ensures InFlight(a, b) != []
    ensures var a', b', f := a.(out := a.out[HEADER..]), Receive(b, a.out[..HEADER]), InFlight(a, b)[0];
            && f.id == id && Choose(b, id).active && b' == Chosen(b, f)
            && WireParses(a', b') && InFlight(a', b') == InFlight(a, b)[1..]
            && (f.Data? ==> f.payload != [] && f.payload <= Wire(a'))
            && Arriving(a, b, id) == [] && ToCome(a', id) == ToCome(a, id) && Held(a', id) == Held(a, id)
  {
    var a', b' := a.(out := a.out[HEADER..]), Receive(b, a.out[..HEADER]);
    ReceiveIsChosen(b, a);
    hide HeaderID, Receive, Parse, Wire, Parting;
    HeaderTaken(b, a, InFlight(a, b)[0], b', a');
  }

  lemma HeaderKeepsLedger(a: Endpoint, b: Endpoint, id: StreamID)
    requires WireParses(a, b) && b.upThread.UpIdle? && |a.out| >= HEADER && Met(b, id) && id !in b.closes
    requires HeaderID(a.out[..HEADER]) == id && Receive(b, a.out[..HEADER]).active
    ensures var a', b' := a.(out := a.out[HEADER..]), Receive(b, a.out[..HEADER]);
            WireParses(a', b') && Met(b', id) && Sent(a', b', id) == Sent(a, b, id) && ToCome(a', id) == ToCome(a, id)
  {
    HeaderComesOff(a, b, id);
    hide Parse, WireParses, InFlight, Receive, HeaderID, Wire, Sent, Seen, Told, Arriving, Met, Held, ToCome, Choose, Chosen;
    ChosenSees(a.(out := a.out[HEADER..]), b, InFlight(a, b)[0], id);
    HeaderLedger(a, b, a.(out := a.out[HEADER..]), Receive(b, a.out[..HEADER]), id);
  }

  lemma HeaderComesBeforeTheEnd(a: Endpoint, b: Endpoint, id: StreamID, written: seq<byte>, whole: bool)
    requires Closing(a, b, id, written, whole) && b.upThread.UpIdle? && |a.out| >= HEADER
    requires HeaderID(a.out[..HEADER]) == id && Receive(b, a.out[..HEADER]).active
    ensures id !in b.closes
  {
    HeaderComesOff(a, b, id);
    hide HeaderID, Receive, Closing, InFlight, Wire, Arriving, ToCome, Held, Chosen, Choose;
    FirstOfTheStream(a, b, id, written, whole);
  }

  /** What the three reading steps are. */
  lemma ReceiverReadsHeader(
    a: Endpoint, b: Endpoint, closed: set<StreamID>, id: StreamID, written: seq<byte>, whole: bool)
    requires Both(b, a, closed) && Closing(a, b, id, written, whole) && b.upThread.UpIdle? && |a.out| >= HEADER
    requires HeaderID(a.out[..HEADER]) == id && Receive(b, a.out[..HEADER]).active
    ensures Closing(a.(out := a.out[HEADER..]), Receive(b, a.out[..HEADER]), id, written, whole)
  {
    hide Flow, Parse, WireParses, InFlight, Quiet, Packed, Receive, HeaderID, Wire, Sent, Met, ToCome, OwnParity, Act,
      Enabled;
    ReadHeaderActs(b, a.out);
    ReceiverKeepsQuiet(a, b, closed, id, written, whole, ReadHeader);
    HeaderComesBeforeTheEnd(a, b, id, written, whole);
    HeaderKeepsLedger(a, b, id);
  }

  /** A frame of the stream comes before its end. */
  lemma FirstOfTheStream(a: Endpoint, b: Endpoint, id: StreamID, written: seq<byte>, whole: bool)
    requires Closing(a, b, id, written, whole) && InFlight(a, b) != [] && InFlight(a, b)[0].id == id
    requires InFlight(a, b)[0].Data? ==> InFlight(a, b)[0].payload != []
    ensures id !in b.closes
  {
    TokensFirst(InFlight(a, b), id);
    assert Told(InFlight(a, b)[0], id) != [];
    if id in b.closes {
      NothingAfterTheEnd(a, b, id, written, whole);
      assert false;
    }
  }

  lemma GettingSees(a: Endpoint, b: Endpoint, n: nat, id: StreamID)
    requires b.upThread.HeaderRead? && 1 <= n <= Min(|a.out|, b.upThread.length) && b.upThread.id == id && Met(b, id)
    ensures var a', b' := a.(out := a.out[n..]), GotPayload(b, a.out[..n]);
            Met(b', id) && Seen(b', id) == Seen(b, id) && Held(a', id) == Held(a, id) && ToCome(a', id) == ToCome(a, id)
  {
    hide Count, Parting;
  }

  lemma ReceiverReadsPayload(
    a: Endpoint, b: Endpoint, closed: set<StreamID>, id: StreamID, written: seq<byte>, whole: bool, n: nat)
    requires b.upThread.HeaderRead? && 1 <= n <= Min(|a.out|, b.upThread.length) && b.upThread.id == id
    requires Both(b, a, closed) && Closing(a, b, id, written, whole)
    ensures Closing(a.(out := a.out[n..]), GotPayload(b, a.out[..n]), id, written, whole)
  {
    hide Flow, Parse, WireParses, InFlight, Quiet, Packed, Wire, Arriving, Tokens, GotPayload, Met, Seen, Held, ToCome,
      OwnParity, Act, Enabled;
    ReadPayloadActs(b, a.out, n);
    ReceiverKeepsQuiet(a, b, closed, id, written, whole, ReadPayload(n));
    WireLosesPayload(a, b, n);
    GettingSees(a, b, n, id);
  }

  /** What is written up moves from arriving to delivered. */
  lemma DeliverySees(a: Endpoint, b: Endpoint, n: nat, id: StreamID)
    requires WireParses(a, b) && b.upThread.PayloadRead? && 1 <= n <= |b.upThread.chunk| && b.upThread.id == id
    requires id in b.streams && Met(b, id) && id !in b.closes
    ensures var b' := Deliver(b, n);
            && WireParses(a, b') && InFlight(a, b') == InFlight(a, b)
            && Met(b', id) && Seen(b', id) + Arriving(a, b', id) == Seen(b, id) + Arriving(a, b, id)
  {
    hide Parse, Wire, Count;
    var chunk := b.upThread.chunk;
    assert chunk == chunk[..n] + chunk[n..];
    Concat(Delivered(b, id), chunk[..n], chunk[n..]);
    assert Delivered(b, id) + chunk[..n] + [] == Delivered(b, id) + chunk[..n];
    assert Delivered(b, id) + [] == Delivered(b, id);
  }

  lemma MetMeansKnown(b: Endpoint, id: StreamID)
    requires Met(b, id) && b.upThread.PayloadRead? && b.upThread.id == id
    ensures id in b.streams
  {
  }

  lemma ArrivesBeforeTheEnd(a: Endpoint, b: Endpoint, id: StreamID, written: seq<byte>, whole: bool)
    requires Closing(a, b, id, written, whole) && b.upThread.PayloadRead? && b.upThread.id == id && b.upThread.chunk != []
    ensures id !in b.closes
  {
    assert Arriving(a, b, id) != [];
    if id in b.closes {
      NothingAfterTheEnd(a, b, id, written, whole);
      assert false;
    }
  }

  lemma ReceiverWritesUp(
    a: Endpoint, b: Endpoint, closed: set<StreamID>, id: StreamID, written: seq<byte>, whole: bool, n: nat)
    requires b.upThread.PayloadRead? && 1 <= n <= |b.upThread.chunk| && b.upThread.id == id
    requires Both(b, a, closed) && Closing(a, b, id, written, whole)
    ensures Closing(a, Deliver(b, n), id, written, whole)
  {
    hide Flow, Parse, WireParses, InFlight, Quiet, Packed, Wire, Deliver, Seen, Arriving, Tokens, Met, Held, ToCome,
      OwnParity, Act, Enabled;
    WriteUpActs(b, a.out, n);
    assert a.(out := a.out) == a;
    ReceiverKeepsQuiet(a, b, closed, id, written, whole, WriteUp(n));
    ArrivesBeforeTheEnd(a, b, id, written, whole);
    MetMeansKnown(b, id);
    DeliverySees(a, b, n, id);
  }

  /** The callback about the close has returned, and the stream leaves the table; or another about the stream has. */
  lemma ReturnSees(b: Endpoint, id: StreamID)
    requires b.upThread.Notifying? && b.upThread.id == id && Met(b, id)
    ensures Met(Returned(b), id) && Seen(Returned(b), id) == Seen(b, id)
  {
  }

  lemma ReturnActs(b: Endpoint, wire: seq<byte>)
    requires b.active && b.upThread.Notifying? && b.upThread.want.Nothing?
    ensures Enabled(b, wire, CallReturn) && Act(b, wire, CallReturn) == (Returned(b), wire) && Returned(b).active
    ensures StillCalling(b.upThread, Returned(b).upThread)
  {
  }

  lemma ReceiverReturns(
    a: Endpoint, b: Endpoint, closed: set<StreamID>, id: StreamID, written: seq<byte>, whole: bool)
    requires b.upThread.Notifying? && b.upThread.want.Nothing? && b.upThread.id == id
    requires Both(b, a, closed) && Closing(a, b, id, written, whole)
    ensures Closing(a, Returned(b), id, written, whole)
  {
    hide Flow, Parse, WireParses, InFlight, Quiet, Packed, Wire, Returned, Seen, Arriving, Tokens, Met, Held, ToCome,
      OwnParity, Act, Enabled;
    ReturnActs(b, a.out);
    assert a.(out := a.out) == a;
    ReceiverKeepsQuiet(a, b, closed, id, written, whole, CallReturn);
    SameReader(a, b, Returned(b));
    ReturnSees(b, id);
  }

  /** The receiving end's steps about the stream are those of its upstream thread. */
  lemma ReceiverConcerns(
    a: Endpoint, b: Endpoint, closed: set<StreamID>, id: StreamID, written: seq<byte>, whole: bool, act: Action)
    requires Both(b, a, closed) && Closing(a, b, id, written, whole)
    requires Enabled(b, a.out, act) && Concerns(b, a.out, act, id)
    requires (act.WriteDown? ==> act.id != id) && (act.CallPut? ==> WantOf(b).to != id)
    ensures act.ReadHeader? || act.ReadPayload? || act.WriteUp? || act.CallReturn?
  {
    NextIDIsOwn(b);
    hide NextID, Flow, WireParses, InFlight, Sent, ToCome, Met, HeaderID;
  }

  lemma ReceiverStep(
    a: Endpoint, b: Endpoint, closed: set<StreamID>, id: StreamID, written: seq<byte>, whole: bool, act: Action)
    requires Both(b, a, closed) && Closing(a, b, id, written, whole)
    requires Enabled(b, a.out, act) && Act(b, a.out, act).0.active
    requires (act.WriteDown? ==> act.id != id) && (act.CallPut? ==> WantOf(b).to != id)
    requires act.SetCallbacks? ==> act.onClose == b.onClose
    ensures var (b', out') := Act(b, a.out, act); Closing(a.(out := out'), b', id, written, whole)
  {
    if !Concerns(b, a.out, act, id) {
      ReceiverElsewhere(a, b, closed, id, written, whole, act);
    } else {
      ReceiverConcerns(a, b, closed, id, written, whole, act);
      assert a.(out := a.out) == a;
      hide Flow, Closing, Receive, GotPayload, Deliver, Returned;
      match act
      case ReadHeader => ReceiverReadsHeader(a, b, closed, id, written, whole);
      case ReadPayload(n) => ReceiverReadsPayload(a, b, closed, id, written, whole, n);
      case WriteUp(n) => ReceiverWritesUp(a, b, closed, id, written, whole, n);
      case CallReturn => ReceiverReturns(a, b, closed, id, written, whole);
      case _ =>
    }
  }
}
