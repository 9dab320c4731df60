/**
 Closing a stream, over whole runs of both ends. The close marker travels in band and is recognised only when
 the downstream thread reads it alone, so whether a stream closes depends on how much data the thread found in
 front of it.
 */
module PlexerClose {
  import opened Bytes
  import opened PlexerWire
  import opened PlexerProtocol
  import opened PlexerInvariant
  import opened PlexerTheorems
  import opened PlexerClosing

  // ---- The run ----

  lemma {:induction false} TokensAreData(fs: seq<Frame>, id: StreamID)
    requires forall f <- fs :: f.id == id ==> f.Data?
    ensures Tokens(fs, id) == DataOf(fs, id)
  {
    if fs != [] {
      TokensAreData(fs[1..], id);
    }
  }

  lemma {:induction false} NoneCounted(s: seq<StreamID>, id: StreamID)
    requires id !in s
    ensures Count(s, id) == 0
  {
    if s != [] {
      NoneCounted(s[..|s| - 1], id);
    }
  }

  /** The downstream thread is about to take up the one request to close an open stream, and nothing comes back on it. */
  ghost predicate CloseIsNext(a: Endpoint, b: Endpoint, id: StreamID) {
    && id in a.streams && a.streams[id].local && a.downThread.DownIdle?
    && a.asked != [] && a.asked[0] == id && id !in a.asked[1..]
    && WireParses(b, a) && Quiet(b, a, id)
  }

  lemma CloseStartsLedger(a: Endpoint, b: Endpoint, closed: set<StreamID>, id: StreamID)
    requires Both(a, b, closed) && id !in closed && CloseIsNext(a, b, id)
    ensures var s, a' := a.streams[id], StartMarking(a);
            WireParses(a', b) && Sent(a', b, id) + ToCome(a', id) == Whole(s.written, |s.down| % CHUNK_MAX == 0)
  {
    var s, a' := a.streams[id], StartMarking(a);
    assert EntryOK(a, b, id);
    SameWire(a, b, a');
    forall f <- InFlight(a, b) | f.id == id ensures f.Data? {
      assert FrameOK(a, f, closed);
    }
    TokensAreData(InFlight(a, b), id);
    hide Parse, Wire, Arriving, Tokens, DataOf, Delivered, InFlight, WireParses, Quiet;
    assert id !in b.ended && Seen(b, id) == Delivered(b, id);
    assert Leaving(a, id) == [] && Held(a', id) == [] && ToCome(a', id) == Parting(s.down);
    hide Seen, Held, ToCome, Leaving, StartMarking;
    var before := Delivered(b, id) + Arriving(a, b, id) + DataOf(InFlight(a, b), id);
    assert before + [] == before;
    Concat(before, s.down, [if |s.down| % CHUNK_MAX == 0 then CLOSED else CLOSE_MARKER]);
  }

  lemma PackedAtStart(a: Endpoint, b: Endpoint, closed: set<StreamID>, id: StreamID, n: nat, whole: bool)
    requires Both(a, b, closed) && id !in closed && CloseIsNext(a, b, id) && HasDrawn(a, n)
    ensures Packed(StartMarking(a), id, whole) && WireParses(b, StartMarking(a)) && Quiet(b, StartMarking(a), id)
  {
    assert WireParses(b, a) && InFlight(b, StartMarking(a)) == InFlight(b, a);
    hide Parse, Wire, WireParses, InFlight, Flow;
  }

  lemma MetAtStart(a: Endpoint, b: Endpoint, closed: set<StreamID>, id: StreamID)
    requires ThreadsOK(a, b, closed) && ClosedOK(b, closed) && id !in closed
    ensures Met(b, id)
  {
    assert id !in b.closes && id !in b.ended;
    NoneCounted(b.closes, id);
  }

  lemma CloseStarts(a: Endpoint, b: Endpoint, closed: set<StreamID>, id: StreamID, n: nat)
    requires Both(a, b, closed) && id !in closed && CloseIsNext(a, b, id) && HasDrawn(a, n)
    ensures Closing(StartMarking(a), b, id, a.streams[id].written, |a.streams[id].down| % CHUNK_MAX == 0)
  {
    hide Parse, Wire, Sent, ToCome, Books, TailOK, FramesOK, ThreadsOK, ClosedOK, Packed, Met, Quiet, HasDrawn, StartMarking;
    CloseStartsLedger(a, b, closed, id);
    PackedAtStart(a, b, closed, id, n, |a.streams[id].down| % CHUNK_MAX == 0);
    MetAtStart(a, b, closed, id);
  }

  /** Step k of a schedule takes up the close of an open stream. */
  ghost predicate ClosesAt(schedule: seq<(Side, Action)>, k: nat, side: Side, id: StreamID) {
    && k < |schedule| && schedule[k] == (side, BeginClose)
    && var s := Run(INITIAL, schedule[..k]);
       IsOpen(s, side, id) && CloseIsNext(Of(s, side), PeerOf(s, side), id)
  }

  /**
   Nobody writes the stream down, the peer does not change its mind about closes, and a read of the pipe takes all
   there is, up to a chunk.
   */
  predicate FullRead(s: State, step: (Side, Action), side: Side, id: StreamID) {
    && (step.1.WriteDown? ==> step.1.id != id)
    && (step.1.CallPut? && WantOf(Of(s, step.0)).Room? ==> WantOf(Of(s, step.0)).to != id)
    && (step.0 != side && step.1.SetCallbacks? ==> step.1.onClose == Of(s, step.0).onClose)
    && (step.0 == side && step.1.ReadChunk? && step.1.id == id && id in Of(s, side).streams ==>
          step.1.n == Min(|Of(s, side).streams[id].down|, CHUNK_MAX))
  }

  ghost predicate LeftToDrain(schedule: seq<(Side, Action)>, k: nat, side: Side, id: StreamID) {
    forall j | k < j < |schedule| :: FullRead(Run(INITIAL, schedule[..j]), schedule[j], side, id)
  }

  lemma StaysInterrupted(s: State, actor: Side, a: Action, side: Side)
    ensures Of(Next(s, actor, a), side).active ==> Of(s, side).active
  {
    hide HeaderCommand, HeaderID;
  }

  lemma RunsOn(schedule: seq<(Side, Action)>, m: nat)
    requires m < |schedule|
    ensures Run(INITIAL, schedule[..m + 1]) == Next(Run(INITIAL, schedule[..m]), schedule[m].0, schedule[m].1)
  {
    assert schedule[..m + 1][..m] == schedule[..m];
  }

  lemma {:induction false} CreationsGrow(schedule: seq<(Side, Action)>, m: nat, side: Side)
    requires m <= |schedule|
    ensures Creations(schedule[..m], side) <= Creations(schedule, side)
    ensures m < |schedule| && schedule[m] == (side, CreateStream) ==>
              Creations(schedule[..m], side) < Creations(schedule, side)
    decreases |schedule| - m
  {
    if m == |schedule| {
      assert schedule[..m] == schedule;
    } else {
      CreationsGrow(schedule, m + 1, side);
      assert schedule[..m + 1][..m] == schedule[..m];
    }
  }

  /** An id drawn before is not drawn again. */
  lemma DrawsPastID(e: Endpoint, n: nat, id: StreamID)
    requires HasDrawn(e, n) && 1 <= n < TWO_TO_63 && id <= e.lastID
    ensures NextID(e) > id
  {
  }

  lemma FirstStep(s: State, side: Side, id: StreamID, n: nat)
    requires Inv(s) && IsOpen(s, side, id) && CloseIsNext(Of(s, side), PeerOf(s, side), id)
    requires HasDrawn(Of(s, side), n)
    ensures n >= 1
    ensures var s', at := Next(s, side, BeginClose), Of(s, side).streams[id];
            Closing(Of(s', side), PeerOf(s', side), id, at.written, |at.down| % CHUNK_MAX == 0)
  {
    var me, peer := Of(s, side), PeerOf(s, side);
    assert Both(me, peer, s.closed) && HasDrawn(me, n) && id in me.streams && me.streams[id].local;
    assert Act(me, peer.out, BeginClose) == (StartMarking(me), peer.out);
    assert peer.(out := peer.out) == peer;
    hide Act, Flow, Closing, Quiet, StartMarking;
    CloseStarts(me, peer, s.closed, id, n);
  }

  lemma StepOfCloser(s: State, side: Side, act: Action, id: StreamID, n: nat, written: seq<byte>, whole: bool)
    requires Both(Of(s, side), PeerOf(s, side), s.closed) && Enabled(Of(s, side), PeerOf(s, side).out, act)
    requires Act(Of(s, side), PeerOf(s, side).out, act).0.active
    requires Closing(Of(s, side), PeerOf(s, side), id, written, whole) && FullRead(s, (side, act), side, id)
    requires HasDrawn(Of(s, side), n) && n >= 1 && (act.CreateStream? ==> n < TWO_TO_63)
    ensures var (me', out') := Act(Of(s, side), PeerOf(s, side).out, act);
            Closing(me', PeerOf(s, side).(out := out'), id, written, whole)
  {
    var me, peer := Of(s, side), PeerOf(s, side);
    assert id <= me.lastID;
    if act.CreateStream? {
      DrawsPastID(me, n, id);
    }
    hide Flow, Closing, Act, HasDrawn, NextID;
    CloserStep(me, peer, s.closed, id, written, whole, act);
  }

  lemma StepOfReceiver(s: State, side: Side, act: Action, id: StreamID, written: seq<byte>, whole: bool)
    requires Both(PeerOf(s, side), Of(s, side), s.closed) && Enabled(PeerOf(s, side), Of(s, side).out, act)
    requires Act(PeerOf(s, side), Of(s, side).out, act).0.active
    requires Closing(Of(s, side), PeerOf(s, side), id, written, whole) && FullRead(s, (Other(side), act), side, id)
    ensures var (peer', out') := Act(PeerOf(s, side), Of(s, side).out, act);
            Closing(Of(s, side).(out := out'), peer', id, written, whole)
  {
    assert Of(s, Other(side)) == PeerOf(s, side);
    hide Flow, Closing, Act;
    ReceiverStep(Of(s, side), PeerOf(s, side), s.closed, id, written, whole, act);
  }

  lemma LaterStep(s: State, step: (Side, Action), side: Side, id: StreamID, n: nat, written: seq<byte>, whole: bool)
    requires Inv(s) && Of(s, side).active && PeerOf(s, side).active
    requires var s' := Next(s, step.0, step.1); Of(s', side).active && PeerOf(s', side).active
    requires Closing(Of(s, side), PeerOf(s, side), id, written, whole) && FullRead(s, step, side, id)
    requires HasDrawn(Of(s, side), n) && n >= 1 && (step == (side, CreateStream) ==> n < TWO_TO_63)
    ensures var s' := Next(s, step.0, step.1); Closing(Of(s', side), PeerOf(s', side), id, written, whole)
  {
    var me, peer := Of(s, side), PeerOf(s, side);
    assert Both(me, peer, s.closed) && Both(peer, me, s.closed);
    hide Flow, Closing, Act, HasDrawn, FullRead, Both, Enabled;
    if Enabled(Of(s, step.0), PeerOf(s, step.0).out, step.1) {
      if step.0 == side {
        assert step == (side, step.1);
        StepOfCloser(s, side, step.1, id, n, written, whole);
      } else {
        assert step == (Other(side), step.1);
        StepOfReceiver(s, side, step.1, id, written, whole);
      }
    }
  }

  /** From the close on, every state of the run keeps the closing books. */
  lemma {:induction false} ClosingRun(schedule: seq<(Side, Action)>, k: nat, m: nat, side: Side, id: StreamID)
    requires ClosesAt(schedule, k, side, id) && LeftToDrain(schedule, k, side, id) && k < m <= |schedule|
    requires Creations(schedule, side) <= TWO_TO_63
    requires var s := Run(INITIAL, schedule[..m]); Of(s, side).active && PeerOf(s, side).active
    ensures var s, s0 := Run(INITIAL, schedule[..m]), Run(INITIAL, schedule[..k]);
            var at := Of(s0, side).streams[id];
            && Closing(Of(s, side), PeerOf(s, side), id, at.written, |at.down| % CHUNK_MAX == 0)
            && Creations(schedule[..m], side) >= 1
    decreases m
  {
    hide Next, Closing, CloseIsNext, Flow, FullRead, HasDrawn, Act, Enabled;
    var j := m - 1;
    var s, s0, step := Run(INITIAL, schedule[..j]), Run(INITIAL, schedule[..k]), schedule[j];
    RunsOn(schedule, j);
    RunKeeps(schedule[..j]);
    StaysInterrupted(s, step.0, step.1, Master);
    StaysInterrupted(s, step.0, step.1, Slave);
    CreationsGrow(schedule, j, side);
    RunDraws(schedule[..j], side);
    CreationsGrow(schedule[..m], j, side);
    assert schedule[..m][..j] == schedule[..j];
    hide Run, Creations;
    if j == k {
      FirstStep(s, side, id, Creations(schedule[..j], side));
    } else {
      ClosingRun(schedule, k, j, side, id);
      var at := Of(s0, side).streams[id];
      LaterStep(s, step, side, id, Creations(schedule[..j], side), at.written, |at.down| % CHUNK_MAX == 0);
    }
  }

  // ---- What a run that closes a stream comes to ----

  /**
   Under every interleaving, the peer sees a prefix of what was written and then at most the marker; and when the
   thread found a whole number of chunks in front of the marker, never the marker.
   */
  lemma ClosedStreamIsPrefix(schedule: seq<(Side, Action)>, k: nat, side: Side, id: StreamID)
    requires ClosesAt(schedule, k, side, id) && LeftToDrain(schedule, k, side, id)
    requires Creations(schedule, side) <= TWO_TO_63
    requires var s := Run(INITIAL, schedule); s.master.active && s.slave.active
    ensures var s, at := Run(INITIAL, schedule), Of(Run(INITIAL, schedule[..k]), side).streams[id];
            var seen := Delivered(PeerOf(s, side), id);
            && seen <= at.written + [CLOSE_MARKER]
            && (|at.down| % CHUNK_MAX == 0 ==> seen <= at.written)
  {
    assert schedule[..|schedule|] == schedule;
    ClosingRun(schedule, k, |schedule|, side, id);
    var s, at := Run(INITIAL, schedule), Of(Run(INITIAL, schedule[..k]), side).streams[id];
    hide Run, ClosesAt, LeftToDrain;
    ClosingIsPrefix(Of(s, side), PeerOf(s, side), id, at.written, |at.down| % CHUNK_MAX == 0);
  }

  lemma ClosingIsPrefix(a: Endpoint, b: Endpoint, id: StreamID, written: seq<byte>, whole: bool)
    requires Closing(a, b, id, written, whole)
    ensures Delivered(b, id) <= written + [CLOSE_MARKER]
    ensures whole ==> Delivered(b, id) <= written
  {
    hide Packed, Quiet, Met, WireParses, InFlight, Arriving, Held, ToCome, Tokens, Delivered;
    var seen, all := Delivered(b, id), Whole(written, whole);
    assert seen == all[..|seen|];
    if |seen| == |all| {
      assert seen[|written|] == all[|written|];
    } else {
      assert seen == written[..|seen|];
    }
  }

  /** Once nothing of the stream is on the way, all the books are at the peer. */
  lemma ClosingAtRest(a: Endpoint, b: Endpoint, closed: set<StreamID>, id: StreamID, written: seq<byte>, whole: bool)
    requires Closing(a, b, id, written, whole) && Settled(a, b, id) && ThreadsOK(a, b, closed)
    ensures Delivered(b, id) == (if whole then written else written + [CLOSE_MARKER])
    ensures id in a.streams <==> !whole
    ensures id in b.streams <==> !(whole && b.onClose) || UpOn(b, id) == Notifying(id, true, Nothing)
    ensures Count(b.closes, id) == if whole then 1 else 0
  {
    SettledWire(a, b, closed, id);
    hide WireParses, InFlight, Quiet, Count, Delivered;
    var all := Whole(written, whole);
    assert Seen(b, id) == all;
    hide Arriving, Held;
    if id in b.closes {
      NothingAfterTheEnd(a, b, id, written, whole);
    } else {
      assert Delivered(b, id) + [] == Delivered(b, id) && Delivered(b, id)[|written|] == all[|written|];
      SeenIsKnown(b, id);
    }
  }

  lemma SeenIsKnown(b: Endpoint, id: StreamID)
    requires Delivered(b, id) != [] && id !in b.ended
    ensures id in b.streams
  {
  }

  /**
   Once the threads have come to rest: the peer has all the data and has read exactly one close, and the stream is off
   the closing end's table, if and only if the thread found a whole number of chunks in front of the marker. Otherwise
   the peer has the data and the marker behind it, has read no close, and both tables keep the stream. The peer's table
   lets go only if there is a callback for closes, and once the callback has returned.
   */
  lemma CloseArrivesIffPendingIsWholeChunks(
    schedule: seq<(Side, Action)>, k: nat, l: Limits, side: Side, id: StreamID)
    requires ClosesAt(schedule, k, side, id) && LeftToDrain(schedule, k, side, id)
    requires Creations(schedule, side) <= TWO_TO_63
    requires var s := Run(INITIAL, schedule); s.master.active && s.slave.active
    requires l.pipe >= 1 && l.wire >= HEADER && AtRest(Run(INITIAL, schedule), l)
    requires var s := Run(INITIAL, schedule);
             !UpStalled(PeerOf(s, side), l) && !CallStalled(Of(s, side), PeerOf(s, side)) && !DownStalled(Of(s, side), l)
    ensures var s, at := Run(INITIAL, schedule), Of(Run(INITIAL, schedule[..k]), side).streams[id];
            var me, peer := Of(s, side), PeerOf(s, side);
            if |at.down| % CHUNK_MAX == 0
            then && Delivered(peer, id) == at.written && Count(peer.closes, id) == 1 && id !in me.streams
                 && (id in peer.streams <==> !peer.onClose || UpOn(peer, id) == Notifying(id, true, Nothing))
            else && Delivered(peer, id) == at.written + [CLOSE_MARKER] && Count(peer.closes, id) == 0
                 && id in me.streams && id in peer.streams
  {
    assert schedule[..|schedule|] == schedule;
    ClosingRun(schedule, k, |schedule|, side, id);
    RunKeeps(schedule);
    var s, at := Run(INITIAL, schedule), Of(Run(INITIAL, schedule[..k]), side).streams[id];
    assert Flow(Of(s, side), PeerOf(s, side), s.closed);
    hide Run, ClosesAt, LeftToDrain, Closing, Books, FramesOK;
    RestedIsSettled(s, l, side, id);
    ClosingAtRest(Of(s, side), PeerOf(s, side), s.closed, id, at.written, |at.down| % CHUNK_MAX == 0);
  }

  // ---- Three ways a close fails ----

  lemma RunSnoc(schedule: seq<(Side, Action)>, step: (Side, Action))
    ensures Run(INITIAL, schedule + [step]) == Next(Run(INITIAL, schedule), step.0, step.1)
  {
    assert (schedule + [step])[..|schedule|] == schedule;
  }

  /** A user writes one byte and closes; the thread gets to the pipe when the marker is already behind the byte. */
  function OneByteAndClose(x: byte): seq<(Side, Action)> {
    [(Master, CreateStream), (Master, WriteDown(0, [x])), (Master, AskClose(0)), (Master, BeginClose), (Master, PutMarker)]
  }

  function Carried(): seq<(Side, Action)> {
    [(Master, ReadChunk(0, 2)), (Master, SendHeader), (Master, SendPayload(2)),
     (Slave, ReadHeader), (Slave, ReadPayload(2)), (Slave, WriteUp(2))]
  }

  function AfterOneByteAndClose(x: byte): State {
    State(Started(true).(lastID := 0, streams := map[0 := StreamState(true, true, [x], [x, CLOSE_MARKER], [], [], [])]),
          Started(false), {0})
  }

  lemma OneByteAndCloseRuns(x: byte)
    ensures Run(INITIAL, OneByteAndClose(x)) == AfterOneByteAndClose(x)
  {
    var s := OneByteAndClose(x);
    OneByteAskedRuns(x);
    hide Run;
    assert s[..4] == s[..3] + [s[3]] && s == s[..4] + [s[4]];
    RunSnoc(s[..3], s[3]);
    RunSnoc(s[..4], s[4]);
    assert [x] + [CLOSE_MARKER] == [x, CLOSE_MARKER];
  }

  lemma RunStarts()
    ensures Run(INITIAL, []) == INITIAL
  {
  }

  function AfterCarried(x: byte): State {
    var both := [x, CLOSE_MARKER];
    State(Started(true).(lastID := 0, streams := map[0 := StreamState(true, true, [x], [], [], [], [])]),
          Started(false).(streams := map[0 := StreamState(false, false, [], [], both, both, [])]), {0})
  }

  lemma MasterSendsBoth(x: byte, s: State)
    requires s == AfterOneByteAndClose(x)
    ensures Next(Next(Next(s, Master, ReadChunk(0, 2)), Master, SendHeader), Master, SendPayload(2))
         == AfterCarried(x).(master := AfterCarried(x).master.(out := Header(2, 0) + [x, CLOSE_MARKER]),
                             slave := Started(false))
  {
    hide Header;
    var both := [x, CLOSE_MARKER];
    assert both[..2] == both && both[2..] == [] && [] + Header(2, 0) == Header(2, 0);
    var read := Next(s, Master, ReadChunk(0, 2));
    assert read.master.downThread == ChunkRead(0, both);
    var head := Next(read, Master, SendHeader);
    assert head.master.downThread == HeaderSent(0, both) && head.master.out == Header(2, 0);
  }

  lemma SlaveReceives()
    ensures Receive(Started(false), Header(2, 0))
         == Started(false).(streams := map[0 := FreshStream(false)], upThread := HeaderRead(0, 2, [], true))
  {
    assert Header(2, 0) + [] == Header(2, 0);
    HeaderRoundTrip(2, 0, []);
    hide Header, HeaderCommand, HeaderID;
    assert Choose(Started(false), 0) == Started(false).(streams := map[0 := FreshStream(false)]);
  }

  lemma SlaveTakesBoth(x: byte, s: State)
    requires s == AfterCarried(x).(master := AfterCarried(x).master.(out := Header(2, 0) + [x, CLOSE_MARKER]),
                                   slave := Started(false))
    ensures Next(Next(Next(s, Slave, ReadHeader), Slave, ReadPayload(2)), Slave, WriteUp(2)) == AfterCarried(x)
  {
    var both := [x, CLOSE_MARKER];
    assert s.master.out[..HEADER] == Header(2, 0) && s.master.out[HEADER..] == both;
    SlaveReceives();
    hide Header, Receive;
    var got := Next(s, Slave, ReadHeader);
    assert got == AfterCarried(x).(master := AfterCarried(x).master.(out := both),
      slave := Started(false).(streams := map[0 := FreshStream(false)], upThread := HeaderRead(0, 2, [], true)));
    SlaveFinishes(x, got);
  }

  lemma SlaveFinishes(x: byte, s: State)
    requires s == AfterCarried(x).(master := AfterCarried(x).master.(out := [x, CLOSE_MARKER]),
      slave := Started(false).(streams := map[0 := FreshStream(false)], upThread := HeaderRead(0, 2, [], true)))
    ensures Next(Next(s, Slave, ReadPayload(2)), Slave, WriteUp(2)) == AfterCarried(x)
  {
    var both := [x, CLOSE_MARKER];
    assert both[..2] == both && both[2..] == [] && [] + both == both;
    hide Receive;
    var read := Next(s, Slave, ReadPayload(2));
    assert read.slave.upThread == PayloadRead(0, both, true) && read.master.out == [];
  }

  /**
   One byte still in the pipe is enough to lose the close: the peer gets both bytes as data, no thread has anything
   left to do whatever the capacities, and both ends keep the stream.
   */
  lemma OneByteLosesTheClose(x: byte, l: Limits)
    ensures var s := Run(INITIAL, OneByteAndClose(x) + Carried());
            && Delivered(s.slave, 0) == [x, CLOSE_MARKER] && s.slave.closes == []
            && 0 in s.master.streams && 0 in s.slave.streams && AtRest(s, l)
  {
    OneByteAndCloseRuns(x);
    CarriedRuns(x);
    hide Run;
    var s := AfterCarried(x);
    forall side: Side, a: Action | IsService(a) ensures !Enabled(Of(s, side), PeerOf(s, side).out, a) {
      assert s.master.streams.Keys == {0} == s.slave.streams.Keys;
      NothingToDo(Of(s, side), a);
    }
  }

  lemma NothingToDo(e: Endpoint, a: Action)
    requires IsService(a) && e.downThread.DownIdle? && e.asked == [] && e.upThread.UpIdle?
    requires forall id <- e.streams :: e.streams[id].down == []
    ensures !Enabled(e, [], a)
  {
  }

  /** It is one of the runs that the theorems above speak of. */
  lemma OneByteRunClosesAndDrains(x: byte)
    ensures ClosesAt(OneByteAndClose(x) + Carried(), 3, Master, 0)
    ensures LeftToDrain(OneByteAndClose(x) + Carried(), 3, Master, 0)
  {
    var p := OneByteAndClose(x);
    var all := p + Carried();
    assert all[..3] == p[..3] && all[..5] == p && all[3] == (Master, BeginClose);
    OneByteAndCloseRuns(x);
    OneByteAskedRuns(x);
    hide Run, FullRead, CloseIsNext, IsOpen, AfterOneByteAndClose, AfterOneByteAsked;
    AskedIsNext(x);
    forall j | 3 < j < |all| ensures FullRead(Run(INITIAL, all[..j]), all[j], Master, 0) {
      if j == 4 {
        assert all[j] == p[4];
        NotARead(Run(INITIAL, all[..j]), all[j], Master, 0);
      } else if j == 5 {
        BothAreRead(x);
      } else {
        assert all[j] == Carried()[j - 5];
        NotARead(Run(INITIAL, all[..j]), all[j], Master, 0);
      }
    }
  }

  lemma NotARead(s: State, step: (Side, Action), side: Side, id: StreamID)
    requires !step.1.WriteDown? && !step.1.CallPut? && !step.1.SetCallbacks? && !step.1.ReadChunk?
    ensures FullRead(s, step, side, id)
  {
  }

  lemma BothAreRead(x: byte)
    ensures FullRead(AfterOneByteAndClose(x), (Master, ReadChunk(0, 2)), Master, 0)
  {
  }

  function AfterOneByteAsked(x: byte): State {
    State(Started(true).(
            lastID := 0, asked := [0], streams := map[0 := StreamState(true, false, [x], [x], [], [], [])]),
          Started(false), {})
  }

  lemma AskedIsNext(x: byte)
    ensures var s := AfterOneByteAsked(x); IsOpen(s, Master, 0) && CloseIsNext(s.master, s.slave, 0)
  {
    assert Wire(Started(false)) == [];
  }

  lemma OneByteAskedRuns(x: byte)
    ensures Run(INITIAL, OneByteAndClose(x)[..3]) == AfterOneByteAsked(x)
  {
    var s := OneByteAndClose(x);
    hide Run;
    RunStarts();
    assert [s[0]] == [] + [s[0]] && s[..2] == [s[0]] + [s[1]] && s[..3] == s[..2] + [s[2]];
    RunSnoc([], s[0]);
    RunSnoc([s[0]], s[1]);
    RunSnoc(s[..2], s[2]);
    assert [] + [x] == [x] && [] + [0 as StreamID] == [0];
  }

  lemma CarriedRuns(x: byte)
    requires Run(INITIAL, OneByteAndClose(x)) == AfterOneByteAndClose(x)
    ensures Run(INITIAL, OneByteAndClose(x) + Carried()) == AfterCarried(x)
  {
    var p, c := OneByteAndClose(x), Carried();
    assert c[..1] == [c[0]];
    assert c[..2] == c[..1] + [c[1]] && c[..3] == c[..2] + [c[2]] && c[..4] == c[..3] + [c[3]]
        && c[..5] == c[..4] + [c[4]] && c == c[..5] + [c[5]];
    MasterSendsBoth(x, AfterOneByteAndClose(x));
    hide Run, Next, OneByteAndClose;
    RunSnoc(p, c[0]);
    RunFurther(p, c[..1], c[1]);
    RunFurther(p, c[..2], c[2]);
    SlaveTakesBoth(x, Run(INITIAL, p + c[..3]));
    RunFurther(p, c[..3], c[3]);
    RunFurther(p, c[..4], c[4]);
    RunFurther(p, c[..5], c[5]);
  }

  lemma RunFurther(first: seq<(Side, Action)>, more: seq<(Side, Action)>, step: (Side, Action))
    ensures Run(INITIAL, first + (more + [step])) == Next(Run(INITIAL, first + more), step.0, step.1)
  {
    assert first + (more + [step]) == first + more + [step];
    RunSnoc(first + more, step);
  }

  /**
   The assertion against closing twice reads a flag that the close request sets only once it runs. Two closes in
   quick succession both pass it and leave two markers, which a full read of an otherwise empty pipe takes for data.
   */
  lemma TwoQuickClosesLeaveTwoMarkers(e: Endpoint, wire: seq<byte>, id: StreamID)
    requires Enabled(e, wire, AskClose(id)) && e.downThread.DownIdle? && e.asked == []
    ensures var once := Act(e, wire, AskClose(id)).0; Enabled(once, wire, AskClose(id))
    ensures var twice := Act(Act(e, wire, AskClose(id)).0, wire, AskClose(id)).0;
            var one := Mark(StartMarking(twice));
            var two := Mark(StartMarking(one));
            && one.asked == [id] && two.asked == []
            && two.streams[id].userClosed && two.streams[id].down == e.streams[id].down + [CLOSE_MARKER, CLOSE_MARKER]
            && (e.streams[id].down == [] ==>
                  TakeChunk(two, id, 2) == e.(streams := e.streams[id := e.streams[id].(userClosed := true)],
                                              downThread := ChunkRead(id, [CLOSE_MARKER, CLOSE_MARKER])))
  {
    var twice := Act(Act(e, wire, AskClose(id)).0, wire, AskClose(id)).0;
    assert twice.asked[0] == id && twice.asked[1..] == [id];
    var one := Mark(StartMarking(twice));
    assert one.asked[1..] == [];
    var two := Mark(StartMarking(one));
    assert two.streams[id].down == e.streams[id].down + [CLOSE_MARKER, CLOSE_MARKER];
    if e.streams[id].down == [] {
      assert two.streams[id].down[..2] == [CLOSE_MARKER, CLOSE_MARKER] && two.streams[id].down[2..] == [];
      assert two.streams[id := two.streams[id].(down := [])] == e.streams[id := e.streams[id].(userClosed := true)];
    }
  }

  /**
   A marker for a full pipe is written by the only thread that empties the pipe. As long as the stream is in the
   table, nothing either end can do within the limits frees that thread, and it puts nothing more on the wire.
   */
  lemma MarkerIntoAFullPipeStalls(s: State, l: Limits, side: Side, actor: Side, a: Action)
    requires DownStalled(Of(s, side), l)
    requires Enabled(Of(s, actor), PeerOf(s, actor).out, a) && Fits(Of(s, actor), a, l)
    ensures var me, me' := Of(s, side), Of(Next(s, actor, a), side);
            && me'.downThread == me.downThread && |me'.out| <= |me.out|
            && (me.downThread.id in me'.streams ==> DownStalled(me', l))
  {
    if actor == side {
      StallKept(Of(s, side), PeerOf(s, side).out, l, a);
    } else {
      TakesFromWire(Of(s, actor), PeerOf(s, actor).out, a);
    }
    hide Act, Enabled, Fits;
  }

  /** The pipe of a stream that stays in the table does not get emptier. */
  predicate NoEmptier(e: Endpoint, e': Endpoint, id: StreamID) {
    id in e'.streams && id in e.streams ==> |e'.streams[id].down| >= |e.streams[id].down|
  }

  lemma ReceiveNoEmptier(e: Endpoint, header: seq<byte>, id: StreamID)
    requires |header| == HEADER
    ensures NoEmptier(e, Receive(e, header), id)
  {
    ReceiveKeepsPipe(e, header, id);
    hide Receive;
  }

  lemma UpstreamNoEmptier(e: Endpoint, wire: seq<byte>, a: Action, id: StreamID)
    requires Enabled(e, wire, a) && IsUpstream(a)
    ensures NoEmptier(e, Act(e, wire, a).0, id)
  {
    if a.ReadHeader? {
      ReceiveNoEmptier(e, wire[..HEADER], id);
    }
    hide Receive;
  }

  lemma UserNoEmptier(e: Endpoint, wire: seq<byte>, a: Action, l: Limits)
    requires DownStalled(e, l) && Enabled(e, wire, a) && Fits(e, a, l) && !IsUpstream(a)
    ensures var e' := Act(e, wire, a).0;
            e'.downThread == e.downThread && e'.out == e.out && NoEmptier(e, e', e.downThread.id)
  {
    hide Header, Receive, GotPayload, Deliver, Took, Put, Returned, Wanting, NextID, SentHeader, SentPayload, SentClose,
      TakeChunk, StartMarking;
  }

  lemma StallKept(e: Endpoint, wire: seq<byte>, l: Limits, a: Action)
    requires DownStalled(e, l) && Enabled(e, wire, a) && Fits(e, a, l)
    ensures var e' := Act(e, wire, a).0;
            && e'.downThread == e.downThread && e'.out == e.out
            && (e.downThread.id in e'.streams ==> DownStalled(e', l))
  {
    if IsUpstream(a) {
      UpstreamLeavesDown(e, wire, a);
      UpstreamNoEmptier(e, wire, a, e.downThread.id);
    } else {
      UserNoEmptier(e, wire, a, l);
    }
    hide Act, Enabled, Fits;
  }

  lemma TakesFromWire(e: Endpoint, wire: seq<byte>, a: Action)
    requires Enabled(e, wire, a)
    ensures |Act(e, wire, a).1| <= |wire|
  {
    hide HeaderCommand, HeaderID;
  }
}
