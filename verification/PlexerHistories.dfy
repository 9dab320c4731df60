/** What the users of both plexers write and read, over whole runs: the bytes that reads hand out are those written. */
module PlexerHistories {
  import opened Bytes
  import opened PlexerWire
  import opened PlexerProtocol
  import opened PlexerInvariant
  import opened PlexerTheorems

  // ---- What has come up is what has been read and what is left to read ----

  predicate Balanced(s: StreamState) { s.delivered == s.taken + s.up }

  ghost predicate ReadersAreServed(e: Endpoint) {
    && (forall id <- e.streams :: Balanced(e.streams[id]))
    && (forall id <- e.ended :: Balanced(e.ended[id]))
  }

  lemma SameTablesAreServed(e: Endpoint, e': Endpoint)
    requires ReadersAreServed(e) && e'.streams == e.streams && e'.ended == e.ended
    ensures ReadersAreServed(e')
  {
  }

  lemma OneStreamIsServed(e: Endpoint, e': Endpoint, id: StreamID, s: StreamState)
    requires ReadersAreServed(e) && Balanced(s) && e'.streams == e.streams[id := s] && e'.ended == e.ended
    ensures ReadersAreServed(e')
  {
  }

  lemma NoStreamIsServed(e: Endpoint, e': Endpoint)
    requires ReadersAreServed(e) && e'.streams == map[] && e'.ended == e.ended
    ensures ReadersAreServed(e')
  {
  }

  lemma CreateServes(e: Endpoint)
    requires ReadersAreServed(e)
    ensures ReadersAreServed(Create(e))
  {
    hide NextID, ReadersAreServed;
    if NextID(e) in e.streams {
      NoStreamIsServed(e, Create(e));
    } else {
      OneStreamIsServed(e, Create(e), NextID(e), FreshStream(true));
    }
  }

  lemma WriteServes(e: Endpoint, id: StreamID, data: seq<byte>)
    requires ReadersAreServed(e) && id in e.streams
    ensures ReadersAreServed(Write(e, id, data))
  {
    assert Balanced(e.streams[id]);
    hide ReadersAreServed;
    OneStreamIsServed(e, Write(e, id, data), id, Write(e, id, data).streams[id]);
  }

  lemma ReadServes(e: Endpoint, id: StreamID, n: nat)
    requires ReadersAreServed(e) && id in e.streams && n <= |e.streams[id].up|
    ensures ReadersAreServed(Read(e, id, n))
  {
    var s := e.streams[id];
    assert Balanced(s) && s.up == s.up[..n] + s.up[n..];
    Concat(s.taken, s.up[..n], s.up[n..]);
    hide ReadersAreServed;
    OneStreamIsServed(e, Read(e, id, n), id, Read(e, id, n).streams[id]);
  }

  lemma StartMarkingServes(e: Endpoint)
    requires ReadersAreServed(e) && e.asked != []
    ensures ReadersAreServed(StartMarking(e))
  {
    var id := e.asked[0];
    if id in e.streams {
      assert Balanced(e.streams[id]);
      hide ReadersAreServed;
      OneStreamIsServed(e, StartMarking(e), id, StartMarking(e).streams[id]);
    }
  }

  lemma MarkServes(e: Endpoint)
    requires ReadersAreServed(e) && e.downThread.Marking?
    ensures ReadersAreServed(Mark(e))
  {
    var id := e.downThread.id;
    if id in e.streams {
      assert Balanced(e.streams[id]);
      hide ReadersAreServed;
      OneStreamIsServed(e, Mark(e), id, Mark(e).streams[id]);
    }
  }

  lemma TakeChunkServes(e: Endpoint, id: StreamID, n: nat)
    requires ReadersAreServed(e) && id in e.streams && 1 <= n <= |e.streams[id].down|
    ensures ReadersAreServed(TakeChunk(e, id, n))
  {
    assert Balanced(e.streams[id]);
    hide ReadersAreServed;
    OneStreamIsServed(e, TakeChunk(e, id, n), id, TakeChunk(e, id, n).streams[id]);
  }

  lemma EndServes(e: Endpoint, id: StreamID)
    requires ReadersAreServed(e)
    ensures ReadersAreServed(End(e, id))
  {
    if id in e.streams {
      assert Balanced(e.streams[id]);
    }
  }

  lemma SentCloseServes(e: Endpoint)
    requires ReadersAreServed(e) && e.downThread.CloseDue?
    ensures ReadersAreServed(SentClose(e))
  {
    var e' := e.(out := e.out + Header(COMMAND_CLOSE, e.downThread.id), downThread := DownIdle);
    SameTablesAreServed(e, e');
    hide ReadersAreServed, Header;
    EndServes(e', e.downThread.id);
  }

  lemma ChooseServes(e: Endpoint, id: StreamID)
    requires ReadersAreServed(e)
    ensures ReadersAreServed(Choose(e, id))
  {
    hide ReadersAreServed;
    if id !in e.streams {
      if id % 2 == 0 && e.even {
        NoStreamIsServed(e, Choose(e, id));
      } else {
        OneStreamIsServed(e, Choose(e, id), id, FreshStream(false));
      }
    }
  }

  lemma ReceiveServes(e: Endpoint, header: seq<byte>)
    requires ReadersAreServed(e) && |header| == HEADER
    ensures ReadersAreServed(Receive(e, header))
  {
    hide HeaderCommand, HeaderID, ReadersAreServed, Choose;
    var chosen := Choose(e, HeaderID(header));
    ChooseServes(e, HeaderID(header));
    NoStreamIsServed(e, Interrupted(e));
    SameTablesAreServed(chosen, CloseReceived(chosen, HeaderID(header)));
    var command := HeaderCommand(header);
    if IsCommand(command) && chosen.active && command != COMMAND_CLOSE {
      SameTablesAreServed(chosen, Receive(e, header));
    }
  }

  lemma DeliverServes(e: Endpoint, n: nat)
    requires ReadersAreServed(e) && e.upThread.PayloadRead? && 1 <= n <= |e.upThread.chunk|
    ensures ReadersAreServed(Deliver(e, n))
  {
    var id, chunk := e.upThread.id, e.upThread.chunk;
    if id !in e.streams {
      SameTablesAreServed(e, Deliver(e, n));
    } else {
      var s := e.streams[id];
      assert Balanced(s);
      Concat(s.taken, s.up, chunk[..n]);
      hide ReadersAreServed;
      OneStreamIsServed(e, Deliver(e, n), id, Deliver(e, n).streams[id]);
    }
  }

  lemma ReturnServes(e: Endpoint)
    requires ReadersAreServed(e) && e.upThread.Notifying?
    ensures ReadersAreServed(Returned(e))
  {
    SameTablesAreServed(e, e.(upThread := UpIdle));
    hide ReadersAreServed;
    EndServes(e.(upThread := UpIdle), e.upThread.id);
  }

  /** Steps that leave the tables alone. */
  predicate IsPlain(a: Action) {
    || a.AskClose? || a.SendHeader? || a.SendPayload? || a.ReadPayload? || a.SetCallbacks?
    || a.CallRead? || a.CallWrite? || a.CallEnd?
  }

  lemma PlainKeepsTables(e: Endpoint, wire: seq<byte>, a: Action)
    requires Enabled(e, wire, a) && IsPlain(a)
    ensures var e' := Act(e, wire, a).0; e'.streams == e.streams && e'.ended == e.ended && e'.active == e.active
  {
    hide Header, Receive, Deliver, Took, Put, Returned, NextID, StartMarking, Mark, TakeChunk, SentClose, Write, Read, Create;
  }

  lemma TookServes(e: Endpoint, n: nat)
    requires ReadersAreServed(e) && WantOf(e).Bytes? && n <= WantOf(e).n && WantOf(e).from in e.streams
    requires n <= |e.streams[WantOf(e).from].up|
    ensures ReadersAreServed(Took(e, n))
  {
    hide ReadersAreServed, Read;
    ReadServes(e, WantOf(e).from, n);
    ReadKeepsThread(e, WantOf(e).from, n);
    SameTablesAreServed(Read(e, WantOf(e).from, n), Took(e, n));
  }

  lemma ReadKeepsThread(e: Endpoint, id: StreamID, n: nat)
    requires id in e.streams && n <= |e.streams[id].up|
    ensures Read(e, id, n).upThread == e.upThread
  {
  }

  lemma PutServes(e: Endpoint, n: nat)
    requires ReadersAreServed(e) && WantOf(e).Room? && n <= |WantOf(e).data| && WantOf(e).to in e.streams
    ensures ReadersAreServed(Put(e, n))
  {
    hide ReadersAreServed, Write;
    WriteServes(e, WantOf(e).to, WantOf(e).data[..n]);
    WriteKeepsThread(e, WantOf(e).to, WantOf(e).data[..n]);
    SameTablesAreServed(Write(e, WantOf(e).to, WantOf(e).data[..n]), Put(e, n));
  }

  lemma WriteKeepsThread(e: Endpoint, id: StreamID, data: seq<byte>)
    requires id in e.streams
    ensures Write(e, id, data).upThread == e.upThread
  {
  }

  lemma ActServes(e: Endpoint, wire: seq<byte>, a: Action)
    requires ReadersAreServed(e) && Enabled(e, wire, a)
    ensures ReadersAreServed(Act(e, wire, a).0)
  {
    hide ReadersAreServed, Receive, Deliver, Took, Put, Returned, StartMarking, Mark, TakeChunk, SentHeader, SentPayload,
      SentClose, Write, Read, Create, GotPayload, Wanting;
    if IsPlain(a) {
      PlainKeepsTables(e, wire, a);
      SameTablesAreServed(e, Act(e, wire, a).0);
    } else {
      match a
      case CreateStream => CreateServes(e);
      case WriteDown(id, data) => WriteServes(e, id, data);
      case ReadUp(id, n) => ReadServes(e, id, n);
      case BeginClose => StartMarkingServes(e);
      case PutMarker => MarkServes(e);
      case ReadChunk(id, n) => TakeChunkServes(e, id, n);
      case SendClose => SentCloseServes(e);
      case ReadHeader => ReceiveServes(e, wire[..HEADER]);
      case WriteUp(n) => DeliverServes(e, n);
      case CallTake(n) => TookServes(e, n);
      case CallPut(n) => PutServes(e, n);
      case CallReturn => ReturnServes(e);
      case Interrupt => NoStreamIsServed(e, Interrupted(e));
      case _ =>
    }
  }

  /**
   In every run, closes and interruptions included, and on every stream, in the table or gone from it: what has been
   written up is what the user has read and then what it has yet to read, in order.
   */
  lemma {:induction false} RunServes(schedule: seq<(Side, Action)>, side: Side)
    ensures ReadersAreServed(Of(Run(INITIAL, schedule), side))
    decreases |schedule|
  {
    hide Act, Enabled, ReadersAreServed;
    if schedule == [] {
      StartServes(side);
    } else {
      var last := |schedule| - 1;
      RunServes(schedule[..last], side);
      var s, step := Run(INITIAL, schedule[..last]), schedule[last];
      if Enabled(Of(s, step.0), PeerOf(s, step.0).out, step.1) {
        if step.0 == side {
          ActServes(Of(s, side), PeerOf(s, side).out, step.1);
        } else {
          SameTablesAreServed(Of(s, side), Of(s, side).(out := Act(Of(s, step.0), PeerOf(s, step.0).out, step.1).1));
        }
      }
    }
  }

  lemma StartServes(side: Side)
    ensures ReadersAreServed(Of(INITIAL, side))
  {
  }

  // ---- What users write and what their reads get ----

  /** What an action writes into a stream, for a user or for a callback. */
  function WrittenBy(e: Endpoint, a: Action, id: StreamID): seq<byte> {
    match a
    case WriteDown(to, data) => if to == id then data else []
    case CallPut(n) =>
      if WantOf(e).Room? && WantOf(e).to == id && n <= |WantOf(e).data| then WantOf(e).data[..n] else []
    case _ => []
  }

  /** What an action reads from a stream, for a user or for a callback: the bytes that have been there longest. */
  function ReadBy(e: Endpoint, a: Action, id: StreamID): seq<byte> {
    match a
    case ReadUp(from, n) => if from == id && id in e.streams && n <= |e.streams[id].up| then e.streams[id].up[..n] else []
    case CallTake(n) =>
      if WantOf(e).Bytes? && WantOf(e).from == id && id in e.streams && n <= |e.streams[id].up|
      then e.streams[id].up[..n] else []
    case _ => []
  }

  /** A stream has been written and read so much further; one that is new has not been at all. */
  predicate Further(e: Endpoint, e': Endpoint, id: StreamID, written: seq<byte>, taken: seq<byte>) {
    id in e'.streams ==>
      if id in e.streams then
        && e'.streams[id].written == e.streams[id].written + written
        && e'.streams[id].taken == e.streams[id].taken + taken
      else e'.streams[id].written == [] && e'.streams[id].taken == []
  }

  lemma NoFurther(e: Endpoint, e': Endpoint, id: StreamID)
    requires id in e'.streams ==>
      if id in e.streams then
        e'.streams[id].written == e.streams[id].written && e'.streams[id].taken == e.streams[id].taken
      else e'.streams[id] in {FreshStream(true), FreshStream(false)}
    ensures Further(e, e', id, [], [])
  {
    if id in e.streams {
      assert e.streams[id].written + [] == e.streams[id].written && e.streams[id].taken + [] == e.streams[id].taken;
    }
  }

  lemma CreateNoFurther(e: Endpoint, id: StreamID)
    ensures Further(e, Create(e), id, [], [])
  {
    hide NextID, Further;
    NoFurther(e, Create(e), id);
  }

  lemma DownNoFurther(e: Endpoint, wire: seq<byte>, a: Action, id: StreamID)
    requires Enabled(e, wire, a) && (a.BeginClose? || a.PutMarker? || a.ReadChunk? || a.SendClose?)
    ensures Further(e, Act(e, wire, a).0, id, [], [])
  {
    hide Further, Header, Receive, Deliver, Took, Put, Returned, NextID, Write, Read, Create, GotPayload, SentHeader,
      SentPayload, Wanting;
    NoFurther(e, Act(e, wire, a).0, id);
  }

  lemma ChooseNoFurther(e: Endpoint, chosen: StreamID, id: StreamID)
    ensures Further(e, Choose(e, chosen), id, [], [])
  {
    hide Further;
    NoFurther(e, Choose(e, chosen), id);
  }

  /** Whatever a header says, the table is then the one in which its stream was looked up, or empty. */
  lemma ReceiveTable(e: Endpoint, header: seq<byte>)
    requires |header| == HEADER
    ensures Receive(e, header).streams == map[] || Receive(e, header).streams == Choose(e, HeaderID(header)).streams
  {
    hide HeaderCommand, HeaderID, Choose;
  }

  lemma ReceiveNoFurther(e: Endpoint, header: seq<byte>, id: StreamID)
    requires |header| == HEADER
    ensures Further(e, Receive(e, header), id, [], [])
  {
    hide Receive, HeaderID;
    ReceiveTable(e, header);
    ChooseNoFurther(e, HeaderID(header), id);
  }

  lemma UpNoFurther(e: Endpoint, wire: seq<byte>, a: Action, id: StreamID)
    requires Enabled(e, wire, a) && (a.WriteUp? || a.CallReturn? || a.Interrupt?)
    ensures Further(e, Act(e, wire, a).0, id, [], [])
  {
    hide Further, Header, Receive, Took, Put, NextID, Write, Read, Create, GotPayload, SentHeader, SentPayload, SentClose,
      StartMarking, Mark, TakeChunk, Wanting;
    NoFurther(e, Act(e, wire, a).0, id);
  }

  lemma WriteFurther(e: Endpoint, to: StreamID, data: seq<byte>, id: StreamID)
    requires to in e.streams
    ensures Further(e, Write(e, to, data), id, if to == id then data else [], [])
  {
    if id in e.streams {
      assert e.streams[id].written + [] == e.streams[id].written && e.streams[id].taken + [] == e.streams[id].taken;
    }
  }

  lemma ReadFurther(e: Endpoint, from: StreamID, n: nat, id: StreamID)
    requires from in e.streams && n <= |e.streams[from].up|
    ensures Further(e, Read(e, from, n), id, [], if from == id then e.streams[id].up[..n] else [])
  {
    if id in e.streams {
      assert e.streams[id].written + [] == e.streams[id].written && e.streams[id].taken + [] == e.streams[id].taken;
    }
  }

  lemma SameStreamsFurther(e: Endpoint, e': Endpoint, e'': Endpoint, id: StreamID, written: seq<byte>, taken: seq<byte>)
    requires Further(e, e', id, written, taken) && e''.streams == e'.streams
    ensures Further(e, e'', id, written, taken)
  {
  }

  lemma ActFurther(e: Endpoint, wire: seq<byte>, a: Action, id: StreamID)
    requires Enabled(e, wire, a)
    ensures Further(e, Act(e, wire, a).0, id, WrittenBy(e, a, id), ReadBy(e, a, id))
  {
    hide Further, Receive, Deliver, Returned, StartMarking, Mark, TakeChunk, SentHeader, SentPayload, SentClose, Write, Read,
      Create, GotPayload;
    if IsPlain(a) {
      PlainKeepsTables(e, wire, a);
      NoFurther(e, Act(e, wire, a).0, id);
    } else {
      match a
      case CreateStream => CreateNoFurther(e, id);
      case WriteDown(to, data) => WriteFurther(e, to, data, id);
      case ReadUp(from, n) => ReadFurther(e, from, n, id);
      case ReadHeader => ReceiveNoFurther(e, wire[..HEADER], id);
      case CallTake(n) =>
        ReadFurther(e, WantOf(e).from, n, id);
        ReadKeepsThread(e, WantOf(e).from, n);
        SameStreamsFurther(e, Read(e, WantOf(e).from, n), Took(e, n), id, [], ReadBy(e, a, id));
      case CallPut(n) =>
        WriteFurther(e, WantOf(e).to, WantOf(e).data[..n], id);
        WriteKeepsThread(e, WantOf(e).to, WantOf(e).data[..n]);
        SameStreamsFurther(e, Write(e, WantOf(e).to, WantOf(e).data[..n]), Put(e, n), id, WrittenBy(e, a, id), []);
      case WriteUp(_) => UpNoFurther(e, wire, a, id);
      case CallReturn => UpNoFurther(e, wire, a, id);
      case Interrupt => UpNoFurther(e, wire, a, id);
      case _ => DownNoFurther(e, wire, a, id);
    }
  }

  /** A stream stays in the table unless its close is sent, or the callback for its close returns; and none is added. */
  lemma DownStays(e: Endpoint, wire: seq<byte>, a: Action, id: StreamID)
    requires Enabled(e, wire, a) && (a.BeginClose? || a.PutMarker? || a.ReadChunk? || a.SendClose?)
    ensures id in Act(e, wire, a).0.streams <==> id in e.streams && !(a.SendClose? && e.downThread.id == id)
  {
    hide Header, Receive, Deliver, Took, Put, Returned, NextID, Write, Read, Create, GotPayload, SentHeader, SentPayload,
      Wanting;
  }

  lemma UpStays(e: Endpoint, wire: seq<byte>, a: Action, id: StreamID)
    requires Enabled(e, wire, a) && (a.WriteUp? || a.CallReturn?)
    ensures id in Act(e, wire, a).0.streams
      <==> id in e.streams && !(a.CallReturn? && e.upThread.closing && e.upThread.id == id)
  {
    hide Header, Receive, Took, Put, NextID, Write, Read, Create, GotPayload, SentHeader, SentPayload, SentClose,
      StartMarking, Mark, TakeChunk, Wanting;
  }

  lemma UserStays(e: Endpoint, wire: seq<byte>, a: Action, id: StreamID)
    requires Enabled(e, wire, a) && Act(e, wire, a).0.active
    requires a.CreateStream? || a.WriteDown? || a.ReadUp? || a.CallTake? || a.CallPut?
    ensures id in Act(e, wire, a).0.streams <==> id in e.streams || (a.CreateStream? && id == NextID(e))
  {
    hide Header, Receive, Deliver, Returned, NextID, GotPayload, SentHeader, SentPayload, SentClose, StartMarking, Mark,
      TakeChunk;
  }

  lemma ReceiveStays(e: Endpoint, header: seq<byte>, id: StreamID)
    requires |header| == HEADER && id in e.streams && Receive(e, header).active
    ensures id in Receive(e, header).streams
  {
    hide HeaderCommand, HeaderID;
  }

  lemma StaysInTable(e: Endpoint, wire: seq<byte>, a: Action, id: StreamID)
    requires Enabled(e, wire, a) && Act(e, wire, a).0.active
    requires e.downThread.CloseDue? ==> e.downThread.id != id
    requires e.upThread.Notifying? && e.upThread.closing ==> e.upThread.id != id
    ensures id in e.streams ==> id in Act(e, wire, a).0.streams
    ensures id in Act(e, wire, a).0.streams ==> id in e.streams || (a.CreateStream? && id == NextID(e)) || a.ReadHeader?
  {
    hide Receive, Deliver, Returned, StartMarking, Mark, TakeChunk, SentHeader, SentPayload, SentClose, Write, Read,
      Create, GotPayload, Took, Put;
    if IsPlain(a) {
      PlainKeepsTables(e, wire, a);
    } else if a.BeginClose? || a.PutMarker? || a.ReadChunk? || a.SendClose? {
      DownStays(e, wire, a, id);
    } else if a.WriteUp? || a.CallReturn? {
      UpStays(e, wire, a, id);
    } else if a.ReadHeader? {
      if id in e.streams {
        ReceiveStays(e, wire[..HEADER], id);
      }
    } else if !a.Interrupt? {
      UserStays(e, wire, a, id);
    }
  }

  /** All that has been written into a stream at one end, and all that has been read from it, over a run. */
  function AllWritten(schedule: seq<(Side, Action)>, side: Side, id: StreamID): seq<byte>
    decreases |schedule|
  {
    if schedule == [] then []
    else
      var last := |schedule| - 1;
      var s, step := Run(INITIAL, schedule[..last]), schedule[last];
      AllWritten(schedule[..last], side, id)
        + if step.0 == side && Enabled(Of(s, side), PeerOf(s, side).out, step.1)
          then WrittenBy(Of(s, side), step.1, id) else []
  }

  function AllRead(schedule: seq<(Side, Action)>, side: Side, id: StreamID): seq<byte>
    decreases |schedule|
  {
    if schedule == [] then []
    else
      var last := |schedule| - 1;
      var s, step := Run(INITIAL, schedule[..last]), schedule[last];
      AllRead(schedule[..last], side, id)
        + if step.0 == side && Enabled(Of(s, side), PeerOf(s, side).out, step.1)
          then ReadBy(Of(s, side), step.1, id) else []
  }

  /** The histories of a stream are what has been done to it, as long as it has not been closed. */
  predicate Accounted(e: Endpoint, id: StreamID, written: seq<byte>, taken: seq<byte>) {
    if id in e.streams then e.streams[id].written == written && e.streams[id].taken == taken
    else written == [] && taken == []
  }

  /** Only what somebody has asked to close is about to leave a table. */
  lemma OnlyClosedLeave(a: Endpoint, b: Endpoint, closed: set<StreamID>, id: StreamID)
    requires Both(a, b, closed) && id !in closed
    ensures a.downThread.CloseDue? ==> a.downThread.id != id
    ensures a.upThread.Notifying? && a.upThread.closing ==> a.upThread.id != id
  {
    hide WireParses, TailOK, FramesOK, Books;
  }

  lemma ActAccounts(
    a: Endpoint, b: Endpoint, closed: set<StreamID>, act: Action, id: StreamID, written: seq<byte>, taken: seq<byte>)
    requires Both(a, b, closed) && Enabled(a, b.out, act) && id !in closed && Act(a, b.out, act).0.active
    requires Accounted(a, id, written, taken)
    ensures Accounted(Act(a, b.out, act).0, id, written + WrittenBy(a, act, id), taken + ReadBy(a, act, id))
  {
    hide Act, Enabled, Both, WrittenBy, ReadBy;
    ActFurther(a, b.out, act, id);
    if id in a.streams {
      OnlyClosedLeave(a, b, closed, id);
      StaysInTable(a, b.out, act, id);
    } else {
      NotThereNotUsed(a, b.out, act, id);
    }
  }

  lemma NotThereNotUsed(e: Endpoint, wire: seq<byte>, a: Action, id: StreamID)
    requires Enabled(e, wire, a) && id !in e.streams
    ensures WrittenBy(e, a, id) == [] && ReadBy(e, a, id) == []
  {
  }

  /**
   What an open stream's histories say is what the calls have done: every byte written into it, for a user or for a
   callback, in the order of the calls, and every byte that a read has got.
   */
  lemma {:induction false} HistoriesAreTheCalls(schedule: seq<(Side, Action)>, side: Side, id: StreamID)
    requires var s := Run(INITIAL, schedule); s.master.active && s.slave.active && id !in s.closed
    ensures Accounted(Of(Run(INITIAL, schedule), side), id, AllWritten(schedule, side, id), AllRead(schedule, side, id))
    decreases |schedule|
  {
    hide Act, Enabled, Flow, WrittenBy, ReadBy, OwnParity;
    if schedule != [] {
      var last := |schedule| - 1;
      var s, step := Run(INITIAL, schedule[..last]), schedule[last];
      OnlyGoesDown(s, step.0, step.1);
      HistoriesAreTheCalls(schedule[..last], side, id);
      RunKeeps(schedule[..last]);
      var me, peer := Of(s, side), PeerOf(s, side);
      var written, taken := AllWritten(schedule[..last], side, id), AllRead(schedule[..last], side, id);
      assert written + [] == written && taken + [] == taken;
      if Enabled(Of(s, step.0), PeerOf(s, step.0).out, step.1) && step.0 == side {
        ActAccounts(me, peer, s.closed, step.1, id, written, taken);
      }
    }
  }

  lemma OnlyGoesDown(s: State, side: Side, a: Action)
    ensures var s' := Next(s, side, a);
            (s'.master.active ==> s.master.active) && (s'.slave.active ==> s.slave.active) && s.closed <= s'.closed
  {
    hide HeaderCommand, HeaderID;
  }

  /** What the peer's user has read of a stream, as the stream's own history has it. */
  function TakenFrom(b: Endpoint, id: StreamID): seq<byte> {
    if id in b.streams then b.streams[id].taken else if id in b.ended then b.ended[id].taken else []
  }

  lemma TakenIsDelivered(schedule: seq<(Side, Action)>, side: Side, id: StreamID)
    ensures var b := Of(Run(INITIAL, schedule), side); TakenFrom(b, id) <= Delivered(b, id)
  {
    RunServes(schedule, side);
    var b := Of(Run(INITIAL, schedule), side);
    if id in b.streams {
      assert Balanced(b.streams[id]);
    } else if id in b.ended {
      assert Balanced(b.ended[id]);
    }
  }

  /**
   From the calls at one end to the calls at the other, with both plexers and the wire between them: on an open stream,
   the bytes that the peer's reads have got, in order, are the first of those that this end's writes have put in.
   */
  lemma ReadsGetWhatWasWritten(schedule: seq<(Side, Action)>, side: Side, id: StreamID)
    requires IsOpen(Run(INITIAL, schedule), side, id)
    ensures AllRead(schedule, Other(side), id) <= AllWritten(schedule, side, id)
    ensures AllRead(schedule, Other(side), id) == TakenFrom(PeerOf(Run(INITIAL, schedule), side), id)
    ensures AllWritten(schedule, side, id) == Of(Run(INITIAL, schedule), side).streams[id].written
  {
    HistoriesAreTheCalls(schedule, side, id);
    HistoriesAreTheCalls(schedule, Other(side), id);
    DeliveryIsPrefix(schedule, side, id);
    TakenIsDelivered(schedule, Other(side), id);
    OpenIsNotEnded(schedule, side, id);
    hide Run, AllWritten, AllRead, Delivered;
  }

  lemma OpenIsNotEnded(schedule: seq<(Side, Action)>, side: Side, id: StreamID)
    requires IsOpen(Run(INITIAL, schedule), side, id)
    ensures id !in PeerOf(Run(INITIAL, schedule), side).ended
  {
    RunKeeps(schedule);
    var s := Run(INITIAL, schedule);
    assert ClosedOK(Of(s, side), s.closed) && ClosedOK(PeerOf(s, side), s.closed);
  }

  lemma OpenWithDataIsThere(b: Endpoint, id: StreamID)
    requires Delivered(b, id) != [] && id !in b.ended
    ensures id in b.streams
  {
  }

  /**
   When the threads are at rest and neither stalled nor held up by a callback, what has been read and what is left to
   read are all that has been written.
   */
  lemma RestMeansReadable(schedule: seq<(Side, Action)>, l: Limits, side: Side, id: StreamID)
    requires l.pipe >= 1 && l.wire >= HEADER
    requires AtRest(Run(INITIAL, schedule), l) && IsOpen(Run(INITIAL, schedule), side, id)
    requires var s := Run(INITIAL, schedule);
             !UpStalled(PeerOf(s, side), l) && !CallStalled(Of(s, side), PeerOf(s, side)) && !DownStalled(Of(s, side), l)
    ensures var peer := PeerOf(Run(INITIAL, schedule), side);
            AllWritten(schedule, side, id)
              == AllRead(schedule, Other(side), id) + if id in peer.streams then peer.streams[id].up else []
  {
    hide Run, AtRest, AllWritten, AllRead, UpStalled, CallStalled, DownStalled;
    RestMeansDelivered(schedule, l, side, id);
    ReadsGetWhatWasWritten(schedule, side, id);
    OpenIsNotEnded(schedule, side, id);
    RunServes(schedule, Other(side));
    var peer := PeerOf(Run(INITIAL, schedule), side);
    if id in peer.streams {
      assert Balanced(peer.streams[id]);
    }
  }

  /** A callback's call ends when it has read as many bytes as it asked for, or written all it was given, in order. */
  lemma CallsMoveWhatTheyAsk(e: Endpoint, wire: seq<byte>, a: Action)
    requires Enabled(e, wire, a) && (a.CallTake? || a.CallPut?)
    ensures var w, w' := WantOf(e), WantOf(Act(e, wire, a).0);
            if a.CallTake? then
              w.Bytes? && if w.n == a.n then w'.Nothing? else w'.Bytes? && w'.from == w.from && w'.n == w.n - a.n
            else w.Room? && if w.data == WrittenBy(e, a, w.to) then w'.Nothing?
                            else w'.Room? && w'.to == w.to && w.data == WrittenBy(e, a, w.to) + w'.data
  {
    hide Read, Write, Create, Receive, Deliver, Returned, StartMarking, Mark, TakeChunk, SentHeader, SentPayload, SentClose,
      GotPayload, AtEnd;
    if a.CallPut? {
      var data := WantOf(e).data;
      assert data == data[..a.n] + data[a.n..];
    }
  }
}
