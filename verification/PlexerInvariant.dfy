/** Every step of either plexer keeps the invariant; the theorems about runs follow. */
module PlexerInvariant {
  import opened Bytes
  import opened PlexerWire
  import opened PlexerProtocol

  /** What each step may assume: both directions flow, and the two ends own different ids. */
  ghost predicate Both(a: Endpoint, b: Endpoint, closed: set<StreamID>) {
    && a.active && b.active && a.even != b.even
    && OwnParity(a, a.lastID) && OwnParity(b, b.lastID)
    && Flow(a, b, closed) && Flow(b, a, closed)
  }

  lemma NextIDIsOwn(e: Endpoint)
    requires OwnParity(e, e.lastID)
    ensures OwnParity(e, NextID(e))
  {
  }

  /** An id neither side has closed is in a table only if its owner has it. */
  lemma OwnerHasIt(a: Endpoint, b: Endpoint, closed: set<StreamID>, id: StreamID)
    requires Both(a, b, closed) && id !in closed
    ensures OwnParity(a, id) && id in b.streams ==> id in a.streams
    ensures !OwnParity(a, id) && id in a.streams ==> id in b.streams
  {
    if id in b.streams {
      assert EntryOK(b, a, id);
    }
    if id in a.streams {
      assert EntryOK(a, b, id);
    }
  }

  /** A thread that waits for a callback goes on waiting, or is free again. */
  predicate StillCalling(t: UpThread, t': UpThread) {
    t.Notifying? && (t'.UpIdle? || (t'.Notifying? && t'.id == t.id && t'.closing == t.closing))
  }

  /** The upward side of a, but for streams being closed. */
  ghost predicate SameUpward(a: Endpoint, a': Endpoint, closed: set<StreamID>) {
    && (a'.upThread == a.upThread || StillCalling(a.upThread, a'.upThread))
    && forall i :: i !in closed ==> Delivered(a', i) == Delivered(a, i) && (i in a.streams ==> i in a'.streams)
  }

  /** The books of what b sends do not change while a's upward side stays as it is. */
  lemma InboundKept(a: Endpoint, b: Endpoint, closed: set<StreamID>, a': Endpoint, closed': set<StreamID>)
    requires Flow(b, a, closed) && closed <= closed' && SameUpward(a, a', closed')
    ensures Flow(b, a', closed')
  {
    hide DataOf, Parse, Delivered;
    assert WireParses(b, a') && InFlight(b, a') == InFlight(b, a);
    forall i <- b.streams | i !in closed' ensures EntryOK(b, a', i) {
      assert EntryOK(b, a, i);
    }
  }

  lemma KeptUpward(a: Endpoint, a': Endpoint, closed: set<StreamID>)
    requires a'.upThread == a.upThread && a'.streams == a.streams && a'.ended == a.ended
    ensures SameUpward(a, a', closed)
  {
  }

  lemma ClosedUpward(a: Endpoint, closed: set<StreamID>)
    requires a.downThread.CloseDue? && a.downThread.id in closed
    ensures SameUpward(a, SentClose(a), closed)
  {
    hide Header;
  }

  lemma SameWire(a: Endpoint, b: Endpoint, a': Endpoint)
    requires WireParses(a, b) && Wire(a') == Wire(a)
    ensures WireParses(a', b) && InFlight(a', b) == InFlight(a, b)
    ensures forall i :: Arriving(a', b, i) == Arriving(a, b, i)
  {
    hide Parse;
  }

  /** What the books of an entry are made of, apart from what is on the way. */
  predicate SameEntry(s: StreamState, t: StreamState) {
    && t.local == s.local && t.userClosed == s.userClosed
    && t.written == s.written && t.down == s.down
  }

  /** The table as the downward books see it, but for streams being closed. */
  ghost predicate SameTable(a: Endpoint, a': Endpoint, b: Endpoint, closed: set<StreamID>) {
    && (forall i | i !in closed :: i in a.streams <==> i in a'.streams)
    && (forall i <- a'.streams | i !in closed ::
          SameEntry(a.streams[i], a'.streams[i]) && (i in b.streams || a'.streams[i].delivered == a.streams[i].delivered))
    && ClosedOK(a', closed)
  }

  /** The downward side of a, but for streams being closed. */
  ghost predicate SameDownward(a: Endpoint, a': Endpoint, b: Endpoint, closed: set<StreamID>) {
    && Wire(a') == Wire(a) && (a'.downThread.HeaderSent? ==> a'.downThread == a.downThread) && a'.even == a.even
    && (forall i | i !in closed :: Leaving(a', i) == Leaving(a, i))
    && SameTable(a, a', b, closed)
  }

  /** Steps of the upstream side leave the downward side alone but for the table. */
  lemma DownThreadIsSame(a: Endpoint, a': Endpoint, b: Endpoint, closed: set<StreamID>)
    requires a'.downThread == a.downThread && a'.out == a.out && a'.even == a.even
    requires SameTable(a, a', b, closed) && ThreadsOK(a, b, closed)
    ensures SameDownward(a, a', b, closed) && ThreadsOK(a', b, closed)
  {
    hide ClosedOK;
  }

  /** The books of what a sends do not change with what is not in them. */
  lemma OutboundKept(a: Endpoint, b: Endpoint, closed: set<StreamID>, a': Endpoint, closed': set<StreamID>)
    requires Flow(a, b, closed) && closed <= closed' && SameDownward(a, a', b, closed') && ThreadsOK(a', b, closed')
    ensures Flow(a', b, closed')
  {
    SameWire(a, b, a');
    hide DataOf, Parse, Delivered, Arriving, Leaving, Wire;
    assert TailOK(a', b);
    forall i <- a'.streams | i !in closed' ensures EntryOK(a', b, i) {
      assert EntryOK(a, b, i);
    }
  }

  /** A step that leaves both sides as they are keeps both directions. */
  lemma Kept(a: Endpoint, b: Endpoint, closed: set<StreamID>, a': Endpoint, closed': set<StreamID>)
    requires Both(a, b, closed) && closed <= closed'
    requires SameUpward(a, a', closed') && SameDownward(a, a', b, closed') && ThreadsOK(a', b, closed')
    requires a'.active && a'.even == a.even && a'.lastID == a.lastID
    ensures Both(a', b, closed')
  {
    hide Flow, SameUpward, SameDownward, ThreadsOK;
    InboundKept(a, b, closed, a', closed');
    OutboundKept(a, b, closed, a', closed');
  }

  // ---- Steps of the user and of a close request ----

  lemma CreateBooks(a: Endpoint, b: Endpoint, closed: set<StreamID>, id: StreamID, a': Endpoint)
    requires Both(a, b, closed) && id !in a.streams && OwnParity(a, id)
    requires a' == a.(lastID := a'.lastID, streams := a.streams[id := FreshStream(true)])
    ensures WireParses(a', b) && InFlight(a', b) == InFlight(a, b) && Books(a', b, closed)
  {
    SameWire(a, b, a');
    if id !in closed {
      FreshBooks(a, b, closed, id, a');
    }
    hide DataOf, Parse, Wire, Arriving, Delivered, WireParses, InFlight;
    forall i <- a'.streams | i !in closed ensures EntryOK(a', b, i) {
      if i != id {
        assert EntryOK(a, b, i);
      }
    }
  }

  lemma FreshBooks(a: Endpoint, b: Endpoint, closed: set<StreamID>, id: StreamID, a': Endpoint)
    requires Both(a, b, closed) && id !in a.streams && OwnParity(a, id) && id !in closed
    requires a' == a.(lastID := a'.lastID, streams := a.streams[id := FreshStream(true)])
    requires WireParses(a', b) && InFlight(a', b) == InFlight(a, b) && Arriving(a', b, id) == Arriving(a, b, id)
    ensures EntryOK(a', b, id)
  {
    hide DataOf, Parse, Wire, WireParses, InFlight;
    OwnerHasIt(a, b, closed, id);
    NoDataOf(InFlight(a, b), id);
  }

  lemma CreateOutbound(a: Endpoint, b: Endpoint, closed: set<StreamID>)
    requires Both(a, b, closed) && NextID(a) !in a.streams && OwnParity(a, NextID(a))
    ensures Flow(Create(a), b, closed)
  {
    CreateBooks(a, b, closed, NextID(a), Create(a));
    hide Books, EntryOK, WireParses, InFlight, NextID, Delivered, Wire;
  }

  lemma CreateKeeps(a: Endpoint, b: Endpoint, closed: set<StreamID>)
    requires Both(a, b, closed)
    ensures var a' := Create(a); a'.active ==> Both(a', b, closed)
  {
    NextIDIsOwn(a);
    if NextID(a) !in a.streams {
      assert ClosedOK(a, closed);
      CreateOutbound(a, b, closed);
      hide Flow, NextID, ClosedOK, SameUpward;
      CreateUpward(a, closed);
      InboundKept(a, b, closed, Create(a), closed);
    }
  }

  lemma CreateUpward(a: Endpoint, closed: set<StreamID>)
    requires NextID(a) !in a.streams && ClosedOK(a, closed)
    ensures SameUpward(a, Create(a), closed)
  {
    hide NextID;
  }

  lemma WriteBooks(a: Endpoint, b: Endpoint, closed: set<StreamID>, id: StreamID, data: seq<byte>)
    requires Flow(a, b, closed) && id in a.streams
    ensures var a' := Write(a, id, data);
      WireParses(a', b) && InFlight(a', b) == InFlight(a, b) && Books(a', b, closed)
  {
    var a' := Write(a, id, data);
    SameWire(a, b, a');
    hide DataOf, Parse, Wire, WireParses, InFlight, Arriving;
    forall i <- a'.streams | i !in closed ensures EntryOK(a', b, i) {
      assert EntryOK(a, b, i);
      if i == id {
        Concat(Delivered(b, id) + Arriving(a, b, id) + DataOf(InFlight(a, b), id) + Leaving(a, id),
               a.streams[id].down, data);
      }
    }
  }

  lemma WriteKeeps(a: Endpoint, b: Endpoint, closed: set<StreamID>, id: StreamID, data: seq<byte>)
    requires Both(a, b, closed) && id in a.streams
    ensures Both(Write(a, id, data), b, closed)
  {
    InboundKept(a, b, closed, Write(a, id, data), closed);
    WriteBooks(a, b, closed, id, data);
    hide Books, EntryOK, WireParses, InFlight;
  }

  lemma ReadIsSame(a: Endpoint, b: Endpoint, closed: set<StreamID>, id: StreamID, n: nat)
    requires ClosedOK(a, closed) && ThreadsOK(a, b, closed) && id in a.streams && n <= |a.streams[id].up|
    ensures var a' := Read(a, id, n);
            SameUpward(a, a', closed) && SameDownward(a, a', b, closed) && ThreadsOK(a', b, closed)
  {
  }

  lemma ReadKeeps(a: Endpoint, b: Endpoint, closed: set<StreamID>, id: StreamID, n: nat)
    requires Both(a, b, closed) && id in a.streams && n <= |a.streams[id].up|
    ensures Both(Read(a, id, n), b, closed)
  {
    assert ClosedOK(a, closed) && ThreadsOK(a, b, closed);
    hide Flow, ClosedOK, ThreadsOK, SameUpward, SameDownward;
    ReadIsSame(a, b, closed, id, n);
    Kept(a, b, closed, Read(a, id, n), closed);
  }

  /** A step that touches neither the table nor the wires nor the threads. */
  lemma PlainIsSame(a: Endpoint, b: Endpoint, closed: set<StreamID>, a': Endpoint)
    requires ClosedOK(a, closed) && ThreadsOK(a, b, closed)
    requires a' == a.(asked := a'.asked, onNew := a'.onNew, onClose := a'.onClose, upThread := a'.upThread)
    requires a'.upThread == a.upThread || StillCalling(a.upThread, a'.upThread)
    ensures SameUpward(a, a', closed) && SameDownward(a, a', b, closed) && ThreadsOK(a', b, closed)
  {
  }

  lemma PlainKeeps(a: Endpoint, b: Endpoint, closed: set<StreamID>, a': Endpoint)
    requires Both(a, b, closed)
    requires a' == a.(asked := a'.asked, onNew := a'.onNew, onClose := a'.onClose, upThread := a'.upThread)
    requires a'.upThread == a.upThread || StillCalling(a.upThread, a'.upThread)
    ensures Both(a', b, closed)
  {
    assert ClosedOK(a, closed) && ThreadsOK(a, b, closed);
    hide Flow, ClosedOK, ThreadsOK, SameUpward, SameDownward;
    PlainIsSame(a, b, closed, a');
    Kept(a, b, closed, a', closed);
  }

  lemma StartMarkingTable(a: Endpoint, b: Endpoint, closed: set<StreamID>)
    requires ClosedOK(a, closed) && a.asked != [] && a.downThread.DownIdle?
    ensures SameTable(a, StartMarking(a), b, closed + {a.asked[0]})
  {
  }

  lemma StartMarkingIsSame(a: Endpoint, b: Endpoint, closed: set<StreamID>)
    requires ClosedOK(a, closed) && ThreadsOK(a, b, closed) && a.asked != [] && a.downThread.DownIdle?
    ensures var a', closed' := StartMarking(a), closed + {a.asked[0]};
            SameUpward(a, a', closed') && SameDownward(a, a', b, closed') && ThreadsOK(a', b, closed')
  {
    StartMarkingTable(a, b, closed);
    StartMarkingUpward(a, closed + {a.asked[0]});
    hide SameTable, ClosedOK, SameUpward;
  }

  lemma StartMarkingUpward(a: Endpoint, closed: set<StreamID>)
    requires a.asked != []
    ensures SameUpward(a, StartMarking(a), closed)
  {
  }

  /** From here on the stream of the close request is left out of the books. */
  lemma StartMarkingKeeps(a: Endpoint, b: Endpoint, closed: set<StreamID>)
    requires Both(a, b, closed) && a.asked != [] && a.downThread.DownIdle?
    ensures Both(StartMarking(a), b, closed + {a.asked[0]})
  {
    assert ClosedOK(a, closed) && ThreadsOK(a, b, closed);
    hide Flow, ClosedOK, ThreadsOK, SameUpward, SameDownward;
    StartMarkingIsSame(a, b, closed);
    Kept(a, b, closed, StartMarking(a), closed + {a.asked[0]});
  }

  lemma MarkIsSame(a: Endpoint, b: Endpoint, closed: set<StreamID>)
    requires ClosedOK(a, closed) && ThreadsOK(a, b, closed) && a.downThread.Marking?
    ensures SameUpward(a, Mark(a), closed) && SameDownward(a, Mark(a), b, closed) && ThreadsOK(Mark(a), b, closed)
  {
    MarkTable(a, b, closed);
    MarkUpward(a, closed);
    hide SameTable, ClosedOK, SameUpward;
  }

  lemma MarkTable(a: Endpoint, b: Endpoint, closed: set<StreamID>)
    requires ClosedOK(a, closed) && a.downThread.Marking? && a.downThread.id in closed
    ensures SameTable(a, Mark(a), b, closed)
  {
  }

  lemma MarkUpward(a: Endpoint, closed: set<StreamID>)
    requires a.downThread.Marking?
    ensures SameUpward(a, Mark(a), closed)
  {
  }

  lemma MarkKeeps(a: Endpoint, b: Endpoint, closed: set<StreamID>)
    requires Both(a, b, closed) && a.downThread.Marking?
    ensures Both(Mark(a), b, closed)
  {
    assert ClosedOK(a, closed) && ThreadsOK(a, b, closed);
    hide Flow, ClosedOK, ThreadsOK, SameUpward, SameDownward;
    MarkIsSame(a, b, closed);
    Kept(a, b, closed, Mark(a), closed);
  }

  // ---- Steps of a callback ----

  lemma TookKeeps(a: Endpoint, b: Endpoint, closed: set<StreamID>, n: nat)
    requires Both(a, b, closed) && WantOf(a).Bytes? && WantOf(a).from in a.streams
    requires 1 <= n <= Min(WantOf(a).n, |a.streams[WantOf(a).from].up|)
    ensures Both(Took(a, n), b, closed)
  {
    ReadKeeps(a, b, closed, WantOf(a).from, n);
    hide Flow;
    PlainKeeps(Read(a, WantOf(a).from, n), b, closed, Took(a, n));
  }

  lemma PutKeeps(a: Endpoint, b: Endpoint, closed: set<StreamID>, n: nat)
    requires Both(a, b, closed) && WantOf(a).Room? && WantOf(a).to in a.streams && 1 <= n <= |WantOf(a).data|
    ensures Both(Put(a, n), b, closed)
  {
    WriteKeeps(a, b, closed, WantOf(a).to, WantOf(a).data[..n]);
    hide Flow;
    PlainKeeps(Write(a, WantOf(a).to, WantOf(a).data[..n]), b, closed, Put(a, n));
  }

  lemma ReturnTable(a: Endpoint, b: Endpoint, closed: set<StreamID>)
    requires ClosedOK(a, closed) && a.upThread.Notifying? && (a.upThread.closing ==> a.upThread.id in closed)
    ensures SameTable(a, Returned(a), b, closed)
  {
  }

  lemma ReturnIsSame(a: Endpoint, b: Endpoint, closed: set<StreamID>)
    requires ClosedOK(a, closed) && ThreadsOK(a, b, closed) && a.upThread.Notifying?
    requires a.upThread.closing ==> a.upThread.id in closed
    ensures var a' := Returned(a);
            SameUpward(a, a', closed) && SameDownward(a, a', b, closed) && ThreadsOK(a', b, closed)
  {
    ReturnTable(a, b, closed);
    hide SameTable, ClosedOK, SameDownward;
    DownThreadIsSame(a, Returned(a), b, closed);
  }

  /** The stream that a close takes off the table has been left out of the books since its close began. */
  lemma ReturnKeeps(a: Endpoint, b: Endpoint, closed: set<StreamID>)
    requires Both(a, b, closed) && a.upThread.Notifying?
    ensures Both(Returned(a), b, closed)
  {
    assert ClosedOK(a, closed) && ThreadsOK(a, b, closed) && ThreadsOK(b, a, closed);
    assert a.upThread.closing ==> a.upThread.id in closed;
    hide Flow, ClosedOK, ThreadsOK, SameUpward, SameDownward;
    ReturnIsSame(a, b, closed);
    Kept(a, b, closed, Returned(a), closed);
  }

  // ---- Steps of the downstream thread ----

  lemma TakenEntry(a: Endpoint, b: Endpoint, id: StreamID, n: nat)
    requires WireParses(a, b) && id in a.streams && a.downThread.DownIdle? && 1 <= n <= |a.streams[id].down|
    requires EntryOK(a, b, id) && !a.streams[id].userClosed
    requires WireParses(TakeChunk(a, id, n), b) && InFlight(TakeChunk(a, id, n), b) == InFlight(a, b)
    requires Arriving(TakeChunk(a, id, n), b, id) == Arriving(a, b, id)
    ensures EntryOK(TakeChunk(a, id, n), b, id)
  {
    hide DataOf, Parse, Wire, WireParses, InFlight, Arriving, Delivered;
    var a', down := TakeChunk(a, id, n), a.streams[id].down;
    assert Leaving(a', id) == down[..n] && a'.streams[id].down == down[n..];
    hide TakeChunk, Leaving;
    assert down == down[..n] + down[n..];
    var before := Delivered(b, id) + Arriving(a, b, id) + DataOf(InFlight(a, b), id);
    assert before + [] == before;
    Concat(before, down[..n], down[n..]);
  }

  lemma TakeChunkBooks(a: Endpoint, b: Endpoint, closed: set<StreamID>, id: StreamID, n: nat)
    requires Flow(a, b, closed) && id in a.streams && a.downThread.DownIdle? && 1 <= n <= |a.streams[id].down|
    ensures var a' := TakeChunk(a, id, n);
      WireParses(a', b) && InFlight(a', b) == InFlight(a, b) && Books(a', b, closed)
  {
    var a' := TakeChunk(a, id, n);
    SameWire(a, b, a');
    hide DataOf, Parse, Wire, WireParses, InFlight, Arriving, Delivered;
    forall i <- a'.streams | i !in closed ensures EntryOK(a', b, i) {
      assert EntryOK(a, b, i);
      if i == id {
        TakenEntry(a, b, id, n);
      }
    }
  }

  lemma TakeChunkKeeps(a: Endpoint, b: Endpoint, closed: set<StreamID>, id: StreamID, n: nat)
    requires Both(a, b, closed) && id in a.streams && a.downThread.DownIdle?
    requires 1 <= n <= |a.streams[id].down| && n <= CHUNK_MAX
    ensures Both(TakeChunk(a, id, n), b, closed)
  {
    InboundKept(a, b, closed, TakeChunk(a, id, n), closed);
    TakeChunkBooks(a, b, closed, id, n);
    hide Books, EntryOK, WireParses, InFlight;
  }

  /** A whole frame joining the virtual wire joins the frames in flight. */
  lemma WireGains(a: Endpoint, b: Endpoint, a': Endpoint, f: Frame)
    requires WireParses(a, b) && IsFrame(f) && Wire(a') == Wire(a) + Serialize(f)
    ensures WireParses(a', b) && InFlight(a', b) == InFlight(a, b) + [f]
    ensures forall i :: Arriving(a', b, i) == Arriving(a, b, i)
  {
    hide Parse, Serialize;
    var due := Due(b);
    assert Wire(a')[due..] == Wire(a)[due..] + Serialize(f);
    ParseSnoc(Wire(a)[due..], f);
    assert Wire(a')[..due] == Wire(a)[..due];
  }

  /** An entry's books when a frame has joined those in flight. */
  lemma EntryGains(a: Endpoint, b: Endpoint, a': Endpoint, f: Frame, i: StreamID)
    requires WireParses(a, b) && WireParses(a', b) && InFlight(a', b) == InFlight(a, b) + [f]
    requires Arriving(a', b, i) == Arriving(a, b, i)
    requires i in a.streams && EntryOK(a, b, i) && i in a'.streams && a'.streams[i] == a.streams[i]
    requires a'.even == a.even && Leaving(a', i) == [] && Leaving(a, i) == DataOf([f], i)
    ensures EntryOK(a', b, i)
  {
    hide DataOf, Parse, Wire, WireParses, InFlight, Arriving, Leaving, Delivered;
    DataOfSnoc(InFlight(a, b), f, i);
    var front, flying, leaving := Delivered(b, i) + Arriving(a, b, i), DataOf(InFlight(a, b), i), Leaving(a, i);
    Concat(front, flying, leaving);
    assert front + DataOf(InFlight(a', b), i) + [] == front + (flying + leaving);
  }

  lemma HeaderJoins(a: Endpoint)
    requires a.downThread.ChunkRead?
    ensures Wire(SentHeader(a)) == Wire(a) + Serialize(Data(a.downThread.id, a.downThread.chunk))
  {
    hide Header;
    var id, chunk := a.downThread.id, a.downThread.chunk;
    Concat(a.out, Header(|chunk|, id), chunk);
  }

  lemma SendHeaderBooks(a: Endpoint, b: Endpoint, closed: set<StreamID>)
    requires Flow(a, b, closed) && a.downThread.ChunkRead?
    ensures var a', f := SentHeader(a), Data(a.downThread.id, a.downThread.chunk);
      WireParses(a', b) && InFlight(a', b) == InFlight(a, b) + [f] && Books(a', b, closed)
  {
    var a', f := SentHeader(a), Data(a.downThread.id, a.downThread.chunk);
    HeaderJoins(a);
    WireGains(a, b, a', f);
    hide DataOf, Parse, Header, Wire, WireParses, InFlight, Arriving, EntryOK;
    forall i <- a'.streams | i !in closed ensures EntryOK(a', b, i) {
      OneFrame(f, i);
      EntryGains(a, b, a', f, i);
    }
  }

  lemma SendHeaderKeeps(a: Endpoint, b: Endpoint, closed: set<StreamID>)
    requires Both(a, b, closed) && a.downThread.ChunkRead?
    ensures Both(SentHeader(a), b, closed)
  {
    hide Books, EntryOK, WireParses, InFlight, Wire, Header, Delivered, Due;
    KeptUpward(a, SentHeader(a), closed);
    InboundKept(a, b, closed, SentHeader(a), closed);
    SendHeaderBooks(a, b, closed);
  }

  lemma OneFrame(f: Frame, id: StreamID)
    ensures DataOf([f], id) == if f.Data? && f.id == id then f.payload else []
  {
  }

  lemma PayloadJoins(a: Endpoint, n: nat)
    requires a.downThread.HeaderSent? && 1 <= n <= |a.downThread.chunk|
    ensures Wire(SentPayload(a, n)) == Wire(a)
  {
    var chunk := a.downThread.chunk;
    assert chunk == chunk[..n] + chunk[n..];
    Concat(a.out, chunk[..n], chunk[n..]);
  }

  lemma SendPayloadBooks(a: Endpoint, b: Endpoint, closed: set<StreamID>, n: nat)
    requires Flow(a, b, closed) && a.downThread.HeaderSent? && 1 <= n <= |a.downThread.chunk|
    ensures var a' := SentPayload(a, n);
      WireParses(a', b) && InFlight(a', b) == InFlight(a, b) && Books(a', b, closed)
  {
    var a' := SentPayload(a, n);
    PayloadJoins(a, n);
    SameWire(a, b, a');
    hide DataOf, Parse, Wire, WireParses, InFlight, Arriving, Delivered;
    forall i <- a'.streams | i !in closed ensures EntryOK(a', b, i) {
      assert EntryOK(a, b, i);
    }
  }

  lemma SendPayloadKeeps(a: Endpoint, b: Endpoint, closed: set<StreamID>, n: nat)
    requires Both(a, b, closed) && a.downThread.HeaderSent? && 1 <= n <= |a.downThread.chunk|
    ensures Both(SentPayload(a, n), b, closed)
  {
    hide Books, EntryOK, WireParses, InFlight, Wire, Delivered, Due;
    KeptUpward(a, SentPayload(a, n), closed);
    InboundKept(a, b, closed, SentPayload(a, n), closed);
    SendPayloadBooks(a, b, closed, n);
  }

  lemma SendCloseBooks(a: Endpoint, b: Endpoint, closed: set<StreamID>)
    requires Flow(a, b, closed) && a.downThread.CloseDue?
    ensures var a', f := SentClose(a), Close(a.downThread.id);
      WireParses(a', b) && InFlight(a', b) == InFlight(a, b) + [f] && Books(a', b, closed)
  {
    var a' := SentClose(a);
    var f := Close(a.downThread.id);
    WireGains(a, b, a', f);
    hide DataOf, Parse, Header, Wire, WireParses, InFlight, Arriving, EntryOK;
    forall i <- a'.streams | i !in closed ensures EntryOK(a', b, i) {
      OneFrame(f, i);
      EntryGains(a, b, a', f, i);
    }
  }

  lemma SendCloseKeeps(a: Endpoint, b: Endpoint, closed: set<StreamID>)
    requires Both(a, b, closed) && a.downThread.CloseDue?
    ensures Both(SentClose(a), b, closed)
  {
    hide Books, EntryOK, WireParses, InFlight, Wire, Header, Delivered, Due, SameUpward;
    ClosedUpward(a, closed);
    InboundKept(a, b, closed, SentClose(a), closed);
    SendCloseBooks(a, b, closed);
  }

  // ---- Steps of the upstream thread ----

  /** Bytes of a payload coming off the wire stay where they are in the books. */
  lemma WireLosesPayload(b: Endpoint, a: Endpoint, n: nat)
    requires WireParses(b, a) && a.upThread.HeaderRead? && 1 <= n <= Min(|b.out|, a.upThread.length)
    ensures var a', b' := GotPayload(a, b.out[..n]), b.(out := b.out[n..]);
      && WireParses(b', a') && InFlight(b', a') == InFlight(b, a)
      && forall i :: Arriving(b', a', i) == Arriving(b, a, i)
  {
    hide Parse;
    var a', b' := GotPayload(a, b.out[..n]), b.(out := b.out[n..]);
    var HeaderRead(id, length, got, _) := a.upThread;
    var was, now := Wire(b), Wire(b');
    assert now == was[n..] && b.out[..n] == was[..n];
    hide Wire;
    assert now[length - n..] == was[length..];
    assert was[..length] == was[..n] + now[..length - n];
    Concat(got, was[..n], now[..length - n]);
    if n == length {
      assert now[..0] == [] && got + was[..n] + [] == got + was[..n];
    }
  }

  lemma TailKept(b: Endpoint, a: Endpoint, n: nat)
    requires WireParses(b, a) && TailOK(b, a) && a.upThread.HeaderRead? && 1 <= n <= Min(|b.out|, a.upThread.length)
    requires WireParses(b.(out := b.out[n..]), GotPayload(a, b.out[..n]))
    requires InFlight(b.(out := b.out[n..]), GotPayload(a, b.out[..n])) == InFlight(b, a)
    ensures TailOK(b.(out := b.out[n..]), GotPayload(a, b.out[..n]))
  {
    if b.downThread.HeaderSent? && InFlight(b, a) == [] {
      assert Wire(b)[a.upThread.length..] == [];
    }
  }

  lemma ReadPayloadBooks(a: Endpoint, b: Endpoint, closed: set<StreamID>, n: nat)
    requires Flow(b, a, closed) && a.upThread.HeaderRead? && 1 <= n <= Min(|b.out|, a.upThread.length)
    ensures var a', b' := GotPayload(a, b.out[..n]), b.(out := b.out[n..]);
      WireParses(b', a') && InFlight(b', a') == InFlight(b, a) && Books(b', a', closed)
  {
    WireLosesPayload(b, a, n);
    hide DataOf, Parse, Wire, WireParses, InFlight, Arriving;
    var a', b' := GotPayload(a, b.out[..n]), b.(out := b.out[n..]);
    forall i <- b'.streams | i !in closed ensures EntryOK(b', a', i) {
      assert EntryOK(b, a, i);
    }
  }

  lemma GotIsSame(a: Endpoint, b: Endpoint, closed: set<StreamID>, bytes: seq<byte>)
    requires ClosedOK(a, closed) && ThreadsOK(a, b, closed) && a.upThread.HeaderRead? && |bytes| <= a.upThread.length
    ensures SameDownward(a, GotPayload(a, bytes), b, closed) && ThreadsOK(GotPayload(a, bytes), b, closed)
  {
  }

  lemma ReadPayloadOutbound(a: Endpoint, b: Endpoint, closed: set<StreamID>, n: nat)
    requires Both(a, b, closed) && a.upThread.HeaderRead? && 1 <= n <= Min(|b.out|, a.upThread.length)
    ensures Flow(GotPayload(a, b.out[..n]), b.(out := b.out[n..]), closed)
  {
    var a', b' := GotPayload(a, b.out[..n]), b.(out := b.out[n..]);
    assert ClosedOK(a, closed) && ThreadsOK(a, b, closed);
    hide Flow, ClosedOK, Delivered, Due;
    GotIsSame(a, b, closed, b.out[..n]);
    hide SameDownward, ThreadsOK;
    OutboundKept(a, b, closed, a', closed);
    hide GotPayload, Wire;
    KeptUpward(b, b', closed);
    InboundKept(b, a', closed, b', closed);
  }

  lemma ReadPayloadInbound(a: Endpoint, b: Endpoint, closed: set<StreamID>, n: nat)
    requires Flow(b, a, closed) && a.upThread.HeaderRead? && 1 <= n <= Min(|b.out|, a.upThread.length)
    ensures Flow(b.(out := b.out[n..]), GotPayload(a, b.out[..n]), closed)
  {
    ReadPayloadBooks(a, b, closed, n);
    TailKept(b, a, n);
    hide Books, EntryOK, WireParses, InFlight, TailOK, Delivered, Due, Wire;
  }

  lemma ReadPayloadKeeps(a: Endpoint, b: Endpoint, closed: set<StreamID>, n: nat)
    requires Both(a, b, closed) && a.upThread.HeaderRead? && 1 <= n <= Min(|b.out|, a.upThread.length)
    ensures Both(GotPayload(a, b.out[..n]), b.(out := b.out[n..]), closed)
  {
    hide Flow;
    ReadPayloadOutbound(a, b, closed, n);
    ReadPayloadInbound(a, b, closed, n);
  }

  /** Bytes written up move from what is arriving to what is delivered. */
  lemma EntryDelivered(a: Endpoint, b: Endpoint, n: nat, i: StreamID)
    requires WireParses(b, a) && a.upThread.PayloadRead? && 1 <= n <= |a.upThread.chunk|
    requires i in b.streams && EntryOK(b, a, i) && (a.upThread.id == i ==> i in a.streams)
    ensures WireParses(b, Deliver(a, n)) && EntryOK(b, Deliver(a, n), i)
  {
    hide DataOf, Parse;
    var a', chunk := Deliver(a, n), a.upThread.chunk;
    assert InFlight(b, a') == InFlight(b, a);
    assert chunk == chunk[..n] + chunk[n..];
    Concat(Delivered(a, i), chunk[..n], chunk[n..]);
    assert Delivered(a', i) + [] == Delivered(a', i);
  }

  lemma WriteUpBooks(a: Endpoint, b: Endpoint, closed: set<StreamID>, n: nat)
    requires Flow(b, a, closed) && a.upThread.PayloadRead? && 1 <= n <= |a.upThread.chunk|
    ensures WireParses(b, Deliver(a, n)) && InFlight(b, Deliver(a, n)) == InFlight(b, a)
    ensures Books(b, Deliver(a, n), closed)
  {
    hide DataOf, Parse, Wire, EntryOK, Arriving, Delivered;
    assert WireParses(b, Deliver(a, n)) && InFlight(b, Deliver(a, n)) == InFlight(b, a);
    hide Deliver, InFlight, WireParses;
    forall i <- b.streams | i !in closed ensures EntryOK(b, Deliver(a, n), i) {
      assert EntryOK(b, a, i);
      assert a.upThread.id == i ==> i in a.streams;
      EntryDelivered(a, b, n, i);
    }
  }

  lemma DeliverTable(a: Endpoint, b: Endpoint, closed: set<StreamID>, n: nat)
    requires ClosedOK(a, closed) && a.upThread.PayloadRead? && 1 <= n <= |a.upThread.chunk|
    requires a.upThread.id !in closed ==> a.upThread.id in b.streams
    ensures SameTable(a, Deliver(a, n), b, closed)
  {
  }

  lemma DeliverDownward(a: Endpoint, b: Endpoint, closed: set<StreamID>, n: nat)
    requires ClosedOK(a, closed) && ThreadsOK(a, b, closed) && ThreadsOK(b, a, closed)
    requires a.upThread.PayloadRead? && 1 <= n <= |a.upThread.chunk|
    ensures SameDownward(a, Deliver(a, n), b, closed)
    ensures ThreadsOK(Deliver(a, n), b, closed) && ThreadsOK(b, Deliver(a, n), closed)
  {
    DeliverTable(a, b, closed, n);
    hide SameTable, ClosedOK, SameDownward;
    DownThreadIsSame(a, Deliver(a, n), b, closed);
  }

  lemma DeliverInbound(a: Endpoint, b: Endpoint, closed: set<StreamID>, n: nat)
    requires Flow(b, a, closed) && a.upThread.PayloadRead? && 1 <= n <= |a.upThread.chunk|
    requires ThreadsOK(b, Deliver(a, n), closed)
    ensures Flow(b, Deliver(a, n), closed)
  {
    WriteUpBooks(a, b, closed, n);
    hide Books, EntryOK, WireParses, InFlight, ThreadsOK, ClosedOK;
    assert Due(Deliver(a, n)) == Due(a);
    hide Deliver;
  }

  lemma WriteUpKeeps(a: Endpoint, b: Endpoint, closed: set<StreamID>, n: nat)
    requires Both(a, b, closed) && a.upThread.PayloadRead? && 1 <= n <= |a.upThread.chunk|
    ensures Both(Deliver(a, n), b, closed)
  {
    assert ClosedOK(a, closed) && ThreadsOK(a, b, closed) && ThreadsOK(b, a, closed);
    hide Flow, ClosedOK, ThreadsOK, SameDownward;
    DeliverDownward(a, b, closed, n);
    OutboundKept(a, b, closed, Deliver(a, n), closed);
    DeliverInbound(a, b, closed, n);
  }

  lemma WireWithoutHeader(b: Endpoint)
    requires |b.out| >= HEADER
    ensures |Wire(b)| >= HEADER && Wire(b) == b.out[..HEADER] + Wire(b)[HEADER..]
    ensures Wire(b.(out := b.out[HEADER..])) == Wire(b)[HEADER..]
  {
  }

  /** Taking a header off the wire takes the first frame out of flight; its payload, if any, becomes due. */
  lemma WireLosesHeader(b: Endpoint, a: Endpoint)
    requires WireParses(b, a) && a.upThread.UpIdle? && |b.out| >= HEADER
    ensures InFlight(b, a) != [] && |Wire(b)| >= HEADER
    ensures var f, rest, header := InFlight(b, a)[0], Wire(b)[HEADER..], b.out[..HEADER];
            && f.id == HeaderID(header)
            && Wire(b.(out := b.out[HEADER..])) == rest
            && match f
               case Close(_) =>
                 HeaderCommand(header) == COMMAND_CLOSE && Parse(rest) == Some(InFlight(b, a)[1..])
               case Data(_, payload) =>
                 && 1 <= |payload| == HeaderCommand(header) <= COMMAND_MAX && payload <= rest
                 && Parse(rest[|payload|..]) == Some(InFlight(b, a)[1..])
  {
    hide HeaderCommand, HeaderID, Parse, Wire;
    WireWithoutHeader(b);
    var wire, header := Wire(b), b.out[..HEADER];
    assert wire[0..] == wire;
    ParseHead(wire);
    SameHeader(header, wire[HEADER..]);
  }

  function AfterHeader(a: Endpoint, f: Frame): UpThread {
    if f.Data? then HeaderRead(f.id, |f.payload|, [], f.id !in a.streams)
    else if a.onClose then Notifying(f.id, true, Nothing)
    else UpIdle
  }

  /** What a header does: at most one entry more, the peer's. */
  ghost predicate Received(a: Endpoint, b: Endpoint, closed: set<StreamID>, f: Frame, a': Endpoint) {
    && a'.even == a.even && a'.lastID == a.lastID && a'.out == a.out && a'.downThread == a.downThread
    && a'.upThread == AfterHeader(a, f) && a'.ended == a.ended
    && (forall i | i != f.id :: i in a'.streams <==> i in a.streams)
    && (forall i <- a.streams :: i in a'.streams)
    && (forall i <- a'.streams :: a'.streams[i] == if i in a.streams then a.streams[i] else FreshStream(false))
    && a'.closes == a.closes + (if f.Close? then [f.id] else [])
    && (f.id !in closed ==> f.Data? && f.id in a'.streams && f.id in b.streams)
  }

  /** A command that announces a payload, or a close, once it has been read. */
  function Chosen(a: Endpoint, f: Frame): Endpoint {
    if f.Data? then Choose(a, f.id).(upThread := AfterHeader(a, f))
    else CloseReceived(Choose(a, f.id), f.id)
  }

  /** What a header can change at all. */
  lemma ChooseChanges(e: Endpoint, id: StreamID)
    ensures var e' := Choose(e, id); e' == e.(active := e'.active, streams := e'.streams)
  {
  }

  lemma ReceiveChanges(e: Endpoint, header: seq<byte>)
    requires |header| == HEADER
    ensures var e' := Receive(e, header);
            e' == e.(active := e'.active, streams := e'.streams, closes := e'.closes, upThread := e'.upThread)
  {
    ChooseChanges(e, HeaderID(header));
    hide HeaderCommand, HeaderID, IsCommand, Choose;
  }

  lemma ReceiveIsChosen(a: Endpoint, b: Endpoint)
    requires WireParses(b, a) && a.upThread.UpIdle? && |b.out| >= HEADER
    ensures InFlight(b, a) != []
    ensures var a', f := Receive(a, b.out[..HEADER]), InFlight(b, a)[0];
      && f.id == HeaderID(b.out[..HEADER]) && (a'.active <==> Choose(a, f.id).active)
      && (a'.active ==> a' == Chosen(a, f))
  {
    WireLosesHeader(b, a);
    hide Parse, HeaderCommand, HeaderID, WireParses, InFlight, Wire;
  }

  lemma ChosenIsReceived(a: Endpoint, b: Endpoint, closed: set<StreamID>, f: Frame)
    requires Choose(a, f.id).active && a.upThread.UpIdle? && (f.id !in closed ==> f.Data? && f.id in b.streams)
    ensures Received(a, b, closed, f, Chosen(a, f))
  {
  }

  lemma ReceiveIsReceived(a: Endpoint, b: Endpoint, closed: set<StreamID>)
    requires Both(a, b, closed) && a.upThread.UpIdle? && |b.out| >= HEADER
    ensures InFlight(b, a) != []
    ensures var a', f := Receive(a, b.out[..HEADER]), InFlight(b, a)[0];
            && f.id == HeaderID(b.out[..HEADER])
            && (f.id !in closed ==> a'.active)
            && (a'.active ==> Received(a, b, closed, f, a'))
  {
    ReceiveIsChosen(a, b);
    var f := InFlight(b, a)[0];
    assert FrameOK(b, f, closed);
    if f.id !in closed {
      OwnerHasIt(a, b, closed, f.id);
    }
    hide Flow, HeaderID, Receive, Chosen, Received, WireParses, InFlight;
    if Choose(a, f.id).active {
      ChosenIsReceived(a, b, closed, f);
    }
  }

  lemma EntryOutbound(
    a: Endpoint, b: Endpoint, closed: set<StreamID>, f: Frame, a': Endpoint, b': Endpoint, i: StreamID)
    requires Both(a, b, closed) && Received(a, b, closed, f, a') && b' == b.(out := b'.out)
    requires i in a'.streams && i !in closed && WireParses(a', b')
    ensures EntryOK(a', b', i)
  {
    hide DataOf, Parse;
    assert InFlight(a', b') == InFlight(a, b);
    if i in a.streams {
      assert EntryOK(a, b, i);
    } else {
      OwnerHasIt(a, b, closed, i);
      assert i == f.id && i in b.streams && EntryOK(b, a, i);
      forall g <- InFlight(a, b) ensures g.id != i {
        assert FrameOK(a, g, closed);
      }
      NoDataOf(InFlight(a, b), i);
      assert Arriving(a', b', i) == [] && Leaving(a', i) == [] && Delivered(b', i) == [];
      assert Conserved(a', b', i);
    }
  }

  lemma ReadHeaderOutbound(a: Endpoint, b: Endpoint, closed: set<StreamID>, f: Frame, a': Endpoint, b': Endpoint)
    requires Both(a, b, closed) && Received(a, b, closed, f, a') && b' == b.(out := b'.out)
    ensures Flow(a', b', closed)
  {
    hide DataOf, Parse;
    assert WireParses(a', b') && InFlight(a', b') == InFlight(a, b);
    forall g <- InFlight(a', b') ensures FrameOK(a', g, closed) {
      assert FrameOK(a, g, closed);
    }
    hide EntryOK, InFlight, WireParses, Wire;
    assert TailOK(a', b');
    forall i <- a'.streams | i !in closed ensures EntryOK(a', b', i) {
      EntryOutbound(a, b, closed, f, a', b', i);
    }
  }

  /** The frame taken off the wire becomes what is arriving. */
  lemma EntryInbound(
    a: Endpoint, b: Endpoint, closed: set<StreamID>, f: Frame, a': Endpoint, b': Endpoint, i: StreamID)
    requires Both(a, b, closed) && a.upThread.UpIdle? && Received(a, b, closed, f, a')
    requires i in b.streams && i !in closed && b' == b.(out := b'.out)
    requires WireParses(b', a') && InFlight(b, a) == [f] + InFlight(b', a')
    requires f.Data? ==> f.payload <= Wire(b')
    ensures EntryOK(b', a', i)
  {
    hide DataOf, Parse;
    assert EntryOK(b, a, i);
    FirstFrame(InFlight(b, a), i);
    var own := DataOf([f], i);
    assert FrameOK(b, f, closed);
    assert [] + Wire(b')[..Due(a')] == Wire(b')[..Due(a')];
    assert Arriving(b', a', i) == own;
    assert Delivered(a', i) == Delivered(a, i);
    Concat(Delivered(a, i), own, DataOf(InFlight(b', a'), i));
    assert Delivered(a, i) + [] == Delivered(a, i);
  }

  /** The wire without the header that has been read. */
  lemma HeaderTaken(a: Endpoint, b: Endpoint, f: Frame, a': Endpoint, b': Endpoint)
    requires WireParses(b, a) && a.upThread.UpIdle? && |b.out| >= HEADER
    requires InFlight(b, a) != [] && f == InFlight(b, a)[0]
    requires a'.upThread == AfterHeader(a, f)
    requires b' == b.(out := b.out[HEADER..])
    ensures WireParses(b', a') && InFlight(b', a') == InFlight(b, a)[1..]
    ensures f.Data? ==> f.payload != [] && f.payload <= Wire(b')
  {
    WireLosesHeader(b, a);
    hide Parse, HeaderCommand, HeaderID, Wire;
    if f.Close? {
      assert Wire(b')[0..] == Wire(b');
    }
  }

  /** The tail, the threads and the frames once the first frame has become what is arriving. */
  lemma HeaderTakenFrames(a: Endpoint, b: Endpoint, closed: set<StreamID>, f: Frame, a': Endpoint, b': Endpoint)
    requires Both(a, b, closed) && a.upThread.UpIdle? && Received(a, b, closed, f, a')
    requires InFlight(b, a) != [] && f == InFlight(b, a)[0]
    requires |b.out| >= HEADER && b' == b.(out := b.out[HEADER..])
    requires WireParses(b', a') && InFlight(b', a') == InFlight(b, a)[1..] && (f.Data? ==> f.payload != [])
    ensures TailOK(b', a') && ThreadsOK(b', a', closed) && FramesOK(b', a', closed)
  {
    hide DataOf, Parse, Wire, WireParses, InFlight, Books;
    var fs := InFlight(b, a);
    assert fs == [f] + fs[1..];
    assert fs[0] in fs && FrameOK(b, f, closed);
    forall g <- fs[1..] ensures FrameOK(b', g, closed) {
      assert FrameOK(b, g, closed);
    }
  }

  lemma ReadHeaderInbound(a: Endpoint, b: Endpoint, closed: set<StreamID>, f: Frame, a': Endpoint, b': Endpoint)
    requires Both(a, b, closed) && a.upThread.UpIdle? && |b.out| >= HEADER
    requires InFlight(b, a) != [] && f == InFlight(b, a)[0] && Received(a, b, closed, f, a')
    requires b' == b.(out := b.out[HEADER..])
    ensures Flow(b', a', closed)
  {
    hide DataOf, Parse, Wire, WireParses, InFlight, EntryOK, TailOK, ThreadsOK, FramesOK;
    HeaderTaken(a, b, f, a', b');
    HeaderTakenFrames(a, b, closed, f, a', b');
    var fs := InFlight(b, a);
    assert fs == [f] + fs[1..];
    forall i <- b'.streams | i !in closed ensures EntryOK(b', a', i) {
      EntryInbound(a, b, closed, f, a', b', i);
    }
  }

  /** Receiving a header never refuses a stream nobody has closed, and keeps the books. */
  lemma ReadHeaderKeeps(a: Endpoint, b: Endpoint, closed: set<StreamID>)
    requires Both(a, b, closed) && a.upThread.UpIdle? && |b.out| >= HEADER
    ensures var a' := Receive(a, b.out[..HEADER]);
            a'.active ==> Both(a', b.(out := b.out[HEADER..]), closed)
    ensures HeaderID(b.out[..HEADER]) !in closed ==> Receive(a, b.out[..HEADER]).active
  {
    ReceiveIsReceived(a, b, closed);
    hide Flow, HeaderID, Receive, Received;
    var a', b', f := Receive(a, b.out[..HEADER]), b.(out := b.out[HEADER..]), InFlight(b, a)[0];
    if a'.active {
      ReadHeaderOutbound(a, b, closed, f, a', b');
      ReadHeaderInbound(a, b, closed, f, a', b');
      ReceivedKeepsIDs(a, b, closed, f, a');
    }
  }

  lemma ReceivedKeepsIDs(a: Endpoint, b: Endpoint, closed: set<StreamID>, f: Frame, a': Endpoint)
    requires Received(a, b, closed, f, a')
    ensures a'.even == a.even && a'.lastID == a.lastID
  {
  }

  lemma FirstFrame(fs: seq<Frame>, id: StreamID)
    requires fs != []
    ensures DataOf(fs, id) == DataOf([fs[0]], id) + DataOf(fs[1..], id)
    ensures DataOf([fs[0]], id) == if fs[0].Data? && fs[0].id == id then fs[0].payload else []
  {
  }
}
