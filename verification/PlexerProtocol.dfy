/**
 Two plexers over one byte channel each way. An endpoint's downstream queue has one thread, and so has its
 upstream queue; each is a program counter here, and a step is what that thread does between two points
 where the other threads, the user and the peer may run.
 */
module PlexerProtocol {
  import opened Bytes
  import opened PlexerWire

  /**
   written, delivered and taken are histories: what the user has written down, what has been written up to it, and
   what it has read. down is what is still in the pipe towards the plexer, up what the user has yet to read.
   */
  datatype StreamState = StreamState(
    local: bool, userClosed: bool, written: seq<byte>, down: seq<byte>, delivered: seq<byte>, up: seq<byte>,
    taken: seq<byte>)

  /** Marking is the close request that runs on the thread and writes the marker into a pipe the thread itself reads. */
  datatype DownThread =
    | DownIdle
    | Marking(id: StreamID)
    | ChunkRead(id: StreamID, chunk: seq<byte>)
    | HeaderSent(id: StreamID, chunk: seq<byte>)
    | CloseDue(id: StreamID)

  /** What a callback of the user's waits for: n more bytes from a stream, or room for data in one. */
  datatype Want = Nothing | Bytes(from: StreamID, n: Amount) | Room(to: StreamID, data: Load)

  type Amount = n: nat | n > 0 witness 1

  type Load = data: seq<byte> | data != [] witness [0]

  /**
   Of a payload, `got` has come off the wire and `length` bytes have not; once it has, `chunk` is still to go up.
   first: the stream was made for this frame. Notifying: the thread waits for a callback of the user's to return,
   which is about a stream that is new or, if closing, one whose close has been read.
   */
  datatype UpThread =
    | UpIdle
    | HeaderRead(id: StreamID, length: nat, got: seq<byte>, first: bool)
    | PayloadRead(id: StreamID, chunk: seq<byte>, first: bool)
    | Notifying(id: StreamID, closing: bool, want: Want)

  /**
   out is what this endpoint has put on the wire and the peer has not yet read. asked is the close requests waiting
   for the downstream thread. onNew and onClose: whether the user has set these callbacks. ended and closes are
   histories: the streams that have left the table by a close, and the close frames read.
   */
  datatype Endpoint = Endpoint(
    active: bool, even: bool, lastID: StreamID, streams: map<StreamID, StreamState>, asked: seq<StreamID>,
    onNew: bool, onClose: bool, downThread: DownThread, upThread: UpThread, out: seq<byte>,
    ended: map<StreamID, StreamState>, closes: seq<StreamID>)

  datatype Action =
    | CreateStream
    | WriteDown(id: StreamID, data: seq<byte>)
    | ReadUp(id: StreamID, n: nat)
    | AskClose(id: StreamID)
    | BeginClose
    | PutMarker
    | ReadChunk(id: StreamID, n: nat)
    | SendHeader
    | SendPayload(n: nat)
    | SendClose
    | ReadHeader
    | ReadPayload(n: nat)
    | WriteUp(n: nat)
    | SetCallbacks(onNew: bool, onClose: bool)
    | CallRead(id: StreamID, n: nat)           // a callback begins to read n bytes
    | CallWrite(id: StreamID, data: seq<byte>) // a callback begins to write
    | CallTake(n: nat)
    | CallPut(n: nat)
    | CallEnd                                  // the stream it reads or writes is at its end
    | CallReturn
    | Interrupt

  // ---- One endpoint's steps. `wire` is what the peer has sent and this endpoint has not yet read. ----

  function Interrupted(e: Endpoint): Endpoint {
    e.(active := false, streams := map[])
  }

  function NextID(e: Endpoint): StreamID {
    if e.lastID >= ID_MAX - 1 then (if e.even then 0 else 1) else e.lastID + 2
  }

  function FreshStream(local: bool): StreamState {
    StreamState(local, false, [], [], [], [], [])
  }

  function Create(e: Endpoint): Endpoint {
    var id := NextID(e);
    if id in e.streams then Interrupted(e.(lastID := id))
    else e.(lastID := id, streams := e.streams[id := FreshStream(true)])
  }

  function Write(e: Endpoint, id: StreamID, data: seq<byte>): Endpoint
    requires id in e.streams
  {
    var s := e.streams[id];
    e.(streams := e.streams[id := s.(written := s.written + data, down := s.down + data)])
  }

  function Read(e: Endpoint, id: StreamID, n: nat): Endpoint
    requires id in e.streams && n <= |e.streams[id].up|
  {
    var s := e.streams[id];
    e.(streams := e.streams[id := s.(up := s.up[n..], taken := s.taken + s.up[..n])])
  }

  const CLOSE_MARKER: byte := '%' as int

  /** The thread takes up the oldest close request; one for a stream that has gone does nothing. */
  function StartMarking(e: Endpoint): Endpoint
    requires e.asked != []
  {
    var id, rest := e.asked[0], e.asked[1..];
    if id !in e.streams then e.(asked := rest)
    else e.(asked := rest, downThread := Marking(id), streams := e.streams[id := e.streams[id].(userClosed := true)])
  }

  function Mark(e: Endpoint): Endpoint
    requires e.downThread.Marking?
  {
    var id, idle := e.downThread.id, e.(downThread := DownIdle);
    if id !in e.streams then idle
    else idle.(streams := e.streams[id := e.streams[id].(down := e.streams[id].down + [CLOSE_MARKER])])
  }

  /** The downstream thread takes n bytes from a pipe; a marker alone, once the user has closed, means close. */
  function TakeChunk(e: Endpoint, id: StreamID, n: nat): Endpoint
    requires id in e.streams && 1 <= n <= |e.streams[id].down|
  {
    var s := e.streams[id];
    var chunk := s.down[..n];
    e.(streams := e.streams[id := s.(down := s.down[n..])],
       downThread := if s.userClosed && chunk == [CLOSE_MARKER] then CloseDue(id) else ChunkRead(id, chunk))
  }

  /** A stream leaves the table. */
  function End(e: Endpoint, id: StreamID): Endpoint {
    if id in e.streams then e.(streams := e.streams - {id}, ended := e.ended[id := e.streams[id]]) else e
  }

  function SentHeader(e: Endpoint): Endpoint
    requires e.downThread.ChunkRead?
  {
    var ChunkRead(id, chunk) := e.downThread;
    e.(out := e.out + Header(|chunk|, id), downThread := HeaderSent(id, chunk))
  }

  function SentPayload(e: Endpoint, n: nat): Endpoint
    requires e.downThread.HeaderSent? && n <= |e.downThread.chunk|
  {
    var HeaderSent(id, chunk) := e.downThread;
    e.(out := e.out + chunk[..n], downThread := if n == |chunk| then DownIdle else HeaderSent(id, chunk[n..]))
  }

  function SentClose(e: Endpoint): Endpoint
    requires e.downThread.CloseDue?
  {
    var id := e.downThread.id;
    End(e.(out := e.out + Header(COMMAND_CLOSE, id), downThread := DownIdle), id)
  }

  /** n more bytes of the payload come off the wire. */
  function GotPayload(e: Endpoint, bytes: seq<byte>): Endpoint
    requires e.upThread.HeaderRead? && |bytes| <= e.upThread.length
  {
    var HeaderRead(id, length, got, first) := e.upThread;
    e.(upThread :=
         if |bytes| == length then PayloadRead(id, got + bytes, first)
         else HeaderRead(id, length - |bytes|, got + bytes, first))
  }

  /** The table entry a header refers to, made on demand; refused when the id should have been ours. */
  function Choose(e: Endpoint, id: StreamID): Endpoint {
    if id in e.streams then e
    else if id % 2 == 0 && e.even then Interrupted(e)
    else e.(streams := e.streams[id := FreshStream(false)])
  }

  /** Only on its way back from the callback does a close take the stream off the table. */
  function CloseReceived(e: Endpoint, id: StreamID): Endpoint {
    e.(closes := e.closes + [id], upThread := if e.onClose then Notifying(id, true, Nothing) else UpIdle)
  }

  function Receive(e: Endpoint, header: seq<byte>): Endpoint
    requires |header| == HEADER
  {
    var command, id := HeaderCommand(header), HeaderID(header);
    if !IsCommand(command) then Interrupted(e)
    else
      var chosen := Choose(e, id);
      if !chosen.active then chosen
      else if command == COMMAND_CLOSE then CloseReceived(chosen, id)
      else chosen.(upThread := HeaderRead(id, command, [], id !in e.streams))
  }

  /** n more bytes of the payload go up to the stream's user. */
  function Deliver(e: Endpoint, n: nat): Endpoint
    requires e.upThread.PayloadRead? && 1 <= n <= |e.upThread.chunk|
  {
    var PayloadRead(id, chunk, first) := e.upThread;
    if id !in e.streams then e.(upThread := UpIdle)
    else
      var s := e.streams[id];
      e.(upThread := if n < |chunk| then PayloadRead(id, chunk[n..], first)
                     else if first && e.onNew then Notifying(id, false, Nothing)
                     else UpIdle,
         streams := e.streams[id := s.(delivered := s.delivered + chunk[..n], up := s.up + chunk[..n])])
  }

  // ---- Callbacks, which the upstream thread waits for ----

  /** What a callback waits for, if it waits. */
  function WantOf(e: Endpoint): Want { if e.upThread.Notifying? then e.upThread.want else Nothing }

  function Wanting(e: Endpoint, want: Want): Endpoint
    requires e.upThread.Notifying?
  {
    e.(upThread := Notifying(e.upThread.id, e.upThread.closing, want))
  }

  function Took(e: Endpoint, n: nat): Endpoint
    requires WantOf(e).Bytes? && n <= WantOf(e).n && WantOf(e).from in e.streams && n <= |e.streams[WantOf(e).from].up|
  {
    var Bytes(from, m) := WantOf(e);
    Wanting(Read(e, from, n), if n == m then Nothing else Bytes(from, m - n))
  }

  function Put(e: Endpoint, n: nat): Endpoint
    requires WantOf(e).Room? && n <= |WantOf(e).data| && WantOf(e).to in e.streams
  {
    var Room(to, data) := WantOf(e);
    Wanting(Write(e, to, data[..n]), if n == |data| then Nothing else Room(to, data[n..]))
  }

  /** A stream that has left the table, or whose close has been read and whose bytes are all read too, is at its end. */
  predicate AtEnd(e: Endpoint, want: Want) {
    match want
    case Nothing => false
    case Bytes(from, _) => from !in e.streams || (from in e.closes && e.streams[from].up == [])
    case Room(to, _) => to !in e.streams
  }

  function Returned(e: Endpoint): Endpoint
    requires e.upThread.Notifying?
  {
    var idle := e.(upThread := UpIdle);
    if e.upThread.closing then End(idle, e.upThread.id) else idle
  }

  /** When an action can happen, if no pipe and no wire is ever full. */
  predicate Enabled(e: Endpoint, wire: seq<byte>, a: Action) {
    && (e.active || a.CreateStream?)
    && match a
       case CreateStream => true
       case WriteDown(id, _) => id in e.streams
       case ReadUp(id, n) => id in e.streams && 1 <= n <= |e.streams[id].up|
       case AskClose(id) => id in e.streams && e.streams[id].local && !e.streams[id].userClosed
       case BeginClose => e.downThread.DownIdle? && e.asked != []
       case PutMarker => e.downThread.Marking?
       case ReadChunk(id, n) =>
         id in e.streams && e.downThread.DownIdle? && 1 <= n <= Min(|e.streams[id].down|, CHUNK_MAX)
       case SendHeader => e.downThread.ChunkRead?
       case SendPayload(n) => e.downThread.HeaderSent? && 1 <= n <= |e.downThread.chunk|
       case SendClose => e.downThread.CloseDue?
       case ReadHeader => e.upThread.UpIdle? && |wire| >= HEADER
       case ReadPayload(n) => e.upThread.HeaderRead? && 1 <= n <= Min(|wire|, e.upThread.length)
       case WriteUp(n) => e.upThread.PayloadRead? && 1 <= n <= |e.upThread.chunk|
       case SetCallbacks(_, _) => true
       case CallRead(_, n) => e.upThread.Notifying? && e.upThread.want.Nothing? && n >= 1
       case CallWrite(_, data) => e.upThread.Notifying? && e.upThread.want.Nothing? && data != []
       case CallTake(n) =>
         WantOf(e).Bytes? && WantOf(e).from in e.streams && 1 <= n <= Min(WantOf(e).n, |e.streams[WantOf(e).from].up|)
       case CallPut(n) => WantOf(e).Room? && WantOf(e).to in e.streams && 1 <= n <= |WantOf(e).data|
       case CallEnd => AtEnd(e, WantOf(e))
       case CallReturn => e.upThread.Notifying? && e.upThread.want.Nothing?
       case Interrupt => true
  }

  function Act(e: Endpoint, wire: seq<byte>, a: Action): (Endpoint, seq<byte>)
    requires Enabled(e, wire, a)
  {
    match a
    case CreateStream => (Create(e), wire)
    case WriteDown(id, data) => (Write(e, id, data), wire)
    case ReadUp(id, n) => (Read(e, id, n), wire)
    case AskClose(id) => (e.(asked := e.asked + [id]), wire)
    case BeginClose => (StartMarking(e), wire)
    case PutMarker => (Mark(e), wire)
    case ReadChunk(id, n) => (TakeChunk(e, id, n), wire)
    case SendHeader => (SentHeader(e), wire)
    case SendPayload(n) => (SentPayload(e, n), wire)
    case SendClose => (SentClose(e), wire)
    case ReadHeader => (Receive(e, wire[..HEADER]), wire[HEADER..])
    case ReadPayload(n) => (GotPayload(e, wire[..n]), wire[n..])
    case WriteUp(n) => (Deliver(e, n), wire)
    case SetCallbacks(onNew, onClose) => (e.(onNew := onNew, onClose := onClose), wire)
    case CallRead(id, n) => (Wanting(e, Bytes(id, n)), wire)
    case CallWrite(id, data) => (Wanting(e, Room(id, data)), wire)
    case CallTake(n) => (Took(e, n), wire)
    case CallPut(n) => (Put(e, n), wire)
    case CallEnd => (Wanting(e, Nothing), wire)
    case CallReturn => (Returned(e), wire)
    case Interrupt => (Interrupted(e), wire)
  }

  // ---- What one visit of each thread amounts to when nothing runs in between ----

  /** The close request that runs on the downstream queue. */
  function CloseRequest(e: Endpoint): Endpoint
    requires e.asked != []
  {
    var begun := StartMarking(e);
    if begun.downThread.Marking? then Mark(begun) else begun
  }

  /** The downstream thread takes n bytes from a stream's pipe and passes them on. */
  function Downstream(e: Endpoint, id: StreamID, n: nat): Endpoint
    requires e.active && e.downThread.DownIdle? && id in e.streams && 1 <= n <= Min(|e.streams[id].down|, CHUNK_MAX)
  {
    var read := Act(e, [], ReadChunk(id, n)).0;
    if read.downThread.CloseDue? then Act(read, [], SendClose).0
    else Act(Act(read, [], SendHeader).0, [], SendPayload(n)).0
  }

  /** A visit puts one frame on the wire: the bytes read, or a close if they are the marker alone. */
  lemma DownstreamSendsOneFrame(e: Endpoint, id: StreamID, n: nat)
    requires e.active && e.downThread.DownIdle? && id in e.streams && 1 <= n <= Min(|e.streams[id].down|, CHUNK_MAX)
    ensures var s, e' := e.streams[id], Downstream(e, id, n);
            var chunk, left := s.down[..n], e.streams[id := s.(down := s.down[n..])];
            if s.userClosed && chunk == [CLOSE_MARKER]
            then e' == e.(out := e.out + Serialize(Close(id)), streams := left - {id}, ended := e.ended[id := left[id]])
            else e' == e.(out := e.out + Serialize(Data(id, chunk)), streams := left)
  {
    hide Header;
    var s := e.streams[id];
    var chunk := s.down[..n];
    assert chunk[..n] == chunk;
    Concat(e.out, Header(n, id), chunk);
  }

  /**
   The upstream thread takes one frame off a wire that has nothing more to come, up to the callback there may be to
   wait for; a short read hangs up.
   */
  function Upstream(e: Endpoint, wire: seq<byte>): (Endpoint, seq<byte>)
    requires e.active && e.upThread.UpIdle?
  {
    if |wire| < HEADER then (Interrupted(e), [])
    else
      var (e1, rest) := Act(e, wire, ReadHeader);
      if !e1.active || !e1.upThread.HeaderRead? then (e1, rest)
      else if |rest| < e1.upThread.length then (Interrupted(e1).(upThread := UpIdle), [])
      else
        var n := e1.upThread.length;
        var (e2, rest') := Act(e1, rest, ReadPayload(n));
        (Act(e2, rest', WriteUp(n)).0, rest')
  }

  lemma ReadPayloadActs(b: Endpoint, wire: seq<byte>, n: nat)
    requires b.active && b.upThread.HeaderRead? && 1 <= n <= Min(|wire|, b.upThread.length)
    ensures Enabled(b, wire, ReadPayload(n))
    ensures Act(b, wire, ReadPayload(n)) == (GotPayload(b, wire[..n]), wire[n..])
    ensures GotPayload(b, wire[..n]).active
  {
  }

  lemma WriteUpActs(b: Endpoint, wire: seq<byte>, n: nat)
    requires b.active && b.upThread.PayloadRead? && 1 <= n <= |b.upThread.chunk|
    ensures Enabled(b, wire, WriteUp(n)) && Act(b, wire, WriteUp(n)) == (Deliver(b, n), wire) && Deliver(b, n).active
  {
  }

  lemma ReadHeaderActs(b: Endpoint, wire: seq<byte>)
    requires b.active && b.upThread.UpIdle? && |wire| >= HEADER
    ensures Enabled(b, wire, ReadHeader)
    ensures Act(b, wire, ReadHeader) == (Receive(b, wire[..HEADER]), wire[HEADER..])
  {
    hide Receive;
  }

  /** What an endpoint makes of one whole data frame. */
  function Taken(e: Endpoint, id: StreamID, data: seq<byte>): Endpoint {
    var made := id !in e.streams;
    var st := if made then FreshStream(false) else e.streams[id];
    e.(streams := e.streams[id := st.(delivered := st.delivered + data, up := st.up + data)],
       upThread := if made && e.onNew then Notifying(id, false, Nothing) else UpIdle)
  }

  lemma TakesPayload(e: Endpoint, id: StreamID, data: seq<byte>)
    requires e.active && 1 <= |data| && id in e.streams && e.upThread.HeaderRead?
    requires e.upThread == HeaderRead(id, |data|, [], e.upThread.first)
    ensures GotPayload(e, data) == e.(upThread := PayloadRead(id, data, e.upThread.first))
    ensures Deliver(GotPayload(e, data), |data|) ==
      var st := e.streams[id];
      e.(streams := e.streams[id := st.(delivered := st.delivered + data, up := st.up + data)],
         upThread := if e.upThread.first && e.onNew then Notifying(id, false, Nothing) else UpIdle)
  {
    assert [] + data == data && data[..|data|] == data;
  }

  lemma ReceiveIs(e: Endpoint, header: seq<byte>)
    requires |header| == HEADER && e.active
    ensures var command, id := HeaderCommand(header), HeaderID(header);
            Receive(e, header) ==
              if !IsCommand(command) || (id !in e.streams && id % 2 == 0 && e.even) then Interrupted(e)
              else if command == COMMAND_CLOSE then CloseReceived(Choose(e, id), id)
              else Choose(e, id).(upThread := HeaderRead(id, command, [], id !in e.streams))
    ensures Interrupted(Choose(e, HeaderID(header))) == Interrupted(e) && Choose(e, HeaderID(header)).upThread == e.upThread
    ensures HeaderID(header) in e.streams || !(HeaderID(header) % 2 == 0 && e.even) ==> Choose(e, HeaderID(header)).active
  {
    hide HeaderCommand, HeaderID;
  }

  lemma PayloadIsTaken(e: Endpoint, id: StreamID, data: seq<byte>)
    requires e.active && data != [] && (id in e.streams || !(id % 2 == 0 && e.even))
    ensures var e1 := Choose(e, id).(upThread := HeaderRead(id, |data|, [], id !in e.streams));
            Deliver(GotPayload(e1, data), |data|) == Taken(e, id, data)
  {
    var e1 := Choose(e, id).(upThread := HeaderRead(id, |data|, [], id !in e.streams));
    TakesPayload(e1, id, data);
    hide GotPayload, Deliver;
    var st := if id in e.streams then e.streams[id] else FreshStream(false);
    var st' := st.(delivered := st.delivered + data, up := st.up + data);
    assert e1.streams[id := st'] == e.streams[id := st'];
  }

  /** A visit takes one frame: an error hangs up, a close is noted, and data go up to their stream. */
  lemma UpstreamTakesOneFrame(e: Endpoint, wire: seq<byte>)
    requires e.active && e.upThread.UpIdle?
    ensures Upstream(e, wire) ==
      if |wire| < HEADER then (Interrupted(e), [])
      else
        var command, id, body := HeaderCommand(wire[..HEADER]), HeaderID(wire[..HEADER]), wire[HEADER..];
        if command != -2 && !(1 <= command <= 65535) then (Interrupted(e), body)
        else if id !in e.streams && id % 2 == 0 && e.even then (Interrupted(e), body)
        else if command == -2 then (CloseReceived(Choose(e, id), id), body)
        else if |body| < command then (Interrupted(e), [])
        else (Taken(e, id, body[..command]), body[command..])
  {
    hide HeaderCommand, HeaderID, Choose;
    if |wire| >= HEADER {
      ReadHeaderActs(e, wire);
      ReceiveIs(e, wire[..HEADER]);
      var e1, body := Receive(e, wire[..HEADER]), wire[HEADER..];
      hide Receive, Deliver, GotPayload;
      if e1.active && e1.upThread.HeaderRead? && |body| >= e1.upThread.length {
        var n := e1.upThread.length;
        PayloadIsTaken(e, HeaderID(wire[..HEADER]), body[..n]);
        ReadPayloadActs(e1, body, n);
        WriteUpActs(GotPayload(e1, body[..n]), body[n..], n);
      }
      hide Act, Enabled;
    }
  }

  // ---- The pair ----

  datatype Side = Master | Slave

  /** closed is a history: the ids for which either downstream thread has taken up a close request. */
  datatype State = State(master: Endpoint, slave: Endpoint, closed: set<StreamID>)

  function Of(s: State, side: Side): Endpoint { if side.Master? then s.master else s.slave }

  function PeerOf(s: State, side: Side): Endpoint { if side.Master? then s.slave else s.master }

  function Next(s: State, side: Side, a: Action): State {
    var me, peer := Of(s, side), PeerOf(s, side);
    if !Enabled(me, peer.out, a) then s
    else
      var (me', out') := Act(me, peer.out, a);
      var peer' := peer.(out := out');
      var closed' := if a.BeginClose? then s.closed + {me.asked[0]} else s.closed;
      if side.Master? then State(me', peer', closed') else State(peer', me', closed')
  }

  /** Any schedule at all: actions that cannot happen when they are named do nothing. */
  function Run(s: State, schedule: seq<(Side, Action)>): State
    decreases |schedule|
  {
    if schedule == [] then s
    else
      var last := |schedule| - 1;
      Next(Run(s, schedule[..last]), schedule[last].0, schedule[last].1)
  }

  /** As the handshake leaves an endpoint. */
  function Started(even: bool): Endpoint {
    Endpoint(true, even, LastID(even), map[], [], false, false, DownIdle, UpIdle, [], map[], [])
  }

  const INITIAL := State(Started(true), Started(false), {})

  // ---- What is on the way from a to b ----

  /** The wire from a, as if a payload whose header is already out had followed it. */
  function Wire(a: Endpoint): seq<byte> {
    if a.downThread.HeaderSent? then a.out + a.downThread.chunk else a.out
  }

  /** How much of the wire is the payload of a header already read. */
  function Due(b: Endpoint): nat { if b.upThread.HeaderRead? then b.upThread.length else 0 }

  predicate WireParses(a: Endpoint, b: Endpoint) {
    |Wire(a)| >= Due(b) && Parse(Wire(a)[Due(b)..]).Some?
  }

  function InFlight(a: Endpoint, b: Endpoint): seq<Frame>
    requires WireParses(a, b)
  {
    Parse(Wire(a)[Due(b)..]).value
  }

  function Arriving(a: Endpoint, b: Endpoint, id: StreamID): seq<byte>
    requires WireParses(a, b)
  {
    match b.upThread
    case HeaderRead(id', n, got, _) => if id' == id then got + Wire(a)[..n] else []
    case PayloadRead(id', chunk, _) => if id' == id then chunk else []
    case Notifying(_, _, _) => []
    case UpIdle => []
  }

  function Leaving(a: Endpoint, id: StreamID): seq<byte> {
    if a.downThread.ChunkRead? && a.downThread.id == id then a.downThread.chunk else []
  }

  function Delivered(b: Endpoint, id: StreamID): seq<byte> {
    if id in b.streams then b.streams[id].delivered
    else if id in b.ended then b.ended[id].delivered
    else []
  }

  // ---- The invariant ----

  /** Nothing lost, nothing made up, nothing out of order on stream id from a to b. */
  predicate Conserved(a: Endpoint, b: Endpoint, id: StreamID)
    requires WireParses(a, b) && id in a.streams
  {
    a.streams[id].written
      == Delivered(b, id) + Arriving(a, b, id) + DataOf(InFlight(a, b), id) + Leaving(a, id) + a.streams[id].down
  }

  predicate OwnParity(e: Endpoint, id: StreamID) { (id % 2 == 0) == e.even }

  predicate EntryOK(a: Endpoint, b: Endpoint, id: StreamID)
    requires WireParses(a, b) && id in a.streams
  {
    && Conserved(a, b, id)
    && !a.streams[id].userClosed
    && (a.streams[id].local <==> OwnParity(a, id))
    && (!a.streams[id].local ==> id in b.streams)
    && (id !in b.streams ==> a.streams[id].delivered == [])
  }

  /** Every frame and every thread position refers to a stream its endpoint knows. */
  predicate FrameOK(a: Endpoint, f: Frame, closed: set<StreamID>) {
    f.id !in closed ==> f.Data? && f.id in a.streams
  }

  predicate ThreadsOK(a: Endpoint, b: Endpoint, closed: set<StreamID>) {
    && (match a.downThread
        case DownIdle => true
        case Marking(id) => id in closed
        case ChunkRead(id, chunk) => 1 <= |chunk| <= CHUNK_MAX && (id !in closed ==> id in a.streams)
        case HeaderSent(id, chunk) => 1 <= |chunk| <= CHUNK_MAX && (id !in closed ==> id in a.streams)
        case CloseDue(id) => id in closed)
    && (match b.upThread
        case UpIdle => true
        case HeaderRead(_, length, _, _) => length >= 1
        case PayloadRead(_, chunk, _) => chunk != []
        case Notifying(id, closing, _) => closing ==> id in closed)
    && (!b.upThread.UpIdle? && b.upThread.id !in closed ==> b.upThread.id in a.streams && b.upThread.id in b.streams)
  }

  /** What is still to follow a header that is out belongs to the last frame on the wire, or to the payload being read. */
  predicate TailOK(a: Endpoint, b: Endpoint)
    requires WireParses(a, b)
  {
    a.downThread.HeaderSent? ==>
      var fs := InFlight(a, b);
      if fs == [] then |a.downThread.chunk| <= Due(b)
      else fs[|fs| - 1].Data? && |a.downThread.chunk| <= |fs[|fs| - 1].payload|
  }

  ghost predicate FramesOK(a: Endpoint, b: Endpoint, closed: set<StreamID>)
    requires WireParses(a, b)
  {
    forall f <- InFlight(a, b) :: FrameOK(a, f, closed)
  }

  ghost predicate Books(a: Endpoint, b: Endpoint, closed: set<StreamID>)
    requires WireParses(a, b)
  {
    forall id <- a.streams :: id !in closed ==> EntryOK(a, b, id)
  }

  ghost predicate ClosedOK(a: Endpoint, closed: set<StreamID>) {
    && (forall id <- a.streams :: a.streams[id].userClosed ==> id in closed)
    && (forall id <- a.ended :: id in closed)
    && (forall id <- a.closes :: id in closed)
  }

  ghost predicate Flow(a: Endpoint, b: Endpoint, closed: set<StreamID>) {
    && WireParses(a, b) && TailOK(a, b) && ThreadsOK(a, b, closed)
    && FramesOK(a, b, closed) && Books(a, b, closed) && ClosedOK(a, closed)
  }

  ghost predicate Inv(s: State) {
    && s.master.even && !s.slave.even
    && OwnParity(s.master, s.master.lastID) && OwnParity(s.slave, s.slave.lastID)
    && (s.master.active && s.slave.active ==>
        Flow(s.master, s.slave, s.closed) && Flow(s.slave, s.master, s.closed))
  }
}
