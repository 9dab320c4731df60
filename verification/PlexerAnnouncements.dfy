/** The user is told of each stream that the peer opens: once, when its first payload is complete. */
module PlexerAnnouncements {
  import opened Bytes
  import opened PlexerWire
  import opened PlexerProtocol
  import opened PlexerInvariant
  import opened PlexerTheorems
  import opened PlexerClosing
  import opened PlexerHistories

  /** The thread is at the frame for which a stream was made. */
  predicate First(e: Endpoint, id: StreamID) {
    (e.upThread.HeaderRead? || e.upThread.PayloadRead?) && e.upThread.id == id && e.upThread.first
  }

  /** A step in which the thread goes on to wait for the callback about a new stream. */
  predicate Announces(e: Endpoint, wire: seq<byte>, a: Action, id: StreamID)
    requires Enabled(e, wire, a)
  {
    a.WriteUp? && Act(e, wire, a).0.upThread == Notifying(id, false, Nothing)
  }

  function Announcements(schedule: seq<(Side, Action)>, side: Side, id: StreamID): nat
    decreases |schedule|
  {
    if schedule == [] then 0
    else
      var last := |schedule| - 1;
      var s, step := Run(INITIAL, schedule[..last]), schedule[last];
      Announcements(schedule[..last], side, id)
        + if step.0 == side && Enabled(Of(s, side), PeerOf(s, side).out, step.1)
             && Announces(Of(s, side), PeerOf(s, side).out, step.1, id)
          then 1 else 0
  }

  /** Only a stream of the peer's is announced, and it has been unless its first payload is still coming. */
  predicate Told(e: Endpoint, id: StreamID, count: nat) {
    && count == (if id in e.streams && !OwnParity(e, id) && !First(e, id) then 1 else 0)
    && (First(e, id) ==> id in e.streams && !OwnParity(e, id))
  }

  /** A stream that a header makes is the peer's. */
  lemma MadeIsThePeers(a: Endpoint, b: Endpoint, closed: set<StreamID>, id: StreamID)
    requires Both(a, b, closed) && id in a.streams && id !in closed && a.streams[id] == FreshStream(false)
    ensures !OwnParity(a, id)
  {
    assert EntryOK(a, b, id);
  }

  lemma ReceiveTells(a: Endpoint, b: Endpoint, closed: set<StreamID>, header: seq<byte>, id: StreamID, count: nat)
    requires a.active && a.upThread.UpIdle? && |header| == HEADER && Told(a, id, count)
    requires Receive(a, header).active && Both(Receive(a, header), b, closed) && id !in closed
    ensures Told(Receive(a, header), id, count)
  {
    ReceiveIs(a, header);
    hide Both, HeaderID, HeaderCommand, Receive, OwnParity;
    SameParityThroughout(a, header, id);
    if id !in a.streams && id in Receive(a, header).streams {
      MadeIsThePeers(Receive(a, header), b, closed, id);
    }
  }

  lemma SameParityThroughout(e: Endpoint, header: seq<byte>, id: StreamID)
    requires |header| == HEADER
    ensures OwnParity(Receive(e, header), id) == OwnParity(e, id)
  {
    hide HeaderCommand, HeaderID;
  }

  lemma PayloadTells(e: Endpoint, bytes: seq<byte>, id: StreamID, count: nat)
    requires e.upThread.HeaderRead? && |bytes| <= e.upThread.length && Told(e, id, count)
    ensures Told(GotPayload(e, bytes), id, count)
  {
  }

  lemma DeliverTells(e: Endpoint, n: nat, id: StreamID, count: nat)
    requires e.upThread.PayloadRead? && 1 <= n <= |e.upThread.chunk| && Told(e, id, count) && e.onNew
    requires e.upThread.id == id ==> id in e.streams
    ensures Told(Deliver(e, n), id, count + if Deliver(e, n).upThread == Notifying(id, false, Nothing) then 1 else 0)
  {
  }

  lemma TableTells(e: Endpoint, e': Endpoint, id: StreamID, count: nat)
    requires Told(e, id, count) && e'.even == e.even
    requires e'.upThread == e.upThread || StillCalling(e.upThread, e'.upThread)
    requires id in e.streams ==> id in e'.streams
    requires id in e'.streams ==> id in e.streams || OwnParity(e, id)
    ensures Told(e', id, count)
  {
  }

  /** A thread that reads no part of a frame. */
  lemma OthersTell(a: Endpoint, b: Endpoint, closed: set<StreamID>, act: Action, id: StreamID, count: nat)
    requires Both(a, b, closed) && Enabled(a, b.out, act) && id !in closed && Told(a, id, count)
    requires !act.ReadHeader? && !act.ReadPayload? && !act.WriteUp? && Act(a, b.out, act).0.active
    ensures Told(Act(a, b.out, act).0, id, count)
  {
    hide Act, Enabled, Flow, NextID, Told;
    OtherStepsKeepTheReader(a, b.out, act);
    OnlyClosedLeave(a, b, closed, id);
    StaysInTable(a, b.out, act, id);
    NextIDIsOwn(a);
    ActKeepsIDs(a, b.out, act);
    TableTells(a, Act(a, b.out, act).0, id, count);
  }

  lemma ActTells(a: Endpoint, b: Endpoint, closed: set<StreamID>, act: Action, id: StreamID, count: nat)
    requires Both(a, b, closed) && Enabled(a, b.out, act) && Told(a, id, count) && (act.WriteUp? ==> a.onNew)
    requires Act(a, b.out, act).0.active
    requires id !in closed && (act.BeginClose? ==> a.asked[0] != id)
    ensures Told(Act(a, b.out, act).0, id, count + if Announces(a, b.out, act, id) then 1 else 0)
  {
    if act.ReadHeader? {
      ActKeeps(a, b, closed, act);
      ReceiveTells(a, b.(out := b.out[HEADER..]), closed, b.out[..HEADER], id, count);
    } else if act.ReadPayload? {
      PayloadTells(a, b.out[..act.n], id, count);
    } else if act.WriteUp? {
      assert ThreadsOK(b, a, closed);
      DeliverTells(a, act.n, id, count);
    } else {
      OthersTell(a, b, closed, act, id, count);
    }
    hide Flow, Receive, GotPayload, Deliver, Told;
  }

  /** Whenever the thread writes up, the function for new streams is set. */
  ghost predicate AlwaysListening(schedule: seq<(Side, Action)>, side: Side) {
    forall j | 0 <= j < |schedule| :: schedule[j].0 == side && schedule[j].1.WriteUp? ==>
      Of(Run(INITIAL, schedule[..j]), side).onNew
  }

  /**
   In every run, a stream that the peer has opened and nobody has closed has been announced exactly once, or not yet,
   while the thread is at its first frame; and a stream of one's own never is.
   */
  lemma {:induction false} AnnouncedOnce(schedule: seq<(Side, Action)>, side: Side, id: StreamID)
    requires AlwaysListening(schedule, side)
    requires var s := Run(INITIAL, schedule); s.master.active && s.slave.active && id !in s.closed
    ensures Told(Of(Run(INITIAL, schedule), side), id, Announcements(schedule, side, id))
    decreases |schedule|
  {
    hide Act, Enabled, Flow, OwnParity, Announces;
    if schedule != [] {
      var last := |schedule| - 1;
      var s, step := Run(INITIAL, schedule[..last]), schedule[last];
      forall j | 0 <= j < last ensures schedule[..last][..j] == schedule[..j] {
      }
      OnlyGoesDown(s, step.0, step.1);
      AnnouncedOnce(schedule[..last], side, id);
      RunKeeps(schedule[..last]);
      var me, peer := Of(s, side), PeerOf(s, side);
      if Enabled(Of(s, step.0), PeerOf(s, step.0).out, step.1) {
        if step.0 == side {
          ActTells(me, peer, s.closed, step.1, id, Announcements(schedule[..last], side, id));
        } else {
          OutTells(me, Act(peer, me.out, step.1).1, id, Announcements(schedule[..last], side, id));
        }
      }
    }
  }

  lemma OutTells(e: Endpoint, out: seq<byte>, id: StreamID, count: nat)
    requires Told(e, id, count)
    ensures Told(e.(out := out), id, count)
  {
  }
}
