/** The plexer object: the fields its threads update, and each entry point as the steps it takes. */
module PlexerObject {
  import opened Bytes
  import opened Pipes
  import opened PlexerWire
  import opened PlexerProtocol

  class Plexer {
    var active: bool
    var myStreamsEven: bool
    var localStreamIDLast: StreamID
    var streamsByID: map<StreamID, StreamState>
    var closeRequests: seq<StreamID> // on downQueue, the oldest first
    var newIncomingFunc: bool // whether the function is set
    var closingFunc: bool
    var upThread: UpThread // idle or waiting for a callback
    const provider: Pipe // what this end has sent and the peer has not read
    ghost var ended: map<StreamID, StreamState>
    ghost var closes: seq<StreamID>

    /** The endpoint of the protocol that this object is, between entry points. */
    ghost function Snapshot(): Endpoint
      reads this, provider
    {
      Endpoint(active, myStreamsEven, localStreamIDLast, streamsByID, closeRequests,
               newIncomingFunc, closingFunc, DownIdle, upThread, provider.data, ended, closes)
    }

    constructor (provider: Pipe, even: bool)
      requires provider.data == []
      ensures this.provider == provider && Snapshot() == Started(even)
    {
      this.provider := provider;
      active := true;
      myStreamsEven := even;
      localStreamIDLast := LastID(even);
      streamsByID := map[];
      closeRequests := [];
      newIncomingFunc, closingFunc := false, false;
      upThread := UpIdle;
      ended := map[];
      closes := [];
    }

    method HangUp()
      modifies this
      ensures Snapshot() == Interrupted(old(Snapshot()))
    {
      active := false;
      streamsByID := map[];
    }

    method CreateStream() returns (id: Option<StreamID>)
      modifies this
      ensures Snapshot() == Act(old(Snapshot()), [], Action.CreateStream).0
      ensures id == if NextID(old(Snapshot())) in old(streamsByID) then None else Some(NextID(old(Snapshot())))
      ensures id.Some? ==> id.value !in old(streamsByID) && id.value in streamsByID
    {
      if localStreamIDLast >= ID_MAX - 1 {
        localStreamIDLast := if myStreamsEven then 0 else 1;
      } else {
        localStreamIDLast := localStreamIDLast + 2;
      }
      if localStreamIDLast in streamsByID {
        HangUp();
        return None;
      }
      streamsByID := streamsByID[localStreamIDLast := FreshStream(true)];
      return Some(localStreamIDLast);
    }

    /** A failed assertion for a stream whose close request has already run; only the originator sends one. */
    method CloseStream(id: StreamID) returns (ok: bool)
      requires id in streamsByID
      modifies this
      ensures ok <==> !old(streamsByID)[id].userClosed
      ensures closeRequests ==
        old(closeRequests) + if ok && old(active) && old(streamsByID)[id].local then [id] else []
      ensures Snapshot() ==
        if Enabled(old(Snapshot()), [], AskClose(id)) then Act(old(Snapshot()), [], AskClose(id)).0 else old(Snapshot())
    {
      ok := !streamsByID[id].userClosed;
      if ok && streamsByID[id].local && active {
        closeRequests := closeRequests + [id];
      }
    }

    /** The oldest close request, when the downstream queue gets to it. */
    method RunCloseRequest()
      requires closeRequests != []
      modifies this
      ensures Snapshot() == CloseRequest(old(Snapshot()))
      ensures var id, was := old(closeRequests)[0], old(streamsByID);
        && closeRequests == old(closeRequests)[1..]
        && streamsByID ==
           if id in was then was[id := was[id].(userClosed := true, down := was[id].down + ['%' as int])] else was
    {
      var id := closeRequests[0];
      closeRequests := closeRequests[1..];
      if id in streamsByID {
        var s := streamsByID[id].(userClosed := true);
        streamsByID := streamsByID[id := s];
        streamsByID := streamsByID[id := s.(down := s.down + [CLOSE_MARKER])];
      }
    }

    /** n is what the pipe read returned; nothing happens at end of file. */
    method ServiceDownstream(id: StreamID) returns (n: nat)
      requires id in streamsByID
      modifies this, provider
      ensures n <= Min(|old(streamsByID)[id].down|, CHUNK_MAX)
      ensures n == 0 <==> !old(active) || old(streamsByID)[id].down == []
      ensures Snapshot() == if n == 0 then old(Snapshot()) else Downstream(old(Snapshot()), id, n)
    {
      hide Header, Downstream;
      if !active || streamsByID[id].down == [] {
        return 0;
      }
      var s := streamsByID[id];
      n :| 1 <= n <= |s.down| && n <= CHUNK_MAX;
      var chunk := s.down[..n];
      DownstreamSendsOneFrame(Snapshot(), id, n);
      streamsByID := streamsByID[id := s.(down := s.down[n..])];
      var closeNow := s.userClosed && n == 1 && chunk[0] == CLOSE_MARKER;
      if closeNow {
        provider.data := provider.data + Header(COMMAND_CLOSE, id);
        ended := ended[id := streamsByID[id]];
        streamsByID := streamsByID - {id};
      } else {
        Concat(provider.data, Header(|chunk|, id), chunk);
        provider.data := provider.data + Header(|chunk|, id);
        provider.data := provider.data + chunk;
      }
      assert closeNow <==> s.userClosed && chunk == [CLOSE_MARKER];
    }

    method SetNewIncomingStreamFunc(isSet: bool)
      modifies this
      ensures old(active) ==> Snapshot() == Act(old(Snapshot()), [], SetCallbacks(isSet, old(closingFunc))).0
    {
      newIncomingFunc := isSet;
    }

    method SetStreamClosingFunc(isSet: bool)
      modifies this
      ensures old(active) ==> Snapshot() == Act(old(Snapshot()), [], SetCallbacks(old(newIncomingFunc), isSet)).0
    {
      closingFunc := isSet;
    }

    /** One frame from the peer, up to the callback that there may be to wait for. */
    method ServiceUpstream(from: Pipe)
      requires from != provider && upThread.UpIdle?
      modifies this, from
      ensures (Snapshot(), from.data) ==
        if old(active) then Upstream(old(Snapshot()), old(from.data)) else old((Snapshot(), from.data))
    {
      hide HeaderCommand, HeaderID, Upstream;
      if !active {
        return;
      }
      UpstreamTakesOneFrame(Snapshot(), from.data);
      if |from.data| < HEADER {
        from.data := [];
        HangUp();
        return;
      }
      var header := from.data[..HEADER];
      from.data := from.data[HEADER..];
      var command, id := HeaderCommand(header), HeaderID(header);
      if !IsCommand(command) {
        HangUp();
        return;
      }
      var newUp := id !in streamsByID;
      if newUp {
        if id % 2 == 0 && myStreamsEven {
          HangUp();
          return;
        }
        streamsByID := streamsByID[id := FreshStream(false)];
      }
      if command == COMMAND_CLOSE {
        closes := closes + [id];
        if closingFunc {
          upThread := Notifying(id, true, Nothing);
        }
        return;
      }
      if |from.data| < command {
        from.data := [];
        HangUp();
        return;
      }
      var chunk := from.data[..command];
      from.data := from.data[command..];
      var s := streamsByID[id];
      streamsByID := streamsByID[id := s.(delivered := s.delivered + chunk, up := s.up + chunk)];
      assert streamsByID == old(streamsByID)[id := streamsByID[id]];
      if newUp && newIncomingFunc {
        upThread := Notifying(id, false, Nothing);
      }
    }

    /** The callback returns, and after a close the stream leaves the table. */
    method CallbackReturns()
      requires active && upThread.Notifying? && upThread.want.Nothing?
      modifies this
      ensures Snapshot() == Act(old(Snapshot()), [], CallReturn).0
      ensures old(upThread).closing ==> old(upThread).id !in streamsByID
    {
      var Notifying(id, closing, _) := upThread;
      upThread := UpIdle;
      if closing && id in streamsByID {
        ended := ended[id := streamsByID[id]];
        streamsByID := streamsByID - {id};
      }
    }
  }
}
