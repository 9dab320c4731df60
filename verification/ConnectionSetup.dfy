/**
 Two parties setting a connection up over a channel each way. If at every point of the setup one party is ready to
 write exactly when the other is ready to read, then neither the channels' delay nor short reads and writes can
 make a difference: every run is the lockstep run with its steps delayed.
 */
module ConnectionSetup {
  import opened Bytes
  import opened ConnectionParty

  // ---- The lockstep run: a byte is written and read at once ----

  datatype Pair = Pair(server: Party, client: Party)

  predicate Meets(p: Pair) {
    (Gives(p.server) && Takes(p.client)) || (Gives(p.client) && Takes(p.server))
  }

  function Step(p: Pair): Pair {
    if Gives(p.server) && Takes(p.client) then Pair(Gave(p.server), Took(p.client, Given(p.server)))
    else if Gives(p.client) && Takes(p.server) then Pair(Took(p.server, Given(p.client)), Gave(p.client))
    else p
  }

  function Lockstep(p: Pair, n: nat): Pair {
    if n == 0 then p else Step(Lockstep(p, n - 1))
  }

  predicate MeetsUntil(p: Pair, n: nat) {
    forall i: nat :: i < n ==> Meets(Lockstep(p, i))
  }

  /** Neither party has anything to write: the setup is over, for good or ill. */
  predicate Over(p: Pair) { !Gives(p.server) && !Gives(p.client) }

  // ---- The channel run ----

  /** sent counts the bytes each party has moved, in either direction. */
  datatype Net = Net(
    server: Party, client: Party, toServer: seq<byte>, toClient: seq<byte>, serverMoved: nat, clientMoved: nat)

  datatype Move = ServerWrites | ServerReads | ClientWrites | ClientReads

  predicate Enabled(net: Net, m: Move) {
    match m
    case ServerWrites => Gives(net.server)
    case ServerReads => Takes(net.server) && net.toServer != []
    case ClientWrites => Gives(net.client)
    case ClientReads => Takes(net.client) && net.toClient != []
  }

  function Next(net: Net, m: Move): Net {
    if !Enabled(net, m) then net
    else match m
      case ServerWrites =>
        net.(server := Gave(net.server), toClient := net.toClient + [Given(net.server)], serverMoved := net.serverMoved + 1)
      case ServerReads =>
        net.(server := Took(net.server, net.toServer[0]), toServer := net.toServer[1..], serverMoved := net.serverMoved + 1)
      case ClientWrites =>
        net.(client := Gave(net.client), toServer := net.toServer + [Given(net.client)], clientMoved := net.clientMoved + 1)
      case ClientReads =>
        net.(client := Took(net.client, net.toClient[0]), toClient := net.toClient[1..], clientMoved := net.clientMoved + 1)
  }

  function Run(start: Pair, moves: seq<Move>): Net {
    if moves == [] then Net(start.server, start.client, [], [], 0, 0)
    else Next(Run(start, moves[..|moves| - 1]), moves[|moves| - 1])
  }

  // ---- Every channel run is the lockstep run, delayed ----

  /** From lockstep moment m to moment n only the server writes, and channel holds what it writes. */
  ghost predicate ServerAhead(p: Pair, m: nat, n: nat, channel: seq<byte>) {
    && |channel| == n - m
    && forall i: nat :: m <= i < n ==> Gives(Lockstep(p, i).server) && Given(Lockstep(p, i).server) == channel[i - m]
  }

  ghost predicate ClientAhead(p: Pair, m: nat, n: nat, channel: seq<byte>) {
    && |channel| == n - m
    && forall i: nat :: m <= i < n ==> Gives(Lockstep(p, i).client) && Given(Lockstep(p, i).client) == channel[i - m]
  }

  ghost predicate Delayed(p: Pair, end: nat, net: Net) {
    var m, n := net.serverMoved, net.clientMoved;
    && m <= end && n <= end
    && net.server == Lockstep(p, m).server && net.client == Lockstep(p, n).client
    && (m >= n ==> net.toServer == [] && ServerAhead(p, n, m, net.toClient))
    && (n >= m ==> net.toClient == [] && ClientAhead(p, m, n, net.toServer))
  }

  lemma OneWay(p: Party)
    ensures !(Gives(p) && Takes(p))
  {
  }

  /** One lockstep moment, seen from either side. */
  lemma StepOfServer(p: Pair)
    requires Meets(p) && Gives(p.server)
    ensures Takes(p.client) && !Gives(p.client) && !Takes(p.server)
    ensures Step(p) == Pair(Gave(p.server), Took(p.client, Given(p.server)))
  {
    OneWay(p.server);
    OneWay(p.client);
  }

  lemma StepOfClient(p: Pair)
    requires Meets(p) && Gives(p.client)
    ensures Takes(p.server) && !Gives(p.server) && !Takes(p.client)
    ensures Step(p) == Pair(Took(p.server, Given(p.client)), Gave(p.client))
  {
    OneWay(p.server);
    OneWay(p.client);
  }

  lemma ServerWritesKeeps(p: Pair, end: nat, net: Net)
    requires MeetsUntil(p, end) && Over(Lockstep(p, end)) && Delayed(p, end, net)
    requires Enabled(net, ServerWrites)
    ensures Delayed(p, end, Next(net, ServerWrites))
  {
    hide Gives, Takes, Gave, Took, Given, Step;
    var m, n := net.serverMoved, net.clientMoved;
    assert m < end;
    if m < n {
      StepOfClient(Lockstep(p, m));
      assert false;
    }
    StepOfServer(Lockstep(p, m));
    assert Lockstep(p, m + 1).server == Gave(net.server);
  }

  lemma ServerReadsKeeps(p: Pair, end: nat, net: Net)
    requires MeetsUntil(p, end) && Delayed(p, end, net) && Enabled(net, ServerReads)
    ensures Delayed(p, end, Next(net, ServerReads))
  {
    hide Gives, Takes, Gave, Took, Given, Step;
    var m, n := net.serverMoved, net.clientMoved;
    assert m < n;
    StepOfClient(Lockstep(p, m));
    assert Lockstep(p, m + 1).server == Took(net.server, net.toServer[0]);
  }

  lemma ClientWritesKeeps(p: Pair, end: nat, net: Net)
    requires MeetsUntil(p, end) && Over(Lockstep(p, end)) && Delayed(p, end, net)
    requires Enabled(net, ClientWrites)
    ensures Delayed(p, end, Next(net, ClientWrites))
  {
    hide Gives, Takes, Gave, Took, Given, Step;
    var m, n := net.serverMoved, net.clientMoved;
    assert n < end;
    if n < m {
      StepOfServer(Lockstep(p, n));
      assert false;
    }
    StepOfClient(Lockstep(p, n));
    assert Lockstep(p, n + 1).client == Gave(net.client);
  }

  lemma ClientReadsKeeps(p: Pair, end: nat, net: Net)
    requires MeetsUntil(p, end) && Delayed(p, end, net) && Enabled(net, ClientReads)
    ensures Delayed(p, end, Next(net, ClientReads))
  {
    hide Gives, Takes, Gave, Took, Given, Step;
    var m, n := net.serverMoved, net.clientMoved;
    assert n < m;
    StepOfServer(Lockstep(p, n));
    assert Lockstep(p, n + 1).client == Took(net.client, net.toClient[0]);
  }

  /** Any run is at two moments of the lockstep run, and what the later party has written is on the way. */
  lemma {:induction false} RunIsDelayedLockstep(p: Pair, end: nat, moves: seq<Move>)
    requires MeetsUntil(p, end) && Over(Lockstep(p, end))
    ensures Delayed(p, end, Run(p, moves))
  {
    hide Delayed, Next, MeetsUntil, Over, Lockstep;
    if moves == [] {
      StartIsDelayed(p, end);
    } else {
      var net, move := Run(p, moves[..|moves| - 1]), moves[|moves| - 1];
      RunIsDelayedLockstep(p, end, moves[..|moves| - 1]);
      if Enabled(net, move) {
        match move
        case ServerWrites => ServerWritesKeeps(p, end, net);
        case ServerReads => ServerReadsKeeps(p, end, net);
        case ClientWrites => ClientWritesKeeps(p, end, net);
        case ClientReads => ClientReadsKeeps(p, end, net);
      } else {
        DisabledStays(net, move);
      }
    }
  }

  lemma StartIsDelayed(p: Pair, end: nat)
    ensures Delayed(p, end, Net(p.server, p.client, [], [], 0, 0))
  {
  }

  lemma DisabledStays(net: Net, move: Move)
    requires !Enabled(net, move)
    ensures Next(net, move) == net
  {
  }

  lemma AheadCanBeRead(p: Pair, end: nat, net: Net)
    requires MeetsUntil(p, end) && Delayed(p, end, net)
    ensures net.clientMoved < net.serverMoved ==> Enabled(net, ClientReads)
    ensures net.serverMoved < net.clientMoved ==> Enabled(net, ServerReads)
  {
    hide Gives, Takes, Gave, Took, Given, Step;
    var m, n := net.serverMoved, net.clientMoved;
    if m < n {
      StepOfClient(Lockstep(p, m));
    } else if n < m {
      StepOfServer(Lockstep(p, n));
    }
  }

  lemma LevelCanMoveOn(p: Pair, end: nat, net: Net)
    requires MeetsUntil(p, end) && Delayed(p, end, net) && net.serverMoved == net.clientMoved
    ensures net.toServer == net.toClient == []
    ensures net.serverMoved < end ==> Enabled(net, ServerWrites) || Enabled(net, ClientWrites)
  {
    hide Gives, Takes, Gave, Took, Given, Step;
    if net.serverMoved < end {
      assert Meets(Lockstep(p, net.serverMoved));
    }
  }

  ghost predicate Stuck(net: Net) { forall move :: !Enabled(net, move) }

  /** No deadlock: a run that can go no further is at the end of the lockstep run, with nothing left on the way. */
  lemma StuckOnlyAtTheEnd(p: Pair, end: nat, moves: seq<Move>)
    requires MeetsUntil(p, end) && Over(Lockstep(p, end)) && Stuck(Run(p, moves))
    ensures Run(p, moves) == Net(Lockstep(p, end).server, Lockstep(p, end).client, [], [], end, end)
  {
    RunIsDelayedLockstep(p, end, moves);
    AheadCanBeRead(p, end, Run(p, moves));
    hide Enabled;
    if Run(p, moves).serverMoved == Run(p, moves).clientMoved {
      LevelCanMoveOn(p, end, Run(p, moves));
    }
  }

  function Effective(p: Pair, moves: seq<Move>): nat {
    if moves == [] then 0
    else
      var before := moves[..|moves| - 1];
      Effective(p, before) + if Enabled(Run(p, before), moves[|moves| - 1]) then 1 else 0
  }

  /** No run goes on for ever: each move that has an effect takes one party a byte on. */
  lemma {:induction false} RunsAreBounded(p: Pair, end: nat, moves: seq<Move>)
    requires MeetsUntil(p, end) && Over(Lockstep(p, end))
    ensures Effective(p, moves) == Run(p, moves).serverMoved + Run(p, moves).clientMoved <= 2 * end
  {
    RunIsDelayedLockstep(p, end, moves);
    hide Gives, Takes, Gave, Took, Given, Lockstep;
    if moves != [] {
      RunsAreBounded(p, end, moves[..|moves| - 1]);
    }
  }
}
