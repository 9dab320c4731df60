/**
 The lockstep run of the server's script with the client's loop, message by message, and with it the outcome of
 every run over real channels.
 */
module ConnectionScript {
  import opened Bytes
  import opened ConnectionParty
  import opened ConnectionPlay
  import opened ConnectionSetup
  import PlexerWire

  // ---- Messages in lockstep ----

  ghost predicate Joined(p: Pair, n: nat, q: Pair) { MeetsUntil(p, n) && Lockstep(p, n) == q }

  /**
   The lockstep run from p comes to q, with the two parties complementary all the way; and so do their plays, in which
   the client writes x and the server y.
   */
  ghost predicate Reaches(p: Pair, q: Pair, x: seq<byte>, y: seq<byte>) {
    (exists n: nat :: Joined(p, n, q)) && Exchanges(p, q, x, y)
  }

  lemma {:induction false} LockstepAdd(p: Pair, n: nat, m: nat)
    ensures Lockstep(p, n + m) == Lockstep(Lockstep(p, n), m)
  {
    hide Step;
    if m > 0 {
      LockstepAdd(p, n, m - 1);
      assert Lockstep(p, n + m) == Step(Lockstep(p, n + m - 1));
    }
  }

  lemma JoinedAdd(p: Pair, n: nat, q: Pair, m: nat, r: Pair)
    requires Joined(p, n, q) && Joined(q, m, r)
    ensures Joined(p, n + m, r)
  {
    hide Lockstep, Meets, Step;
    LockstepAdd(p, n, m);
    forall i: nat | i < n + m ensures Meets(Lockstep(p, i)) {
      if i >= n {
        LockstepAdd(p, n, i - n);
      }
    }
  }

  lemma ReachesTransitive(
    p: Pair, q: Pair, r: Pair, x: seq<byte>, y: seq<byte>, x': seq<byte>, y': seq<byte>)
    requires Reaches(p, q, x, y) && Reaches(q, r, x', y')
    ensures Reaches(p, r, x + x', y + y')
  {
    hide Joined, Exchanges;
    var n: nat :| Joined(p, n, q);
    var m: nat :| Joined(q, m, r);
    JoinedAdd(p, n, q, m, r);
    ExchangesTransitive(p, q, r, x, y, x', y');
  }

  /** The same, where the second part has only one of the two write. */
  lemma ServerGoesOn(p: Pair, q: Pair, r: Pair, x: seq<byte>, y: seq<byte>, y': seq<byte>)
    requires Reaches(p, q, x, y) && Reaches(q, r, [], y')
    ensures Reaches(p, r, x, y + y')
  {
    hide Reaches;
    ReachesTransitive(p, q, r, x, y, [], y');
    assert x + [] == x;
  }

  lemma ClientGoesOn(p: Pair, q: Pair, r: Pair, x: seq<byte>, y: seq<byte>, x': seq<byte>)
    requires Reaches(p, q, x, y) && Reaches(q, r, x', [])
    ensures Reaches(p, r, x + x', y)
  {
    hide Reaches;
    ReachesTransitive(p, q, r, x, y, x', []);
    assert y + [] == y;
  }

  /** One message, from the party that writes it to the one that reads it. */
  ghost predicate Passes(from: Party, to: Party, message: seq<byte>) {
    && from.moved == to.moved == [] && message != []
    && IoOf(from) == Put(message) && IoOf(to) == Get(|message|)
  }

  lemma PartWay(from: Party, to: Party, message: seq<byte>, k: nat)
    requires Passes(from, to, message) && k < |message|
    ensures var f, t := from.(moved := message[..k]), to.(moved := message[..k]);
      && Gives(f) && Takes(t) && Given(f) == message[k]
      && Gave(f) == (if k + 1 < |message| then from.(moved := message[..k + 1]) else Then(from, []))
      && Took(t, message[k]) == (if k + 1 < |message| then to.(moved := message[..k + 1]) else Then(to, message))
  {
    var f, t := from.(moved := message[..k]), to.(moved := message[..k]);
    assert IoOf(f) == IoOf(from) && IoOf(t) == IoOf(to);
    assert message[..k] + [message[k]] == message[..k + 1];
    assert message[..|message|] == message;
    hide IoOf, Then;
    assert f.(moved := []) == from && t.(moved := []) == to;
  }

  lemma JoinedStep(p: Pair, n: nat, q: Pair)
    requires Joined(p, n, q) && Meets(q)
    ensures Joined(p, n + 1, Step(q))
  {
    hide Meets, Step;
  }

  /** Both parties, k bytes into a message. */
  function PartOf(p: Pair, message: seq<byte>, k: nat): Pair
    requires k <= |message|
  {
    Pair(p.server.(moved := message[..k]), p.client.(moved := message[..k]))
  }

  lemma StartOfMessage(p: Pair, message: seq<byte>)
    requires p.server.moved == p.client.moved == []
    ensures PartOf(p, message, 0) == p && Joined(p, 0, p)
  {
  }

  lemma ServerByte(p: Pair, message: seq<byte>, k: nat)
    requires Passes(p.server, p.client, message) && k < |message|
    ensures var q := PartOf(p, message, k);
      Meets(q) && Step(q) ==
        if k + 1 < |message| then PartOf(p, message, k + 1) else Pair(Then(p.server, []), Then(p.client, message))
  {
    PartWay(p.server, p.client, message, k);
    hide Passes, Gives, Takes, Gave, Took, Given, Then;
  }

  lemma {:induction false} ServerMessagePart(p: Pair, message: seq<byte>, k: nat)
    requires Passes(p.server, p.client, message) && k < |message|
    ensures Joined(p, k, PartOf(p, message, k))
  {
    hide Joined, Meets, Step, PartOf;
    if k == 0 {
      StartOfMessage(p, message);
    } else {
      ServerMessagePart(p, message, k - 1);
      ServerByte(p, message, k - 1);
      JoinedStep(p, k - 1, PartOf(p, message, k - 1));
    }
  }

  lemma ServerMessage(p: Pair, message: seq<byte>)
    requires Passes(p.server, p.client, message)
    ensures Reaches(p, Pair(Then(p.server, []), Then(p.client, message)), [], message)
  {
    var k := |message| - 1;
    ServerExchange(p, message);
    hide Then, IoOf, Exchanges, Joined, Meets, Step, PartOf;
    ServerMessagePart(p, message, k);
    ServerByte(p, message, k);
    JoinedStep(p, k, PartOf(p, message, k));
  }

  lemma ClientByte(p: Pair, message: seq<byte>, k: nat)
    requires Passes(p.client, p.server, message) && k < |message|
    ensures var q := PartOf(p, message, k);
      Meets(q) && Step(q) ==
        if k + 1 < |message| then PartOf(p, message, k + 1) else Pair(Then(p.server, message), Then(p.client, []))
  {
    PartWay(p.client, p.server, message, k);
    OneWay(p.server.(moved := message[..k]));
    hide Passes, Gives, Takes, Gave, Took, Given, Then;
  }

  lemma {:induction false} ClientMessagePart(p: Pair, message: seq<byte>, k: nat)
    requires Passes(p.client, p.server, message) && k < |message|
    ensures Joined(p, k, PartOf(p, message, k))
  {
    hide Joined, Meets, Step, PartOf;
    if k == 0 {
      StartOfMessage(p, message);
    } else {
      ClientMessagePart(p, message, k - 1);
      ClientByte(p, message, k - 1);
      JoinedStep(p, k - 1, PartOf(p, message, k - 1));
    }
  }

  lemma ClientMessage(p: Pair, message: seq<byte>)
    requires Passes(p.client, p.server, message)
    ensures Reaches(p, Pair(Then(p.server, message), Then(p.client, [])), message, [])
  {
    var k := |message| - 1;
    ClientExchange(p, message);
    hide Then, IoOf, Exchanges, Joined, Meets, Step, PartOf;
    ClientMessagePart(p, message, k);
    ClientByte(p, message, k);
    JoinedStep(p, k, PartOf(p, message, k));
  }

  // ---- The stages of the setup ----

  ghost predicate At(p: Pair, server: Point, client: Point) {
    && p.server.server && !p.client.server && p.server.moved == p.client.moved == []
    && p.server.at == server && p.client.at == client
    && IsConfig(p.server.config) && IsConfig(p.client.config)
  }

  predicate SecurityOK(c: Config) { c.security == INSECURE || c.security == TLS }

  lemma SecurityStage(p: Pair)
    requires At(p, GetSecurity, PutSecurity)
    ensures var security := p.client.config.security;
      var asked, okay := Command(COMMAND_SECURITY, security), Command(COMMAND_OKAY, 0);
      if SecurityOK(p.client.config)
      then Reaches(p, Pair(p.server.(at := PutCommand(0), security := security), p.client.(at := GetCommand)), asked, okay)
      else Reaches(p, Pair(p.server.(at := Failed), p.client.(at := GetOkay)), asked, [])
  {
    hide Reaches, Command, CommandOf, UserInfoOf;
    var security := p.client.config.security;
    CommandRoundTrip(COMMAND_SECURITY, security);
    ClientMessage(p, Command(COMMAND_SECURITY, security));
    if SecurityOK(p.client.config) {
      var q := Pair(p.server.(at := PutOkay, security := security), p.client.(at := GetOkay));
      CommandRoundTrip(COMMAND_OKAY, 0);
      ServerMessage(q, Command(COMMAND_OKAY, 0));
      ServerGoesOn(p, q, Pair(q.server.(at := PutCommand(0)), q.client.(at := GetCommand)),
                   Command(COMMAND_SECURITY, security), [], Command(COMMAND_OKAY, 0));
      assert [] + Command(COMMAND_OKAY, 0) == Command(COMMAND_OKAY, 0);
    }
  }

  /** The server's i-th command, and what the client takes it to be. */
  lemma CommandStage(p: Pair, i: nat)
    requires At(p, PutCommand(i), GetCommand)
    ensures var q :=
        if i == 0 then Pair(ExchangeRound(p.server, 0), ExchangeRound(p.client, 0))
        else if i == 1 then Pair(Sample(p.server, SIXTEEN_MEGABYTES), Sample(p.client, SIXTEEN_MEGABYTES))
        else Pair(p.server.(at := PutHello), p.client.(at := GetHello));
      Reaches(p, q, [], ServerCommand(i))
  {
    hide Reaches, Command, CommandOf, UserInfoOf, ExchangeRound, Sample;
    CommandRoundTrip(COMMAND_IF_EXCHANGE, 0);
    CommandRoundTrip(COMMAND_SAMPLE, SIXTEEN_MEGABYTES);
    CommandRoundTrip(COMMAND_INIT, 0);
    ServerMessage(p, ServerCommand(i));
  }

  /** A party that has read the other's prefix and address. */
  function Informed(p: Party, other: Config): Party {
    p.(remote := Prefix(other), remoteAddress := other.address)
  }

  /** The server's half of the interface exchange. */
  lemma ServerTellsStage(p: Pair)
    requires At(p, PutPrefix(0), GetPrefix(0))
    ensures var c := p.server.config;
      if c.family.Other?
      then Reaches(p, Pair(p.server.(at := GetPrefix(1)), p.client.(at := Failed)), [], Prefix(c))
      else Reaches(p, Pair(p.server.(at := GetPrefix(1)), Informed(p.client, c).(at := PutPrefix(1))), [],
                   Prefix(c) + c.address)
  {
    hide Reaches, Prefix;
    var c := p.server.config;
    PrefixRoundTrip(c);
    ServerMessage(p, Prefix(c));
    if !c.family.Other? {
      var q := Pair(
        p.server.(at := PutAddress(0)), p.client.(at := GetAddress(0, ApType(c.family)), remote := Prefix(c)));
      ServerMessage(q, c.address);
      ServerGoesOn(p, q, Pair(p.server.(at := GetPrefix(1)), Informed(p.client, c).(at := PutPrefix(1))),
                   [], Prefix(c), c.address);
    }
  }

  lemma ClientTellsStage(p: Pair)
    requires At(p, GetPrefix(1), PutPrefix(1))
    ensures var c := p.client.config;
      if c.family.Other?
      then Reaches(p, Pair(p.server.(at := Failed), p.client.(at := GetCommand)), Prefix(c), [])
      else Reaches(p, Pair(CommandDone(Informed(p.server, c)), p.client.(at := GetCommand)), Prefix(c) + c.address, [])
  {
    hide Reaches, Prefix;
    var c := p.client.config;
    PrefixRoundTrip(c);
    ClientMessage(p, Prefix(c));
    if !c.family.Other? {
      var q := Pair(
        p.server.(at := GetAddress(1, ApType(c.family)), remote := Prefix(c)), p.client.(at := PutAddress(1)));
      ClientMessage(q, c.address);
      ClientGoesOn(p, q, Pair(CommandDone(Informed(p.server, c)), p.client.(at := GetCommand)), Prefix(c), [], c.address);
    }
  }

  const HALF := SIXTEEN_MEGABYTES / 2

  function Sampled(p: Party): Party {
    p.(sampleSent := p.sampleSent + HALF, sampleGot := p.sampleGot + HALF)
  }

  lemma SampleStage(p: Pair)
    requires At(p, PutSample(0, HALF), GetSample(0, HALF))
    ensures Reaches(p, Pair(CommandDone(Sampled(p.server)), Sampled(p.client).(at := GetCommand)),
                    Noise(p.client.config, HALF), Noise(p.server.config, HALF))
  {
    hide Reaches, Noise;
    var s, c := Noise(p.server.config, HALF), Noise(p.client.config, HALF);
    ServerMessage(p, s);
    var q := Pair(
      p.server.(at := GetSample(1, HALF), sampleSent := p.server.sampleSent + HALF),
      p.client.(at := PutSample(1, HALF), sampleGot := p.client.sampleGot + HALF));
    ClientMessage(q, c);
    ClientGoesOn(p, q, Pair(CommandDone(Sampled(p.server)), Sampled(p.client).(at := GetCommand)), [], s, c);
    assert [] + c == c;
  }

  /** Where the two hellos leave the parties: the server with the even ids, the client with the odd ones. */
  function Greeted(p: Pair): Pair {
    Pair(p.server.(at := Finished, even := true, lastID := PlexerWire.LastID(true)),
         p.client.(at := Finished, even := false, lastID := PlexerWire.LastID(false)))
  }

  lemma HelloStage(p: Pair)
    requires At(p, PutHello, GetHello)
    ensures Reaches(p, Greeted(p), SLAVE_HELLO + EncodeLE(PLEXER_VERSION, 4), MASTER_HELLO + Initializer(true))
  {
    hide Reaches, Initializer, EncodeLE;
    ServerMessage(p, MASTER_HELLO);
    var q := Pair(p.server.(at := GetHello), p.client.(at := PutHello));
    ClientMessage(q, SLAVE_HELLO);
    var r := Pair(
      p.server.(at := PutInitializer, even := true, lastID := PlexerWire.LastID(true)), p.client.(at := GetInitializer));
    ClientGoesOn(p, q, r, [], MASTER_HELLO, SLAVE_HELLO);
    assert [] + SLAVE_HELLO == SLAVE_HELLO;
    AckStage(r);
    ReachesTransitive(p, r, Greeted(p), SLAVE_HELLO, MASTER_HELLO, EncodeLE(PLEXER_VERSION, 4), Initializer(true));
  }

  lemma AckRoundTrip()
    ensures DecodeLE(EncodeLE(PLEXER_VERSION, 4)) == PLEXER_VERSION
  {
    Capacities();
    DecodeEncodeLE(PLEXER_VERSION, 4);
  }

  lemma AckStage(p: Pair)
    requires At(p, PutInitializer, GetInitializer) && p.server.even
    ensures Reaches(p, Pair(
        p.server.(at := Finished), p.client.(at := Finished, even := false, lastID := PlexerWire.LastID(false))),
      EncodeLE(PLEXER_VERSION, 4), Initializer(true))
  {
    hide Reaches, Initializer, EncodeLE, DecodeLE, Capacity;
    InitializerRoundTrip(true);
    ServerMessage(p, Initializer(true));
    var q := Pair(
      p.server.(at := GetAck), p.client.(at := PutAck(true), even := false, lastID := PlexerWire.LastID(false)));
    AckRoundTrip();
    ClientMessage(q, EncodeLE(PLEXER_VERSION, 4));
    ClientGoesOn(p, q, Pair(q.server.(at := Finished), q.client.(at := Finished)),
                 [], Initializer(true), EncodeLE(PLEXER_VERSION, 4));
    assert [] + EncodeLE(PLEXER_VERSION, 4) == EncodeLE(PLEXER_VERSION, 4);
  }

  // ---- The whole setup ----

  predicate IsIP(c: Config) { !c.family.Other? }

  /** What it takes for the setup to succeed. */
  predicate Compatible(server: Config, client: Config) { SecurityOK(client) && IsIP(server) && IsIP(client) }

  function Both(server: Config, client: Config): Pair { Pair(Start(server, true), Start(client, false)) }

  /** What a successful setup leaves an end with; the peer's prefix is its address family and its interface. */
  function Established(me: Config, other: Config, server: bool): Party {
    Party(me, server, Finished, [], if server then 2 else 0, if server then other.security else me.security,
          TypeBytes(other.family) + other.interface, other.address, 0x80_0000, 0x80_0000,
          server, if server then 0xFFFF_FFFF_FFFF_FFFE else 0xFFFF_FFFF_FFFF_FFFF)
  }

  /** All that the server writes in a setup that succeeds: every command, and what each calls for. */
  function ServerSays(c: Config): seq<byte> {
    [255, 255, 255, 255, 0, 0, 0, 0]
      + [252, 255, 255, 255, 0, 0, 0, 0] + (TypeBytes(c.family) + c.interface + c.address)
      + [251, 255, 255, 255, 0, 0, 0, 1] + Noise(c, 0x80_0000)
      + [0, 0, 0, 128, 0, 0, 0, 0] + MASTER_HELLO
      + [1, 0, 0, 0, 0, 0, 0, 0, 255, 255, 255, 255, 255, 255, 255, 255, 1, 0, 0, 0, 0, 0, 0, 0]
  }

  /** All that the client writes. */
  function ClientSays(c: Config): seq<byte>
    requires SecurityOK(c)
  {
    [253, 255, 255, 255, c.security, 0, 0, 0]
      + (TypeBytes(c.family) + c.interface + c.address)
      + Noise(c, 0x80_0000) + SLAVE_HELLO + [1, 0, 0, 0]
  }

  lemma CommandBytes(security: nat)
    ensures Command(COMMAND_OKAY, 0) == [255, 255, 255, 255, 0, 0, 0, 0]
    ensures security <= 1 ==> Command(COMMAND_SECURITY, security) == [253, 255, 255, 255, security, 0, 0, 0]
    ensures ServerCommand(0) == [252, 255, 255, 255, 0, 0, 0, 0]
    ensures ServerCommand(1) == [251, 255, 255, 255, 0, 0, 0, 1]
    ensures ServerCommand(2) == [0, 0, 0, 128, 0, 0, 0, 0]
  {
    hide EncodeLE;
    SmallInt32(-1);
    SmallInt32(-3);
    SmallInt32(-4);
    SmallInt32(-5);
    assert (-0x8000_0000) % TWO_TO_32 == 0x8000_0000;
    LittleEndian4(0x8000_0000);
    LittleEndian4(0);
    LittleEndian4(security);
    LittleEndian4(SIXTEEN_MEGABYTES);
  }

  lemma AllOnes()
    ensures EncodeLE(PlexerWire.ID_MAX, 8) == [255, 255, 255, 255, 255, 255, 255, 255]
  {
    hide EncodeLE;
    LittleEndian8(PlexerWire.ID_MAX);
    assert PlexerWire.ID_MAX as int / 0x1_0000_0000 == 0xFFFF_FFFF;
  }

  lemma HelloBytes()
    ensures Initializer(true)
         == [1, 0, 0, 0, 0, 0, 0, 0, 255, 255, 255, 255, 255, 255, 255, 255, 1, 0, 0, 0, 0, 0, 0, 0]
    ensures EncodeLE(PLEXER_VERSION, 4) == [1, 0, 0, 0]
  {
    hide EncodeLE;
    LittleEndian4(PLEXER_VERSION);
    AllOnes();
  }

  /** The first command with both parties on IP. */
  lemma ExchangeSucceeds(p: Pair)
    requires At(p, PutCommand(0), GetCommand) && IsIP(p.server.config) && IsIP(p.client.config)
    ensures var s, c := p.server.config, p.client.config;
      Reaches(p, Pair(CommandDone(Informed(p.server, c)), Informed(p.client, s).(at := GetCommand)),
              Prefix(c) + c.address, ServerCommand(0) + (Prefix(s) + s.address))
  {
    hide Reaches, Prefix, Then, IoOf, ServerCommand;
    var s, c := p.server.config, p.client.config;
    CommandStage(p, 0);
    var q := Pair(p.server.(at := PutPrefix(0)), p.client.(at := GetPrefix(0)));
    ServerTellsStage(q);
    var r := Pair(q.server.(at := GetPrefix(1)), Informed(q.client, s).(at := PutPrefix(1)));
    ServerGoesOn(p, q, r, [], ServerCommand(0), Prefix(s) + s.address);
    ClientTellsStage(r);
    ClientGoesOn(p, r, Pair(CommandDone(Informed(r.server, c)), r.client.(at := GetCommand)),
                 [], ServerCommand(0) + (Prefix(s) + s.address), Prefix(c) + c.address);
    assert [] + (Prefix(c) + c.address) == Prefix(c) + c.address;
  }

  lemma SampleSucceeds(p: Pair)
    requires At(p, PutCommand(1), GetCommand)
    ensures Reaches(p, Pair(CommandDone(Sampled(p.server)), Sampled(p.client)),
                    Noise(p.client.config, HALF), ServerCommand(1) + Noise(p.server.config, HALF))
  {
    hide Reaches, Then, IoOf, Noise, ServerCommand;
    CommandStage(p, 1);
    var q := Pair(p.server.(at := PutSample(0, HALF)), p.client.(at := GetSample(0, HALF)));
    SampleStage(q);
    ReachesTransitive(p, q, Pair(CommandDone(Sampled(p.server)), Sampled(p.client)),
                      [], ServerCommand(1), Noise(p.client.config, HALF), Noise(p.server.config, HALF));
    assert [] + Noise(p.client.config, HALF) == Noise(p.client.config, HALF);
  }

  lemma InitSucceeds(p: Pair)
    requires At(p, PutCommand(2), GetCommand)
    ensures Reaches(p, Greeted(p), SLAVE_HELLO + EncodeLE(PLEXER_VERSION, 4),
                    ServerCommand(2) + (MASTER_HELLO + Initializer(true)))
  {
    hide Reaches, Then, IoOf, ServerCommand, EncodeLE, Initializer;
    CommandStage(p, 2);
    var q := Pair(p.server.(at := PutHello), p.client.(at := GetHello));
    HelloStage(q);
    var x := SLAVE_HELLO + EncodeLE(PLEXER_VERSION, 4);
    ReachesTransitive(p, q, Greeted(p), [], ServerCommand(2), x, MASTER_HELLO + Initializer(true));
    assert [] + x == x;
  }

  /** What the two write from the second command on. */
  function ClientRest(c: Config): seq<byte> { Noise(c, HALF) + (SLAVE_HELLO + EncodeLE(PLEXER_VERSION, 4)) }

  function ServerRest(c: Config): seq<byte> {
    (ServerCommand(1) + Noise(c, HALF)) + (ServerCommand(2) + (MASTER_HELLO + Initializer(true)))
  }

  lemma RestSucceeds(p: Pair)
    requires At(p, PutCommand(1), GetCommand) && p.server.done == 1
    ensures Reaches(p, Greeted(Pair(Sampled(p.server).(done := 2), Sampled(p.client))),
                    ClientRest(p.client.config), ServerRest(p.server.config))
  {
    hide Reaches, Then, IoOf, Noise, ServerCommand, EncodeLE, Initializer;
    SampleSucceeds(p);
    var q := Pair(CommandDone(Sampled(p.server)), Sampled(p.client));
    InitSucceeds(q);
    ReachesTransitive(p, q, Greeted(q),
                      Noise(p.client.config, HALF), ServerCommand(1) + Noise(p.server.config, HALF),
                      SLAVE_HELLO + EncodeLE(PLEXER_VERSION, 4), ServerCommand(2) + (MASTER_HELLO + Initializer(true)));
  }

  lemma ServerSaysIt(c: Config)
    requires IsConfig(c)
    ensures Command(COMMAND_OKAY, 0) + (ServerCommand(0) + (Prefix(c) + c.address)) + ServerRest(c) == ServerSays(c)
  {
    CommandBytes(0);
    HelloBytes();
    PrefixIs(c);
    hide Command, ServerCommand, Prefix, Initializer, Noise, EncodeLE, TypeBytes;
  }

  lemma ClientSaysIt(c: Config)
    requires IsConfig(c) && SecurityOK(c)
    ensures Command(COMMAND_SECURITY, c.security) + (Prefix(c) + c.address) + ClientRest(c) == ClientSays(c)
  {
    CommandBytes(c.security);
    HelloBytes();
    PrefixIs(c);
    hide Command, ServerCommand, Prefix, Initializer, Noise, EncodeLE, TypeBytes;
  }

  lemma SetupSucceeds(server: Config, client: Config)
    requires IsConfig(server) && IsConfig(client) && Compatible(server, client)
    ensures Reaches(Both(server, client),
                    Pair(Established(server, client, true), Established(client, server, false)),
                    ClientSays(client), ServerSays(server))
  {
    var start := Both(server, client);
    hide Reaches, Prefix, Then, IoOf, Command, ServerCommand, ClientSays, ServerSays, ClientRest, ServerRest;
    var asked, okay := Command(COMMAND_SECURITY, client.security), Command(COMMAND_OKAY, 0);
    SecurityStage(start);
    var p := Pair(start.server.(at := PutCommand(0), security := client.security), start.client.(at := GetCommand));
    ExchangeSucceeds(p);
    var q := Pair(CommandDone(Informed(p.server, client)), Informed(p.client, server));
    var x, y := Prefix(client) + client.address, ServerCommand(0) + (Prefix(server) + server.address);
    ReachesTransitive(start, p, q, asked, okay, x, y);
    RestSucceeds(q);
    PrefixIs(server);
    PrefixIs(client);
    ReachesTransitive(start, q, Pair(Established(server, client, true), Established(client, server, false)),
                      asked + x, okay + y, ClientRest(client), ServerRest(server));
    ClientSaysIt(client);
    ServerSaysIt(server);
  }

  lemma AddressesFail(p: Pair) returns (end: Pair, x: seq<byte>, y: seq<byte>)
    requires At(p, PutCommand(0), GetCommand) && !(IsIP(p.server.config) && IsIP(p.client.config))
    ensures Reaches(p, end, x, y) && Over(end) && Resting(end)
    ensures end.server.at.Failed? <==> IsIP(p.server.config)
    ensures end.client.at.Failed? <==> !IsIP(p.server.config)
  {
    hide Reaches, Prefix, Then, ServerCommand;
    var s, c := p.server.config, p.client.config;
    CommandStage(p, 0);
    var q := Pair(p.server.(at := PutPrefix(0)), p.client.(at := GetPrefix(0)));
    ServerTellsStage(q);
    if !IsIP(s) {
      end, x, y := Pair(q.server.(at := GetPrefix(1)), q.client.(at := Failed)), [], ServerCommand(0) + Prefix(s);
      ServerGoesOn(p, q, end, [], ServerCommand(0), Prefix(s));
    } else {
      var r := Pair(q.server.(at := GetPrefix(1)), Informed(q.client, s).(at := PutPrefix(1)));
      ServerGoesOn(p, q, r, [], ServerCommand(0), Prefix(s) + s.address);
      ClientTellsStage(r);
      end := Pair(r.server.(at := Failed), r.client.(at := GetCommand));
      x, y := [] + Prefix(c), ServerCommand(0) + (Prefix(s) + s.address);
      ClientGoesOn(p, r, end, [], y, Prefix(c));
    }
  }

  lemma SetupFails(server: Config, client: Config) returns (end: Pair, x: seq<byte>, y: seq<byte>)
    requires IsConfig(server) && IsConfig(client) && !Compatible(server, client)
    ensures Reaches(Both(server, client), end, x, y) && Over(end) && Resting(end)
    ensures end.server.at.Failed? <==> !SecurityOK(client) || IsIP(server)
    ensures end.client.at.Failed? <==> SecurityOK(client) && !IsIP(server)
  {
    var start := Both(server, client);
    hide Reaches, Prefix, Then, Command;
    SecurityStage(start);
    var asked, okay := Command(COMMAND_SECURITY, client.security), Command(COMMAND_OKAY, 0);
    if !SecurityOK(client) {
      end, x, y := Pair(start.server.(at := Failed), start.client.(at := GetOkay)), asked, [];
    } else {
      var p := Pair(start.server.(at := PutCommand(0), security := client.security), start.client.(at := GetCommand));
      end, x, y := AddressesFail(p);
      ReachesTransitive(start, p, end, asked, okay, x, y);
      x, y := asked + x, okay + y;
    }
  }

  /** What an end has learnt of the other: its family, the rest of its prefix, and its address. */
  predicate Knows(p: Party, other: Config) {
    && |p.remote| == 72 && p.remote[..4] == (if other.family.V4? then [1, 0, 0, 0] else [2, 0, 0, 0])
    && p.remote[4..] == other.interface && p.remoteAddress == other.address
  }

  /** How a setup ends: with both ends through, or with exactly one of them failing. */
  ghost predicate Outcome(server: Config, client: Config, end: Pair) {
    && (end.server.at.Finished? && end.client.at.Finished? <==> Compatible(server, client))
    && (Compatible(server, client) ==>
         && end == Pair(Established(server, client, true), Established(client, server, false))
         && Knows(end.server, client) && Knows(end.client, server))
    && (!Compatible(server, client) ==>
         && (end.server.at.Failed? <==> !SecurityOK(client) || IsIP(server))
         && (end.client.at.Failed? <==> SecurityOK(client) && !IsIP(server)))
  }

  lemma OverWhenFinished(p: Pair)
    requires p.server.at.Finished? && p.client.at.Finished?
    ensures Over(p) && Resting(p)
  {
  }

  lemma EstablishedKnows(me: Config, other: Config, server: bool)
    requires IsConfig(other) && IsIP(other)
    ensures Knows(Established(me, other, server), other)
  {
  }

  lemma SetupInLockstep(server: Config, client: Config) returns (n: nat, end: Pair, x: seq<byte>, y: seq<byte>)
    requires IsConfig(server) && IsConfig(client)
    ensures Joined(Both(server, client), n, end) && Over(end) && Outcome(server, client, end)
    ensures Exchanges(Both(server, client), end, x, y) && Resting(end)
    ensures Compatible(server, client) ==> x == ClientSays(client) && y == ServerSays(server)
  {
    hide Joined, Exchanges, Then, IoOf, Gives, Takes, Both, Prefix, Resting, Over, Knows, ClientSays, ServerSays;
    if Compatible(server, client) {
      SetupSucceeds(server, client);
      end := Pair(Established(server, client, true), Established(client, server, false));
      x, y := ClientSays(client), ServerSays(server);
      EstablishedKnows(server, client, true);
      EstablishedKnows(client, server, false);
      OverWhenFinished(end);
    } else {
      end, x, y := SetupFails(server, client);
    }
    n :| Joined(Both(server, client), n, end);
  }

  /**
   Every run of the two parties over the channels comes to its end, and there both are through exactly when the
   client asks for a security there is and both addresses are IP addresses. Each then knows the other's interface
   and address, has sampled half the length each way, and has its own parity of stream ids.
   */
  lemma SetupOutcome(server: Config, client: Config, moves: seq<Move>)
    requires IsConfig(server) && IsConfig(client) && Stuck(Run(Both(server, client), moves))
    ensures var net := Run(Both(server, client), moves);
      net.toServer == net.toClient == [] && Outcome(server, client, Pair(net.server, net.client))
  {
    var n, end, _, _ := SetupInLockstep(server, client);
    hide Run, Stuck, Lockstep, Meets, Gives, Takes, Outcome, Both;
    StuckOnlyAtTheEnd(Both(server, client), n, moves);
  }

  /** There is a bound on how many moves any run of a setup can make. */
  lemma SetupEnds(server: Config, client: Config) returns (bound: nat)
    requires IsConfig(server) && IsConfig(client)
    ensures forall moves :: Effective(Both(server, client), moves) <= bound
  {
    var n, end, _, _ := SetupInLockstep(server, client);
    hide Run, Lockstep, Meets, Gives, Takes, Effective, Both, Outcome;
    bound := 2 * n;
    forall moves ensures Effective(Both(server, client), moves) <= bound {
      RunsAreBounded(Both(server, client), n, moves);
    }
  }

  /**
   The two ends as separate programs. There is exactly one pair of byte strings such that each end, played against
   what it reads, writes what the other reads; and so played, the ends come to the outcome of every channel run. Where
   the setup succeeds these are the bytes written out above.
   */
  lemma PlaysOutcome(server: Config, client: Config) returns (x: seq<byte>, y: seq<byte>)
    requires IsConfig(server) && IsConfig(client)
    ensures forall u, v :: Feeds(Both(server, client), u, v) <==> u == x && v == y
    ensures var s, c := Play(Start(server, true), x), Play(Start(client, false), y);
            s.rest == c.rest == [] && Outcome(server, client, Pair(s.party, c.party))
    ensures Compatible(server, client) ==> x == ClientSays(client) && y == ServerSays(server)
  {
    var n, end;
    n, end, x, y := SetupInLockstep(server, client);
    hide Joined, Exchanges, Then, IoOf, Gives, Takes, Prefix, Resting, Over, Outcome, Play, Feeds, Start, ClientSays,
      ServerSays;
    PlaysEnd(Both(server, client), end, x, y, x, y);
    forall u, v ensures Feeds(Both(server, client), u, v) <==> u == x && v == y {
      PlaysEnd(Both(server, client), end, x, y, u, v);
    }
  }

  // ---- Between commands ----

  /** The server writes only in first rounds. */
  predicate WritesFirst(p: Party) {
    && p.server
    && (p.at.PutPrefix? || p.at.PutAddress? ==> p.at.round == 0)
    && (p.at.PutSample? ==> p.at.round == 0 && p.at.half > 0)
  }

  predicate AboutToCommand(p: Party) { p.at.PutCommand? && p.at.i > 0 && p.moved == [] }

  lemma WritingDoesNotEndACommand(p: Party)
    requires WritesFirst(p) && Gives(p)
    ensures WritesFirst(Gave(p)) && !AboutToCommand(Gave(p))
  {
    hide Command, Prefix, Noise, Initializer;
  }

  lemma ReadingKeepsWritesFirst(p: Party, b: byte)
    requires WritesFirst(p) && Takes(p)
    ensures WritesFirst(Took(p, b))
  {
    hide Command, Prefix, Noise, Initializer, CommandOf, UserInfoOf, DecodeLE;
  }

  lemma {:induction false} ServerWritesFirst(p: Pair, n: nat)
    requires p.server == Start(p.server.config, true)
    ensures WritesFirst(Lockstep(p, n).server)
  {
    hide Gives, Takes, Gave, Took, Given, WritesFirst;
    if n == 0 {
      StartWritesFirst(p.server.config);
    } else {
      ServerWritesFirst(p, n - 1);
      var q := Lockstep(p, n - 1);
      if Gives(q.server) && Takes(q.client) {
        WritingDoesNotEndACommand(q.server);
      } else if Gives(q.client) && Takes(q.server) {
        ReadingKeepsWritesFirst(q.server, Given(q.client));
      }
    }
  }

  lemma StartWritesFirst(c: Config)
    ensures WritesFirst(Start(c, true)) && !AboutToCommand(Start(c, true))
  {
  }

  lemma AboutToCommandGives(p: Party)
    requires AboutToCommand(p)
    ensures Gives(p)
  {
  }

  /** The server comes to a later command by reading the client's part of the one before. */
  lemma CommandFollowsAReading(p: Pair, end: nat, m: nat)
    requires p.server == Start(p.server.config, true) && MeetsUntil(p, end) && m <= end
    requires AboutToCommand(Lockstep(p, m).server)
    ensures m > 0 && Gives(Lockstep(p, m - 1).client)
  {
    StartWritesFirst(p.server.config);
    hide Gives, Takes, Gave, Took, Given, WritesFirst, AboutToCommand, Start;
    if m > 0 {
      var q := Lockstep(p, m - 1);
      assert Meets(q);
      if Gives(q.server) {
        ServerWritesFirst(p, m - 1);
        WritingDoesNotEndACommand(q.server);
        StepOfServer(q);
        assert false;
      }
    }
  }

  /** Whenever the server is about to give its second or third command, nothing is on the way. */
  lemma ChannelsAreEmptyBetweenCommands(server: Config, client: Config, moves: seq<Move>)
    requires IsConfig(server) && IsConfig(client) && AboutToCommand(Run(Both(server, client), moves).server)
    ensures var net := Run(Both(server, client), moves);
      net.toServer == net.toClient == [] && Takes(net.client)
  {
    var start := Both(server, client);
    var end, last, _, _ := SetupInLockstep(server, client);
    hide Gives, Takes, Gave, Took, Given, Run, Lockstep, Both, Outcome, AboutToCommand;
    RunIsDelayedLockstep(start, end, moves);
    var net := Run(start, moves);
    var m, n := net.serverMoved, net.clientMoved;
    assert start.server == Start(start.server.config, true) by {
      StartOfBoth(server, client);
    }
    CommandFollowsAReading(start, end, m);
    AboutToCommandGives(net.server);
    StepOfClient(Lockstep(start, m - 1));
    assert m < end;
    StepOfServer(Lockstep(start, m));
    assert m == n;
  }

  lemma StartOfBoth(server: Config, client: Config)
    ensures Both(server, client).server == Start(server, true)
    ensures Both(server, client).server.config == server
  {
  }
}
