/** Exactly which byte strings make a setup succeed, read as one end reads them. */
module ConnectionLanguage {
  import opened Bytes
  import opened ConnectionParty
  import opened ConnectionPlay
  import opened ConnectionSteps
  import PlexerWire

  /** What is left behind a prefix of 72 bytes with an IP family, and an address of that family with its port. */
  function PastIntroduction(b: seq<byte>): (r: Option<seq<byte>>)
    ensures r.Some? ==> |r.value| < |b|
  {
    if |b| < 72 || (b[..4] != [1, 0, 0, 0] && b[..4] != [2, 0, 0, 0]) then None
    else
      var n := 72 + if b[..4] == [1, 0, 0, 0] then 4 + 2 else 16 + 2;
      if |b| < n then None else Some(b[n..])
  }

  /** The slave's hello and a version number of at most 1. */
  predicate GreetsMaster(b: seq<byte>) {
    && SLAVE_HELLO <= b && |b| >= |SLAVE_HELLO| + 4
    && b[|SLAVE_HELLO|..|SLAVE_HELLO| + 4] in {[0, 0, 0, 0], [1, 0, 0, 0]}
  }

  /** The master's hello and an initializer that begins with a version number of at most 1. */
  predicate GreetsSlave(b: seq<byte>) {
    && MASTER_HELLO <= b && |b| >= |MASTER_HELLO| + 24
    && b[|MASTER_HELLO|..|MASTER_HELLO| + 4] in {[0, 0, 0, 0], [1, 0, 0, 0]}
  }

  /** What a server has to read: a request for security 0 or 1, an introduction, half the sample, and the greeting. */
  predicate ServerContent(b: seq<byte>) {
    && |b| >= 8 && b[..4] == [253, 255, 255, 255] && b[4..8] in {[0, 0, 0, 0], [1, 0, 0, 0]}
    && var r := PastIntroduction(b[8..]);
       r.Some? && |r.value| >= 0x80_0000 && GreetsMaster(r.value[0x80_0000..])
  }

  /** What a client's loop has to read: exchanges and samples in any order, and then a greeting. */
  predicate ClientObeys(b: seq<byte>)
    decreases |b|
  {
    && |b| >= 8
    && if b[..4] == [252, 255, 255, 255] then
         var r := PastIntroduction(b[8..]);
         r.Some? && ClientObeys(r.value)
       else if b[..4] == [251, 255, 255, 255] then
         var length := DecodeLE(b[4..8]);
         if length % 16384 != 0 then ClientObeys(b[8..])
         else |b[8..]| >= length / 2 && ClientObeys(b[8..][length / 2..])
       else b[..4] == [0, 0, 0, 128] && GreetsSlave(b[8..])
  }

  /** Whatever comes with an okay is not looked at. */
  predicate ClientContent(b: seq<byte>) { |b| >= 8 && b[..4] == [255, 255, 255, 255] && ClientObeys(b[8..]) }

  // ---- One message at a time ----

  predicate Finishes(p: Party, b: seq<byte>) { Play(p, b).party.at.Finished? }

  lemma Puts(p: Party, m: seq<byte>, b: seq<byte>)
    requires IoOf(p) == Io.Put(m)
    ensures Finishes(p, b) == Finishes(Then(p, []), b)
  {
    PlayPut(p, m, b);
    hide Play, Then, IoOf;
  }

  lemma Gets(p: Party, n: nat, b: seq<byte>)
    requires IoOf(p) == Io.Get(n)
    ensures |b| < n ==> !Finishes(p, b)
    ensures |b| >= n ==> Finishes(p, b) == Finishes(Then(p, b[..n]), b[n..])
  {
    if |b| < n {
      PlayStops(p, b);
      assert !p.at.Finished?;
    } else {
      PlayGet(p, b[..n], b[n..]);
      assert b == b[..n] + b[n..];
    }
    hide Play, Then, IoOf;
  }

  lemma Fails(p: Party, b: seq<byte>)
    requires p.at.Failed?
    ensures !Finishes(p, b)
  {
    PlayStops(p, b);
  }

  lemma SmallVersions(m: seq<byte>)
    requires |m| == 4
    ensures DecodeLE(m) <= 1 <==> m in {[0, 0, 0, 0], [1, 0, 0, 0]}
  {
    hide EncodeLE, DecodeLE, Capacity;
    EncodeDecodeLE(m);
    LittleEndian4(0);
    LittleEndian4(1);
    Capacities();
    DecodeEncodeLE(0, 4);
    DecodeEncodeLE(1, 4);
  }

  lemma IsCode(m: seq<byte>, x: int)
    requires |m| == 4 && IsInt32(x)
    ensures DecodeInt32(m) == x <==> m == EncodeInt32(x)
  {
    hide EncodeInt32, DecodeInt32;
    EncodeDecodeInt32(m);
    DecodeEncodeInt32(x);
  }

  lemma InitCode()
    ensures EncodeInt32(COMMAND_INIT) == [0, 0, 0, 128]
  {
    hide EncodeLE;
    assert COMMAND_INIT % TWO_TO_32 == 0x8000_0000;
    LittleEndian4(0x8000_0000);
  }

  /** The command codes, byte by byte. */
  lemma CommandCodes(m: seq<byte>)
    requires |m| == 8
    ensures CommandOf(m) == COMMAND_OKAY <==> m[..4] == [255, 255, 255, 255]
    ensures CommandOf(m) == COMMAND_SECURITY <==> m[..4] == [253, 255, 255, 255]
    ensures CommandOf(m) == COMMAND_IF_EXCHANGE <==> m[..4] == [252, 255, 255, 255]
    ensures CommandOf(m) == COMMAND_SAMPLE <==> m[..4] == [251, 255, 255, 255]
    ensures CommandOf(m) == COMMAND_INIT <==> m[..4] == [0, 0, 0, 128]
    ensures UserInfoOf(m) in {INSECURE, TLS} <==> m[4..8] in {[0, 0, 0, 0], [1, 0, 0, 0]}
    ensures UserInfoOf(m) == DecodeLE(m[4..8])
  {
    hide EncodeInt32, DecodeInt32, DecodeLE;
    assert m[4..8] == m[4..];
    SmallVersions(m[4..8]);
    SmallInt32(COMMAND_OKAY);
    SmallInt32(COMMAND_SECURITY);
    SmallInt32(COMMAND_IF_EXCHANGE);
    SmallInt32(COMMAND_SAMPLE);
    InitCode();
    IsCode(m[..4], COMMAND_OKAY);
    IsCode(m[..4], COMMAND_SECURITY);
    IsCode(m[..4], COMMAND_IF_EXCHANGE);
    IsCode(m[..4], COMMAND_SAMPLE);
    IsCode(m[..4], COMMAND_INIT);
  }

  lemma FamilyCodes(m: seq<byte>)
    requires |m| == 4
    ensures DecodeInt32(m) == AP_IPV4 <==> m == [1, 0, 0, 0]
    ensures DecodeInt32(m) == AP_IPV6 <==> m == [2, 0, 0, 0]
  {
    hide EncodeInt32, DecodeInt32;
    SmallInt32(AP_IPV4);
    SmallInt32(AP_IPV6);
    IsCode(m, AP_IPV4);
    IsCode(m, AP_IPV6);
  }

  // ---- The parts of a setup ----

  /** Where a part of the program leads, as far as what it does next goes. */
  ghost predicate Leads(p: Party, q: Party, to: Party) {
    q.at == to.at && q.done == to.done && q.server == p.server && q.config == p.config
  }

  lemma Tells(p: Party, round: nat, b: seq<byte>) returns (q: Party)
    requires IsConfig(p.config) && p.at == PutPrefix(round)
    ensures Leads(p, q, ExchangeRound(p, round + 1)) && Finishes(p, b) == Finishes(q, b)
  {
    hide Prefix, ExchangeRound, Then, IoOf, Finishes;
    TellSteps(p, round);
    Puts(p, Prefix(p.config), b);
    q := Then(p, []);
    if !p.config.family.Other? {
      Puts(q, p.config.address, b);
      q := Then(q, []);
    }
  }

  /** Hearing an introduction: it fails where there is none, and goes on behind it. */
  lemma Hears(p: Party, round: nat, b: seq<byte>) returns (q: Party)
    requires p.at == GetPrefix(round)
    ensures PastIntroduction(b).None? ==> !Finishes(p, b)
    ensures PastIntroduction(b).Some? ==>
      Leads(p, q, ExchangeRound(p, round + 1)) && Finishes(p, b) == Finishes(q, PastIntroduction(b).value)
  {
    hide Then, IoOf, Finishes, DecodeInt32, ExchangeRound;
    HearIo(p, round);
    Gets(p, PREFIX, b);
    q := p;
    if |b| >= 72 {
      var prefix, rest := b[..72], b[72..];
      assert prefix[..4] == b[..4];
      HearSteps(p, round, prefix);
      FamilyCodes(prefix[..4]);
      var apType := DecodeInt32(prefix[..4]);
      q := Then(p, prefix);
      if apType != AP_IPV4 && apType != AP_IPV6 {
        Fails(q, rest);
      } else {
        var n := AddressLength(apType);
        Gets(q, n, rest);
        if |rest| >= n {
          HearAddress(p, round, prefix, rest[..n]);
          q := Then(q, rest[..n]);
          assert rest[n..] == b[72 + n..];
        }
      }
    }
  }

  lemma SampleRoundIs(p: Party, round: nat, half: nat)
    ensures round < 2 && half > 0 ==>
      SampleRound(p, round, half) ==
        p.(at := if (round == 0) == p.server then PutSample(round, half) else GetSample(round, half))
    ensures round >= 2 || half == 0 ==> SampleRound(p, round, half) == CommandDone(p)
  {
  }

  lemma SampleRoundOf(p: Party, q: Party, round: nat, half: nat)
    requires q.done == p.done && q.server == p.server
    ensures SampleRound(q, round, half).at == SampleRound(p, round, half).at
    ensures SampleRound(q, round, half).done == SampleRound(p, round, half).done
  {
  }

  /** One direction of a sample. */
  lemma OneWayFinishes(p: Party, round: nat, half: nat, b: seq<byte>) returns (q: Party)
    requires half > 0 && (p.at == PutSample(round, half) || p.at == GetSample(round, half))
    ensures p.at.PutSample? ==> Leads(p, q, SampleRound(p, round + 1, half)) && Finishes(p, b) == Finishes(q, b)
    ensures p.at.GetSample? && |b| < half ==> !Finishes(p, b)
    ensures p.at.GetSample? && |b| >= half ==>
      Leads(p, q, SampleRound(p, round + 1, half)) && Finishes(p, b) == Finishes(q, b[half..])
  {
    hide Then, IoOf, Finishes, SampleRound, Noise;
    q := p;
    if p.at.PutSample? {
      var m := Noise(p.config, half);
      SampleSteps(p, round, half, true, m);
      Puts(p, m, b);
      q := Then(p, []);
      ThenKeepsParty(p, []);
    } else {
      SampleIo(p, round, half);
      Gets(p, half, b);
      if |b| >= half {
        SampleSteps(p, round, half, false, b[..half]);
        q := Then(p, b[..half]);
        ThenKeepsParty(p, b[..half]);
      }
    }
  }

  /** A whole sample: it takes half the length off the input. */
  lemma Samples(p: Party, half: nat, b: seq<byte>) returns (q: Party)
    requires p.at == SampleRound(p, 0, half).at && half > 0
    ensures |b| < half ==> !Finishes(p, b)
    ensures |b| >= half ==> Leads(p, q, CommandDone(p)) && Finishes(p, b) == Finishes(q, b[half..])
  {
    hide Then, IoOf, Finishes, SampleRound, CommandDone;
    SampleRoundIs(p, 0, half);
    q := OneWayFinishes(p, 0, half, b);
    var rest := if p.server then b else if |b| >= half then b[half..] else [];
    if p.server || |b| >= half {
      SampleRoundIs(p, 1, half);
      SampleRoundOf(p, q, 2, half);
      SampleRoundIs(p, 2, half);
      q := OneWayFinishes(q, 1, half, rest);
    }
  }

  // ---- The server ----

  lemma MasterFinishes(p: Party, b: seq<byte>)
    requires p.at == PutHello && p.server
    ensures Finishes(p, b) <==> GreetsMaster(b)
  {
    hide Then, IoOf, Finishes, Initializer, DecodeLE;
    var n := |SLAVE_HELLO|;
    MasterHello(p);
    Puts(p, MASTER_HELLO, b);
    Gets(p.(at := GetHello), n, b);
    if |b| >= n {
      MasterInitializer(p, b[..n]);
      var q := Then(p.(at := GetHello), b[..n]);
      if b[..n] != SLAVE_HELLO {
        Fails(q, b[n..]);
      } else {
        Puts(q, Initializer(true), b[n..]);
        AckFinishes(p, b[n..]);
        assert SLAVE_HELLO <= b && (|b| >= n + 4 ==> b[n..][..4] == b[n..n + 4]);
      }
    }
  }

  lemma AckFinishes(p: Party, b: seq<byte>)
    ensures var q := p.(at := GetAck, even := true, lastID := PlexerWire.LastID(true));
      Finishes(q, b) <==> |b| >= 4 && b[..4] in {[0, 0, 0, 0], [1, 0, 0, 0]}
  {
    hide Then, IoOf, Finishes, DecodeLE;
    var q := p.(at := GetAck, even := true, lastID := PlexerWire.LastID(true));
    AckIo(q);
    Gets(q, 4, b);
    if |b| >= 4 {
      MasterAck(p, b[..4]);
      SmallVersions(b[..4]);
      Ends(Then(q, b[..4]), b[4..]);
    }
  }

  lemma AckIo(p: Party)
    requires p.at == GetAck
    ensures IoOf(p) == Io.Get(4)
  {
  }

  lemma Ends(p: Party, b: seq<byte>)
    requires p.at.Failed? || p.at.Finished?
    ensures Finishes(p, b) <==> p.at.Finished?
  {
    PlayStops(p, b);
  }

  lemma GivesCommand(p: Party, i: nat, b: seq<byte>) returns (q: Party)
    requires p.at == PutCommand(i)
    ensures Finishes(p, b) == Finishes(q, b) && q.server == p.server && q.config == p.config
    ensures q == if i == 0 then ExchangeRound(p, 0) else if i == 1 then Sample(p, SIXTEEN_MEGABYTES) else p.(at := PutHello)
  {
    hide Then, IoOf, Finishes, ExchangeRound, Sample, ServerCommand;
    ScriptSteps(p, i);
    Puts(p, ServerCommand(i), b);
    q := Then(p, []);
  }

  lemma RequestFinishes(p: Party, b: seq<byte>) returns (q: Party)
    requires p.at == GetSecurity
    ensures var asked := |b| >= 8 && b[..4] == [253, 255, 255, 255] && b[4..8] in {[0, 0, 0, 0], [1, 0, 0, 0]};
      && (!asked ==> !Finishes(p, b))
      && (asked ==> Finishes(p, b) == Finishes(q, b[8..])
                    && q.at == PutCommand(0) && q.done == p.done && q.server == p.server && q.config == p.config)
  {
    hide Then, IoOf, Finishes, Command, CommandOf, UserInfoOf;
    SecurityIo(p);
    Gets(p, 8, b);
    q := p;
    if |b| >= 8 {
      var m := b[..8];
      assert m[..4] == b[..4] && m[4..8] == b[4..8];
      CommandCodes(m);
      AcceptSteps(p, m);
      q := Then(p, m);
      if q.at.Failed? {
        Fails(q, b[8..]);
      } else {
        Puts(q, Command(COMMAND_OKAY, 0), b[8..]);
        q := Then(q, []);
      }
    }
  }

  /** The server's setup succeeds on exactly these inputs. */
  lemma ServerFinishesIff(c: Config, b: seq<byte>)
    requires IsConfig(c)
    ensures Finishes(Start(c, true), b) <==> ServerContent(b)
  {
    hide Then, IoOf, Finishes, ExchangeRound, Sample, SampleRound, PastIntroduction, GreetsMaster;
    var p := Start(c, true);
    var q := RequestFinishes(p, b);
    if |b| >= 8 && b[..4] == [253, 255, 255, 255] && b[4..8] in {[0, 0, 0, 0], [1, 0, 0, 0]} {
      ServerExchanges(q, b[8..]);
    }
  }

  lemma ExchangeRoundIs(p: Party)
    ensures p.server ==>
      && ExchangeRound(p, 0) == p.(at := PutPrefix(0)) && ExchangeRound(p, 1) == p.(at := GetPrefix(1))
      && ExchangeRound(p, 2) == p.(at := PutCommand(p.done + 1), done := p.done + 1)
    ensures !p.server ==>
      && ExchangeRound(p, 0) == p.(at := GetPrefix(0)) && ExchangeRound(p, 1) == p.(at := PutPrefix(1))
      && ExchangeRound(p, 2) == p.(at := GetCommand)
  {
  }

  lemma ServerExchanges(p: Party, b: seq<byte>)
    requires p.at == PutCommand(0) && p.done == 0 && p.server && IsConfig(p.config)
    ensures Finishes(p, b) <==>
      var r := PastIntroduction(b);
      r.Some? && |r.value| >= 0x80_0000 && GreetsMaster(r.value[0x80_0000..])
  {
    hide Then, IoOf, Finishes, ExchangeRound, PastIntroduction, GreetsMaster;
    var q := GivesCommand(p, 0, b);
    ExchangeRoundIs(p);
    ExchangeRoundIs(q);
    var t := Tells(q, 0, b);
    ExchangeRoundIs(t);
    var h := Hears(t, 1, b);
    var r := PastIntroduction(b);
    if r.Some? {
      ServerSamples(h, r.value);
    }
  }

  lemma SampleIs(p: Party)
    ensures Sample(p, SIXTEEN_MEGABYTES) == SampleRound(p, 0, 0x80_0000)
  {
  }

  lemma CommandDoneOf(p: Party)
    ensures p.server ==> CommandDone(p).at == PutCommand(p.done + 1) && CommandDone(p).done == p.done + 1
    ensures !p.server ==> CommandDone(p).at == GetCommand
  {
  }

  lemma ServerSamples(p: Party, b: seq<byte>)
    requires p.at == PutCommand(1) && p.done == 1 && p.server
    ensures Finishes(p, b) <==> |b| >= 0x80_0000 && GreetsMaster(b[0x80_0000..])
  {
    hide Then, IoOf, Finishes, Sample, SampleRound, CommandDone, GreetsMaster;
    var q := GivesCommand(p, 1, b);
    SampleIs(p);
    SampleRoundIs(p, 0, 0x80_0000);
    SampleRoundOf(p, q, 0, 0x80_0000);
    var s := Samples(q, 0x80_0000, b);
    if |b| >= 0x80_0000 {
      CommandDoneOf(q);
      var t := GivesCommand(s, 2, b[0x80_0000..]);
      MasterFinishes(t, b[0x80_0000..]);
    }
  }

  // ---- The client ----

  lemma SlaveFinishes(p: Party, b: seq<byte>)
    requires p.at == GetHello && !p.server
    ensures Finishes(p, b) <==> GreetsSlave(b)
  {
    hide Then, IoOf, Finishes, DecodeLE, EncodeLE;
    var n := |MASTER_HELLO|;
    SlaveHelloIo(p);
    Gets(p, n, b);
    if |b| >= n {
      SlaveHello(p, b[..n]);
      var q := Then(p, b[..n]);
      if b[..n] != MASTER_HELLO {
        Fails(q, b[n..]);
      } else {
        Puts(q, SLAVE_HELLO, b[n..]);
        InitializerFinishes(p, b[n..]);
        assert MASTER_HELLO <= b && (|b| >= n + 24 ==> b[n..][..4] == b[n..n + 4]);
      }
    }
  }

  lemma InitializerFinishes(p: Party, b: seq<byte>)
    requires !p.server
    ensures Finishes(p.(at := GetInitializer), b) <==> |b| >= 24 && b[..4] in {[0, 0, 0, 0], [1, 0, 0, 0]}
  {
    hide Then, IoOf, Finishes, DecodeLE, EncodeLE;
    var q := p.(at := GetInitializer);
    InitializerIo(q);
    Gets(q, 24, b);
    if |b| >= 24 {
      assert b[..24][..4] == b[..4];
      SlaveInitializer(p, b[..24]);
      SmallVersions(b[..4]);
      var r := Then(q, b[..24]);
      Puts(r, EncodeLE(PLEXER_VERSION, 4), b[24..]);
      Ends(Then(r, []), b[24..]);
    }
  }

  lemma InitializerIo(p: Party)
    requires p.at == GetInitializer
    ensures IoOf(p) == Io.Get(24)
  {
  }

  lemma ClientHears(p: Party, b: seq<byte>) returns (q: Party)
    requires p.at == GetPrefix(0) && !p.server && IsConfig(p.config)
    ensures PastIntroduction(b).None? ==> !Finishes(p, b)
    ensures PastIntroduction(b).Some? ==>
      && q.at == GetCommand && !q.server && q.config == p.config
      && Finishes(p, b) == Finishes(q, PastIntroduction(b).value)
  {
    hide Then, IoOf, Finishes, ExchangeRound, PastIntroduction;
    ExchangeRoundIs(p);
    q := Hears(p, 0, b);
    var r := PastIntroduction(b);
    if r.Some? {
      ExchangeRoundIs(q);
      q := Tells(q, 1, r.value);
    }
  }

  lemma SampleOf(p: Party, length: nat)
    ensures length % 16384 != 0 ==> Sample(p, length) == CommandDone(p)
    ensures length % 16384 == 0 ==> Sample(p, length) == SampleRound(p, 0, length / 2)
    ensures length % 16384 == 0 && length / 2 == 0 ==> Sample(p, length) == CommandDone(p)
  {
  }

  lemma ClientSamples(p: Party, length: nat, b: seq<byte>) returns (q: Party)
    requires !p.server && p.at == Sample(p, length).at
    ensures var n := if length % 16384 != 0 then 0 else length / 2;
      && (|b| < n ==> !Finishes(p, b))
      && (|b| >= n ==> q.at == GetCommand && !q.server && q.config == p.config && Finishes(p, b) == Finishes(q, b[n..]))
  {
    hide Then, IoOf, Finishes, Sample, SampleRound, CommandDone;
    SampleOf(p, length);
    CommandDoneOf(p);
    q := p;
    assert b[0..] == b;
    if length % 16384 == 0 && length / 2 > 0 {
      q := Samples(p, length / 2, b);
    }
  }

  lemma {:induction false} ClientObeysIff(p: Party, b: seq<byte>)
    requires p.at == GetCommand && !p.server && IsConfig(p.config)
    ensures Finishes(p, b) <==> ClientObeys(b)
    decreases |b|
  {
    hide Then, IoOf, Finishes, CommandOf, UserInfoOf, DecodeLE, ExchangeRound, Sample, PastIntroduction, GreetsSlave;
    CommandIo(p);
    Gets(p, 8, b);
    if |b| >= 8 {
      var m, rest := b[..8], b[8..];
      assert m[..4] == b[..4] && m[4..8] == b[4..8];
      CommandCodes(m);
      ObeySteps(p, m);
      var q := Then(p, m);
      if b[..4] == [252, 255, 255, 255] {
        ExchangeRoundIs(p);
        var r := ClientHears(q, rest);
        if PastIntroduction(rest).Some? {
          ClientObeysIff(r, PastIntroduction(rest).value);
        }
      } else if b[..4] == [251, 255, 255, 255] {
        var length := DecodeLE(b[4..8]);
        SampleKeeps(p, length);
        var r := ClientSamples(q, length, rest);
        var n := if length % 16384 != 0 then 0 else length / 2;
        assert rest[0..] == rest;
        if |rest| >= n {
          ClientObeysIff(r, rest[n..]);
        }
      } else if b[..4] == [0, 0, 0, 128] {
        SlaveFinishes(q, rest);
      } else {
        Fails(q, rest);
      }
    }
  }

  lemma SampleKeeps(p: Party, length: nat)
    requires !p.server
    ensures var q := Sample(p, length); q.server == p.server && q.config == p.config && Sample(q, length).at == q.at
  {
  }

  /** The client's setup succeeds on exactly these inputs. */
  lemma ClientFinishesIff(c: Config, b: seq<byte>)
    requires IsConfig(c)
    ensures Finishes(Start(c, false), b) <==> ClientContent(b)
  {
    hide Then, IoOf, Finishes, Command, CommandOf, ClientObeys;
    var p := Start(c, false);
    AskSteps(p);
    Puts(p, Command(COMMAND_SECURITY, c.security), b);
    var q := p.(at := GetOkay);
    Gets(q, 8, b);
    if |b| >= 8 {
      var m := b[..8];
      assert m[..4] == b[..4];
      CommandCodes(m);
      AnswerSteps(p, m);
      var r := Then(q, m);
      if r.at.Failed? {
        Fails(r, b[8..]);
      } else {
        ClientObeysIff(r, b[8..]);
      }
    }
  }
}
