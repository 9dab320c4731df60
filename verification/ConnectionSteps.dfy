/** What a party's program does at each of its points, message by message. */
module ConnectionSteps {
  import opened Bytes
  import opened ConnectionParty
  import opened ConnectionPlay
  import PlexerWire

  // ---- A party's messages ----

  lemma ThenKeepsParty(p: Party, data: seq<byte>)
    requires IoOf(p).Get? ==> |data| == IoOf(p).n
    ensures SameParty(p, Then(p, data))
  {
    hide IoOf, CommandDone, ExchangeRound, SampleRound, Sample, CommandOf, UserInfoOf, DecodeLE, DecodeInt32;
  }

  // ---- What the program does, step by step ----

  lemma SampleSteps(p: Party, round: nat, half: nat, writing: bool, m: seq<byte>)
    requires p.at == if writing then PutSample(round, half) else GetSample(round, half)
    requires |m| == half && (writing ==> m == Noise(p.config, half))
    ensures writing ==> IoOf(p) == Io.Put(m)
    ensures !writing ==> IoOf(p) == Io.Get(|m|)
    ensures var q := Then(p, if writing then [] else m);
      && q.at == SampleRound(p, round + 1, half).at && q.done == SampleRound(p, round + 1, half).done
      && q.security == p.security && q.remote == p.remote && q.remoteAddress == p.remoteAddress
      && q.even == p.even && q.lastID == p.lastID
  {
    hide Noise;
  }

  lemma SampleIo(p: Party, round: nat, half: nat)
    requires p.at == GetSample(round, half)
    ensures IoOf(p) == Io.Get(half)
  {
  }

  lemma TellSteps(p: Party, round: nat)
    requires IsConfig(p.config) && p.at == PutPrefix(round)
    ensures Prefix(p.config) != [] && IoOf(p) == Io.Put(Prefix(p.config))
    ensures p.config.family.Other? ==> Then(p, []) == ExchangeRound(p, round + 1)
    ensures !p.config.family.Other? ==>
      var q := Then(p, []);
      q == p.(at := PutAddress(round)) && IoOf(q) == Io.Put(p.config.address) && p.config.address != []
      && Then(q, []) == ExchangeRound(q, round + 1)
      && ExchangeRound(q, round + 1).at == ExchangeRound(p, round + 1).at
      && ExchangeRound(q, round + 1).done == ExchangeRound(p, round + 1).done
  {
    PrefixRoundTrip(p.config);
    hide Prefix;
  }

  lemma HearIo(p: Party, round: nat)
    requires p.at == GetPrefix(round)
    ensures IoOf(p) == Io.Get(PREFIX)
  {
  }

  lemma HearSteps(p: Party, round: nat, prefix: seq<byte>)
    requires p.at == GetPrefix(round) && |prefix| == PREFIX
    ensures IoOf(p) == Io.Get(PREFIX)
    ensures var apType, q := DecodeInt32(prefix[..4]), Then(p, prefix);
      if apType != AP_IPV4 && apType != AP_IPV6 then q == p.(at := Failed)
      else q == p.(at := GetAddress(round, apType), remote := prefix) && IoOf(q) == Io.Get(AddressLength(apType))
  {
    hide DecodeInt32;
  }

  lemma HearAddress(p: Party, round: nat, prefix: seq<byte>, address: seq<byte>)
    requires var apType := DecodeInt32(if |prefix| >= 4 then prefix[..4] else [0, 0, 0, 0]);
      |address| == AddressLength(apType) && p.at == GetPrefix(round)
    ensures var apType := DecodeInt32(if |prefix| >= 4 then prefix[..4] else [0, 0, 0, 0]);
      var q := p.(at := GetAddress(round, apType), remote := prefix);
      && IoOf(q) == Io.Get(|address|) && Then(q, address) == ExchangeRound(q.(remoteAddress := address), round + 1)
      && ExchangeRound(q.(remoteAddress := address), round + 1).at == ExchangeRound(p, round + 1).at
      && ExchangeRound(q.(remoteAddress := address), round + 1).done == ExchangeRound(p, round + 1).done
  {
    hide DecodeInt32;
  }

  lemma TypeIs(m: seq<byte>)
    requires |m| == 4
    ensures DecodeInt32(m) == AP_IPV4 ==> m == [1, 0, 0, 0]
    ensures DecodeInt32(m) == AP_IPV6 ==> m == [2, 0, 0, 0]
  {
    EncodeDecodeInt32(m);
    SmallInt32(1);
    SmallInt32(2);
    hide DecodeInt32, EncodeInt32;
  }

  lemma SecurityIo(p: Party)
    requires p.at == GetSecurity
    ensures IoOf(p) == Io.Get(8)
  {
  }

  lemma AcceptSteps(p: Party, command: seq<byte>)
    requires p.at == GetSecurity && |command| == 8
    ensures var q := Then(p, command);
      if CommandOf(command) != COMMAND_SECURITY || UserInfoOf(command) !in {INSECURE, TLS} then q == p.(at := Failed)
      else
        && q == p.(at := PutOkay, security := UserInfoOf(command)) && IoOf(q) == Io.Put(Command(COMMAND_OKAY, 0))
        && Then(q, []) == q.(at := PutCommand(0))
  {
    hide CommandOf, UserInfoOf, Command;
  }

  lemma ScriptSteps(p: Party, i: nat)
    requires p.at == PutCommand(i)
    ensures IoOf(p) == Io.Put(ServerCommand(i)) && |ServerCommand(i)| == 8
    ensures Then(p, []) == if i == 0 then ExchangeRound(p, 0) else if i == 1 then Sample(p, SIXTEEN_MEGABYTES) else p.(at := PutHello)
    ensures ExchangeRound(p, 2) == CommandDone(p)
    ensures p.server ==> CommandDone(p) == p.(at := PutCommand(p.done + 1), done := p.done + 1)
  {
    hide Command, Sample;
  }

  lemma AskSteps(p: Party)
    requires p.at == PutSecurity
    ensures IoOf(p) == Io.Put(Command(COMMAND_SECURITY, p.config.security))
    ensures Then(p, []) == p.(at := GetOkay) && IoOf(p.(at := GetOkay)) == Io.Get(8)
  {
    hide Command;
  }

  lemma AnswerSteps(p: Party, command: seq<byte>)
    requires |command| == 8 && p.at == PutSecurity
    ensures var q := p.(at := GetOkay);
      IoOf(q) == Io.Get(8) && Then(q, command) == q.(at := if CommandOf(command) == COMMAND_OKAY then GetCommand else Failed)
  {
    hide CommandOf;
  }

  lemma CommandIo(p: Party)
    requires p.at == GetCommand
    ensures IoOf(p) == Io.Get(8)
  {
  }

  lemma ObeySteps(p: Party, command: seq<byte>)
    requires p.at == GetCommand && |command| == 8
    ensures IoOf(p) == Io.Get(8)
    ensures Then(p, command) ==
      if CommandOf(command) == COMMAND_SAMPLE then Sample(p, UserInfoOf(command))
      else if CommandOf(command) == COMMAND_IF_EXCHANGE then ExchangeRound(p, 0)
      else p.(at := if CommandOf(command) == COMMAND_INIT then GetHello else Failed)
    ensures ExchangeRound(p, 2) == CommandDone(p)
    ensures !p.server ==> CommandDone(p) == p.(at := GetCommand)
  {
    hide CommandOf, UserInfoOf, Sample;
  }

  lemma MasterHello(p: Party)
    requires p.at == PutHello && p.server
    ensures IoOf(p) == Io.Put(MASTER_HELLO) && Then(p, []) == p.(at := GetHello)
    ensures IoOf(p.(at := GetHello)) == Io.Get(|SLAVE_HELLO|)
  {
  }

  lemma MasterInitializer(p: Party, inHello: seq<byte>)
    requires p.server && |inHello| == |SLAVE_HELLO|
    ensures IoOf(p.(at := GetHello)) == Io.Get(|inHello|)
    ensures var q := Then(p.(at := GetHello), inHello);
      if inHello != SLAVE_HELLO then q == p.(at := Failed)
      else
        && q == p.(at := PutInitializer, even := true, lastID := PlexerWire.LastID(true))
        && IoOf(q) == Io.Put(Initializer(true)) && Then(q, []) == q.(at := GetAck) && IoOf(q.(at := GetAck)) == Io.Get(4)
  {
    hide Initializer;
  }

  lemma MasterAck(p: Party, ack: seq<byte>)
    requires |ack| == 4
    ensures var q := p.(at := GetAck, even := true, lastID := PlexerWire.LastID(true));
      IoOf(q) == Io.Get(4) && Then(q, ack) == q.(at := if DecodeLE(ack) > PLEXER_VERSION then Failed else Finished)
  {
    hide DecodeLE;
  }

  lemma SlaveHelloIo(p: Party)
    requires p.at == GetHello && !p.server
    ensures IoOf(p) == Io.Get(|MASTER_HELLO|)
  {
  }

  lemma SlaveHello(p: Party, inHello: seq<byte>)
    requires p.at == GetHello && !p.server && |inHello| == |MASTER_HELLO|
    ensures IoOf(p) == Io.Get(|inHello|)
    ensures var q := Then(p, inHello);
      if inHello != MASTER_HELLO then q == p.(at := Failed)
      else
        && q == p.(at := PutHello) && IoOf(q) == Io.Put(SLAVE_HELLO)
        && Then(q, []) == p.(at := GetInitializer) && IoOf(p.(at := GetInitializer)) == Io.Get(24)
  {
  }

  lemma SlaveInitializer(p: Party, initializer: seq<byte>)
    requires |initializer| == 24
    ensures var p := p.(at := GetInitializer);
      var q, even, supported := Then(p, initializer), initializer[16] == 0, DecodeLE(initializer[..4]) <= PLEXER_VERSION;
      && IoOf(p) == Io.Get(24)
      && q == p.(at := PutAck(supported), even := even, lastID := PlexerWire.LastID(even))
      && IoOf(q) == Io.Put(EncodeLE(PLEXER_VERSION, 4)) && |EncodeLE(PLEXER_VERSION, 4)| == 4
      && Then(q, []) == q.(at := if supported then Finished else Failed)
  {
    hide DecodeLE, EncodeLE;
  }

  lemma PlayStops(p: Party, unread: seq<byte>)
    requires p.at.Failed? || p.at.Finished? || (IoOf(p).Get? && |unread| < IoOf(p).n)
    ensures Play(p, unread) == Played(p, [], unread) && (p.at.Finished? ==> !IoOf(p).Get?)
  {
    PlayRests(p, unread);
  }

  lemma PlayEndsThere(whole: Played, told: seq<byte>, p: Party, unread: seq<byte>)
    requires whole == Prepend(told, Played(p, [], unread))
    ensures whole == Played(p, told, unread)
  {
    assert told + [] == told;
  }
}
