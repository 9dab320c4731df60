/**
 One end of a new connection: the server's script of commands, the client's loop that obeys them, the two
 exchanges they call for, and the plexer's hellos at the end. A party is a program counter and what it has learnt;
 it writes a message, reads one, or has stopped.
 */
module ConnectionParty {
  import opened Bytes
  import PlexerWire

  const COMMAND_OKAY := -1
  const COMMAND_SECURITY := -3
  const COMMAND_IF_EXCHANGE := -4
  const COMMAND_SAMPLE := -5
  const COMMAND_INIT := -0x8000_0000

  const INSECURE := 0
  const TLS := 1

  const AP_IPV4 := 1
  const AP_IPV6 := 2
  const AP_UNKNOWN := -1

  const SAMPLE_UNIT := 16384
  const SIXTEEN_MEGABYTES := 16777216

  const MASTER_HELLO: seq<byte> := [
    0xe3, 0x82, 0xaa, 0xe3, 0x82, 0xb9, 0xe3, 0x80, 0x81, 0xe7, 0x8e, 0x8b, 0xe6, 0xa7, 0x98,
    0xe3, 0x81, 0xa7, 0xe3, 0x81, 0x8a, 0xe3, 0x82, 0x8b, 0xe3, 0x81, 0xb9, 0xe3, 0x81, 0x97]
  const SLAVE_HELLO: seq<byte> := [
    0xe3, 0x82, 0x88, 0xe3, 0x82, 0x8d, 0xe3, 0x81, 0x97, 0xe3, 0x81, 0x8f, 0xe3, 0x81, 0x8a, 0xe9, 0xa1, 0x98,
    0xe3, 0x81, 0x84, 0xe3, 0x81, 0x84, 0xe3, 0x81, 0x9f, 0xe3, 0x81, 0x97, 0xe3, 0x81, 0xbe, 0xe3, 0x81, 0x99]

  const PLEXER_VERSION := 1

  // ---- Messages ----

  lemma SmallInt32(x: int)
    requires -256 <= x < 256
    ensures EncodeInt32(x) == if x >= 0 then [x, 0, 0, 0] else [256 + x, 255, 255, 255]
  {
    hide EncodeLE;
    LittleEndian4(x % TWO_TO_32);
  }

  function Command(command: int, userInfo: nat): (m: seq<byte>)
    ensures |m| == 8
  {
    EncodeInt32(command) + EncodeLE(userInfo, 4)
  }

  function CommandOf(m: seq<byte>): int
    requires |m| == 8
  {
    DecodeInt32(m[..4])
  }

  function UserInfoOf(m: seq<byte>): nat
    requires |m| == 8
  {
    DecodeLE(m[4..])
  }

  lemma CommandRoundTrip(command: int, userInfo: nat)
    requires IsInt32(command) && userInfo < TWO_TO_32
    ensures CommandOf(Command(command, userInfo)) == command
    ensures UserInfoOf(Command(command, userInfo)) == userInfo
  {
    Capacities();
    DecodeEncodeInt32(command);
    DecodeEncodeLE(userInfo, 4);
    assert Command(command, userInfo)[..4] == EncodeInt32(command);
    assert Command(command, userInfo)[4..] == EncodeLE(userInfo, 4);
  }

  datatype Family = V4 | V6 | Other

  /** What a party brings: its socket address, the rest of its prefix, the security it wants, its sample data. */
  datatype Config = Config(
    family: Family, interface: seq<byte>, address: seq<byte>, security: nat, noise: nat -> byte)

  const PREFIX := 72

  function ApType(f: Family): int {
    match f
    case V4 => AP_IPV4
    case V6 => AP_IPV6
    case Other => AP_UNKNOWN
  }

  /** An address goes with its two bytes of port. */
  function AddressLength(apType: int): nat { if apType == AP_IPV4 then 4 + 2 else 16 + 2 }

  predicate IsConfig(c: Config) {
    && |c.interface| == PREFIX - 4
    && (!c.family.Other? ==> |c.address| == AddressLength(ApType(c.family)))
    && c.security < TWO_TO_32
  }

  function Prefix(c: Config): seq<byte> { EncodeInt32(ApType(c.family)) + c.interface }

  lemma PrefixRoundTrip(c: Config)
    requires IsConfig(c)
    ensures |Prefix(c)| == 72 && DecodeInt32(Prefix(c)[..4]) == ApType(c.family)
    ensures Prefix(c)[..4] == TypeBytes(c.family) && Prefix(c)[4..] == c.interface
  {
    DecodeEncodeInt32(ApType(c.family));
    assert Prefix(c)[..4] == EncodeInt32(ApType(c.family));
    SmallInt32(ApType(c.family));
  }

  /** What an address family is on the wire. */
  function TypeBytes(f: Family): (r: seq<byte>)
    ensures |r| == 4
  {
    match f
    case V4 => [1, 0, 0, 0]
    case V6 => [2, 0, 0, 0]
    case Other => [255, 255, 255, 255]
  }

  lemma PrefixIs(c: Config)
    requires IsConfig(c)
    ensures Prefix(c) == TypeBytes(c.family) + c.interface
  {
    PrefixRoundTrip(c);
    assert Prefix(c) == Prefix(c)[..4] + Prefix(c)[4..];
    hide Prefix;
  }

  /** The C struct: version, padding, the greatest stream id, whether the sender's ids are even, padding. */
  function Initializer(even: bool): (m: seq<byte>)
    ensures |m| == 24
  {
    EncodeLE(PLEXER_VERSION, 4) + [0, 0, 0, 0] + EncodeLE(PlexerWire.ID_MAX, 8) + [if even then 1 else 0] + [0, 0, 0, 0, 0, 0, 0]
  }

  lemma InitializerRoundTrip(even: bool)
    ensures DecodeLE(Initializer(even)[..4]) == PLEXER_VERSION && (Initializer(even)[16] != 0 <==> even)
  {
    Capacities();
    DecodeEncodeLE(PLEXER_VERSION, 4);
    assert Initializer(even)[..4] == EncodeLE(PLEXER_VERSION, 4);
  }

  function Noise(c: Config, n: nat): (m: seq<byte>)
    ensures |m| == n
  {
    seq<byte>(n, i requires 0 <= i < n => c.noise(i))
  }

  // ---- The program ----

  datatype Point =
    | GetSecurity | PutOkay | PutCommand(i: nat)
    | PutSecurity | GetOkay | GetCommand
    | PutPrefix(round: nat) | PutAddress(round: nat) | GetPrefix(round: nat) | GetAddress(round: nat, apType: int)
    | PutSample(round: nat, half: nat) | GetSample(round: nat, half: nat)
    | PutHello | GetHello | PutInitializer | GetInitializer | PutAck(supported: bool) | GetAck
    | Finished | Failed

  /** moved is the part of the message at hand that has gone out or come in. */
  datatype Party = Party(
    config: Config, server: bool, at: Point, moved: seq<byte>, done: nat,
    security: nat, remote: seq<byte>, remoteAddress: seq<byte>, sampleSent: nat, sampleGot: nat,
    even: bool, lastID: nat)

  function Start(config: Config, server: bool): Party {
    Party(config, server, if server then GetSecurity else PutSecurity, [], 0, config.security, [], [], 0, 0, false, 0)
  }

  datatype Io = Put(message: seq<byte>) | Get(n: nat) | Stop

  function ServerCommand(i: nat): (m: seq<byte>)
    ensures |m| == 8
  {
    if i == 0 then Command(COMMAND_IF_EXCHANGE, 0)
    else if i == 1 then Command(COMMAND_SAMPLE, SIXTEEN_MEGABYTES)
    else Command(COMMAND_INIT, 0)
  }

  function IoOf(p: Party): Io {
    match p.at
    case GetSecurity => Get(8)
    case PutOkay => Put(Command(COMMAND_OKAY, 0))
    case PutCommand(i) => Put(ServerCommand(i))
    case PutSecurity => Put(Command(COMMAND_SECURITY, p.config.security))
    case GetOkay => Get(8)
    case GetCommand => Get(8)
    case PutPrefix(_) => Put(Prefix(p.config))
    case PutAddress(_) => Put(p.config.address)
    case GetPrefix(_) => Get(PREFIX)
    case GetAddress(_, apType) => Get(AddressLength(apType))
    case PutSample(_, half) => Put(Noise(p.config, half))
    case GetSample(_, half) => Get(half)
    case PutHello => Put(if p.server then MASTER_HELLO else SLAVE_HELLO)
    case GetHello => Get(|if p.server then SLAVE_HELLO else MASTER_HELLO|)
    case PutInitializer => Put(Initializer(p.even))
    case GetInitializer => Get(24)
    case PutAck(_) => Put(EncodeLE(PLEXER_VERSION, 4))
    case GetAck => Get(4)
    case Finished => Stop
    case Failed => Stop
  }

  /** Who writes in a round: the server in the first, the client in the second. */
  predicate Writes(p: Party, round: nat) { (round == 0) == p.server }

  /** What no message changes. */
  ghost predicate SameParty(p: Party, q: Party) {
    q.config == p.config && q.server == p.server && q.moved == p.moved
  }

  function CommandDone(p: Party): (q: Party)
    ensures q == p.(at := q.at, done := q.done)
  {
    if p.server then p.(at := PutCommand(p.done + 1), done := p.done + 1) else p.(at := GetCommand)
  }

  function ExchangeRound(p: Party, round: nat): (q: Party)
    ensures q == p.(at := q.at, done := q.done)
  {
    if round >= 2 then CommandDone(p)
    else p.(at := if Writes(p, round) then PutPrefix(round) else GetPrefix(round))
  }

  function SampleRound(p: Party, round: nat, half: nat): (q: Party)
    ensures q == p.(at := q.at, done := q.done)
  {
    if round >= 2 || half == 0 then CommandDone(p)
    else p.(at := if Writes(p, round) then PutSample(round, half) else GetSample(round, half))
  }

  /** A length that is no multiple of the unit is refused, but the refusal reads as a sample and goes unnoticed. */
  function Sample(p: Party, length: nat): (q: Party)
    ensures q == p.(at := q.at, done := q.done)
  {
    if length % SAMPLE_UNIT != 0 then CommandDone(p) else SampleRound(p, 0, length / 2)
  }

  /** The party once the message at hand is through; data is what came in. */
  function Then(p: Party, data: seq<byte>): Party
    requires IoOf(p).Get? ==> |data| == IoOf(p).n
  {
    match p.at
    case GetSecurity =>
      if CommandOf(data) != COMMAND_SECURITY || UserInfoOf(data) !in {INSECURE, TLS} then p.(at := Failed)
      else p.(at := PutOkay, security := UserInfoOf(data))
    case PutOkay => p.(at := PutCommand(0))
    case PutCommand(i) =>
      if i == 0 then ExchangeRound(p, 0)
      else if i == 1 then Sample(p, SIXTEEN_MEGABYTES)
      else p.(at := PutHello)
    case PutSecurity => p.(at := GetOkay)
    case GetOkay => p.(at := if CommandOf(data) == COMMAND_OKAY then GetCommand else Failed)
    case GetCommand =>
      var command := CommandOf(data);
      if command == COMMAND_SAMPLE then Sample(p, UserInfoOf(data))
      else if command == COMMAND_IF_EXCHANGE then ExchangeRound(p, 0)
      else if command == COMMAND_INIT then p.(at := GetHello)
      else p.(at := Failed)
    case PutPrefix(round) =>
      if p.config.family.Other? then ExchangeRound(p, round + 1) else p.(at := PutAddress(round))
    case PutAddress(round) => ExchangeRound(p, round + 1)
    case GetPrefix(round) =>
      var apType := DecodeInt32(data[..4]);
      if apType != AP_IPV4 && apType != AP_IPV6 then p.(at := Failed)
      else p.(at := GetAddress(round, apType), remote := data)
    case GetAddress(round, _) => ExchangeRound(p.(remoteAddress := data), round + 1)
    case PutSample(round, half) => SampleRound(p.(sampleSent := p.sampleSent + half), round + 1, half)
    case GetSample(round, half) => SampleRound(p.(sampleGot := p.sampleGot + half), round + 1, half)
    case PutHello => p.(at := if p.server then GetHello else GetInitializer)
    case GetHello =>
      if data != (if p.server then SLAVE_HELLO else MASTER_HELLO) then p.(at := Failed)
      else if p.server then p.(at := PutInitializer, even := true, lastID := PlexerWire.LastID(true))
      else p.(at := PutHello)
    case PutInitializer => p.(at := GetAck)
    case GetInitializer =>
      var even := data[16] == 0;
      p.(at := PutAck(DecodeLE(data[..4]) <= PLEXER_VERSION), even := even, lastID := PlexerWire.LastID(even))
    case PutAck(supported) => p.(at := if supported then Finished else Failed)
    case GetAck => p.(at := if DecodeLE(data) > PLEXER_VERSION then Failed else Finished)
    case Finished => p
    case Failed => p
  }

  // ---- A byte at a time ----

  predicate Gives(p: Party) { IoOf(p).Put? && |p.moved| < |IoOf(p).message| }

  predicate Takes(p: Party) { IoOf(p).Get? && |p.moved| < IoOf(p).n }

  function Given(p: Party): byte
    requires Gives(p)
  {
    IoOf(p).message[|p.moved|]
  }

  function Gave(p: Party): Party
    requires Gives(p)
  {
    var moved := p.moved + [Given(p)];
    if |moved| == |IoOf(p).message| then Then(p.(moved := []), []) else p.(moved := moved)
  }

  function Took(p: Party, b: byte): Party
    requires Takes(p)
  {
    var moved := p.moved + [b];
    if |moved| == IoOf(p).n then Then(p.(moved := []), moved) else p.(moved := moved)
  }
}
