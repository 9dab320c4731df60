/**
 The connection object during setup: the server's script, the client's loop and the exchanges they call, over pipes
 with short reads and writes. Each message the code moves is the one that the program of ConnectionParty is at, and
 what the object remembers is what the program has learnt.
 */
module ConnectionObject {
  import opened Bytes
  import opened Pipes
  import opened ConnectionParty
  import opened ConnectionPlay
  import opened ConnectionSteps
  import opened ConnectionLanguage
  import PlexerWire

  /** What a refused sample returns: minus one, as the unsigned number it becomes. */
  const REFUSED := 0xFFFF_FFFF

  lemma NextPiece(m: seq<byte>, from: nat, length: nat, n: nat)
    requires from + length <= |m| && n <= length
    ensures m[..from] + m[from..from + length][..n] == m[..from + n]
    ensures m[from..][n..] == m[from + n..]
  {
  }

  /** One direction of the sample, in pieces of at most the unit. Reading stops short if the bytes run out. */
  method SampleOneWay(p: Pipe, writing: bool, half: nat, message: seq<byte>) returns (sentReceived: nat)
    requires writing ==> |message| == half
    modifies p
    ensures sentReceived == if writing then half else Min(half, |old(p.data)|)
    ensures p.data == if writing then old(p.data) + message else old(p.data)[sentReceived..]
  {
    ghost var was := p.data;
    sentReceived := 0;
    while sentReceived < half
      invariant sentReceived <= half
      invariant writing ==> p.data == was + message[..sentReceived]
      invariant !writing ==> sentReceived <= |was| && p.data == was[sentReceived..]
    {
      var toReadWrite := if SAMPLE_UNIT + sentReceived > half then half - sentReceived else SAMPLE_UNIT;
      assert 0 < toReadWrite <= half - sentReceived;
      if writing {
        var n := p.Write(message[sentReceived..sentReceived + toReadWrite]);
        NextPiece(message, sentReceived, toReadWrite, n);
        Concat(was, message[..sentReceived], message[sentReceived..sentReceived + toReadWrite][..n]);
        sentReceived := sentReceived + n;
      } else {
        var got := p.Read(toReadWrite);
        if got == [] {
          return;
        }
        NextPiece(was, sentReceived, |got|, |got|);
        sentReceived := sentReceived + |got|;
      }
    }
  }

  // ---- The connection ----

  class Connection {
    const config: Config
    const isIncoming: bool
    const input: Pipe
    const output: Pipe
    var securityType: nat
    var remote: seq<byte>
    var remoteAddress: seq<byte>
    var myStreamsEven: bool
    var localStreamIDLast: nat

    /** What the pipes held at first; where the messages moved since have taken the program, and what it wrote. */
    ghost const came: seq<byte>
    ghost const went: seq<byte>
    ghost var program: Party
    ghost var told: seq<byte>

    ghost predicate Valid()
      reads this
    {
      && input != output && IsConfig(config)
      && program.config == config && program.server == isIncoming && program.moved == []
    }

    /** The object's fields are what the program has learnt. */
    ghost predicate Agrees()
      reads this
    {
      && securityType == program.security && remote == program.remote && remoteAddress == program.remoteAddress
      && myStreamsEven == program.even && localStreamIDLast == program.lastID
    }

    /** The play of the program against all that came. */
    ghost function Whole(): Played
      reads this
    {
      Play(Start(config, isIncoming), came)
    }

    /** So far the object has done what the play does, and the play goes on from the program with what is unread. */
    ghost predicate Accounts()
      reads this, input, output
    {
      Whole() == Prepend(told, Play(program, input.data)) && output.data == went + told
    }

    /** The play ends here, short of the finish: the program has failed, or waits for more than there is. */
    ghost predicate Over()
      reads this, output
    {
      && Whole().party == program && !program.at.Finished?
      && output.data == went + Whole().output
    }

    constructor (config: Config, isIncoming: bool, input: Pipe, output: Pipe)
      requires IsConfig(config) && input != output
      ensures Valid() && Agrees() && program == Start(config, isIncoming)
      ensures this.config == config && this.isIncoming == isIncoming
      ensures this.input == input && this.output == output && Accounts() && came == input.data && went == output.data
    {
      this.config, this.isIncoming, this.input, this.output := config, isIncoming, input, output;
      securityType, remote, remoteAddress, myStreamsEven, localStreamIDLast := config.security, [], [], false, 0;
      came, went, told, program := input.data, output.data, [], Start(config, isIncoming);
      new;
      assert [] + Whole().output == Whole().output;
    }

    /** A message has gone out: the program moves on. */
    ghost method NoteOut(message: seq<byte>)
      requires Valid() && IoOf(program) == Io.Put(message)
      requires Whole() == Prepend(told, Play(program, input.data)) && output.data == (went + told) + message
      modifies `program, `told
      ensures Valid() && Accounts() && program == Then(old(program), [])
    {
      PlayPut(program, message, input.data);
      PrependPrepend(told, message, Play(Then(program, []), input.data));
      Concat(went, told, message);
      ThenKeepsParty(program, []);
      hide IoOf, Then, Play, Start;
      told, program := told + message, Then(program, []);
    }

    /** A message has come in: the program moves on. */
    ghost method NoteIn(message: seq<byte>)
      requires Valid() && IoOf(program) == Io.Get(|message|)
      requires Whole() == Prepend(told, Play(program, message + input.data)) && output.data == went + told
      modifies `program
      ensures Valid() && Accounts() && program == Then(old(program), message)
    {
      PlayGet(program, message, input.data);
      ThenKeepsParty(program, message);
      hide IoOf, Then, Play, Start;
      program := Then(program, message);
    }

    /** A program that has stopped short of the finish, or lacks bytes, is where the play ends. */
    lemma EndsHere(unread: seq<byte>)
      requires Valid() && Whole() == Prepend(told, Play(program, unread)) && output.data == went + told
      requires program.at.Failed? || (IoOf(program).Get? && |unread| < IoOf(program).n)
      ensures Over()
    {
      PlayStops(program, unread);
      hide Play, Start;
      PlayEndsThere(Whole(), told, program, unread);
    }

    /** The program's next message goes out. */
    method Put(message: seq<byte>)
      requires Valid() && Accounts() && IoOf(program) == Io.Put(message) && message != []
      modifies `program, `told, output
      ensures Valid() && Accounts() && program == Then(old(program), [])
      ensures output.data == old(output.data) + message
    {
      hide IoOf, Then, Play, Start;
      var _, _ := WriteFull(output, message);
      NoteOut(message);
    }

    /** The program's next message comes in, unless the bytes run out, and then the play ends here. */
    method Get(n: nat) returns (okay: bool, data: seq<byte>)
      requires Valid() && Accounts() && IoOf(program) == Io.Get(n) && n > 0
      modifies `program, input
      ensures Valid() && (okay <==> n <= |old(input.data)|)
      ensures okay ==> Accounts() && |data| == n && program == Then(old(program), data)
      ensures okay ==> old(input.data) == data + input.data
      ensures |input.data| <= |old(input.data)| && (okay ==> |input.data| < |old(input.data)|)
      ensures !okay ==> Over() && program == old(program)
    {
      ghost var unread := input.data;
      hide Then, Play, Start;
      var result;
      result, data := ReadFull(input, n);
      okay := result.Success?;
      if okay {
        hide IoOf;
        NoteIn(data);
      } else {
        EndsHere(unread);
      }
    }

    /** The program is where the state before would be in this round of the exchange. */
    ghost predicate InRound(before: Party, round: nat)
      reads this
    {
      program.at == ExchangeRound(before, round).at && program.done == ExchangeRound(before, round).done
    }

    /** What this end says of itself: its address family, its interface, and its address if it has an IP address. */
    ghost function Introduction(): seq<byte> {
      TypeBytes(config.family) + config.interface + if config.family.Other? then [] else config.address
    }

    /** One party's part of the interface exchange. */
    method Tell(ghost round: nat)
      requires Valid() && Accounts() && Agrees() && program.at == PutPrefix(round)
      modifies `program, `told, output
      ensures Valid() && Accounts() && Agrees() && InRound(old(program), round + 1)
      ensures output.data == old(output.data) + Introduction()
    {
      ghost var p := program;
      TellSteps(p, round);
      PrefixIs(config);
      hide Play, Start, Prefix, ExchangeRound, Then, IoOf;
      Put(Prefix(config));
      if !config.family.Other? {
        Put(config.address);
        Concat(old(output.data), Prefix(config), config.address);
      }
      assert TypeBytes(config.family) + config.interface + [] == TypeBytes(config.family) + config.interface;
    }

    /** The other party's prefix and address, as they came. */
    twostate predicate Heard()
      reads this, input
    {
      && |remote| == 72 && old(input.data) == remote + remoteAddress + input.data
      && if remote[..4] == [1, 0, 0, 0] then |remoteAddress| == 4 + 2
         else remote[..4] == [2, 0, 0, 0] && |remoteAddress| == 16 + 2
    }

    /** The other party's part. */
    method Hear(ghost round: nat) returns (okay: bool)
      requires Valid() && Accounts() && Agrees() && program.at == GetPrefix(round)
      modifies `program, `told, `remote, `remoteAddress, input
      ensures Valid() && (okay ==> Accounts() && InRound(old(program), round + 1))
      ensures Agrees() && (!okay ==> Over())
      ensures |input.data| <= |old(input.data)| && (okay ==> Heard())
    {
      ghost var p := program;
      hide Play, Start, DecodeInt32, ExchangeRound, Then, IoOf;
      HearIo(p, round);
      var theirPrefix;
      okay, theirPrefix := Get(PREFIX);
      if !okay {
        return;
      }
      HearSteps(p, round, theirPrefix);
      var apType := DecodeInt32(theirPrefix[..4]);
      if apType != AP_IPV4 && apType != AP_IPV6 {
        EndsHere(input.data);
        return false;
      }
      remote := theirPrefix;
      var address;
      okay, address := Get(AddressLength(apType));
      if okay {
        HearAddress(p, round, theirPrefix, address);
        remoteAddress := address;
        TypeIs(theirPrefix[..4]);
        Concat(theirPrefix, address, input.data);
      }
    }

    method DoIFExchange(ghost before: Party) returns (okay: bool)
      requires Valid() && Accounts() && Agrees() && InRound(before, 0)
      requires before.server == isIncoming
      modifies `program, `told, `remote, `remoteAddress, input, output
      ensures Valid() && (okay ==> Accounts() && InRound(before, 2))
      ensures Agrees() && (!okay ==> Over())
      ensures |input.data| <= |old(input.data)| && (okay ==> Heard())
      ensures okay ==> output.data == old(output.data) + Introduction()
    {
      hide Play, Start, IoOf, Then, Introduction;
      assert output.data + [] == output.data;
      okay := true;
      var i := 0;
      while i < 2
        invariant 0 <= i <= 2 && Valid() && Accounts() && Agrees() && InRound(before, i)
        invariant |input.data| <= |old(input.data)|
        invariant output.data == old(output.data) + if i == 2 || (i == 1 && isIncoming) then Introduction() else []
        invariant if i == 2 || (i == 1 && !isIncoming) then Heard() else input.data == old(input.data)
      {
        if (i == 0) == isIncoming {
          Tell(i);
        } else {
          okay := Hear(i);
          if !okay {
            return;
          }
        }
        i := i + 1;
      }
    }

    /** The program is past a sample, or in one of its rounds. */
    ghost predicate Sampling(before: Party, round: nat, half: nat)
      reads this
    {
      program.at == SampleRound(before, round, half).at && program.done == SampleRound(before, round, half).done
    }

    /** One direction, as one message of the program; it can stop short only when reading. */
    method SampleMessage(ghost round: nat, half: nat, writing: bool) returns (okay: bool)
      requires Valid() && Accounts() && Agrees() && half > 0
      requires program.at == if writing then PutSample(round, half) else GetSample(round, half)
      modifies `program, `told, input, output
      ensures Valid() && (okay ==> Accounts() && Sampling(old(program), round + 1, half))
      ensures Agrees() && (!okay ==> Over())
      ensures |input.data| <= |old(input.data)|
    {
      ghost var p, ins := program, input.data;
      hide Play, Start, IoOf, Then, SampleRound, Noise;
      if writing {
        var message := Noise(config, half);
        var _ := SampleOneWay(output, true, half, message);
        SampleSteps(p, round, half, true, message);
        NoteOut(message);
        okay := true;
      } else {
        var got := SampleOneWay(input, false, half, []);
        okay := got == half;
        if okay {
          SampleSteps(p, round, half, false, ins[..half]);
          assert ins == ins[..half] + input.data;
          NoteIn(ins[..half]);
        } else {
          SampleIo(p, round, half);
          EndsHere(ins);
        }
      }
    }

    /** rate is what the clock makes of the sample. A refusal is a success to the caller, who looks for a negative. */
    method DoSample(length: nat, rate: nat, ghost before: Party) returns (okay: bool, sample: int)
      requires Valid() && Accounts() && Agrees() && before.server == isIncoming
      requires program.at == Sample(before, length).at && program.done == Sample(before, length).done
      modifies `program, `told, input, output
      ensures Valid() && sample >= 0
      ensures okay ==> Accounts()
      ensures okay ==> program.at == CommandDone(before).at && program.done == CommandDone(before).done
      ensures length % SAMPLE_UNIT != 0 ==> okay && sample == REFUSED && program == old(program) && told == old(told)
      ensures Agrees() && (!okay ==> Over())
      ensures |input.data| <= |old(input.data)|
    {
      hide Play, Start, IoOf, Then;
      okay, sample := true, REFUSED;
      if length % SAMPLE_UNIT != 0 {
        return;
      }
      var half := length / 2;
      var i := 0;
      while i < 2
        invariant 0 <= i <= 2 && Valid() && Accounts() && Agrees() && Sampling(before, i, half)
        invariant |input.data| <= |old(input.data)|
      {
        if half > 0 {
          okay := SampleMessage(i, half, (i == 0) == isIncoming);
          if !okay {
            return;
          }
        }
        i := i + 1;
      }
      sample := rate;
    }

    /** The server's half of the agreement on security. */
    method AcceptSecurity() returns (okay: bool)
      requires Valid() && Accounts() && Agrees() && program.at == GetSecurity
      modifies `program, `told, `securityType, input, output
      ensures Valid() && (okay ==> Accounts() && program.at == PutCommand(0) && program.done == old(program).done)
      ensures Agrees() && (!okay ==> Over())
    {
      ghost var p := program;
      hide Play, Start, Then, IoOf, CommandOf, UserInfoOf;
      SecurityIo(p);
      var command;
      okay, command := Get(8);
      if !okay {
        return;
      }
      AcceptSteps(p, command);
      if CommandOf(command) != COMMAND_SECURITY || UserInfoOf(command) !in {INSECURE, TLS} {
        EndsHere(input.data);
        return false;
      }
      securityType := UserInfoOf(command);
      Put(Command(COMMAND_OKAY, 0));
    }

    /** The server's script. */
    method RunScript(rate: nat) returns (okay: bool)
      requires Valid() && Accounts() && Agrees() && program.at == PutCommand(0) && program.done == 0 && isIncoming
      modifies `program, `told, `remote, `remoteAddress, input, output
      ensures Valid() && (okay ==> Accounts() && program.at == PutHello)
      ensures Agrees() && (!okay ==> Over())
    {
      hide Play, Start, Then, IoOf, ExchangeRound, Sample, CommandDone, ServerCommand;
      okay := true;
      var i := 0;
      while i < 3
        invariant 0 <= i <= 3 && Valid() && Accounts() && Agrees()
        invariant i < 3 ==> program.at == PutCommand(i) && program.done == i
        invariant i == 3 ==> program.at == PutHello
      {
        ghost var before := program;
        ScriptSteps(before, i);
        Put(ServerCommand(i));
        if i == 0 {
          okay := DoIFExchange(before);
        } else if i == 1 {
          var sampled, _ := DoSample(SIXTEEN_MEGABYTES, rate, before);
          okay := sampled;
        }
        if !okay {
          return;
        }
        i := i + 1;
      }
    }

    /** The client's half of the agreement on security. */
    method AskSecurity() returns (okay: bool)
      requires Valid() && Accounts() && Agrees() && program.at == PutSecurity
      modifies `program, `told, input, output
      ensures Valid() && (okay ==> Accounts() && program.at == GetCommand)
      ensures Agrees() && (!okay ==> Over())
    {
      ghost var p := program;
      hide Play, Start, Then, IoOf, CommandOf;
      AskSteps(p);
      Put(Command(COMMAND_SECURITY, config.security));
      var command;
      okay, command := Get(8);
      if okay {
        AnswerSteps(p, command);
        okay := CommandOf(command) == COMMAND_OKAY;
        if !okay {
          EndsHere(input.data);
        }
      }
    }

    /** The client's loop. */
    method ObeyCommands(rate: nat) returns (okay: bool)
      requires Valid() && Accounts() && Agrees() && program.at == GetCommand && !isIncoming
      modifies `program, `told, `remote, `remoteAddress, input, output
      ensures Valid() && (okay ==> Accounts() && program.at == GetHello)
      ensures Agrees() && (!okay ==> Over())
    {
      hide Play, Start, Then, IoOf, CommandOf, UserInfoOf, ExchangeRound, Sample, CommandDone;
      while true
        invariant Valid() && Accounts() && Agrees() && program.at == GetCommand
        decreases |input.data|
      {
        ghost var before := program;
        CommandIo(before);
        var command;
        okay, command := Get(8);
        if !okay {
          return;
        }
        ObeySteps(before, command);
        if CommandOf(command) == COMMAND_SAMPLE {
          var sampled, _ := DoSample(UserInfoOf(command), rate, before);
          okay := sampled;
        } else if CommandOf(command) == COMMAND_IF_EXCHANGE {
          okay := DoIFExchange(before);
        } else {
          if CommandOf(command) != COMMAND_INIT {
            EndsHere(input.data);
          }
          return CommandOf(command) == COMMAND_INIT;
        }
        if !okay {
          return;
        }
      }
    }

    /** The plexer of an incoming connection is the master. */
    method StartAsMaster() returns (okay: bool)
      requires Valid() && Accounts() && Agrees() && program.at == PutHello && isIncoming
      modifies `program, `told, `myStreamsEven, `localStreamIDLast, input, output
      ensures Valid() && (okay ==> Accounts() && program.at.Finished?)
      ensures Agrees() && (!okay ==> Over())
    {
      ghost var p := program;
      hide Play, Start, Then, IoOf, Initializer, DecodeLE;
      MasterHello(p);
      Put(MASTER_HELLO);
      var inHello, ack;
      okay, inHello := Get(|SLAVE_HELLO|);
      if !okay {
        return;
      }
      MasterInitializer(p, inHello);
      if inHello != SLAVE_HELLO {
        EndsHere(input.data);
        return false;
      }
      myStreamsEven, localStreamIDLast := true, PlexerWire.LastID(true);
      Put(Initializer(true));
      okay, ack := Get(4);
      if okay {
        MasterAck(p, ack);
        okay := DecodeLE(ack) <= PLEXER_VERSION;
        if !okay {
          EndsHere(input.data);
        }
      }
    }

    /** The slave takes the parity the master left it, and acknowledges even a version it will not speak. */
    method StartAsSlave() returns (okay: bool)
      requires Valid() && Accounts() && Agrees() && program.at == GetHello && !isIncoming
      modifies `program, `told, `myStreamsEven, `localStreamIDLast, input, output
      ensures Valid() && (okay ==> Accounts() && program.at.Finished?)
      ensures Agrees() && (!okay ==> Over())
    {
      ghost var p := program;
      hide Play, Start, Then, IoOf, DecodeLE, EncodeLE;
      SlaveHelloIo(p);
      var inHello, initializer;
      okay, inHello := Get(|MASTER_HELLO|);
      if !okay {
        return;
      }
      SlaveHello(p, inHello);
      if inHello != MASTER_HELLO {
        EndsHere(input.data);
        return false;
      }
      Put(SLAVE_HELLO);
      okay, initializer := Get(24);
      if !okay {
        return;
      }
      SlaveInitializer(p, initializer);
      myStreamsEven := initializer[16] == 0;
      localStreamIDLast := PlexerWire.LastID(myStreamsEven);
      Put(EncodeLE(PLEXER_VERSION, 4));
      okay := DecodeLE(initializer[..4]) <= PLEXER_VERSION;
      if !okay {
        EndsHere(input.data);
      }
    }

    method InitAsServer(rate: nat) returns (okay: bool)
      requires Valid() && Accounts() && Agrees() && program.at == GetSecurity && program.done == 0 && isIncoming
      modifies this, input, output
      ensures Valid() && (okay ==> Accounts() && program.at.Finished?)
      ensures Agrees() && (!okay ==> Over())
    {
      hide Play, Start, Then, IoOf;
      okay := AcceptSecurity();
      if okay {
        okay := RunScript(rate);
        if okay {
          okay := StartAsMaster();
        }
      }
    }

    method InitAsClient(rate: nat) returns (okay: bool)
      requires Valid() && Accounts() && Agrees() && program.at == PutSecurity && !isIncoming
      modifies this, input, output
      ensures Valid() && (okay ==> Accounts() && program.at.Finished?)
      ensures Agrees() && (!okay ==> Over())
    {
      hide Play, Start, Then, IoOf;
      okay := AskSecurity();
      if okay {
        okay := ObeyCommands(rate);
        if okay {
          okay := StartAsSlave();
        }
      }
    }

    /**
     The whole setup of this end, on whatever bytes the peer has sent: it succeeds if and only if the program played
     against those bytes finishes, which is on exactly the inputs written out in ConnectionLanguage. Either way the
     object has learnt what the play has and written what it writes.
     */
    method InitCommon(rate: nat) returns (okay: bool)
      requires Valid() && Agrees() && program == Start(config, isIncoming) && told == []
      requires came == input.data && went == output.data
      modifies this, input, output
      ensures var r := Play(Start(config, isIncoming), old(input.data));
              && (okay <==> r.party.at.Finished?)
              && Valid() && Agrees() && program == r.party && output.data == old(output.data) + r.output
              && (okay ==> input.data == r.rest)
      ensures okay <==> if isIncoming then ServerContent(old(input.data)) else ClientContent(old(input.data))
    {
      ByTheBytes(input.data);
      assert [] + Whole().output == Whole().output;
      hide Play, Then, IoOf, ServerContent, ClientContent;
      if isIncoming {
        okay := InitAsServer(rate);
      } else {
        okay := InitAsClient(rate);
      }
      if okay {
        FinishesHere();
      }
    }

    lemma ByTheBytes(b: seq<byte>)
      requires IsConfig(config)
      ensures Play(Start(config, isIncoming), b).party.at.Finished?
        <==> if isIncoming then ServerContent(b) else ClientContent(b)
    {
      hide ServerContent, ClientContent, Play, Start;
      if isIncoming {
        ServerFinishesIff(config, b);
      } else {
        ClientFinishesIff(config, b);
      }
    }

    lemma FinishesHere()
      requires Accounts() && program.at.Finished?
      ensures Whole() == Played(program, told, input.data)
    {
      PlayStops(program, input.data);
      hide Play, Start;
      PlayEndsThere(Whole(), told, program, input.data);
    }
  }
}
