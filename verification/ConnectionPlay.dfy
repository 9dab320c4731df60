/**
 A party's program played against a string of bytes: what it comes to, what it writes and what it leaves unread.
 Two plays fed to each other are a whole setup.
 */
module ConnectionPlay {
  import opened Bytes
  import opened ConnectionParty
  import opened ConnectionSetup

  datatype Played = Played(party: Party, output: seq<byte>, rest: seq<byte>)

  function Prepend(output: seq<byte>, r: Played): Played { r.(output := output + r.output) }

  /** How many messages a party writes, at most, before it reads. */
  function Rank(p: Party): nat {
    match p.at
    case PutOkay => 6
    case PutCommand(_) => 5
    case PutPrefix(round) => if round == 0 then 4 else if p.server then 8 else 2
    case PutAddress(round) => if round == 0 then 3 else if p.server then 7 else 1
    case PutSample(round, half) =>
      if p.server && (round > 0 || half == 0) then 7 else if round == 0 then 4 else 1
    case PutHello => 1
    case PutInitializer => 1
    case PutAck(_) => 1
    case PutSecurity => 1
    case GetSample(_, half) => if half == 0 then 10 else 0
    case _ => 0
  }

  /** Between commands a client reads and a server writes. */
  lemma CommandDoneRank(p: Party)
    ensures Rank(CommandDone(p)) == if p.server then 5 else 0
  {
  }

  lemma ExchangeRoundRank(p: Party, round: nat)
    ensures round == 0 ==> Rank(ExchangeRound(p, round)) == if p.server then 4 else 0
    ensures round == 1 ==> Rank(ExchangeRound(p, round)) == if p.server then 0 else 2
    ensures round >= 2 ==> Rank(ExchangeRound(p, round)) == if p.server then 5 else 0
  {
    CommandDoneRank(p);
    hide CommandDone;
  }

  lemma SampleRoundRank(p: Party, round: nat, half: nat)
    ensures half > 0 && round == 0 ==> Rank(SampleRound(p, round, half)) == if p.server then 4 else 0
    ensures half > 0 && round == 1 ==> Rank(SampleRound(p, round, half)) == if p.server then 0 else 1
    ensures half == 0 || round >= 2 ==> Rank(SampleRound(p, round, half)) == if p.server then 5 else 0
  {
    CommandDoneRank(p);
    hide CommandDone;
  }

  lemma ThenRanksLower(p: Party, data: seq<byte>)
    requires IoOf(p).Put? || IoOf(p) == Get(0)
    requires IoOf(p).Get? ==> data == []
    ensures Rank(Then(p, data)) < Rank(p)
  {
    hide Command, ServerCommand, Prefix, Noise, Initializer, CommandOf, UserInfoOf, DecodeLE, EncodeLE, DecodeInt32,
      CommandDone, ExchangeRound, SampleRound;
    match p.at
    case PutCommand(i) =>
      ExchangeRoundRank(p, 0);
      SampleRoundRank(p, 0, SIXTEEN_MEGABYTES / 2);
      CommandDoneRank(p);
    case PutPrefix(round) => ExchangeRoundRank(p, round + 1);
    case PutAddress(round) => ExchangeRoundRank(p, round + 1);
    case PutSample(round, half) => SampleRoundRank(p.(sampleSent := p.sampleSent + half), round + 1, half);
    case GetSample(round, half) => SampleRoundRank(p.(sampleGot := p.sampleGot + half), round + 1, half);
    case _ =>
  }

  /** The program up to where it stops, or reads more than there is. */
  function Play(p: Party, input: seq<byte>): Played
    decreases |input|, Rank(p)
  {
    match IoOf(p)
    case Stop => Played(p, [], input)
    case Put(m) =>
      ThenRanksLower(p, []);
      Prepend(m, Play(Then(p, []), input))
    case Get(n) =>
      if |input| < n then Played(p, [], input)
      else
        if n == 0 then
          ThenRanksLower(p, []);
          Play(Then(p, []), input)
        else Play(Then(p, input[..n]), input[n..])
  }

  lemma PlayPut(p: Party, m: seq<byte>, input: seq<byte>)
    requires IoOf(p) == Put(m)
    ensures Play(p, input) == Prepend(m, Play(Then(p, []), input))
  {
    hide IoOf, Then;
  }

  lemma PlayGet(p: Party, m: seq<byte>, rest: seq<byte>)
    requires IoOf(p) == Get(|m|)
    ensures Play(p, m + rest) == Play(Then(p, m), rest)
  {
    hide IoOf, Then;
    assert (m + rest)[..|m|] == m && (m + rest)[|m|..] == rest;
    if m == [] {
      assert m + rest == rest;
    }
  }

  /** Where a play ends: a party that has stopped, or waits for more than there is. */
  lemma PlayRests(p: Party, input: seq<byte>)
    requires IoOf(p).Stop? || (IoOf(p).Get? && |input| < IoOf(p).n)
    ensures Play(p, input) == Played(p, [], input)
  {
    hide IoOf, Then;
  }

  lemma PrependPrepend(a: seq<byte>, b: seq<byte>, r: Played)
    ensures Prepend(a, Prepend(b, r)) == Prepend(a + b, r)
  {
    Concat(a, b, r.output);
  }

  // ---- Two plays at once ----

  /** x is what the server reads and the client writes, y what the client reads and the server writes. */
  ghost predicate Feeds(p: Pair, x: seq<byte>, y: seq<byte>) {
    Play(p.server, x).output == y && Play(p.client, y).output == x
  }

  /** Between p and q the server reads x and writes y, and two plays from p that feed each other begin with these. */
  ghost predicate Exchanges(p: Pair, q: Pair, x: seq<byte>, y: seq<byte>) {
    && (forall u :: Play(p.server, x + u) == Prepend(y, Play(q.server, u)))
    && (forall v :: Play(p.client, y + v) == Prepend(x, Play(q.client, v)))
    && (forall u, v :: Feeds(p, u, v) ==> x <= u && y <= v && Feeds(q, u[|x|..], v[|y|..]))
  }

  lemma ServerExchange(p: Pair, m: seq<byte>)
    requires IoOf(p.server) == Put(m) && IoOf(p.client) == Get(|m|)
    ensures Exchanges(p, Pair(Then(p.server, []), Then(p.client, m)), [], m)
  {
    hide IoOf, Then, Play;
    var q := Pair(Then(p.server, []), Then(p.client, m));
    forall u ensures Play(p.server, [] + u) == Prepend(m, Play(q.server, u)) {
      assert [] + u == u;
      PlayPut(p.server, m, u);
    }
    forall v ensures Play(p.client, m + v) == Prepend([], Play(q.client, v)) {
      PlayGet(p.client, m, v);
      assert [] + Play(q.client, v).output == Play(q.client, v).output;
    }
    forall u, v | Feeds(p, u, v) ensures m <= v && Feeds(q, u[0..], v[|m|..]) {
      PlayPut(p.server, m, u);
      assert v == m + Play(q.server, u).output;
      PlayGet(p.client, m, v[|m|..]);
      assert m + v[|m|..] == v && u[0..] == u;
    }
  }

  lemma ClientExchange(p: Pair, m: seq<byte>)
    requires IoOf(p.client) == Put(m) && IoOf(p.server) == Get(|m|)
    ensures Exchanges(p, Pair(Then(p.server, m), Then(p.client, [])), m, [])
  {
    hide IoOf, Then, Play;
    var q := Pair(Then(p.server, m), Then(p.client, []));
    forall v ensures Play(p.client, [] + v) == Prepend(m, Play(q.client, v)) {
      assert [] + v == v;
      PlayPut(p.client, m, v);
    }
    forall u ensures Play(p.server, m + u) == Prepend([], Play(q.server, u)) {
      PlayGet(p.server, m, u);
      assert [] + Play(q.server, u).output == Play(q.server, u).output;
    }
    forall u, v | Feeds(p, u, v) ensures m <= u && Feeds(q, u[|m|..], v[0..]) {
      PlayPut(p.client, m, v);
      assert u == m + Play(q.client, v).output;
      PlayGet(p.server, m, u[|m|..]);
      assert m + u[|m|..] == u && v[0..] == v;
    }
  }

  lemma ExchangesTransitive(
    p: Pair, q: Pair, r: Pair, x: seq<byte>, y: seq<byte>, x': seq<byte>, y': seq<byte>)
    requires Exchanges(p, q, x, y) && Exchanges(q, r, x', y')
    ensures Exchanges(p, r, x + x', y + y')
  {
    hide Play, Feeds;
    forall u ensures Play(p.server, (x + x') + u) == Prepend(y + y', Play(r.server, u)) {
      Concat(x, x', u);
      assert Play(p.server, x + (x' + u)) == Prepend(y, Play(q.server, x' + u));
      PrependPrepend(y, y', Play(r.server, u));
    }
    forall v ensures Play(p.client, (y + y') + v) == Prepend(x + x', Play(r.client, v)) {
      Concat(y, y', v);
      assert Play(p.client, y + (y' + v)) == Prepend(x, Play(q.client, y' + v));
      PrependPrepend(x, x', Play(r.client, v));
    }
    forall u, v | Feeds(p, u, v)
      ensures x + x' <= u && y + y' <= v && Feeds(r, u[|x + x'|..], v[|y + y'|..])
    {
      FeedsFurther(q, r, x, y, x', y', u, v);
    }
  }

  lemma PrefixInTwoParts(x: seq<byte>, x': seq<byte>, u: seq<byte>)
    requires x <= u && x' <= u[|x|..]
    ensures x + x' <= u && u[|x|..][|x'|..] == u[|x + x'|..]
  {
    assert u == x + u[|x|..];
  }

  lemma FeedsFurther(
    q: Pair, r: Pair, x: seq<byte>, y: seq<byte>, x': seq<byte>, y': seq<byte>, u: seq<byte>, v: seq<byte>)
    requires x <= u && y <= v && Feeds(q, u[|x|..], v[|y|..]) && Exchanges(q, r, x', y')
    ensures x + x' <= u && y + y' <= v && Feeds(r, u[|x + x'|..], v[|y + y'|..])
  {
    hide Feeds, Play;
    var u', v' := u[|x|..], v[|y|..];
    assert x' <= u' && y' <= v' && Feeds(r, u'[|x'|..], v'[|y'|..]);
    hide Exchanges;
    PrefixInTwoParts(x, x', u);
    PrefixInTwoParts(y, y', v);
  }

  /** Nothing more moves: one party has stopped, and the other has stopped too or waits. */
  predicate Resting(p: Pair) {
    && (IoOf(p.server).Stop? || IoOf(p.client).Stop?)
    && (IoOf(p.server).Get? ==> IoOf(p.server).n > 0) && !IoOf(p.server).Put?
    && (IoOf(p.client).Get? ==> IoOf(p.client).n > 0) && !IoOf(p.client).Put?
  }

  lemma RestingPairsAreFedNothing(p: Pair, u: seq<byte>, v: seq<byte>)
    requires Resting(p)
    ensures Feeds(p, u, v) <==> u == v == []
    ensures Play(p.server, []) == Played(p.server, [], []) && Play(p.client, []) == Played(p.client, [], [])
  {
    hide IoOf, Play;
    PlayRests(p.server, []);
    PlayRests(p.client, []);
    if IoOf(p.server).Stop? {
      PlayRests(p.server, u);
    } else {
      PlayRests(p.client, v);
    }
  }

  /** From p to a pair at rest, there is exactly one way for two plays to feed each other. */
  lemma PlaysEnd(p: Pair, end: Pair, x: seq<byte>, y: seq<byte>, u: seq<byte>, v: seq<byte>)
    requires Exchanges(p, end, x, y) && Resting(end)
    ensures Feeds(p, u, v) <==> u == x && v == y
    ensures Play(p.server, x) == Played(end.server, y, []) && Play(p.client, y) == Played(end.client, x, [])
  {
    hide IoOf, Play, Resting;
    RestingPairsAreFedNothing(end, [], []);
    assert x + [] == x && y + [] == y;
    if Feeds(p, u, v) {
      RestingPairsAreFedNothing(end, u[|x|..], v[|y|..]);
      assert u == x + u[|x|..] && v == y + v[|y|..];
    }
  }
}
