/** The RC4 generator: a permutation of the bytes, stirred with a key and stepped once for each byte it gives. */
module Arc4 {
  import opened Bytes

  datatype Stream = Stream(i: byte, j: byte, s: seq<byte>)

  predicate IsStream(x: Stream) { |x.s| == 256 }

  function Swap(s: seq<byte>, a: byte, b: byte): (r: seq<byte>)
    requires |s| == 256
    ensures |r| == 256
  {
    s[a := s[b]][b := s[a]]
  }

  /** Arithmetic on a byte wraps around. */
  function Plus(a: byte, b: byte): (r: byte)
    ensures r == if a as int + b < 256 then a as int + b else a as int + b - 256
  {
    var sum: int := a + b;
    sum % 256
  }

  function Minus(a: byte, b: byte): (r: byte)
    ensures r == if b <= a then a as int - b else a as int - b + 256
  {
    var difference: int := a - b;
    difference % 256
  }

  lemma PlusMinus(a: byte, b: byte)
    ensures Minus(Plus(a, b), b) == a && Plus(Minus(a, b), b) == a
  {
    hide Plus, Minus;
  }

  function Identity(): (s: seq<byte>)
    ensures |s| == 256 && forall k :: 0 <= k < 256 ==> s[k] == k
  {
    seq<byte>(256, k requires 0 <= k < 256 => k)
  }

  function Initial(): Stream { Stream(0, 0, Identity()) }

  // ---- Stirring ----

  /** One round: the key's byte moves j, and the two places change their contents. */
  function Mix(x: Stream, key: byte): (r: Stream)
    requires IsStream(x)
    ensures IsStream(r)
  {
    var i := Plus(x.i, 1);
    var j := Plus(Plus(x.j, x.s[i]), key);
    Stream(i, j, Swap(x.s, i, j))
  }

  /** The first n rounds with a repeating key. */
  function MixAll(x: Stream, dat: seq<byte>, n: nat): (r: Stream)
    requires IsStream(x) && dat != []
    ensures IsStream(r)
  {
    if n == 0 then x else Mix(MixAll(x, dat, n - 1), dat[(n - 1) % |dat|])
  }

  function AddRandom(x: Stream, dat: seq<byte>): (r: Stream)
    requires IsStream(x) && dat != []
    ensures IsStream(r)
  {
    var mixed := MixAll(x.(i := Minus(x.i, 1)), dat, |x.s|);
    mixed.(j := mixed.i)
  }

  /**
   RC4's key schedule on plain numbers: j and the table after n rounds from any start, round k at place i + k. The
   usual schedule starts from places 0 and 0 and the table in which every byte stands at its own place.
   */
  function Schedule(i: byte, j: byte, s: seq<byte>, key: seq<byte>, n: nat): (r: (byte, seq<byte>))
    requires |s| == 256 && key != []
    ensures |r.1| == 256
  {
    if n == 0 then (j, s)
    else
      var (j', s') := Schedule(i, j, s, key, n - 1);
      var at := (i as int + n - 1) % 256;
      var to := (j' as int + s'[at] + key[(n - 1) % |key|]) % 256;
      (to, s'[at := s'[to]][to := s'[at]])
  }

  /** The place that n more steps lead to. */
  function Further(i: byte, n: nat): byte { (i as int + n) % 256 }

  lemma FurtherByOne(i: byte, n: nat)
    ensures Plus(Further(i, n), 1) == Further(i, n + 1)
    ensures Minus(i, 1) == Further(i, 255) && Further(i, 256 + n) == Further(i, n)
  {
  }

  /** Where a round goes to, and the table after it. */
  function To(j: byte, s: seq<byte>, at: byte, key: byte): byte
    requires |s| == 256
  {
    (j as int + s[at] + key) % 256
  }

  lemma MixFollowsRound(i: byte, j: byte, s: seq<byte>, key: byte, n: nat)
    requires n > 0 && |s| == 256
    ensures var at := Further(i, n - 1);
      var to := To(j, s, at, key);
      Mix(Stream(Further(i, 255 + n - 1), j, s), key) == Stream(Further(i, 255 + n), to, s[at := s[to]][to := s[at]])
  {
    FurtherByOne(i, 255 + n - 1);
    FurtherByOne(i, n - 1);
  }

  lemma ScheduleRound(i: byte, j: byte, s: seq<byte>, key: seq<byte>, n: nat)
    requires |s| == 256 && key != [] && n > 0
    ensures var r, at := Schedule(i, j, s, key, n - 1), Further(i, n - 1);
      var to := To(r.0, r.1, at, key[(n - 1) % |key|]);
      Schedule(i, j, s, key, n) == (to, r.1[at := r.1[to]][to := r.1[at]])
  {
  }

  lemma MixAllRound(x: Stream, i: byte, j: byte, s: seq<byte>, key: seq<byte>, n: nat)
    requires IsStream(x) && |s| == 256 && key != [] && n > 0
    requires MixAll(x, key, n - 1) == Stream(Further(i, 255 + n - 1), j, s)
    ensures var at := Further(i, n - 1);
      var to := To(j, s, at, key[(n - 1) % |key|]);
      MixAll(x, key, n) == Stream(Further(i, 255 + n), to, s[at := s[to]][to := s[at]])
  {
    hide Further, To, Mix;
    MixFollowsRound(i, j, s, key[(n - 1) % |key|], n);
  }

  lemma {:induction false} MixAllFollowsSchedule(x: Stream, key: seq<byte>, n: nat)
    requires IsStream(x) && key != []
    ensures var r := Schedule(x.i, x.j, x.s, key, n);
      MixAll(x.(i := Minus(x.i, 1)), key, n) == Stream(Further(x.i, 255 + n), r.0, r.1)
  {
    if n == 0 {
      FurtherByOne(x.i, 255);
      hide Minus, Further;
    } else {
      hide *;
      MixAllFollowsSchedule(x, key, n - 1);
      ScheduleRound(x.i, x.j, x.s, key, n);
      var r := Schedule(x.i, x.j, x.s, key, n - 1);
      MixAllRound(x.(i := Minus(x.i, 1)), x.i, r.0, r.1, key, n);
    }
  }

  /**
   Stirring a generator in any state is the schedule from that state, beginning at the place it had come to. It ends
   with both indices at the place before.
   */
  lemma StirIsTheSchedule(x: Stream, key: seq<byte>)
    requires IsStream(x) && key != []
    ensures var last := (x.i as int + 255) % 256;
      AddRandom(x, key) == Stream(last, last, Schedule(x.i, x.j, x.s, key, 256).1)
  {
    hide MixAll, Schedule, Minus;
    MixAllFollowsSchedule(x, key, 256);
    FurtherByOne(x.i, 255);
  }

  /**
   The first stirring is the textbook schedule. What it leaves in i and j is not the textbook's 0 and 0: the bytes
   that follow are those of RC4 from there.
   */
  lemma FirstStirIsTheKeySchedule(key: seq<byte>)
    requires key != []
    ensures AddRandom(Initial(), key) == Stream(255, 255, Schedule(0, 0, Identity(), key, 256).1)
  {
    hide Schedule, AddRandom, Identity;
    StirIsTheSchedule(Initial(), key);
  }

  // ---- Giving bytes ----

  function Step(x: Stream): (r: Stream)
    requires IsStream(x)
    ensures IsStream(r)
  {
    var i := Plus(x.i, 1);
    var j := Plus(x.j, x.s[i]);
    Stream(i, j, Swap(x.s, i, j))
  }

  function Output(x: Stream): byte
    requires IsStream(x)
  {
    var r := Step(x);
    r.s[Plus(r.s[r.i], r.s[r.j])]
  }

  /** RC4's generation loop as it is usually given, on plain numbers: the next n bytes from any state. */
  function Keystream(i: byte, j: byte, s: seq<byte>, n: nat): (r: seq<byte>)
    requires |s| == 256
    ensures |r| == n
    decreases n
  {
    if n == 0 then []
    else
      var i' := (i as int + 1) % 256;
      var j' := (j as int + s[i']) % 256;
      var s' := s[i' := s[j']][j' := s[i']];
      [s'[(s'[i'] as int + s'[j']) % 256]] + Keystream(i', j', s', n - 1)
  }

  function KeystreamFrom(x: Stream, n: nat): (r: seq<byte>)
    requires IsStream(x)
    ensures |r| == n
  {
    Keystream(x.i, x.j, x.s, n)
  }

  /** The generator gives the next byte of the textbook's stream, and is then where the rest of it begins. */
  lemma StepGivesKeystream(x: Stream, n: nat)
    requires IsStream(x)
    ensures KeystreamFrom(x, n + 1) == [Output(x)] + KeystreamFrom(Step(x), n)
  {
  }

  function Steps(x: Stream, n: nat): (r: Stream)
    requires IsStream(x)
    ensures IsStream(r)
    decreases n
  {
    if n == 0 then x else Step(Steps(x, n - 1))
  }

  lemma OneMoreStep(x: Stream, n: nat)
    requires IsStream(x)
    ensures Steps(x, n + 1) == Step(Steps(x, n))
  {
  }

  lemma {:induction false} StepsFromTheFront(x: Stream, n: nat)
    requires IsStream(x)
    ensures Steps(x, n + 1) == Steps(Step(x), n)
    decreases n
  {
    hide Step;
    if n > 0 {
      StepsFromTheFront(x, n - 1);
    }
  }

  /** So does any number of steps: the bytes given are those of the stream, in order. */
  lemma {:induction false} StepsGiveKeystream(x: Stream, n: nat, k: nat)
    requires IsStream(x) && k < n
    ensures KeystreamFrom(x, n)[k] == Output(Steps(x, k))
    decreases k
  {
    hide Step, Output, KeystreamFrom;
    StepGivesKeystream(x, n - 1);
    if k > 0 {
      StepsFromTheFront(x, k - 1);
      hide Steps;
      StepsGiveKeystream(Step(x), n - 1, k - 1);
    }
  }

  /** The first n bytes given, the last of them in front. */
  function LastFirst(x: Stream, n: nat): (r: seq<byte>)
    requires IsStream(x)
    ensures |r| == n
    decreases n
  {
    if n == 0 then [] else [Output(Steps(x, n - 1))] + LastFirst(x, n - 1)
  }

  lemma StartOfFill(x: Stream)
    requires IsStream(x)
    ensures Steps(x, 0) == x && LastFirst(x, 0) == []
  {
  }

  lemma LastFirstGrows(x: Stream, n: nat)
    requires IsStream(x)
    ensures LastFirst(x, n + 1) == [Output(Steps(x, n))] + LastFirst(x, n)
  {
  }

  function Backwards(s: seq<byte>): (r: seq<byte>)
    ensures |r| == |s| && forall k | 0 <= k < |s| :: r[k] == s[|s| - 1 - k]
  {
    seq<byte>(|s|, k requires 0 <= k < |s| => s[|s| - 1 - k])
  }

  lemma {:induction false} LastFirstAt(x: Stream, n: nat, k: nat)
    requires IsStream(x) && k < n
    ensures LastFirst(x, n)[n - 1 - k] == KeystreamFrom(x, n)[k]
    decreases n
  {
    hide Step, Steps, Output, KeystreamFrom;
    StepsGiveKeystream(x, n, k);
    if k < n - 1 {
      LastFirstAt(x, n - 1, k);
      StepsGiveKeystream(x, n - 1, k);
    }
  }

  lemma LastFirstIsBackwards(x: Stream, n: nat)
    requires IsStream(x)
    ensures LastFirst(x, n) == Backwards(KeystreamFrom(x, n))
  {
    hide *;
    forall k | 0 <= k < n ensures LastFirst(x, n)[k] == Backwards(KeystreamFrom(x, n))[k] {
      LastFirstAt(x, n, n - 1 - k);
    }
  }

  function Unstep(x: Stream): (r: Stream)
    requires IsStream(x)
    ensures IsStream(r)
  {
    Stream(Minus(x.i, 1), Minus(x.j, x.s[x.j]), Swap(x.s, x.i, x.j))
  }

  lemma SwapTwice(s: seq<byte>, a: byte, b: byte)
    requires |s| == 256
    ensures Swap(Swap(s, a, b), a, b) == s
    ensures Swap(s, a, b)[a] == s[b] && Swap(s, a, b)[b] == s[a]
  {
  }

  /** No two states step to the same one, and every state is stepped to. */
  lemma StepIsInvertible(x: Stream)
    requires IsStream(x)
    ensures Unstep(Step(x)) == x && Step(Unstep(x)) == x
  {
    var r, u := Step(x), Unstep(x);
    SwapTwice(x.s, r.i, r.j);
    SwapTwice(x.s, x.i, x.j);
    PlusMinus(x.i, 1);
    PlusMinus(x.j, x.s[r.i]);
    PlusMinus(x.j, x.s[x.j]);
    hide Swap, Plus, Minus;
  }

  // ---- The permutation ----

  ghost predicate IsPermutation(s: seq<byte>) {
    |s| == 256 && forall v: byte :: multiset(s)[v] == 1
  }

  lemma {:induction false} IdentityHasEachOnce(n: nat, v: byte)
    requires n <= 256
    ensures multiset(Identity()[..n])[v] == if v < n then 1 else 0
  {
    if n > 0 {
      IdentityHasEachOnce(n - 1, v);
      assert Identity()[..n] == Identity()[..n - 1] + [Identity()[n - 1]];
    }
  }

  lemma InitialIsPermutation()
    ensures IsPermutation(Initial().s)
  {
    assert Identity()[..256] == Identity();
    forall v: byte ensures multiset(Identity())[v] == 1 {
      IdentityHasEachOnce(256, v);
    }
  }

  lemma SwapKeepsPermutation(s: seq<byte>, a: byte, b: byte)
    requires IsPermutation(s)
    ensures IsPermutation(Swap(s, a, b))
  {
    assert multiset(Swap(s, a, b)) == multiset(s);
  }

  lemma MixKeepsPermutation(x: Stream, key: byte)
    requires IsPermutation(x.s)
    ensures IsPermutation(Mix(x, key).s)
  {
    assert IsStream(x);
    hide IsPermutation, Swap;
    SwapKeepsPermutation(x.s, Plus(x.i, 1), Mix(x, key).j);
  }

  lemma {:induction false} MixAllKeepsPermutation(x: Stream, dat: seq<byte>, n: nat)
    requires IsPermutation(x.s) && dat != []
    ensures IsPermutation(MixAll(x, dat, n).s)
  {
    if n > 0 {
      MixAllKeepsPermutation(x, dat, n - 1);
      MixKeepsPermutation(MixAll(x, dat, n - 1), dat[(n - 1) % |dat|]);
    }
  }

  datatype Operation = Init | Stir(dat: seq<byte>) | Next

  predicate CanDo(a: Operation) { a.Stir? ==> a.dat != [] }

  function Do(x: Stream, a: Operation): (r: Stream)
    requires IsStream(x) && CanDo(a)
    ensures IsStream(r)
  {
    match a
    case Init => Initial()
    case Stir(dat) => AddRandom(x, dat)
    case Next => Step(x)
  }

  function Run(ops: seq<Operation>): (x: Stream)
    requires forall i :: 0 <= i < |ops| ==> CanDo(ops[i])
    ensures IsStream(x)
  {
    if ops == [] then Initial() else Do(Run(ops[..|ops| - 1]), ops[|ops| - 1])
  }

  lemma DoKeepsPermutation(x: Stream, a: Operation)
    requires IsPermutation(x.s) && CanDo(a)
    ensures IsPermutation(Do(x, a).s)
  {
    InitialIsPermutation();
    assert IsStream(x);
    hide IsPermutation, Initial, Swap, Mix;
    match a
    case Init =>
    case Stir(dat) => MixAllKeepsPermutation(x.(i := Minus(x.i, 1)), dat, |x.s|);
    case Next => SwapKeepsPermutation(x.s, Step(x).i, Step(x).j);
  }

  /** Whatever is done to the generator, each byte is in it once. */
  lemma {:induction false} RunKeepsPermutation(ops: seq<Operation>)
    requires forall i :: 0 <= i < |ops| ==> CanDo(ops[i])
    ensures IsPermutation(Run(ops).s)
  {
    InitialIsPermutation();
    hide IsPermutation, Do, Initial, CanDo;
    if ops != [] {
      RunKeepsPermutation(ops[..|ops| - 1]);
      DoKeepsPermutation(Run(ops[..|ops| - 1]), ops[|ops| - 1]);
    }
  }

  // ---- The generator itself ----

  class Generator {
    var i: byte
    var j: byte
    const s: array<byte>

    ghost predicate Valid()
      reads this
    {
      s.Length == 256
    }

    ghost function Value(): (x: Stream)
      requires Valid()
      reads this, s
      ensures IsStream(x)
    {
      Stream(i, j, s[..])
    }

    constructor ()
      ensures Valid() && Value() == Initial() && fresh(s)
    {
      s := new byte[256](_ => 0);
      i, j := 0, 0;
      new;
      Reset();
    }

    method Reset()
      requires Valid()
      modifies this, s
      ensures Valid() && Value() == Initial()
    {
      var n := 0;
      while n < 256
        invariant 0 <= n <= 256 && forall k :: 0 <= k < n ==> s[k] == k
      {
        s[n] := n;
        n := n + 1;
      }
      i, j := 0, 0;
      assert s[..] == Identity();
    }

    method AddRandomData(dat: seq<byte>)
      requires Valid() && dat != []
      modifies this, s
      ensures Valid() && Value() == AddRandom(old(Value()), dat)
    {
      i := Minus(i, 1);
      ghost var start := Value();
      var n := 0;
      while n < 256
        invariant 0 <= n <= 256 && Value() == MixAll(start, dat, n)
      {
        ghost var before := s[..];
        i := Plus(i, 1);
        var si := s[i];
        j := Plus(Plus(j, si), dat[n % |dat|]);
        s[i] := s[j];
        s[j] := si;
        assert s[..] == Swap(before, i, j);
        n := n + 1;
      }
      j := i;
    }

    method GetByte() returns (b: byte)
      requires Valid()
      modifies this, s
      ensures Valid() && Value() == Step(old(Value())) && b == Output(old(Value()))
      ensures [b] == KeystreamFrom(old(Value()), 1)
    {
      StepGivesKeystream(Value(), 0);
      i := Plus(i, 1);
      var si := s[i];
      j := Plus(j, si);
      var sj := s[j];
      s[i] := sj;
      s[j] := si;
      assert s[..] == Swap(old(s[..]), i, j);
      b := s[Plus(si, sj)];
    }

    /** One more byte, in front of those there are. */
    method GiveInFront(buf: array<byte>, n: nat)
      requires Valid() && buf != s && n < buf.Length
      modifies this, s, buf
      ensures Valid() && Value() == Step(old(Value()))
      ensures buf[n..] == [Output(old(Value()))] + old(buf[n + 1..])
    {
      hide *;
      var b := GetByte();
      buf[n] := b;
    }

    /** A buffer is filled from its end, with as many bytes of the stream. */
    method Fill(buf: array<byte>)
      requires Valid() && buf != s
      modifies this, s, buf
      ensures Valid() && Value() == Steps(old(Value()), buf.Length)
      ensures buf[..] == Backwards(KeystreamFrom(old(Value()), buf.Length))
    {
      ghost var x := Value();
      hide *;
      StartOfFill(x);
      var n := buf.Length;
      while n > 0
        invariant 0 <= n <= buf.Length && Valid() && Value() == Steps(x, buf.Length - n)
        invariant buf[n..] == LastFirst(x, buf.Length - n)
      {
        OneMoreStep(x, buf.Length - n);
        LastFirstGrows(x, buf.Length - n);
        n := n - 1;
        GiveInFront(buf, n);
      }
      LastFirstIsBackwards(x, buf.Length);
      assert buf[0..] == buf[..];
    }

    /** Four bytes of the stream, the first the most significant. */
    method GetWord() returns (word: nat)
      requires Valid()
      modifies this, s
      ensures Valid() && Value() == Steps(old(Value()), 4)
      ensures word < TWO_TO_32
      ensures var b := KeystreamFrom(old(Value()), 4);
        word == b[0] as int * 0x100_0000 + b[1] as int * 0x1_0000 + b[2] as int * 0x100 + b[3]
    {
      ghost var x := Value();
      hide Step, Output, KeystreamFrom;
      StepsGiveKeystream(x, 4, 0);
      var a: nat := GetByte();
      StepsGiveKeystream(x, 4, 1);
      var b: nat := GetByte();
      StepsGiveKeystream(x, 4, 2);
      var c: nat := GetByte();
      StepsGiveKeystream(x, 4, 3);
      var d: nat := GetByte();
      word := a * 0x100_0000 + b * 0x1_0000 + c * 0x100 + d;
    }
  }
}
