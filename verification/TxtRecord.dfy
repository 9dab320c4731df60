/**
 DNS-SD TXT records (RFC 6763, section 6): a run of strings, each a length byte and then key=value. The printer
 measures the list before it writes; the parser cuts each string at its first '='.
 */
module TxtRecord {
  import opened Bytes

  const EQUALS: byte := '=' as int
  const NUL: byte := 0
  const PAIR_MAX := 254
  const BLOB_MAX := 65535

  datatype Pair = Pair(key: seq<byte>, value: seq<byte>)

  // ---- Printing ----

  function Body(p: Pair): seq<byte> { p.key + [EQUALS] + p.value }

  predicate Fits(p: Pair) { |p.key| + |p.value| <= PAIR_MAX }

  function Record(p: Pair): seq<byte>
    requires Fits(p)
  {
    [|Body(p)|] + Body(p)
  }

  function Size(pairs: seq<Pair>): nat {
    if pairs == [] then 0 else Size(pairs[..|pairs| - 1]) + |pairs[|pairs| - 1].key| + |pairs[|pairs| - 1].value| + 2
  }

  function PrintAll(pairs: seq<Pair>): (blob: seq<byte>)
    requires forall p <- pairs :: Fits(p)
    ensures |blob| == Size(pairs)
  {
    if pairs == [] then [] else PrintAll(pairs[..|pairs| - 1]) + Record(pairs[|pairs| - 1])
  }

  predicate Printable(pairs: seq<Pair>) {
    pairs != [] && (forall p <- pairs :: Fits(p)) && Size(pairs) <= BLOB_MAX
  }

  function Print(pairs: seq<Pair>): Option<seq<byte>> {
    if Printable(pairs) then Some(PrintAll(pairs)) else None
  }

  // ---- Parsing ----

  /** Nothing is the null result. Overrun is where the source goes on past the string or the blob it was given. */
  datatype Parsed = Pairs(list: seq<Pair>) | Nothing | Overrun

  /** Where a search for '=' that gives up at a NUL comes to a halt. */
  function Halt(s: seq<byte>): (k: nat)
    ensures k <= |s|
    ensures forall i :: 0 <= i < k ==> s[i] != EQUALS && s[i] != NUL
    ensures k < |s| ==> s[k] == EQUALS || s[k] == NUL
  {
    if s == [] || s[0] == EQUALS || s[0] == NUL then 0 else 1 + Halt(s[1..])
  }

  /** The string at the front of what is left of a blob. */
  function ParseOne(rest: seq<byte>): (r: Parsed)
    requires rest != []
    ensures r.Pairs? ==> |r.list| == 1 && 1 + rest[0] <= |rest|
  {
    var length, walker := rest[0], rest[1..];
    var k := Halt(walker);
    if k < |walker| && walker[k] == NUL then Nothing
    else if k == |walker| || k + 1 > length || length > |walker| then Overrun
    else Pairs([Pair(walker[..k], walker[k + 1..length])])
  }

  function ParseAll(rest: seq<byte>): Parsed
    decreases |rest|
  {
    if rest == [] then Pairs([])
    else
      var one := ParseOne(rest);
      if !one.Pairs? then one
      else
        var more := ParseAll(rest[1 + rest[0]..]);
        if more.Pairs? then Pairs(one.list + more.list) else more
  }

  function Parse(blob: seq<byte>): Parsed {
    if |blob| <= 1 then Nothing else ParseAll(blob)
  }

  // ---- The two are inverse ----

  predicate CleanKey(p: Pair) { EQUALS !in p.key && NUL !in p.key }

  lemma HaltAtEquals(key: seq<byte>, rest: seq<byte>)
    ensures Halt(key + [EQUALS] + rest) == Halt(key)
    ensures Halt(key) == |key| <==> EQUALS !in key && NUL !in key
  {
    var s := key + [EQUALS] + rest;
    var k, m := Halt(s), Halt(key);
    assert s[|key|] == EQUALS;
    assert forall i :: 0 <= i < |key| ==> s[i] == key[i];
  }

  /** One string read back. A key that is not clean comes back shorter or not at all. */
  lemma ParseOneRecord(p: Pair, rest: seq<byte>)
    requires Fits(p)
    ensures CleanKey(p) ==> ParseOne(Record(p) + rest) == Pairs([p])
    ensures !CleanKey(p) ==>
      var r := ParseOne(Record(p) + rest);
      r.Nothing? || (r.Pairs? && |r.list[0].key| < |p.key|)
  {
    var s := Record(p) + rest;
    var walker := s[1..];
    assert walker == p.key + [EQUALS] + (p.value + rest);
    HaltAtEquals(p.key, p.value + rest);
    var k := Halt(walker);
    assert walker[..|p.key|] == p.key;
    assert walker[|p.key| + 1..|Body(p)|] == p.value;
  }

  lemma {:induction false} PrintAllCons(pairs: seq<Pair>)
    requires pairs != [] && forall p <- pairs :: Fits(p)
    ensures PrintAll(pairs) == Record(pairs[0]) + PrintAll(pairs[1..])
  {
    hide Record, Fits;
    var last := |pairs| - 1;
    if last == 0 {
      assert pairs == [pairs[0]];
    } else {
      var more := pairs[1..];
      PrintAllCons(pairs[..last]);
      assert pairs[..last][1..] == more[..last - 1] && pairs[..last][0] == pairs[0];
      assert PrintAll(pairs) == PrintAll(pairs[..last]) + Record(pairs[last]);
      assert PrintAll(more) == PrintAll(more[..last - 1]) + Record(pairs[last]);
      hide PrintAll;
      Concat(Record(pairs[0]), PrintAll(more[..last - 1]), Record(pairs[last]));
    }
  }

  lemma {:induction false} ParseAllPrinted(pairs: seq<Pair>)
    requires forall p <- pairs :: Fits(p)
    ensures ParseAll(PrintAll(pairs)) == Pairs(pairs) <==> forall p <- pairs :: CleanKey(p)
    decreases |pairs|
  {
    if pairs != [] {
      var p, more := pairs[0], pairs[1..];
      PrintAllCons(pairs);
      ParseOneRecord(p, PrintAll(more));
      assert pairs == [p] + more;
      assert PrintAll(pairs)[1 + PrintAll(pairs)[0]..] == PrintAll(more);
      ParseAllPrinted(more);
      var one := ParseOne(PrintAll(pairs));
      if one.Pairs? && ParseAll(PrintAll(more)).Pairs? {
        assert (one.list + ParseAll(PrintAll(more)).list)[0] == one.list[0];
        assert (one.list + ParseAll(PrintAll(more)).list)[1..] == ParseAll(PrintAll(more)).list;
      }
    }
  }

  /** A printed list parses back to itself exactly when no key has a '=' or a NUL in it. */
  lemma ParsePrint(pairs: seq<Pair>)
    requires Print(pairs).Some?
    ensures Parse(Print(pairs).value) == Pairs(pairs) <==> forall p <- pairs :: CleanKey(p)
  {
    ParseAllPrinted(pairs);
    PrintAllCons(pairs);
  }

  lemma HaltIs(s: seq<byte>, k: nat)
    requires k < |s| && s[k] in {EQUALS, NUL} && forall i :: 0 <= i < k ==> s[i] != EQUALS && s[i] != NUL
    ensures Halt(s) == k
  {
  }

  /** A string with a '=' and no NUL in front of it. */
  predicate HasKey(body: seq<byte>) { Halt(body) < |body| && body[Halt(body)] == EQUALS }

  lemma ParseOneString(body: seq<byte>, rest: seq<byte>)
    requires |body| <= 255 && HasKey(body)
    ensures ParseOne([|body|] + body + rest).Pairs?
  {
    var s := [|body|] + body + rest;
    assert s[1..] == body + rest;
    var k := Halt(body);
    assert forall i :: 0 <= i <= k ==> (body + rest)[i] == body[i];
    HaltIs(body + rest, k);
  }

  lemma ParsedOne(rest: seq<byte>) returns (body: seq<byte>, tail: seq<byte>)
    requires rest != [] && ParseOne(rest).Pairs?
    ensures |body| == rest[0] && tail == rest[1 + rest[0]..] && rest == [|body|] + body + tail && HasKey(body)
    ensures var p := ParseOne(rest).list[0]; Fits(p) && CleanKey(p) && Record(p) == [|body|] + body
  {
    var walker := rest[1..];
    body, tail := walker[..rest[0]], rest[1 + rest[0]..];
    var k := Halt(walker);
    assert forall i :: 0 <= i <= k ==> body[i] == walker[i];
    HaltIs(body, k);
    var p := ParseOne(rest).list[0];
    assert walker[..k] == p.key == body[..k];
    assert body == p.key + [EQUALS] + p.value;
  }

  lemma {:induction false} PrintAllParsed(rest: seq<byte>)
    requires ParseAll(rest).Pairs?
    ensures forall p <- ParseAll(rest).list :: Fits(p) && CleanKey(p)
    ensures PrintAll(ParseAll(rest).list) == rest
    decreases |rest|
  {
    hide ParseOne, Fits, CleanKey, Record, PrintAll;
    if rest != [] {
      var body, tail := ParsedOne(rest);
      PrintAllParsed(tail);
      var list := ParseAll(rest).list;
      assert list == ParseOne(rest).list + ParseAll(tail).list && list[1..] == ParseAll(tail).list;
      PrintAllCons(list);
    } else {
      NothingPrinted();
    }
  }

  lemma NothingPrinted()
    ensures PrintAll([]) == []
  {
  }

  /** A blob that parses prints back to itself. */
  lemma PrintParse(blob: seq<byte>)
    requires Parse(blob).Pairs? && |blob| <= BLOB_MAX
    ensures Print(Parse(blob).list) == Some(blob)
  {
    PrintAllParsed(blob);
  }

  function Strings(bodies: seq<seq<byte>>): seq<byte>
    requires forall b <- bodies :: |b| <= 255
  {
    if bodies == [] then [] else [|bodies[0]|] + bodies[0] + Strings(bodies[1..])
  }

  lemma {:induction false} StringsParse(bodies: seq<seq<byte>>)
    requires forall b <- bodies :: |b| <= 255 && HasKey(b)
    ensures ParseAll(Strings(bodies)).Pairs?
  {
    hide ParseOne, HasKey;
    if bodies != [] {
      var rest, body := Strings(bodies), bodies[0];
      ParseOneString(body, Strings(bodies[1..]));
      StringsParse(bodies[1..]);
      assert rest[1 + rest[0]..] == Strings(bodies[1..]);
    }
  }

  lemma {:induction false} ParsedStrings(rest: seq<byte>) returns (bodies: seq<seq<byte>>)
    requires ParseAll(rest).Pairs?
    ensures (forall b <- bodies :: |b| <= 255 && HasKey(b)) && Strings(bodies) == rest
    decreases |rest|
  {
    hide ParseOne, HasKey;
    if rest == [] {
      bodies := [];
    } else {
      var body, tail := ParsedOne(rest);
      var more := ParsedStrings(tail);
      bodies := [body] + more;
      assert bodies[1..] == more;
    }
  }

  /** Exactly the blobs that are strings with keys parse: no string may lack its '=' or have a NUL before it. */
  lemma ParsesIffStrings(blob: seq<byte>)
    requires |blob| > 1
    ensures Parse(blob).Pairs? <==>
      exists bodies :: (forall b <- bodies :: |b| <= 255 && HasKey(b)) && Strings(bodies) == blob
  {
    if Parse(blob).Pairs? {
      var bodies := ParsedStrings(blob);
    }
    forall bodies | (forall b <- bodies :: |b| <= 255 && HasKey(b)) && Strings(bodies) == blob ensures Parse(blob).Pairs? {
      StringsParse(bodies);
    }
  }

  // ---- What is printed, and what is wrong with a blob that does not parse ----

  /** The string that a pair is printed as. */
  function Text(p: Pair): seq<byte> { p.key + [61] + p.value }

  function Texts(pairs: seq<Pair>): (r: seq<seq<byte>>)
    ensures |r| == |pairs| && forall i | 0 <= i < |pairs| :: r[i] == Text(pairs[i])
  {
    seq(|pairs|, i requires 0 <= i < |pairs| => Text(pairs[i]))
  }

  /** A list is printed as the strings key=value, each behind its length. */
  lemma {:induction false} PrintIsStrings(pairs: seq<Pair>)
    requires forall p <- pairs :: Fits(p)
    ensures (forall b <- Texts(pairs) :: |b| <= 255) && PrintAll(pairs) == Strings(Texts(pairs))
  {
    if pairs != [] {
      PrintAllCons(pairs);
      PrintIsStrings(pairs[1..]);
      assert Texts(pairs)[1..] == Texts(pairs[1..]);
      assert Record(pairs[0]) == [|Text(pairs[0])|] + Text(pairs[0]);
    }
  }

  /** There is a NUL in a string with no '=' before it. */
  predicate NulFirst(s: seq<byte>) { exists k | 0 <= k < |s| :: s[k] == 0 && forall i | 0 <= i < k :: s[i] != 61 }

  /** The string at the front is wrong: it and what follows have a NUL before the first '='. */
  predicate WrongByNul(tail: seq<byte>) { tail != [] && NulFirst(tail[1..]) }

  /** There is no '=' at all, or the first comes after the string's end, or the string is cut short. */
  predicate WrongByLength(tail: seq<byte>) {
    && tail != [] && !NulFirst(tail[1..])
    && forall k | 1 <= k < |tail| && tail[k] == 61 && k <= tail[0] ::
         (exists i | 1 <= i < k :: tail[i] == 61) || tail[0] as int > |tail| - 1
  }

  lemma NulFirstIsHalt(s: seq<byte>)
    ensures NulFirst(s) <==> Halt(s) < |s| && s[Halt(s)] == NUL
  {
    if Halt(s) < |s| && s[Halt(s)] == NUL {
      assert s[Halt(s)] == 0 && forall i | 0 <= i < Halt(s) :: s[i] != 61;
    }
  }

  lemma WhyOneFails(tail: seq<byte>)
    requires tail != []
    ensures ParseOne(tail).Nothing? <==> WrongByNul(tail)
    ensures ParseOne(tail).Overrun? <==> WrongByLength(tail)
  {
    var walker := tail[1..];
    NulFirstIsHalt(walker);
    var k := Halt(walker);
    assert forall i | 1 <= i <= k && i < |tail| :: walker[i - 1] == tail[i];
    if k < |walker| && walker[k] == EQUALS {
      assert tail[k + 1] == 61;
    }
    forall i | 1 <= i < |tail| && tail[i] == 61 ensures i >= k + 1 {
      assert walker[i - 1] == 61;
    }
  }

  /** A blob does not parse because some string in it is wrong behind strings that are not. */
  lemma {:induction false} WhyAllFails(rest: seq<byte>) returns (bodies: seq<seq<byte>>, tail: seq<byte>)
    requires !ParseAll(rest).Pairs?
    ensures (forall b <- bodies :: |b| <= 255 && HasKey(b)) && rest == Strings(bodies) + tail && tail != []
    ensures ParseAll(rest) == ParseOne(tail)
    decreases |rest|
  {
    hide ParseOne, HasKey;
    if !ParseOne(rest).Pairs? {
      bodies, tail := [], rest;
      assert Strings(bodies) + tail == rest;
    } else {
      var body, later := ParsedOne(rest);
      var more, end := WhyAllFails(later);
      bodies, tail := [body] + more, end;
      assert bodies[1..] == more;
      Concat([|body|] + body, Strings(more), tail);
    }
  }

  lemma {:induction false} FailsBehind(bodies: seq<seq<byte>>, tail: seq<byte>)
    requires (forall b <- bodies :: |b| <= 255 && HasKey(b)) && tail != [] && !ParseOne(tail).Pairs?
    ensures ParseAll(Strings(bodies) + tail) == ParseOne(tail)
  {
    hide ParseOne, HasKey;
    var rest := Strings(bodies) + tail;
    if bodies == [] {
      assert rest == tail;
    } else {
      var body := bodies[0];
      var later := Strings(bodies[1..]) + tail;
      Concat([|body|] + body, Strings(bodies[1..]), tail);
      ParseOneString(body, later);
      FailsBehind(bodies[1..], tail);
      assert rest[1 + rest[0]..] == later;
    }
  }

  /** Strings with keys, and behind them one that is wrong. */
  ghost predicate BreaksOff(blob: seq<byte>, bodies: seq<seq<byte>>, tail: seq<byte>) {
    (forall b <- bodies :: |b| <= 255 && HasKey(b)) && blob == Strings(bodies) + tail
  }

  /**
   The three outcomes on any bytes. Nothing is the result for at most one byte, and where a NUL comes before the '='
   that is looked for; the parser goes past a string, or past the blob, exactly where there is no such '=' in it.
   */
  lemma ParseOutcomes(blob: seq<byte>)
    ensures |blob| <= 1 ==> Parse(blob).Nothing?
    ensures |blob| > 1 ==>
      && (Parse(blob).Nothing? <==> exists bodies, tail :: BreaksOff(blob, bodies, tail) && WrongByNul(tail))
      && (Parse(blob).Overrun? <==> exists bodies, tail :: BreaksOff(blob, bodies, tail) && WrongByLength(tail))
  {
    hide ParseOne, HasKey, WrongByNul, WrongByLength;
    if |blob| > 1 {
      forall bodies, tail | BreaksOff(blob, bodies, tail) && (WrongByNul(tail) || WrongByLength(tail))
        ensures tail != [] && Parse(blob) == ParseOne(tail)
        ensures ParseOne(tail).Nothing? <==> WrongByNul(tail)
        ensures ParseOne(tail).Overrun? <==> WrongByLength(tail)
      {
        WrongIsSomething(tail);
        WhyOneFails(tail);
        FailsBehind(bodies, tail);
      }
      if !Parse(blob).Pairs? {
        var bodies, tail := WhyAllFails(blob);
        WhyOneFails(tail);
        assert BreaksOff(blob, bodies, tail);
      }
    }
  }

  lemma WrongIsSomething(tail: seq<byte>)
    requires WrongByNul(tail) || WrongByLength(tail)
    ensures tail != []
  {
  }
}
