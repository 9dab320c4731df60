/** The printer's two passes and the parser's loop over its growing list. */
module TxtLoops {
  import opened Bytes
  import opened TxtRecord

  // ---- Printer ----

  lemma {:induction false} SizeOfPrefix(pairs: seq<Pair>, i: nat)
    requires i <= |pairs|
    ensures Size(pairs[..i]) <= Size(pairs)
    decreases |pairs| - i
  {
    if i == |pairs| {
      assert pairs[..i] == pairs;
    } else {
      SizeOfPrefix(pairs, i + 1);
      assert pairs[..i + 1][..i] == pairs[..i];
    }
  }

  /** Copies a buffer into its place in the blob. */
  method Copy(blob: array<byte>, off: nat, from: seq<byte>)
    requires off + |from| <= blob.Length
    modifies blob
    ensures blob[..off + |from|] == old(blob[..off]) + from
  {
    var i := 0;
    while i < |from|
      invariant i <= |from| && blob[..off + i] == old(blob[..off]) + from[..i]
    {
      blob[off + i] := from[i];
      assert blob[..off + i + 1] == blob[..off + i] + [from[i]];
      i := i + 1;
    }
  }

  method PutByte(blob: array<byte>, off: nat, b: byte)
    requires off < blob.Length
    modifies blob
    ensures blob[..off + 1] == old(blob[..off]) + [b]
  {
    blob[off] := b;
  }

  /** The first pass: the size of the blob, or a refusal. */
  method Measure(pairs: seq<Pair>) returns (ok: bool, size: nat)
    ensures ok <==> (forall p <- pairs :: Fits(p)) && Size(pairs) <= BLOB_MAX
    ensures ok ==> size == Size(pairs)
  {
    size := 0;
    var i := 0;
    while i < |pairs|
      invariant i <= |pairs| && size == Size(pairs[..i]) <= BLOB_MAX
      invariant forall p <- pairs[..i] :: Fits(p)
    {
      assert pairs[..i + 1] == pairs[..i] + [pairs[i]];
      SizeOfPrefix(pairs, i + 1);
      assert pairs[i] in pairs;
      if |pairs[i].key| > PAIR_MAX {
        return false, size;
      }
      if |pairs[i].key| + |pairs[i].value| > PAIR_MAX {
        return false, size;
      }
      var more := |pairs[i].key| + |pairs[i].value| + 2;
      if size + more > BLOB_MAX {
        return false, size;
      }
      size := size + more;
      i := i + 1;
    }
    assert pairs[..i] == pairs;
    ok := true;
  }

  /** The second pass: writes the strings one behind the other and ends exactly at the end of the blob. */
  method Fill(blob: array<byte>, pairs: seq<Pair>)
    requires (forall p <- pairs :: Fits(p)) && blob.Length == Size(pairs)
    modifies blob
    ensures blob[..] == PrintAll(pairs)
  {
    var off, i := 0, 0;
    while i < |pairs|
      invariant i <= |pairs| && off == Size(pairs[..i]) <= blob.Length
      invariant forall p <- pairs[..i] :: Fits(p)
      invariant blob[..off] == PrintAll(pairs[..i])
    {
      assert pairs[..i + 1][..i] == pairs[..i];
      SizeOfPrefix(pairs, i + 1);
      WriteRecord(blob, off, pairs[i]);
      off := off + 1 + |pairs[i].key| + 1 + |pairs[i].value|;
      i := i + 1;
    }
    assert pairs[..i] == pairs;
    assert blob[..off] == blob[..];
  }

  method WriteRecord(blob: array<byte>, off: nat, p: Pair)
    requires Fits(p) && off + |Record(p)| <= blob.Length
    modifies blob
    ensures blob[..off + |Record(p)|] == old(blob[..off]) + Record(p)
  {
    ghost var front := blob[..off];
    var length, keyLen := |p.key| + 1 + |p.value|, |p.key|;
    PutByte(blob, off, length);
    Copy(blob, off + 1, p.key);
    PutByte(blob, off + 1 + keyLen, EQUALS);
    Copy(blob, off + 1 + keyLen + 1, p.value);
    assert front + [length] + p.key + [EQUALS] + p.value == front + Record(p);
  }

  /** The strings key=value, each behind its length; nothing if one is too long. */
  function Joined(pairs: seq<Pair>): seq<byte> {
    if forall p <- pairs :: |p.key| + |p.value| <= 254 then
      AllShort(pairs);
      Strings(Texts(pairs))
    else []
  }

  lemma AllShort(pairs: seq<Pair>)
    requires forall p <- pairs :: |p.key| + |p.value| <= 254
    ensures forall b <- Texts(pairs) :: |b| <= 255
  {
    PrintIsStrings(pairs);
  }

  lemma PrintableBySize(pairs: seq<Pair>)
    ensures Printable(pairs) <==>
      pairs != [] && (forall p <- pairs :: |p.key| + |p.value| <= 254) && |Joined(pairs)| <= 65535
    ensures Printable(pairs) ==> Print(pairs) == Some(Joined(pairs))
  {
    if forall p <- pairs :: Fits(p) {
      PrintIsStrings(pairs);
    }
  }

  /** length is the number of pairs on the way in and of bytes on the way out; a refusal leaves it alone. */
  method TxtBlobCreate(pairs: seq<Pair>) returns (blob: array?<byte>, length: nat)
    ensures blob != null <==> Printable(pairs)
    ensures blob != null ==> fresh(blob) && Print(pairs) == Some(blob[..]) && length == blob.Length
    ensures blob != null <==>
      pairs != [] && (forall p <- pairs :: |p.key| + |p.value| <= 254) && |Joined(pairs)| <= 65535
    ensures blob != null ==> blob[..] == Joined(pairs)
    ensures blob == null ==> length == |pairs|
  {
    PrintableBySize(pairs);
    hide Joined;
    var ok, size := Measure(pairs);
    if !ok {
      return null, |pairs|;
    }
    if size == 0 {
      return null, 0;
    }
    var filled := new byte[size];
    Fill(filled, pairs);
    return filled, size;
  }

  // ---- Parser ----

  /** strstr for "=". */
  method Search(s: seq<byte>) returns (k: nat)
    ensures k == Halt(s)
  {
    k := 0;
    while k < |s| && s[k] != NUL && s[k] != EQUALS
      invariant k <= |s| && forall i :: 0 <= i < k ==> s[i] != EQUALS && s[i] != NUL
    {
      k := k + 1;
    }
    if k < |s| {
      HaltIs(s, k);
    }
  }

  /** The list with its last element at the end, moved to twice the room if it was full. */
  method Append(list: array<Pair>, size: nat, p: Pair) returns (grown: array<Pair>)
    requires 0 < list.Length && size <= list.Length
    modifies list
    ensures size < grown.Length && grown[..size + 1] == old(list[..size]) + [p]
    ensures if size == list.Length then fresh(grown) && grown.Length == 2 * size else grown == list
  {
    grown := list;
    if size == list.Length {
      grown := new Pair[2 * list.Length](_ => Pair([], []));
      forall i | 0 <= i < size {
        grown[i] := list[i];
      }
      assert grown[..size] == list[..size];
    }
    grown[size] := p;
  }

  /** One pass of the parser's loop: the pair whose string is at the offset. */
  method PairAt(blob: seq<byte>, offset: nat) returns (r: Parsed)
    requires offset < |blob|
    ensures r == ParseOne(blob[offset..])
  {
    var length, walker := blob[offset], blob[offset + 1..];
    assert blob[offset..][0] == length && blob[offset..][1..] == walker;
    var k := Search(walker);
    if k < |walker| && walker[k] == NUL {
      return Nothing;
    }
    if k == |walker| || k + 1 > length || length > |walker| {
      return Overrun;
    }
    return Pairs([Pair(walker[..k], walker[k + 1..length])]);
  }

  method TxtKeyPairsCreate(blob: seq<byte>) returns (r: Parsed)
    ensures r == Parse(blob) && (|blob| <= 1 ==> r == Nothing)
  {
    if |blob| <= 1 {
      return Nothing;
    }
    var list := new Pair[20](_ => Pair([], []));
    var size, offset := 0, 0;
    ghost var pairs, rest := [], blob;
    ResumeEnds(pairs, rest);
    assert ParseAll(blob) == Parse(blob);
    hide Parse, ParseOne, ParseAll, Resumed;
    while offset < |blob|
      invariant offset <= |blob| && rest == blob[offset..]
      invariant 0 < list.Length && size <= list.Length && fresh(list) && list[..size] == pairs
      invariant Resumed(pairs, ParseAll(rest)) == Parse(blob)
      decreases |blob| - offset
    {
      var one := PairAt(blob, offset);
      if !one.Pairs? {
        ResumeEnds(pairs, rest);
        return one;
      }
      ResumeOne(pairs, one.list[0], rest);
      list := Append(list, size, one.list[0]);
      pairs, rest := pairs + [one.list[0]], rest[1 + rest[0]..];
      size := size + 1;
      offset := offset + blob[offset] + 1;
    }
    ResumeEnds(pairs, rest);
    return Pairs(list[..size]);
  }

  /** What parsing amounts to once the pairs in front are known. */
  function Resumed(front: seq<Pair>, more: Parsed): Parsed {
    if more.Pairs? then Pairs(front + more.list) else more
  }

  lemma ResumeOne(front: seq<Pair>, p: Pair, rest: seq<byte>)
    requires rest != [] && ParseOne(rest) == Pairs([p])
    ensures Resumed(front, ParseAll(rest)) == Resumed(front + [p], ParseAll(rest[1 + rest[0]..]))
  {
    hide ParseOne;
    var more := ParseAll(rest[1 + rest[0]..]);
    if more.Pairs? {
      Concat(front, [p], more.list);
    }
  }

  lemma ResumeEnds(front: seq<Pair>, rest: seq<byte>)
    ensures front == [] ==> Resumed(front, ParseAll(rest)) == ParseAll(rest)
    ensures rest == [] ==> Resumed(front, ParseAll(rest)) == Pairs(front)
    ensures rest != [] && !ParseOne(rest).Pairs? ==> Resumed(front, ParseAll(rest)) == ParseOne(rest)
  {
    hide ParseOne;
    if front == [] && ParseAll(rest).Pairs? {
      assert front + ParseAll(rest).list == ParseAll(rest).list;
    }
  }
}
