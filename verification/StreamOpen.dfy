/**
 Opening a stream. The first message each way settles which codec the rest use, and each end switches in the
 middle of the conversation; they must switch at the same message.
 */
module StreamOpen {
  import opened Bytes
  import opened Pipes
  import opened Compression
  import opened Streams

  const BUILTIN_VERSION := 1
  const TYPE_NONE := 0
  const TYPE_LZ4 := 400
  const INIT := 4
  const RESPONSE := 2

  datatype Verdict = Error | Okay | VersionUnsupported | CompressionUnsupported

  function VerdictCode(v: Verdict): nat {
    match v
    case Error => 0
    case Okay => 1
    case VersionUnsupported => 2
    case CompressionUnsupported => 3
  }

  /** Every type but LZ4 gets the pass-through codec. */
  function CodecFor(ctype: nat, lz4: Codec): Codec {
    if ctype == TYPE_LZ4 then lz4 else Plain
  }

  function InitMessage(version: nat, ctype: nat): (m: seq<byte>)
    ensures |m| == INIT
  {
    EncodeLE(version, 2) + EncodeLE(ctype, 2)
  }

  /** The announcement, byte by byte. */
  lemma InitLayout(version: nat, ctype: nat)
    ensures InitMessage(version, ctype) == [version % 256, version / 256 % 256, ctype % 256, ctype / 256 % 256]
  {
    LittleEndian2(version);
    LittleEndian2(ctype);
  }

  predicate Fits16(n: nat) { n <= UINT16_MAX }

  lemma InitRoundTrip(version: nat, ctype: nat)
    requires Fits16(version) && Fits16(ctype)
    ensures var m := InitMessage(version, ctype);
            DecodeLE(m[..2]) == version && DecodeLE(m[2..]) == ctype
  {
    Capacities();
    DecodeEncodeLE(version, 2);
    DecodeEncodeLE(ctype, 2);
    assert InitMessage(version, ctype)[..2] == EncodeLE(version, 2);
    assert InitMessage(version, ctype)[2..] == EncodeLE(ctype, 2);
  }

  /** What the acceptor answers. */
  function Judge(version: nat, ctype: nat): Verdict {
    if version != BUILTIN_VERSION then VersionUnsupported
    else if ctype != TYPE_NONE && ctype != TYPE_LZ4 then CompressionUnsupported
    else Okay
  }

  /** The opener's first half: announce under the old codec, then switch both directions. */
  method SendInit(s: Stream, version: nat, ctype: nat, lz4: Codec) returns (okay: bool)
    requires Lossless(s.downCodec) && Lossless(lz4)
    modifies s`written, s`downCodec, s`upCodec, s.down
    ensures okay
    ensures s.down.data == old(s.down.data) + Encode(old(s.downCodec), InitMessage(version, ctype))
    ensures old(s.downCodec).Plain? ==>
      s.down.data == old(s.down.data) + [version % 256, version / 256 % 256, ctype % 256, ctype / 256 % 256]
    ensures s.downCodec == s.upCodec == if ctype == 400 then lz4 else Plain
  {
    InitLayout(version, ctype);
    okay := s.WriteDown(InitMessage(version, ctype));
    if okay {
      s.SetCompression(CodecFor(ctype, lz4));
    }
  }

  /** The acceptor: read the announcement under the old codec, switch if it is acceptable, answer. */
  method Accept(s: Stream, lz4: Codec) returns (okay: bool, verdict: Verdict)
    requires Lossless(s.downCodec) && Lossless(lz4) && s.down != s.up
    modifies s`written, s`asked, s`downCodec, s`upCodec, s.down, s.up
    ensures match Decode(old(s.upCodec), old(s.up.data), INIT, INIT)
            case Message(m, rest) =>
              var version, ctype := DecodeLE(m[..2]), DecodeLE(m[2..]);
              && verdict == Judge(version, ctype) && okay == verdict.Okay?
              && s.downCodec == (if okay then CodecFor(ctype, lz4) else old(s.downCodec))
              && s.upCodec == (if okay then CodecFor(ctype, lz4) else old(s.upCodec))
              && s.up.data == rest
              && s.down.data == old(s.down.data) + Encode(s.downCodec, EncodeLE(VerdictCode(verdict), RESPONSE))
            case _ => !okay
  {
    hide Decode, Encode;
    okay, verdict := false, Error;
    var result, m := s.ReadUp(INIT, INIT);
    if !result.Success? {
      return;
    }
    var version, ctype := DecodeLE(m[..2]), DecodeLE(m[2..]);
    verdict := Okay;
    if version != BUILTIN_VERSION {
      verdict := VersionUnsupported;
    } else if ctype != TYPE_NONE && ctype != TYPE_LZ4 {
      verdict := CompressionUnsupported;
    } else {
      s.SetCompression(CodecFor(ctype, lz4));
    }
    var sent := s.WriteDown(EncodeLE(VerdictCode(verdict), RESPONSE));
    okay := verdict.Okay?;
  }

  /**
   The opener's second half. The success flag was set when the codec was installed and no branch after that
   clears it, so a refusal, or no answer at all, is reported as success; `code` is what it was told.
   */
  method AwaitResponse(s: Stream) returns (okay: bool, code: Option<nat>)
    modifies s`asked, s.up
    ensures okay
    ensures match Decode(s.upCodec, old(s.up.data), RESPONSE, RESPONSE)
            case Message(m, rest) => code == Some(DecodeLE(m)) && s.up.data == rest
            case _ => code == None
  {
    hide Decode;
    okay, code := true, None;
    var result, m := s.ReadUp(RESPONSE, RESPONSE);
    if result.Success? {
      code := Some(DecodeLE(m));
      if code.value == VerdictCode(Okay) {
        okay := true;
      }
    }
  }

  /**
   A whole opening, over two pipes that the plexers make of one stream. The two ends leave with the same codecs
   and the answer is understood exactly when the opener kept the plain codec or spoke the acceptor's version;
   the acceptor is content exactly when it supports what was asked; the opener reports success regardless.
   */
  method Open(opener: Stream, acceptor: Stream, version: nat, ctype: nat, lz4: Codec)
    returns (openerOkay: bool, acceptorOkay: bool, code: Option<nat>)
    requires opener.down == acceptor.up && opener.up == acceptor.down && opener.down != opener.up
    requires opener != acceptor && opener.down.data == [] && opener.up.data == []
    requires opener.downCodec == opener.upCodec == acceptor.downCodec == acceptor.upCodec == Plain
    requires lz4.LZ4? && Lossless(lz4) && Fits16(version) && Fits16(ctype)
    modifies opener, acceptor, opener.down, opener.up
    ensures openerOkay
    ensures acceptorOkay <==> version == 1 && (ctype == 0 || ctype == 400)
    ensures acceptorOkay ==> opener.down.data == [] && opener.up.data == []
    ensures opener.downCodec == opener.upCodec == if ctype == 400 then lz4 else Plain
    ensures acceptor.downCodec == acceptor.upCodec == if version == 1 && ctype == 400 then lz4 else Plain
    ensures opener.downCodec == acceptor.upCodec && opener.upCodec == acceptor.downCodec <==> version == 1 || ctype != 400
    ensures code ==
      if version == 1 then Some(if ctype == 0 || ctype == 400 then 1 else 3)
      else if ctype != 400 then Some(2)
      else None
  {
    openerOkay := SendInit(opener, version, ctype, lz4);
    InitRoundTrip(version, ctype);
    DecodeEncode(Plain, InitMessage(version, ctype), [], INIT);
    assert opener.down.data == Encode(Plain, InitMessage(version, ctype)) + [];
    var verdict;
    acceptorOkay, verdict := Accept(acceptor, lz4);
    var answer := EncodeLE(VerdictCode(verdict), RESPONSE);
    Capacities();
    DecodeEncodeLE(VerdictCode(verdict), RESPONSE);
    DecodeEncode(acceptor.downCodec, answer, [], RESPONSE);
    assert opener.up.data == Encode(acceptor.downCodec, answer) + [];
    openerOkay, code := AwaitResponse(opener);
  }
}
