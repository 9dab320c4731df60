/** A stream end: a pipe down to the plexer, a pipe up from it, and a codec on each. */
module Streams {
  import opened Bytes
  import opened Pipes
  import opened Compression

  class Stream {
    const down: Pipe
    const up: Pipe
    var downCodec: Codec
    var upCodec: Codec
    ghost var written: seq<nat>  // lengths handed to WriteDown
    ghost var asked: seq<nat>   // lengths asked of ReadUp

    constructor (down: Pipe, up: Pipe)
      ensures this.down == down && this.up == up
      ensures downCodec == Plain && upCodec == Plain && written == [] && asked == []
    {
      this.down, this.up := down, up;
      downCodec, upCodec := Plain, Plain;
      written, asked := [], [];
    }

    method SetCompression(codec: Codec)
      modifies this`downCodec, this`upCodec
      ensures downCodec == codec && upCodec == codec
    {
      downCodec := codec;
      upCodec := codec;
    }

    /** The C loop around the codec's write runs exactly once: it advances by the whole length. */
    method WriteDown(m: seq<byte>) returns (ok: bool)
      requires Lossless(downCodec)
      modifies this`written, down
      ensures ok <==> IsMessage(m)
      ensures ok ==> down.data == old(down.data) + Encode(downCodec, m)
      ensures written == old(written) + [|m|]
    {
      written := written + [|m|];
      var result;
      if downCodec.LZ4? {
        result := LZ4Write(downCodec, down, m);
      } else {
        var count;
        result, count := WriteFull(down, m);
        if count > UINT16_MAX {
          result := Aborted;
        }
      }
      ok := result.Success?;
    }

    /** A read of exactly `length` bytes into a buffer of `room`. */
    method ReadUp(length: nat, room: nat) returns (result: IOResult, got: seq<byte>)
      modifies this`asked, up
      ensures match Decode(upCodec, old(up.data), length, room)
              case Message(m, rest) => result.Success? && got == m && up.data == rest
              case Starved(partial) => result.EndOfFile? && got == partial
              case Fatal => result.Aborted?
              case Overran => result.Overrun?
      ensures |up.data| <= |old(up.data)|
      ensures asked == old(asked) + [length]
    {
      asked := asked + [length];
      if upCodec.LZ4? {
        result, got := LZ4Read(upCodec, up, length, room);
      } else {
        result, got := ReadFull(up, length);
        if |got| > room {
          return Overrun, got;
        }
      }
      if result.Success? && |got| != length {
        result := Aborted;
      }
    }
  }
}
