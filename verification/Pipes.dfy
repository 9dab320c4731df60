/** Pipes and files as byte queues, and the two loops that turn short reads and writes into full ones. */
module Pipes {
  import opened Bytes

  /**
   Aborted stands for a failed assertion: the process stops. Overrun stands for a write past the end of the
   caller's buffer, after which nothing more is said of the process.
   */
  datatype IOResult = Success | EndOfFile | Aborted | Overrun

  /** A queue of unread bytes. An empty queue reads as end of file: whoever filled it has finished. */
  class Pipe {
    var data: seq<byte>

    constructor (initial: seq<byte>)
      ensures data == initial
    {
      data := initial;
    }

    /** One read(2): some non-empty part of what was asked for, or nothing at end of file. */
    method Read(limit: nat) returns (got: seq<byte>)
      requires limit > 0
      modifies this
      ensures |got| <= limit && old(data) == got + data
      ensures got == [] <==> old(data) == []
    {
      if data == [] {
        return [];
      }
      var k :| 1 <= k <= |data| && k <= limit;
      got := data[..k];
      data := data[k..];
    }

    /** One write(2): some non-empty part of the buffer is accepted. */
    method Write(buffer: seq<byte>) returns (n: nat)
      requires buffer != []
      modifies this
      ensures 1 <= n <= |buffer| && data == old(data) + buffer[..n]
    {
      n :| 1 <= n <= |buffer|;
      data := data + buffer[..n];
    }
  }

  method ReadFull(p: Pipe, bytes: nat) returns (result: IOResult, got: seq<byte>)
    modifies p
    ensures result.Aborted? <==> bytes == 0
    ensures bytes == 0 ==> got == [] && p.data == old(p.data)
    ensures got == old(p.data)[..Min(bytes, |old(p.data)|)] && old(p.data) == got + p.data
    ensures bytes > 0 ==> result == if |old(p.data)| >= bytes then Success else EndOfFile
  {
    got := [];
    if bytes == 0 {
      return Aborted, got;
    }
    result := Success;
    while |got| < bytes
      invariant |got| <= bytes && old(p.data) == got + p.data && result.Success?
      decreases bytes - |got|
    {
      var part := p.Read(bytes - |got|);
      if part == [] {
        result := EndOfFile;
        break;
      }
      got := got + part;
    }
  }

  method WriteFull(p: Pipe, buffer: seq<byte>) returns (result: IOResult, written: nat)
    modifies p
    ensures result == (if buffer == [] then Aborted else Success)
    ensures written == |buffer| && p.data == old(p.data) + buffer
  {
    written := 0;
    if buffer == [] {
      return Aborted, 0;
    }
    while written < |buffer|
      invariant written <= |buffer| && p.data == old(p.data) + buffer[..written]
    {
      var n := p.Write(buffer[written..]);
      assert buffer[..written] + buffer[written..][..n] == buffer[..written + n];
      written := written + n;
    }
    return Success, written;
  }
}
