/** Byte strings, and the fixed-width little-endian encodings that C structs take on a pipe or a socket. */
module Bytes {
  type byte = b: int | 0 <= b < 256

  datatype Option<+T> = None | Some(value: T)

  /** The number of values a w-byte field can hold. */
  function Capacity(w: nat): (p: nat)
    ensures p >= 1
  {
    if w == 0 then 1 else 256 * Capacity(w - 1)
  }

  function EncodeLE(n: nat, w: nat): (r: seq<byte>)
    ensures |r| == w
  {
    if w == 0 then [] else [n % 256] + EncodeLE(n / 256, w - 1)
  }

  function DecodeLE(s: seq<byte>): (n: nat)
    ensures n < Capacity(|s|)
  {
    if s == [] then 0 else s[0] + 256 * DecodeLE(s[1..])
  }

  lemma {:induction false} DecodeEncodeLE(n: nat, w: nat)
    requires n < Capacity(w)
    ensures DecodeLE(EncodeLE(n, w)) == n
  {
    if w > 0 {
      DecodeEncodeLE(n / 256, w - 1);
      assert EncodeLE(n, w)[1..] == EncodeLE(n / 256, w - 1);
    }
  }

  lemma LowByte(b: byte, n: nat)
    ensures (b as int + 256 * n) % 256 == b && (b as int + 256 * n) / 256 == n
  {
  }

  lemma {:induction false} EncodeDecodeLE(s: seq<byte>)
    ensures EncodeLE(DecodeLE(s), |s|) == s
  {
    if s != [] {
      EncodeDecodeLE(s[1..]);
      assert s == [s[0]] + s[1..];
      LowByte(s[0], DecodeLE(s[1..]));
      EncodeLEFirst(DecodeLE(s), |s| - 1);
      hide EncodeLE;
    }
  }

  /** The least significant byte comes first. */
  lemma LittleEndian2(n: nat)
    ensures EncodeLE(n, 2) == [n % 256, n / 0x100 % 256]
  {
    assert EncodeLE(n / 256, 1) == [n / 256 % 256] + EncodeLE(n / 256 / 256, 0);
  }

  lemma LittleEndian4(n: nat)
    ensures EncodeLE(n, 4) == [n % 256, n / 0x100 % 256, n / 0x1_0000 % 256, n / 0x100_0000 % 256]
  {
    LittleEndian2(n / 0x1_0000);
    assert EncodeLE(n / 256, 3) == [n / 256 % 256] + EncodeLE(n / 256 / 256, 2);
    assert n / 256 / 256 == n / 0x1_0000;
  }

  lemma EncodeLEFirst(n: nat, w: nat)
    ensures EncodeLE(n, w + 1) == [n % 256] + EncodeLE(n / 256, w)
  {
  }

  lemma Quotients(n: nat)
    ensures n / 0x100 / 0x100 == n / 0x1_0000 && n / 0x1_0000 / 0x100 == n / 0x100_0000
    ensures n / 0x100_0000 / 0x100 == n / 0x1_0000_0000
  {
  }

  lemma LittleEndian8(n: nat)
    ensures EncodeLE(n, 8) == [
      n % 256, n / 0x100 % 256, n / 0x1_0000 % 256, n / 0x100_0000 % 256,
      n / 0x1_0000_0000 % 256, n / 0x1_0000_0000 / 0x100 % 256,
      n / 0x1_0000_0000 / 0x1_0000 % 256, n / 0x1_0000_0000 / 0x100_0000 % 256]
  {
    EncodeLEFirst(n, 7);
    EncodeLEFirst(n / 0x100, 6);
    EncodeLEFirst(n / 0x1_0000, 5);
    EncodeLEFirst(n / 0x100_0000, 4);
    LittleEndian4(n / 0x1_0000_0000);
    Quotients(n);
    hide *;
  }

  const TWO_TO_64 := 0x1_0000_0000_0000_0000
  const TWO_TO_63 := 0x8000_0000_0000_0000
  const TWO_TO_32 := 0x1_0000_0000
  const TWO_TO_31 := 0x8000_0000

  lemma Capacities()
    ensures Capacity(2) == 0x1_0000 && Capacity(4) == TWO_TO_32 && Capacity(8) == TWO_TO_64
  {
    assert Capacity(4) == 256 * 256 * Capacity(2);
    assert Capacity(6) == 256 * 256 * Capacity(4);
    assert Capacity(8) == 256 * 256 * Capacity(6);
  }

  predicate IsInt64(x: int) { -TWO_TO_63 <= x < TWO_TO_63 }

  predicate IsInt32(x: int) { -TWO_TO_31 <= x < TWO_TO_31 }

  /** Two's complement. */
  function EncodeInt64(x: int): (r: seq<byte>)
    ensures |r| == 8
  {
    EncodeLE(x % TWO_TO_64, 8)
  }

  function DecodeInt64(s: seq<byte>): int
    requires |s| == 8
  {
    var n := DecodeLE(s);
    if n < TWO_TO_63 then n else n - TWO_TO_64
  }

  lemma DecodeEncodeInt64(x: int)
    requires IsInt64(x)
    ensures DecodeInt64(EncodeInt64(x)) == x
  {
    Capacities();
    DecodeEncodeLE(x % TWO_TO_64, 8);
  }

  lemma EncodeDecodeInt64(s: seq<byte>)
    requires |s| == 8
    ensures EncodeInt64(DecodeInt64(s)) == s
  {
    hide EncodeLE, DecodeLE, Capacity;
    Capacities();
    EncodeDecodeLE(s);
    var n := DecodeLE(s);
    assert (n - TWO_TO_64) % TWO_TO_64 == n;
  }

  function EncodeInt32(x: int): (r: seq<byte>)
    ensures |r| == 4
  {
    EncodeLE(x % TWO_TO_32, 4)
  }

  function DecodeInt32(s: seq<byte>): int
    requires |s| == 4
  {
    var n := DecodeLE(s);
    if n < TWO_TO_31 then n else n - TWO_TO_32
  }

  lemma DecodeEncodeInt32(x: int)
    requires IsInt32(x)
    ensures DecodeInt32(EncodeInt32(x)) == x
  {
    Capacities();
    DecodeEncodeLE(x % TWO_TO_32, 4);
  }

  lemma EncodeDecodeInt32(s: seq<byte>)
    requires |s| == 4
    ensures EncodeInt32(DecodeInt32(s)) == s
  {
    hide EncodeLE, DecodeLE, Capacity;
    Capacities();
    EncodeDecodeLE(s);
    var n := DecodeLE(s);
    assert (n - TWO_TO_32) % TWO_TO_32 == n;
  }

  function Min(a: nat, b: nat): nat { if a <= b then a else b }

  lemma Concat<T>(a: seq<T>, b: seq<T>, c: seq<T>)
    ensures a + (b + c) == (a + b) + c
  {
  }
}
