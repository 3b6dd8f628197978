/** Bytes and the fixed-width integers that cross the wire. */
module Bytes {

  type Byte = x: int | 0 <= x < 256

  datatype Option<+T> = None | Some(value: T)

  function Min(a: nat, b: nat): nat { if a < b then a else b }

  function Low(x: int): Byte {
    x % 256
  }

  /** Two's-complement reading of the low 32 bits, as a C++ `int32_t` atomic wraps. */
  function Wrap32(x: int): int {
    (x + 0x8000_0000) % 0x1_0000_0000 - 0x8000_0000
  }

  predicate InInt32(x: int) {
    -0x8000_0000 <= x < 0x8000_0000
  }

  function Clamp16(v: int): int {
    if v < -32768 then -32768 else if v > 32767 then 32767 else v
  }

  /** Little-endian bytes of an int16 / int32, in two's complement. */
  function Le16(v: int): seq<Byte> {
    [v % 256, v / 256 % 256]
  }

  function Le32(v: int): seq<Byte> {
    [v % 256, v / 256 % 256, v / 65536 % 256, v / 16777216 % 256]
  }

  /** The browser's `lo | (hi << 8)`, then the sign fix-up. */
  function JsUint16(lo: Byte, hi: Byte): int {
    lo + 256 * hi
  }

  function JsInt16(lo: Byte, hi: Byte): int {
    var raw := JsUint16(lo, hi);
    if raw >= 0x8000 then raw - 0x1_0000 else raw
  }

  /** The browser's four shifted bytes or-ed together as a signed 32-bit number. */
  function JsInt32(a: Byte, b: Byte, c: Byte, d: Byte): int {
    a + 256 * b + 65536 * c + 16777216 * (if d >= 128 then d - 256 else d)
  }

  /** int8_t read from a byte, and the browser's `d & 0xFF`. */
  function Int8(b: Byte): int {
    if b >= 128 then b - 256 else b
  }

  lemma Le16RoundTrip(v: int)
    requires -32768 <= v <= 32767
    ensures JsInt16(Le16(v)[0], Le16(v)[1]) == v
  {
    assert v == 256 * (v / 256) + v % 256;
    var q := v / 256;
    assert -128 <= q <= 127;
    assert q % 256 == if q < 0 then q + 256 else q;
  }

  lemma Le32RoundTrip(v: int)
    requires InInt32(v)
    ensures JsInt32(Le32(v)[0], Le32(v)[1], Le32(v)[2], Le32(v)[3]) == v
  {
    var q1, q2, q3 := v / 256, v / 65536, v / 16777216;
    assert v == 256 * q1 + v % 256;
    assert q2 == q1 / 256 && q3 == q2 / 256;
    assert q1 == 256 * q2 + q1 % 256 && q2 == 256 * q3 + q2 % 256;
    assert -128 <= q3 <= 127;
    assert q3 % 256 == if q3 < 0 then q3 + 256 else q3;
  }

  /** Wrapping once at the end or at every addition gives the same residue. */
  lemma Wrap32Add(a: int, b: int)
    ensures Wrap32(Wrap32(a) + b) == Wrap32(a + b)
  {
    var m := 0x1_0000_0000;
    var k := (a + 0x8000_0000) / m;
    assert Wrap32(a) == a - k * m;
    assert (a + b + 0x8000_0000 - k * m) % m == (a + b + 0x8000_0000) % m;
  }

  lemma Wrap32Id(a: int)
    ensures InInt32(Wrap32(a))
    ensures Wrap32(a) == a <==> InInt32(a)
  {
  }

  /** memcpy into a buffer. */
  method CopyOut(buf: array<Byte>, at: nat, bytes: seq<Byte>)
    requires at + |bytes| <= buf.Length
    modifies buf
    ensures buf[at..at + |bytes|] == bytes
    ensures buf[..at] == old(buf[..at]) && buf[at + |bytes|..] == old(buf[at + |bytes|..])
  {
    for i := 0 to |bytes|
      invariant buf[at..at + i] == bytes[..i]
      invariant buf[..at] == old(buf[..at]) && buf[at + |bytes|..] == old(buf[at + |bytes|..])
    {
      buf[at + i] := bytes[i];
    }
  }

  /** A stretch of the second part of a concatenation. */
  lemma SliceOfSecond(a: seq<Byte>, b: seq<Byte>, i: nat, n: nat)
    requires i + n <= |b|
    ensures (a + b)[|a| + i..|a| + i + n] == b[i..i + n]
  {
  }

  lemma MulMono(a: int, b: int, c: int)
    ensures a <= b && c >= 0 ==> a * c <= b * c
  {
  }
}
