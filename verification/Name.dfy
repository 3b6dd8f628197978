/** Player names on their way through a URL: the browser's encodeURIComponent when it
    connects and its decodeURIComponent when a name comes back (static/js/webfort.js). */
module Name {
  import opened Bytes

  /** A Unicode scalar value. */
  type Scalar = c: int | (0 <= c < 0xD800) || (0xE000 <= c < 0x11_0000)

  const PERCENT: Byte := 37

  predicate IsHex(b: Byte) {
    48 <= b <= 57 || 65 <= b <= 70 || 97 <= b <= 102
  }

  function HexValue(b: Byte): (v: int)
    requires IsHex(b)
    ensures 0 <= v < 16
  {
    if b <= 57 then b - 48 else if b <= 70 then b - 55 else b - 87
  }

  function HexDigit(v: int): (b: Byte)
    requires 0 <= v < 16
    ensures IsHex(b) && HexValue(b) == v
  {
    if v < 10 then 48 + v else 55 + v
  }

  /** The byte of the escape in the given three characters onwards. */
  function Escape(s: seq<Byte>, k: nat): Option<Byte> {
    if k + 3 <= |s| && s[k] == PERCENT && IsHex(s[k + 1]) && IsHex(s[k + 2])
    then Some(16 * HexValue(s[k + 1]) + HexValue(s[k + 2])) else None
  }

  /** An escape of a continuation byte, as its six bits. */
  function Tail(s: seq<Byte>, k: nat): Option<int> {
    var b := Escape(s, k);
    if b.Some? && 128 <= b.value < 192 then Some(b.value - 128) else None
  }

  datatype Char = Char(code: int, size: nat)

  function Checked(code: int, least: int, size: nat): Option<Char> {
    if least <= code && (code < 0xD800 || 0xE000 <= code < 0x11_0000) then Some(Char(code, size)) else None
  }

  /** The character at the front and how many bytes spell it; None is a URIError. */
  function First(s: seq<Byte>): (r: Option<Char>)
    requires s != []
    ensures r.Some? ==> 1 <= r.value.size <= |s|
  {
    if s[0] != PERCENT then Some(Char(s[0], 1)) else
    var e := Escape(s, 0);
    if e.None? then None else
    var b: int := e.value;
    var t1, t2, t3 := Tail(s, 3), Tail(s, 6), Tail(s, 9);
    if b < 128 then Some(Char(b, 3))
    else if 192 <= b < 224 && t1.Some? then Checked((b - 192) * 64 + t1.value, 0x80, 6)
    else if 224 <= b < 240 && t1.Some? && t2.Some? then
      Checked((b - 224) * 4096 + t1.value * 64 + t2.value, 0x800, 9)
    else if 240 <= b < 248 && t1.Some? && t2.Some? && t3.Some? then
      Checked((b - 240) * 262144 + t1.value * 4096 + t2.value * 64 + t3.value, 0x1_0000, 12)
    else None
  }

  /** decodeURIComponent, as the code points it yields. */
  function Decode(s: seq<Byte>): Option<seq<int>>
    decreases |s|
  {
    if s == [] then Some([]) else
    var c := First(s);
    if c.None? then None else
    var rest := Decode(s[c.value.size..]);
    if rest.None? then None else Some([c.value.code] + rest.value)
  }

  // ----- names a browser sends -----

  /** Letters, digits and the marks encodeURIComponent leaves alone. */
  predicate Unreserved(c: int) {
    48 <= c <= 57 || 65 <= c <= 90 || 97 <= c <= 122
    || c == 33 || 39 <= c <= 42 || c == 45 || c == 46 || c == 95 || c == 126
  }

  function Escaped(b: Byte): seq<Byte> {
    [PERCENT, HexDigit(b / 16), HexDigit(b % 16)]
  }

  function EncodeChar(c: Scalar): (s: seq<Byte>)
    ensures 1 <= |s| <= 12
  {
    if Unreserved(c) then [c]
    else if c < 0x80 then Escaped(c)
    else if c < 0x800 then Escaped(192 + c / 64) + Escaped(128 + c % 64)
    else if c < 0x1_0000 then Escaped(224 + c / 4096) + Escaped(128 + c / 64 % 64) + Escaped(128 + c % 64)
    else Escaped(240 + c / 262144) + Escaped(128 + c / 4096 % 64) + Escaped(128 + c / 64 % 64) + Escaped(128 + c % 64)
  }

  /** encodeURIComponent */
  function Encode(text: seq<Scalar>): seq<Byte> {
    if text == [] then [] else EncodeChar(text[0]) + Encode(text[1..])
  }

  lemma EscapeOf(s: seq<Byte>, k: nat, b: Byte)
    requires k + 3 <= |s| && s[k] == PERCENT && s[k + 1] == HexDigit(b / 16) && s[k + 2] == HexDigit(b % 16)
    ensures Escape(s, k) == Some(b)
  {
  }

  /** The bytes of UTF-8, two to four of them, read back to their character. */
  lemma FirstTwo(s: seq<Byte>, c: Scalar)
    requires s != [] && 0x80 <= c < 0x800
    requires Escape(s, 0) == Some(192 + c / 64) && Escape(s, 3) == Some(128 + c % 64)
    ensures First(s) == Some(Char(c, 6))
  {
    assert c == c / 64 * 64 + c % 64;
  }

  lemma FirstThree(s: seq<Byte>, c: Scalar, a: int, b: int, d: int)
    requires s != [] && 0x800 <= c < 0x1_0000 && a == c / 4096 && b == c / 64 % 64 && d == c % 64
    requires Escape(s, 0) == Some(224 + a) && Escape(s, 3) == Some(128 + b) && Escape(s, 6) == Some(128 + d)
    ensures First(s) == Some(Char(c, 9))
  {
    assert c == 64 * (c / 64) + d && c / 64 == 64 * a + b;
  }

  lemma FourDigits(c: int, a: int, b: int, d: int, e: int)
    requires 0 <= c && a == c / 262144 && b == c / 4096 % 64 && d == c / 64 % 64 && e == c % 64
    ensures c == a * 262144 + b * 4096 + d * 64 + e
  {
    assert c == 64 * (c / 64) + e && c / 64 == 64 * (c / 4096) + d && c / 4096 == 64 * a + b;
  }

  lemma FirstFour(s: seq<Byte>, c: Scalar, a: int, b: int, d: int, e: int)
    requires s != [] && 0x1_0000 <= c && c == a * 262144 + b * 4096 + d * 64 + e
    requires 0 <= a < 8 && 0 <= b < 64 && 0 <= d < 64 && 0 <= e < 64
    requires Escape(s, 0) == Some(240 + a) && Escape(s, 3) == Some(128 + b)
    requires Escape(s, 6) == Some(128 + d) && Escape(s, 9) == Some(128 + e)
    ensures First(s) == Some(Char(c, 12))
  {
    assert Tail(s, 3) == Some(b) && Tail(s, 6) == Some(d) && Tail(s, 9) == Some(e);
  }

  lemma FirstOfEncoded(c: Scalar, tail: seq<Byte>)
    ensures First(EncodeChar(c) + tail) == Some(Char(c, |EncodeChar(c)|))
  {
    var s := EncodeChar(c) + tail;
    if !Unreserved(c) {
      if c < 0x80 {
        EscapeOf(s, 0, c);
      } else if c < 0x800 {
        EscapeOf(s, 0, 192 + c / 64);
        EscapeOf(s, 3, 128 + c % 64);
        FirstTwo(s, c);
      } else if c < 0x1_0000 {
        FirstOfThree(s, c, tail);
      } else {
        FirstOfFour(s, c, tail);
      }
    }
  }

  lemma FirstOfThree(s: seq<Byte>, c: Scalar, tail: seq<Byte>)
    requires 0x800 <= c < 0x1_0000 && s == EncodeChar(c) + tail
    ensures First(s) == Some(Char(c, 9))
  {
    EscapeOf(s, 0, 224 + c / 4096);
    EscapeOf(s, 3, 128 + c / 64 % 64);
    EscapeOf(s, 6, 128 + c % 64);
    FirstThree(s, c, c / 4096, c / 64 % 64, c % 64);
  }

  lemma FirstOfFour(s: seq<Byte>, c: Scalar, tail: seq<Byte>)
    requires 0x1_0000 <= c && s == EncodeChar(c) + tail
    ensures First(s) == Some(Char(c, 12))
  {
    EscapeOf(s, 0, 240 + c / 262144);
    EscapeOf(s, 3, 128 + c / 4096 % 64);
    EscapeOf(s, 6, 128 + c / 64 % 64);
    EscapeOf(s, 9, 128 + c % 64);
    FourDigits(c, c / 262144, c / 4096 % 64, c / 64 % 64, c % 64);
    FirstFour(s, c, c / 262144, c / 4096 % 64, c / 64 % 64, c % 64);
  }

  /** The UTF-8 bytes of a character. */
  function Utf8(c: Scalar): (s: seq<Byte>)
    ensures 1 <= |s| <= 4
  {
    if c < 0x80 then [c]
    else if c < 0x800 then [0xC0 + c / 0x40, 0x80 + c % 0x40]
    else if c < 0x1_0000 then [0xE0 + c / 0x1000, 0x80 + c / 0x40 % 0x40, 0x80 + c % 0x40]
    else [0xF0 + c / 0x4_0000, 0x80 + c / 0x1000 % 0x40, 0x80 + c / 0x40 % 0x40, 0x80 + c % 0x40]
  }

  /** Escapes at the front of s spell exactly these bytes. */
  predicate Spells(s: seq<Byte>, bytes: seq<Byte>) {
    forall i :: 0 <= i < |bytes| ==> Escape(s, 3 * i) == Some(bytes[i])
  }

  /** Either case of a hexadecimal digit counts, and nothing else does. */
  lemma HexEither(v: int, b: Byte)
    requires 0 <= v < 16
    ensures IsHex(b) && HexValue(b) == v <==>
      b == (if v < 10 then 48 + v else 55 + v) || b == (if v < 10 then 48 + v else 87 + v)
  {
  }

  lemma SplitTwo(c: int, a: int, b: int)
    requires c == a * 0x40 + b && 0 <= b < 0x40
    ensures c / 0x40 == a && c % 0x40 == b
  {
  }

  lemma DivSteps(c: int)
    requires c >= 0
    ensures c / 0x1000 == c / 0x40 / 0x40 && c / 0x4_0000 == c / 0x40 / 0x40 / 0x40
  {
  }

  predicate IsScalar(c: int) { (0 <= c < 0xD800) || (0xE000 <= c < 0x11_0000) }

  lemma SpelledTwo(s: seq<Byte>, a: int, b: int, c: int)
    requires Escape(s, 0) == Some(192 + a) && Escape(s, 3) == Some(128 + b) && 0 <= b < 64
    requires c == a * 64 + b && 0x80 <= c < 0x800
    ensures Spells(s, Utf8(c)) && |Utf8(c)| == 2
  {
    SplitTwo(c, a, b);
  }

  lemma SpelledThree(s: seq<Byte>, a: int, b: int, d: int, c: int)
    requires Escape(s, 0) == Some(224 + a) && Escape(s, 3) == Some(128 + b) && Escape(s, 6) == Some(128 + d)
    requires 0 <= b < 64 && 0 <= d < 64 && c == (a * 64 + b) * 64 + d && 0x800 <= c < 0x1_0000 && IsScalar(c)
    ensures Spells(s, Utf8(c)) && |Utf8(c)| == 3
  {
    SplitTwo(c, a * 64 + b, d);
    SplitTwo(a * 64 + b, a, b);
    DivSteps(c);
  }

  lemma FourBytes(a: int, b: int, d: int, e: int, c: int)
    requires 0 <= a && 0 <= b < 64 && 0 <= d < 64 && 0 <= e < 64
    requires c == ((a * 64 + b) * 64 + d) * 64 + e && 0x1_0000 <= c < 0x11_0000
    ensures Utf8(c) == [240 + a, 128 + b, 128 + d, 128 + e]
  {
    SplitTwo(c, (a * 64 + b) * 64 + d, e);
    SplitTwo((a * 64 + b) * 64 + d, a * 64 + b, d);
    SplitTwo(a * 64 + b, a, b);
    DivSteps(c);
  }

  lemma SpelledFour(s: seq<Byte>, a: int, b: int, d: int, e: int, c: int)
    requires Escape(s, 0) == Some(240 + a) && Escape(s, 3) == Some(128 + b)
    requires Escape(s, 6) == Some(128 + d) && Escape(s, 9) == Some(128 + e)
    requires 0 <= a && 0 <= b < 64 && 0 <= d < 64 && 0 <= e < 64
    requires c == ((a * 64 + b) * 64 + d) * 64 + e && 0x1_0000 <= c < 0x11_0000
    ensures Spells(s, Utf8(c)) && |Utf8(c)| == 4
  {
    FourBytes(a, b, d, e, c);
  }

  /** Escapes decode only as the shortest UTF-8 spelling of a character: no overlong forms, no
      surrogates, nothing past the last character. */
  lemma EscapesAreUtf8(s: seq<Byte>)
    requires s != [] && s[0] == PERCENT && First(s).Some?
    ensures var c := First(s).value;
      IsScalar(c.code) && c.size == 3 * |Utf8(c.code)| && Spells(s, Utf8(c.code))
  {
    var b: int := Escape(s, 0).value;
    var c := First(s).value.code;
    if 192 <= b < 224 {
      SpelledTwo(s, b - 192, Tail(s, 3).value, c);
    } else if 224 <= b < 240 {
      SpelledThree(s, b - 224, Tail(s, 3).value, Tail(s, 6).value, c);
    } else if 240 <= b {
      SpelledFour(s, b - 240, Tail(s, 3).value, Tail(s, 6).value, Tail(s, 9).value, c);
    }
  }

  /** Whatever a player is called, the name comes back. */
  lemma {:induction false} NameRoundTrip(text: seq<Scalar>)
    ensures Decode(Encode(text)) == Some(text)
  {
    if text != [] {
      var c, rest := EncodeChar(text[0]), Encode(text[1..]);
      FirstOfEncoded(text[0], rest);
      assert (c + rest)[|c|..] == rest;
      NameRoundTrip(text[1..]);
      assert [text[0]] + text[1..] == text;
    }
  }

  // ----- names cut short -----

  /** A character cut anywhere inside is no character. */
  lemma CutChar(c: Scalar, n: nat)
    requires 0 < n < |EncodeChar(c)|
    ensures First(EncodeChar(c)[..n]).None?
  {
    var s := EncodeChar(c)[..n];
    assert s[0] == PERCENT;
    if n >= 3 {
      EscapeOf(s, 0, if c < 0x800 then 192 + c / 64 else if c < 0x1_0000 then 224 + c / 4096 else 240 + c / 262144);
    }
  }

  /** The first n bytes of an encoded name end between two characters. */
  predicate Boundary(text: seq<Scalar>, n: nat) {
    exists j: nat :: j <= |text| && |Encode(text[..j])| == n
  }

  lemma {:induction false} EncodePrefix(text: seq<Scalar>, j: nat)
    requires j <= |text|
    ensures Encode(text[..j]) <= Encode(text)
    decreases j
  {
    if j > 0 {
      assert text[..j][1..] == text[1..][..j - 1] && text[..j][0] == text[0];
      EncodePrefix(text[1..], j - 1);
    }
  }

  lemma BoundaryStep(text: seq<Scalar>, n: nat)
    requires text != []
    ensures var c := |EncodeChar(text[0])|;
      Boundary(text, n) <==> n == 0 || (n >= c && Boundary(text[1..], n - c))
  {
    var c := |EncodeChar(text[0])|;
    if Boundary(text, n) && n != 0 {
      var j: nat :| j <= |text| && |Encode(text[..j])| == n;
      assert text[..j][0] == text[0] && text[..j][1..] == text[1..][..j - 1];
      assert |Encode(text[1..][..j - 1])| == n - c;
    }
    if n == 0 {
      assert |Encode(text[..0])| == n;
    }
    if n >= c && Boundary(text[1..], n - c) {
      var j: nat :| j <= |text[1..]| && |Encode(text[1..][..j])| == n - c;
      assert text[..j + 1][0] == text[0] && text[..j + 1][1..] == text[1..][..j];
      assert |Encode(text[..j + 1])| == n;
    }
  }

  lemma PrefixCut(c: Scalar, rest: seq<Byte>, n: nat)
    requires 0 < n < |EncodeChar(c)|
    ensures Decode((EncodeChar(c) + rest)[..n]).None?
  {
    assert (EncodeChar(c) + rest)[..n] == EncodeChar(c)[..n];
    CutChar(c, n);
  }

  lemma PrefixPast(c: Scalar, rest: seq<Byte>, n: nat)
    requires |EncodeChar(c)| <= n <= |EncodeChar(c)| + |rest|
    ensures Decode((EncodeChar(c) + rest)[..n]).Some? <==> Decode(rest[..n - |EncodeChar(c)|]).Some?
  {
    var e := EncodeChar(c);
    var tail := rest[..n - |e|];
    assert (e + rest)[..n] == e + tail && (e + tail)[|e|..] == tail;
    FirstOfEncoded(c, tail);
  }

  /** A prefix of an encoded name decodes exactly when it ends between two characters. */
  lemma {:induction false} PrefixDecodesIff(text: seq<Scalar>, n: nat)
    requires n <= |Encode(text)|
    ensures Decode(Encode(text)[..n]).Some? <==> Boundary(text, n)
    decreases |text|
  {
    if n == 0 {
      assert |Encode(text[..0])| == 0;
    } else {
      var e, rest := EncodeChar(text[0]), Encode(text[1..]);
      BoundaryStep(text, n);
      if n < |e| {
        PrefixCut(text[0], rest, n);
      } else {
        PrefixPast(text[0], rest, n);
        PrefixDecodesIff(text[1..], n - |e|);
      }
    }
  }

  /** A name without escapes is taken as it stands. */
  lemma {:induction false} PlainDecodes(s: seq<Byte>)
    requires forall i :: 0 <= i < |s| ==> s[i] != PERCENT
    ensures Decode(s) == Some(s)
    decreases |s|
  {
    if s != [] {
      PlainDecodes(s[1..]);
      assert [s[0]] + s[1..] == s;
    }
  }

  /** An encoded name is plain ASCII, never NUL. */
  lemma {:induction false} EncodeIsText(text: seq<Scalar>)
    ensures forall i :: 0 <= i < |Encode(text)| ==> Encode(text)[i] != 0
  {
    if text != [] { EncodeIsText(text[1..]); }
  }

  function Repeated(c: Scalar, n: nat): seq<Scalar> { seq(n, _ => c) }

  /** A two-byte character takes six bytes each time. */
  lemma {:induction false} RepeatedLength(c: Scalar, n: nat)
    requires 0x80 <= c < 0x800
    ensures |Encode(Repeated(c, n))| == 6 * n
  {
    if n > 0 {
      assert Repeated(c, n)[0] == c && Repeated(c, n)[1..] == Repeated(c, n - 1);
      RepeatedLength(c, n - 1);
    }
  }

  lemma RepeatedBoundary(c: Scalar, n: nat, k: nat) returns (j: nat)
    requires 0x80 <= c < 0x800 && Boundary(Repeated(c, n), k)
    ensures k == 6 * j
  {
    j :| j <= |Repeated(c, n)| && |Encode(Repeated(c, n)[..j])| == k;
    RepeatedPrefix(c, n, j);
    RepeatedLength(c, j);
  }

  lemma RepeatedPrefix(c: Scalar, n: nat, j: nat)
    requires j <= n
    ensures Repeated(c, n)[..j] == Repeated(c, j)
  {
  }
}
