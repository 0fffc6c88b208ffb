/** Base64 as defined in section 4 of RFC 4648, and the browser's `btoa`
    and `atob`, which apply it to strings whose characters are all below
    U+0100 (one byte per character). */
module Base64 {
  import opened Js

  type Byte = x: int | 0 <= x < 256

  /** Table 1 of RFC 4648: the character for each 6-bit value. */
  function Sextet(v: nat): (c: char)
    requires v < 64
  {
    if v < 26 then ('A' as int + v) as char
    else if v < 52 then ('a' as int + (v - 26)) as char
    else if v < 62 then ('0' as int + (v - 52)) as char
    else if v == 62 then '+'
    else '/'
  }

  /** The 6-bit value a character of the alphabet stands for; `None` for the
      pad character and anything outside the alphabet. */
  function SextetValue(c: char): (r: Option<nat>)
    ensures r.Some? ==> r.value < 64 && Sextet(r.value) == c
  {
    if 'A' <= c <= 'Z' then Some(c as int - 'A' as int)
    else if 'a' <= c <= 'z' then Some(c as int - 'a' as int + 26)
    else if '0' <= c <= '9' then Some(c as int - '0' as int + 52)
    else if c == '+' then Some(62)
    else if c == '/' then Some(63)
    else None
  }

  /** Every 6-bit value is recovered from its character, and no character of
      the alphabet is the pad character. */
  lemma SextetRoundTrip(v: nat)
    requires v < 64
    ensures SextetValue(Sextet(v)) == Some(v)
    ensures Sextet(v) != '='
  {
  }

  /** The four characters of a full group of three bytes. */
  function Quad(x: Byte, y: Byte, z: Byte): string {
    [Sextet(x / 4), Sextet(x % 4 * 16 + y / 16), Sextet(y % 16 * 4 + z / 64), Sextet(z % 64)]
  }

  /** The encoding: each group of three bytes becomes four characters; a final
      group of one or two bytes is padded with `=` to four. */
  function Encode(b: seq<Byte>): (r: string)
    ensures |r| == (|b| + 2) / 3 * 4
    decreases |b|
  {
    if |b| == 0 then ""
    else if |b| == 1 then [Sextet(b[0] / 4), Sextet(b[0] % 4 * 16), '=', '=']
    else if |b| == 2 then [Sextet(b[0] / 4), Sextet(b[0] % 4 * 16 + b[1] / 16), Sextet(b[1] % 16 * 4), '=']
    else Quad(b[0], b[1], b[2]) + Encode(b[3..])
  }

  /** The decoding: `None` unless the text is a sequence of four-character
      groups of the alphabet, of which only the last may end in one or two
      pad characters. */
  function Decode(s: string): (r: Option<seq<Byte>>)
    decreases |s|
  {
    if |s| == 0 then Some([])
    else if |s| < 4 then None
    else
      var v0, v1, v2, v3 := SextetValue(s[0]), SextetValue(s[1]), SextetValue(s[2]), SextetValue(s[3]);
      if v0.None? || v1.None? then None
      else if |s| == 4 && s[2] == '=' && s[3] == '=' then Some(Bytes1(v0.value, v1.value))
      else if v2.None? then None
      else if |s| == 4 && s[3] == '=' then Some(Bytes2(v0.value, v1.value, v2.value))
      else if v3.None? then None
      else
        var rest := Decode(s[4..]);
        if rest.None? then None
        else Some(Bytes3(v0.value, v1.value, v2.value, v3.value) + rest.value)
  }

  /** The bytes of a group of two, three or four 6-bit values; the low bits
      of the last value of a padded group are dropped. */
  function Bytes1(a: nat, b: nat): seq<Byte>
    requires a < 64 && b < 64
  {
    [a * 4 + b / 16]
  }

  function Bytes2(a: nat, b: nat, c: nat): seq<Byte>
    requires a < 64 && b < 64 && c < 64
  {
    [a * 4 + b / 16, b % 16 * 16 + c / 4]
  }

  function Bytes3(a: nat, b: nat, c: nat, d: nat): seq<Byte>
    requires a < 64 && b < 64 && c < 64 && d < 64
  {
    [a * 4 + b / 16, b % 16 * 16 + c / 4, c % 4 * 64 + d]
  }

  /** The bit arithmetic of one group: splitting bytes into 6-bit values and
      joining them back gives the bytes. */
  lemma GroupArithmetic(x: Byte, y: Byte, z: Byte)
    ensures Bytes1(x / 4, x % 4 * 16) == [x]
    ensures Bytes2(x / 4, x % 4 * 16 + y / 16, y % 16 * 4) == [x, y]
    ensures Bytes3(x / 4, x % 4 * 16 + y / 16, y % 16 * 4 + z / 64, z % 64) == [x, y, z]
  {
    FirstJoin(x, y);
    SecondJoin(y, z);
    assert z / 64 * 64 + z % 64 == z;
  }

  /** The first byte comes back from the first sextet and the top of the second. */
  lemma FirstJoin(x: Byte, y: Byte)
    ensures x / 4 < 64 && x % 4 * 16 + y / 16 < 64
    ensures x / 4 * 4 + (x % 4 * 16 + y / 16) / 16 == x
    ensures (x % 4 * 16 + y / 16) % 16 == y / 16
  {
    var b := x % 4 * 16 + y / 16;
    assert b / 16 == x % 4;
  }

  /** The second byte comes back from the bottom of the second sextet and the
      top of the third. */
  lemma SecondJoin(y: Byte, z: Byte)
    ensures y % 16 * 4 + z / 64 < 64
    ensures (y % 16 * 4 + z / 64) / 4 == y % 16
    ensures (y % 16 * 4 + z / 64) % 4 == z / 64
    ensures y / 16 * 16 + y % 16 == y
  {
  }

  /** A final group of one byte decodes to that byte. */
  lemma DecodeOne(x: Byte)
    ensures Decode(Encode([x])) == Some([x])
  {
    SextetRoundTrip(x / 4);
    SextetRoundTrip(x % 4 * 16);
    GroupArithmetic(x, 0, 0);
  }

  /** A final group of two bytes decodes to those bytes. */
  lemma DecodeTwo(x: Byte, y: Byte)
    ensures Decode(Encode([x, y])) == Some([x, y])
  {
    SextetRoundTrip(x / 4);
    SextetRoundTrip(x % 4 * 16 + y / 16);
    SextetRoundTrip(y % 16 * 4);
    GroupArithmetic(x, y, 0);
  }

  /** A full group in front of any text decodes to its three bytes in front of
      that text's decoding. */
  lemma DecodeQuad(x: Byte, y: Byte, z: Byte, t: string)
    ensures var d := Decode(Quad(x, y, z) + t);
      d == if Decode(t).None? then None else Some([x, y, z] + Decode(t).value)
  {
    var s := Quad(x, y, z) + t;
    var a, b, c, d := x / 4, x % 4 * 16 + y / 16, y % 16 * 4 + z / 64, z % 64;
    SextetRoundTrip(a);
    SextetRoundTrip(b);
    SextetRoundTrip(c);
    SextetRoundTrip(d);
    GroupArithmetic(x, y, z);
    assert s[0] == Sextet(a) && s[1] == Sextet(b) && s[2] == Sextet(c) && s[3] == Sextet(d);
    assert s[4..] == t;
  }

  /** Decoding an encoding gives back the bytes. */
  lemma {:induction false} DecodeEncode(b: seq<Byte>)
    ensures Decode(Encode(b)) == Some(b)
    decreases |b|
  {
    if |b| == 1 {
      assert b == [b[0]];
      DecodeOne(b[0]);
    } else if |b| == 2 {
      assert b == [b[0], b[1]];
      DecodeTwo(b[0], b[1]);
    } else if |b| > 2 {
      var x, y, z, rest := b[0], b[1], b[2], b[3..];
      assert b == [x, y, z] + rest;
      assert Encode(b) == Quad(x, y, z) + Encode(rest);
      DecodeQuad(x, y, z, Encode(rest));
      DecodeEncode(rest);
    }
  }

  /** The encoding uses only the 64 characters of the alphabet and the pad. */
  lemma {:induction false} EncodeAlphabet(b: seq<Byte>)
    ensures forall i :: 0 <= i < |Encode(b)| ==> Encode(b)[i] == '=' || SextetValue(Encode(b)[i]).Some?
    decreases |b|
  {
    if |b| > 0 {
      SextetRoundTrip(b[0] / 4);
      SextetRoundTrip(b[0] % 4 * 16);
      if |b| >= 2 {
        SextetRoundTrip(b[0] % 4 * 16 + b[1] / 16);
        SextetRoundTrip(b[1] % 16 * 4);
      }
      if |b| >= 3 {
        SextetRoundTrip(b[1] % 16 * 4 + b[2] / 64);
        SextetRoundTrip(b[2] % 64);
        EncodeAlphabet(b[3..]);
      }
    }
  }

  /** Every character is below U+0100, so the string is a byte string. */
  predicate IsLatin1(s: string) {
    forall i :: 0 <= i < |s| ==> s[i] as int < 256
  }

  function Latin1Bytes(s: string): (b: seq<Byte>)
    requires IsLatin1(s)
    ensures |b| == |s| && forall i :: 0 <= i < |s| ==> b[i] == s[i] as int
  {
    seq(|s|, i requires 0 <= i < |s| => s[i] as int)
  }

  function Latin1Text(b: seq<Byte>): (s: string)
    ensures |s| == |b| && forall i :: 0 <= i < |b| ==> s[i] as int == b[i]
  {
    seq(|b|, i requires 0 <= i < |b| => b[i] as char)
  }

  /** `btoa(s)`: `None` where the browser throws, on a character above U+00FF. */
  function Btoa(s: string): (r: Option<string>)
    ensures r.Some? <==> IsLatin1(s)
  {
    if IsLatin1(s) then Some(Encode(Latin1Bytes(s))) else None
  }

  /** `atob(t)` on text `btoa` wrote: the strict decoding of section 4 of
      RFC 4648, `None` on anything else. The browser's `atob` is more
      lenient, skipping ASCII whitespace and accepting missing padding; the
      model uses this only for the round trip with `btoa`. */
  function Atob(t: string): Option<string> {
    var b := Decode(t);
    if b.None? then None else Some(Latin1Text(b.value))
  }

  /** Whatever `btoa` accepts, `atob` turns back into the same string. */
  lemma AtobBtoa(s: string)
    requires IsLatin1(s)
    ensures Atob(Btoa(s).value) == Some(s)
  {
    DecodeEncode(Latin1Bytes(s));
    assert Latin1Text(Latin1Bytes(s)) == s;
  }
}
