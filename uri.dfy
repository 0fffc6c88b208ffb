/** The browser's `encodeURIComponent` and `decodeURIComponent`: each
    character is written as its UTF-8 bytes (RFC 3629), and every byte of a
    character outside the unreserved set is percent-encoded as described in
    section 2.1 of RFC 3986, with upper-case hexadecimal digits. Dafny's
    `char` is a Unicode scalar value, so the lone surrogates on which the
    browser throws cannot occur. */
module UriEncoding {
  import opened Js
  import opened Base64
  import opened Strings

  // ---------------------------------------------------------------- UTF-8

  /** The bytes RFC 3629 writes for one scalar value. */
  function Utf8Char(c: char): (r: seq<Byte>)
    ensures 1 <= |r| <= 4
    ensures |r| == 1 <==> c as int < 0x80
    ensures |r| == 1 ==> r[0] == c as int
  {
    var x := c as int;
    if x < 0x80 then [x]
    else if x < 0x800 then [0xC0 + x / 64, 0x80 + x % 64]
    else if x < 0x10000 then [0xE0 + x / 4096, 0x80 + (x / 64) % 64, 0x80 + x % 64]
    else [0xF0 + x / 262144, 0x80 + (x / 4096) % 64, 0x80 + (x / 64) % 64, 0x80 + x % 64]
  }

  /** The UTF-8 encoding of a string, character by character. */
  function Utf8(s: string): (r: seq<Byte>)
    ensures |r| >= |s|
  {
    if s == [] then [] else Utf8Char(s[0]) + Utf8(s[1..])
  }

  /** How many bytes a sequence starting with lead byte `b` occupies; 0 for a
      byte that cannot start one. */
  function SequenceLength(b: Byte): nat {
    if b < 0x80 then 1
    else if 0xC2 <= b < 0xE0 then 2
    else if 0xE0 <= b < 0xF0 then 3
    else if 0xF0 <= b < 0xF5 then 4
    else 0
  }

  predicate IsContinuation(b: Byte) {
    0x80 <= b < 0xC0
  }

  /** The scalar value a sequence of bytes stands for, or `None` when it is
      not one well-formed sequence. */
  function DecodeSequence(bs: seq<Byte>): (r: Option<char>)
    ensures r.Some? ==> |bs| >= 1 && SequenceLength(bs[0]) == |bs|
  {
    if |bs| == 0 || SequenceLength(bs[0]) != |bs| then None
    else if |bs| == 1 then Some(bs[0] as char)
    else if !(forall i :: 1 <= i < |bs| ==> IsContinuation(bs[i])) then None
    else
      var b: seq<int> := bs;
      var x: int :=
        if |b| == 2 then (b[0] - 0xC0) * 64 + (b[1] - 0x80)
        else if |b| == 3 then (b[0] - 0xE0) * 4096 + (b[1] - 0x80) * 64 + (b[2] - 0x80)
        else (b[0] - 0xF0) * 262144 + (b[1] - 0x80) * 4096 + (b[2] - 0x80) * 64 + (b[3] - 0x80);
      var least: int := if |bs| == 2 then 0x80 else if |bs| == 3 then 0x800 else 0x10000;
      if least <= x < 0xD800 || (0xE000 <= x < 0x110000 && least <= x) then Some(x as char) else None
  }

  lemma Utf8CharTwo(c: char)
    requires 0x80 <= c as int < 0x800
    ensures SequenceLength(Utf8Char(c)[0]) == 2
    ensures DecodeSequence(Utf8Char(c)) == Some(c)
  {
    var x := c as int;
    assert x == (x / 64) * 64 + x % 64;
  }

  lemma Utf8CharThree(c: char)
    requires 0x800 <= c as int < 0x10000
    ensures SequenceLength(Utf8Char(c)[0]) == 3
    ensures DecodeSequence(Utf8Char(c)) == Some(c)
  {
    var x := c as int;
    var q := x / 64;
    assert x == q * 64 + x % 64;
    assert q == (q / 64) * 64 + q % 64;
    assert x / 4096 == q / 64;
  }

  lemma Utf8CharFour(c: char)
    requires 0x10000 <= c as int
    ensures SequenceLength(Utf8Char(c)[0]) == 4
    ensures DecodeSequence(Utf8Char(c)) == Some(c)
  {
    var x := c as int;
    var q := x / 64;
    var p := q / 64;
    assert x == q * 64 + x % 64;
    assert q == p * 64 + q % 64;
    assert p == (p / 64) * 64 + p % 64;
    assert x / 4096 == p;
    assert x / 262144 == p / 64;
  }

  /** Every character's bytes form one well-formed sequence that decodes back
      to it. */
  lemma Utf8CharRoundTrip(c: char)
    ensures SequenceLength(Utf8Char(c)[0]) == |Utf8Char(c)|
    ensures DecodeSequence(Utf8Char(c)) == Some(c)
  {
    var x := c as int;
    if x < 0x80 {
    } else if x < 0x800 {
      Utf8CharTwo(c);
    } else if x < 0x10000 {
      Utf8CharThree(c);
    } else {
      Utf8CharFour(c);
    }
  }

  /** Decodes a whole byte string, one well-formed sequence after another. */
  function Utf8Decode(bs: seq<Byte>): (r: Option<string>)
    decreases |bs|
  {
    if bs == [] then Some([])
    else
      var n := SequenceLength(bs[0]);
      if n == 0 || n > |bs| then None
      else match DecodeSequence(bs[..n])
        case None => None
        case Some(c) =>
          match Utf8Decode(bs[n..])
          case None => None
          case Some(rest) => Some([c] + rest)
  }

  /** Decoding the UTF-8 encoding of a string gives the string back. */
  lemma {:induction false} Utf8RoundTrip(s: string)
    ensures Utf8Decode(Utf8(s)) == Some(s)
  {
    if s != [] {
      var head := Utf8Char(s[0]);
      var bs := Utf8(s);
      assert bs == head + Utf8(s[1..]);
      Utf8CharRoundTrip(s[0]);
      assert bs[0] == head[0];
      assert bs[..|head|] == head;
      assert bs[|head|..] == Utf8(s[1..]);
      Utf8RoundTrip(s[1..]);
      assert s == [s[0]] + s[1..];
    }
  }

  // ---------------------------------------------------------------- percent-encoding

  /** The characters `encodeURIComponent` leaves as they are. */
  predicate Unreserved(c: char) {
    ('A' <= c <= 'Z') || ('a' <= c <= 'z') || ('0' <= c <= '9') ||
    c == '-' || c == '_' || c == '.' || c == '!' || c == '~' || c == '*' ||
    c == '\'' || c == '(' || c == ')'
  }

  /** The upper-case hexadecimal digit for `d`. */
  function HexUpper(d: nat): (c: char)
    requires d < 16
  {
    if d < 10 then ('0' as int + d) as char else ('A' as int + (d - 10)) as char
  }

  /** The value of a hexadecimal digit of either case. */
  function HexValue(c: char): (r: Option<nat>)
    ensures r.Some? ==> r.value < 16
  {
    if '0' <= c <= '9' then Some(c as int - '0' as int)
    else if 'A' <= c <= 'F' then Some(c as int - 'A' as int + 10)
    else if 'a' <= c <= 'f' then Some(c as int - 'a' as int + 10)
    else None
  }

  lemma HexRoundTrip(d: nat)
    requires d < 16
    ensures HexValue(HexUpper(d)) == Some(d)
  {
  }

  /** `%XY` for one byte. */
  function PercentByte(b: Byte): (r: string)
    ensures |r| == 3 && r[0] == '%'
  {
    ['%', HexUpper(b / 16), HexUpper(b % 16)]
  }

  function PercentBytes(bs: seq<Byte>): (r: string)
    ensures |r| == 3 * |bs|
  {
    if bs == [] then [] else PercentByte(bs[0]) + PercentBytes(bs[1..])
  }

  function EncodeChar(c: char): string {
    if Unreserved(c) then [c] else PercentBytes(Utf8Char(c))
  }

  /** `encodeURIComponent(s)`. */
  function EncodeUriComponent(s: string): string {
    if s == [] then [] else EncodeChar(s[0]) + EncodeUriComponent(s[1..])
  }

  /** The bytes of `n` consecutive `%XY` escapes at the front of `s`, or
      `None` when there are not that many. */
  function Escapes(s: string, n: nat): (r: Option<seq<Byte>>)
    ensures r.Some? ==> |r.value| == n && |s| >= 3 * n
    decreases n
  {
    if n == 0 then Some([])
    else if |s| < 3 || s[0] != '%' then None
    else match (HexValue(s[1]), HexValue(s[2]))
      case (Some(h), Some(l)) =>
        (match Escapes(s[3..], n - 1)
         case None => None
         case Some(rest) => Some([h * 16 + l] + rest))
      case _ => None
  }

  function Prepend(c: char, r: Option<string>): Option<string> {
    if r.None? then None else Some([c] + r.value)
  }

  /** `decodeURIComponent(s)`: characters other than `%` are kept, and each
      run of escapes that forms one UTF-8 sequence becomes its character;
      `None` where the browser throws `URIError`. */
  function DecodeUriComponent(s: string): (r: Option<string>)
    decreases |s|
  {
    if s == [] then Some([])
    else if s[0] != '%' then Prepend(s[0], DecodeUriComponent(s[1..]))
    else match Escapes(s, 1)
      case None => None
      case Some(lead) =>
        var n := SequenceLength(lead[0]);
        if n == 0 then None
        else match Escapes(s, n)
          case None => None
          case Some(bs) =>
            match DecodeSequence(bs)
            case None => None
            case Some(c) => Prepend(c, DecodeUriComponent(s[3 * n..]))
  }

  /** Reading the escapes back from `PercentBytes(bs)` gives `bs`, whatever
      follows them. */
  lemma {:induction false} EscapesOfPercentBytes(bs: seq<Byte>, rest: string, n: nat)
    requires n <= |bs|
    ensures Escapes(PercentBytes(bs) + rest, n) == Some(bs[..n])
  {
    if n > 0 {
      var s := PercentBytes(bs) + rest;
      var b := bs[0];
      assert s[..3] == PercentByte(b);
      HexRoundTrip(b / 16);
      HexRoundTrip(b % 16);
      assert s[3..] == PercentBytes(bs[1..]) + rest;
      EscapesOfPercentBytes(bs[1..], rest, n - 1);
      assert bs[..n] == [b] + bs[1..][..n - 1];
    }
  }

  /** Decoding one encoded character at the front. */
  lemma DecodeEncodedChar(c: char, rest: string)
    ensures DecodeUriComponent(EncodeChar(c) + rest) == Prepend(c, DecodeUriComponent(rest))
  {
    var s := EncodeChar(c) + rest;
    if Unreserved(c) {
      assert s[0] == c && s[1..] == rest;
    } else {
      var bs := Utf8Char(c);
      Utf8CharRoundTrip(c);
      EscapesOfPercentBytes(bs, rest, 1);
      EscapesOfPercentBytes(bs, rest, |bs|);
      assert bs[..|bs|] == bs;
      assert s[0] == '%';
      assert s[3 * |bs|..] == rest;
    }
  }

  /** `decodeURIComponent(encodeURIComponent(s))` is `s`. */
  lemma {:induction false} UriRoundTrip(s: string)
    ensures DecodeUriComponent(EncodeUriComponent(s)) == Some(s)
  {
    if s != [] {
      DecodeEncodedChar(s[0], EncodeUriComponent(s[1..]));
      UriRoundTrip(s[1..]);
      assert s == [s[0]] + s[1..];
    }
  }

  /** The characters that can appear in an encoded component. */
  predicate UriSafe(c: char) {
    Unreserved(c) || c == '%'
  }

  lemma {:induction false} PercentBytesSafe(bs: seq<Byte>)
    ensures forall i :: 0 <= i < |PercentBytes(bs)| ==> UriSafe(PercentBytes(bs)[i])
  {
    if bs != [] {
      PercentBytesSafe(bs[1..]);
      var r := PercentBytes(bs);
      assert r == PercentByte(bs[0]) + PercentBytes(bs[1..]);
    }
  }

  /** An encoded component holds only unreserved characters and `%`. */
  lemma {:induction false} EncodedIsSafe(s: string)
    ensures forall i :: 0 <= i < |EncodeUriComponent(s)| ==> UriSafe(EncodeUriComponent(s)[i])
  {
    if s != [] {
      EncodedIsSafe(s[1..]);
      var head := EncodeChar(s[0]);
      var tail := EncodeUriComponent(s[1..]);
      if !Unreserved(s[0]) {
        PercentBytesSafe(Utf8Char(s[0]));
      }
      assert forall i :: 0 <= i < |head| ==> UriSafe(head[i]);
      forall i | 0 <= i < |head + tail|
        ensures UriSafe((head + tail)[i])
      {
        if i >= |head| {
          assert (head + tail)[i] == tail[i - |head|];
        }
      }
    }
  }

  /** So an encoded component holds no `&`, `=`, `?` or `#`, and cannot end
      a query parameter early. */
  lemma EncodedHasNoDelimiters(s: string)
    ensures '&' !in EncodeUriComponent(s) && '=' !in EncodeUriComponent(s)
    ensures '?' !in EncodeUriComponent(s) && '#' !in EncodeUriComponent(s)
  {
    EncodedIsSafe(s);
  }

  // ---------------------------------------------------------------- download links

  /** The prefix of the download links both export buttons build. */
  const JsonDataPrefix: string := "data:application/json;charset=utf-8,"

  /** The `data:` URI an export downloads: the prefix and the encoded text. */
  function DataUri(text: string): (r: string)
    ensures StartsWith(r, JsonDataPrefix)
    ensures ',' !in r[|JsonDataPrefix|..]
  {
    EncodedIsSafe(text);
    JsonDataPrefix + EncodeUriComponent(text)
  }

  /** The downloaded file holds exactly the exported text. */
  lemma DataUriRoundTrip(text: string)
    ensures DecodeUriComponent(DataUri(text)[|JsonDataPrefix|..]) == Some(text)
  {
    assert DataUri(text)[|JsonDataPrefix|..] == EncodeUriComponent(text);
    UriRoundTrip(text);
  }
}
