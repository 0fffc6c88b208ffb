/** The JavaScript values the stores hold, and the few language rules the
    site's code relies on: truthiness, `String(v)`, object spread and strict
    equality. Numbers are integers here; `-Infinity` has its own constructor
    because `Math.max()` of nothing produces it. */
module Js {
  import opened Strings

  datatype Option<+T> = None | Some(value: T)

  datatype Json =
    | JNull
    | JBool(b: bool)
    | JNum(n: int)
    | JNegInfinity
    | JStr(s: string)
    | JArr(items: seq<Json>)
    | JObj(fields: map<string, Json>)

  /** A plain object: property name to value. A missing key reads as `undefined`. */
  type Record = map<string, Json>

  /** JavaScript truthiness. */
  predicate Truthy(v: Json) {
    match v
    case JNull => false
    case JBool(b) => b
    case JNum(n) => n != 0
    case JNegInfinity => true
    case JStr(s) => s != ""
    case JArr(_) => true
    case JObj(_) => true
  }

  /** `r.k` is truthy (an absent key reads as `undefined`, which is falsy). */
  predicate TruthyField(r: Record, k: string) {
    k in r && Truthy(r[k])
  }

  /** `r.k`, with `undefined` as `None`. */
  function Get(r: Record, k: string): (v: Option<Json>)
    ensures v.Some? <==> k in r
    ensures v.Some? ==> v.value == r[k]
  {
    if k in r then Some(r[k]) else None
  }

  /** `data?.[key]`: `undefined` when the record itself is missing. */
  function Field(data: Option<Record>, key: string): (v: Option<Json>)
    ensures v.Some? <==> data.Some? && key in data.value
    ensures v.Some? ==> v.value == data.value[key]
  {
    if data.None? then None else Get(data.value, key)
  }

  function DigitChar(d: nat): (c: char)
    requires d < 10
    ensures '0' <= c <= '9' && c as int - '0' as int == d
  {
    (d + '0' as int) as char
  }

  predicate IsDigit(c: char) {
    '0' <= c <= '9'
  }

  function DigitValue(c: char): (d: nat)
    requires IsDigit(c)
    ensures d < 10 && DigitChar(d) == c
  {
    c as int - '0' as int
  }

  /** The decimal digits of `n`, without leading zeros. */
  function NatToString(n: nat): (s: string)
    ensures |s| >= 1 && (forall i :: 0 <= i < |s| ==> IsDigit(s[i]))
    ensures |s| > 1 ==> s[0] != '0'
    ensures DecimalValue(s) == n
  {
    if n < 10 then [DigitChar(n)]
    else
      var p := NatToString(n / 10);
      DecimalValueSnoc(p, DigitChar(n % 10));
      p + [DigitChar(n % 10)]
  }

  /** The number a string of decimal digits denotes. */
  function DecimalValue(s: string): nat
    requires forall i :: 0 <= i < |s| ==> IsDigit(s[i])
  {
    if s == [] then 0 else DecimalValue(s[..|s| - 1]) * 10 + DigitValue(s[|s| - 1])
  }

  lemma DecimalValueSnoc(p: string, c: char)
    requires forall i :: 0 <= i < |p| ==> IsDigit(p[i])
    requires IsDigit(c)
    ensures DecimalValue(p + [c]) == DecimalValue(p) * 10 + DigitValue(c)
  {
    assert (p + [c])[..|p|] == p;
  }

  /** `String(n)` for an integer. */
  function IntToString(i: int): string {
    if i < 0 then "-" + NatToString(-i) else NatToString(i)
  }

  /** Two naturals print alike only when they are equal. */
  lemma NatToStringInjective(m: nat, n: nat)
    requires NatToString(m) == NatToString(n)
    ensures m == n
  {
  }

  /** `String(v)`, as template literals and `setProperty` apply it. An array
      prints its elements joined by commas, with `null` as the empty string. */
  function ToStr(v: Json): string {
    match v
    case JNull => "null"
    case JBool(b) => if b then "true" else "false"
    case JNum(n) => IntToString(n)
    case JNegInfinity => "-Infinity"
    case JStr(s) => s
    case JArr(a) => Join(seq(|a|, i requires 0 <= i < |a| => if a[i].JNull? then "" else ToStr(a[i])), ",")
    case JObj(_) => "[object Object]"
  }

  /** The own enumerable properties `{...v}` copies: an object's fields, the
      indexed elements of an array or the characters of a string, and nothing
      for the other primitives and for `null`. */
  function Spread(v: Json): (r: Record)
    ensures v.JObj? ==> r == v.fields
    ensures v.JNull? || v.JBool? || v.JNum? || v.JNegInfinity? ==> r == map[]
  {
    match v
    case JObj(m) => m
    case JArr(a) => Indexed(a)
    case JStr(s) => Indexed(seq(|s|, i requires 0 <= i < |s| => JStr([s[i]])))
    case _ => map[]
  }

  /** The index-keyed properties of an array. */
  function Indexed(a: seq<Json>): (r: Record)
    ensures forall i :: 0 <= i < |a| ==> NatToString(i) in r && r[NatToString(i)] == a[i]
    ensures forall k :: k in r ==> exists i :: 0 <= i < |a| && k == NatToString(i)
  {
    PrintedIndicesDistinct();
    map i | 0 <= i < |a| :: NatToString(i) := a[i]
  }

  /** Distinct indices print differently. */
  lemma PrintedIndicesDistinct()
    ensures forall m: nat, n: nat :: NatToString(m) == NatToString(n) ==> m == n
  {
    forall m: nat, n: nat | NatToString(m) == NatToString(n)
      ensures m == n
    {
      NatToStringInjective(m, n);
    }
  }

  /** `{...a, ...b}`: every key of either, and on a shared key the value from `b`. */
  function Merge(a: Record, b: Record): (r: Record)
    ensures r.Keys == a.Keys + b.Keys
    ensures forall k :: k in b ==> r[k] == b[k]
    ensures forall k :: k in a && k !in b ==> r[k] == a[k]
  {
    a + b
  }

  /** Merging the empty patch changes nothing. */
  lemma MergeEmpty(a: Record)
    ensures Merge(a, map[]) == a
  {
  }

  /** Merging is associative, so successive patches compose. */
  lemma MergeAssoc(a: Record, b: Record, c: Record)
    ensures Merge(Merge(a, b), c) == Merge(a, Merge(b, c))
  {
  }

  /** Merging `b` onto `a` gives `b` back when `b` already has every key of `a`. */
  lemma MergeAbsorbs(a: Record, b: Record)
    requires a.Keys <= b.Keys
    ensures Merge(a, b) == b
  {
  }

  // ---------------------------------------------------------------- JSON text

  /** No `-Infinity` anywhere in the value. */
  predicate NoNegInfinity(v: Json) {
    match v
    case JNegInfinity => false
    case JArr(a) => forall i :: 0 <= i < |a| ==> NoNegInfinity(a[i])
    case JObj(m) => forall k :: k in m ==> NoNegInfinity(m[k])
    case _ => true
  }

  /** `JSON.parse(JSON.stringify(v))`: the same value, except that
      `-Infinity`, which JSON text cannot hold, is written as `null`, at any
      depth. */
  function Stringified(v: Json): (r: Json)
    ensures NoNegInfinity(r)
  {
    match v
    case JNegInfinity => JNull
    case JArr(a) => JArr(seq(|a|, i requires 0 <= i < |a| => Stringified(a[i])))
    case JObj(m) => JObj(map k | k in m :: Stringified(m[k]))
    case _ => v
  }

  /** A value without `-Infinity` survives the round trip. */
  lemma {:induction false} StringifiedKeeps(v: Json)
    requires NoNegInfinity(v)
    ensures Stringified(v) == v
  {
    match v
    case JArr(a) =>
      forall i | 0 <= i < |a|
        ensures Stringified(a[i]) == a[i]
      {
        StringifiedKeeps(a[i]);
      }
      assert Stringified(v).items == a;
    case JObj(m) =>
      forall k | k in m
        ensures Stringified(m[k]) == m[k]
      {
        StringifiedKeeps(m[k]);
      }
      assert Stringified(v).fields == m;
    case _ =>
  }

  /** Exactly the values without `-Infinity` come back unchanged, and a
      second round trip changes nothing more. */
  lemma StringifiedFixedPoints(v: Json)
    ensures Stringified(v) == v <==> NoNegInfinity(v)
    ensures Stringified(Stringified(v)) == Stringified(v)
  {
    if NoNegInfinity(v) {
      StringifiedKeeps(v);
    }
    StringifiedKeeps(Stringified(v));
  }

  /** An object comes back as an object with the same keys. */
  lemma StringifiedObjectKeys(m: Record)
    ensures Stringified(JObj(m)).JObj? && Stringified(JObj(m)).fields.Keys == m.Keys
  {
  }

  // ---------------------------------------------------------------- React children

  /** The value holds a plain object, at any depth of arrays. */
  predicate HoldsObject(v: Json) {
    match v
    case JObj(_) => true
    case JArr(a) => exists i :: 0 <= i < |a| && HoldsObject(a[i])
    case _ => false
  }

  /** The text React renders for a value given as a child: nothing for
      `null` and booleans, the digits of a number, a string as it is, an
      array as its elements' texts run together with no separator, and an
      error (`None`) for a plain object. */
  function ChildText(v: Json): (r: Option<string>)
    ensures r.None? <==> HoldsObject(v)
  {
    match v
    case JNull => Some("")
    case JBool(_) => Some("")
    case JNum(n) => Some(IntToString(n))
    case JNegInfinity => Some("-Infinity")
    case JStr(s) => Some(s)
    case JArr(a) =>
      var parts := seq(|a|, i requires 0 <= i < |a| => ChildText(a[i]));
      assert forall i :: 0 <= i < |a| ==> parts[i] == ChildText(a[i]);
      if forall i :: 0 <= i < |a| ==> parts[i].Some? then
        Some(Join(seq(|a|, i requires 0 <= i < |a| => parts[i].value), ""))
      else
        assert exists i :: 0 <= i < |a| && parts[i].None?;
        None
    case JObj(_) => None
  }

  /** A child that is a string, a number or `-Infinity` shows as `String(v)`;
      `true` and `null` show nothing where `String` writes them out. */
  lemma ChildTextAgreesWithToStr(v: Json)
    ensures v.JStr? || v.JNum? || v.JNegInfinity? ==> ChildText(v) == Some(ToStr(v))
    ensures v.JBool? || v.JNull? ==> ChildText(v) == Some("") && ToStr(v) != ""
  {
  }

  /** An array of strings shows its elements run together, where `String`
      puts commas between them. */
  lemma {:induction false} ChildTextOfStrings(ss: seq<string>)
    ensures ChildText(JArr(seq(|ss|, i requires 0 <= i < |ss| => JStr(ss[i])))) == Some(Join(ss, ""))
    ensures ToStr(JArr(seq(|ss|, i requires 0 <= i < |ss| => JStr(ss[i])))) == Join(ss, ",")
  {
    var a := seq(|ss|, i requires 0 <= i < |ss| => JStr(ss[i]));
    var parts := seq(|a|, i requires 0 <= i < |a| => ChildText(a[i]));
    assert forall i :: 0 <= i < |a| ==> parts[i] == Some(ss[i]);
    assert seq(|a|, i requires 0 <= i < |a| => parts[i].value) == ss;
    assert seq(|a|, i requires 0 <= i < |a| => if a[i].JNull? then "" else ToStr(a[i])) == ss;
  }
}
