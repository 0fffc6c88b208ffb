/** The page of one blog post (src/pages/BlogDetail.js): the post the route
    parameter names, the links that share it and the related posts below it. */
module BlogDetail {
  import opened Js
  import opened Strings
  import opened Seqs
  import opened UriEncoding
  import opened BlogPage

  // ---------------------------------------------------------------- parseInt

  /** The longest prefix of `s` made of characters satisfying `ok`. */
  function LeadingRun(s: string, ok: char -> bool): (r: string)
    ensures |r| <= |s| && r == s[..|r|]
    ensures forall i :: 0 <= i < |r| ==> ok(r[i])
    ensures |r| == |s| || !ok(s[|r|])
  {
    if s != [] && ok(s[0]) then [s[0]] + LeadingRun(s[1..], ok) else []
  }

  predicate IsHexDigit(c: char) {
    HexValue(c).Some?
  }

  /** The number a string of hexadecimal digits denotes. */
  function HexNumber(s: string): nat
    requires forall i :: 0 <= i < |s| ==> IsHexDigit(s[i])
  {
    if s == [] then 0
    else
      assert IsHexDigit(s[|s| - 1]);
      HexNumber(s[..|s| - 1]) * 16 + HexValue(s[|s| - 1]).value
  }

  /** The sign and the rest, after a leading `-` or `+`. */
  function SignOf(t: string): (r: (int, string))
    ensures r.0 == 1 || r.0 == -1
    ensures r.0 == -1 <==> |t| > 0 && t[0] == '-'
  {
    if |t| > 0 && t[0] == '-' then (-1, t[1..])
    else if |t| > 0 && t[0] == '+' then (1, t[1..])
    else (1, t)
  }

  predicate HasHexPrefix(t: string) {
    |t| >= 2 && t[0] == '0' && (t[1] == 'x' || t[1] == 'X')
  }

  /** The digits after the sign: base 16 after `0x` or `0X`, base 10
      otherwise; `None` when there is no digit to read. */
  function ParseUnsigned(body: string): (r: Option<nat>)
    ensures HasHexPrefix(body) ==> (r.Some? <==> |body| > 2 && IsHexDigit(body[2]))
    ensures !HasHexPrefix(body) ==> (r.Some? <==> |body| > 0 && IsDigit(body[0]))
  {
    if HasHexPrefix(body) then
      var ds := LeadingRun(body[2..], IsHexDigit);
      if ds == [] then None else Some(HexNumber(ds))
    else
      var ds := LeadingRun(body, IsDigit);
      if ds == [] then None else Some(DecimalValue(ds))
  }

  /** `parseInt(s)` without a radix: leading whitespace is skipped, a sign
      is read, and then the digits, with the rest ignored; `None` is `NaN`. */
  function ParseInt(s: string): (r: Option<int>)
    ensures r.Some? <==> ParseUnsigned(SignOf(TrimStart(s)).1).Some?
    ensures r.Some? && r.value < 0 ==> SignOf(TrimStart(s)).0 == -1
    ensures r.Some? && SignOf(TrimStart(s)).0 == -1 ==> r.value <= 0
  {
    var signed := SignOf(TrimStart(s));
    match ParseUnsigned(signed.1)
    case None => None
    case Some(v) => if signed.0 == -1 then Some(-(v as int)) else Some(v as int)
  }

  /** The run of digits at the front of `d + rest` is `d`, when `rest` does
      not start with a digit. */
  lemma {:induction false} LeadingDigits(d: string, rest: string)
    requires forall i :: 0 <= i < |d| ==> IsDigit(d[i])
    requires rest == [] || !IsDigit(rest[0])
    ensures LeadingRun(d + rest, IsDigit) == d
  {
    if d != [] {
      assert (d + rest)[0] == d[0];
      assert (d + rest)[1..] == d[1..] + rest;
      LeadingDigits(d[1..], rest);
      assert [d[0]] + d[1..] == d;
    } else {
      assert d + rest == rest;
    }
  }

  /** A string that starts with a digit other than the start of `0x` is read
      in decimal, up to its first non-digit. */
  lemma ParseIntDecimal(s: string)
    requires s != [] && IsDigit(s[0]) && !HasHexPrefix(s)
    ensures ParseInt(s) == Some(DecimalValue(LeadingRun(s, IsDigit)))
  {
    assert !IsSpace(s[0]);
    TrimStartNoSpace(s);
    assert s[0] != '-' && s[0] != '+';
    assert SignOf(s) == (1, s);
    assert LeadingRun(s, IsDigit) != [];
  }

  /** `parseInt` reads a number written in decimal back, and ignores anything
      after it that is not a digit (and not an `x` straight after a lone `0`). */
  lemma ParseIntOfDecimal(n: nat, rest: string)
    requires rest == [] || (!IsDigit(rest[0]) && rest[0] != 'x' && rest[0] != 'X')
    ensures ParseInt(NatToString(n) + rest) == Some(n)
  {
    var d := NatToString(n);
    var s := d + rest;
    assert s[0] == d[0];
    assert !HasHexPrefix(s) by {
      if |d| == 1 {
        if |s| >= 2 { assert s[1] == rest[0]; }
      } else {
        assert s[1] == d[1];
      }
    }
    LeadingDigits(d, rest);
    ParseIntDecimal(s);
  }

  /** With a minus sign in front, the negative of the number is read. */
  lemma ParseIntOfNegative(n: nat)
    ensures ParseInt("-" + NatToString(n)) == Some(-(n as int))
  {
    var d := NatToString(n);
    var s := "-" + d;
    assert !IsSpace(s[0]);
    TrimStartNoSpace(s);
    assert s[1..] == d;
    assert SignOf(s) == (-1, d);
    assert !HasHexPrefix(d);
    LeadingDigits(d, "");
    assert d + "" == d;
    assert ParseUnsigned(d) == Some(n);
  }

  /** So `parseInt(String(i))` is `i` for every integer. */
  lemma ParseIntOfIntToString(i: int)
    ensures ParseInt(IntToString(i)) == Some(i)
  {
    if i < 0 {
      ParseIntOfNegative(-i);
    } else {
      ParseIntOfDecimal(i, "");
      assert NatToString(i) + "" == NatToString(i);
    }
  }

  // ---------------------------------------------------------------- the post

  /** The position of the first post whose id is strictly equal to `n`. */
  function FindPost(blog: seq<Post>, n: int): (r: Option<nat>)
    ensures r.Some? ==> r.value < |blog| && blog[r.value].id == JNum(n)
    ensures r.Some? ==> forall j :: 0 <= j < r.value ==> blog[j].id != JNum(n)
    ensures r.None? <==> forall j :: 0 <= j < |blog| ==> blog[j].id != JNum(n)
  {
    if blog == [] then None
    else if blog[0].id == JNum(n) then Some(0)
    else
      match FindPost(blog[1..], n)
      case None =>
        assert forall j :: 1 <= j < |blog| ==> blog[j] == blog[1..][j - 1];
        None
      case Some(k) =>
        assert forall j :: 1 <= j <= k + 1 ==> blog[j] == blog[1..][j - 1];
        Some(k + 1)
  }

  datatype Page = Redirect(to: string) | Show(post: Post)

  /** What the route `/blog/:id` renders: the matching post, or a redirect
      to the list when `parseInt(id)` is `NaN` or no post has that id. */
  function DetailPage(blog: seq<Post>, param: string): (r: Page)
    ensures r.Redirect? ==> r.to == "/blog"
    ensures r.Show? <==> ParseInt(param).Some? && FindPost(blog, ParseInt(param).value).Some?
    ensures r.Show? ==> r.post == blog[FindPost(blog, ParseInt(param).value).value]
  {
    match ParseInt(param)
    case None => Redirect("/blog")
    case Some(n) =>
      match FindPost(blog, n)
      case None => Redirect("/blog")
      case Some(i) => Show(blog[i])
  }

  /** The link `/blog/${post.id}` of the list leads to the first post with
      that id, whenever the id is an integer. */
  lemma ListLinkShowsPost(blog: seq<Post>, i: nat)
    requires i < |blog| && blog[i].id.JNum?
    ensures DetailPage(blog, IntToString(blog[i].id.n)).Show?
    ensures DetailPage(blog, IntToString(blog[i].id.n)).post.id == blog[i].id
  {
    ParseIntOfIntToString(blog[i].id.n);
  }

  // ---------------------------------------------------------------- sharing

  /** `Check out this article: ${post.title}`. */
  function ShareText(title: string): (r: string)
    ensures StartsWith(r, "Check out this article: ")
    ensures r[|"Check out this article: "|..] == title
  {
    "Check out this article: " + title
  }

  const TwitterBase: string := "https://twitter.com/intent/tweet"
  const FacebookBase: string := "https://www.facebook.com/sharer/sharer.php"
  const LinkedInBase: string := "https://www.linkedin.com/sharing/share-offsite/"

  /** `name=` followed by the encoded value. */
  function Pair(name: string, value: string): string {
    name + "=" + EncodeUriComponent(value)
  }

  /** A link: the base, `?` and the query. */
  function Link(base: string, query: string): string {
    base + "?" + query
  }

  /** The three share links; `url` is the page's own address. */
  function TwitterUrl(text: string, url: string): string {
    Link(TwitterBase, Pair("text", text) + "&" + Pair("url", url))
  }

  function FacebookUrl(url: string): string {
    Link(FacebookBase, Pair("u", url))
  }

  function LinkedInUrl(url: string): string {
    Link(LinkedInBase, Pair("url", url))
  }

  /** The decoded value of the first `name=value` pair among `pairs`. */
  function PairValue(pairs: seq<string>, name: string): Option<string> {
    if pairs == [] then None
    else if StartsWith(pairs[0], name + "=") then DecodeUriComponent(pairs[0][|name| + 1..])
    else PairValue(pairs[1..], name)
  }

  /** What a recipient reads from a link: the query after the first `?`,
      split at `&`, and the named parameter decoded. */
  function QueryParameter(link: string, name: string): Option<string> {
    var parts := Split(link, "?");
    if |parts| < 2 then None else PairValue(Split(parts[1], "&"), name)
  }

  /** A base without `?` followed by `?` and a query without `?` splits
      into exactly those two. */
  lemma SplitLink(base: string, query: string)
    requires '?' !in base && '?' !in query
    ensures Split(Link(base, query), "?") == [base, query]
  {
    SplitCons(base, '?', query);
    ContainsChar(query, '?');
    SplitNoSep(query, "?");
  }

  /** One pair with a plain name has no `&` and no `?`, and reads back as
      its value. */
  lemma PairIsPlain(name: string, value: string)
    requires '&' !in name && '?' !in name
    ensures '&' !in Pair(name, value) && '?' !in Pair(name, value)
    ensures Split(Pair(name, value), "&") == [Pair(name, value)]
    ensures PairValue([Pair(name, value)], name) == Some(value)
  {
    EncodedHasNoDelimiters(value);
    ContainsChar(Pair(name, value), '&');
    SplitNoSep(Pair(name, value), "&");
    assert Pair(name, value)[..|name| + 1] == name + "=";
    assert Pair(name, value)[|name| + 1..] == EncodeUriComponent(value);
    UriRoundTrip(value);
  }

  /** A link whose query is one pair gives that pair's value back. */
  lemma OneParameterLink(base: string, name: string, value: string)
    requires '?' !in base && '&' !in name && '?' !in name
    ensures QueryParameter(Link(base, Pair(name, value)), name) == Some(value)
  {
    PairIsPlain(name, value);
    SplitLink(base, Pair(name, value));
  }

  /** The pairs of a two-pair query. */
  lemma SplitTwoPairs(a: string, b: string)
    requires '&' !in a && '&' !in b
    ensures Split(a + "&" + b, "&") == [a, b]
  {
    SplitCons(a, '&', b);
    ContainsChar(b, '&');
    SplitNoSep(b, "&");
  }

  /** A link whose query is two pairs, under names that differ in their
      first character, gives both values back. */
  lemma TwoParameterLink(base: string, n1: string, v1: string, n2: string, v2: string)
    requires '?' !in base && '&' !in n1 && '?' !in n1 && '&' !in n2 && '?' !in n2
    requires n1 != [] && n2 != [] && n1[0] != n2[0]
    ensures QueryParameter(Link(base, Pair(n1, v1) + "&" + Pair(n2, v2)), n1) == Some(v1)
    ensures QueryParameter(Link(base, Pair(n1, v1) + "&" + Pair(n2, v2)), n2) == Some(v2)
  {
    var a := Pair(n1, v1);
    var b := Pair(n2, v2);
    var q := a + "&" + b;
    PairIsPlain(n1, v1);
    PairIsPlain(n2, v2);
    SplitTwoPairs(a, b);
    assert '?' !in q by {
      forall k | 0 <= k < |q| ensures q[k] != '?' {
        if k < |a| { assert q[k] == a[k]; }
        else if k > |a| { assert q[k] == b[k - |a| - 1]; }
      }
    }
    SplitLink(base, q);
    var parts := Split(Link(base, q), "?");
    assert parts[1] == q;
    assert a[0] == n1[0] && b[0] == n2[0];
    assert !StartsWith(a, n2 + "=");
    assert [a, b][1..] == [b];
  }

  /** The Twitter link carries the share text and the page's address, and a
      recipient reads both back unchanged. */
  lemma TwitterUrlCarries(text: string, url: string)
    ensures QueryParameter(TwitterUrl(text, url), "text") == Some(text)
    ensures QueryParameter(TwitterUrl(text, url), "url") == Some(url)
  {
    assert '?' !in TwitterBase;
    TwoParameterLink(TwitterBase, "text", text, "url", url);
  }

  /** The Facebook and LinkedIn links carry the page's address. */
  lemma SingleParameterUrlsCarry(url: string)
    ensures QueryParameter(FacebookUrl(url), "u") == Some(url)
    ensures QueryParameter(LinkedInUrl(url), "url") == Some(url)
  {
    assert '?' !in FacebookBase;
    assert '?' !in LinkedInBase;
    OneParameterLink(FacebookBase, "u", url);
    OneParameterLink(LinkedInBase, "url", url);
  }

  // ---------------------------------------------------------------- related posts

  /** Another post that has some tag of `post`. */
  predicate IsRelated(p: Post, post: Post) {
    p.id != post.id && exists i :: 0 <= i < |p.tags| && Includes(post.tags, p.tags[i])
  }

  /** `relatedPosts`: the first three related posts. */
  function RelatedPosts(blog: seq<Post>, post: Post): seq<Post> {
    var related := Filter((p: Post) => IsRelated(p, post), blog);
    if |related| <= 3 then related else related[..3]
  }

  /** At most three related posts, the first ones in blog order, each
      another post sharing a tag, and never the post itself. */
  lemma RelatedPostsSpec(blog: seq<Post>, post: Post)
    ensures |RelatedPosts(blog, post)| == if |Filter((p: Post) => IsRelated(p, post), blog)| <= 3 then |Filter((p: Post) => IsRelated(p, post), blog)| else 3
    ensures RelatedPosts(blog, post) == Filter((p: Post) => IsRelated(p, post), blog)[..|RelatedPosts(blog, post)|]
    ensures forall i :: 0 <= i < |RelatedPosts(blog, post)| ==> RelatedPosts(blog, post)[i] in blog && IsRelated(RelatedPosts(blog, post)[i], post)
    ensures post !in RelatedPosts(blog, post)
  {
    var related := Filter((p: Post) => IsRelated(p, post), blog);
    var r := RelatedPosts(blog, post);
    assert forall i :: 0 <= i < |r| ==> r[i] == related[i];
  }
}
