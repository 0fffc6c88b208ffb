/** The social-media view (src/components/dashboard/SocialMediaSection.js):
    one card per known platform, and the free-text "other links", one per
    line, each shown as a link or as plain text. */
module SocialMediaSection {
  import opened Js
  import opened Strings
  import opened Seqs

  /** The platforms the view has a card for: storage key and display name. */
  const Platforms: seq<(string, string)> := [
    ("github", "GitHub"), ("linkedin", "LinkedIn"), ("twitter", "Twitter"),
    ("instagram", "Instagram"), ("facebook", "Facebook"), ("youtube", "YouTube")]

  /** A platform card: the stored URL as a link whose text is the URL
      rendered as a React child, the placeholder text, or a throw when that
      child holds a plain object. */
  datatype PlatformView = Linked(url: Json, text: string) | NotConfigured | Throws

  function PlatformCard(data: Option<Record>, key: string): (r: PlatformView)
    ensures r.NotConfigured? <==> !(Field(data, key).Some? && Truthy(Field(data, key).value))
    ensures r.Throws? <==> Field(data, key).Some? && Truthy(Field(data, key).value) && HoldsObject(data.value[key])
    ensures r.Linked? ==> r.url == data.value[key] && ChildText(r.url) == Some(r.text)
  {
    var v := Field(data, key);
    if v.Some? && Truthy(v.value) then
      match ChildText(v.value)
      case Some(text) => Linked(v.value, text)
      case None => Throws
    else NotConfigured
  }

  /** A URL stored as text shows as itself; `true` and `[]` show a link with
      no text, and an object throws. */
  lemma PlatformCardText(data: Record, key: string)
    requires key in data
    ensures data[key].JStr? && data[key].s != "" ==> PlatformCard(Some(data), key) == Linked(data[key], data[key].s)
    ensures data[key] == JBool(true) ==> PlatformCard(Some(data), key) == Linked(JBool(true), "")
    ensures data[key] == JArr([]) ==> PlatformCard(Some(data), key) == Linked(JArr([]), "")
    ensures data[key].JObj? ==> PlatformCard(Some(data), key) == Throws
  {
  }

  /** The cards, one per platform, in the table's order. */
  function PlatformCards(data: Option<Record>): (r: seq<PlatformView>)
    ensures |r| == |Platforms|
    ensures forall i :: 0 <= i < |Platforms| ==> r[i] == PlatformCard(data, Platforms[i].0)
  {
    seq(|Platforms|, i requires 0 <= i < |Platforms| => PlatformCard(data, Platforms[i].0))
  }

  /** The lines of the other-links text that are not blank, in order. */
  function OtherLines(other: string): seq<string> {
    Filter((l: string) => Trim(l) != "", Split(other, "\n"))
  }

  /** Only blank lines are dropped, and the kept ones keep their order. */
  lemma OtherLinesKept(other: string)
    ensures IsSubsequence(OtherLines(other), Split(other, "\n"))
    ensures forall i :: 0 <= i < |OtherLines(other)| ==> !AllSpace(OtherLines(other)[i])
    ensures forall l :: l in Split(other, "\n") && !AllSpace(l) ==> l in OtherLines(other)
    ensures |OtherLines(other)| <= Count(other, '\n') + 1
  {
    var lines := Split(other, "\n");
    forall l | l in lines
      ensures Trim(l) != "" <==> !AllSpace(l)
    {
      TrimEmptyIff(l);
    }
    forall i | 0 <= i < |OtherLines(other)|
      ensures !AllSpace(OtherLines(other)[i])
    {
      TrimEmptyIff(OtherLines(other)[i]);
    }
    SubsequenceFacts(OtherLines(other), lines);
    SplitCount(other, '\n');
  }

  /** How a line is shown: a line mentioning `http` as a link (whose target
      may be missing), any other line as plain text. */
  datatype LineView = LinkLine(href: Option<string>, text: string) | TextLine(text: string)

  /** The target of a link line as written: for a line with a colon, the
      piece after the first `": "`, which is `undefined` when the line has a
      colon but no `": "`, as every bare URL has. */
  function HrefAsWritten(line: string): Option<string> {
    if Contains(line, ":") then
      var pieces := Split(line, ": ");
      if |pieces| > 1 then Some(pieces[1]) else None
    else Some(line)
  }

  /** The target a link line evidently means: the piece after `"Label: "`
      when there is one, and the line itself otherwise. */
  function Href(line: string): (r: Option<string>)
    ensures r.Some?
    ensures !Contains(line, ": ") ==> r == Some(line)
  {
    if Contains(line, ": ") then
      var pieces := Split(line, ": ");
      if |pieces| > 1 then Some(pieces[1]) else Some(line)
    else Some(line)
  }

  function ViewLine(line: string): (r: LineView)
    ensures r.LinkLine? <==> Contains(line, "http")
    ensures r.text == line
    ensures r.LinkLine? ==> r.href == Href(line)
  {
    if Contains(line, "http") then LinkLine(Href(line), line) else TextLine(line)
  }

  function ViewLineAsWritten(line: string): LineView {
    if Contains(line, "http") then LinkLine(HrefAsWritten(line), line) else TextLine(line)
  }

  /** A bare URL has a colon but no `": "`, so as written its link has no
      target. */
  lemma BareUrlLosesHref()
    ensures ViewLineAsWritten("https://x.io") == LinkLine(None, "https://x.io")
    ensures ViewLine("https://x.io") == LinkLine(Some("https://x.io"), "https://x.io")
  {
    var line := "https://x.io";
    BareUrlShape(line);
    SplitNoSep(line, ": ");
  }

  /** The example URL mentions `http`, has a colon and has no `": "`. */
  lemma BareUrlShape(line: string)
    requires line == "https://x.io"
    ensures Contains(line, "http") && Contains(line, ":") && !Contains(line, ": ")
  {
    assert line[..4] == "http";
    assert StartsWith(line, "http");
    assert line[5] == ':';
    ContainsChar(line, ':');
    assert forall k :: 0 <= k < |line| ==> line[k] != ' ';
    if Contains(line, ": ") {
      ContainsMember(line, ": ", ' ');
    }
  }

  /** For a `Label: url` line, with no colon in the label and no `": "` in
      the url, the link goes to the url; the code as written agrees there. */
  lemma LabelledLineHref(name: string, url: string)
    requires ':' !in name && !Contains(url, ": ")
    ensures Href(name + ": " + url) == Some(url)
    ensures HrefAsWritten(name + ": " + url) == Some(url)
  {
    LabelledLineSplit(name, url, name + ": " + url);
  }

  /** Such a line has a colon, and splits at `": "` into the label and the url. */
  lemma LabelledLineSplit(name: string, url: string, line: string)
    requires ':' !in name && !Contains(url, ": ")
    requires line == name + ": " + url
    ensures Contains(line, ":") && Contains(line, ": ")
    ensures Split(line, ": ") == [name, url]
  {
    assert line[|name|..|name| + 2] == ": ";
    assert OccursAt(line, ": ", |name|);
    forall j | 0 <= j < |name|
      ensures !OccursAt(line, ": ", j)
    {
      assert line[j] == name[j];
    }
    ContainsIff(line, ": ");
    SplitAtFirst(line, ": ", |name|);
    assert line[..|name|] == name;
    assert line[|name| + 2..] == url;
    SplitNoSep(url, ": ");
    assert line[|name|] == ':';
    ContainsChar(line, ':');
  }

  /** The other-links block: hidden for a falsy value, one view per kept line
      for a string, and an exception for any other value (it has no `split`). */
  datatype OtherBlock = Hidden | Shown(lines: seq<LineView>) | OtherThrows

  function OtherLinks(data: Option<Record>): (r: OtherBlock)
    ensures r.Hidden? <==> Field(data, "other").None? || !Truthy(Field(data, "other").value)
    ensures r.OtherThrows? <==> Field(data, "other").Some? && Truthy(Field(data, "other").value) && !Field(data, "other").value.JStr?
    ensures r.Shown? ==> var kept := OtherLines(data.value["other"].s);
      |r.lines| == |kept| && forall i :: 0 <= i < |kept| ==> r.lines[i] == ViewLine(kept[i])
  {
    var v := Field(data, "other");
    if v.None? || !Truthy(v.value) then Hidden
    else if !v.value.JStr? then OtherThrows
    else
      var kept := OtherLines(v.value.s);
      Shown(seq(|kept|, i requires 0 <= i < |kept| => ViewLine(kept[i])))
  }
}
