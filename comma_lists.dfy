/** The comma-separated text fields of the dashboard editors: a list is
    edited as `a, b, c` and saved as the comma-split pieces, each trimmed
    (technologies, tags, key skills). */
module CommaLists {
  import opened Js
  import opened Strings

  /** `pieces.map(t => t.trim())`. */
  function TrimAll(xs: seq<string>): (r: seq<string>)
    ensures |r| == |xs|
    ensures forall i :: 0 <= i < |xs| ==> r[i] == Trim(xs[i])
  {
    if xs == [] then [] else [Trim(xs[0])] + TrimAll(xs[1..])
  }

  /** `text ? text.split(",").map(t => t.trim()) : []`. */
  function CommaPieces(text: string): seq<string> {
    if text == "" then [] else TrimAll(Split(text, ","))
  }

  /** A comma field of submitted form data: a missing or falsy value gives no
      pieces, a string gives its pieces, and any other value has no `split`
      and throws (`None`). */
  function CommaField(v: Option<Json>): (r: Option<seq<string>>)
    ensures v.None? || !Truthy(v.value) ==> r == Some([])
    ensures v.Some? && v.value.JStr? ==> r == Some(CommaPieces(v.value.s))
    ensures r.None? <==> v.Some? && Truthy(v.value) && !v.value.JStr?
  {
    if v.None? || !Truthy(v.value) then Some([])
    else if v.value.JStr? then Some(CommaPieces(v.value.s))
    else None
  }

  /** The pieces of non-empty text: one more than its commas, each trimmed. */
  lemma CommaPiecesShape(text: string)
    requires text != ""
    ensures |CommaPieces(text)| == Count(text, ',') + 1
    ensures forall i :: 0 <= i < |CommaPieces(text)| ==> IsTrimmed(CommaPieces(text)[i])
  {
    SplitCount(text, ',');
  }

  /** `list?.join(", ") || ""`: the text an edit form is prefilled with. */
  function Prefill(list: Option<seq<string>>): (r: string)
    ensures list.None? ==> r == ""
    ensures list.Some? ==> r == Join(list.value, ", ")
  {
    if list.None? then "" else Join(list.value, ", ")
  }

  /** Entries that survive the round trip: not empty, no surrounding
      whitespace, no comma. */
  predicate CleanEntries(xs: seq<string>) {
    forall i :: 0 <= i < |xs| ==> xs[i] != "" && IsTrimmed(xs[i]) && ',' !in xs[i]
  }

  /** Splitting and trimming the prefilled text gives back the list, for
      clean entries, so saving an untouched form keeps the list. */
  lemma PrefillRoundTrip(xs: seq<string>)
    requires CleanEntries(xs)
    ensures CommaPieces(Prefill(Some(xs))) == xs
  {
    if xs != [] {
      JoinNotEmpty(xs, ", ");
      PaddedRoundTrip("", xs);
      assert "" + Join(xs, ", ") == Join(xs, ", ");
    }
  }

  lemma {:induction false} PaddedRoundTrip(pad: string, xs: seq<string>)
    requires pad == "" || pad == " "
    requires xs != [] && CleanEntries(xs)
    ensures TrimAll(Split(pad + Join(xs, ", "), ",")) == xs
    decreases |xs|
  {
    if |xs| == 1 {
      LastPiece(pad, xs[0]);
    } else {
      var rest := xs[1..];
      assert xs == [xs[0]] + rest;
      JoinCons(xs[0], rest, ", ");
      PaddedRoundTrip(" ", rest);
      NextPiece(pad, xs[0], Join(rest, ", "));
    }
  }

  /** The last entry, after its padding, is one piece that trims to it. */
  lemma LastPiece(pad: string, x: string)
    requires pad == "" || pad == " "
    requires IsTrimmed(x) && ',' !in x
    ensures TrimAll(Split(pad + x, ",")) == [x]
  {
    var head := pad + x;
    assert ',' !in head;
    ContainsChar(head, ',');
    SplitNoSep(head, ",");
    TrimOfTrimmed(pad, x);
  }

  /** An entry followed by `, ` comes off as one piece that trims to it. */
  lemma NextPiece(pad: string, x: string, tail: string)
    requires pad == "" || pad == " "
    requires IsTrimmed(x) && ',' !in x
    ensures TrimAll(Split(pad + (x + ", " + tail), ",")) == [x] + TrimAll(Split(" " + tail, ","))
  {
    var head := pad + x;
    assert ", " == [','] + " ";
    assert pad + (x + ", " + tail) == head + [','] + (" " + tail);
    assert ',' !in head;
    SplitCons(head, ',', " " + tail);
    TrimOfTrimmed(pad, x);
    TrimAllCons(head, Split(" " + tail, ","));
  }

  lemma TrimAllCons(a: string, b: seq<string>)
    ensures TrimAll([a] + b) == [Trim(a)] + TrimAll(b)
  {
    assert ([a] + b)[1..] == b;
  }

  /** Strings as the values of a JSON array. */
  function Strs(xs: seq<string>): (r: seq<Json>)
    ensures |r| == |xs| && forall i :: 0 <= i < |xs| ==> r[i] == JStr(xs[i])
  {
    seq(|xs|, i requires 0 <= i < |xs| => JStr(xs[i]))
  }
}
