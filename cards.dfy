/** The tag rows of the site's cards: the first few tags and a `+n more`
    badge counting the rest. */
module Cards {
  import opened Js

  /** `list.slice(0, limit)`: the entries a card shows. */
  function Shown(list: seq<string>, limit: nat): (r: seq<string>)
    ensures |r| == if |list| <= limit then |list| else limit
    ensures r == list[..|r|]
  {
    if |list| <= limit then list else list[..limit]
  }

  /** The `+n more` badge beside the shown entries, present exactly when some
      are hidden. */
  function MoreBadge(list: seq<string>, limit: nat): (r: Option<string>)
    ensures r.Some? <==> |list| > limit
    ensures r.Some? ==> r.value == "+" + NatToString(|list| - |Shown(list, limit)|) + " more"
  {
    if |list| > limit then Some("+" + NatToString(|list| - limit) + " more") else None
  }
}
