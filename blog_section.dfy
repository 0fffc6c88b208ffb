/** The blog editor (src/components/dashboard/BlogSection.js): tags text
    becomes a list, an empty publication date becomes today's date, and the
    post cards show a status badge and at most three tags. */
module BlogSection {
  import opened Js
  import opened Strings
  import opened CommaLists
  import opened Cards
  import opened DashboardPage

  /** A moment as `Date.prototype.toISOString` prints it, in UTC. Years
      beyond four digits, which it prints with a sign and six digits, are not
      modelled. */
  datatype Instant = Instant(year: nat, month: nat, day: nat, hour: nat, minute: nat, second: nat, millis: nat)

  predicate ValidInstant(t: Instant) {
    t.year < 10000 && 1 <= t.month <= 12 && 1 <= t.day <= 31 &&
    t.hour < 24 && t.minute < 60 && t.second < 60 && t.millis < 1000
  }

  /** `n` in exactly `width` decimal digits, zero-padded. */
  function Padded(n: nat, width: nat): (r: string)
    requires n < Power10(width)
    ensures |r| == width
    ensures forall i :: 0 <= i < |r| ==> IsDigit(r[i])
    ensures DecimalValue(r) == n
  {
    if width == 0 then ""
    else
      var p := Padded(n / 10, width - 1);
      DecimalValueSnoc(p, DigitChar(n % 10));
      p + [DigitChar(n % 10)]
  }

  function Power10(k: nat): (r: nat)
    ensures r >= 1
  {
    if k == 0 then 1 else 10 * Power10(k - 1)
  }

  lemma Power10Values()
    ensures Power10(2) == 100 && Power10(3) == 1000 && Power10(4) == 10000
  {
  }

  /** `toISOString()`: `YYYY-MM-DDTHH:mm:ss.sssZ`. */
  function IsoString(t: Instant): string
    requires ValidInstant(t)
  {
    Power10Values();
    FullDate(t) + "T" + Padded(t.hour, 2) + ":" + Padded(t.minute, 2) + ":" +
    Padded(t.second, 2) + "." + Padded(t.millis, 3) + "Z"
  }

  /** The full-date of section 5.6 of RFC 3339: `YYYY-MM-DD`. */
  function FullDate(t: Instant): (r: string)
    requires ValidInstant(t)
    ensures |r| == 10 && r[4] == '-' && r[7] == '-'
    ensures 'T' !in r
  {
    Power10Values();
    Padded(t.year, 4) + "-" + Padded(t.month, 2) + "-" + Padded(t.day, 2)
  }

  /** `new Date().toISOString().split("T")[0]`: today's date. */
  function Today(now: Instant): string
    requires ValidInstant(now)
  {
    Split(IsoString(now), "T")[0]
  }

  /** The part before the `T` is the full-date, and its fields read back as
      the instant's year, month and day. */
  lemma TodayIsFullDate(now: Instant)
    requires ValidInstant(now)
    ensures Today(now) == FullDate(now)
    ensures DecimalValue(Today(now)[..4]) == now.year
    ensures DecimalValue(Today(now)[5..7]) == now.month
    ensures DecimalValue(Today(now)[8..]) == now.day
  {
    Power10Values();
    var d := FullDate(now);
    var rest := Padded(now.hour, 2) + ":" + Padded(now.minute, 2) + ":" +
                Padded(now.second, 2) + "." + Padded(now.millis, 3) + "Z";
    assert IsoString(now) == d + ['T'] + rest;
    SplitCons(d, 'T', rest);
    assert d[..4] == Padded(now.year, 4);
    assert d[5..7] == Padded(now.month, 2);
    assert d[8..] == Padded(now.day, 2);
  }

  /** `publishedAt || today`. */
  function PublishedAt(v: Option<Json>, now: Instant): (r: Json)
    requires ValidInstant(now)
    ensures v.Some? && Truthy(v.value) ==> r == v.value
    ensures !(v.Some? && Truthy(v.value)) ==> r == JStr(Today(now))
  {
    if v.Some? && Truthy(v.value) then v.value else JStr(Today(now))
  }

  /** `onSubmitBlog(formData, blogId)` at the moment `now`: tags split and
      trimmed, an empty date replaced by today's, saved into `blog`. `None`
      where the split throws. */
  function BlogSubmit(form: Record, id: Json, now: Instant): (r: Option<SaveCall>)
    requires ValidInstant(now)
    ensures r.None? <==> CommaField(Get(form, "tags")).None?
    ensures r.Some? ==> r.value.section == "blog" && r.value.id == id
    ensures r.Some? ==> r.value.updated.JObj? && r.value.updated.fields.Keys == form.Keys + {"tags", "publishedAt"}
    ensures r.Some? ==> r.value.updated.fields["tags"] == JArr(Strs(CommaField(Get(form, "tags")).value))
    ensures r.Some? ==> r.value.updated.fields["publishedAt"] == PublishedAt(Get(form, "publishedAt"), now)
    ensures r.Some? ==> forall k :: k in form && k != "tags" && k != "publishedAt" ==> r.value.updated.fields[k] == form[k]
  {
    match CommaField(Get(form, "tags"))
    case None => None
    case Some(tags) =>
      Some(SaveCall("blog", JObj(form["tags" := JArr(Strs(tags))]["publishedAt" := PublishedAt(Get(form, "publishedAt"), now)]), id))
  }

  /** A post saved without a date gets today's full-date. */
  lemma UndatedPostGetsToday(form: Record, id: Json, now: Instant)
    requires ValidInstant(now)
    requires BlogSubmit(form, id, now).Some?
    requires "publishedAt" !in form || form["publishedAt"] == JStr("")
    ensures BlogSubmit(form, id, now).value.updated.fields["publishedAt"] == JStr(FullDate(now))
  {
    TodayIsFullDate(now);
  }

  /** The post `Add Post` hands to `addNewItem` at the moment `now`. */
  function NewPost(now: Instant): Json
    requires ValidInstant(now)
  {
    JObj(map[
      "title" := JStr("New Blog Post"),
      "excerpt" := JStr("Blog post excerpt..."),
      "content" := JStr("Blog post content..."),
      "image" := JStr("https://via.placeholder.com/600x400"),
      "tags" := JArr([JStr("Web Development")]),
      "publishedAt" := JStr(Today(now)),
      "readTime" := JStr("5 min"),
      "status" := JStr("draft")])
  }

  /** Adding a post appends a draft tagged `Web Development`, dated today,
      under a fresh id. */
  lemma AddPostDefaults(doc: Json, now: Instant)
    requires ValidInstant(now)
    requires Get(Spread(doc), "blog").Some? && Get(Spread(doc), "blog").value.JArr?
    requires NumericIds(Spread(doc)["blog"].items)
    requires JNull !in Spread(doc)["blog"].items
    ensures var r := AddItem(doc, "blog", NewPost(now));
      var items := Spread(doc)["blog"].items;
      && r.Done?
      && var added := r.doc.fields["blog"].items[|items|].fields;
      && added == NewPost(now).fields["id" := NextId(items)]
      && added["status"] == JStr("draft") && added["tags"] == JArr([JStr("Web Development")])
      && added["publishedAt"] == JStr(FullDate(now))
  {
    var items := Spread(doc)["blog"].items;
    var r := AddItem(doc, "blog", NewPost(now));
    assert r.doc.fields["blog"].items[|items|] == NewItem(NewPost(now), NextId(items));
    NewPostFields(now, NextId(items));
  }

  /** The draft's fields, whatever id it is given. */
  lemma NewPostFields(now: Instant, id: Json)
    requires ValidInstant(now)
    ensures var added := NewPost(now).fields["id" := id];
      && added["status"] == JStr("draft") && added["tags"] == JArr([JStr("Web Development")])
      && added["publishedAt"] == JStr(FullDate(now))
  {
    TodayIsFullDate(now);
  }

  // ---------------------------------------------------------------- post cards

  datatype BadgeKind = PublishedBadge | DraftBadge | OtherBadge

  /** The status badge of a post card: none for a falsy status, a coloured
      badge labelled with the status capitalised otherwise, and an exception
      for a truthy status that is not a string. */
  datatype Badge = NoBadge | Badge(kind: BadgeKind, caption: string) | BadgeThrows

  function StatusBadge(status: Option<Json>): (r: Badge)
    ensures r.NoBadge? <==> status.None? || !Truthy(status.value)
    ensures r.BadgeThrows? <==> status.Some? && Truthy(status.value) && !status.value.JStr?
    ensures r.Badge? ==> var s := status.value.s;
      && (r.kind == PublishedBadge <==> s == "published")
      && (r.kind == DraftBadge <==> s == "draft")
      && |r.caption| == |s| && r.caption[0] == UpperChar(s[0]) && r.caption[1..] == s[1..]
  {
    if status.None? || !Truthy(status.value) then NoBadge
    else if !status.value.JStr? then BadgeThrows
    else
      var s := status.value.s;
      var kind := if s == "published" then PublishedBadge else if s == "draft" then DraftBadge else OtherBadge;
      Badge(kind, [UpperChar(s[0])] + s[1..])
  }

  /** The tag row of a post card: absent without tags; otherwise the first
      three and a `+n more` badge for the rest. */
  datatype TagRow = NoTags | TagRow(shown: seq<string>, more: Option<string>)

  function CardTagRow(tags: Option<seq<string>>): (r: TagRow)
    ensures r.NoTags? <==> tags.None? || tags.value == []
    ensures r.TagRow? ==> r.shown == Shown(tags.value, 3) && r.more == MoreBadge(tags.value, 3)
  {
    if tags.None? || tags.value == [] then NoTags else TagRow(Shown(tags.value, 3), MoreBadge(tags.value, 3))
  }

  /** The badge counts exactly the hidden tags. */
  lemma TagRowCounts(tags: seq<string>)
    requires tags != []
    ensures var row := CardTagRow(Some(tags));
      && |row.shown| == (if |tags| > 3 then 3 else |tags|)
      && (row.more.Some? <==> |tags| > 3)
      && (row.more.Some? ==> row.more.value == "+" + NatToString(|tags| - 3) + " more")
  {
  }
}
