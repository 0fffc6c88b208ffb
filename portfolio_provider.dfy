/** The content store of `PortfolioProvider` (src/App.js): one document
    holding every section of the site, replaced wholesale and saved under
    `ContentKey` on every update. */
module PortfolioProvider {
  import opened Js

  /** The storage key the document is saved under. */
  const ContentKey: string := "portfolioData"

  class Portfolio {
    /** The document every page reads. */
    var data: Json
    /** The document this store last handed to `JSON.stringify` and saved;
        `None` before its first save. */
    var saved: Option<Json>

    /** The store starts from the bundled dataset `bundled`. */
    constructor (bundled: Json)
      ensures data == bundled
      ensures saved == None
    {
      data := bundled;
      saved := None;
    }

    /** The mount effect: `entry` is what storage holds under `ContentKey`
        and `parsed` the outcome of parsing it (`None` when parsing throws).
        A present, non-empty entry that parses replaces the document; one
        that fails to parse is reported and the document is kept. */
    method Mount(entry: Option<string>, parsed: Option<Json>)
      modifies this
      ensures entry.Some? && entry.value != "" && parsed.Some? ==> data == parsed.value
      ensures !(entry.Some? && entry.value != "" && parsed.Some?) ==> data == old(data)
      ensures saved == old(saved)
    {
      if entry.Some? && entry.value != "" {
        if parsed.Some? {
          data := parsed.value;
        }
      }
    }

    /** `updateData(d)`: the document becomes exactly `d`, with no merge, and
        exactly `d` is saved. */
    method UpdateData(d: Json)
      modifies this
      ensures data == d
      ensures saved == Some(d)
    {
      data := d;
      saved := Some(d);
    }
  }

  /** What an update saves is what the next page load shows: a fresh store
      over the bundled dataset, mounted on the saved entry, holds the
      updated document as `JSON.stringify` wrote it. `text` stands for the
      saved text, whose parse is `Stringified(d)`; a document without
      `-Infinity` comes back exactly. */
  method ReloadAfterUpdate(bundled: Json, d: Json, text: string) returns (reloaded: Portfolio)
    requires text != ""
    ensures reloaded.data == Stringified(d)
    ensures reloaded.data == d <==> NoNegInfinity(d)
  {
    var before := new Portfolio(bundled);
    before.UpdateData(d);
    reloaded := new Portfolio(bundled);
    reloaded.Mount(Some(text), Some(Stringified(before.saved.value)));
    StringifiedFixedPoints(d);
  }
}
