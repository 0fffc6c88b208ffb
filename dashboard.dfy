/** The editing operations of the dashboard (src/pages/Dashboard.js): the
    per-section and per-item saves, appending and deleting items, importing a
    whole document, and the map of which editors are open. */
module DashboardPage {
  import opened Js
  import opened Strings
  import opened Seqs
  import opened PortfolioProvider
  import opened UriEncoding

  // ---------------------------------------------------------------- edit mode

  /** The key an editor's flag is kept under: the section alone when `id`
      is falsy, otherwise `<section>_<id>`. */
  function EditKey(section: string, id: Json): string {
    if Truthy(id) then section + "_" + ToStr(id) else section
  }

  /** `!prev[key]`: an absent flag reads as closed. */
  function IsOpen(m: map<string, bool>, key: string): bool {
    key in m && m[key]
  }

  /** The edit map after toggling one key. */
  function Toggle(m: map<string, bool>, key: string): (r: map<string, bool>)
    ensures key in r && r[key] == !IsOpen(m, key)
    ensures forall k :: k != key ==> (k in r <==> k in m) && (k in m ==> r[k] == m[k])
  {
    m[key := !IsOpen(m, key)]
  }

  /** Toggling twice restores the key's flag and leaves the others alone. */
  lemma ToggleTwice(m: map<string, bool>, key: string)
    ensures Toggle(Toggle(m, key), key) == m[key := IsOpen(m, key)]
  {
  }

  /** A section's own editor and an item's editor never share a flag. */
  lemma SectionKeyDiffersFromItemKey(section: string, id: Json)
    requires Truthy(id)
    ensures EditKey(section, JNull) != EditKey(section, id)
  {
    assert |EditKey(section, id)| > |section|;
  }

  /** Items of one section with distinct integer ids have distinct flags. */
  lemma ItemKeysDistinct(section: string, m: int, n: int)
    requires m != 0 && n != 0 && m != n
    ensures EditKey(section, JNum(m)) != EditKey(section, JNum(n))
  {
    var k1, k2 := EditKey(section, JNum(m)), EditKey(section, JNum(n));
    assert k1[|section| + 1..] == IntToString(m);
    assert k2[|section| + 1..] == IntToString(n);
    IntToStringInjective(m, n);
  }

  /** Distinct integers print differently. */
  lemma IntToStringInjective(m: int, n: int)
    requires m != n
    ensures IntToString(m) != IntToString(n)
  {
    if m < 0 && n < 0 {
      assert IntToString(m)[1..] == NatToString(-m);
      assert IntToString(n)[1..] == NatToString(-n);
    } else if m < 0 && n >= 0 {
      assert IntToString(m)[0] == '-' && IsDigit(IntToString(n)[0]);
    } else if m >= 0 && n < 0 {
      assert IntToString(n)[0] == '-' && IsDigit(IntToString(m)[0]);
    }
  }

  // ---------------------------------------------------------------- items

  /** `item.id`, `None` when the item has no such property. */
  function ItemId(item: Json): Option<Json> {
    if item.JObj? && "id" in item.fields then Some(item.fields["id"]) else None
  }

  /** The outcome of `findIndex(item => item.id === id)`: reading `id` off a
      `null` element before the match throws. */
  datatype Found = Crash | Missing | At(index: nat)

  function FindById(items: seq<Json>, id: Json): (r: Found)
    ensures r.At? ==> r.index < |items| && ItemId(items[r.index]) == Some(id)
    ensures r.At? || r.Missing? ==>
      forall j :: 0 <= j < |items| && (r.Missing? || j < r.index) ==> items[j] != JNull && ItemId(items[j]) != Some(id)
    ensures r.Crash? <==> exists j :: 0 <= j < |items| && items[j] == JNull &&
                                   forall k :: 0 <= k < j ==> ItemId(items[k]) != Some(id)
  {
    if items == [] then Missing
    else if items[0] == JNull then Crash
    else if ItemId(items[0]) == Some(id) then At(0)
    else
      var r := FindById(items[1..], id);
      assert forall j :: 1 <= j < |items| ==> items[1..][j - 1] == items[j];
      match r
      case Crash =>
        var j :| 0 <= j < |items[1..]| && items[1..][j] == JNull &&
                 forall k :: 0 <= k < j ==> ItemId(items[1..][k]) != Some(id);
        assert items[j + 1] == JNull;
        Crash
      case Missing => Missing
      case At(i) => At(i + 1)
  }

  /** What a section operation ends in: a new document, an exception, or
      nothing done because the user cancelled. */
  datatype Outcome = Done(doc: Json) | Threw | Cancelled

  /** `{...old, ...updated}`: the object spread of an optional value. */
  function SpreadOf(v: Option<Json>): Record {
    if v.None? then map[] else Spread(v.value)
  }

  /** `saveData(section, updated, id)` for a truthy `id`: the first element
      with that id gets `updated` spread over it; the section must be an
      array. */
  function SaveItem(doc: Json, section: string, updated: Json, id: Json): (r: Outcome)
    ensures r != Cancelled
    ensures r.Threw? <==> !(Get(Spread(doc), section).Some? && Get(Spread(doc), section).value.JArr?) ||
                          FindById(Spread(doc)[section].items, id).Crash?
    ensures r.Done? ==> r.doc.JObj? && r.doc.fields.Keys == Spread(doc).Keys
    ensures r.Done? ==> forall k :: k in Spread(doc) && k != section ==> r.doc.fields[k] == Spread(doc)[k]
    ensures r.Done? ==>
      var items := Spread(doc)[section].items;
      var f := FindById(items, id);
      r.doc.fields[section] == JArr(
        if f.At? then items[f.index := JObj(Merge(Spread(items[f.index]), Spread(updated)))] else items)
  {
    var d := Spread(doc);
    match Get(d, section)
    case Some(JArr(items)) =>
      (match FindById(items, id)
       case Crash => Threw
       case Missing => Done(JObj(d))
       case At(i) => Done(JObj(d[section := JArr(items[i := JObj(Merge(Spread(items[i]), Spread(updated)))])])))
    case _ => Threw
  }

  /** `saveData(section, updated)` without an id: the section becomes
      `{...old, ...updated}`. */
  function SaveSection(doc: Json, section: string, updated: Json): (r: Json)
    ensures r.JObj? && r.fields.Keys == Spread(doc).Keys + {section}
    ensures forall k :: k in Spread(doc) && k != section ==> r.fields[k] == Spread(doc)[k]
    ensures r.fields[section] == JObj(Merge(SpreadOf(Get(Spread(doc), section)), Spread(updated)))
  {
    JObj(Spread(doc)[section := JObj(Merge(SpreadOf(Get(Spread(doc), section)), Spread(updated)))])
  }

  /** A call `onSave(section, updated, id)` an editor makes; `JNull` stands
      for an absent id. */
  datatype SaveCall = SaveCall(section: string, updated: Json, id: Json)

  /** `saveData(section, updated, id)`. */
  function SaveResult(doc: Json, section: string, updated: Json, id: Json): Outcome {
    if Truthy(id) then SaveItem(doc, section, updated, id) else Done(SaveSection(doc, section, updated))
  }

  /** An item save changes only the matching element: every other element,
      its position and the length of the list are kept. */
  lemma SaveItemChangesOnlyMatch(doc: Json, section: string, updated: Json, id: Json, j: nat)
    requires SaveItem(doc, section, updated, id).Done?
    requires j < |Spread(doc)[section].items|
    requires FindById(Spread(doc)[section].items, id) != At(j)
    ensures var after := SaveItem(doc, section, updated, id).doc.fields[section].items;
      |after| == |Spread(doc)[section].items| && after[j] == Spread(doc)[section].items[j]
  {
  }

  /** With no element holding the id, an item save leaves the list as it was. */
  lemma SaveItemMissing(doc: Json, section: string, updated: Json, id: Json)
    requires Get(Spread(doc), section).Some? && Get(Spread(doc), section).value.JArr?
    requires forall j :: 0 <= j < |Spread(doc)[section].items| ==>
               Spread(doc)[section].items[j] != JNull && ItemId(Spread(doc)[section].items[j]) != Some(id)
    ensures SaveItem(doc, section, updated, id) == Done(JObj(Spread(doc)))
  {
    var f := FindById(Spread(doc)[section].items, id);
    assert !f.At?;
    assert !f.Crash?;
  }

  // ---------------------------------------------------------------- appending

  /** `item.id || 0`. */
  function IdOrZero(item: Json): Json {
    var v := ItemId(item);
    if v.Some? && Truthy(v.value) then v.value else JNum(0)
  }

  /** The ids the model can compare numerically: integers, `-Infinity`, and
      anything falsy, which reads as 0. */
  predicate NumericIds(items: seq<Json>) {
    forall i :: 0 <= i < |items| ==> IdOrZero(items[i]).JNum? || IdOrZero(items[i]).JNegInfinity?
  }

  /** An integer or minus infinity. */
  datatype Ext = NegInf | Fin(n: int)

  predicate AtMost(a: Ext, b: Ext) {
    a.NegInf? || (b.Fin? && a.n <= b.n)
  }

  function IdValue(item: Json): Ext
    requires IdOrZero(item).JNum? || IdOrZero(item).JNegInfinity?
  {
    if IdOrZero(item).JNegInfinity? then NegInf else Fin(IdOrZero(item).n)
  }

  /** `Math.max(...items.map(item => item.id || 0))`: minus infinity for an
      empty list. */
  function MaxId(items: seq<Json>): (r: Ext)
    requires NumericIds(items)
    ensures forall i :: 0 <= i < |items| ==> AtMost(IdValue(items[i]), r)
    ensures r.NegInf? || exists i :: 0 <= i < |items| && IdValue(items[i]) == r
    ensures items == [] ==> r == NegInf
  {
    if items == [] then NegInf
    else
      var rest := MaxId(items[..|items| - 1]);
      var last := IdValue(items[|items| - 1]);
      assert forall i :: 0 <= i < |items| - 1 ==> items[..|items| - 1][i] == items[i];
      if AtMost(last, rest) then rest else last
  }

  /** `max + 1`, which stays minus infinity on an empty list. */
  function NextId(items: seq<Json>): Json
    requires NumericIds(items)
  {
    match MaxId(items)
    case NegInf => JNegInfinity
    case Fin(n) => JNum(n + 1)
  }

  /** The new id is greater than every integer id present; on an empty list it
      is minus infinity, as written; and on a non-empty list whose ids are not
      minus infinity it is an integer. */
  lemma NextIdFresh(items: seq<Json>)
    requires NumericIds(items)
    ensures NextId(items).JNum? ==>
      forall i :: 0 <= i < |items| && ItemId(items[i]).Some? && ItemId(items[i]).value.JNum? ==>
        ItemId(items[i]).value.n < NextId(items).n
    ensures items == [] ==> NextId(items) == JNegInfinity
    ensures items != [] && (forall i :: 0 <= i < |items| ==> !IdOrZero(items[i]).JNegInfinity?) ==> NextId(items).JNum?
  {
    if NextId(items).JNum? {
      forall i | 0 <= i < |items| && ItemId(items[i]).Some? && ItemId(items[i]).value.JNum?
        ensures ItemId(items[i]).value.n < NextId(items).n
      {
        assert AtMost(IdValue(items[i]), MaxId(items));
      }
    }
    if items != [] && (forall i :: 0 <= i < |items| ==> !IdOrZero(items[i]).JNegInfinity?) {
      assert AtMost(IdValue(items[0]), MaxId(items));
    }
  }

  /** No two elements share an integer id. */
  predicate DistinctIds(items: seq<Json>) {
    forall i, j :: 0 <= i < j < |items| && ItemId(items[i]).Some? && ItemId(items[i]).value.JNum? ==>
      ItemId(items[j]) != ItemId(items[i])
  }

  /** The element `addNewItem` appends: `{...newItem, id: newId}`. */
  function NewItem(newItem: Json, id: Json): (r: Json)
    ensures ItemId(r) == Some(id)
  {
    JObj(Spread(newItem)["id" := id])
  }

  /** Appending with the next id keeps integer ids distinct. */
  lemma AppendKeepsIdsDistinct(items: seq<Json>, newItem: Json)
    requires NumericIds(items) && DistinctIds(items)
    requires NextId(items).JNum?
    ensures DistinctIds(items + [NewItem(newItem, NextId(items))])
  {
    NextIdFresh(items);
  }

  /** `addNewItem(section, newItem)`: the section must be an array without
      `null` elements. */
  function AddItem(doc: Json, section: string, newItem: Json): (r: Outcome)
    requires Get(Spread(doc), section).Some? && Get(Spread(doc), section).value.JArr? ==>
               NumericIds(Spread(doc)[section].items)
    ensures r != Cancelled
    ensures r.Done? <==> Get(Spread(doc), section).Some? && Get(Spread(doc), section).value.JArr? &&
                         JNull !in Spread(doc)[section].items
    ensures r.Done? ==>
      var items := Spread(doc)[section].items;
      && r.doc.JObj? && r.doc.fields.Keys == Spread(doc).Keys
      && r.doc.fields[section] == JArr(items + [NewItem(newItem, NextId(items))])
      && forall k :: k in Spread(doc) && k != section ==> r.doc.fields[k] == Spread(doc)[k]
  {
    AppendTo(Spread(doc), section, newItem)
  }

  /** The first element added to an empty section gets `-Infinity` as its
      id, which the save writes as `null`; after a reload that id reads as 0,
      so the element added next gets id 1. */
  lemma FirstIdAfterReload(newItem: Json)
    ensures var first := NewItem(newItem, NextId([]));
      && ItemId(first) == Some(JNegInfinity)
      && ItemId(Stringified(first)) == Some(JNull)
      && NumericIds([Stringified(first)])
      && NextId([Stringified(first)]) == JNum(1)
  {
    var first := NewItem(newItem, NextId([]));
    var reloaded := Stringified(first);
    assert reloaded.fields["id"] == Stringified(JNegInfinity);
    assert IdOrZero(reloaded) == JNum(0);
    assert MaxId([reloaded]) == Fin(0) by {
      assert [reloaded][..0] == [];
    }
  }

  /** `addNewItem` on the document's spread copy `d`. */
  function AppendTo(d: Record, section: string, newItem: Json): (r: Outcome)
    requires Get(d, section).Some? && Get(d, section).value.JArr? ==> NumericIds(d[section].items)
    ensures r != Cancelled
    ensures r.Done? <==> Get(d, section).Some? && Get(d, section).value.JArr? && JNull !in d[section].items
    ensures r.Done? ==>
      var items := d[section].items;
      && r.doc.JObj? && r.doc.fields.Keys == d.Keys
      && r.doc.fields[section] == JArr(items + [NewItem(newItem, NextId(items))])
      && forall k :: k in d && k != section ==> r.doc.fields[k] == d[k]
  {
    match Get(d, section)
    case Some(JArr(items)) =>
      if JNull in items then Threw
      else Done(JObj(d[section := JArr(items + [NewItem(newItem, NextId(items))])]))
    case _ => Threw
  }

  // ---------------------------------------------------------------- deleting

  /** `items.filter(item => item.id !== id)`, `None` when a `null` element throws.
      `id` is `None` for `undefined`, which the delete button of an item
      without an `id` passes. */
  function RemoveById(items: seq<Json>, id: Option<Json>): (r: Option<seq<Json>>)
    ensures r.Some? <==> JNull !in items
    ensures r.Some? ==> IsSubsequence(r.value, items)
    ensures r.Some? ==> forall x :: x in r.value <==> x in items && ItemId(x) != id
  {
    if items == [] then Some([])
    else if items[0] == JNull then None
    else
      var rest := RemoveById(items[1..], id);
      assert items == [items[0]] + items[1..];
      if rest.None? then None
      else if ItemId(items[0]) == id then
        SubsequenceSkip(rest.value, items[1..], items[0]);
        rest
      else
        SubsequenceKeep(rest.value, items[1..], items[0]);
        Some([items[0]] + rest.value)
  }

  /** Deleting is `items.filter(item => item.id !== id)` on a list without
      `null`: every copy of an element without the id stays, in order, and
      no element with it. */
  lemma {:induction false} RemoveByIdIsFilter(items: seq<Json>, id: Option<Json>)
    requires JNull !in items
    ensures RemoveById(items, id) == Some(Filter((x: Json) => ItemId(x) != id, items))
    ensures forall x :: multiset(RemoveById(items, id).value)[x] == if ItemId(x) == id then 0 else multiset(items)[x]
  {
    var keep := (x: Json) => ItemId(x) != id;
    assert RemoveById(items, id) == Some(Filter(keep, items)) by {
      if items != [] {
        assert JNull !in items[1..] by {
          assert forall i :: 0 <= i < |items| - 1 ==> items[1..][i] == items[i + 1];
        }
        RemoveByIdIsFilter(items[1..], id);
        assert items[0] != JNull;
      }
    }
    FilterCounts(keep, items);
  }

  /** Deleting with an `undefined` id removes exactly the elements that have no
      `id`, and keeps every one that has. */
  lemma UndefinedIdRemovesIdless(items: seq<Json>)
    requires JNull !in items
    ensures RemoveById(items, None).Some?
    ensures forall x :: x in RemoveById(items, None).value <==> x in items && ItemId(x).Some?
  {
  }

  /** Deleting an id nothing has leaves the list as it was. */
  lemma {:induction false} RemoveMissing(items: seq<Json>, id: Option<Json>)
    requires JNull !in items
    requires forall i :: 0 <= i < |items| ==> ItemId(items[i]) != id
    ensures RemoveById(items, id) == Some(items)
  {
    if items != [] {
      assert forall i :: 1 <= i < |items| ==> items[1..][i - 1] == items[i];
      RemoveMissing(items[1..], id);
      assert items == [items[0]] + items[1..];
    }
  }

  /** `deleteItem(section, id)` once confirmed; the section must be an array. */
  function DeleteResult(doc: Json, section: string, id: Option<Json>): (r: Outcome)
    ensures r != Cancelled
    ensures r.Done? <==> Get(Spread(doc), section).Some? && Get(Spread(doc), section).value.JArr? &&
                         JNull !in Spread(doc)[section].items
    ensures r.Done? ==>
      && r.doc.JObj? && r.doc.fields.Keys == Spread(doc).Keys
      && r.doc.fields[section] == JArr(RemoveById(Spread(doc)[section].items, id).value)
      && forall k :: k in Spread(doc) && k != section ==> r.doc.fields[k] == Spread(doc)[k]
  {
    var d := Spread(doc);
    match Get(d, section)
    case Some(JArr(items)) =>
      (match RemoveById(items, id)
       case None => Threw
       case Some(kept) => Done(JObj(d[section := JArr(kept)])))
    case _ => Threw
  }

  // ---------------------------------------------------------------- the page

  /** The name the exported document downloads under. */
  const DataFileName: string := "portfolio-data.json"

  class Dashboard {
    /** Which editors are open. */
    var editMode: map<string, bool>
    /** The content store the page edits. */
    const content: Portfolio

    constructor (content: Portfolio)
      ensures this.content == content
      ensures editMode == map[]
    {
      this.content := content;
      editMode := map[];
    }

    /** `toggleEditMode(section, id)`. */
    method ToggleEditMode(section: string, id: Json)
      modifies this
      ensures editMode == Toggle(old(editMode), EditKey(section, id))
    {
      var key := EditKey(section, id);
      editMode := editMode[key := !IsOpen(editMode, key)];
    }

    /** `saveData(section, updated, id)`, with `JNull` for an absent id: the
        new document is saved and the editor's flag toggled; an exception
        leaves everything as it was. */
    method SaveData(section: string, updated: Json, id: Json) returns (outcome: Outcome)
      modifies this, content
      ensures outcome == SaveResult(old(content.data), section, updated, id)
      ensures outcome.Done? ==> content.data == outcome.doc && content.saved == Some(outcome.doc)
      ensures outcome.Done? ==> editMode == Toggle(old(editMode), EditKey(section, id))
      ensures outcome.Threw? ==> content.data == old(content.data) && content.saved == old(content.saved)
      ensures outcome.Threw? ==> editMode == old(editMode)
    {
      outcome := SaveResult(content.data, section, updated, id);
      if outcome.Done? {
        content.UpdateData(outcome.doc);
        ToggleEditMode(section, id);
      }
    }

    /** `addNewItem(section, newItem)`: the item is appended with the next id,
        saved, and its editor opened. */
    method AddNewItem(section: string, newItem: Json) returns (outcome: Outcome)
      requires Get(Spread(content.data), section).Some? && Get(Spread(content.data), section).value.JArr? ==>
                 NumericIds(Spread(content.data)[section].items)
      modifies this, content
      ensures outcome == AddItem(old(content.data), section, newItem)
      ensures outcome.Done? ==> content.data == outcome.doc && content.saved == Some(outcome.doc)
      ensures outcome.Done? ==>
        editMode == Toggle(old(editMode), EditKey(section, NextId(Spread(old(content.data))[section].items)))
      ensures outcome.Threw? ==> content.data == old(content.data) && content.saved == old(content.saved)
      ensures outcome.Threw? ==> editMode == old(editMode)
    {
      outcome := AddItem(content.data, section, newItem);
      if outcome.Done? {
        var newId := NextId(Spread(content.data)[section].items);
        content.UpdateData(outcome.doc);
        ToggleEditMode(section, newId);
      }
    }

    /** `deleteItem(section, id)`, where `confirmed` is the user's answer to
        the confirmation prompt. */
    method DeleteItem(section: string, id: Option<Json>, confirmed: bool) returns (outcome: Outcome)
      modifies content
      ensures !confirmed ==> outcome == Cancelled
      ensures confirmed ==> outcome == DeleteResult(old(content.data), section, id)
      ensures outcome.Done? ==> content.data == outcome.doc && content.saved == Some(outcome.doc)
      ensures !outcome.Done? ==> content.data == old(content.data) && content.saved == old(content.saved)
    {
      if !confirmed {
        outcome := Cancelled;
      } else {
        outcome := DeleteResult(content.data, section, id);
        if outcome.Done? {
          content.UpdateData(outcome.doc);
        }
      }
    }

    /** `exportData()`: the document to serialise, the name it downloads
        under and the link that downloads it, where `text` stands for the
        serialised document. Nothing changes. */
    method ExportData(text: string) returns (payload: Json, fileName: string, href: string)
      ensures payload == content.data
      ensures fileName == DataFileName
      ensures href == DataUri(text)
      ensures DecodeUriComponent(href[|JsonDataPrefix|..]) == Some(text)
    {
      payload := content.data;
      fileName := DataFileName;
      href := DataUri(text);
      DataUriRoundTrip(text);
    }

    /** The load handler of `importData`, where `parsed` is the outcome of
        parsing the file's text: a parsed document replaces the content
        outright; a parse failure changes nothing. */
    method ImportData(parsed: Option<Json>)
      modifies content
      ensures parsed.Some? ==> content.data == parsed.value && content.saved == Some(parsed.value)
      ensures parsed.None? ==> content.data == old(content.data) && content.saved == old(content.saved)
    {
      if parsed.Some? {
        content.UpdateData(parsed.value);
      }
    }
  }
}
