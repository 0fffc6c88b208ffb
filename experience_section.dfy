/** The experience editor (src/components/dashboard/ExperienceSection.js):
    an entry's technologies are edited as one comma-separated text and saved
    as a list; every other form field is saved as entered. */
module ExperienceSection {
  import opened Js
  import opened Strings
  import opened CommaLists
  import opened DashboardPage

  /** `handleFormSubmit(formData)` for the entry with id `id`: the form with
      its technologies split and trimmed, saved into `experience`. `None`
      where the split throws. */
  function ExperienceSubmit(form: Record, id: Json): (r: Option<SaveCall>)
    ensures r.None? <==> CommaField(Get(form, "technologies")).None?
    ensures r.Some? ==> r.value.section == "experience" && r.value.id == id
    ensures r.Some? ==> r.value.updated.JObj? && r.value.updated.fields.Keys == form.Keys + {"technologies"}
    ensures r.Some? ==> r.value.updated.fields["technologies"] == JArr(Strs(CommaField(Get(form, "technologies")).value))
    ensures r.Some? ==> forall k :: k in form && k != "technologies" ==> r.value.updated.fields[k] == form[k]
  {
    match CommaField(Get(form, "technologies"))
    case None => None
    case Some(pieces) => Some(SaveCall("experience", JObj(form["technologies" := JArr(Strs(pieces))]), id))
  }

  /** The text of each element of an array as `join` writes it: `null` as the
      empty string. */
  function ElementTexts(items: seq<Json>): (r: seq<string>)
    ensures |r| == |items|
    ensures forall i :: 0 <= i < |items| ==> r[i] == if items[i].JNull? then "" else ToStr(items[i])
  {
    seq(|items|, i requires 0 <= i < |items| => if items[i].JNull? then "" else ToStr(items[i]))
  }

  /** The technologies field of the edit form,
      `technologies?.join(", ") || ""`: empty for a missing or `null` value,
      the joined texts for an array, and `None` for any other value, which
      has no `join` and throws. */
  function TechnologiesPrefill(v: Option<Json>): (r: Option<string>)
    ensures v.None? || v.value.JNull? ==> r == Some("")
    ensures v.Some? && v.value.JArr? ==> r == Some(Prefill(Some(ElementTexts(v.value.items))))
    ensures r.None? <==> v.Some? && !v.value.JNull? && !v.value.JArr?
  {
    if v.None? || v.value.JNull? then Some("")
    else if v.value.JArr? then Some(Prefill(Some(ElementTexts(v.value.items))))
    else None
  }

  /** Saving an entry's form untouched keeps its technologies, when they are
      clean strings: the prefilled text splits back into the same list. */
  lemma UntouchedTechnologies(xs: seq<string>, form: Record, id: Json)
    requires CleanEntries(xs)
    requires "technologies" in form && form["technologies"] == JStr(TechnologiesPrefill(Some(JArr(Strs(xs)))).value)
    ensures ExperienceSubmit(form, id).Some?
    ensures ExperienceSubmit(form, id).value.updated.fields["technologies"] == JArr(Strs(xs))
  {
    assert ElementTexts(Strs(xs)) == xs;
    PrefillRoundTrip(xs);
  }

  /** The entry `Add Experience` hands to `addNewItem`. */
  const NewExperience: Json := JObj(map[
    "company" := JStr("New Company"),
    "position" := JStr("New Position"),
    "period" := JStr("2024 - Present"),
    "description" := JStr("Description here..."),
    "technologies" := JArr([JStr("React"), JStr("JavaScript")])])

  /** Adding an experience appends the fixed defaults under a fresh id. */
  lemma AddExperienceDefaults(doc: Json)
    requires Get(Spread(doc), "experience").Some? && Get(Spread(doc), "experience").value.JArr?
    requires NumericIds(Spread(doc)["experience"].items)
    requires JNull !in Spread(doc)["experience"].items
    ensures var r := AddItem(doc, "experience", NewExperience);
      var items := Spread(doc)["experience"].items;
      && r.Done?
      && r.doc.fields["experience"].items[|items|]
         == JObj(NewExperience.fields["id" := NextId(items)])
      && r.doc.fields["experience"].items[|items|].fields["position"] == JStr("New Position")
      && r.doc.fields["experience"].items[|items|].fields["technologies"] == JArr([JStr("React"), JStr("JavaScript")])
  {
  }
}
