/** The resume view (src/components/dashboard/ResumeSection.js): download
    links, the summary, three stat cards with fallbacks, the availability
    banner and the key skills. */
module ResumeSection {
  import opened Js
  import opened Strings
  import opened CommaLists

  predicate IsSet(data: Option<Record>, key: string) {
    Field(data, key).Some? && Truthy(Field(data, key).value)
  }

  /** `{data?.[key] || fallback}` as a React child: the field's rendered
      text when it is set, the fallback otherwise, and `None` where React
      throws, for a set field holding an object. */
  function TextOr(data: Option<Record>, key: string, fallback: string): (r: Option<string>)
    ensures !IsSet(data, key) ==> r == Some(fallback)
    ensures r.None? <==> IsSet(data, key) && HoldsObject(data.value[key])
    ensures IsSet(data, key) && data.value[key].JStr? ==> r == Some(data.value[key].s)
    ensures IsSet(data, key) && data.value[key].JBool? ==> r == Some("")
  {
    if IsSet(data, key) then ChildText(Field(data, key).value) else Some(fallback)
  }

  datatype ResumeView = ResumeView(
    resumeLink: bool,
    cvLink: bool,
    noFiles: bool,
    summary: string,
    experience: string,
    currentRole: string,
    location: string,
    availableBanner: bool,
    keySkills: Option<seq<string>>)

  /** Rendering throws: for a truthy `keySkills` that is not a string, and
      for a summary, current role or location holding an object. */
  predicate ViewThrows(data: Option<Record>) {
    (IsSet(data, "keySkills") && !data.value["keySkills"].JStr?)
    || TextOr(data, "summary", "No summary provided").None?
    || TextOr(data, "currentPosition", "Not specified").None?
    || TextOr(data, "location", "Not specified").None?
  }

  /** The view of the section's data; `None` where rendering throws. The
      experience card goes through a template literal, so it shows
      `String(v)`; the other cards show their field as a React child. */
  function View(data: Option<Record>): (r: Option<ResumeView>)
    ensures r.None? <==> ViewThrows(data)
    ensures r.Some? ==> var v := r.value;
      && (v.noFiles <==> !IsSet(data, "resumeUrl") && !IsSet(data, "cvUrl"))
      && (v.noFiles <==> !v.resumeLink && !v.cvLink)
      && v.experience == (if IsSet(data, "experience") then ToStr(data.value["experience"]) + "+ years" else "N/A")
      && Some(v.currentRole) == TextOr(data, "currentPosition", "Not specified")
      && Some(v.location) == TextOr(data, "location", "Not specified")
      && Some(v.summary) == TextOr(data, "summary", "No summary provided")
      && (v.availableBanner <==> IsSet(data, "available"))
      && (v.keySkills.Some? <==> IsSet(data, "keySkills"))
      && (v.keySkills.Some? ==> v.keySkills.value == TrimAll(Split(data.value["keySkills"].s, ",")))
  {
    var summary := TextOr(data, "summary", "No summary provided");
    var role := TextOr(data, "currentPosition", "Not specified");
    var location := TextOr(data, "location", "Not specified");
    if ViewThrows(data) then None
    else Some(ResumeView(
      IsSet(data, "resumeUrl"),
      IsSet(data, "cvUrl"),
      !IsSet(data, "resumeUrl") && !IsSet(data, "cvUrl"),
      summary.value,
      if IsSet(data, "experience") then ToStr(Field(data, "experience").value) + "+ years" else "N/A",
      role.value,
      location.value,
      IsSet(data, "available"),
      if IsSet(data, "keySkills") then Some(TrimAll(Split(Field(data, "keySkills").value.s, ","))) else None))
  }

  /** Text fields show as written, and a list of words in the summary shows
      them run together, where the experience card would put commas. */
  lemma SummaryAsChild(data: Record, words: seq<string>)
    requires words != [] && "summary" in data
    requires data["summary"] == JArr(seq(|words|, i requires 0 <= i < |words| => JStr(words[i])))
    ensures TextOr(Some(data), "summary", "No summary provided") == Some(Join(words, ""))
  {
    ChildTextOfStrings(words);
  }

  /** Key skills are the comma-separated pieces, trimmed: one more than the
      commas, each trimmed; a string never makes the key skills throw, and
      a rendered view shows exactly those pieces. */
  lemma KeySkillPieces(data: Record, text: string)
    requires "keySkills" in data && data["keySkills"] == JStr(text) && text != ""
    ensures var skills := TrimAll(Split(text, ","));
      && |skills| == Count(text, ',') + 1 && (forall i :: 0 <= i < |skills| ==> IsTrimmed(skills[i]))
      && (View(Some(data)).None? <==>
            TextOr(Some(data), "summary", "No summary provided").None?
            || TextOr(Some(data), "currentPosition", "Not specified").None?
            || TextOr(Some(data), "location", "Not specified").None?)
      && (View(Some(data)).Some? ==> View(Some(data)).value.keySkills == Some(skills))
  {
    CommaPiecesShape(text);
  }

  /** Empty data shows every fallback. */
  lemma EmptyResume()
    ensures View(None) == Some(ResumeView(false, false, true, "No summary provided", "N/A",
                                          "Not specified", "Not specified", false, None))
  {
  }
}
