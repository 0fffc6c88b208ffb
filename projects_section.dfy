/** The project editor (src/components/dashboard/ProjectsSection.js): the
    tags text becomes a list, the checkbox becomes a boolean, and everything
    else is saved as entered. */
module ProjectsSection {
  import opened Js
  import opened Strings
  import opened CommaLists
  import opened Cards
  import opened DashboardPage

  /** `featured === "true" || featured === true`. */
  predicate Featured(v: Option<Json>) {
    v == Some(JStr("true")) || v == Some(JBool(true))
  }

  /** `onSubmitProject(formData, projectId)`: tags split and trimmed,
      `featured` made a boolean, saved into `projects`. `None` where the split
      throws. */
  function ProjectSubmit(form: Record, id: Json): (r: Option<SaveCall>)
    ensures r.None? <==> CommaField(Get(form, "tags")).None?
    ensures r.Some? ==> r.value.section == "projects" && r.value.id == id
    ensures r.Some? ==> r.value.updated.JObj? && r.value.updated.fields.Keys == form.Keys + {"tags", "featured"}
    ensures r.Some? ==> r.value.updated.fields["tags"] == JArr(Strs(CommaField(Get(form, "tags")).value))
    ensures r.Some? ==> (r.value.updated.fields["featured"] == JBool(true) <==>
                         Get(form, "featured") == Some(JStr("true")) || Get(form, "featured") == Some(JBool(true)))
    ensures r.Some? ==> r.value.updated.fields["featured"].JBool?
    ensures r.Some? ==> forall k :: k in form && k != "tags" && k != "featured" ==> r.value.updated.fields[k] == form[k]
  {
    match CommaField(Get(form, "tags"))
    case None => None
    case Some(tags) =>
      Some(SaveCall("projects", JObj(form["tags" := JArr(Strs(tags))]["featured" := JBool(Featured(Get(form, "featured")))]), id))
  }

  /** A non-empty tags text saves one more tag than it has commas. */
  lemma TagCount(form: Record, id: Json, text: string)
    requires Get(form, "tags") == Some(JStr(text)) && text != ""
    ensures |ProjectSubmit(form, id).value.updated.fields["tags"].items| == Count(text, ',') + 1
  {
    CommaPiecesShape(text);
  }

  /** The entry `Add Project` hands to `addNewItem`. */
  const NewProject: Json := JObj(map[
    "title" := JStr("New Project"),
    "description" := JStr("Project description..."),
    "image" := JStr("https://via.placeholder.com/600x400"),
    "tags" := JArr([JStr("React"), JStr("JavaScript")]),
    "demoUrl" := JStr("#"),
    "githubUrl" := JStr("#"),
    "featured" := JBool(false),
    "status" := JStr("completed")])

  /** Adding a project appends one that is not featured, is completed, and
      shows no links. */
  lemma AddProjectDefaults(doc: Json)
    requires Get(Spread(doc), "projects").Some? && Get(Spread(doc), "projects").value.JArr?
    requires NumericIds(Spread(doc)["projects"].items)
    requires JNull !in Spread(doc)["projects"].items
    ensures var r := AddItem(doc, "projects", NewProject);
      var items := Spread(doc)["projects"].items;
      && r.Done?
      && var added := r.doc.fields["projects"].items[|items|].fields;
      && added == NewProject.fields["id" := NextId(items)]
      && added["featured"] == JBool(false) && added["status"] == JStr("completed")
      && !LinkShown(Get(added, "demoUrl")) && !LinkShown(Get(added, "githubUrl"))
  {
  }

  /** A Demo or GitHub link is shown only for a set URL other than `#`. */
  predicate LinkShown(url: Option<Json>) {
    url.Some? && Truthy(url.value) && url.value != JStr("#")
  }

  /** A link is shown exactly for a non-empty string other than `#`, among
      string values. */
  lemma LinkShownForStrings(s: string)
    ensures LinkShown(Some(JStr(s))) <==> s != "" && s != "#"
  {
  }

  /** `project.tags?.slice(0, 3)`: the tags a project card shows. */
  function CardTags(tags: Option<seq<string>>): seq<string> {
    if tags.None? then [] else Shown(tags.value, 3)
  }

  /** A card shows at most three tags, the first ones. */
  lemma CardTagsBound(tags: seq<string>)
    ensures |CardTags(Some(tags))| <= 3
    ensures CardTags(Some(tags)) == tags[..|CardTags(Some(tags))|]
    ensures |tags| >= 3 ==> |CardTags(Some(tags))| == 3
  {
  }
}
