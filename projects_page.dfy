/** The public projects page (src/pages/Projects.js): the projects that
    match the chosen category and search text, and the statistics panel. */
module ProjectsPage {
  import opened Js
  import opened Strings
  import opened Seqs
  import opened Cards

  /** The fields of a project the page reads; `None` for a missing field. */
  datatype Project = Project(
    title: string,
    description: string,
    category: Option<Json>,
    tags: seq<string>,
    status: Option<Json>,
    featured: Option<Json>)

  /** The ids of the category buttons, `all` first. */
  const CategoryIds: seq<string> := ["all", "web", "mobile", "desktop", "ai", "game"]

  /** The page's filter state: the category button chosen and the search text. */
  datatype Filters = Filters(category: string, search: string)

  /** The state the page opens with, and the one `Reset Filters` restores. */
  const DefaultFilters: Filters := Filters("all", "")

  function ResetFilters(f: Filters): (r: Filters)
    ensures r.category == "all" && r.search == ""
  {
    DefaultFilters
  }

  function SelectCategory(f: Filters, category: string): (r: Filters)
    ensures r.category == category && r.search == f.search
  {
    f.(category := category)
  }

  function SetSearch(f: Filters, search: string): (r: Filters)
    ensures r.search == search && r.category == f.category
  {
    f.(search := search)
  }

  predicate CategoryMatches(p: Project, category: string) {
    category == "all" || p.category == Some(JStr(category))
  }

  /** The search text occurs, ignoring case, in the title, the description
      or some tag. */
  predicate SearchMatches(p: Project, search: string) {
    ContainsIgnoringCase(p.title, search) || ContainsIgnoringCase(p.description, search) ||
    exists i :: 0 <= i < |p.tags| && ContainsIgnoringCase(p.tags[i], search)
  }

  predicate Matches(p: Project, f: Filters) {
    CategoryMatches(p, f.category) && SearchMatches(p, f.search)
  }

  /** `filteredProjects`. */
  function FilteredProjects(projects: seq<Project>, f: Filters): seq<Project> {
    Filter((p: Project) => Matches(p, f), projects)
  }

  /** The shown projects keep the page's order, and a project is shown
      exactly when it matches both the category and the search. */
  lemma FilteredProjectsSpec(projects: seq<Project>, f: Filters)
    ensures IsSubsequence(FilteredProjects(projects, f), projects)
    ensures |FilteredProjects(projects, f)| <= |projects|
    ensures forall i :: 0 <= i < |projects| ==> (projects[i] in FilteredProjects(projects, f) <==> Matches(projects[i], f))
  {
    SubsequenceFacts(FilteredProjects(projects, f), projects);
  }

  /** The empty search occurs in every text. */
  lemma EmptySearchMatches(p: Project)
    ensures SearchMatches(p, "")
  {
    ContainsEmpty(ToLower(p.title));
  }

  /** With the default filters, and so after a reset, every project is shown. */
  lemma ResetShowsAll(projects: seq<Project>, f: Filters)
    ensures FilteredProjects(projects, ResetFilters(f)) == projects
  {
    forall i | 0 <= i < |projects|
      ensures Matches(projects[i], DefaultFilters)
    {
      EmptySearchMatches(projects[i]);
    }
    FilterAll((p: Project) => Matches(p, DefaultFilters), projects);
  }

  // ---------------------------------------------------------------- statistics

  predicate IsCompleted(p: Project) {
    p.status == Some(JStr("completed"))
  }

  predicate IsFeatured(p: Project) {
    p.featured.Some? && Truthy(p.featured.value)
  }

  /** The Completed and Featured statistics. */
  function CompletedCount(projects: seq<Project>): nat {
    CountWhere(IsCompleted, projects)
  }

  function FeaturedCount(projects: seq<Project>): nat {
    CountWhere(IsFeatured, projects)
  }

  /** `projects.flatMap(p => p.tags)`. */
  function AllTags(projects: seq<Project>): seq<string> {
    FlatMap((p: Project) => p.tags, projects)
  }

  /** The Technologies statistic: `new Set(all tags).size`. */
  function TechnologyCount(projects: seq<Project>): nat {
    |Dedup(AllTags(projects))|
  }

  /** The statistics: the two counts are the sizes of the matching sublists,
      and the Technologies count is the number of distinct tags used by any
      project. */
  lemma StatisticsSpec(projects: seq<Project>)
    ensures CompletedCount(projects) == |Filter(IsCompleted, projects)| <= |projects|
    ensures FeaturedCount(projects) == |Filter(IsFeatured, projects)| <= |projects|
    ensures TechnologyCount(projects) == |set t | t in AllTags(projects)|
    ensures forall t :: t in Dedup(AllTags(projects)) <==> exists i :: 0 <= i < |projects| && t in projects[i].tags
  {
    DedupCardinality(AllTags(projects));
  }

  /** Adding a project moves each count by that project alone. */
  lemma StatisticsOfAdded(projects: seq<Project>, p: Project)
    ensures CompletedCount(projects + [p]) == CompletedCount(projects) + (if IsCompleted(p) then 1 else 0)
    ensures FeaturedCount(projects + [p]) == FeaturedCount(projects) + (if IsFeatured(p) then 1 else 0)
  {
    CountWhereAppend(IsCompleted, projects, [p]);
    CountWhereAppend(IsFeatured, projects, [p]);
  }

  /** A project card's tag row: up to four tags, and `+n more` beyond that. */
  lemma CardTagRow(p: Project)
    ensures |Shown(p.tags, 4)| == if |p.tags| > 4 then 4 else |p.tags|
    ensures MoreBadge(p.tags, 4).Some? <==> |p.tags| > 4
    ensures MoreBadge(p.tags, 4).Some? ==> MoreBadge(p.tags, 4).value == "+" + NatToString(|p.tags| - 4) + " more"
  {
  }
}
