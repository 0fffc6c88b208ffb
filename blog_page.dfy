/** The public blog list (src/pages/Blog.js): the topic list, and the posts
    that match the search text and the chosen topic. */
module BlogPage {
  import opened Js
  import opened Strings
  import opened Seqs

  /** The fields of a post the list reads. */
  datatype Post = Post(id: Json, title: string, excerpt: string, tags: seq<string>)

  /** The search box and the topic selector; `all` stands for every topic. */
  datatype Filters = Filters(search: string, tag: string)

  const DefaultFilters: Filters := Filters("", "all")

  /** `blog.flatMap(post => post.tags)`. */
  function PostTags(blog: seq<Post>): seq<string> {
    FlatMap((p: Post) => p.tags, blog)
  }

  /** `[...new Set(blog.flatMap(post => post.tags))]`. */
  function AllTags(blog: seq<Post>): seq<string> {
    Dedup(PostTags(blog))
  }

  /** The topic selector lists every tag some post carries, once each, in
      the order the tags are first met. */
  lemma AllTagsSpec(blog: seq<Post>)
    ensures Distinct(AllTags(blog))
    ensures forall t :: t in AllTags(blog) <==> exists i :: 0 <= i < |blog| && t in blog[i].tags
    ensures |AllTags(blog)| == |set t | t in PostTags(blog)|
  {
    DedupCardinality(PostTags(blog));
  }

  predicate SearchMatches(p: Post, search: string) {
    ContainsIgnoringCase(p.title, search) || ContainsIgnoringCase(p.excerpt, search)
  }

  predicate TagMatches(p: Post, tag: string) {
    tag == "all" || Includes(p.tags, tag)
  }

  predicate PostMatches(p: Post, f: Filters) {
    SearchMatches(p, f.search) && TagMatches(p, f.tag)
  }

  /** `filteredPosts`. */
  function FilteredPosts(blog: seq<Post>, f: Filters): seq<Post> {
    Filter((p: Post) => PostMatches(p, f), blog)
  }

  /** The list keeps the blog's order and shows a post exactly when it
      matches; so `Showing n of m` always has n at most m. */
  lemma FilteredPostsSpec(blog: seq<Post>, f: Filters)
    ensures IsSubsequence(FilteredPosts(blog, f), blog)
    ensures |FilteredPosts(blog, f)| <= |blog|
    ensures forall i :: 0 <= i < |blog| ==> (blog[i] in FilteredPosts(blog, f) <==> PostMatches(blog[i], f))
  {
    SubsequenceFacts(FilteredPosts(blog, f), blog);
  }

  /** Clicking a tag on a post selects that tag and keeps the search. */
  function SelectTag(f: Filters, tag: string): (r: Filters)
    ensures r.tag == tag && r.search == f.search
  {
    f.(tag := tag)
  }

  function SetSearch(f: Filters, search: string): (r: Filters)
    ensures r.search == search && r.tag == f.tag
  {
    f.(search := search)
  }

  /** `Clear Filters`. */
  function ClearFilters(f: Filters): (r: Filters)
    ensures r.search == "" && r.tag == "all"
  {
    DefaultFilters
  }

  /** After clearing, every post is listed again. */
  lemma ClearShowsAll(blog: seq<Post>, f: Filters)
    ensures FilteredPosts(blog, ClearFilters(f)) == blog
  {
    forall i | 0 <= i < |blog|
      ensures PostMatches(blog[i], DefaultFilters)
    {
      ContainsEmpty(ToLower(blog[i].title));
    }
    FilterAll((p: Post) => PostMatches(p, DefaultFilters), blog);
  }

  /** Clicking one of a post's tags keeps that post in the list whenever it
      matched the search. */
  lemma TagClickKeepsPost(blog: seq<Post>, f: Filters, i: nat, j: nat)
    requires i < |blog| && j < |blog[i].tags|
    requires SearchMatches(blog[i], f.search)
    ensures blog[i] in FilteredPosts(blog, SelectTag(f, blog[i].tags[j]))
  {
    FilteredPostsSpec(blog, SelectTag(f, blog[i].tags[j]));
  }

  /** Every topic the selector offers shows at least one post while the
      search box is empty. */
  lemma OfferedTagShowsPosts(blog: seq<Post>, t: string)
    requires t in AllTags(blog)
    ensures FilteredPosts(blog, Filters("", t)) != []
  {
    AllTagsSpec(blog);
    var i, j :| 0 <= i < |blog| && 0 <= j < |blog[i].tags| && blog[i].tags[j] == t;
    ContainsEmpty(ToLower(blog[i].title));
    TagClickKeepsPost(blog, Filters("", t), i, j);
  }
}
