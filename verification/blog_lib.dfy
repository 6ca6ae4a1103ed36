/** The public read side of blog posts (lib/blogs.ts): only published posts
    are visible. */
module BlogLib {
  import opened Wrappers
  import opened Seqs
  import opened Routes
  import opened BlogPosts

  predicate IsPublished(b: BlogPost) { b.published }

  /** `readAllBlogs()`: the published posts in file order; nothing when the
      file cannot be read or does not hold an array. */
  function ReadAllBlogs(file: Stored<BlogPost>): (r: seq<BlogPost>)
    ensures !file.Items? ==> r == []
    ensures forall k :: 0 <= k < |r| ==> r[k].published
    ensures file.Items? ==> IsSubsequence(r, file.items)
    ensures file.Items? ==> forall b: BlogPost :: b.published ==> multiset(r)[b] == multiset(file.items)[b]
    ensures file.Items? ==> forall b: BlogPost :: !b.published ==> b !in r
    ensures file.Items? ==> forall b :: b in file.items && b.published ==> b in r
  {
    if file.Items? then
      FilterFacts(file.items, IsPublished);
      Filter(file.items, IsPublished)
    else []
  }

  function WithSlug(slug: string): BlogPost -> bool {
    (b: BlogPost) => b.slug == slug
  }

  /** `readBlogBySlug(slug)`: the first published post with that slug. */
  function ReadBlogBySlug(file: Stored<BlogPost>, slug: string): (r: Option<BlogPost>)
    ensures r.Some? ==> r.value.published && r.value.slug == slug
    ensures r.Some? ==> file.Items? && r.value in file.items
    ensures r.None? <==> forall b :: b in ReadAllBlogs(file) ==> b.slug != slug
    ensures r.None? && file.Items? ==> forall b :: b in file.items && b.published ==> b.slug != slug
    ensures r.Some? ==> exists i :: 0 <= i < |ReadAllBlogs(file)| && ReadAllBlogs(file)[i] == r.value &&
                          forall j :: 0 <= j < i ==> ReadAllBlogs(file)[j].slug != slug
  {
    var visible := ReadAllBlogs(file);
    match FirstIndex(visible, WithSlug(slug))
    case None => None
    case Some(i) => Some(visible[i])
  }
}
