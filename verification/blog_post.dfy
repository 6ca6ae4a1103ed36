/** A blog post as `data/admin-blogs.json` stores it (the `BlogPost`
    interface of app/api/admin/blogs/route.ts and lib/blogs.ts). Optional text
    fields hold "" when absent, a missing `tags` the empty list. */
module BlogPosts {
  import opened Text

  datatype BlogPost = BlogPost(
    id: string,
    title: string,
    slug: string,
    excerpt: string,
    content: string,
    featuredImage: string,
    author: string,
    publishedAt: string,
    updatedAt: string,
    published: bool,
    tags: seq<string>,
    category: string)

  /** No two posts share a slug, so a slug names at most one post. */
  predicate SlugsDistinct(blogs: seq<BlogPost>) {
    forall i, j :: 0 <= i < j < |blogs| ==> blogs[i].slug != blogs[j].slug
  }

  /** No two posts share an id. */
  predicate IdsDistinct(blogs: seq<BlogPost>) {
    forall i, j :: 0 <= i < j < |blogs| ==> blogs[i].id != blogs[j].id
  }

  /** The slugs in use. */
  function Slugs(blogs: seq<BlogPost>): set<string> {
    set b | b in blogs :: b.slug
  }

  /** `excerpt || content.substring(0, n) + '...'`: the excerpt, or the first
      `n` characters of the content followed by an ellipsis. */
  function Summary(excerpt: string, content: string, n: nat): (r: string)
    ensures excerpt != "" ==> r == excerpt
    ensures excerpt == "" ==> |r| >= 3 && r[|r| - 3..] == "..."
    ensures excerpt == "" ==> r[..|r| - 3] == content[..if |content| < n then |content| else n]
  {
    if excerpt != "" then excerpt else Prefix(content, n) + "..."
  }
}
