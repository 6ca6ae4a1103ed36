/** The blog listing page (app/blog/page.tsx): hidden when the blog is
    switched off, otherwise the published posts newest first, each shown as a
    card. */
module BlogPage {
  import opened Wrappers
  import opened Routes
  import opened BlogPosts
  import opened BlogLib

  /** The publication time of a post; `time` stands for
      `new Date(s).getTime()`. */
  function Key(b: BlogPost, time: string -> int): int {
    time(b.publishedAt)
  }

  predicate NewestFirst(xs: seq<BlogPost>, time: string -> int) {
    forall i, j :: 0 <= i < j < |xs| ==> Key(xs[i], time) >= Key(xs[j], time)
  }

  /** Puts `x` in front of the first post that is not newer. */
  function Insert(x: BlogPost, xs: seq<BlogPost>, time: string -> int): (r: seq<BlogPost>)
    requires NewestFirst(xs, time)
    ensures NewestFirst(r, time)
    ensures multiset(r) == multiset(xs) + multiset{x}
    ensures |r| == |xs| + 1
    ensures forall k :: 0 <= k < |r| ==> r[k] == x || r[k] in xs
  {
    if |xs| == 0 then [x]
    else if Key(x, time) >= Key(xs[0], time) then [x] + xs
    else
      var rest := Insert(x, xs[1..], time);
      assert xs == [xs[0]] + xs[1..];
      forall k | 0 <= k < |rest| ensures Key(rest[k], time) <= Key(xs[0], time) {
        if rest[k] != x {
          NoNewerThanHead(xs, rest[k], time);
        }
      }
      [xs[0]] + rest
  }

  /** In a newest-first list, nothing after the head is newer than it. */
  lemma NoNewerThanHead(xs: seq<BlogPost>, y: BlogPost, time: string -> int)
    requires NewestFirst(xs, time) && |xs| > 0 && y in xs[1..]
    ensures Key(y, time) <= Key(xs[0], time)
  {
    var j :| 0 <= j < |xs[1..]| && xs[1..][j] == y;
    assert xs[j + 1] == y;
  }

  /** `[...blogs].sort((a, b) => time(b) - time(a))`: the same posts, newest
      first. */
  function SortNewestFirst(xs: seq<BlogPost>, time: string -> int): (r: seq<BlogPost>)
    ensures NewestFirst(r, time)
    ensures multiset(r) == multiset(xs)
    ensures |r| == |xs|
  {
    if |xs| == 0 then []
    else
      assert xs == [xs[0]] + xs[1..];
      Insert(xs[0], SortNewestFirst(xs[1..], time), time)
  }

  /** What one card shows. */
  datatype Card = Card(slug: string, title: string, summary: string, tags: seq<string>)

  const MaxTags := 3

  /** The first three tags. */
  function ShownTags(tags: seq<string>): (r: seq<string>)
    ensures |r| <= MaxTags && |r| <= |tags|
    ensures |tags| <= MaxTags ==> r == tags
    ensures |tags| > MaxTags ==> |r| == MaxTags
    ensures r == tags[..|r|]
  {
    if |tags| <= MaxTags then tags else tags[..MaxTags]
  }

  /** A card: the excerpt, or the first 150 characters of the content. */
  function CardOf(b: BlogPost): (r: Card)
    ensures r.slug == b.slug && r.title == b.title
    ensures r.summary == Summary(b.excerpt, b.content, 150)
    ensures |r.tags| <= MaxTags && |r.tags| <= |b.tags| && r.tags == b.tags[..|r.tags|]
  {
    Card(b.slug, b.title, Summary(b.excerpt, b.content, 150), ShownTags(b.tags))
  }

  datatype View = NotFound | Listing(cards: seq<Card>)

  /** The page. `blogEnabled` is the stored setting (`None` when undefined);
      when it is `false` the page is not found and the posts are never read. */
  function Page(blogEnabled: Option<bool>, file: Stored<BlogPost>, time: string -> int): (r: View)
    ensures r.NotFound? <==> blogEnabled == Some(false)
    ensures r.Listing? ==> |r.cards| == |ReadAllBlogs(file)|
    ensures r.Listing? ==> exists sorted: seq<BlogPost> ::
              multiset(sorted) == multiset(ReadAllBlogs(file)) && NewestFirst(sorted, time) &&
              |sorted| == |r.cards| &&
              forall k :: 0 <= k < |sorted| ==> r.cards[k] == CardOf(sorted[k])
  {
    if blogEnabled == Some(false) then NotFound
    else
      var sorted := SortNewestFirst(ReadAllBlogs(file), time);
      Listing(seq(|sorted|, k requires 0 <= k < |sorted| => CardOf(sorted[k])))
  }
}
