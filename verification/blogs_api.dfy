/** The blog admin route (app/api/admin/blogs/route.ts): list, create, update
    and delete posts kept in one JSON file. */
module BlogsApi {
  import opened Wrappers
  import opened Seqs
  import opened Text
  import opened Slug
  import opened Routes
  import opened BlogPosts

  /** `tags` as a request may send it: a JSON array, or comma-separated text
      (a missing `tags` is the empty text). */
  datatype TagsField = TagArray(list: seq<string>) | TagText(text: string)

  /** A POST or PUT body. Text fields hold "" when absent or empty: the route
      only tests them for truthiness. `published` is the one field compared
      with `undefined`. */
  datatype BlogBody = BlogBody(
    id: string,
    title: string,
    slug: string,
    excerpt: string,
    content: string,
    featuredImage: string,
    author: string,
    publishedAt: string,
    published: Option<bool>,
    tags: TagsField,
    category: string)

  /** Why a request was refused; every refusal answers HTTP 400. */
  datatype BlogError =
    | NoBody        // "Thiếu dữ liệu", or a DELETE without a body
    | NoTitle
    | NoContent
    | NoId
    | NotFound
    | BadFile       // the file holds JSON that is not an array

  type BlogReply = Reply<seq<BlogPost>, BlogPost, BlogError>

  /** `validatePayload`: a body with a title and content passes; otherwise
      the first missing piece is reported. */
  function Validate(body: Option<BlogBody>): (r: Option<BlogError>)
    ensures r.None? <==> body.Some? && body.value.title != "" && body.value.content != ""
    ensures r.Some? ==> r.value == NoBody || r.value == NoTitle || r.value == NoContent
    ensures body.None? ==> r == Some(NoBody)
    ensures body.Some? && body.value.title == "" ==> r == Some(NoTitle)
    ensures body.Some? && body.value.title != "" && body.value.content == "" ==> r == Some(NoContent)
  {
    if body.None? then Some(NoBody)
    else if body.value.title == "" then Some(NoTitle)
    else if body.value.content == "" then Some(NoContent)
    else None
  }

  /** `readBlogs()`: a missing or unparsable file reads as no posts; what GET
      answers. */
  function ReadBlogs(file: Stored<BlogPost>): (r: Stored<BlogPost>)
    ensures !r.Unreadable?
    ensures file.Unreadable? ==> r == Items([])
    ensures !file.Unreadable? ==> r == file
  {
    if file.Unreadable? then Items([]) else file
  }

  /** The posts a mutation works on, once `NotAList` has been ruled out. */
  function Posts(file: Stored<BlogPost>): seq<BlogPost> {
    if file.Items? then file.items else []
  }

  /** The stored excerpt: the body's, or the first 200 characters of the
      content and an ellipsis. */
  function Excerpt(excerpt: string, content: string): string {
    Summary(excerpt, content, 200)
  }

  /** The stored tags: an array as sent, text split at commas with each piece
      trimmed and the empty ones dropped. */
  function Tags(t: TagsField): (r: seq<string>)
    ensures t.TagArray? ==> r == t.list
    ensures t.TagText? ==> forall k :: 0 <= k < |r| ==> r[k] != "" && IsTrimmed(r[k]) && ',' !in r[k]
    ensures t.TagText? ==> IsSubsequence(r, TrimEach(Split(t.text, ',')))
    ensures t.TagText? ==> forall k :: 0 <= k < |Split(t.text, ',')| && Trim(Split(t.text, ',')[k]) != "" ==>
              Trim(Split(t.text, ',')[k]) in r
    ensures t.TagText? ==> forall x :: multiset(r)[x] ==
                                       if x != "" then multiset(TrimEach(Split(t.text, ',')))[x] else 0
  {
    match t
    case TagArray(list) => list
    case TagText(text) => ParseListCounts(text, ','); ParseList(text, ',')
  }

  /** The slug a body asks for: its own, else one made from its title. */
  function BaseSlug(body: BlogBody): string {
    if body.slug != "" then body.slug else GenerateSlug(body.title)
  }

  /** The id POST gives a post created at `clock` milliseconds. */
  function NewId(clock: nat): string {
    "blog-" + Decimal(clock)
  }

  /** What a successful POST means: the new post is appended after the
      existing ones, its slug is the first free candidate of the asked-for
      slug, and every field takes the body's value or its default. */
  ghost predicate Created(blogs: seq<BlogPost>, body: BlogBody, now: string, clock: nat,
                          store: seq<BlogPost>, post: BlogPost)
  {
    && store == blogs + [post]
    && FirstFreeCandidate(post.slug, BaseSlug(body), Slugs(blogs))
    && post.id == NewId(clock)
    && post.title == body.title
    && post.content == body.content
    && post.excerpt == Excerpt(body.excerpt, body.content)
    && post.featuredImage == body.featuredImage
    && post.author == (if body.author != "" then body.author else "Admin")
    && post.publishedAt == (if body.publishedAt != "" then body.publishedAt else now)
    && post.updatedAt == now
    && post.published == body.published.GetOr(false)
    && post.tags == Tags(body.tags)
    && post.category == body.category
  }

  /** POST: validate, read, pick a free slug, append. `now` is the ISO time
      of the request and `clock` its `Date.now()`. */
  method Post(file: Stored<BlogPost>, body: Option<BlogBody>, now: string, clock: nat)
    returns (r: BlogReply)
    ensures r.Fail? ==> r.status == 400
    ensures Validate(body).Some? ==> r == Fail(400, Validate(body).value)
    ensures Validate(body).None? && file.NotAList? ==> r == Fail(400, BadFile)
    ensures r.Ok? <==> Validate(body).None? && !file.NotAList?
    ensures r.Ok? ==> r.body.slug !in Slugs(Posts(file))
    ensures r.Ok? ==> Created(Posts(file), body.value, now, clock, r.store, r.body)
  {
    var invalid := Validate(body);
    if invalid.Some? {
      return Fail(400, invalid.value);
    }
    if file.NotAList? {
      return Fail(400, BadFile);
    }
    var blogs := Posts(file);
    var b := body.value;
    var slug := UniqueSlug(BaseSlug(b), Slugs(blogs));
    var post := BlogPost(
      NewId(clock), b.title, slug, Excerpt(b.excerpt, b.content), b.content,
      b.featuredImage, if b.author != "" then b.author else "Admin",
      if b.publishedAt != "" then b.publishedAt else now, now,
      b.published.GetOr(false), Tags(b.tags), b.category);
    r := Ok(blogs + [post], post);
  }

  predicate HasId(b: BlogPost, id: string) { b.id == id }

  /** `blogs.findIndex(b => b.id === id)`. */
  function IndexOfId(blogs: seq<BlogPost>, id: string): (r: Option<nat>)
    ensures r.Some? ==> r.value < |blogs| && blogs[r.value].id == id
    ensures r.Some? ==> forall j :: 0 <= j < r.value ==> blogs[j].id != id
    ensures r.None? <==> forall j :: 0 <= j < |blogs| ==> blogs[j].id != id
  {
    if |blogs| == 0 then None
    else if blogs[0].id == id then Some(0)
    else match IndexOfId(blogs[1..], id)
      case None => None
      case Some(i) => Some(i + 1)
  }

  /** The slugs of every post except those with id `id`. */
  function OtherSlugs(blogs: seq<BlogPost>, id: string): set<string> {
    set b | b in blogs && b.id != id :: b.slug
  }

  /** What a successful PUT means: only the first post with the body's id
      changes; it keeps its id and publication date, its author and
      published flag unless the body gives new ones, and gets a slug free
      among the other posts. */
  ghost predicate Updated(blogs: seq<BlogPost>, i: nat, body: BlogBody, now: string,
                          store: seq<BlogPost>, post: BlogPost)
    requires i < |blogs|
  {
    var was := blogs[i];
    && store == blogs[i := post]
    && FirstFreeCandidate(post.slug, BaseSlug(body), OtherSlugs(blogs, body.id))
    && post.id == was.id
    && post.publishedAt == was.publishedAt
    && post.title == body.title
    && post.content == body.content
    && post.excerpt == Excerpt(body.excerpt, body.content)
    && post.featuredImage == body.featuredImage
    && post.author == (if body.author != "" then body.author else was.author)
    && post.updatedAt == now
    && post.published == body.published.GetOr(was.published)
    && post.tags == Tags(body.tags)
    && post.category == body.category
  }

  /** PUT: validate, require an id, find the post, pick a slug no other post
      uses, replace the post in place. */
  method Put(file: Stored<BlogPost>, body: Option<BlogBody>, now: string)
    returns (r: BlogReply)
    ensures r.Fail? ==> r.status == 400
    ensures Validate(body).Some? ==> r == Fail(400, Validate(body).value)
    ensures Validate(body).None? && body.value.id == "" ==> r == Fail(400, NoId)
    ensures Validate(body).None? && body.value.id != "" && file.NotAList? ==> r == Fail(400, BadFile)
    ensures Validate(body).None? && body.value.id != "" && !file.NotAList? &&
              IndexOfId(Posts(file), body.value.id).None?
            ==> r == Fail(400, NotFound)
    ensures r.Ok? <==> Validate(body).None? && body.value.id != "" && !file.NotAList? &&
                       IndexOfId(Posts(file), body.value.id).Some?
    ensures r.Ok? ==> |r.store| == |Posts(file)|
    ensures r.Ok? ==> Updated(Posts(file), IndexOfId(Posts(file), body.value.id).value,
                              body.value, now, r.store, r.body)
  {
    var invalid := Validate(body);
    if invalid.Some? {
      return Fail(400, invalid.value);
    }
    var b := body.value;
    if b.id == "" {
      return Fail(400, NoId);
    }
    if file.NotAList? {
      return Fail(400, BadFile);
    }
    var blogs := Posts(file);
    var idx := IndexOfId(blogs, b.id);
    if idx.None? {
      return Fail(400, NotFound);
    }
    var i := idx.value;
    var slug := UniqueSlug(BaseSlug(b), OtherSlugs(blogs, b.id));
    var was := blogs[i];
    var post := was.(
      title := b.title, slug := slug, excerpt := Excerpt(b.excerpt, b.content),
      content := b.content, featuredImage := b.featuredImage,
      author := if b.author != "" then b.author else was.author, updatedAt := now,
      published := b.published.GetOr(was.published), tags := Tags(b.tags),
      category := b.category);
    r := Ok(blogs[i := post], post);
  }

  predicate Keeps(b: BlogPost, id: string) { b.id != id }

  /** DELETE: drop every post with the given id, keeping the rest in order. */
  function Delete(file: Stored<BlogPost>, body: Option<IdRequest>): (r: Reply<seq<BlogPost>, bool, BlogError>)
    ensures r.Fail? ==> r.status == 400
    ensures body.None? ==> r == Fail(400, NoBody)
    ensures body.Some? && body.value.id == "" ==> r == Fail(400, NoId)
    ensures body.Some? && body.value.id != "" && file.NotAList? ==> r == Fail(400, BadFile)
    ensures r.Ok? <==> body.Some? && body.value.id != "" && !file.NotAList?
    ensures r.Ok? ==> forall k :: 0 <= k < |r.store| ==> r.store[k].id != body.value.id
    ensures r.Ok? ==> IsSubsequence(r.store, Posts(file))
    ensures r.Ok? ==> forall b: BlogPost :: b.id != body.value.id ==>
                        multiset(r.store)[b] == multiset(Posts(file))[b]
  {
    if body.None? then Fail(400, NoBody)
    else if body.value.id == "" then Fail(400, NoId)
    else if file.NotAList? then Fail(400, BadFile)
    else
      var id := body.value.id;
      var keep := (b: BlogPost) => Keeps(b, id);
      FilterFacts(Posts(file), keep);
      Ok(Filter(Posts(file), keep), true)
  }

  /** A POST keeps slugs unique: the new slug is not among the old ones. */
  lemma PostKeepsSlugsDistinct(blogs: seq<BlogPost>, body: BlogBody, now: string, clock: nat,
                               store: seq<BlogPost>, post: BlogPost)
    requires SlugsDistinct(blogs)
    requires Created(blogs, body, now, clock, store, post)
    ensures SlugsDistinct(store)
  {
    forall i, j | 0 <= i < j < |store| ensures store[i].slug != store[j].slug {
      if j == |blogs| {
        assert store[i] in blogs;
      }
    }
  }

  /** A PUT keeps slugs unique when ids are: the post it rewrites is the only
      one with that id, and its new slug is free among all the others. */
  lemma PutKeepsSlugsDistinct(blogs: seq<BlogPost>, i: nat, body: BlogBody, now: string,
                              store: seq<BlogPost>, post: BlogPost)
    requires i < |blogs| && blogs[i].id == body.id
    requires SlugsDistinct(blogs) && IdsDistinct(blogs)
    requires Updated(blogs, i, body, now, store, post)
    ensures SlugsDistinct(store) && IdsDistinct(store)
  {
    forall a, c | 0 <= a < c < |store| ensures store[a].slug != store[c].slug {
      if a == i {
        assert blogs[c] in blogs && blogs[c].id != body.id;
      } else if c == i {
        assert blogs[a] in blogs && blogs[a].id != body.id;
      }
    }
  }
}
