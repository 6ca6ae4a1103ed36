/** The pure steps of the admin page (app/admin/page.tsx): filling in the
    settings it fetched, editing a product's gallery, splicing an image tag
    into a post's content, the features and tags text fields, choosing the
    request a form submits, and the password check. */
module AdminPage {
  import opened Wrappers
  import opened Seqs
  import opened Text
  import opened Routes
  import opened ProductData
  import ProductsApi
  import BlogsApi
  import SettingsApi

  // ---------------------------------------------------------------------
  // Settings

  /** The settings form. */
  datatype AdminSettings = AdminSettings(
    logo: string,
    primaryColor: string,
    address: string,
    phone: string,
    email: string,
    logoScale: int,
    logoOffsetX: int,
    logoOffsetY: int,
    blogEnabled: bool)

  /** What the fetched settings object may hold: text and `blogEnabled` are
      `None` when `null` or `undefined` (an empty string is a value), numbers
      `None` when not of type number. */
  datatype PartialSettings = PartialSettings(
    logo: Option<string>,
    primaryColor: Option<string>,
    address: Option<string>,
    phone: Option<string>,
    email: Option<string>,
    logoScale: Option<int>,
    logoOffsetX: Option<int>,
    logoOffsetY: Option<int>,
    blogEnabled: Option<bool>)

  /** The admin page's own default colour; the settings route uses another. */
  const AdminColor := "#d97706"

  /** `EMPTY_SETTINGS`, the form before anything is loaded. */
  const EmptySettings := AdminSettings("", AdminColor, "", "", "", 1, 0, 0, true)

  /** `data.settings || {}` when the answer has no settings object. */
  const NoSettings := PartialSettings(None, None, None, None, None, None, None, None, None)

  /** `mergeSettings`: every field the object has is kept, even an empty
      string; the others take the form's defaults. */
  function MergeSettings(data: PartialSettings): (r: AdminSettings)
    ensures data.primaryColor.Some? ==> r.primaryColor == data.primaryColor.value
    ensures data.primaryColor.None? ==> r.primaryColor == AdminColor
    ensures data.logo.Some? ==> r.logo == data.logo.value
    ensures data.logo.None? ==> r.logo == ""
    ensures data.address.Some? ==> r.address == data.address.value
    ensures data.address.None? ==> r.address == ""
    ensures data.phone.Some? ==> r.phone == data.phone.value
    ensures data.phone.None? ==> r.phone == ""
    ensures data.email.Some? ==> r.email == data.email.value
    ensures data.email.None? ==> r.email == ""
    ensures data.logoScale.Some? ==> r.logoScale == data.logoScale.value
    ensures data.logoScale.None? ==> r.logoScale == 1
    ensures data.logoOffsetX.Some? ==> r.logoOffsetX == data.logoOffsetX.value
    ensures data.logoOffsetX.None? ==> r.logoOffsetX == 0
    ensures data.logoOffsetY.Some? ==> r.logoOffsetY == data.logoOffsetY.value
    ensures data.logoOffsetY.None? ==> r.logoOffsetY == 0
    ensures data.blogEnabled.None? ==> r.blogEnabled
    ensures data.blogEnabled.Some? ==> r.blogEnabled == data.blogEnabled.value
    ensures data == NoSettings ==> r == EmptySettings
  {
    AdminSettings(
      data.logo.GetOr(""),
      data.primaryColor.GetOr(AdminColor),
      data.address.GetOr(""),
      data.phone.GetOr(""),
      data.email.GetOr(""),
      data.logoScale.GetOr(1),
      data.logoOffsetX.GetOr(0),
      data.logoOffsetY.GetOr(0),
      data.blogEnabled.GetOr(true))
  }

  /** The form written back out as an object with every field present. */
  function Full(s: AdminSettings): PartialSettings {
    PartialSettings(
      Some(s.logo), Some(s.primaryColor), Some(s.address), Some(s.phone), Some(s.email),
      Some(s.logoScale), Some(s.logoOffsetX), Some(s.logoOffsetY), Some(s.blogEnabled))
  }

  /** Merging a complete object changes nothing, so merging is idempotent. */
  lemma MergeIdempotent(data: PartialSettings)
    ensures MergeSettings(Full(MergeSettings(data))) == MergeSettings(data)
    ensures forall s: AdminSettings :: MergeSettings(Full(s)) == s
  {
  }

  /** The settings object the settings route answers GET with. */
  function FromRoute(s: SettingsApi.Settings): PartialSettings {
    PartialSettings(
      Some(s.logo), Some(s.primaryColor), Some(s.address), Some(s.phone), Some(s.email),
      Some(s.logoScale), Some(s.logoOffsetX), Some(s.logoOffsetY), Some(s.blogEnabled))
  }

  /** The route always sends a colour, so the admin default never shows
      after a load: an unreadable settings file comes up in the route's gold,
      not in the admin page's amber. */
  lemma LoadedColourIsTheRoutes(file: Option<SettingsApi.SettingsBody>)
    ensures MergeSettings(FromRoute(SettingsApi.ReadSettings(file))).primaryColor != ""
    ensures file.None? ==>
      MergeSettings(FromRoute(SettingsApi.ReadSettings(file))).primaryColor == SettingsApi.DefaultColor
    ensures SettingsApi.DefaultColor != AdminColor
  {
  }

  /** `handleSaveSettings` sends the form as it stands: the nine fields,
      with no `theme` and no `contactInfo`. */
  function SaveBody(s: AdminSettings): (b: SettingsApi.SettingsBody)
    ensures !SettingsApi.IsTheme(b.theme) && b.contactInfo.None?
  {
    SettingsApi.SettingsBody(
      s.logo, s.primaryColor, "", s.address, s.phone, s.email,
      Some(s.logoScale), Some(s.logoOffsetX), Some(s.logoOffsetY), Some(s.blogEnabled), None)
  }

  /** Saving from the admin page resets the stored theme to 'light' and
      drops the stored contact information, whatever they were; the form's
      own fields are kept (an empty colour becomes the route's gold), and
      the form reloaded from the answer is the form that was saved. */
  lemma SaveSettingsResetsThemeAndContact(form: AdminSettings, clock: nat, random: nat -> string)
    ensures var r := SettingsApi.Put(Some(SaveBody(form)), clock, random);
            r.Ok? && r.store.theme == SettingsApi.DefaultTheme && r.store.contactInfo.None?
    ensures var r := SettingsApi.Put(Some(SaveBody(form)), clock, random);
            r.Ok? && r.store.logo == form.logo && r.store.address == form.address &&
            r.store.phone == form.phone && r.store.email == form.email &&
            r.store.logoScale == form.logoScale && r.store.logoOffsetX == form.logoOffsetX &&
            r.store.logoOffsetY == form.logoOffsetY && r.store.blogEnabled == form.blogEnabled
    ensures form.primaryColor != "" ==>
              MergeSettings(FromRoute(SettingsApi.Put(Some(SaveBody(form)), clock, random).body)) == form
    ensures form.primaryColor == "" ==>
              SettingsApi.Put(Some(SaveBody(form)), clock, random).body.primaryColor ==
              SettingsApi.DefaultColor
  {
  }

  // ---------------------------------------------------------------------
  // Product gallery

  /** `[...(gallery || []), ...images]`: new uploads go after the existing
      images, in the order they were read. */
  function AddToGallery(gallery: Option<seq<string>>, images: seq<string>): (r: seq<string>)
    ensures |r| == |gallery.GetOr([])| + |images|
    ensures r[..|gallery.GetOr([])|] == gallery.GetOr([])
    ensures r[|gallery.GetOr([])|..] == images
  {
    gallery.GetOr([]) + images
  }

  /** `xs.filter((_, i) => i !== idx)`: every element but the one at `idx`. */
  function RemoveAt<T>(xs: seq<T>, idx: int): (r: seq<T>)
    ensures 0 <= idx < |xs| ==> r == xs[..idx] + xs[idx + 1..]
    ensures !(0 <= idx < |xs|) ==> r == xs
    decreases |xs|
  {
    if |xs| == 0 then []
    else if idx == 0 then xs[1..]
    else [xs[0]] + RemoveAt(xs[1..], idx - 1)
  }

  /** `handleRemoveGallery(idx)` on a gallery that may be missing. */
  function RemoveFromGallery(gallery: Option<seq<string>>, idx: int): (r: seq<string>)
    ensures 0 <= idx < |gallery.GetOr([])| ==> |r| + 1 == |gallery.GetOr([])|
    ensures 0 <= idx < |gallery.GetOr([])| ==>
      forall i :: 0 <= i < |r| ==> r[i] == gallery.GetOr([])[if i < idx then i else i + 1]
    ensures !(0 <= idx < |gallery.GetOr([])|) ==> r == gallery.GetOr([])
  {
    RemoveAt(gallery.GetOr([]), idx)
  }

  /** Removing the image just uploaded, by its position, undoes the upload. */
  lemma RemoveUndoesAdd(gallery: Option<seq<string>>, image: string)
    ensures RemoveFromGallery(Some(AddToGallery(gallery, [image])), |gallery.GetOr([])|) ==
            gallery.GetOr([])
  {
    var g := gallery.GetOr([]);
    assert (g + [image])[..|g|] == g;
  }

  // ---------------------------------------------------------------------
  // Images in a post's content

  /** The tag `handleInsertImageToContent` inserts, on a line of its own. */
  function ImgTag(data: string): (r: string)
    ensures |r| > |data| && r[0] == '\n' && r[|r| - 1] == '\n'
  {
    "\n<img src=\"" + data +
    "\" alt=\"Ảnh\" style=\"max-width: 100%; height: auto; border-radius: 8px; margin: 16px 0;\" />\n"
  }

  /** The content textarea's selection when it exists. */
  datatype Selection = Selection(start: int, end: int)

  /** The new content, and where the caret goes (`None` when there is no
      textarea to place it in). */
  datatype Inserted = Inserted(content: string, caret: Option<int>)

  /** With a textarea: `content.substring(0, start) + tag + content.substring(end)`,
      caret at `start + tag.length`. Without one: the tag is appended. */
  function InsertImage(content: string, tag: string, sel: Option<Selection>): (r: Inserted)
    ensures sel.None? ==> r.content == content + tag && r.caret.None?
    ensures sel.Some? ==> r.caret == Some(sel.value.start + |tag|)
    ensures sel.Some? && 0 <= sel.value.start <= sel.value.end <= |content| ==>
              r.content == content[..sel.value.start] + tag + content[sel.value.end..]
  {
    match sel
    case None => Inserted(content + tag, None)
    case Some(Selection(start, end)) =>
      Inserted(Substring(content, 0, start) + tag + Substring(content, end, |content|),
               Some(start + |tag|))
  }

  /** For a real selection, the caret lands right after the tag: everything
      before it is the text before the selection followed by the tag, and
      everything after it is the text after the selection. The selected text
      is replaced. */
  lemma CaretFollowsTag(content: string, tag: string, start: int, end: int)
    requires 0 <= start <= end <= |content|
    ensures var r := InsertImage(content, tag, Some(Selection(start, end)));
            r.caret.Some? && 0 <= r.caret.value <= |r.content| &&
            r.content[..r.caret.value] == content[..start] + tag &&
            r.content[r.caret.value..] == content[end..] &&
            |r.content| == |content| - (end - start) + |tag|
  {
    var r := InsertImage(content, tag, Some(Selection(start, end)));
    assert r.content == (content[..start] + tag) + content[end..];
  }

  // ---------------------------------------------------------------------
  // Features and tags as text

  /** The features textarea shows the list one item per line. */
  function FeaturesText(features: Option<seq<string>>): string {
    Join(features.GetOr([]), "\n")
  }

  /** Editing the textarea replaces the list by its lines, untrimmed. */
  function FeaturesInput(text: string): (r: seq<string>)
    ensures |r| > 0 && forall k :: 0 <= k < |r| ==> '\n' !in r[k]
  {
    Split(text, '\n')
  }

  /** What the user types survives being shown again. */
  lemma FeaturesTextRoundTrip(text: string)
    ensures FeaturesText(Some(FeaturesInput(text))) == text
  {
    JoinOfSplit(text, '\n');
  }

  /** A non-empty list of single-line features survives being shown and read
      back. An empty list comes back as one empty feature. */
  lemma FeaturesListRoundTrip(features: seq<string>)
    requires forall k :: 0 <= k < |features| ==> '\n' !in features[k]
    ensures |features| > 0 ==> FeaturesInput(FeaturesText(Some(features))) == features
    ensures |features| == 0 ==> FeaturesInput(FeaturesText(Some(features))) == [""]
  {
    if |features| > 0 {
      assert ['\n'] == "\n";
      SplitOfJoinPlain(features, '\n');
    }
  }

  /** The tags field shows the list joined with ", " (nothing when the post
      has no tag array). */
  function TagsText(tags: Option<seq<string>>): string {
    if tags.Some? then Join(tags.value, ", ") else ""
  }

  /** Typing in it splits on ',', trims each piece and drops empty ones. */
  function TagsInput(text: string): (r: seq<string>)
    ensures forall k :: 0 <= k < |r| ==> r[k] != "" && IsTrimmed(r[k]) && ',' !in r[k]
    ensures IsSubsequence(r, TrimEach(Split(text, ',')))
    ensures forall k :: 0 <= k < |Split(text, ',')| && Trim(Split(text, ',')[k]) != "" ==>
              Trim(Split(text, ',')[k]) in r
    ensures forall x :: multiset(r)[x] == if x != "" then multiset(TrimEach(Split(text, ',')))[x] else 0
  {
    ParseListCounts(text, ',');
    ParseList(text, ',')
  }

  /** Tags that are non-empty, trimmed and comma-free survive being shown and
      read back. */
  lemma TagsRoundTrip(tags: seq<string>)
    requires forall k :: 0 <= k < |tags| ==> tags[k] != "" && IsTrimmed(tags[k]) && ',' !in tags[k]
    ensures TagsInput(TagsText(Some(tags))) == tags
  {
    assert ", " == [','] + " ";
    ParseListOfJoin(tags, ',', " ");
  }

  // ---------------------------------------------------------------------
  // Submitting the forms

  datatype HttpMethod = POST | PUT

  /** The product form. `price` is what `Number(form.price)` yields (`None`
      for `NaN`). */
  datatype ProductForm = ProductForm(
    id: string,
    name: string,
    description: string,
    price: Option<int>,
    category: string,
    address: Option<string>,
    email: Option<string>,
    phone: Option<string>,
    image: string,
    gallery: Option<seq<string>>,
    features: seq<string>,
    specs: Specs)

  /** `handleSubmit`: PUT when the form has an id, else POST; the form's
      fields as the body, with the price made a number (`NaN` as 0). */
  function Submit(form: ProductForm): (r: (HttpMethod, ProductsApi.ProductBody))
    ensures r.0 == PUT <==> form.id != ""
    ensures r.1.price == NumberOf(Some(form.price.GetOr(0)))
    ensures r.1.features == ProductsApi.FeatureArray(form.features)
    ensures r.1.id == form.id && r.1.name == form.name && r.1.specs == form.specs
    ensures r.1.description == Some(form.description) && r.1.category == Some(form.category) &&
            r.1.image == Some(form.image) && r.1.gallery == form.gallery
  {
    var body := ProductsApi.ProductBody(
      form.id, form.name, Some(form.description), NumberOf(Some(form.price.GetOr(0))),
      Some(form.category), Some(form.image),
      form.address.GetOr(""), form.email.GetOr(""), form.phone.GetOr(""),
      form.gallery, ProductsApi.FeatureArray(form.features), form.specs);
    (if form.id != "" then PUT else POST, body)
  }

  /** The route accepts what the form submits exactly when the form has a
      name: the price always arrives as a number. A new product is stored
      with the form's price (`NaN` as 0) and features. */
  lemma SubmittedProductAccepted(form: ProductForm, file: Stored<Product>, clock: nat)
    ensures ProductsApi.Validate(Some(Submit(form).1)).None? <==> form.name != ""
    ensures form.id == "" && form.name != "" && file.Items? ==>
              var r := ProductsApi.Post(file, Some(Submit(form).1), clock);
              r.Ok? && r.body.price == form.price.GetOr(0) && r.body.features == form.features
  {
  }

  /** The blog form. */
  datatype BlogForm = BlogForm(
    id: string,
    title: string,
    slug: string,
    excerpt: string,
    content: string,
    featuredImage: string,
    author: string,
    publishedAt: string,
    published: bool,
    tags: seq<string>,
    category: string)

  /** `handleBlogSubmit`: PUT when the form has an id, else POST; the form
      as the body. */
  function SubmitBlog(form: BlogForm): (r: (HttpMethod, BlogsApi.BlogBody))
    ensures r.0 == PUT <==> form.id != ""
    ensures r.1.published == Some(form.published)
    ensures r.1.tags == BlogsApi.TagArray(form.tags)
    ensures r.1.title == form.title && r.1.content == form.content && r.1.id == form.id
  {
    (if form.id != "" then PUT else POST,
     BlogsApi.BlogBody(form.id, form.title, form.slug, form.excerpt, form.content,
                       form.featuredImage, form.author, form.publishedAt,
                       Some(form.published), BlogsApi.TagArray(form.tags), form.category))
  }

  /** The blog route accepts a submitted post exactly when it has a title and
      content. */
  lemma SubmittedPostAccepted(form: BlogForm)
    ensures BlogsApi.Validate(Some(SubmitBlog(form).1)).None? <==>
            form.title != "" && form.content != ""
  {
  }

  // ---------------------------------------------------------------------
  // Login

  const DefaultPassword := "admin123"

  /** `NEXT_PUBLIC_ADMIN_PASS || 'admin123'`, with `env` "" when unset. */
  function AdminPassword(env: string): (r: string)
    ensures r != ""
    ensures env != "" ==> r == env
  {
    if env != "" then env else DefaultPassword
  }

  /** `handleLogin`: the typed password must equal the configured one. When
      a password is configured, the built-in default no longer opens the
      page (unless it is the configured one). */
  function Login(password: string, env: string): (r: bool)
    ensures env == "" ==> (r <==> password == DefaultPassword)
    ensures env != "" ==> (r <==> password == env)
    ensures r ==> password != ""
  {
    password == AdminPassword(env)
  }
}
