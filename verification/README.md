# Aluminium-gate site: the verified core

This project models the rule-bearing core of a small Next.js website. The site sells cast-aluminium gates and fences and has an admin panel. All the models are pure functions over immutable data, and everything is stated and proved in Dafny.

What is modelled:

- **Admin stores.** The blog, product and featured-project routes keep their records in a JSON file each.
  - Each file is a `Stored<T>`: a list of records, a value that is not a list, or an unreadable file.
  - Each handler is a total function from the stored value and the request to a `Reply`. A `Reply` is either the new store with the answer, or an HTTP status with a reason.
  - Blog POST and PUT are methods: they contain the counter loop that makes a slug unique.
- **Settings.** The settings route reads the stored object and fills in defaults. A PUT normalises any body into a well-formed record: the theme and address types are clamped, defaults are filled in, every contact entry gets an id, and the contact e-mail falls back to the main e-mail. The normalisation is idempotent.
- **Read side.**
  - Product normalisation, with the bundled catalogue as fallback, and lookup by id.
  - The published-only blog list, and lookup by slug.
  - The de-duplicated category list and the category filter.
  - The blog listing: hidden when the blog is off, posts sorted newest first, cards with a summary and at most three tags.
- **Slideshow and gallery.**
  - The projects carousel is a state machine over `n` slides: arrows, mouse-drag and touch-swipe thresholds, the double mouse-up, the fullscreen viewer, and the three-up layout.
  - The product gallery covers arrows, autoplay, reset, the active image, the zoom modal and the lens clamp.
- **Page helpers.**
  - Admin page: the settings merge, gallery editing, image-tag splicing with the caret position, the features and tags text fields, the request a form submits, and the password check.
  - Quote page: attached images, product-type labels, the recipient, subject, image list and cc.
  - Header: the navigation items, the hotline and zalo links, the theme, and the mobile menu.
  - Footer and contact page: the fallback chains for phones, addresses, e-mail, working hours and the map address.

Clocks, random numbers and date parsing are parameters:

- `clock: nat` for `Date.now()`;
- `now: string` for `toISOString()`;
- `random: nat -> string` for the text of successive `Math.random()` draws;
- `time: string -> int` for `new Date(s).getTime()`.

JavaScript value rules are written out where they matter:

- Truthiness: an empty string stands for any falsy or absent text.
- `??` is `Option.GetOr`.
- `Number(x) || 0` is `NumberOr0`.
- `split`/`map(trim)`/`filter(Boolean)` is `Text.ParseList`.
- `substring` clamps its arguments.
- `replace(/\D/g, '')` is `Text.Digits`.
- `Math.round(size / 1024)` on a non-negative size is `(size + 512) / 1024`.
- `Array.from(new Set(xs))` keeps first occurrences: `Seqs.Dedup`.

## Model

| member | source | states |
|---|---|---|
| BlogsApi.Validate | app/api/admin/blogs/route.ts:40-44 | a body passes exactly when it exists and has a non-empty title and content; otherwise the first missing piece is the error: no body, then no title, then no content |
| BlogsApi.ReadBlogs | app/api/admin/blogs/route.ts:26-34 | an unreadable file reads as the empty list; anything that parses is handed on as it is |
| BlogsApi.Tags | app/api/admin/blogs/route.ts:92 | an array of tags is kept as sent; text yields the trimmed comma-separated pieces in order, each non-empty one as often as it occurs and no empty one |
| BlogsApi.Post | app/api/admin/blogs/route.ts:64-102 | an invalid body or a non-list file is refused with 400; a valid request succeeds; the new post is appended after the unchanged old ones with a slug no existing post has, the first free `base`, `base-1`, `base-2`, …; author defaults to 'Admin', published to false, excerpt to the first 200 characters plus '...', and publishedAt to now |
| BlogsApi.IndexOfId | app/api/admin/blogs/route.ts:111-112 | the first index holding the id; none exactly when no post has it |
| BlogsApi.Put | app/api/admin/blogs/route.ts:104-145 | fails with 400 on an invalid body, a missing id, a non-list file or an unknown id, and succeeds otherwise; only the first post with the id is replaced and the length is kept; the post keeps its id and publishedAt, and its author and published flag unless the body gives new ones; its slug is the first candidate free among the other posts' slugs |
| BlogsApi.Delete | app/api/admin/blogs/route.ts:147-159 | without an id it is a 400; otherwise it succeeds even when nothing matches; no post with the id remains, and every other post keeps its order and multiplicity |
| BlogsApi.PostKeepsSlugsDistinct | app/api/admin/blogs/route.ts:73-96 | when the stored slugs are distinct, they stay distinct after a POST |
| BlogsApi.PutKeepsSlugsDistinct | app/api/admin/blogs/route.ts:117-139 | when slugs and ids are distinct, both stay distinct after a PUT; the post's own old slug never counts as a clash |
| BlogPosts.Summary | app/api/admin/blogs/route.ts:85 | a non-empty excerpt is used as is; otherwise the result is the first n characters of the content (all of it when shorter) followed by '...' |
| Slug.GenerateSlug | app/api/admin/blogs/route.ts:46-53 | the result contains only a-z, 0-9 and '-', never '--', and neither starts nor ends with '-'; its letters and digits are exactly those of the lower-cased title, in order; where the hyphens go is Slug.HyphenateSplitsAtRun |
| Slug.GenerateSlugOfSlug | app/api/admin/blogs/route.ts:46-53 | a string that is already a well-formed slug is its own slug |
| Slug.GenerateSlugIdempotent | app/api/admin/blogs/route.ts:46-53 | generating a slug from a slug changes nothing |
| Slug.Hyphenate | app/api/admin/blogs/route.ts:51 | the output has only slug characters and hyphens, never two hyphens in a row, is empty only for empty input, starts with the input's first character when that is a slug character, and keeps the letters and digits in order |
| Slug.HyphenateAppend | app/api/admin/blogs/route.ts:51 | the replacement works on each side of a boundary between a slug character and another character on its own |
| Slug.HyphenateOfRun | app/api/admin/blogs/route.ts:51 | a whole run of non-slug characters before a slug character or the end becomes one hyphen |
| Slug.HyphenateSplitsAtRun | app/api/admin/blogs/route.ts:51 | every maximal run of non-slug characters becomes exactly one hyphen, between what the text on either side becomes |
| Slug.TrimHyphens | app/api/admin/blogs/route.ts:52 | the result neither starts nor ends with a hyphen and keeps the alphabet and single-hyphen properties |
| Slug.TrimHyphensKeepsSlugChars | app/api/admin/blogs/route.ts:52 | trimming hyphens removes no letter or digit |
| Slug.SlugCharsOfStripMarks | app/api/admin/blogs/route.ts:50 | removing combining marks removes no letter or digit |
| Slug.DropRun | app/api/admin/blogs/route.ts:51 | what a run of non-slug characters leaves is a suffix of the input that starts with a slug character, and it holds the same letters and digits |
| Slug.CandidateInjective | app/api/admin/blogs/route.ts:77 | different counters give different candidate slugs |
| Slug.CandidatesDistinct | app/api/admin/blogs/route.ts:74-79 | the first k candidates are k different strings, which bounds the loop by the number of taken slugs |
| Slug.UniqueSlug | app/api/admin/blogs/route.ts:73-79 | the loop terminates; its result is not taken, is the base itself when that is free, and is otherwise the first free `base-k` |
| ProductsApi.Validate | app/api/admin/products/route.ts:40-44 | a body passes exactly when it exists, has a non-empty name, and has a price that is neither undefined nor null (0 passes); otherwise the first failing check is the error: no body, then no name, then no price |
| ProductsApi.Features | app/api/admin/products/route.ts:71-73 | an array of features is kept as sent; text yields the trimmed lines in order, each non-empty one as often as it occurs and no empty one |
| ProductsApi.Post | app/api/admin/products/route.ts:55-87 | an invalid body, or a file that is missing, unparsable or not a list, is a 400; otherwise exactly one product is appended; its category defaults to 'Khác', description and image to '', price to `Number(price)` or 0, gallery to []; features as `Features` gives them; all four specification fields are present |
| ProductsApi.Merge | app/api/admin/products/route.ts:99-116 | keys the body has override the stored product, keys it lacks keep their stored value, and price, contact fields, gallery, features and specifications are always re-derived from the body |
| ProductsApi.PutKeepsIds | app/api/admin/products/route.ts:96-118 | PUT leaves the list of ids as it was and every product but the replaced one untouched |
| ProductsApi.PutStoresNormalForm | app/api/admin/products/route.ts:99-116 | what PUT stores reads back unchanged when its category is non-empty; a body with an empty category stores '', which reads back as 'Khác'; a body without a category keeps the stored one |
| ProductsApi.MergeOfFullBody | app/api/admin/products/route.ts:99-116 | a body with every field present decides the whole product, whatever was stored |
| ProductsApi.Put | app/api/admin/products/route.ts:89-124 | fails with 400 on an invalid body, a missing id, an unusable file or an unknown id, and succeeds exactly when a product has the id; only the first such index changes, to the merge of the stored product and the body; the length is kept |
| ProductsApi.Delete | app/api/admin/products/route.ts:126-138 | without an id or a usable file it is a 400; otherwise no product with the id remains and the others keep their order and multiplicity |
| ProductsApi.PostStoresNormalForm | app/api/admin/products/route.ts:60-80 | a product the route creates reads back through `normalizeProduct` unchanged |
| ProductLib.NormalizeProduct | lib/products.ts:10-30 | the category is never empty and is 'Khác' when missing; gallery and features are lists, [] for non-arrays; price is `Number(price)` or 0; the other fields are kept |
| ProductLib.NormalizeIdempotent | lib/products.ts:10-30 | normalising a normalised product (written back to the file) changes nothing |
| ProductLib.ReadAllProducts | lib/products.ts:32-41 | the file's records, or the bundled ones when the file is not a readable list, each normalised, with length and order kept |
| ProductLib.FindProduct | lib/products.ts:45 | the first product with the id; none exactly when no product has it |
| ProductLib.ReadProductById | lib/products.ts:43-46 | a found product has the id and is the first listed product with it; none exactly when no listed product has the id |
| ProductData.NumberOr0 | lib/products.ts:15 | a number is kept; NaN, undefined and null become 0 |
| ProductData.CategorySource | data/products.ts:31-32 | 'Tất cả', the four defaults, then each product's category in order |
| ProductData.Categories | data/products.ts:31-33 | no duplicates, and exactly the values of the category list |
| ProductData.CategoriesShape | data/products.ts:29-33 | the list starts with 'Tất cả' and the four defaults in their declared order, holds every product's category, and is the first-occurrence order of that list |
| Seqs.Dedup | data/products.ts:31-33 | no value twice, and the same set of values as the input |
| Seqs.DedupIsFirstOccurrences | data/products.ts:31-33 | de-duplication equals an independent definition: each value kept where it first occurs |
| ProductsClient.Filtered | components/ProductsClient.tsx:18-21 | 'Tất cả' gives the list unchanged; any other category gives exactly the products of that category, as an order-preserving subsequence keeping each one's multiplicity |
| ProductsClient.ShowsEmptyState | components/ProductsClient.tsx:101 | the empty-state message shows exactly when no product falls in the selected category (or, for 'Tất cả', when there are none) |
| ProjectsApi.ReadProjects | app/api/admin/projects/route.ts:18-26 | a list is read as it is; anything else, including a missing file, is the empty list |
| ProjectsApi.Optional | app/api/admin/projects/route.ts:71-72 | empty text becomes absent; other text is kept |
| ProjectsApi.Card | app/api/admin/projects/route.ts:68-73 | the card carries the given id, the non-empty image, and a title and description that are absent when empty |
| ProjectsApi.Post | app/api/admin/projects/route.ts:54-87 | an unreadable body is a 500 and a missing or non-string image a 400; otherwise the card, with the supplied id or a fresh `project-` id, is appended without any uniqueness check |
| ProjectsApi.Put | app/api/admin/projects/route.ts:89-132 | the checks run in order: missing id 400, bad image 400, unknown id 404; it succeeds exactly when a card has the id; on success only the first card with the id is replaced, by one built from the body alone, and the length is kept |
| ProjectsApi.PutKeepsIds | app/api/admin/projects/route.ts:109-119 | PUT leaves the list of ids as it was and every card but the replaced one untouched |
| ProjectsApi.PostDuplicatesId | app/api/admin/projects/route.ts:66-75 | a card posted with an id already in use gives two cards with that id |
| ProjectsApi.DeleteUndoesPost | app/api/admin/projects/route.ts:134-159 | deleting the id a card was just posted with leaves the old list without that id, the same result as deleting it before the post |
| ProjectsApi.Delete | app/api/admin/projects/route.ts:134-159 | without an id 400; 404 exactly when no card has the id; otherwise every card with the id goes, the list gets shorter, and the rest keep their order and multiplicity |
| SettingsApi.ReadSettings | app/api/admin/settings/route.ts:49-82 | an unreadable file gives the defaults; otherwise missing or falsy colour and theme become '#d4af37' and 'light'; non-number scale and offsets become 1/0/0; an undefined blogEnabled becomes true; text fields and contactInfo are kept |
| SettingsApi.KeepOrFresh | app/api/admin/settings/route.ts:125 | an existing id is kept, and the result is never empty |
| SettingsApi.NormalizePhones | app/api/admin/settings/route.ts:124-128 | length and order are kept; each phone keeps its number and label, and has a non-empty id, its own when it had one |
| SettingsApi.NormalizeAddresses | app/api/admin/settings/route.ts:129-134 | length and order are kept; each address keeps its text and label and has a non-empty id; its type is kept when it is 'factory' or 'showroom' and is 'factory' otherwise |
| SettingsApi.NormalizeContact | app/api/admin/settings/route.ts:123-143 | the lists are normalised when they are arrays and absent otherwise; the contact e-mail falls back to the top-level e-mail; zalo, facebook and working hours are kept |
| SettingsApi.NormalizeSettings | app/api/admin/settings/route.ts:112-144 | any body yields well-formed settings: the theme is one of light/dark/auto ('light' otherwise); colour, numerics and blogEnabled get their defaults; contactInfo is present exactly when sent |
| SettingsApi.Put | app/api/admin/settings/route.ts:107-155 | an unreadable body is a 500; otherwise the well-formed normalisation is both stored and answered |
| SettingsApi.NormalizeOfWellFormed | app/api/admin/settings/route.ts:112-144 | well-formed settings are a fixed point of the normalisation, whatever the clock and random numbers |
| SettingsApi.NormalizeIdempotent | app/api/admin/settings/route.ts:112-144 | normalising what PUT stored changes nothing |
| SettingsApi.ReadAfterPut | app/api/admin/settings/route.ts:54-66 | what PUT stores reads back through `readSettings` unchanged |
| BlogLib.ReadAllBlogs | lib/blogs.ts:24-32 | exactly the posts with `published` true, in file order and with their multiplicity; nothing when the file cannot be read or is not a list |
| BlogLib.ReadBlogBySlug | lib/blogs.ts:34-37 | never an unpublished post; the result has the queried slug and is the first visible match; none exactly when no published post has that slug |
| BlogPage.Insert | app/blog/page.tsx:21-23 | inserting into a newest-first list keeps it newest first and adds exactly the one post |
| BlogPage.SortNewestFirst | app/blog/page.tsx:21-23 | the result is a permutation of the input, ordered by non-increasing publication time |
| BlogPage.ShownTags | app/blog/page.tsx:87-89 | at most three tags, always a prefix of the post's tags, and all of them when there are three or fewer |
| BlogPage.CardOf | app/blog/page.tsx:75 | the card's summary is the excerpt, or the first 150 characters of the content and '...'; at most three tags, a prefix of the post's |
| BlogPage.Page | app/blog/page.tsx:15-23 | not found exactly when blogEnabled is false; otherwise one card per published post, in a newest-first permutation |
| Cyclic.Prev | components/ProjectsCarousel.tsx:45 | the index stays in range and steps back by one, wrapping from 0 to n-1 |
| Cyclic.Next | components/ProjectsCarousel.tsx:50 | the index stays in range and steps on by one, wrapping from n-1 to 0 |
| Cyclic.PrevNextInverse | components/ProjectsCarousel.tsx:43-51 | stepping back undoes stepping forward, and the other way round |
| Cyclic.NeighboursDistinct | components/ProjectsCarousel.tsx:213-216 | with three or more slides, a slide and its two neighbours are three different slides |
| Carousel.GoPrev | components/ProjectsCarousel.tsx:43-46 | keeps the active slide in range; with fewer than two slides nothing changes |
| Carousel.GoNext | components/ProjectsCarousel.tsx:48-51 | keeps the active slide in range; with fewer than two slides nothing changes |
| Carousel.GoPrevUndoesGoNext | components/ProjectsCarousel.tsx:43-51 | the two arrows undo each other, for any slide count |
| Carousel.Swipe | components/ProjectsCarousel.tsx:74-78 | past the threshold to the right goes back, past it to the left goes on, anything shorter stays |
| Carousel.MouseDown | components/ProjectsCarousel.tsx:54-61 | starts a drag with a zero offset, only when there are two or more slides |
| Carousel.MouseMove | components/ProjectsCarousel.tsx:63-68 | the offset follows the mouse only during a drag |
| Carousel.MouseUp | components/ProjectsCarousel.tsx:70-82 | a drag ends with the swipe rule at 100px, then dragging is cleared and the offset reset |
| Carousel.GlobalMouseUp | components/ProjectsCarousel.tsx:102-113 | the window listener applies the same 100px rule and always leaves the drag cleared |
| Carousel.ReleaseMovesOnce | components/ProjectsCarousel.tsx:70-113 | when both release handlers fire for one drag, the second moves nothing, so one drag moves at most one slide |
| Carousel.MouseLeave | components/ProjectsCarousel.tsx:84-90 | leaving drops a drag without changing the slide |
| Carousel.TouchStart | components/ProjectsCarousel.tsx:125-129 | records the start point, only with two or more slides |
| Carousel.TouchMove | components/ProjectsCarousel.tsx:131-134 | measures the distance from the start point while a touch is active |
| Carousel.TouchEnd | components/ProjectsCarousel.tsx:136-146 | the swipe rule at 50px; the touch is forgotten afterwards |
| Carousel.TouchSwipe | components/ProjectsCarousel.tsx:124-146 | a whole gesture moving more than 50px right shows the previous slide, more than 50px left the next one, and anything shorter stays |
| Carousel.FullscreenPrev | components/ProjectsCarousel.tsx:159-161 | a modular step back that stays in range |
| Carousel.FullscreenNext | components/ProjectsCarousel.tsx:163-165 | a modular step on that stays in range |
| Carousel.FullscreenInverse | components/ProjectsCarousel.tsx:159-165 | the fullscreen arrows undo each other |
| Carousel.Render | components/ProjectsCarousel.tsx:179-201 | nothing without projects; three distinct in-range slides centred on the active one exactly on a desktop with three or more projects; otherwise the active slide alone |
| Carousel.Counter | components/ProjectsCarousel.tsx:441-445 | shown exactly with two or more projects, as a position between 1 and n out of n |
| Gallery.GoPrev | components/ProductGallery.tsx:66-70 | nothing on an empty list; otherwise one image back, in range, sliding backwards |
| Gallery.GoNext | components/ProductGallery.tsx:72-76 | nothing on an empty list; otherwise one image on, in range, sliding forwards |
| Gallery.ArrowsInverse | components/ProductGallery.tsx:66-76 | the two arrows undo each other's move |
| Gallery.Tick | components/ProductGallery.tsx:45-53 | autoplay runs only with two or more images and then acts as the forward arrow |
| Gallery.TicksAdvance | components/ProductGallery.tsx:45-53 | after k ticks the gallery shows image (i + k) mod n |
| Gallery.Reset | components/ProductGallery.tsx:39-43 | back to the first image, sliding forwards, in range for any list length |
| Gallery.Active | components/ProductGallery.tsx:17 | the image at the index when there is one and it is non-empty; absent otherwise |
| Gallery.OpenZoom | components/ProductGallery.tsx:86 | the zoom opens only when there is an active image |
| Gallery.ShowsModal | components/ProductGallery.tsx:163 | the modal is drawn exactly when it is open and there is an active image |
| Gallery.OpenedZoomShows | components/ProductGallery.tsx:86-163 | opening through the picture always shows the modal |
| Gallery.LensCoordinate | components/ProductGallery.tsx:217-218 | clamped to [0, 100]; values inside are kept |
| AdminPage.MergeSettings | app/admin/page.tsx:150-160 | every field the object has is kept, even an empty string; absent text becomes '' and an absent colour '#d97706'; numbers are kept and non-numbers become 1/0/0; undefined blogEnabled becomes true; an empty object gives the empty form |
| AdminPage.SaveSettingsResetsThemeAndContact | app/admin/page.tsx:272-292 | saving from the admin page stores the theme 'light' and no contact information, keeps the form's fields, and reloads as the form that was saved |
| AdminPage.MergeIdempotent | app/admin/page.tsx:150-160 | merging a complete object changes nothing, so merging twice is merging once |
| AdminPage.LoadedColourIsTheRoutes | app/admin/page.tsx:150-160 | after a load through the settings route the colour is never empty, and an unreadable settings file shows the route's gold, never the page's own default |
| AdminPage.AddToGallery | app/admin/page.tsx:225 | the existing images come first, then the new ones in order |
| AdminPage.RemoveAt | app/admin/page.tsx:229-234 | removes exactly the element at the index; any other index changes nothing |
| AdminPage.RemoveFromGallery | app/admin/page.tsx:229-234 | one element fewer, the others in order; a missing gallery is empty |
| AdminPage.RemoveUndoesAdd | app/admin/page.tsx:225-234 | removing a just-uploaded image by its position restores the gallery |
| AdminPage.ImgTag | app/admin/page.tsx:393 | the inserted tag sits on a line of its own |
| AdminPage.InsertImage | app/admin/page.tsx:397-411 | with a textarea the selection is replaced by the tag and the caret goes to start plus the tag length; without one the tag is appended |
| AdminPage.CaretFollowsTag | app/admin/page.tsx:397-406 | the text before the caret is the text before the selection followed by the tag; after the caret comes the text after the selection |
| AdminPage.FeaturesInput | app/admin/page.tsx:633 | editing gives at least one line, none containing a newline |
| AdminPage.FeaturesTextRoundTrip | app/admin/page.tsx:632-633 | what is typed survives being shown again |
| AdminPage.FeaturesListRoundTrip | app/admin/page.tsx:632-633 | a non-empty list of single-line features survives being shown and read back; an empty list comes back as one empty feature |
| AdminPage.TagsInput | app/admin/page.tsx:884 | typed tags are the trimmed comma-separated pieces in order, each non-empty one as often as it occurs and no empty one |
| AdminPage.TagsRoundTrip | app/admin/page.tsx:883-884 | non-empty, trimmed, comma-free tags survive being shown as 'a, b' and read back |
| AdminPage.Submit | app/admin/page.tsx:243-270 | PUT exactly when the form has an id, POST otherwise; the price always arrives as a number, NaN as 0 |
| AdminPage.SubmittedProductAccepted | app/admin/page.tsx:248-255 | the products route accepts a submitted form exactly when it has a name, and a new product is stored with the form's price and features |
| AdminPage.SubmitBlog | app/admin/page.tsx:329-345 | PUT exactly when the form has an id; the tags go as an array and published as a boolean |
| AdminPage.SubmittedPostAccepted | app/admin/page.tsx:329-345 | the blog route accepts a submitted post exactly when it has a title and content |
| AdminPage.AdminPassword | app/admin/page.tsx:121-124 | the configured password when one is set, otherwise 'admin123'; never empty |
| AdminPage.Login | app/admin/page.tsx:188-201 | login succeeds exactly when the typed password equals the configured one ('admin123' when none is set) |
| QuotePage.AddImages | app/bao-gia/page.tsx:68 | new images go after the attached ones, in order |
| QuotePage.RemoveImage | app/bao-gia/page.tsx:71-73 | no image with the name remains; the others keep their order and multiplicity |
| QuotePage.RemoveAbsentName | app/bao-gia/page.tsx:71-73 | removing a name that no image has changes nothing |
| QuotePage.ProductTypeLabel | app/bao-gia/page.tsx:75-83 | each of the four codes gets its label; any other value is returned unchanged |
| QuotePage.LabelChangesExactlyCodes | app/bao-gia/page.tsx:75-83 | a value changes exactly when it is a known code, and different codes get different labels |
| QuotePage.Recipient | app/bao-gia/page.tsx:89 | the configured e-mail, or 'info@congnhomduc.com' when it is empty |
| QuotePage.Subject | app/bao-gia/page.tsx:90 | the fixed prefix followed by the customer's name |
| QuotePage.KiB | app/bao-gia/page.tsx:94 | the size in KB rounded to the nearest integer, halves up |
| QuotePage.ImagesText | app/bao-gia/page.tsx:91-96 | 'Chưa đính kèm ảnh.' without images; otherwise it starts with the header giving the count and ends with a newline |
| QuotePage.ImagesTextLines | app/bao-gia/page.tsx:91-96 | read line by line, the text is the header, one line per image in order, then nothing after the last newline |
| QuotePage.Cc | app/bao-gia/page.tsx:114 | a cc is present exactly when the customer gave an e-mail, and is that e-mail |
| Header.NavItems | components/Header.tsx:61-68 | the Blog item is present exactly when blogEnabled is not false, between 'Dịch vụ' and 'Báo giá'; otherwise the five fixed items in order |
| Header.FixedItemsAlwaysShown | components/Header.tsx:61-68 | the five fixed items always appear, whatever the setting |
| Header.HotlineNumber | components/Header.tsx:25 | the phone's digits when it has any, '0123456789' when it has none; never empty |
| Header.HotlineZalo | components/Header.tsx:26 | 'https://zalo.me/' followed by the hotline number |
| Header.DataTheme | components/Header.tsx:39-53 | 'auto' follows the system preference; an empty theme is 'light'; any other stored value is applied as it is |
| Header.StoredThemeApplies | components/Header.tsx:39-53 | a theme the settings route stores yields a light or dark page |
| Header.Menu | components/Header.tsx:156-195 | the button flips the menu; choosing an item or the hotline closes it |
| Header.MenuToggleTwice | components/Header.tsx:156-185 | pressing the button twice restores the menu; after an item click the button opens it |
| ContactLinks.PhoneNumber | components/Footer.tsx:24 | only digits, never empty: the phone's digits, or '0123456789' when it has none |
| ContactLinks.PhoneNumberOfDigits | components/Footer.tsx:24 | a number that is already all digits is kept, so deriving it twice changes nothing |
| ContactLinks.ZaloLink | components/Footer.tsx:25 | 'https://zalo.me/' followed by the dialable number |
| ContactLinks.ZaloHref | components/Footer.tsx:190 | a link starting with 'http' is kept as it is; anything else becomes 'https://zalo.me/' plus its digits; the result is always a link |
| ContactLinks.ZaloHrefIdempotent | components/Footer.tsx:190 | feeding a built link back to the rule keeps it |
| ContactLinks.PhoneEntryOf | components/Footer.tsx:138-146 | the tel: and zalo links carry only the number's digits; the number is shown as typed |
| ContactLinks.PhoneEntries | components/Footer.tsx:135-167 | one entry per listed phone, in order |
| ContactLinks.Badge | components/Footer.tsx:110 | 'factory' is the factory badge; anything else is the showroom badge |
| ContactLinks.AddressEntries | components/Footer.tsx:94-132 | one entry per listed address, in order, with its badge, label and text |
| ContactLinks.NormalizedBadges | components/Footer.tsx:110 | for addresses the settings route stored, the showroom badge appears exactly on showrooms |
| ContactLinks.ListedPhones | components/Footer.tsx:135 | the phone list counts only when it exists and is non-empty |
| ContactLinks.ListedAddresses | components/Footer.tsx:94 | the address list counts only when it exists and is non-empty |
| ContactLinks.ZaloLine | components/Footer.tsx:184-196 | the zalo line appears exactly when a zalo value is set, linking by the zalo rule |
| ContactLinks.HoursLines | app/lien-he/page.tsx:187-189 | three non-empty lines, each the setting or its own default |
| ContactLinks.Or | components/Footer.tsx:26 | truthy text, or the fallback |
| Footer.FallbackAddress | components/Footer.tsx:26 | the configured address, or the default when it is empty; never empty |
| Footer.Addresses | components/Footer.tsx:94-132 | the list is shown exactly when it exists and is non-empty, one entry per address; otherwise the single fallback address |
| Footer.Phones | components/Footer.tsx:135-175 | the list is shown exactly when it exists and is non-empty, one entry per phone; otherwise the configured (or default) phone linking to zalo |
| Footer.Email | components/Footer.tsx:180-181 | the contact e-mail, else the settings e-mail, else the default; never empty |
| Footer.Hours | components/Footer.tsx:214-220 | the working hours appear exactly when the settings have them |
| ContactPage.Phones | app/lien-he/page.tsx:112-151 | the list is shown exactly when it exists and is non-empty; otherwise a tel: link with only digits and a zalo link under the configured (or default) phone |
| ContactPage.Addresses | app/lien-he/page.tsx:66-100 | the same addresses and the same fallback as the footer |
| ContactPage.Email | app/lien-he/page.tsx:175-176 | the settings e-mail, or the default; the contact e-mail is not consulted |
| ContactPage.EmailAgreesWithFooter | app/lien-he/page.tsx:175-176 | the page and the footer show the same e-mail exactly when the contact e-mail is unset or equals the page's |
| ContactPage.Hours | app/lien-he/page.tsx:187-189 | always three lines, each falling back to its own default; the same as the footer's when the footer shows them |
| ContactPage.MapAddress | app/lien-he/page.tsx:199-202 | the first listed address when there is a list (no map when it is empty); otherwise the fallback address |
| ContactPage.MapShownUnlessFirstEmpty | app/lien-he/page.tsx:199-202 | the map is missing exactly when the first listed address is empty |
| Text.Digits | components/Footer.tsx:138-139 | only digits, never longer than the input |
| Text.DigitsCharacterised | components/Footer.tsx:138-139 | keeps exactly the digit characters, in order and as often as they occur |
| Text.ParseList | app/api/admin/blogs/route.ts:92 | the pieces are non-empty, trimmed and separator-free; they are a subsequence of the trimmed pieces of the split, and every non-empty trimmed piece is among them |
| Text.ParseListCounts | app/api/admin/blogs/route.ts:92 | each non-empty trimmed piece is kept exactly as often as the split yields it, and no empty piece is kept |
| Text.ParseListOfJoin | app/admin/page.tsx:883-884 | a list of non-empty, trimmed, separator-free items survives being joined with padding and parsed back |
| Text.JoinOfSplit | app/admin/page.tsx:632-633 | joining the pieces of a split with the separator rebuilds the string |
| Text.Trim | app/api/admin/blogs/route.ts:92 | the result is a slice of the input with only white space cut off each end, and it is trimmed |
| Text.Substring | app/admin/page.tsx:400 | within bounds it is the slice; it is never longer than the string |

## Left out

- File I/O and JSON. Reading, writing and parsing the JSON files and request bodies are not modelled. A file is a list of typed records, a value that is not a list, or unreadable. A body is a typed record, or absent when it cannot be parsed.
- Field types. JSON fields of unexpected types (a number where text is expected, an array where a string is expected) are not modelled: text fields are strings, "" when falsy.
- Product PUT spread. The spread `...body` is modelled only for the fields a product has. Extra keys a body might carry into the stored record are not modelled.
- Slug.GenerateSlug: `normalize('NFD')` is taken as already applied. The input is assumed decomposed, and only the U+0300–U+036F stripping is modelled. `toLowerCase` is modelled for ASCII letters only.
- Strings are sequences of code points. UTF-16 code units, which `substring` and `length` count, are not modelled, so lengths differ for characters outside the Basic Multilingual Plane.
- Numbers are integers. This covers prices, logo scale and offsets, drag offsets and lens percentages. Floating point, and `Number()` of arbitrary strings, are not modelled. `Number(x)` is given as its result (`NumberInput`).
- Nondeterminism. `Date.now()`, `Math.random()`, `toISOString()` and `new Date(s).getTime()` are parameters. NaN dates and the stability of the engine's sort are not modelled: BlogPage.SortNewestFirst promises some newest-first permutation, not the engine's exact order among equal timestamps.
- Presentation. React state and effects, the DOM, timers, `requestAnimationFrame`, `FileReader`, `fetch`, `localStorage`, CSS transforms and animations are left out. The carousel and gallery are modelled as pure state transitions driven by their handlers.
- Encoders. `encodeURIComponent`, the body of the quote e-mail, and the Google Maps and embed URLs are foreign encoders and are not modelled.
- Concurrency. Two requests racing on one file can overwrite each other. This has no sequential contract.
- Wrappers and static pages. lib/settings.ts, lib/projects.ts and lib/projects-2.ts are not part of this model: they are thin file readers. The static pages are not modelled either: app/page.tsx, app/dich-vu/page.tsx, app/layout.tsx, app/not-found.tsx and app/san-pham/page.tsx.
- GET handlers. The GET handlers only answer what the read functions return: BlogsApi.ReadBlogs, ProjectsApi.ReadProjects and SettingsApi.ReadSettings. The products GET is not modelled separately.
- QuotePage.ProductTypeLabel: the lookup object's inherited keys (`'constructor'` and the like) are not modelled; such values are returned unchanged.
- AdminPage.MergeSettings: a `null` blogEnabled is treated like undefined. The page's code would keep `null`, which then shows the blog as on.
- Header.DataTheme: the listener that follows later changes of the system preference is not modelled; only the theme applied at load is.

## Where the code is followed

These are places where the code behaves in a way worth knowing. The model follows the code in each case.

- The contact page shows `settings.email || default` and ignores `contactInfo.email`. The footer prefers `contactInfo.email`. ContactPage.EmailAgreesWithFooter states exactly when the two agree.
- The admin page's default colour '#d97706' differs from the settings route's '#d4af37'. AdminPage.LoadedColourIsTheRoutes shows that the admin default never survives a load through the route.
- A mouse release inside the carousel runs both `handleMouseUp` and the window `mouseup` listener. Carousel.ReleaseMovesOnce shows that the second run moves nothing, because the first has already reset the offset.
- `readSettings` does not clamp a stored theme. The header applies whatever value is stored, while PUT only ever stores light, dark or auto (Header.StoredThemeApplies).
- The product PUT does not default an empty category to 'Khác', unlike POST. A body with `category: ''` stores an empty category, which the read side then shows as 'Khác'. ProductsApi.PutStoresNormalForm states both halves.
- Saving settings from the admin page sends only the form's nine fields, with no `theme` and no `contactInfo`. The settings route then stores the theme 'light' and no contact information, whatever was stored before. AdminPage.SaveSettingsResetsThemeAndContact states this.
