/** The product admin route (app/api/admin/products/route.ts): create,
    update and delete products kept in one JSON file. Unlike the blog route,
    it refuses to work when the file cannot be read. */
module ProductsApi {
  import opened Wrappers
  import opened Seqs
  import opened Text
  import opened Routes
  import opened ProductData
  import ProductLib

  /** `features` as a request may send it: a JSON array, or text with one
      feature per line (a missing `features` is the empty text). */
  datatype FeaturesField = FeatureArray(list: seq<string>) | FeatureText(text: string)

  /** A POST or PUT body. `description`, `category` and `image` are `None`
      when the key is absent, because PUT copies the body's keys over the
      stored record; the other text fields are "" when absent or falsy. */
  datatype ProductBody = ProductBody(
    id: string,
    name: string,
    description: Option<string>,
    price: NumberInput,
    category: Option<string>,
    image: Option<string>,
    address: string,
    email: string,
    phone: string,
    gallery: Option<seq<string>>,
    features: FeaturesField,
    specs: Specs)

  /** Why a request was refused; every refusal answers HTTP 400. */
  datatype ProductError =
    | NoBody
    | NoName
    | NoPrice
    | NoId
    | NotFound
    | BadFile     // the file is missing, unparsable, or not an array

  type ProductReply = Reply<seq<Product>, Product, ProductError>

  /** `validatePayload`: a name is required, and a price that is neither
      `undefined` nor `null` (0 passes). */
  function Validate(body: Option<ProductBody>): (r: Option<ProductError>)
    ensures r.None? <==> body.Some? && body.value.name != "" && body.value.price.NumberOf?
    ensures r.Some? ==> r.value == NoBody || r.value == NoName || r.value == NoPrice
    ensures body.None? ==> r == Some(NoBody)
    ensures body.Some? && body.value.name == "" ==> r == Some(NoName)
    ensures body.Some? && body.value.name != "" && body.value.price.NoNumber? ==> r == Some(NoPrice)
  {
    if body.None? then Some(NoBody)
    else if body.value.name == "" then Some(NoName)
    else if body.value.price.NoNumber? then Some(NoPrice)
    else None
  }

  /** Truthy text, or `fallback`. */
  function TextOr(x: Option<string>, fallback: string): (r: string)
    ensures x.Some? && x.value != "" ==> r == x.value
    ensures x.None? || x.value == "" ==> r == fallback
  {
    if x.Some? && x.value != "" then x.value else fallback
  }

  /** The stored features: an array as sent; text split into lines, each line
      trimmed, empty lines dropped. */
  function Features(f: FeaturesField): (r: seq<string>)
    ensures f.FeatureArray? ==> r == f.list
    ensures f.FeatureText? ==> forall k :: 0 <= k < |r| ==> r[k] != "" && IsTrimmed(r[k]) && '\n' !in r[k]
    ensures f.FeatureText? ==> IsSubsequence(r, TrimEach(Split(f.text, '\n')))
    ensures f.FeatureText? ==> forall k :: 0 <= k < |Split(f.text, '\n')| && Trim(Split(f.text, '\n')[k]) != "" ==>
              Trim(Split(f.text, '\n')[k]) in r
    ensures f.FeatureText? ==> forall x :: multiset(r)[x] ==
                                           if x != "" then multiset(TrimEach(Split(f.text, '\n')))[x] else 0
  {
    match f
    case FeatureArray(list) => list
    case FeatureText(text) => ParseListCounts(text, '\n'); ParseList(text, '\n')
  }

  /** The id POST gives a product created at `clock` milliseconds. */
  function NewId(clock: nat): string {
    "p-" + Decimal(clock)
  }

  /** POST: validate, read, append one product built from the body. */
  function Post(file: Stored<Product>, body: Option<ProductBody>, clock: nat): (r: ProductReply)
    ensures r.Fail? ==> r.status == 400
    ensures Validate(body).Some? ==> r == Fail(400, Validate(body).value)
    ensures Validate(body).None? && !file.Items? ==> r == Fail(400, BadFile)
    ensures r.Ok? <==> Validate(body).None? && file.Items?
    ensures r.Ok? ==> r.store == file.items + [r.body]
    ensures r.Ok? ==> r.body.id == NewId(clock) && r.body.name == body.value.name
    ensures r.Ok? ==> r.body.price == NumberOr0(body.value.price)
    ensures r.Ok? ==> r.body.category == TextOr(body.value.category, ProductLib.OtherCategory)
    ensures r.Ok? ==> r.body.description == TextOr(body.value.description, "")
    ensures r.Ok? ==> r.body.image == TextOr(body.value.image, "")
    ensures r.Ok? ==> r.body.gallery == body.value.gallery.GetOr([])
    ensures r.Ok? ==> r.body.features == Features(body.value.features)
    ensures r.Ok? ==> r.body.specs == body.value.specs
    ensures r.Ok? ==> r.body.address == Some(body.value.address) &&
                      r.body.email == Some(body.value.email) && r.body.phone == Some(body.value.phone)
  {
    match Validate(body)
    case Some(e) => Fail(400, e)
    case None =>
      if !file.Items? then Fail(400, BadFile)
      else
        var b := body.value;
        var p := Product(
          NewId(clock), b.name, TextOr(b.description, ""), NumberOr0(b.price),
          TextOr(b.image, ""), TextOr(b.category, ProductLib.OtherCategory),
          b.gallery.GetOr([]), Features(b.features), b.specs,
          Some(b.address), Some(b.email), Some(b.phone));
        Ok(file.items + [p], p)
  }

  /** `{ ...stored, ...body, <re-normalised fields> }`: keys the body has
      override, keys it lacks keep their stored value. */
  function Merge(stored: Product, b: ProductBody): (r: Product)
    ensures r.description == b.description.GetOr(stored.description)
    ensures r.category == b.category.GetOr(stored.category)
    ensures r.image == b.image.GetOr(stored.image)
    ensures r.name == b.name && r.id == b.id
    ensures r.price == NumberOr0(b.price)
    ensures r.gallery == b.gallery.GetOr([]) && r.features == Features(b.features)
    ensures r.specs == b.specs
    ensures r.address == Some(b.address) && r.email == Some(b.email) && r.phone == Some(b.phone)
  {
    stored.(
      id := b.id, name := b.name,
      description := b.description.GetOr(stored.description),
      price := NumberOr0(b.price),
      image := b.image.GetOr(stored.image),
      category := b.category.GetOr(stored.category),
      gallery := b.gallery.GetOr([]), features := Features(b.features), specs := b.specs,
      address := Some(b.address), email := Some(b.email), phone := Some(b.phone))
  }

  /** PUT: validate, require an id, find the product, replace it in place. */
  function Put(file: Stored<Product>, body: Option<ProductBody>): (r: ProductReply)
    ensures r.Fail? ==> r.status == 400
    ensures Validate(body).Some? ==> r == Fail(400, Validate(body).value)
    ensures Validate(body).None? && body.value.id == "" ==> r == Fail(400, NoId)
    ensures Validate(body).None? && body.value.id != "" && !file.Items? ==> r == Fail(400, BadFile)
    ensures Validate(body).None? && body.value.id != "" && file.Items? &&
              FirstIndex(file.items, ProductLib.WithId(body.value.id)).None?
            ==> r == Fail(400, NotFound)
    ensures r.Ok? <==> Validate(body).None? && body.value.id != "" && file.Items? &&
                       exists i :: 0 <= i < |file.items| && file.items[i].id == body.value.id
    ensures r.Ok? ==> |r.store| == |file.items|
    ensures r.Ok? ==> var i := FirstIndex(file.items, ProductLib.WithId(body.value.id)).value;
                      r.store == file.items[i := r.body] &&
                      r.body == Merge(file.items[i], body.value) &&
                      r.body.id == file.items[i].id
  {
    match Validate(body)
    case Some(e) => Fail(400, e)
    case None =>
      var b := body.value;
      if b.id == "" then Fail(400, NoId)
      else if !file.Items? then Fail(400, BadFile)
      else match FirstIndex(file.items, ProductLib.WithId(b.id))
        case None => Fail(400, NotFound)
        case Some(i) =>
          var p := Merge(file.items[i], b);
          Ok(file.items[i := p], p)
  }

  /** PUT replaces a product in place: the list of ids is what it was, and
      every product but the replaced one is untouched. */
  lemma PutKeepsIds(file: Stored<Product>, body: Option<ProductBody>)
    requires Put(file, body).Ok?
    ensures var r := Put(file, body);
            forall k :: 0 <= k < |r.store| ==> r.store[k].id == file.items[k].id
    ensures var r := Put(file, body);
            forall k :: 0 <= k < |r.store| && r.store[k] != r.body ==> r.store[k] == file.items[k]
  {
  }

  /** What PUT stores reads back unchanged, except for one case: a body
      with an empty category stores "", which the read side shows as 'Khác'.
      A body without a category keeps the stored one. */
  lemma PutStoresNormalForm(file: Stored<Product>, body: Option<ProductBody>)
    requires Put(file, body).Ok?
    ensures var r := Put(file, body);
            r.body.category != "" ==> ProductLib.NormalizeProduct(ProductLib.ToRaw(r.body)) == r.body
    ensures var r := Put(file, body);
            body.value.category == Some("") ==>
              r.body.category == "" &&
              ProductLib.NormalizeProduct(ProductLib.ToRaw(r.body)).category == ProductLib.OtherCategory
    ensures var r := Put(file, body);
            var i := FirstIndex(file.items, ProductLib.WithId(body.value.id)).value;
            body.value.category.None? ==> r.body.category == file.items[i].category
  {
    var r := Put(file, body);
    if r.body.category != "" {
      ProductLib.NormalizeOfProduct(r.body);
    }
  }

  /** The body the admin form sends for a product: every field present. */
  function BodyOf(q: Product): ProductBody {
    ProductBody(q.id, q.name, Some(q.description), NumberOf(Some(q.price)), Some(q.category),
                Some(q.image), q.address.GetOr(""), q.email.GetOr(""), q.phone.GetOr(""),
                Some(q.gallery), FeatureArray(q.features), q.specs)
  }

  /** A body with every field present decides the whole product: merging it
      over any stored product gives the product it was made from. */
  lemma MergeOfFullBody(stored: Product, q: Product)
    requires q.address.Some? && q.email.Some? && q.phone.Some?
    ensures Merge(stored, BodyOf(q)) == q
  {
  }

  predicate Keeps(p: Product, id: string) { p.id != id }

  /** DELETE: drop every product with the given id, keeping the rest in
      order. */
  function Delete(file: Stored<Product>, body: Option<IdRequest>): (r: Reply<seq<Product>, bool, ProductError>)
    ensures r.Fail? ==> r.status == 400
    ensures body.None? ==> r == Fail(400, NoBody)
    ensures body.Some? && body.value.id == "" ==> r == Fail(400, NoId)
    ensures body.Some? && body.value.id != "" && !file.Items? ==> r == Fail(400, BadFile)
    ensures r.Ok? <==> body.Some? && body.value.id != "" && file.Items?
    ensures r.Ok? ==> forall k :: 0 <= k < |r.store| ==> r.store[k].id != body.value.id
    ensures r.Ok? ==> IsSubsequence(r.store, file.items)
    ensures r.Ok? ==> forall p: Product :: p.id != body.value.id ==>
                        multiset(r.store)[p] == multiset(file.items)[p]
  {
    if body.None? then Fail(400, NoBody)
    else if body.value.id == "" then Fail(400, NoId)
    else if !file.Items? then Fail(400, BadFile)
    else
      var id := body.value.id;
      var keep := (p: Product) => Keeps(p, id);
      FilterFacts(file.items, keep);
      Ok(Filter(file.items, keep), true)
  }

  /** A created product reads back through `normalizeProduct` unchanged: the
      route stores products already in their normal form. */
  lemma PostStoresNormalForm(file: Stored<Product>, body: Option<ProductBody>, clock: nat)
    requires Post(file, body, clock).Ok?
    ensures ProductLib.NormalizeProduct(ProductLib.ToRaw(Post(file, body, clock).body)) ==
            Post(file, body, clock).body
  {
    ProductLib.NormalizeOfProduct(Post(file, body, clock).body);
  }
}
