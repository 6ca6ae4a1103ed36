/** The read side of products (lib/products.ts): each stored record is
    normalised into a `Product`, and a missing or broken file falls back to
    the bundled catalogue. */
module ProductLib {
  import opened Wrappers
  import opened Seqs
  import opened Routes
  import opened ProductData

  /** A record as found in the file. Text fields are "" when absent or falsy;
      `gallery`/`features` are `None` when they are not arrays. */
  datatype RawProduct = RawProduct(
    id: string,
    name: string,
    description: string,
    price: NumberInput,
    image: string,
    category: string,
    gallery: Option<seq<string>>,
    features: Option<seq<string>>,
    specs: Specs,
    address: Option<string>,
    email: Option<string>,
    phone: Option<string>)

  const OtherCategory := "Khác"

  /** `normalizeProduct`: every field gets a value of its type, an empty
      category becomes 'Khác', non-arrays become empty lists. */
  function NormalizeProduct(p: RawProduct): (r: Product)
    ensures r.category != ""
    ensures p.category == "" ==> r.category == OtherCategory
    ensures p.category != "" ==> r.category == p.category
    ensures p.gallery.None? ==> r.gallery == []
    ensures p.gallery.Some? ==> r.gallery == p.gallery.value
    ensures p.features.None? ==> r.features == []
    ensures p.features.Some? ==> r.features == p.features.value
    ensures r.price == NumberOr0(p.price)
    ensures r.id == p.id && r.name == p.name && r.description == p.description && r.image == p.image
    ensures r.specs == p.specs
    ensures r.address == p.address && r.email == p.email && r.phone == p.phone
  {
    Product(
      p.id, p.name, p.description, NumberOr0(p.price), p.image,
      if p.category != "" then p.category else OtherCategory,
      p.gallery.GetOr([]), p.features.GetOr([]), p.specs,
      p.address, p.email, p.phone)
  }

  /** A product written back to the file. */
  function ToRaw(q: Product): RawProduct {
    RawProduct(q.id, q.name, q.description, NumberOf(Some(q.price)), q.image, q.category,
               Some(q.gallery), Some(q.features), q.specs, q.address, q.email, q.phone)
  }

  /** A product with a category reads back as itself. */
  lemma NormalizeOfProduct(q: Product)
    requires q.category != ""
    ensures NormalizeProduct(ToRaw(q)) == q
  {
  }

  /** Normalising twice is normalising once. */
  lemma NormalizeIdempotent(p: RawProduct)
    ensures NormalizeProduct(ToRaw(NormalizeProduct(p))) == NormalizeProduct(p)
  {
    NormalizeOfProduct(NormalizeProduct(p));
  }

  /** `readAllProducts`: the file's records if it holds an array, otherwise
      the bundled ones, each normalised, in their order. */
  function ReadAllProducts(file: Stored<RawProduct>, bundled: seq<RawProduct>): (r: seq<Product>)
    ensures file.Items? ==> |r| == |file.items|
    ensures file.Items? ==> forall i :: 0 <= i < |r| ==> r[i] == NormalizeProduct(file.items[i])
    ensures !file.Items? ==> |r| == |bundled|
    ensures !file.Items? ==> forall i :: 0 <= i < |r| ==> r[i] == NormalizeProduct(bundled[i])
    ensures forall i :: 0 <= i < |r| ==> r[i].category != ""
  {
    var source := if file.Items? then file.items else bundled;
    seq(|source|, i requires 0 <= i < |source| => NormalizeProduct(source[i]))
  }

  function WithId(id: string): Product -> bool {
    (p: Product) => p.id == id
  }

  /** `readProductById`: the first product with the id, `None` exactly when
      there is none. */
  function FindProduct(list: seq<Product>, id: string): (r: Option<Product>)
    ensures r.None? <==> forall i :: 0 <= i < |list| ==> list[i].id != id
    ensures r.Some? ==> exists i :: 0 <= i < |list| && list[i] == r.value &&
                          r.value.id == id && forall j :: 0 <= j < i ==> list[j].id != id
  {
    match FirstIndex(list, WithId(id))
    case None => None
    case Some(i) => Some(list[i])
  }

  function ReadProductById(file: Stored<RawProduct>, bundled: seq<RawProduct>, id: string): (r: Option<Product>)
    ensures r.Some? ==> r.value.id == id && r.value in ReadAllProducts(file, bundled)
    ensures r.None? <==> forall p :: p in ReadAllProducts(file, bundled) ==> p.id != id
    ensures r.Some? ==> var list := ReadAllProducts(file, bundled);
                        exists i :: 0 <= i < |list| && list[i] == r.value &&
                                    forall j :: 0 <= j < i ==> list[j].id != id
  {
    FindProduct(ReadAllProducts(file, bundled), id)
  }
}
