/** Products as the site shows them (the `Product` interface of
    data/products.ts, which the admin route's `AdminProduct` repeats) and the
    category list built from them. */
module ProductData {
  import opened Wrappers
  import opened Seqs

  /** `specifications`; an absent field is "". */
  datatype Specs = Specs(material: string, size: string, weight: string, warranty: string)

  const NoSpecs := Specs("", "", "", "")

  /** Prices are whole numbers here; `address`, `email` and `phone` are the
      optional fields the record may lack. */
  datatype Product = Product(
    id: string,
    name: string,
    description: string,
    price: int,
    image: string,
    category: string,
    gallery: seq<string>,
    features: seq<string>,
    specs: Specs,
    address: Option<string>,
    email: Option<string>,
    phone: Option<string>)

  /** What `Number(x)` is given: `undefined`/`null` (`NoNumber`), or a value
      that converts to a number (`Some`) or to `NaN` (`None`). */
  datatype NumberInput = NoNumber | NumberOf(value: Option<int>)

  /** `Number(x) || 0`: the number, with `NaN` and missing values as 0. */
  function NumberOr0(x: NumberInput): (r: int)
    ensures x.NumberOf? && x.value.Some? ==> r == x.value.value
    ensures !(x.NumberOf? && x.value.Some?) ==> r == 0
  {
    match x
    case NumberOf(Some(n)) => n
    case _ => 0
  }

  /** The label that stands for "no filter". */
  const AllLabel := "Tất cả"

  const DefaultCategories := ["Cổng", "Lan can", "Hàng rào", "Lồng đèn"]

  function CategoryOf(p: Product): string { p.category }

  /** The five fixed labels, then every product's category. */
  function CategorySource(products: seq<Product>): (r: seq<string>)
    ensures |r| == 5 + |products|
    ensures r[..5] == [AllLabel] + DefaultCategories
    ensures forall i :: 0 <= i < |products| ==> r[5 + i] == products[i].category
  {
    [AllLabel] + DefaultCategories + seq(|products|, i requires 0 <= i < |products| => products[i].category)
  }

  /** `categories`: that list without repeats, in first-occurrence order. */
  function Categories(products: seq<Product>): (r: seq<string>)
    ensures NoDuplicates(r)
    ensures Elements(r) == Elements(CategorySource(products))
  {
    Dedup(CategorySource(products))
  }

  /** The list opens with 'Tất cả' and the four defaults in their declared
      order, holds every product's category, and lists values in the order
      they first occur. */
  lemma CategoriesShape(products: seq<Product>)
    ensures |Categories(products)| >= 5
    ensures Categories(products)[..5] == [AllLabel] + DefaultCategories
    ensures Categories(products)[0] == AllLabel
    ensures forall p :: p in products ==> p.category in Categories(products)
    ensures Categories(products) == FirstOccurrences(CategorySource(products))
  {
    var src := CategorySource(products);
    var fixed := [AllLabel] + DefaultCategories;
    assert src == fixed + src[5..];
    assert NoDuplicates(fixed);
    DedupKeepsDistinctPrefix(fixed, src[5..]);
    DedupIsFirstOccurrences(src);
    forall p | p in products ensures p.category in Categories(products) {
      var i :| 0 <= i < |products| && products[i] == p;
      assert src[5 + i] in Elements(src);
    }
  }
}
