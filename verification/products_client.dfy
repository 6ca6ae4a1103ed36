/** The product list with its category buttons
    (components/ProductsClient.tsx). */
module ProductsClient {
  import opened Seqs
  import opened ProductData

  function InCategory(category: string): Product -> bool {
    (p: Product) => p.category == category
  }

  /** `filteredProducts`: everything for 'Tất cả', otherwise the products of
      the selected category in list order. */
  function Filtered(products: seq<Product>, selected: string): (r: seq<Product>)
    ensures selected == AllLabel ==> r == products
    ensures selected != AllLabel ==> forall k :: 0 <= k < |r| ==> r[k].category == selected
    ensures selected != AllLabel ==> forall p :: p in products && p.category == selected ==> p in r
    ensures IsSubsequence(r, products)
    ensures selected != AllLabel ==> forall p: Product :: p.category == selected ==>
              multiset(r)[p] == multiset(products)[p]
  {
    if selected == AllLabel then
      IsSubsequenceOfItself(products);
      products
    else
      FilterFacts(products, InCategory(selected));
      Filter(products, InCategory(selected))
  }

  /** The "no products in this category" message is shown exactly when the
      selected category has no product. */
  function ShowsEmptyState(products: seq<Product>, selected: string): (r: bool)
    ensures r <==> (selected == AllLabel && |products| == 0) ||
                   (selected != AllLabel && forall p :: p in products ==> p.category != selected)
  {
    |Filtered(products, selected)| == 0
  }
}
