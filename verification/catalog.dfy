/** The client's lookup of a product in the loaded product list (`products?.find`). */
module Catalog {
  import opened Wrappers
  import opened Domain

  /** Index `i` holds the first product in the list whose id is `id`. */
  ghost predicate FirstMatch(products: seq<Product>, id: ProductId, i: int) {
    && 0 <= i < |products|
    && products[i].productId == id
    && forall j :: 0 <= j < i ==> products[j].productId != id
  }

  /** No product in the list has id `id`. */
  ghost predicate Absent(products: seq<Product>, id: ProductId) {
    forall j :: 0 <= j < |products| ==> products[j].productId != id
  }

  /**
   * `products?.find(p => p.productId === id)`. A product list that has not
   * loaded yet behaves as the empty list.
   */
  function FindProduct(products: seq<Product>, id: ProductId): (r: Option<Product>)
    ensures r.None? <==> Absent(products, id)
    ensures r.Some? ==> exists i :: FirstMatch(products, id, i) && r.value == products[i]
    ensures forall i :: FirstMatch(products, id, i) ==> r == Some(products[i])
    decreases |products|
  {
    if |products| == 0 then None
    else if products[0].productId == id then
      assert FirstMatch(products, id, 0);
      Some(products[0])
    else
      var r := FindProduct(products[1..], id);
      assert forall i :: FirstMatch(products[1..], id, i) ==> FirstMatch(products, id, i + 1) && products[1..][i] == products[i + 1];
      r
  }
}
