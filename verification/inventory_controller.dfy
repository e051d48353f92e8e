/**
 * `updateProduct`: the inventory page's whole-record edit of a product.
 * One storage call (call 0), a Prisma `update` by id.
 */
module InventoryController {
  import opened Wrappers
  import opened Domain

  /** The five columns the request body overwrites. */
  datatype ProductEdit = ProductEdit(
    name: string,
    price: int,
    rating: Option<int>,
    stockQuantity: int,
    description: string)

  /**
   * Overwrites the five columns of product `id`, with no validation of any
   * of them. An absent id makes Prisma throw, which the handler's catch-all
   * turns into a 500 rather than a 404.
   */
  function UpdateProduct(st: Store, id: ProductId, edit: ProductEdit, fault: Fault): (r: Step<Product>)
    ensures r.reply.Done? <==> Survives(fault, 1) && id in st.products
    ensures !r.reply.Done? ==> r.reply.ServerError? && r.store == st
    ensures r.reply.Done? ==>
      && var p := r.reply.value;
      && id in r.store.products && r.store.products[id] == p
      && p.name == edit.name && p.price == edit.price && p.rating == edit.rating
      && p.stockQuantity == edit.stockQuantity && p.description == Some(edit.description)
      && p.productId == st.products[id].productId && p.dateid == st.products[id].dateid
    ensures r.store.products.Keys == st.products.Keys
    ensures SameExcept(st.products, r.store.products, id)
    ensures r.store.sales == st.sales && r.store.expenses == st.expenses
    ensures Valid(st) ==> Valid(r.store)
  {
    if !Survives(fault, 1) || id !in st.products then Step(st, ServerError)
    else
      var p := st.products[id].(name := edit.name, price := edit.price, rating := edit.rating,
                                stockQuantity := edit.stockQuantity, description := Some(edit.description));
      Step(st.(products := st.products[id := p]), Done(p))
  }

  /** A negative stock figure is stored exactly as given. */
  lemma NegativeStockAccepted(st: Store, id: ProductId, edit: ProductEdit)
    requires id in st.products
    requires edit.stockQuantity < 0
    ensures UpdateProduct(st, id, edit, NoFault).store.products[id].stockQuantity < 0
  {
  }

  /** Applying the same edit twice gives the same store as applying it once. */
  lemma UpdateIdempotent(st: Store, id: ProductId, edit: ProductEdit)
    ensures UpdateProduct(UpdateProduct(st, id, edit, NoFault).store, id, edit, NoFault).store
         == UpdateProduct(st, id, edit, NoFault).store
  {
  }
}
