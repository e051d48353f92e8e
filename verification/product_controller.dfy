/**
 * `getProducts`, `createProduct` and `deleteProduct`: the product catalogue.
 * Each awaits a single storage call (call 0).
 */
module ProductController {
  import opened Wrappers
  import opened Domain
  import Text

  /** The request body of `createProduct`. */
  datatype NewProduct = NewProduct(
    productId: ProductId,
    name: string,
    price: int,
    rating: Option<int>,
    stockQuantity: int,
    dateid: Option<string>)

  /** The products whose `name` contains `search`, keyed by id. */
  function GetProducts(st: Store, search: Option<string>): (r: map<ProductId, Product>)
    ensures forall id :: id in r <==> id in st.products && Text.SearchMatches(search, st.products[id].name)
    ensures forall id :: id in r ==> r[id] == st.products[id]
    ensures search.None? ==> r == st.products
  {
    map id | id in st.products && Text.SearchMatches(search, st.products[id].name) :: st.products[id]
  }

  /**
   * Inserts the product; a taken id violates the primary key and, like any
   * storage failure, is reported as 500 with nothing written. The request
   * carries no description, so the new row has none.
   */
  function CreateProduct(st: Store, req: NewProduct, fault: Fault): (r: Step<Product>)
    ensures r.reply.Done? <==> Survives(fault, 1) && req.productId !in st.products
    ensures r.reply.Done? ==>
      && var p := r.reply.value;
      && p.productId == req.productId && p.name == req.name && p.price == req.price
      && p.rating == req.rating && p.stockQuantity == req.stockQuantity && p.dateid == req.dateid
      && p.description.None?
      && r.store.products == st.products[req.productId := p]
    ensures !r.reply.Done? ==> r.reply.ServerError? && r.store == st
    ensures r.store.sales == st.sales && r.store.expenses == st.expenses
    ensures Valid(st) ==> Valid(r.store)
  {
    if !Survives(fault, 1) || req.productId in st.products then Step(st, ServerError)
    else
      var p := Product(req.productId, req.name, req.price, req.rating, req.stockQuantity, None, req.dateid);
      Step(st.(products := st.products[req.productId := p]), Done(p))
  }

  /** Deletes by id: 204 on success, 404 when Prisma reports no such row. */
  function DeleteProduct(st: Store, id: ProductId, fault: Fault): (r: Step<()>)
    ensures r.reply.Done? <==> Survives(fault, 1) && id in st.products
    ensures r.reply.NotFound? <==> Survives(fault, 1) && id !in st.products
    ensures r.reply.Done? ==> r.store.products.Keys == st.products.Keys - {id}
    ensures SameExcept(st.products, r.store.products, id)
    ensures !r.reply.Done? ==> r.store == st
    ensures r.store.sales == st.sales && r.store.expenses == st.expenses
    ensures Valid(st) ==> Valid(r.store)
  {
    if !Survives(fault, 1) then Step(st, ServerError)
    else if id !in st.products then Step(st, NotFound)
    else Step(st.(products := st.products - {id}), Done(()))
  }

  /** Deleting the same id twice succeeds once and then reports 404. */
  lemma DeleteTwice(st: Store, id: ProductId)
    requires id in st.products
    ensures DeleteProduct(st, id, NoFault).reply.Done?
    ensures DeleteProduct(DeleteProduct(st, id, NoFault).store, id, NoFault).reply.NotFound?
  {
  }

  /** Creating a product and then deleting it restores the catalogue. */
  lemma CreateThenDeleteRestores(st: Store, req: NewProduct)
    requires req.productId !in st.products
    ensures DeleteProduct(CreateProduct(st, req, NoFault).store, req.productId, NoFault).store == st
  {
    var created := CreateProduct(st, req, NoFault).store;
    assert created.products - {req.productId} == st.products;
  }
}
