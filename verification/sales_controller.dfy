/**
 * `getSales` and `createSales`: listing the sales ledger, and recording a
 * sale that draws down the product's stock.
 *
 * `createSales` awaits four storage calls in sequence, with no transaction:
 * call 0 reads the product, call 1 inserts the sale, call 2 writes the new
 * stock figure, call 3 reads the product back. A call that throws ends the
 * request with a 500 and leaves whatever earlier calls wrote.
 */
module SalesController {
  import opened Wrappers
  import opened Domain
  import Text
  import Seqs

  /** The 201 reply body of `createSales`. */
  datatype SaleCreated = SaleCreated(sale: Sale, updatedProduct: Product)

  /** The sales whose `saleId` contains `search`, listed in the order they were recorded. */
  function GetSales(st: Store, search: Option<string>): (r: seq<Sale>)
    ensures forall i :: 0 <= i < |r| ==> Text.SearchMatches(search, r[i].saleId)
    ensures forall i :: 0 <= i < |st.sales| && Text.SearchMatches(search, st.sales[i].saleId) ==> st.sales[i] in r
    ensures forall s :: s in r ==> s in st.sales
    ensures search.None? ==> r == st.sales
  {
    var r := Seqs.Filter(st.sales, (s: Sale) => Text.SearchMatches(search, s.saleId));
    if search.None? then Seqs.FilterKeepsAll(st.sales, (s: Sale) => Text.SearchMatches(search, s.saleId)); r
    else r
  }

  /** The model lists the matching sales in the order they were recorded. */
  lemma GetSalesKeepsOrder(st: Store, search: Option<string>)
    ensures Seqs.IsSubsequence(GetSales(st, search), st.sales)
  {
    Seqs.FilterIsSubsequence(st.sales, (s: Sale) => Text.SearchMatches(search, s.saleId));
  }

  /** The product exists, its stock covers the quantity, and the saleId is free. */
  predicate Accepts(st: Store, req: Sale) {
    && req.productId in st.products
    && req.quantity <= st.products[req.productId].stockQuantity
    && !SaleIdTaken(st.sales, req.saleId)
  }

  /** The request body `req` carries the seven columns of the new sale. */
  function CreateSales(st: Store, req: Sale, fault: Fault): (r: Step<SaleCreated>)
    // missing product: 404, nothing written
    ensures r.reply.NotFound? <==> Survives(fault, 1) && req.productId !in st.products
    // not enough stock: 400, nothing written
    ensures r.reply.InsufficientStock? <==>
      Survives(fault, 1) && req.productId in st.products && st.products[req.productId].stockQuantity < req.quantity
    ensures r.reply.NotFound? || r.reply.InsufficientStock? ==> r.store == st
    // success exactly when every call returns and the checks pass
    ensures r.reply.Done? <==> Survives(fault, 4) && Accepts(st, req)
    ensures r.reply.Done? ==>
      && r.store.sales == st.sales + [req]
      && StockOnlyChanged(st.products, r.store.products, req.productId,
                          st.products[req.productId].stockQuantity - req.quantity)
      && r.reply.value.sale == req
      && r.reply.value.updatedProduct == r.store.products[req.productId]
    // a 500 before or at the insert (a throw, or a taken saleId) writes nothing
    ensures r.reply.ServerError? && (!Survives(fault, 2) || SaleIdTaken(st.sales, req.saleId)) ==> r.store == st
    // the stock write throws: the sale stays recorded, the stock does not move
    ensures fault == FailAt(2) && Accepts(st, req) ==>
      && r.reply.ServerError?
      && r.store.sales == st.sales + [req]
      && r.store.products == st.products
    // the read-back throws: both writes are kept, yet the reply is 500
    ensures fault == FailAt(3) && Accepts(st, req) ==>
      && r.reply.ServerError?
      && r.store.sales == st.sales + [req]
      && StockOnlyChanged(st.products, r.store.products, req.productId,
                          st.products[req.productId].stockQuantity - req.quantity)
    // whatever happens: at most this one sale is recorded, only this product's stock moves,
    // and it moves only after the sale was recorded
    ensures r.store.sales == st.sales || r.store.sales == st.sales + [req]
    ensures r.store.sales == st.sales ==> r.store.products == st.products
    ensures req.productId in st.products ==>
      && req.productId in r.store.products
      && (|| r.store.products[req.productId] == st.products[req.productId]
          || r.store.products[req.productId] == st.products[req.productId].(stockQuantity :=
               st.products[req.productId].stockQuantity - req.quantity))
    ensures r.store.expenses == st.expenses
    ensures SameExcept(st.products, r.store.products, req.productId)
    ensures Valid(st) ==> Valid(r.store)
  {
    if !Survives(fault, 1) then Step(st, ServerError)
    else if req.productId !in st.products then Step(st, NotFound)
    else
      var product := st.products[req.productId];
      if product.stockQuantity < req.quantity then Step(st, InsufficientStock)
      else if !Survives(fault, 2) || SaleIdTaken(st.sales, req.saleId) then Step(st, ServerError)
      else
        var recorded := st.(sales := st.sales + [req]);
        assert Valid(st) ==> Valid(recorded) by {
          if Valid(st) { AppendFreshSale(st.sales, req); }
        }
        if !Survives(fault, 3) then Step(recorded, ServerError)
        else
          var newStock := product.stockQuantity - req.quantity;
          var updated := recorded.(products := recorded.products[req.productId := product.(stockQuantity := newStock)]);
          if !Survives(fault, 4) then Step(updated, ServerError)
          else Step(updated, Done(SaleCreated(req, updated.products[req.productId])))
  }

  /** A successful sale never takes a non-negative stock below zero. */
  lemma SaleKeepsStockNonNegative(st: Store, req: Sale, fault: Fault)
    requires req.productId in st.products && st.products[req.productId].stockQuantity >= 0
    requires CreateSales(st, req, fault).reply.Done?
    ensures CreateSales(st, req, fault).store.products[req.productId].stockQuantity >= 0
  {
  }

  /** Selling the whole stock is allowed and leaves exactly zero. */
  lemma SellingAllStockLeavesZero(st: Store, req: Sale)
    requires req.productId in st.products
    requires req.quantity == st.products[req.productId].stockQuantity
    requires !SaleIdTaken(st.sales, req.saleId)
    ensures CreateSales(st, req, NoFault).reply.Done?
    ensures CreateSales(st, req, NoFault).store.products[req.productId].stockQuantity == 0
  {
  }

  /**
   * The three writes are not atomic: when the stock update throws, the sale
   * stays recorded although the request fails and the stock is unchanged.
   */
  lemma SaleRecordedWithoutStockUpdate(st: Store, req: Sale)
    requires req.productId in st.products
    requires req.quantity <= st.products[req.productId].stockQuantity
    requires !SaleIdTaken(st.sales, req.saleId)
    ensures CreateSales(st, req, FailAt(2)).reply.ServerError?
    ensures CreateSales(st, req, FailAt(2)).store.sales == st.sales + [req]
    ensures CreateSales(st, req, FailAt(2)).store.products == st.products
  {
  }
}
