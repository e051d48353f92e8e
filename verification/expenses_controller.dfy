/**
 * `getExpenses` and `createExpenses`: listing the expense ledger, and
 * recording an expense (inbound stock) that adds to the product's stock.
 *
 * `createExpenses` awaits the same four storage calls as `createSales`
 * (0 read product, 1 insert expense, 2 write stock, 3 read back), with no
 * transaction and no check on the quantity.
 */
module ExpensesController {
  import opened Wrappers
  import opened Domain
  import Text
  import Seqs

  /** The 201 reply body of `createExpenses`. */
  datatype ExpenseCreated = ExpenseCreated(expense: Expense, updatedProduct: Product)

  /** The expenses whose `expenseId` contains `search`, listed in the order they were recorded. */
  function GetExpenses(st: Store, search: Option<string>): (r: seq<Expense>)
    ensures forall i :: 0 <= i < |r| ==> Text.SearchMatches(search, r[i].id)
    ensures forall i :: 0 <= i < |st.expenses| && Text.SearchMatches(search, st.expenses[i].id) ==> st.expenses[i] in r
    ensures forall e :: e in r ==> e in st.expenses
    ensures search.None? ==> r == st.expenses
  {
    var r := Seqs.Filter(st.expenses, (e: Expense) => Text.SearchMatches(search, e.id));
    if search.None? then Seqs.FilterKeepsAll(st.expenses, (e: Expense) => Text.SearchMatches(search, e.id)); r
    else r
  }

  /** The model lists the matching expenses in the order they were recorded. */
  lemma GetExpensesKeepsOrder(st: Store, search: Option<string>)
    ensures Seqs.IsSubsequence(GetExpenses(st, search), st.expenses)
  {
    Seqs.FilterIsSubsequence(st.expenses, (e: Expense) => Text.SearchMatches(search, e.id));
  }

  /** The product exists and the expenseId is free. */
  predicate Accepts(st: Store, req: Expense) {
    req.productId in st.products && !ExpenseIdTaken(st.expenses, req.id)
  }

  /** The request body `req` carries the nine columns of the new expense. */
  function CreateExpenses(st: Store, req: Expense, fault: Fault): (r: Step<ExpenseCreated>)
    // missing product: 404, nothing written
    ensures r.reply.NotFound? <==> Survives(fault, 1) && req.productId !in st.products
    ensures r.reply.NotFound? ==> r.store == st
    // no stock check of any kind
    ensures !r.reply.InsufficientStock?
    ensures r.reply.Done? <==> Survives(fault, 4) && Accepts(st, req)
    ensures r.reply.Done? ==>
      && r.store.expenses == st.expenses + [req]
      && StockOnlyChanged(st.products, r.store.products, req.productId,
                          st.products[req.productId].stockQuantity + req.quantity)
      && r.reply.value.expense == req
      && r.reply.value.updatedProduct == r.store.products[req.productId]
    // a 500 before or at the insert (a throw, or a taken expenseId) writes nothing
    ensures r.reply.ServerError? && (!Survives(fault, 2) || ExpenseIdTaken(st.expenses, req.id)) ==> r.store == st
    // the stock write throws: the expense stays recorded, the stock does not move
    ensures fault == FailAt(2) && Accepts(st, req) ==>
      && r.reply.ServerError?
      && r.store.expenses == st.expenses + [req]
      && r.store.products == st.products
    // the read-back throws: both writes are kept, yet the reply is 500
    ensures fault == FailAt(3) && Accepts(st, req) ==>
      && r.reply.ServerError?
      && r.store.expenses == st.expenses + [req]
      && StockOnlyChanged(st.products, r.store.products, req.productId,
                          st.products[req.productId].stockQuantity + req.quantity)
    // whatever happens: at most this one expense is recorded, only this product's stock moves,
    // and it moves only after the expense was recorded
    ensures r.store.expenses == st.expenses || r.store.expenses == st.expenses + [req]
    ensures r.store.expenses == st.expenses ==> r.store.products == st.products
    ensures req.productId in st.products ==>
      && req.productId in r.store.products
      && (|| r.store.products[req.productId] == st.products[req.productId]
          || r.store.products[req.productId] == st.products[req.productId].(stockQuantity :=
               st.products[req.productId].stockQuantity + req.quantity))
    ensures r.store.sales == st.sales
    ensures SameExcept(st.products, r.store.products, req.productId)
    ensures Valid(st) ==> Valid(r.store)
  {
    if !Survives(fault, 1) then Step(st, ServerError)
    else if req.productId !in st.products then Step(st, NotFound)
    else
      var product := st.products[req.productId];
      if !Survives(fault, 2) || ExpenseIdTaken(st.expenses, req.id) then Step(st, ServerError)
      else
        var recorded := st.(expenses := st.expenses + [req]);
        assert Valid(st) ==> Valid(recorded) by {
          if Valid(st) { AppendFreshExpense(st.expenses, req); }
        }
        if !Survives(fault, 3) then Step(recorded, ServerError)
        else
          var newStock := product.stockQuantity + req.quantity;
          var updated := recorded.(products := recorded.products[req.productId := product.(stockQuantity := newStock)]);
          if !Survives(fault, 4) then Step(updated, ServerError)
          else Step(updated, Done(ExpenseCreated(req, updated.products[req.productId])))
  }

  /** Any quantity, however large, is accepted for an existing product. */
  lemma ExpenseNeverRejectedForStock(st: Store, req: Expense)
    requires req.productId in st.products
    requires !ExpenseIdTaken(st.expenses, req.id)
    ensures CreateExpenses(st, req, NoFault).reply.Done?
  {
  }

  /**
   * The writes are not atomic: when the stock update throws, the expense
   * stays recorded although the request fails and the stock is unchanged.
   */
  lemma ExpenseRecordedWithoutStockUpdate(st: Store, req: Expense)
    requires req.productId in st.products
    requires !ExpenseIdTaken(st.expenses, req.id)
    ensures CreateExpenses(st, req, FailAt(2)).reply.ServerError?
    ensures CreateExpenses(st, req, FailAt(2)).store.expenses == st.expenses + [req]
    ensures CreateExpenses(st, req, FailAt(2)).store.products == st.products
  {
  }
}
