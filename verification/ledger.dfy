/**
 * Properties that relate several sale and expense requests: the stock
 * figure of a product against the two ledgers that record its movements.
 */
module Ledger {
  import opened Domain
  import SalesController
  import ExpensesController

  /** A POST to the sales or the expenses endpoint. */
  datatype Request = SaleRequest(sale: Sale) | ExpenseRequest(expense: Expense)

  /** One request served with every storage call returning normally. */
  function Serve(st: Store, req: Request): Store {
    match req
    case SaleRequest(s) => SalesController.CreateSales(st, s, NoFault).store
    case ExpenseRequest(e) => ExpensesController.CreateExpenses(st, e, NoFault).store
  }

  /** Requests served one after another, as the awaits within a request order them. */
  function Run(st: Store, reqs: seq<Request>): Store
    decreases |reqs|
  {
    if |reqs| == 0 then st else Run(Serve(st, reqs[0]), reqs[1..])
  }

  /** Units of product `id` recorded as sold. */
  function Sold(sales: seq<Sale>, id: ProductId): int
    decreases |sales|
  {
    if |sales| == 0 then 0
    else Sold(sales[..|sales| - 1], id) + (if sales[|sales| - 1].productId == id then sales[|sales| - 1].quantity else 0)
  }

  /** Units of product `id` recorded as restocked by expenses. */
  function Restocked(expenses: seq<Expense>, id: ProductId): int
    decreases |expenses|
  {
    if |expenses| == 0 then 0
    else Restocked(expenses[..|expenses| - 1], id) + (if expenses[|expenses| - 1].productId == id then expenses[|expenses| - 1].quantity else 0)
  }

  /**
   * Stock plus recorded sales minus recorded restocking: the opening stock
   * the ledgers imply for product `id`.
   */
  function Balance(st: Store, id: ProductId): int
    requires id in st.products
  {
    st.products[id].stockQuantity + Sold(st.sales, id) - Restocked(st.expenses, id)
  }

  lemma SoldAppend(sales: seq<Sale>, s: Sale, id: ProductId)
    ensures Sold(sales + [s], id) == Sold(sales, id) + (if s.productId == id then s.quantity else 0)
  {
    assert (sales + [s])[..|sales|] == sales;
  }

  lemma RestockedAppend(expenses: seq<Expense>, e: Expense, id: ProductId)
    ensures Restocked(expenses + [e], id) == Restocked(expenses, id) + (if e.productId == id then e.quantity else 0)
  {
    assert (expenses + [e])[..|expenses|] == expenses;
  }

  /** A request that runs to completion keeps every product's balance. */
  lemma ServeKeepsBalance(st: Store, req: Request, id: ProductId)
    requires id in st.products
    ensures id in Serve(st, req).products
    ensures Balance(Serve(st, req), id) == Balance(st, id)
  {
    match req
    case SaleRequest(s) =>
      var r := SalesController.CreateSales(st, s, NoFault);
      if r.reply.Done? { SoldAppend(st.sales, s, id); }
    case ExpenseRequest(e) =>
      var r := ExpensesController.CreateExpenses(st, e, NoFault);
      if r.reply.Done? { RestockedAppend(st.expenses, e, id); }
  }

  /**
   * Without storage failures, after any sequence of sales and expenses the
   * stock of a product equals its opening stock plus everything the expense
   * ledger added minus everything the sales ledger took.
   */
  lemma {:induction false} RunKeepsBalance(st: Store, reqs: seq<Request>, id: ProductId)
    requires id in st.products
    ensures id in Run(st, reqs).products
    ensures Balance(Run(st, reqs), id) == Balance(st, id)
    decreases |reqs|
  {
    if |reqs| > 0 {
      ServeKeepsBalance(st, reqs[0], id);
      RunKeepsBalance(Serve(st, reqs[0]), reqs[1..], id);
    }
  }

  /** A failed stock update after the insert breaks the balance by the sale's quantity. */
  lemma PartialSaleBreaksBalance(st: Store, s: Sale)
    requires s.productId in st.products
    requires s.quantity <= st.products[s.productId].stockQuantity
    requires !SaleIdTaken(st.sales, s.saleId)
    ensures s.productId in SalesController.CreateSales(st, s, FailAt(2)).store.products
    ensures Balance(SalesController.CreateSales(st, s, FailAt(2)).store, s.productId) == Balance(st, s.productId) + s.quantity
  {
    SoldAppend(st.sales, s, s.productId);
  }

  /** Selling q units and then restocking q units returns the stock to where it was. */
  lemma SaleThenExpenseRestoresStock(st: Store, s: Sale, e: Expense)
    requires s.productId == e.productId && s.quantity == e.quantity
    requires SalesController.CreateSales(st, s, NoFault).reply.Done?
    requires ExpensesController.CreateExpenses(SalesController.CreateSales(st, s, NoFault).store, e, NoFault).reply.Done?
    ensures e.productId in Run(st, [SaleRequest(s), ExpenseRequest(e)]).products
    ensures Run(st, [SaleRequest(s), ExpenseRequest(e)]).products == st.products
  {
    var mid := SalesController.CreateSales(st, s, NoFault).store;
    var end := ExpensesController.CreateExpenses(mid, e, NoFault).store;
    assert Run(st, [SaleRequest(s), ExpenseRequest(e)]) == Run(mid, [ExpenseRequest(e)]);
    assert Run(mid, [ExpenseRequest(e)]) == Run(end, []);
    assert end.products == st.products;
  }
}
