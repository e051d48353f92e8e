/**
 * The records the server stores and the client displays, the server's
 * whole persistent state, and the shapes of a controller's outcome.
 *
 * Amounts (prices, totals) are whole cents; quantities are integers.
 */
module Domain {
  import opened Wrappers

  type ProductId = string

  /** A row of the products table (client type `Product`). */
  datatype Product = Product(
    productId: ProductId,
    name: string,
    price: int,
    rating: Option<int>,
    stockQuantity: int,
    description: Option<string>,
    dateid: Option<string>)

  /** A row of the sales table, with the seven columns `createSales` writes. */
  datatype Sale = Sale(
    saleId: string,
    productId: ProductId,
    timestamp: string,
    quantity: int,
    unitPrice: int,
    totalAmount: int,
    userid: string)

  /**
   * The nine-field ledger entry: the client's `SalesFormData` and
   * `ExpensesFormData` (where `id` is `saleId` or `expenseId`), and a row of
   * the expenses table, whose nine columns `createExpenses` copies verbatim.
   */
  datatype Entry = Entry(
    id: string,
    productId: ProductId,
    productName: string,
    quantity: int,
    unitPrice: int,
    totalAmount: int,
    description: string,
    userid: string,
    createdAt: string)

  type Expense = Entry

  /** The database: products keyed by id, and the two append-only ledgers. */
  datatype Store = Store(
    products: map<ProductId, Product>,
    sales: seq<Sale>,
    expenses: seq<Expense>)

  /**
   * Which storage call of a request throws, counting the awaited Prisma
   * calls of one controller invocation from 0; `NoFault` when none does.
   */
  datatype Fault = NoFault | FailAt(call: nat)

  /** The first `calls` storage calls of the request all return normally. */
  predicate Survives(fault: Fault, calls: nat) {
    fault.NoFault? || fault.call >= calls
  }

  /**
   * The HTTP outcome of a controller: `Done` is the 2xx reply with its body,
   * `NotFound` is 404, `InsufficientStock` is 400, `ServerError` is 500.
   */
  datatype Reply<+T> = Done(value: T) | NotFound | InsufficientStock | ServerError

  /** The store after a request together with the reply sent. */
  datatype Step<+T> = Step(store: Store, reply: Reply<T>)

  /** Every product is filed under its own id. */
  ghost predicate KeyedById(products: map<ProductId, Product>) {
    forall id :: id in products ==> products[id].productId == id
  }

  predicate SaleIdTaken(sales: seq<Sale>, saleId: string) {
    exists i :: 0 <= i < |sales| && sales[i].saleId == saleId
  }

  predicate ExpenseIdTaken(expenses: seq<Expense>, expenseId: string) {
    exists i :: 0 <= i < |expenses| && expenses[i].id == expenseId
  }

  ghost predicate SaleIdsUnique(sales: seq<Sale>) {
    forall i, j :: 0 <= i < j < |sales| ==> sales[i].saleId != sales[j].saleId
  }

  ghost predicate ExpenseIdsUnique(expenses: seq<Expense>) {
    forall i, j :: 0 <= i < j < |expenses| ==> expenses[i].id != expenses[j].id
  }

  /** The primary-key constraints of the three tables. */
  ghost predicate Valid(st: Store) {
    && KeyedById(st.products)
    && SaleIdsUnique(st.sales)
    && ExpenseIdsUnique(st.expenses)
  }

  /** `after` agrees with `before` on every key other than `id`. */
  ghost predicate SameExcept(before: map<ProductId, Product>, after: map<ProductId, Product>, id: ProductId) {
    forall k :: k != id ==> (k in after <==> k in before) && (k in before ==> after[k] == before[k])
  }

  /** Only the stock figure of product `id` changed, and it became `stock`. */
  ghost predicate StockOnlyChanged(before: map<ProductId, Product>, after: map<ProductId, Product>, id: ProductId, stock: int) {
    && id in before
    && id in after
    && after[id] == before[id].(stockQuantity := stock)
    && SameExcept(before, after, id)
  }

  /** Appending a sale with a fresh id keeps the sale ids distinct. */
  lemma AppendFreshSale(sales: seq<Sale>, s: Sale)
    requires SaleIdsUnique(sales)
    requires !SaleIdTaken(sales, s.saleId)
    ensures SaleIdsUnique(sales + [s])
  {
  }

  /** Appending an expense with a fresh id keeps the expense ids distinct. */
  lemma AppendFreshExpense(expenses: seq<Expense>, e: Expense)
    requires ExpenseIdsUnique(expenses)
    requires !ExpenseIdTaken(expenses, e.id)
    ensures ExpenseIdsUnique(expenses + [e])
  {
  }
}
