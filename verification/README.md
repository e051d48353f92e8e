# Inventory ledger model

A Dafny model of the stock-keeping core of a small inventory, sales and
expenses application (an Express + Prisma server and a React client).

The server keeps:

- a table of products, keyed by `productId`;
- two append-only ledgers, sales and expenses.

The model's state is `Domain.Store`: a finite map of products plus two
sequences. Each controller is a pure transition from one `Store` to a
`Step`, the new store together with a tagged reply: `Done` (2xx),
`NotFound` (404), `InsufficientStock` (400) or `ServerError` (500).

- Recording a sale (`createSales`) checks that the product exists and has
  enough stock. It then appends the sale and lowers the stock.
- Recording an expense (`createExpenses`) appends the expense and raises
  the stock. It has no stock check.
- The product controllers list by name substring, create, delete and
  overwrite products.

A storage failure is an explicit input, `Fault`. `FailAt(k)` means the
k-th awaited Prisma call of the request throws. The controllers run their
calls one after another with no transaction, so a failure part-way
through leaves the earlier writes in place. The model keeps this
behaviour, and `Ledger.PartialSaleBreaksBalance` shows what it costs: the
recorded sales no longer account for the stock.

On the client, the model covers these pure rules, using the same datatypes:

- the create-sale dialog: its change handler, the product-name, unit-price
  and total derivations, and the stock guard;
- the create-expense dialog: its change handler, the product-name lookup,
  and a submit with no guard;
- the sales page's date filter;
- the inventory page's list of edited rows.

Five behaviours of the code, all modelled as written:

- Stock is adjusted by separate storage calls, with no transaction and no
  retry.
- A duplicate product id on create gives a 500.
- An update of an absent product gives a 500.
- Search uses Prisma's default `contains`; whether it ignores case depends
  on the database collation, and the model matches case-sensitively.
- Nothing checks that the total amount equals quantity times unit price.

## Model

| member | source | states |
|---|---|---|
| Text.ContainsIffOccurs | server/src/controllers/productController.ts:12-18 | the substring test used for `contains` holds exactly when the search text occurs at some position of the field |
| Text.AbsentSearchIsEmptySearch | server/src/controllers/salesController.ts:8-15 | an absent `search` query parameter selects the same rows as an empty one: every row |
| Seqs.Filter | client/src/app/sales/page.tsx:74 | `Array.filter` keeps every occurrence of each element that passes the test and no occurrence of one that fails (equal multiplicities), so it keeps only passing elements and adds nothing |
| Seqs.FilterIsSubsequence | client/src/app/inventory/page.tsx:27 | filtering preserves the relative order of the kept elements |
| Seqs.FilterKeepsAll | client/src/app/sales/page.tsx:73-75 | a filter every element passes returns its input unchanged |
| SalesController.GetSales | server/src/controllers/salesController.ts:6-20 | returns exactly the sales whose saleId contains the search text; with no search, all sales |
| SalesController.GetSalesKeepsOrder | server/src/controllers/salesController.ts:9-15 | the model lists the matching sales as a subsequence of the ledger, in recording order |
| SalesController.CreateSales | server/src/controllers/salesController.ts:22-78 | 404 exactly for an unknown product and 400 exactly for stock below the quantity, both writing nothing; success exactly when all calls return, the stock suffices and the saleId is fresh, and then the request's sale is appended once, that product's stock becomes old minus quantity, all other products are unchanged, and the reply carries the stored product; a 500 from the lookup, the insert or a taken saleId writes nothing; a throw at the stock write keeps the sale and leaves the stock; a throw at the read-back keeps both writes; in every outcome at most this sale is appended, the stock moves only after the sale is recorded and only to old minus quantity, expenses never change, and the key constraints are preserved |
| SalesController.SaleKeepsStockNonNegative | server/src/controllers/salesController.ts:38-63 | a successful sale never takes a non-negative stock below zero |
| SalesController.SellingAllStockLeavesZero | server/src/controllers/salesController.ts:38-59 | a quantity equal to the stock is accepted and leaves exactly zero |
| SalesController.SaleRecordedWithoutStockUpdate | server/src/controllers/salesController.ts:44-76 | when the stock update throws after the insert, the reply is 500 but the sale stays recorded and the stock is unchanged |
| ExpensesController.GetExpenses | server/src/controllers/expensesController.ts:6-20 | returns exactly the expenses whose expenseId contains the search text; with no search, all expenses |
| ExpensesController.GetExpensesKeepsOrder | server/src/controllers/expensesController.ts:9-15 | the model lists the matching expenses as a subsequence of the ledger, in recording order |
| ExpensesController.CreateExpenses | server/src/controllers/expensesController.ts:24-76 | 404 exactly for an unknown product, writing nothing; never a stock rejection; success exactly when all calls return and the expenseId is fresh, and then the request's nine fields are appended once, that product's stock becomes old plus quantity, all other products are unchanged, and the reply carries the stored product; a 500 from the lookup, the insert or a taken expenseId writes nothing; a throw at the stock write keeps the expense and leaves the stock; a throw at the read-back keeps both writes; the stock moves only after the expense is recorded and only to old plus quantity |
| ExpensesController.ExpenseNeverRejectedForStock | server/src/controllers/expensesController.ts:29-61 | any quantity on an existing product is accepted |
| ExpensesController.ExpenseRecordedWithoutStockUpdate | server/src/controllers/expensesController.ts:40-75 | when the stock update throws after the insert, the reply is 500 but the expense stays recorded and the stock is unchanged |
| ProductController.GetProducts | server/src/controllers/productController.ts:6-23 | returns exactly the stored products whose name contains the search text, unchanged; with no search, all products |
| ProductController.CreateProduct | server/src/controllers/productController.ts:25-45 | inserts and returns a product carrying the request's id, name, price, rating, stock and dateid; a taken id or a storage failure is a 500 with the store unchanged |
| ProductController.DeleteProduct | server/src/controllers/productController.ts:48-69 | a present id is removed, the other products are untouched, and the reply is 204; an absent id is a 404 and a storage failure a 500, both with the store unchanged |
| ProductController.DeleteTwice | server/src/controllers/productController.ts:55-64 | deleting the same id twice succeeds and then gives 404 |
| ProductController.CreateThenDeleteRestores | server/src/controllers/productController.ts:30-58 | deleting a freshly created product restores the previous store |
| InventoryController.UpdateProduct | server/src/controllers/inventoryController.ts:7-30 | on an existing id, sets name, price, rating, stock and description to the request's values, keeps the key and dateid, leaves the other products unchanged, and returns the stored product; on an absent id, a 500 with the store unchanged |
| InventoryController.NegativeStockAccepted | server/src/controllers/inventoryController.ts:11-23 | a negative stock figure is stored as given |
| InventoryController.UpdateIdempotent | server/src/controllers/inventoryController.ts:13-23 | repeating the same update changes nothing further |
| Ledger.ServeKeepsBalance | server/src/controllers/expensesController.ts:40-61 | a completed sale or expense keeps stock + recorded sales − recorded restocking constant for every product |
| Ledger.RunKeepsBalance | server/src/controllers/salesController.ts:44-63 | without storage failures, after any sequence of sales and expenses a product's stock equals its opening stock plus recorded restocking minus recorded sales |
| Ledger.PartialSaleBreaksBalance | server/src/controllers/salesController.ts:44-63 | a stock update failing after the insert leaves the sales ledger one sale of `quantity` ahead of the stock |
| Ledger.SaleThenExpenseRestoresStock | server/src/controllers/expensesController.ts:57-61 | a sale of q followed by an expense of q on the same product leaves every product as it was |
| Catalog.FindProduct | client/src/app/sales/CreateSalesModal.tsx:72-74 | `find` returns the first product in the list with the given id, and returns nothing exactly when no product has it |
| Form.Assign | client/src/app/expenses/CreateExpensesModal.tsx:48-54 | a change event sets only the named field: to the parsed number for a numeric field, otherwise to the text |
| Form.SelectProduct | client/src/app/sales/CreateSalesModal.tsx:125-134 | the product select sets only productId and leaves the error message as it was |
| SalesModal.Initial | client/src/app/sales/CreateSalesModal.tsx:31-44 | the dialog opens with the generated id and time, zero quantity, a consistent total and no error |
| SalesModal.HandleChange | client/src/app/sales/CreateSalesModal.tsx:46-60 | updates only the named field, parsing quantity and unit price; clears the error message exactly when the field is productId or quantity |
| SalesModal.TotalEffect | client/src/app/sales/CreateSalesModal.tsx:63-68 | after the effect, totalAmount = quantity × unitPrice and no other field changed |
| SalesModal.ProductEffect | client/src/app/sales/CreateSalesModal.tsx:71-80 | name and unit price become those of the first matching product, or "" and 0 when none matches; no other field changes |
| SalesModal.SettleIsStable | client/src/app/sales/CreateSalesModal.tsx:62-80 | once both effects have run, neither changes the form again, and the total is quantity times the selected price |
| SalesModal.HandleSubmit | client/src/app/sales/CreateSalesModal.tsx:82-103 | submission is blocked, with the insufficient-stock message and no call to onCreate, exactly when a matching product exists and the quantity exceeds its stock; otherwise the form is sent unchanged, and the dialog closes with no error or stays open with the failure message |
| SalesModal.ExactStockSubmits | client/src/app/sales/CreateSalesModal.tsx:90 | a quantity equal to the stock passes the guard |
| SalesModal.UnknownProductSubmits | client/src/app/sales/CreateSalesModal.tsx:86-97 | with no matching product loaded, the stock check is skipped and the form is sent |
| SalesModal.GuardAgreesWithServer | client/src/app/sales/CreateSalesModal.tsx:86-93 | when the loaded list shows the stored stock, the dialog blocks exactly the sales the server would reject with 400 |
| ExpensesModal.Initial | client/src/app/expenses/CreateExpensesModal.tsx:31-44 | the dialog opens with the generated id and time, zero amounts and no error |
| ExpensesModal.HandleChange | client/src/app/expenses/CreateExpensesModal.tsx:46-60 | updates only the named field, parsing quantity, unit price and total; clears the error message exactly when the field is productId or quantity |
| ExpensesModal.ProductEffect | client/src/app/expenses/CreateExpensesModal.tsx:62-70 | the product name becomes that of the first matching product, or "" when none matches; unit price, total and every other field are untouched |
| ExpensesModal.ProductEffectIdempotent | client/src/app/expenses/CreateExpensesModal.tsx:62-70 | running the lookup effect again changes nothing |
| ExpensesModal.HandleSubmit | client/src/app/expenses/CreateExpensesModal.tsx:72-84 | the form always reaches onCreate unchanged, whatever its quantity; the dialog closes with no error or stays open with the failure message |
| SalesPage.FilterByDate | client/src/app/sales/page.tsx:73-75 | an empty date returns the rows unchanged; otherwise exactly the rows whose createdAt starts with the date are kept |
| SalesPage.FilterByDateKeepsOrder | client/src/app/sales/page.tsx:74 | the filtered rows are a subsequence of the loaded rows |
| SalesPage.EmptyDateIsPlainFilter | client/src/app/sales/page.tsx:73-75 | the empty-date shortcut agrees with the prefix filter itself |
| InventoryPage.ApplyEdit | client/src/app/inventory/page.tsx:18 | the edited column takes the new value; every other column, the id and dateid keep theirs |
| InventoryPage.EditCell | client/src/app/inventory/page.tsx:14-21 | keeps the length of editRows; rows with another id are unchanged, and rows with the edited id get the edit |
| InventoryPage.Save | client/src/app/inventory/page.tsx:23-31 | removes every row with the saved id and keeps all other rows |
| InventoryPage.SaveKeepsOrder | client/src/app/inventory/page.tsx:27 | the rows remaining after a save are in their original order |
| InventoryPage.EditRowsStayEmpty | client/src/app/inventory/page.tsx:12-31 | editRows starts empty and no sequence of edits and saves ever makes it non-empty, so a cell edit never has an effect |

## Left out

- Express and Prisma plumbing: request parsing, JSON replies and logging. Prisma calls become map and sequence operations, and HTTP statuses become `Reply` variants.
- Routing and server bootstrap. Only the dashboard and products routers are mounted (server/src/index.ts:43-44), so the sales, expenses and inventory handlers are unreachable in the deployed server. The model covers the handlers themselves.
- Concurrent requests. Each request is one sequential transition, so the lost update between the stock read and the stock write of two interleaved sales is not represented. The code has no locking, transaction or retry, so neither does the model.
- Floating point. Prices and amounts are whole cents (`int`), and a product's rating, a JavaScript number, is an optional `int`. `parseFloat` is the parameter `parse`, and NaN is not represented.
- The inventory route's `parseInt` of the path id. The id is taken as an already-converted store key. The client's `Product` type declares `productId` as a number, but every other use compares it with strings, so the model uses strings throughout.
- Read failures. A throwing `findMany` gives a 500 in the get handlers; the get functions model only the successful query.
- The database schema is not part of this model. The model assumes saleId, expenseId and productId are primary keys, so a duplicate insert throws and is reported as a 500. A foreign-key refusal to delete a product that sales still reference is not modelled.
- Omitted request fields. In Prisma an `undefined` field leaves the column unchanged. The model's requests always carry every field.
- The request field mismatch. The sale dialog sends `createdAt`, but `createSales` reads `timestamp`. The client form and the server request are separate types in the model.
- Result order of `getProducts`. It is modelled as a map keyed by id, so the storage order of the rows is not represented.
- Case sensitivity of `contains` depends on the database collation. The model matches case-sensitively.
- SalesController.GetSalesKeepsOrder: the model lists rows in recording order. `findMany` has no `orderBy`, so the database does not guarantee any order.
- ExpensesController.GetExpensesKeepsOrder: the model lists rows in recording order. `findMany` has no `orderBy`, so the database does not guarantee any order.
- UUID and clock values (`v4()`, `new Date()`). They are parameters of the `Initial` functions.
- The timezone-dependent date filter of the expenses page, the random product images, React rendering and effect scheduling, DataGrid configuration, and RTK Query caching. These are presentation, not inventory logic.
- SalesModal.HandleChange: requires the field not to be `totalAmount`. The dialog renders that control read-only, so no change event carries its name. If one did, the source would store the raw text in a numeric field, which the typed form cannot hold.
- Catalog.FindProduct: a product list that has not loaded yet (`products` undefined) is modelled as the empty list. The two behave identically in both dialogs.
