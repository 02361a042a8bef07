# kasir-api checkout, report and id-keyed collections in Dafny

This project models the decision logic of the kasir-api point-of-sale backend:

- **Checkout** (`TransactionRepository.CreateTransaction`): a cart of
  `(product_id, quantity)` items is walked in input order against the product
  table inside one database transaction. Each item is looked up (seeing the
  stock left by earlier items of the same cart), rejected if the product does
  not exist or its stock is exactly zero, charged `quantity × price`, and its
  stock decremented. A header with the summed total is inserted, the details
  are stamped with its id, and the whole unit commits; any error rolls back.
- **Sales report** (`ReportRepository.GetReport`): revenue, transaction count
  and best-selling product over a date window, which is `[start, end]` when
  both dates are given and the current day otherwise.
- **Id-keyed collections**: the product slice of the standalone server
  (`main.go`) and the categories slice (`handler/product_handler.go`), with
  get-first-by-id, replace-first-by-id, remove-first-by-id and
  append-with-id-`len+1`. Both are one generic module, `IdList`, instantiated
  by `ProdukApi` and `CategoriesApi`.
- **API-key middleware** (`middlewares/api_key.go`): missing key, wrong key,
  or pass.

Files: `wrappers.dfy` (Option/Result), `models.dfy` (record shapes),
`transaction_repository.dfy`, `report_repository.dfy`, `point_of_sale.dfy`
(the database as one state: checkout then report), `id_list.dfy`,
`produk_api.dfy`, `categories_api.dfy`, `api_key.dfy`.

Modelling choices:

- The database is a value: `Catalog = map<int, Product>` for `products`, a
  sequence of `SaleRecord` for `transactions` with their detail rows nested
  inside (the join on `transaction_id` is then structural, which is sound
  because the serial ids are unique). A checkout or a report is one atomic
  step over that value; rollback means the caller keeps the old value.
- The serial transaction id and the current date are parameters (`freshId`,
  `today`); dates are day numbers; an omitted report date is `None`.
- Path-id parsing (`strconv.Atoi`) and JSON decoding are given as their
  outcomes (`Option`, `None` = the parse or decode failed).
- `TotalRevenue` is a `float64` in the source; all totals are integers, so the
  model sums integers.
- The best-selling product query has no tie-break; `TopSeller` picks one
  deterministically but its contract (`IsTopOf`) only promises "a group that
  occurs, with its summed quantity, and no larger group".

Observations about the code that the model keeps as they are:

- A cart item is rejected only when the stock it sees is exactly zero; the
  code never compares the quantity with the stock, so stock can become
  negative (`TransactionRepository.OversellAccepted`).
- Neither an empty cart nor a non-positive quantity is rejected; an empty
  cart commits a transaction with total 0 (`EmptyCartSucceeds`).
- The product-name snapshot is not persisted; the report groups by the
  current product name, through an inner join with the current table.
- The top-product query has no tie-break.

## Model

| member | source | states |
|---|---|---|
| TransactionRepository.ProcessItems | repositories/transaction_repository.go:28-56 | on success, one detail per cart item in cart order carrying the item's product id and quantity, the name read at lookup and subtotal = quantity × price read at lookup; the total is the sum of the subtotals; the table is drained by exactly what the cart requests |
| TransactionRepository.OutcomeOfCart | repositories/transaction_repository.go:31-43 | the walk succeeds iff every item's product exists and the stock it sees (after earlier items of the same cart) is not zero; otherwise it fails with the error of the first item that fails |
| TransactionRepository.CreateTransaction | repositories/transaction_repository.go:17-89 | succeeds iff the cart is accepted; a failure names the first failing item (not found / sold out) and returns no table; on success the returned table is the drained one, the transaction carries the store's id, one detail per item stamped with that id, and a total equal to the sum of the detail subtotals |
| TransactionRepository.Stamp | repositories/transaction_repository.go:72-74 | every detail gets the transaction id and keeps everything else, so the sum of subtotals is unchanged |
| TransactionRepository.UnknownProductRejected | repositories/transaction_repository.go:31-34 | an item whose product does not exist, anywhere in the cart, makes the checkout fail |
| TransactionRepository.UntouchedProductUnchanged | repositories/transaction_repository.go:45 | a product no item asks for keeps its row (stock, name, price) after commit |
| TransactionRepository.EmptyCartSucceeds | repositories/transaction_repository.go:24-28 | an empty cart succeeds with total 0, no details and an unchanged table |
| TransactionRepository.SoldOutLaterInCart | repositories/transaction_repository.go:41-43 | a sold-out product after an already processed item rejects the whole cart with sold out |
| TransactionRepository.DrainedWithinCart | repositories/transaction_repository.go:41-45 | an earlier item that takes the last units makes a later item of the same product fail as sold out |
| TransactionRepository.OversellAccepted | repositories/transaction_repository.go:41-45 | a quantity larger than a non-zero stock is accepted and leaves the stock negative |
| ReportRepository.Selected | repositories/report_repository.go:26-33 | a transaction is kept iff it occurs in the input and its day lies in the window |
| ReportRepository.SelectedCounts | repositories/report_repository.go:26-33 | each transaction of the window is kept as often as it occurs, and no other transaction is kept |
| ReportRepository.WindowRule | repositories/report_repository.go:26-30 | the window is inclusive `[start, end]` when both dates are given and the current day otherwise |
| ReportRepository.OneDateIsIgnored | repositories/report_repository.go:27 | giving only one of the two dates yields the current-day report |
| ReportRepository.TodayIsSingleDayRange | handlers/report_handler.go:53-55 | the current-day report (the `/hari-ini` route passes no dates) equals the report of the range `[today, today]` |
| ReportRepository.DetailRows | repositories/report_repository.go:42-43 | one joined row per detail whose product still exists, carrying the current name and the detail's quantity, and every row is the joined row of some detail of the list; each name-group sums the quantities of the details sold under that name; empty iff no detail's product exists |
| ReportRepository.JoinRows | repositories/report_repository.go:39-44 | over all transactions of the window: one row per joinable detail with its current name and quantity, every row being the joined row of some detail of some window transaction, and each name-group's sum equals the summed quantity of the window's details sold under that name; empty iff no detail joins |
| ReportRepository.DetailOrigins | repositories/report_repository.go:42-43 | a detail list's first joined row followed by the joined rows of its later details are all joined rows of details of that list |
| ReportRepository.RowOrigins | repositories/report_repository.go:39-44 | the joined rows of the first transaction followed by those of the later transactions are all joined rows of details of the window's transactions |
| ReportRepository.GroupSumAppend | repositories/report_repository.go:41-44 | the `SUM(td.quantity)` of a group over two batches of rows is the sum of the two batches' sums |
| ReportRepository.TopIsHeaviestName | repositories/report_repository.go:39-46 | when some detail of the window joins, the top product's name is one some joinable detail of the window is sold under, its quantity is the summed quantity of the window's details sold under that name, and no name a joinable detail is sold under has a larger sum |
| ReportRepository.BestFrom | repositories/report_repository.go:44-46 | returns a group name occurring among the rows considered whose summed quantity no such group exceeds |
| ReportRepository.TopSeller | repositories/report_repository.go:39-51 | `("-", 0)` when there are no joined rows; otherwise an occurring group, its summed quantity, and no group larger |
| ReportRepository.GetReport | repositories/report_repository.go:16-64 | exactly one report; revenue is the sum of totals and count the number of the window's transactions; the top product is an admissible answer over the same window |
| ReportRepository.EmptyWindowReport | repositories/report_repository.go:32-51 | no transaction in the window gives revenue 0, count 0 and top product `("-", 0)` |
| ReportRepository.NoJoinableRowsSentinel | repositories/report_repository.go:48-51 | when no detail of the window joins with an existing product, the top product is `("-", 0)` |
| ReportRepository.MissingProductIgnored | repositories/report_repository.go:42-43 | removing every detail row of a product that no longer exists does not change the report (inner join; revenue comes from headers) |
| ReportRepository.RecordedSaleCounts | repositories/report_repository.go:32-33 | one more transaction adds its total to the revenue and one to the count of each window it falls in, and nothing otherwise |
| PointOfSale.Checkout | repositories/transaction_repository.go:22-88 | all or nothing: a failed checkout leaves the whole database unchanged; a successful one commits the drained table and appends exactly the new transaction, with the store's id, one detail per cart item carrying that item's product, name, quantity and price × quantity, and a total equal to the sum of those subtotals |
| PointOfSale.StoredDetails | repositories/transaction_repository.go:65-78 | one stored detail row per detail, with product id, quantity and subtotal and no name |
| PointOfSale.CheckoutInTodaysReport | repositories/report_repository.go:26-33 | after a successful checkout the same day's revenue grows by its total and the count by one |
| PointOfSale.CheckoutKeepsIdsUnique | repositories/transaction_repository.go:59-60 | a fresh serial id keeps the transaction ids unique |
| PointOfSale.SampleSession | repositories/transaction_repository.go:31-45 | three checkouts on a sample table: sold-out second item commits nothing, buying the whole stock costs 200 and leaves stock 0, a further purchase is rejected as sold out |
| IdList.FirstIndex | main.go:34-35 | the index of the first record with the id, or none when no record has it |
| IdList.Get | main.go:34-42 | the lookup returns the record at the first matching index, and nothing when no record matches |
| IdList.Replace | main.go:66-76 | only the first matching record is replaced, with its id forced to the path id; length and other records unchanged; no match, no change |
| IdList.Remove | main.go:89-102 | removes exactly the first matching record, the rest keep their order; no match, no change |
| IdList.Append | main.go:138-139 | appends one record at the end with id = old length + 1; earlier records unchanged |
| IdList.GetAfterReplace | main.go:66-69 | after replacing an existing id, looking it up yields the new record |
| IdList.ReplaceIdempotent | main.go:66-69 | replacing twice with the same record equals replacing once |
| IdList.RemoveDropsOne | main.go:89-92 | deleting an existing id shrinks the slice by one and removes exactly the first match's record |
| IdList.GetAfterAppend | main.go:138-139 | the new id finds the new record when it was unused, and otherwise still finds the older record holding it |
| IdList.HandleGet | main.go:26-43 | non-numeric id: 400; no match: 404; otherwise the first matching record |
| IdList.HandleUpdate | main.go:46-77 | non-numeric id or undecodable body: 400 and no change; no match: no change and no reply; otherwise the first match replaced by the body with the forced id, which is echoed |
| IdList.HandleDelete | main.go:79-103 | non-numeric id: 400 and no change; no match: no change and no reply; otherwise the first match removed and a success message |
| IdList.HandleCreate | main.go:128-144 | undecodable body: 400 and no change; otherwise the record appended with id = old length + 1 and echoed with 201 |
| ProdukApi.GetProdukByID | main.go:26-43 | "Invalid Produk ID" for a non-numeric id; "Produk tidak ditemukan" iff no product has the id; otherwise the first product with the id |
| ProdukApi.UpdateProduk | main.go:46-77 | "Invalid Produk ID" with no change for a non-numeric id; "Invalid request" with no change for an undecodable body; length unchanged; first match replaced and echoed with the path id, which is what a later lookup returns; no match, no change and no reply |
| ProdukApi.DeleteProduk | main.go:79-103 | "Invalid Produk ID" with no change for a non-numeric id; the first match is removed and the success message is sent iff the slice shrinks by one; no match, no change and no reply |
| ProdukApi.PostProduk | main.go:128-144 | a decoded product is appended with id = old length + 1 and echoed; an undecodable body changes nothing and gets "Invalid request" |
| ProdukApi.IdCollision | main.go:20-24 | from the initial slice, create, delete id 0 and create again leave two products with id 4 |
| CategoriesApi.GetCategoriesByID | handler/product_handler.go:19-34 | "Invalid Categories ID" for a non-numeric id; "Categories tidak ditemukan" iff no category has the id; otherwise the first category with the id |
| CategoriesApi.UpdateCategories | handler/product_handler.go:44-73 | "Invalid Categories ID" with no change for a non-numeric id; "Invalid request" with no change for an undecodable body; length unchanged; first match replaced and echoed with the path id; no match, no change and no reply |
| CategoriesApi.DeleteCategories | handler/product_handler.go:82-103 | "Invalid Categories ID" with no change for a non-numeric id; first match removed with "Categories berhasil dihapus"; no match, no change and no reply |
| CategoriesApi.PostCategories | handler/product_handler.go:112-125 | the decoded category is stored at the end with id = old length + 1, earlier categories unchanged, and echoed; an undecodable body changes nothing and gets "Invalid request" |
| CategoriesApi.IdCollision | handler/product_handler.go:120-121 | from `DataCategories`, deleting id 1 and creating hands out id 3, which an older category still holds |
| ApiKey.Gate | middlewares/api_key.go:6-24 | rejects "API Key Required" iff the header is empty, "Invalid API Key" iff it is non-empty and differs from the key, and calls the next handler iff it is non-empty and equals the key |
| ApiKey.EmptyKeyLocksOut | middlewares/api_key.go:11-19 | with an empty configured key no request passes |
| ApiKey.OnlyTheKeyPasses | middlewares/api_key.go:11-21 | any two headers that pass are both the configured key, which is non-empty |

## Left out

- Database and storage failures: `Begin`, query, `Exec`, `Prepare`, insert and
  `Commit` errors of both repositories abort with the driver's error; the model
  has no storage errors, so every modelled checkout or report either succeeds
  or fails for a reason of its own.
- Concurrency and isolation: a checkout and a report are each one atomic step;
  the report queries running on the pool instead of their own transaction are
  not modelled.
- Concurrent access to the in-memory slices: the package-level product slice
  (main.go:20, 92, 139) and the categories slice (handler/product_handler.go:95,
  121) are changed by concurrently running handlers without a lock; the model
  treats each request as one sequential step on the slice.
- Go's 64-bit `int`: quantities, prices, subtotals and totals are unbounded
  integers; overflow of `quantity * price` or of the total is not modelled.
- `CURRENT_DATE`, `DATE(created_at)` and the parsing of the date parameters: the
  day is a parameter and dates are day numbers; a non-empty date that the
  database cannot parse (an SQL error) is not modelled.
- The serial transaction id: a parameter; uniqueness is a hypothesis of
  `PointOfSale.CheckoutKeepsIdsUnique`.
- `strconv.Atoi` and JSON encoding/decoding: given as outcomes, as described
  above; the exact set of strings `Atoi` accepts is not modelled.
- HTTP routing and method dispatch, response headers, CORS, logging and the
  service layer of `handlers/`; the list-all endpoints only serialize the slice.
- ReportRepository.TopSeller: picks one maximal group; which of several tied
  groups the database returns is not determined by the query, so the contract
  does not say.
