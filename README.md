# Inventory and orders service: a Dafny model

This project models the core of a small inventory and ordering system: a REST API over three
PostgreSQL tables (`products`, `orders`, `order_items`) and two pages of its web client.

- **Schema** (`Schema.dfy`): the three tables with their CHECK, UNIQUE and REFERENCES
  constraints, the INTEGER (int4) range of their columns, the SERIAL sequences, and the
  migrate and seed steps. The database is a class `Store`. Its fields are the tables, the
  next value of each sequence and a clock that stands in for `NOW()`.
- **Http** (`Http.dfy`): what a handler can throw, the JSON responses, and the shared error
  handler that turns a thrown value into a status and a body.
- **Orders** (`Orders.dfy`):
  - validation of an order body, and coalescing of repeated product ids;
  - the all-or-nothing placement of an order inside one transaction: lock, check stock,
    insert the order and its items, decrement stock, commit or roll back;
  - the order list with its totals, and the order detail.
- **Products** (`Products.dfy`):
  - search and sort of the product list, with PostgreSQL `ILIKE` modelled in `Like.dfy`;
  - create with a default stock;
  - a patch that sets only the fields given;
  - a delete refused while order items reference the product.
- **CreateOrderPage** (`CreateOrderPage.dfy`): the client-side cart. It covers add to cart,
  quantity updates bounded by stock, the totals, the order request the cart becomes, and the
  client-side search filter.
- **ProductsPage** (`ProductsPage.dfy`): the product table page as a class `Page` whose
  methods update its state fields. It covers sort headers, inline edits, delete and the
  create form.

Supporting modules:

- `Wrappers.dfy`: Option and Result.
- `Strings.dfy`: decimal rendering, ASCII lower-casing and substring search.
- `Sorting.dfy`: a stable sort by a column key, and ascending enumeration of integer keys
  (the order in which JavaScript lists an object's integer keys).

Where the code and the system's written description disagree, the model follows the code:

- A duplicate SKU on create is not reported as a conflict with its own message. The
  database error carries no status, so the error handler answers 500 with the generic
  message. The failed insert still consumes a value of the products id sequence.
- A repeated `order` query parameter reaches the handler as an array. `toLowerCase` then
  throws, and the client gets a 500. A repeated `sort` is simply not on the allow-list and
  falls back to `id`. A repeated `search` is spliced into the pattern with its elements
  joined by commas.

## Model

| member | source | states |
|---|---|---|
| Schema.Store.Migrate | api/src/db/migrate.ts:3-27 | Migrating a database without the tables creates the three tables empty, with every sequence at 1 and every constraint holding. |
| Schema.Store.MigrateAgain | api/src/db/migrate.ts:4-25 | Migrating a database whose tables exist keeps every row, every sequence and every constraint (`CREATE TABLE IF NOT EXISTS`). |
| Schema.Store.Seed | api/src/db/migrate.ts:29-49 | With any product present, seeding changes nothing. Otherwise the state becomes `Seeded`: the twelve rows, ids numbered on from the sequence. Either way the products table ends non-empty and the constraints still hold. |
| Schema.Store.Commit | api/src/routes/orders.ts:132 | COMMIT makes the state the transaction computed the database state, all columns and sequences at once. |
| Schema.SeededOk | api/src/db/migrate.ts:33-47 | Seeding an empty products table keeps every table constraint and leaves the table non-empty. |
| Schema.SeedRowsOk | api/src/db/migrate.ts:34-46 | Every seed row meets the products CHECK constraints, and no two seed rows share a SKU. |
| Schema.InsertOrSkip | api/src/db/migrate.ts:33-47 | `ON CONFLICT (sku) DO NOTHING` insert. Existing rows are untouched. Every new row is a seed row numbered from the first id. |
| Schema.InsertOrSkipUnique | api/src/db/migrate.ts:47 | The conflict-skipping insert never creates a duplicate SKU. |
| Schema.InsertOrSkipCovers | api/src/db/migrate.ts:47 | After the insert, every seed row's SKU is present, whether it was inserted now or was already there. |
| Schema.InsertOrSkipIntoEmpty | api/src/db/migrate.ts:33-47 | Into an empty table, rows with distinct SKUs are all inserted, with consecutive ids. |
| Schema.SeedTableOk | api/src/db/migrate.ts:33-47 | The seeded table meets the products constraints. |
| Schema.InsertSeedRows | api/src/db/migrate.ts:34-47 | The row-by-row insert loop computes exactly the conflict-skipping insert. |
| Schema.OrdersOkLater | api/src/db/migrate.ts:14-17 | A later clock keeps the orders table's timestamps valid. |
| Schema.ItemsOkWider | api/src/db/migrate.ts:19-25 | Adding orders, products or item numbers never breaks an order_items reference. |
| Http.ErrorHandler | api/src/middleware/errorHandler.ts:9-28 | A body is a validation body iff the error is a validation error, and then the status is 400 with "Validation error" and one detail per issue. An Error takes its own status, or 500 by default. Below 500 its message is shown; from 500 up the body is "Internal server error". Anything that is not an Error gives 500. |
| Http.Details | api/src/middleware/errorHandler.ts:13 | One detail per issue, in order, holding the issue's dotted path and its message. |
| Http.DatabaseErrorsAreOpaque | api/src/middleware/errorHandler.ts:18-22 | An error without a status, as every database error is, reaches the client as a bare 500 with the generic message. |
| Http.NestedPathIsDotted | api/src/middleware/errorHandler.ts:13 | A nested issue path such as items, 12, qty is reported as "items.12.qty". |
| Orders.LineIssues | api/src/routes/orders.ts:8-11 | No issues iff every line has a positive product id and a positive quantity. Every issue carries the "greater than 0" message. |
| Orders.RequestIssues | api/src/routes/orders.ts:7-12 | No issues iff the body is valid. An empty items array gives exactly the minimum-length issue. |
| Orders.Coalesced | api/src/routes/orders.ts:80-89 | Coalesced lines have strictly ascending product ids. A product id appears iff the request names it. Each line's quantity is the total requested for that product. |
| Orders.ValuesAreCoalesced | api/src/routes/orders.ts:80 | Listing the accumulator object's values, integer keys ascending, gives the coalesced lines. |
| Orders.Coalesce | api/src/routes/orders.ts:80-89 | The reduce loop over the items, with its accumulator, computes exactly `Coalesced`. |
| Orders.CoalescedWeighted | api/src/routes/orders.ts:80-89 | Any per-product weighted sum of quantities is the same before and after coalescing. |
| Orders.CoalescedQty | api/src/routes/orders.ts:80-89 | Each product's requested total is the same before and after coalescing. |
| Orders.CoalescedDependsOnTotalsOnly | api/src/routes/orders.ts:80-89 | Two requests with the same products and the same per-product totals coalesce to the same lines. |
| Orders.SameTotalsSameOutcome | api/src/routes/orders.ts:72-141 | Two valid requests with the same per-product totals get the same decision. When accepted, they commit the same state. |
| Orders.RepeatedLinesMerge | api/src/routes/orders.ts:82-86 | Lines of 2 and 3 for one product coalesce into one line of 5. |
| Orders.RepeatedLinesActAsOne | api/src/routes/orders.ts:72-141 | Ordering 2 and then 3 of a product is decided and committed exactly as ordering 5. |
| Orders.CoalescedSingle | api/src/routes/orders.ts:80-89 | A single line coalesces to itself. |
| Orders.FirstRejection | api/src/routes/orders.ts:100-111 | There is no rejection iff every line's product exists with enough stock. A rejection is an Error with status 404 or 409. |
| Orders.FirstRejectionAt | api/src/routes/orders.ts:100-111 | When every line before line j passes and line j does not, the rejection is line j's: 404 for an unknown product, 409 for short stock. |
| Orders.CheckStock | api/src/routes/orders.ts:100-111 | The checking loop finds exactly the first rejection. |
| Orders.Admit | api/src/routes/orders.ts:75-96 | Parse, coalesce and bind the ids, as the function `Admission` does: the validation error, the INTEGER binding error, or the coalesced lines. |
| Orders.Decide | api/src/routes/orders.ts:75-111 | An accepted request is valid, its lines are the coalesced lines, and every line passes the stock check. |
| Orders.RejectionStatus | api/src/routes/orders.ts:75-111 | A rejected order is answered 400, 404, 409 or 500, and it is 400 iff the body is invalid. |
| Orders.AcceptedOnlyWhenStocked | api/src/routes/orders.ts:100-111 | An accepted order names only existing products whose stock covers the quantity requested of them. |
| Orders.AcceptedWhenStocked | api/src/routes/orders.ts:100-111 | A valid request whose products all exist, bind and are stocked is accepted. |
| Orders.AcceptedIff | api/src/routes/orders.ts:72-111 | An order is accepted iff the body is valid and every named product binds as INTEGER, exists, and holds at least its requested total. |
| Orders.AcceptedStockSuffices | api/src/routes/orders.ts:105-109 | After an accepted order, every product's requested quantity lies between 0 and its stock. |
| Orders.StockAfterOk | api/src/routes/orders.ts:126-129 | After an accepted order's decrements the catalog still meets every products constraint; in particular no stock is negative. |
| Orders.NewLinesOk | api/src/routes/orders.ts:119-125 | The new order_items rows meet their constraints, reference the new order and existing products, and keep item ids increasing. |
| Orders.StockIsConserved | api/src/routes/orders.ts:119-130 | Each product's new stock plus the quantity recorded for it in the new lines equals its old stock. |
| Orders.UnrequestedUntouched | api/src/routes/orders.ts:126-129 | A product the order does not name keeps its row unchanged. |
| Orders.StockAfterCoalesced | api/src/routes/orders.ts:119-130 | Decrementing along the coalesced lines is the same as decrementing by the whole request. |
| Orders.AddOrderOk | api/src/routes/orders.ts:114-116 | Inserting the new order row keeps the orders table valid. |
| Orders.FirstRejectionAgrees | api/src/routes/orders.ts:98-111 | Two catalogs that agree on the requested products give the same first rejection. |
| Orders.LockedAgrees | api/src/routes/orders.ts:92-111 | Checking against the locked rows gives the same answer as checking against the whole catalog. |
| Orders.LockedPrices | api/src/routes/orders.ts:119-125 | The item rows priced from the locked rows are those priced from the catalog. |
| Orders.WriteLines | api/src/routes/orders.ts:119-130 | The insert-and-decrement loop writes exactly the item rows `OrderLines` and the catalog `StockAfter`. |
| Orders.PlacementOk | api/src/routes/orders.ts:113-132 | Placing an accepted order keeps every table constraint. |
| Orders.Fulfil | api/src/routes/orders.ts:113-130 | The writes of an order whose lines all pass produce exactly the state `Placed`. |
| Orders.Transaction | api/src/routes/orders.ts:74-137 | A rejection rolls back (nothing to commit) and answers through the error handler. An acceptance commits `Placed` and answers 201 with the new order's id and timestamp. |
| Orders.PlaceOrder | api/src/routes/orders.ts:72-141 | The order is all-or-nothing. A rejection leaves the store unchanged. An acceptance answers 201 with the new order's id (the next value of its sequence) and its `created_at`, and moves the store to `Placed`. |
| Orders.OversellIsRejected | api/src/routes/orders.ts:105-109 | Asking for 4 of a product with 3 in stock is refused with 409, naming the product and the 3 available. |
| Orders.SecondOrderSeesTheFirst | api/src/routes/orders.ts:100-130 | Against a stock of 5, a first order of 3 is placed and leaves 2. A second order of 3 is then refused with 409. |
| Orders.BigTicketStoreOk | api/src/db/migrate.ts:5-12 | The big-ticket example catalog meets every table constraint. |
| Orders.BigOrderIsPlaced | api/src/routes/orders.ts:100-132 | Buying the big-ticket product's whole stock is accepted and leads to the stated state. |
| Orders.GetOrder | api/src/routes/orders.ts:35-69 | 200 iff the id binds and the order exists, with the order row and item views that all name catalog products. 404 "Order not found" iff the id binds and the order is absent. A non-binding id goes to the error handler. |
| Orders.ViewsInCatalog | api/src/routes/orders.ts:48-59 | Every joined item view names a product in the catalog. |
| Orders.ViewsTotalIsOrderTotal | api/src/routes/orders.ts:61-63 | Summing qty times price over the joined item views gives the order's total over its rows, when every item's product exists. |
| Orders.DetailTotal | api/src/routes/orders.ts:61-65 | In a valid store the detail's total is the sum of qty times purchase price over the order's items. |
| Orders.TotalsSurviveCatalogChanges | api/src/routes/orders.ts:48-63 | Changing prices or stock, or adding products, never changes an order's detail total. |
| Orders.NewestFirst | api/src/routes/orders.ts:23-26 | Every order appears exactly once, with `created_at` non-increasing. |
| Orders.Summaries | api/src/routes/orders.ts:17-27 | One summary per order, in the listing's order. |
| Orders.ListOrdersSpec | api/src/routes/orders.ts:15-32 | The corrected listing has one entry per order, newest first. Every order's summary is in it. Every entry is an existing order, with its total and item count summed over that order's items. |
| Orders.ListOrdersAsWritten | api/src/routes/orders.ts:17-27 | The listing as written answers 500 iff some order's line product (qty times price), total or item count leaves the INTEGER range. Otherwise it is the corrected listing. |
| Orders.ListingOverflowAfterBigOrder | api/src/routes/orders.ts:21 | After the big order, the listing as written answers 500 while the detail shows 3000000000 cents and the corrected listing answers 200. |
| Products.SafeSort | api/src/routes/products.ts:27-28 | The sort column is always on the allow-list. It is the requested value when that is on the list, and `id` otherwise. |
| Products.SafeOrder | api/src/routes/products.ts:25-29 | A repeated parameter throws. Otherwise DESC iff the value lower-cases to "desc". |
| Products.Where | api/src/routes/products.ts:32-33 | Exactly the rows whose name or SKU matches the pattern, in scan order: rows that all match are kept as they are, a single row is kept iff it matches, and no row is repeated that was not repeated before. |
| Products.WhereAppend | api/src/routes/products.ts:32-33 | The WHERE clause filters row by row: filtering a concatenation is the concatenation of the filtered parts, so the kept rows keep their relative order. |
| Products.PatternStorable | api/src/routes/products.ts:35 | The `%search%` parameter holds a NUL iff the search does. |
| Products.ListProductsFails | api/src/routes/products.ts:23-41 | The listing answers 500 iff `order` is repeated or the search holds a NUL character. |
| Products.ListProductsSpec | api/src/routes/products.ts:23-41 | Otherwise it answers 200 with exactly the catalog's products whose name or SKU matches `%search%`, sorted on the safe column in the safe direction; when the catalog is keyed by id, no id is listed twice, so each match appears exactly once. |
| Products.ListProductsSorts | api/src/routes/products.ts:28-40 | A listing that is not refused answers 200 with the rows the WHERE clause keeps from the id-ordered scan, ordered by the safe column in the safe direction. |
| Products.ListedOnce | api/src/routes/products.ts:32-34 | Any reordering of the rows the scan keeps, from a catalog keyed by id, lists each id at most once. |
| Products.PlainSearchIsSubstring | api/src/routes/products.ts:31-36 | For a search without `%`, `_` or backslash, a product is listed iff its name or SKU contains the search, ignoring case. |
| Products.CreateIssues | api/src/routes/products.ts:8-13 | No issues iff name and SKU are non-empty, the price is a non-negative integer and any stock given is non-negative. Issues carry only the two schema messages. |
| Products.InsertedOk | api/src/routes/products.ts:47-53 | Inserting a valid, bindable product with a fresh SKU keeps every constraint, and its stock defaults to 0 when absent. |
| Products.SkuClashOk | api/src/routes/products.ts:47-52 | A refused insert that only consumed a sequence value keeps every constraint. |
| Products.CreateProduct | api/src/routes/products.ts:44-57 | An invalid body gives 400 with nothing changed. An unbindable value gives 500 with nothing changed. A taken SKU gives 500, and only the id sequence advances. Otherwise the answer is 201 with the new row, and the store gains exactly that row. |
| Products.PatchIssues | api/src/routes/products.ts:15-20 | No issues iff the patch is valid. A patch with neither field gives exactly the root-level "At least one of" issue. |
| Products.SetClauses | api/src/routes/products.ts:65-75 | At most two SET clauses, and at least one for a valid patch. Each clause sets a field the patch gives, to the value it gives. Applying them is patching the row. |
| Products.ApplyInOrder | api/src/routes/products.ts:68-79 | Setting price, then stock, as the clauses do, is patching the row. |
| Products.PatchedOk | api/src/routes/products.ts:78-81 | Patching an existing row with a valid, bindable patch keeps every constraint. |
| Products.PatchProduct | api/src/routes/products.ts:60-91 | An invalid patch gives 400. A value or id that cannot bind gives 500. An absent id gives 404 "Product not found". In each of these the store is unchanged. Otherwise the answer is 200 with the patched row, and only that row changes. |
| Products.RemovedOk | api/src/routes/products.ts:108 | Deleting an unreferenced product keeps every constraint. |
| Products.DeletedIsNotListed | api/src/routes/products.ts:108 | After the delete, no listing shows a product with that id. |
| Products.DeleteProduct | api/src/routes/products.ts:94-117 | An id that cannot bind gives 500. A product referenced by an order item gives 409. An absent id gives 404. In each of these the store is unchanged. Otherwise the answer is 204 and exactly that product is removed. |
| Like.EndsInPercentParses | api/src/routes/products.ts:35 | A pattern ending in `%` is always accepted by ILIKE. |
| Like.SubstringSearch | api/src/routes/products.ts:33-35 | `%s%` for a plain `s` matches exactly the texts containing `s`, ignoring case. |
| Like.SearchPatternTokens | api/src/routes/products.ts:35 | `%s%` for a plain `s` reads as a run, the letters of `s`, and a run. |
| Like.SearchTokensMatch | api/src/routes/products.ts:33 | A run, the letters of `s` and a run match exactly the texts containing `s`, ignoring case. |
| Like.UnderscoreMatchesAnything | api/src/routes/products.ts:35 | An underscore typed into the search is a wildcard: `%_%` matches every non-empty text. |
| Sorting.SortBy | api/src/routes/products.ts:34 | ORDER BY yields a permutation of the rows, sorted by the column in the requested direction. |
| Sorting.SortByMembers | api/src/routes/products.ts:34 | Sorting keeps the length and exactly the same rows. |
| Sorting.AscendingKeys | api/src/routes/orders.ts:80 | The integer keys of an object are listed strictly ascending, each exactly once. |
| Sorting.ValuesByKey | api/src/routes/products.ts:32 | The table scan lists every row exactly once. |
| Sorting.ValuesByKeyNoRepeats | api/src/routes/products.ts:32 | A table holding no row under two keys is scanned without repeats. |
| Sorting.NoRepeatsPermutation | api/src/routes/products.ts:34 | ORDER BY, a permutation, introduces no repeated row. |
| Strings.IntToString | api/src/routes/orders.ts:103 | The rendered number is non-empty and starts with `-` iff the number is negative. |
| Strings.DecimalValue | api/src/routes/orders.ts:107 | The decimal rendering of a natural number reads back as that number. |
| CreateOrderPage.AddToCart | web/src/pages/CreateOrderPage.tsx:32-43 | The product's quantity grows by one while below its stock and stays put otherwise. An entry exists afterwards iff it existed or the product is in stock. Other entries are untouched, and the old keys keep their order. |
| CreateOrderPage.AddToCartKeepsCartOk | web/src/pages/CreateOrderPage.tsx:36-40 | Adding keeps the cart invariant: distinct keys, and every quantity between 1 and the product's stock. |
| CreateOrderPage.SetQty | web/src/pages/CreateOrderPage.tsx:45-56 | A quantity of 0 or less removes the entry. A positive quantity sets an existing entry to the smaller of it and the stock, and leaves a missing entry missing. Other entries are untouched. |
| CreateOrderPage.SetQtyKeepsCartOk | web/src/pages/CreateOrderPage.tsx:45-56 | Setting a quantity keeps the cart invariant. A positive quantity keeps the key order. |
| CreateOrderPage.SumOverWithout | web/src/pages/CreateOrderPage.tsx:49-60 | A sum over the cart lines loses exactly the deleted line. |
| CreateOrderPage.SetQtyTotals | web/src/pages/CreateOrderPage.tsx:45-60 | Every quantity change moves the item total by the change in that line's quantity and the cents total by that change times the product's price; removing a line subtracts it whole. |
| CreateOrderPage.RemoveLineTotals | web/src/pages/CreateOrderPage.tsx:48-60 | Removing a line lowers the item total by its quantity and the cents total by its amount. |
| CreateOrderPage.CapLineTotals | web/src/pages/CreateOrderPage.tsx:51-60 | Setting an existing line's quantity moves the totals by the change in that quantity, times the price for the cents total. |
| CreateOrderPage.Set | web/src/pages/CreateOrderPage.tsx:37-39 | `Map.set` updates the entry. A new key is appended after the existing keys. |
| CreateOrderPage.Without | web/src/pages/CreateOrderPage.tsx:49 | The key list without one key: exactly the other keys, still distinct, unchanged when the key is absent. |
| CreateOrderPage.WithoutAppend | web/src/pages/CreateOrderPage.tsx:49 | Dropping a key from a concatenation drops it from each part, keeping their order. |
| CreateOrderPage.Delete | web/src/pages/CreateOrderPage.tsx:49 | `Map.delete` removes exactly that key and its entry, keeps the remaining keys distinct, and changes no key list that lacks the key. |
| CreateOrderPage.DeleteKeepsOrder | web/src/pages/CreateOrderPage.tsx:49 | `Map.delete` closes the gap: the keys before and after the deleted one keep their insertion order. |
| CreateOrderPage.AddToCartTotals | web/src/pages/CreateOrderPage.tsx:58-60 | Adding to the cart raises the item total by the quantity added, and the cents total by that quantity times the price. |
| CreateOrderPage.OrderPayload | web/src/pages/CreateOrderPage.tsx:62-69 | An empty cart sends nothing. Otherwise the request has one line per cart entry, in cart order. |
| CreateOrderPage.PayloadIsValid | web/src/pages/CreateOrderPage.tsx:67-69 | A non-empty valid cart sends a body the order schema accepts, requesting for each product exactly its cart quantity. |
| CreateOrderPage.CartWithinStockIsAccepted | web/src/pages/CreateOrderPage.tsx:62-69 | A cart whose products all still exist, bind, and hold their stock is accepted by the server. |
| CreateOrderPage.Filtered | web/src/pages/CreateOrderPage.tsx:28-30 | A product is shown iff the search is empty or its lower-cased name or SKU contains the lower-cased search. Products that are all shown, including under an empty search, keep the list as it is; a single product is kept iff shown. |
| CreateOrderPage.FilteredAppend | web/src/pages/CreateOrderPage.tsx:28-30 | `Array.filter` works element by element: filtering a concatenation is the concatenation of the filtered parts, in order. |
| CreateOrderPage.ClientFilterAgreesWithServer | web/src/pages/CreateOrderPage.tsx:28-30 | For a plain search, the client filter over the whole catalog shows exactly the products the server's search lists. |
| ProductsPage.Page.constructor | web/src/pages/ProductsPage.tsx:12-26 | The page starts empty, sorted by id ascending, with no edit, no pending delete, a blank hidden form and no errors. |
| ProductsPage.Page.HandleSort | web/src/pages/ProductsPage.tsx:43-46 | Clicking the current column flips the direction. Clicking another column sorts by it ascending. Nothing else changes. |
| ProductsPage.Page.StartEdit | web/src/pages/ProductsPage.tsx:170 | A cell opens for editing only when no edit is open. Nothing else changes. |
| ProductsPage.Page.CommitEdit | web/src/pages/ProductsPage.tsx:48-64 | With no edit, nothing happens. A NaN or negative value closes the edit and sends nothing. Otherwise it sends a patch of just the edited field. Success replaces that product and closes the edit. Failure shows the error and keeps the edit open. |
| ProductsPage.Page.HandleDelete | web/src/pages/ProductsPage.tsx:66-77 | Given the answer as the client decodes it: success drops the product from the table and clears the confirmation; failure shows the error and changes nothing else. |
| ProductsPage.Page.HandleCreate | web/src/pages/ProductsPage.tsx:79-96 | A product is sent iff name and SKU are non-empty and the price parses to a non-negative number. Otherwise the form error is shown. Success prepends the product, resets the form and hides it. Failure shows the server's message. |
| ProductsPage.EditPatch | web/src/pages/ProductsPage.tsx:56 | The patch gives exactly the edited field. It is valid for a non-negative value, and applying it sets just that field. |
| ProductsPage.ReplaceById | web/src/pages/ProductsPage.tsx:57 | Same length; rows with the edited id become the updated product and all others are kept. |
| ProductsPage.RemoveById | web/src/pages/ProductsPage.tsx:70 | A product remains iff it was there and its id differs; a list without that id is unchanged, and a single product is kept iff its id differs. |
| ProductsPage.RemoveByIdAppend | web/src/pages/ProductsPage.tsx:70 | `Array.filter` works element by element: removing from a concatenation removes from each part, in order. |
| ProductsPage.RequestAsWritten | web/src/api/client.ts:3-11 | The client's `request` parses the body before the status: it succeeds iff the status is 2xx and there is a body, and an empty body always fails with the JSON parse error. |
| ProductsPage.Request | web/src/api/client.ts:3-11 | The intended `request` succeeds iff the status is 2xx, yields the body, fails with the body's `error`, and agrees with the written one on every non-empty body. |
| ProductsPage.DeleteRejectedAsWritten | web/src/api/client.ts:8 | As written, the 204 a successful delete answers is decoded as a failure, and the row the page keeps no longer mirrors the catalog. |
| ProductsPage.DeleteConfirmed | web/src/pages/ProductsPage.tsx:70 | With the intended client the 204 is a success, and dropping the row keeps the page mirroring the catalog. |
| ProductsPage.ReplaceKeepsMirror | web/src/pages/ProductsPage.tsx:57 | After a successful patch, the page's rows still mirror the server's catalog. |
| ProductsPage.RemoveKeepsMirror | web/src/pages/ProductsPage.tsx:70 | After a successful delete, the page's rows still mirror the server's catalog. |
| ProductsPage.PrependKeepsMirror | web/src/pages/ProductsPage.tsx:90 | After a successful create, the page's rows still mirror the server's catalog. |
| ProductsPage.HeaderSortIsHonoured | web/src/pages/ProductsPage.tsx:153-157 | Every sortable header's column is on the server's allow-list, so the server sorts by it. |
| ProductsPage.DirectionIsHonoured | web/src/pages/ProductsPage.tsx:32 | The page's asc or desc reaches the server as that direction. |
| ProductsPage.FormCheckLeavesStockToServer | web/src/pages/ProductsPage.tsx:82-89 | A form that passes the client check is valid for the server whenever the stock it sends is non-negative. The client does not check the stock. |

## Left out

- Concurrency is left out. Row locks (`FOR UPDATE`), interleaved transactions and the
  connection pool are not modelled. Each request runs alone against the state it starts from.
- `console.error` logging, `client.release()` and the Express wiring (`index.ts`) are not
  part of this model. Of the HTTP client (`client.ts`) only the way `request` decodes an
  answer is modelled; `fetch` itself is not.
- Floating point is left out. The client's `parseFloat(x) * 100` rounding and `parseInt` of
  form text are not modelled. The parsed number (or NaN) is an input of the page methods.
- `parseInt` of the `:id` path segment is left out. The route parameter is an input: a
  number or NaN.
- JSON typing is left out. A body field that is null, a string or a fraction is not
  modelled. Bodies are already-decoded integers. A NaN stock sent by the create form is not
  modelled either.
- JavaScript number precision above 2^53 is not modelled. The detail total is an exact
  integer.
- Non-ASCII case folding is left out. `toLowerCase` and ILIKE lower-case only ASCII letters
  here, with no locale rules.
- Express's nested query objects (`?order[a]=b`) are not modelled. A query value is absent,
  a string, or an array of strings.
- Ties under ORDER BY, and the row order of the detail join, are unspecified in PostgreSQL.
  The model picks a stable sort over an ascending-id scan, and table order.
- SERIAL exhaustion is not modelled: the sequences are unbounded.
- `NOW()` is a store clock that ticks once per stamping statement; wall-clock time is not
  modelled.
- React rendering, the loading, saving and deleting flags, and the CSS classes are left out.
  The `load` callback's refetch is not modelled.
- Sorting.SortBy: text compares by code point, as under PostgreSQL's "C" collation. Under
  another database collation (such as en_US.UTF-8, where "apple" sorts before "Banana") the
  order of `name` and `sku` differs; the collation is a property of the database, not of the
  code.
- Products.ListProductsSpec: its sortedness holds for the code-point order above, so only
  under the "C" collation for the text columns.
- Orders.PlaceOrder: the handler is modelled as a method taking the store, not as a route
  registered on a router.

## Findings

| source | as written | input that shows it | evidently intended | confidence | as-written member | corrected member |
|---|---|---|---|---|---|---|
| web/src/api/client.ts:3-11 | A successful DELETE answers 204 with an empty body (`api/src/routes/products.ts:113`). The client's `request` calls `res.json()` before looking at the status, and that rejects on an empty body. So `handleDelete` always lands in its catch branch: it shows a JSON parse error and keeps the deleted row on the page. | Confirm the delete of a product that no order references. | An empty 2xx answer counts as success: the row leaves the table and the confirmation closes. | not executed | ProductsPage.RequestAsWritten, ProductsPage.DeleteRejectedAsWritten | ProductsPage.Request, ProductsPage.DeleteConfirmed |
| api/src/routes/orders.ts:21-22 | The order list computes `qty * price_at_purchase` in INTEGER and casts each order's sum back to `::int`. An order worth more than 2147483647 cents makes the whole GET /orders fail with 500, although POST accepted it and GET /orders/:id shows it. | A product at 100000 cents with 30000 in stock. POST an order for all 30000, then GET /orders. | List every order with its exact total, computed in bigint or numeric. | not executed | Orders.ListOrdersAsWritten, Orders.ListingOverflowAfterBigOrder | Orders.ListOrdersSpec |
