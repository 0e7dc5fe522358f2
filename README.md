# POS ledger, catalogue and sale pages — a Dafny model

This project models the point-of-sale application's sale-recording core.

- **Ledger.** The transaction controller's `store` and `update` validate a cart, price it, apply the tiered discount, write a header and one line item per cart entry, and move stock. `update` first credits back the old lines and deletes them.
- **Stock primitives.** The `Product` model's `isAvailable`, `decreaseStock` and `increaseStock`.
- **Catalogue and registry.** The product and customer controllers' validation rules, delete guards, `can_delete` flags and searches.
- **Sale pages.** The client-side carts of the point-of-sale page and the new-transaction form, with their totals and submit guards.

The database is a class `Schema.Database`. It has one map per table (keyed by the auto-increment id), the line-item table as a sequence in insertion order, and the three next-id counters. Its constructor gives the empty database: empty tables and every counter at 1. Its `Valid()` says two things:

- every stored id is below its counter;
- the tables are consistent. Every foreign key resolves. Every line is well formed (qty ≥ 1, subtotal = price × qty). Every header agrees with the lines it owns (subtotal = their sum, discount = the tier discount, total = subtotal − discount).

Every controller method keeps `Valid()`. Each loop of the controller is a `method` with a `while` loop. It is proved against a specification function:

- `Ledger.Subtotal` for the pricing loop;
- `Ledger.Lines` and `Ledger.Sell` for the write loop;
- `Ledger.Restock` for the credit-back loop.

Lemmas then prove the promised properties about those functions: stock equations, round trips and agreement between client and server.

Money is an exact `real` and stock an unbounded `int`. The pages' React state becomes a class (`PosRegister.Register`, `TransactionForm.Form`) whose methods replace the state with pure `map`/`filter` transitions. Those transitions are functions, and lemmas prove what they preserve.

Behaviours of the code as written that the model keeps, each shown by a lemma:

- `store` and `update` decrement stock with no sufficiency check, so stock can go negative (`Ledger.OversellAllowed`).
- Consequently `increaseStock(q)` followed by `decreaseStock(q)` succeeds and restores the row exactly when the stock was not already negative (`ProductModel.RestockThenSell`).
- The customer `update` checks `full_name` and `phone` uniqueness against every row, the edited one included. So resubmitting a customer's unchanged name or phone is refused (`Registry.UpdateRejectsUnchanged`).
- The point-of-sale page's manual discount is never sent to the server. The total the page shows is at most the total `store` records (`PosRegister.ManualDiscountOnlyOnScreen`).

## Model

| member | source | states |
|---|---|---|
| Pricing.Discount | app/Http/Controllers/TransactionController.php:73-78 | the discount is 0 exactly at or below 500,000; for a non-negative subtotal it lies between 0 and 15 %; above 500,000 it is at least 10 % |
| Pricing.Total | app/Http/Controllers/TransactionController.php:80 | total + discount = subtotal; for a non-negative subtotal, 85 % of it ≤ total ≤ subtotal, so the total is never negative |
| Pricing.DiscountTiers | app/Http/Controllers/TransactionController.php:73-78 | for a positive subtotal: 15 % iff above 1,000,000; 10 % iff in (500,000, 1,000,000]; 0 iff at most 500,000 |
| Pricing.TierBoundaries | app/Http/Controllers/TransactionController.php:74-76 | the boundaries are exclusive: 500,000 gets nothing, 1,000,000 gets 10 %, one above each gets the next tier |
| Pricing.TotalDropsAcrossTier | app/Http/Controllers/TransactionController.php:73-80 | crossing a tier boundary lowers the total paid |
| Schema.OwnedBy | app/Http/Controllers/TransactionController.php:128 | every returned row carries the transaction's id, and there are at most as many as in the table; Schema.OwnedByExactly gives completeness |
| Schema.OwnedByExactly | app/Http/Controllers/TransactionController.php:128 | `$transaction->items` is exact: a row is returned iff it is in the item table and carries the transaction's id |
| Schema.Without | app/Http/Controllers/TransactionController.php:136 | after deleting a transaction's items no remaining row carries its id; Schema.WithoutExactly gives which rows stay |
| Schema.WithoutExactly | app/Http/Controllers/TransactionController.php:136 | the delete keeps a row iff it is in the table and does not carry the transaction's id |
| Schema.OwnedByAppend | app/Http/Controllers/TransactionController.php:93-98 | the items a transaction owns in a concatenated table are its items in each part, in order |
| Schema.OwnedByWithout | app/Http/Controllers/TransactionController.php:136 | deleting t's items leaves t with none and every other transaction with exactly its old items |
| ProductModel.IsAvailable | app/Models/Product.php:35-38 | no contract of its own: stock > 0, pinned by ProductModel.AvailableAfterSale, ProductModel.AvailableAfterCreditBack and the availability clauses of ProductModel.DecreaseStock and ProductModel.IncreaseStock |
| ProductModel.AvailableAfterSale | app/Models/Product.php:35-38 | after a recorded sale a product is available iff its stock exceeded the quantity sold |
| ProductModel.AvailableAfterCreditBack | app/Models/Product.php:35-38 | after `update` credits back old lines a product is available iff its stock plus the credited quantity is positive |
| ProductModel.DecreaseStock | app/Models/Product.php:43-50 | returns true iff stock ≥ qty; then that row's stock is stock − qty and no longer negative, and it stays available iff stock > qty; otherwise nothing changes; no other row or table changes |
| ProductModel.IncreaseStock | app/Models/Product.php:55-58 | unconditionally adds qty to that row's stock; a positive qty makes a row with non-negative stock available; nothing else changes |
| ProductModel.RestockThenSell | app/Models/Product.php:43-58 | increase then decrease by q succeeds and restores the table exactly when the stock was not negative; otherwise the stock stays raised by q |
| Ledger.ItemErrors | app/Http/Controllers/TransactionController.php:63-64 | entry j is reported for its product iff the product does not exist, for its qty iff qty < 1; no errors iff every entry passes |
| Ledger.RequestErrors | app/Http/Controllers/TransactionController.php:60-65 | no errors iff the request is valid; the customer is reported iff given and unknown; the items iff empty; each entry's fields as above |
| Ledger.Subtotal | app/Http/Controllers/TransactionController.php:67-71 | with non-negative prices and quantities the subtotal is non-negative |
| Ledger.QtyOf | app/Http/Controllers/TransactionController.php:90-101 | a product absent from the cart has total quantity 0; non-negative quantities give a non-negative total |
| Ledger.Lines | app/Http/Controllers/TransactionController.php:90-98 | one line item per cart entry |
| Ledger.Pairs | app/Http/Controllers/TransactionController.php:128-133 | the (product, qty) pairs of stored lines, position by position |
| Ledger.Sell | app/Http/Controllers/TransactionController.php:100 | decrementing stock keeps the set of products |
| Ledger.Restock | app/Http/Controllers/TransactionController.php:128-133 | crediting back keeps the set of products |
| Ledger.LinesAt | app/Http/Controllers/TransactionController.php:93-98 | line k records entry k's product and qty, the product's current price, and subtotal = price × qty |
| Ledger.SellAt | app/Http/Controllers/TransactionController.php:90-101 | after the sale each product's stock is down by its total quantity in the cart, repeats included, with no lower bound; its other fields are unchanged |
| Ledger.RestockAt | app/Http/Controllers/TransactionController.php:128-133 | after the credit-back each product's stock is up by its total quantity in the old lines |
| Ledger.SellKeepsPrices | app/Http/Controllers/TransactionController.php:100 | selling changes no price |
| Ledger.RestockKeepsPrices | app/Http/Controllers/TransactionController.php:131 | crediting back changes no price |
| Ledger.LinesTotalIsSubtotal | app/Http/Controllers/TransactionController.php:67-98 | the header subtotal equals the sum of the line subtotals |
| Ledger.PairsOfLines | app/Http/Controllers/TransactionController.php:93-98 | the stored lines record exactly the submitted (product, qty) pairs, in order |
| Ledger.PricesOnly | app/Http/Controllers/TransactionController.php:139-143 | lines and subtotal depend on prices only, so pricing after the credit-back gives the same result |
| Ledger.OwnedByLines | app/Http/Controllers/TransactionController.php:93-98 | the new lines belong to their transaction and to no other |
| Ledger.OwnedByNone | app/Http/Controllers/TransactionController.php:82-88 | a fresh transaction owns no existing line |
| Ledger.ReapplyKeepsStock | app/Http/Controllers/TransactionController.php:128-174 | crediting back a cart and selling it again restores every row |
| Ledger.UpdateRoundTrip | app/Http/Controllers/TransactionController.php:128-174 | updating from cart I1 to I2 and back to I1 restores every row |
| Ledger.OversellAllowed | app/Http/Controllers/TransactionController.php:100 | selling 2 of a product with stock 1 leaves stock −1 |
| Ledger.RepeatedEntriesAccumulate | app/Http/Controllers/TransactionController.php:90-101 | two entries for the same product decrement it by both quantities |
| Ledger.SaleKeepsConsistent | app/Http/Controllers/TransactionController.php:82-101 | a recorded sale keeps every foreign key resolved, every line well formed and every header balanced |
| Ledger.UpdateKeepsConsistent | app/Http/Controllers/TransactionController.php:128-174 | a recorded update keeps the tables consistent, whatever the new stock levels |
| Ledger.UpdateReferential | app/Http/Controllers/TransactionController.php:136-174 | after an update every line's transaction and product exist and every given customer exists |
| Ledger.UpdateLedgered | app/Http/Controllers/TransactionController.php:136-174 | after an update every line is well formed and every header agrees with the lines it owns |
| Ledger.UpdateBalanced | app/Http/Controllers/TransactionController.php:139-160 | after an update the rewritten header agrees with its new lines and every other header with its old ones |
| Ledger.UpdatedOwnership | app/Http/Controllers/TransactionController.php:136-171 | after an update t owns exactly its new lines and every other transaction its old ones |
| Ledger.WithoutKeepsRows | app/Http/Controllers/TransactionController.php:136 | the rows a delete keeps still resolve and stay well formed |
| Ledger.UpdateStock | app/Http/Controllers/TransactionController.php:128-174 | after an update each stock is old + old quantity − new quantity; an unchanged cart leaves every row as it was |
| Ledger.PriceCart | app/Http/Controllers/TransactionController.php:67-71 | the loop's subtotal is Σ price × qty over the entries |
| Ledger.RecordLines | app/Http/Controllers/TransactionController.php:90-101 | the loop appends exactly the lines of the cart and leaves the product table as after selling the cart; nothing else changes |
| Ledger.Store | app/Http/Controllers/TransactionController.php:58-105 | fails iff the request is invalid, reporting every failing field and writing nothing; otherwise it writes a fresh header with the tier pricing, one line per entry, and each stock down by its quantity; the transaction counter moves on by one; customers unchanged; the invariant is kept |
| Ledger.CreditBack | app/Http/Controllers/TransactionController.php:128-133 | the loop leaves the product table as after crediting back the old lines; rows of deleted products are skipped |
| Ledger.Update | app/Http/Controllers/TransactionController.php:118-178 | NotFound for an unknown transaction, the field errors for an invalid request, with nothing written; otherwise the old lines are replaced by the new ones, the header is re-priced with its user kept, each stock is old + old qty − new qty, and an unchanged cart leaves stock unchanged; the invariant is kept |
| Ledger.Rewrite | app/Http/Controllers/TransactionController.php:136-174 | deletes the old lines, re-prices the header and records the new lines at the pre-credit prices |
| Ledger.UpdateTwice | app/Http/Controllers/TransactionController.php:118-178 | updating a transaction to other entries and back to its own restores every stock |
| Catalogue.ProductErrors | app/Http/Controllers/ProductController.php:62-67 | each field is reported exactly when its rule fails: code blank, over 100 or used by another row; name blank or over 255; price < 0; stock < 0; none iff acceptable |
| Catalogue.ItemCount | app/Http/Controllers/ProductController.php:39 | the count is the number of line items that refer to the product (so at most the number of lines) |
| Catalogue.Referenced | app/Http/Controllers/ProductController.php:116 | no contract of its own: some line item refers to the product; Catalogue.CanDeleteAgreesWithGuard ties it to the flag and Catalogue.Destroy refuses exactly when it holds |
| Catalogue.CanDelete | app/Http/Controllers/ProductController.php:39 | no contract of its own: the item count is 0; pinned by Catalogue.CanDeleteAgreesWithGuard |
| Catalogue.CanDeleteAgreesWithGuard | app/Http/Controllers/ProductController.php:39 | `can_delete` (count = 0) holds exactly when the guard of `destroy` (some item exists) does not fire |
| Catalogue.Store | app/Http/Controllers/ProductController.php:60-74 | fails iff a rule fails, with the errors and nothing written; otherwise inserts the row under the next id; the catalogue invariant and the database invariant are kept |
| Catalogue.Update | app/Http/Controllers/ProductController.php:89-108 | NotFound for an unknown id; otherwise fails iff a rule fails (the row's own code allowed); on success overwrites every field, stock included |
| Catalogue.Destroy | app/Http/Controllers/ProductController.php:113-125 | refuses (HasHistory, nothing changes) iff some line item refers to the product; otherwise removes exactly that row |
| Catalogue.InsertKeepsInvariant | app/Http/Controllers/ProductController.php:62-69 | an accepted new product under a fresh id keeps codes unique and prices non-negative |
| Catalogue.OverwriteKeepsInvariant | app/Http/Controllers/ProductController.php:91-103 | an accepted edit keeps codes unique and prices non-negative |
| Catalogue.KeepOwnCode | app/Http/Controllers/ProductController.php:96 | when editing, the product's own code never counts as taken, though it does for a new product |
| Catalogue.StoreRejectsTakenCode | app/Http/Controllers/ProductController.php:63 | a new product reusing an existing code is refused on that field |
| Catalogue.StockMovesKeepInvariant | app/Http/Controllers/TransactionController.php:100-131 | sales and credit-backs keep codes unique and prices non-negative |
| Catalogue.Search | app/Http/Controllers/ProductController.php:130-148 | at most 10 rows, each from the table, in stock, and with the term in its name or code |
| Catalogue.SearchComplete | app/Http/Controllers/ProductController.php:134-145 | with at most 10 matches, every matching in-stock row is returned; otherwise the first 10 matches |
| Catalogue.EmptyTermKeepsAll | app/Http/Controllers/ProductController.php:134-140 | an empty term filters nothing, like no term |
| Registry.StoreErrors | app/Http/Controllers/CustomerController.php:53-57 | each field is reported exactly when its rule fails: name blank, over 255 or taken; phone blank, over 20 or taken; email given and malformed or taken |
| Registry.UpdateErrors | app/Http/Controllers/CustomerController.php:109-113 | as for store, with the email required and checked against every customer but this one |
| Registry.Referenced | app/Http/Controllers/CustomerController.php:125 | no contract of its own: some transaction names the customer; Registry.CanDeleteAgreesWithGuard ties it to the flag and Registry.Destroy refuses exactly when it holds |
| Registry.CanDelete | app/Http/Controllers/CustomerController.php:36 | no contract of its own: the customer's set of transactions is empty; pinned by Registry.CanDeleteAgreesWithGuard |
| Registry.CanDeleteAgreesWithGuard | app/Http/Controllers/CustomerController.php:36 | `can_delete` (no transactions counted) holds exactly when the `destroy` guard does not fire |
| Registry.Store | app/Http/Controllers/CustomerController.php:51-64 | fails iff a rule fails, writing nothing; otherwise inserts the row under the next id; uniqueness and the database invariant are kept |
| Registry.StoreFromTransaction | app/Http/Controllers/CustomerController.php:66-86 | the same rules and insert, handing back the new id and the row as stored |
| Registry.Update | app/Http/Controllers/CustomerController.php:107-120 | NotFound for an unknown id; otherwise fails iff a rule fails; on success overwrites the row |
| Registry.Destroy | app/Http/Controllers/CustomerController.php:122-136 | refuses (HasHistory, nothing changes) iff some transaction names the customer; otherwise removes exactly that row |
| Registry.InsertKeepsInvariant | app/Http/Controllers/CustomerController.php:53-59 | an accepted new customer keeps names, phones and given emails unique |
| Registry.OverwriteKeepsInvariant | app/Http/Controllers/CustomerController.php:109-115 | an accepted edit keeps names, phones and given emails unique |
| Registry.UpdateRejectsUnchanged | app/Http/Controllers/CustomerController.php:110-112 | resubmitting a customer's own name and phone is refused on both fields; their own email is not a clash |
| Registry.EmailRequiredOnlyOnUpdate | app/Http/Controllers/CustomerController.php:56-112 | a missing email passes `store` but fails `update` |
| Registry.Index | app/Http/Controllers/CustomerController.php:12-44 | no contract of its own: the rows the search keeps, in the given row order; pinned by Registry.IndexLists |
| Registry.IndexLists | app/Http/Controllers/CustomerController.php:17-24 | a filled search lists exactly the rows whose name, phone or email contains it; otherwise the whole table in order |
| Client.EmptySearchMatches | resources/js/pages/Pos/Index.tsx:51 | an empty search box matches every name |
| Client.MatchIgnoresCase | resources/js/pages/Pos/Index.tsx:51 | the name match is insensitive to the case of either side |
| PosRegister.FilteredProducts | resources/js/pages/Pos/Index.tsx:49-54 | no contract of its own: pinned by PosRegister.FilteredProductsExactly |
| PosRegister.FilteredProductsExactly | resources/js/pages/Pos/Index.tsx:49-54 | the list holds exactly the products whose name matches, with stock > 0, not already in the cart |
| PosRegister.Added | resources/js/pages/Pos/Index.tsx:82-92 | one more item with quantity 1, amount = price and the stock as cap; earlier items unchanged |
| PosRegister.Removed | resources/js/pages/Pos/Index.tsx:118-120 | every item left is from the cart and has another id; PosRegister.RemoveKeepsInvariant adds that every item with another id stays |
| PosRegister.Updated | resources/js/pages/Pos/Index.tsx:96-116 | quantity ≤ 0 removes the item; otherwise that item gets min(quantity, cap) and amount = new quantity × price, every other item unchanged |
| PosRegister.AddKeepsInvariant | resources/js/pages/Pos/Index.tsx:49-92 | adding a listed product keeps ids unique, 1 ≤ quantity ≤ cap and amount = quantity × price |
| PosRegister.RemoveKeepsInvariant | resources/js/pages/Pos/Index.tsx:118-120 | removal keeps the cart invariant and leaves exactly the items with other ids |
| PosRegister.UpdateKeepsInvariant | resources/js/pages/Pos/Index.tsx:96-116 | every quantity change keeps the cart invariant |
| PosRegister.Subtotal | resources/js/pages/Pos/Index.tsx:57 | with non-negative item amounts the subtotal is non-negative; PosRegister.SubtotalMatchesServer ties it to the server's |
| PosRegister.AutoDiscount | resources/js/pages/Pos/Index.tsx:60 | no contract of its own: pinned by PosRegister.AutoDiscountIsServerDiscount |
| PosRegister.ManualDiscount | resources/js/pages/Pos/Index.tsx:61 | no contract of its own: subtotal × percent / 100; pinned by PosRegister.AppliedDiscount and PosRegister.ManualDiscountOnlyOnScreen |
| PosRegister.AutoDiscountIsServerDiscount | resources/js/pages/Pos/Index.tsx:59-60 | the page's tier discount equals the server's at every subtotal |
| PosRegister.AppliedDiscount | resources/js/pages/Pos/Index.tsx:61-62 | the discount shown is the larger of the tier and the manual discount |
| PosRegister.Total | resources/js/pages/Pos/Index.tsx:64 | the definition only (subtotal − applied discount); the property is carried by PosRegister.ManualDiscountOnlyOnScreen |
| PosRegister.Change | resources/js/pages/Pos/Index.tsx:65 | the change is non-negative iff the payment covers the total |
| PosRegister.ManualDiscountOnlyOnScreen | resources/js/pages/Pos/Index.tsx:57-65 | the total shown is at most the server's total, equal iff the manual discount does not exceed the tier discount |
| PosRegister.Payload | resources/js/pages/Pos/Index.tsx:149-152 | the cart as (product_id, qty) pairs, in order |
| PosRegister.CheckoutOutcome | resources/js/pages/Pos/Index.tsx:129-153 | refuses an empty cart, then a missing customer (id 0), then a payment below the total; otherwise posts the customer and the pairs |
| PosRegister.SubtotalMatchesServer | resources/js/pages/Pos/Index.tsx:57 | with current prices the subtotal shown equals `store`'s subtotal for the posted items |
| PosRegister.SubmittedRequestIsValid | resources/js/pages/Pos/Index.tsx:129-153 | a posted request passes `store`'s validation while its ids exist |
| PosRegister.Register.constructor | resources/js/pages/Pos/Index.tsx:36-45 | empty cart, no discount, no payment, no customer |
| PosRegister.Register.AddToCart | resources/js/pages/Pos/Index.tsx:82-94 | appends the new item, clears the search, keeps the invariant |
| PosRegister.Register.UpdateQuantity | resources/js/pages/Pos/Index.tsx:96-116 | replaces the cart by its updated form and keeps the invariant |
| PosRegister.Register.RemoveFromCart | resources/js/pages/Pos/Index.tsx:118-120 | drops the item and keeps the invariant |
| PosRegister.Register.ClearCart | resources/js/pages/Pos/Index.tsx:122-126 | empties the cart and zeroes discount and payment |
| PosRegister.Register.SetDiscount | resources/js/pages/Pos/Index.tsx:320 | records the manual percentage only |
| PosRegister.Register.SelectCustomer | resources/js/pages/Pos/Index.tsx:381-384 | records the selected customer only |
| PosRegister.Register.OpenPayment | resources/js/pages/Pos/Index.tsx:171-175 | fills in the exact total, so checkout is not refused for the payment |
| PosRegister.Register.SetSearchProduct | resources/js/pages/Pos/Index.tsx:202 | records the search text only |
| PosRegister.Register.SetPayment | resources/js/pages/Pos/Index.tsx:426 | records the payment only |
| PosRegister.Register.ProcessTransaction | resources/js/pages/Pos/Index.tsx:129-153 | the checkout outcome of the current state; a posted cart is non-empty, has a customer and non-negative change |
| PosRegister.Register.Completed | resources/js/pages/Pos/Index.tsx:156-159 | after success the cart is cleared and the customer forgotten |
| TransactionForm.CustomerName | resources/js/pages/Transactions/Create.tsx:44-46 | full_name when non-empty, else name when non-empty, else the empty string |
| TransactionForm.FilteredProducts | resources/js/pages/Transactions/Create.tsx:49-55 | no contract of its own: pinned by TransactionForm.FilteredProductsExactly |
| TransactionForm.FilteredProductsExactly | resources/js/pages/Transactions/Create.tsx:49-55 | exactly the products whose name matches, with stock > 0, not already listed |
| TransactionForm.FilteredCustomers | resources/js/pages/Transactions/Create.tsx:58-64 | no contract of its own: pinned by TransactionForm.FilteredCustomersExactly |
| TransactionForm.FilteredCustomersExactly | resources/js/pages/Transactions/Create.tsx:58-64 | exactly the customers whose name or phone contains the search, ignoring case; an empty search keeps all |
| TransactionForm.Added | resources/js/pages/Transactions/Create.tsx:75-87 | one more line with qty 1, amount = price; earlier lines unchanged |
| TransactionForm.Removed | resources/js/pages/Transactions/Create.tsx:113-115 | every line left is from the list and belongs to another product; TransactionForm.RemoveKeepsInvariant adds that every other product's line stays |
| TransactionForm.Updated | resources/js/pages/Transactions/Create.tsx:90-110 | qty ≤ 0 removes the product; otherwise its line gets min(qty, stock) and amount = price × qty, others unchanged |
| TransactionForm.TypedQty | resources/js/pages/Transactions/Create.tsx:332 | the qty box's fallback to 1: the quantity passed on is never 0, and any typed non-zero number is passed unchanged |
| TransactionForm.TypingZeroKeepsLine | resources/js/pages/Transactions/Create.tsx:332 | typing 0 keeps the line at qty 1 with amount = price; a non-negative number keeps every line; only a negative number removes the product |
| TransactionForm.AddKeepsInvariant | resources/js/pages/Transactions/Create.tsx:49-87 | adding a listed product keeps one line per product, 1 ≤ qty ≤ stock and amount = price × qty |
| TransactionForm.RemoveKeepsInvariant | resources/js/pages/Transactions/Create.tsx:113-115 | removal keeps the invariant and leaves exactly the lines of other products |
| TransactionForm.UpdateKeepsInvariant | resources/js/pages/Transactions/Create.tsx:90-110 | every quantity change keeps the invariant |
| TransactionForm.Subtotal | resources/js/pages/Transactions/Create.tsx:67 | with non-negative prices and quantities the subtotal is non-negative; TransactionForm.SubtotalMatchesServer ties it to the server's |
| TransactionForm.Discount | resources/js/pages/Transactions/Create.tsx:70 | no contract of its own: pinned by TransactionForm.PricingMatchesServer |
| TransactionForm.Total | resources/js/pages/Transactions/Create.tsx:72 | the definition only (subtotal − discount); the property is carried by TransactionForm.PricingMatchesServer |
| TransactionForm.PricingMatchesServer | resources/js/pages/Transactions/Create.tsx:69-72 | the page's discount and total equal the server's at every subtotal |
| TransactionForm.Payload | resources/js/pages/Transactions/Create.tsx:141-144 | the lines as (product_id, qty) pairs, in order |
| TransactionForm.SubmitOutcome | resources/js/pages/Transactions/Create.tsx:131-145 | refuses an empty list; otherwise posts the customer (None for a walk-in sale) and the pairs |
| TransactionForm.WalkInPostsNoCustomer | resources/js/pages/Transactions/Create.tsx:131-145 | a non-empty form without a customer is posted with no customer id, as a walk-in sale |
| TransactionForm.SubtotalMatchesServer | resources/js/pages/Transactions/Create.tsx:67 | with current prices the subtotal shown equals `store`'s subtotal for the posted items |
| TransactionForm.SubmittedRequestIsValid | resources/js/pages/Transactions/Create.tsx:131-145 | a posted request passes `store`'s validation while its ids exist |
| TransactionForm.Form.constructor | resources/js/pages/Transactions/Create.tsx:34-38 | no lines, no customer, empty searches |
| TransactionForm.Form.AddProduct | resources/js/pages/Transactions/Create.tsx:75-87 | appends the new line, clears the product search, keeps the invariant |
| TransactionForm.Form.UpdateQuantity | resources/js/pages/Transactions/Create.tsx:90-110 | replaces the lines by their updated form and keeps the invariant |
| TransactionForm.Form.TypeQuantity | resources/js/pages/Transactions/Create.tsx:332 | the lines become their update with a typed 0 read as 1; a non-negative number keeps every line, a negative one removes the product; the invariant is kept |
| TransactionForm.Form.RemoveItem | resources/js/pages/Transactions/Create.tsx:113-115 | drops the product's lines and keeps the invariant |
| TransactionForm.Form.SelectCustomer | resources/js/pages/Transactions/Create.tsx:118-122 | records the id and shows the customer's name |
| TransactionForm.Form.TypeCustomerSearch | resources/js/pages/Transactions/Create.tsx:206-211 | the text becomes the customer search; an empty box forgets the customer, so a non-empty form is then posted as a walk-in; other text keeps the selection |
| TransactionForm.Form.SetProductSearch | resources/js/pages/Transactions/Create.tsx:258-261 | records the product search only |
| TransactionForm.Form.ClearCustomer | resources/js/pages/Transactions/Create.tsx:125-128 | back to a walk-in sale with an empty customer search |
| TransactionForm.Form.SubmitTransaction | resources/js/pages/Transactions/Create.tsx:131-145 | the submit outcome of the current state; a posted request has one pair per line |

## Left out

- HTTP, Inertia rendering, redirects, flash messages, alerts, the `processing` flags and the dropdown and modal visibility flags are response and UI glue. The `post` itself is left to the caller of the page models; its outcome only matters to `Completed`.
- The transaction controller's `index`, `create`, `edit`, `show` and `pos` only read and render.
- The ORM's queries (`latest`, `paginate`, eager loading) are not modelled. Lookups are map accesses.
- SQL `LIKE` is modelled as a case-sensitive substring test. In the source, `%` and `_` inside the search term are wildcards (ProductController.php:137-138, CustomerController.php:20-22). In `Text.Contains` they are literal characters. `unique` and `exists` are modelled as exact equality. Database collations are not modelled.
- Catalogue.Search: the table's row order is a parameter, because the query has no `orderBy`.
- Lower-casing covers ASCII letters only. Unicode case mapping is not modelled.
- Money is exact. The floating-point products `* 0.15` and `* 0.10` and the `decimal:2` rounding of stored prices are not modelled. Neither is `Math.ceil(total / 1000) * 1000` on the payment dialog's round-up button.
- Currency formatting and `getFormattedPriceAttribute` are presentation only.
- Concurrency, atomicity and rollback are not modelled. The controllers run without a database transaction, so a sequential, non-failing execution is modelled.
- `Auth::id()` is the `userId` parameter of `Ledger.Store`.
- Form values that are not numbers (a non-numeric price, a non-integer stock or qty) are not modelled. Typed inputs make them unrepresentable.
- Laravel's `TrimStrings` and `ConvertEmptyStringsToNull` middleware are not modelled. A blank required field is refused. An empty email is taken to arrive as None. Stored strings are not trimmed.
- Registry.IsEmail: Laravel's `email` rule (RFC validation) is simplified to an `@` with text on both sides.
- The pages' `?.` and `??` guards on product fields are not modelled. The controllers always send `name` and `stock`.
- Numeric strings from JSON being coerced by JavaScript arithmetic is not modelled. Prices arrive as numbers.
- PosRegister.Register.AddToCart and TransactionForm.Form.AddProduct require the product to be one the page lists. The pages only call them from that list, so they are not modelled on arbitrary products.
- `generateProductCode` depends on the clock and randomness. The dashboard, seeders and the other pages are presentation or fixtures.
- The `Transaction` and `TransactionItem` models only supply the record shapes in `Schema`. The Customer model is not part of this model: its `transactions` relation is taken to be the transactions whose `customer_id` is the customer's id.
