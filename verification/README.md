# Point-of-sale transaction engine, modelled in Dafny

This project models the transaction engine of a small React point-of-sale
application for an Indonesian grocery shop. It covers:

- the product catalog with its stock;
- the cart, where each line holds a copy of a product and a quantity;
- the checkout dialog that takes the payment;
- the ledger of committed sales;
- the analytics the dashboard computes from that ledger.

Everything is stated over integers (rupiah and units) and sequences.

The files follow the application's own structure:

| file | module | what it holds |
|---|---|---|
| `wrappers.dfy` | `Wrappers` | `Option` |
| `seqs.dfy` | `Seqs` | `filter`, `Array.from(new Set(...))` (distinct values in first-seen order), counting |
| `numbers.dfy` | `Numbers` | `parseInt` (with `\|\| 0`) and `String(n)` for integers |
| `domain.dfy` | `Domain` | `Product`, `CartItem`, `Transaction`, the seeded catalog, cart sums |
| `cart_rules.dfy` | `CartRules` | the updaters of `addToCart`, `updateQuantity` and `handleCheckout` as pure list functions, and the cart and catalog invariants |
| `checkout_modal.dfy` | `CheckoutModal` | the payment dialog's state (a class) and its confirmation guard |
| `shopping_cart.dfy` | `ShoppingCart` | the quantity each control of a cart line requests |
| `product_catalog.dfy` | `ProductCatalog` | category chips, search and category filter, the add button's gate |
| `dashboard.dfy` | `Dashboard` | counters, seven-day revenue series, payment-method mix |
| `top_products.dfy` | `TopProducts` | best-selling products: gathering, stable sort by revenue, top five |
| `app.dfy` | `App` | the application state (class `Engine`) with its handlers and invariant, and the checkout path end to end |

The dashboard computations that the source writes as loops over a `Map` are
methods. Their loops carry invariants, and their postconditions are proved
against specification functions. The properties are stated about those
functions:

- `DailySales`, `SeedBuckets` and `AddSales` against `DailySalesSpec`;
- `PaymentMethodStats` and `Tally` against `PaymentMixSpec`;
- `TopProductsOf`, `GatherSales` and `GatherLines` against `TopProductsSpec`.

The application state and the payment dialog are classes whose methods
update their fields. The engine's invariant `Engine.Valid` says:

- the catalog has one entry per id and no negative stock;
- the cart has one line per product;
- every line holds between one unit and its stock;
- each line holds the catalog's current record of its product;
- every sale's total is the sum of its lines.

`ClearCart`, `HandleLogout`, `HandleCheckout` and `Checkout` keep this
invariant on every call. The other handlers keep it for the calls the page
makes:

- `AddToCart` for a catalog product whose add button is enabled;
- `UpdateQuantity` for an admissible request: a removal, or a positive
  quantity within the line's stock;
- `ApplyLineAction`, the cart panel as written, for every control except
  typed text read as a negative number (see Findings).

## Model

| member | source | states |
|---|---|---|
| Seqs.Filter | src/components/product-catalog.tsx:24-28 | `filter` keeps only elements that pass, keeps every element that passes, and keeps their order |
| Seqs.FilterMultiplicity | src/components/product-catalog.tsx:24-28 | a value that passes occurs in the result as often as in the input; a value that fails does not occur |
| Seqs.FilterKeepsAll | src/components/product-catalog.tsx:24-28 | a filter that rejects nothing returns its input unchanged |
| Seqs.FilterConcat | src/components/dashboard.tsx:44-48 | filtering distributes over concatenation |
| Seqs.Count | src/components/dashboard.tsx:146-151 | the number of occurrences is at most the length, and 0 exactly when absent |
| Seqs.FirstIndex | src/components/product-catalog.tsx:19 | the position of the first occurrence holds the element, with no earlier occurrence |
| Seqs.Distinct | src/components/product-catalog.tsx:19 | `Array.from(new Set(s))` has the same elements as `s` and no repetition |
| Seqs.DistinctFirstSeenOrder | src/components/product-catalog.tsx:19 | the distinct values come in the order of their first occurrence |
| Seqs.DistinctOfNoDuplicates | src/components/dashboard.tsx:86-92 | a list without repetition is its own set of distinct values |
| Seqs.DistinctCountsSumToLength | src/components/dashboard.tsx:145-151 | the counts of the distinct values add up to the length: a tally loses and invents nothing |
| Numbers.TrimStart | src/components/shopping-cart.tsx:74 | the leading white space `parseInt` skips is removed, and nothing else |
| Numbers.ParseInt | src/components/shopping-cart.tsx:74 | blank text is NaN; a negative result comes from text whose first non-blank character is '-' |
| Numbers.ParseIntOr0 | src/components/shopping-cart.tsx:74 | `\|\| 0` turns NaN into 0, and any other value is the one `parseInt` read |
| Numbers.Decimal | src/App.tsx:119 | `String(n)` is not empty, starts with '-' exactly when n is negative, and is all digits after the sign |
| Numbers.DigitRun | src/components/shopping-cart.tsx:74 | `parseInt` reads the longest run of digits and stops at the first non-digit |
| Numbers.DigitRunOfDigits | src/components/shopping-cart.tsx:74 | a text made only of digits is read to its end |
| Numbers.NatDecimal | src/App.tsx:119 | the decimal text of a number is at least one digit, all digits |
| Numbers.ParseDecimal | src/components/checkout-modal.tsx:22 | `parseInt(String(n)) \|\| 0` is `n` for every integer: reading back what was written gives the number |
| Numbers.NatDecimalValue | src/App.tsx:119 | the digits written for `n` have the value `n` |
| Numbers.MagnitudeOfDigits | src/components/shopping-cart.tsx:74 | a non-empty run of decimal digits is read whole as a decimal number |
| Numbers.MagnitudeOfDecimal | src/components/checkout-modal.tsx:22 | the digits written for `m` read back as `m` |
| Numbers.ParseMinus | src/components/shopping-cart.tsx:74 | a minus sign followed by text of magnitude `m` reads as `-m` |
| Numbers.ParseDigitFirst | src/components/shopping-cart.tsx:74 | text that starts with a digit has no white space or sign to skip and reads as its magnitude |
| Numbers.ParseNegativeDecimal | src/components/shopping-cart.tsx:74 | the text of a negative number reads back as that number |
| Numbers.ParseNonNegativeDecimal | src/components/checkout-modal.tsx:22 | the text of a number that is not negative reads back as that number |
| Numbers.DecimalInjective | src/App.tsx:119 | different integers have different decimal texts |
| Numbers.BlankReadsAsZero | src/components/shopping-cart.tsx:74 | empty or blank text is NaN for `parseInt`, so `\|\| 0` turns it into 0 |
| Domain.TotalsOfConcat | src/App.tsx:141-142 | the item count and the cart total split over any cut of the cart |
| Domain.TotalItems | src/App.tsx:141 | the item count of lines with no negative price or quantity is not negative |
| Domain.TotalPrice | src/App.tsx:142 | the cart total of lines with no negative price or quantity is not negative |
| Domain.InitialCatalogValid | src/App.tsx:34-47 | the seeded catalog has twelve products with distinct ids and no negative stock |
| Domain.InitialIdsUnique | src/App.tsx:34-47 | the seeded ids "1" to "12" are pairwise different |
| CartRules.FindLine | src/App.tsx:88 | `find` returns a line of that product, and nothing exactly when no line has the id |
| CartRules.FindLineIsFirst | src/App.tsx:88 | `find` returns the first line with the id: the line at position k when no earlier line has that id |
| CartRules.FindLineOfDistinct | src/App.tsx:88 | with one line per product, `find` returns that product's line |
| CartRules.AddedToCart | src/App.tsx:86-98 | adding keeps every line's product and adds a line exactly when the product had none |
| CartRules.AddToCartEffect | src/App.tsx:86-98 | an existing line is raised to `min(quantity + 1, stock)` in place; otherwise a line of 1 is appended; no other product's line changes; one line per product is kept |
| CartRules.FindLineAgrees | src/App.tsx:88 | `find` for an id depends only on the lines of that id |
| CartRules.RaisedLines | src/App.tsx:89-93 | with a line for the product, every line of that product is raised to `min(quantity + 1, stock)` and every other line is kept |
| CartRules.AddExistingEffect | src/App.tsx:89-93 | adding a product that has a line raises that line in place, keeps one line per product and changes no other product's line |
| CartRules.AddNewEffect | src/App.tsx:96 | adding a product without a line appends one line of 1 unit and changes no other product's line |
| CartRules.AddToCartWithinStock | src/App.tsx:92 | adding a product with stock keeps every line between one unit and its stock |
| CartRules.QuantityUpdated | src/App.tsx:100-110 | every resulting line is an old line, or the product's line with the new quantity |
| CartRules.FilterKeepsDistinctLines | src/App.tsx:102 | removing lines keeps one line per product |
| CartRules.RemoveEffect | src/App.tsx:101-102 | quantity 0 removes every line of that product and keeps every other line, in order, adding none |
| CartRules.RemoveMultiplicity | src/App.tsx:101-102 | quantity 0 keeps each line of another product exactly as often as the cart holds it, and no line of that product |
| CartRules.SetQuantityEffect | src/App.tsx:103-108 | a non-zero quantity keeps the cart's length and every line's position: each line of that product gets the new quantity, every other line is kept, and one line per product is kept |
| CartRules.UpdateUnknownIdIsNoOp | src/App.tsx:100-110 | an id without a line leaves the cart as it was |
| CartRules.UpdateWithinStock | src/App.tsx:100-110 | no clamp is needed for an admissible request (a removal, or a positive quantity within the line's stock): it keeps every line within stock and at one unit or more |
| CartRules.UpdateKeepsLinesOnlyIfAdmissible | src/App.tsx:100-110 | conversely, for a product with a line, a request that leaves every line within stock and at one unit or more was admissible |
| CartRules.StockAfterCheckout | src/App.tsx:128-134 | checkout changes only stock fields and keeps the catalog's order and length |
| CartRules.CheckoutStockEffect | src/App.tsx:128-134 | each product with a cart line loses exactly that line's quantity; the others are unchanged |
| CartRules.CheckoutNeverRaisesStock | src/App.tsx:128-134 | with every line at one unit or more, no product's stock rises |
| CartRules.CheckoutKeepsStockNonNegative | src/App.tsx:128-134 | lines copied from a catalog with unique ids, within stock, leave no stock negative |
| CartRules.StockAfterCheckoutTotal | src/App.tsx:128-134 | the total stock falls by the catalog's demand |
| CartRules.DemandSnoc | src/App.tsx:129 | a new line adds its quantity to its own product's demand only |
| CartRules.CatalogDemandSnoc | src/App.tsx:129 | a new line for a catalog product adds its quantity to the catalog's demand |
| CartRules.CatalogDemandIsCartSize | src/App.tsx:128-134 | when every line is a catalog product, the catalog's demand is the cart's item count |
| CartRules.CheckoutConservesStock | src/App.tsx:128-134 | stock is conserved: total stock falls by exactly the number of items sold |
| CheckoutModal.CashValue | src/components/checkout-modal.tsx:22 | the amount is 0 or the number `parseInt` read from the text; blank text gives 0 |
| CheckoutModal.Change | src/components/checkout-modal.tsx:23 | change plus total is the amount |
| CheckoutModal.ConfirmBlocked | src/components/checkout-modal.tsx:25-28 | a method other than cash is never blocked; cash that gets through leaves change that is not negative |
| CheckoutModal.Settle | src/components/checkout-modal.tsx:29 | `onConfirm` gets the chosen method, and a cash amount exactly for cash, equal to the amount read |
| CheckoutModal.SettledPaymentCovers | src/components/checkout-modal.tsx:25-29 | a payment past the guard carries a cash amount exactly for cash, and that amount covers the total (change is never negative) |
| CheckoutModal.CashValueOfDecimal | src/components/checkout-modal.tsx:22-23 | typed digits read back as the amount; the change is amount minus total; cash is refused exactly below the total |
| CheckoutModal.BlankCashIsZero | src/components/checkout-modal.tsx:22 | a blank amount reads as 0, so cash is refused for any positive total |
| CheckoutModal.PaymentGate.constructor | src/components/checkout-modal.tsx:19-20 | the dialog starts at cash with nothing typed |
| CheckoutModal.PaymentGate.SelectMethod | src/components/checkout-modal.tsx:60 | choosing a method changes the method only |
| CheckoutModal.PaymentGate.EnterCash | src/components/checkout-modal.tsx:92 | typing changes the amount only |
| CheckoutModal.PaymentGate.HandleConfirm | src/components/checkout-modal.tsx:25-32 | a blocked confirmation changes nothing and hands nothing on; otherwise the payment is handed on and the dialog resets to cash with nothing typed |
| ShoppingCart.Request | src/components/shopping-cart.tsx:54-85 | the corrected panel: the bin asks 0; "-" asks one less; "+" is disabled exactly at the stock and otherwise asks one more, within stock; typed text read as 0 asks 0, otherwise the value brought into the input's range 1..stock (the value itself inside it, the stock above it, 1 below it) |
| ShoppingCart.RequestAsWritten | src/components/shopping-cart.tsx:54-85 | the panel as written: the buttons ask what `Request` asks; typed text asks exactly `Math.min(parseInt(v) \|\| 0, stock)` |
| ShoppingCart.PlusDisabled | src/components/shopping-cart.tsx:85 | an enabled "+" leaves room for one more unit within the stock |
| ShoppingCart.PanelsDifferOnlyOnNegatives | src/components/shopping-cart.tsx:73-79 | the panel as written and the corrected one send the same request except for typed text read as a negative number, where the first sends the number and the second sends 1 |
| ShoppingCart.NegativeTypedQuantityAsWritten | src/components/shopping-cart.tsx:73-78 | as written, typing any text that `parseInt` reads as a negative `n` into a line of 1 unit asks `n`; the request is not admissible, the line gets `n` units, the cart total turns negative and checkout raises stock |
| ShoppingCart.NegativeQuantityEffects | src/App.tsx:104-108 | a one-line cart set to a negative quantity has a negative total, and checking it out raises the product's stock |
| ShoppingCart.RequestsKeepCartWithinStock | src/components/shopping-cart.tsx:54-85 | every request the corrected panel sends is admissible and keeps one line per product, within stock and at one unit or more |
| ShoppingCart.RequestsAsWrittenKeepCartWithinStock | src/components/shopping-cart.tsx:54-85 | every request the panel as written sends, except typed text read as a negative number, is admissible and keeps one line per product, within stock and at one unit or more |
| ShoppingCart.TrashRemovesLine | src/components/shopping-cart.tsx:54 | the bin asks 0, removes the line and keeps the others in order |
| ShoppingCart.MinusAtOneRemovesLine | src/components/shopping-cart.tsx:66 | "-" on one unit asks 0 and removes the line |
| ShoppingCart.MinusLowersLine | src/components/shopping-cart.tsx:66 | "-" on two units or more leaves the line one unit lower, at the same position |
| ShoppingCart.PlusRaisesLine | src/components/shopping-cart.tsx:84-85 | an enabled "+" leaves the line one unit higher, at the same position and within its stock |
| ShoppingCart.BlankInputRemovesLine | src/components/shopping-cart.tsx:74 | blank typed text asks 0 and removes the line |
| ShoppingCart.TypedQuantityIsCapped | src/components/shopping-cart.tsx:73-76 | typing a positive `n` sets the line to `min(n, stock)` |
| ShoppingCart.TypedNegativeIsRaisedToOne | src/components/shopping-cart.tsx:73-79 | typing a negative number: the corrected panel asks one unit, the input's minimum, while the panel as written asks the number itself |
| ProductCatalog.Categories | src/components/product-catalog.tsx:18-21 | "Semua" comes first, every product's category is a chip, and there is at most one chip per product besides it |
| ProductCatalog.CategoriesShape | src/components/product-catalog.tsx:18-21 | the chips are "Semua" then every category exactly once, in order of first appearance, and nothing else |
| ProductCatalog.DistinctCategoriesCover | src/components/product-catalog.tsx:19 | every product's category is a chip, and every chip is some product's category |
| ProductCatalog.IncludesIffOccurs | src/components/product-catalog.tsx:25 | `includes` holds exactly when the query occurs at some position |
| ProductCatalog.FilteredProducts | src/components/product-catalog.tsx:23-29 | every product shown matches the search and the category, and no more products are shown than the catalog has |
| ProductCatalog.FilteredProductsShape | src/components/product-catalog.tsx:23-29 | the filtered list is the catalog with exactly the matching products kept, in catalog order |
| ProductCatalog.EmptySearchShowsAll | src/components/product-catalog.tsx:23-29 | an empty search under "Semua" shows the whole catalog |
| ProductCatalog.SearchIgnoresCase | src/components/product-catalog.tsx:25 | the search depends on the query only through its lower-case form |
| ProductCatalog.AddDisabled | src/components/product-catalog.tsx:81 | the add button is enabled for a product with stock, and, for stock that is not negative, only then |
| ProductCatalog.AddOnlyWithStock | src/components/product-catalog.tsx:80-81 | the add button fires only for a product with stock of at least 1 |
| Dashboard.OnDay | src/components/dashboard.tsx:44-48 | today's sales are the ledger's sales on that date, all of them, in ledger order |
| Dashboard.ComputeStats | src/components/dashboard.tsx:40-75 | one transaction counted per sale; revenue and items sold are those of the whole ledger; the today figures are the count and revenue of the sales on today's date, between 0 and the total count; without a sale today they are 0; an empty ledger gives all zeros |
| Dashboard.RevenueConcat | src/components/dashboard.tsx:50-66 | revenue and items sold split over a concatenation of ledgers |
| Dashboard.TodayRevenueBounded | src/components/dashboard.tsx:54-57 | with no negative total, today's revenue is between 0 and all-time revenue |
| Dashboard.DayRevenueBounded | src/components/dashboard.tsx:44-57 | with no negative total, one day's revenue is between 0 and the ledger's revenue |
| Dashboard.AllTodayMeansTotals | src/components/dashboard.tsx:44-57 | when every sale is today, the today counters equal the all-time ones |
| Dashboard.StatsOfNewSale | src/components/dashboard.tsx:40-75 | a new sale at the head of the ledger adds one transaction, its total and its quantities |
| Dashboard.NewSaleCounters | src/components/dashboard.tsx:50-66 | a sale at the head of the ledger adds its total to revenue and its units to items sold |
| Dashboard.WindowLabels | src/components/dashboard.tsx:79-84 | the window has seven days |
| Dashboard.WindowLabelsDistinct | src/components/dashboard.tsx:79-92 | labels that tell days apart give seven different keys |
| Dashboard.SeriesOf | src/components/dashboard.tsx:109-114 | one point per key, in key order, holding that key's sales |
| Dashboard.SeriesOfPrefix | src/components/dashboard.tsx:109-114 | one more key adds that key's point at the end |
| Dashboard.SeedBuckets | src/components/dashboard.tsx:86-92 | the map has a 0 bucket for each window label, with keys in first-insertion order |
| Dashboard.SeedStep | src/components/dashboard.tsx:91 | one `set(dateStr, 0)` adds the label to the keys when new and gives it a 0 bucket |
| Dashboard.AddSales | src/components/dashboard.tsx:94-107 | each bucket grows by the sales carrying its label; no key is added |
| Dashboard.DailySalesSpec | src/components/dashboard.tsx:77-115 | one to seven points, each for a different window label and holding the sales carrying that label |
| Dashboard.DailySales | src/components/dashboard.tsx:77-115 | the series method computes exactly `DailySalesSpec` |
| Dashboard.SevenPoints | src/components/dashboard.tsx:77-115 | with distinct labels there are seven points, oldest day first |
| Dashboard.BucketIsDayRevenue | src/components/dashboard.tsx:94-107 | a bucket whose label belongs to one day only holds that day's revenue |
| Dashboard.SeriesIsDailyRevenue | src/components/dashboard.tsx:77-115 | with labels that tell days apart, point `i` is the revenue of day today-6+i, and days without sales show 0 |
| Dashboard.SaleLandsInLabelledBucket | src/components/dashboard.tsx:95-106 | a sale adds to the bucket with its day's label, whatever the year |
| Dashboard.SeriesTotalSnoc | src/components/dashboard.tsx:101-106 | a sale adds its total to the series exactly when its label is a bucket |
| Dashboard.SeriesTotalBounded | src/components/dashboard.tsx:94-107 | the buckets together never hold more than the ledger's revenue |
| Dashboard.SeriesTotalOfEmpty | src/components/dashboard.tsx:86-92 | with no sales every bucket stays 0 |
| Dashboard.SeriesBoundedByRevenue | src/components/dashboard.tsx:77-115 | the seven-day series adds up to between 0 and all-time revenue |
| Dashboard.MethodLabel | src/components/dashboard.tsx:153-161 | an unknown method is shown under its own name |
| Dashboard.Methods | src/components/dashboard.tsx:146-151 | the method of each transaction, in ledger order |
| Dashboard.MixOf | src/components/dashboard.tsx:159-164 | one slice per key, labelled, counting that key's transactions |
| Dashboard.MixOfPrefix | src/components/dashboard.tsx:159-164 | one more key adds that key's slice at the end |
| Dashboard.TallyStep | src/components/dashboard.tsx:147-150 | one `set` of `get(m) \|\| 0` plus 1 keeps the tally exact and the keys in the order the methods are first met walking the ledger (newest sale first) |
| Dashboard.DomainStep | src/components/dashboard.tsx:147-150 | after one `set`, the map's keys are exactly the methods seen so far |
| Dashboard.TallyCountStep | src/components/dashboard.tsx:147-150 | after one `set` of `get(m) \|\| 0` plus 1, every count equals the number of occurrences so far |
| Dashboard.Tally | src/components/dashboard.tsx:145-151 | the map holds exactly the methods used, each with its number of transactions, keys in the order the methods are first met walking the ledger (newest sale first) |
| Dashboard.PaymentMixSpec | src/components/dashboard.tsx:144-165 | no more slices than transactions, and every slice counts at least one |
| Dashboard.PaymentMethodStats | src/components/dashboard.tsx:144-165 | the mix method computes exactly `PaymentMixSpec` |
| Dashboard.ShareTotalIsCountAll | src/components/dashboard.tsx:159-164 | the slices add up to the counts of their keys |
| Dashboard.PaymentCountsSumToLedger | src/components/dashboard.tsx:144-165 | the slices add up to the number of transactions |
| Dashboard.PaymentMixCovers | src/components/dashboard.tsx:144-165 | every method used has a slice, each slice counts at least one sale and carries its label |
| Dashboard.PaymentMixOrder | src/components/dashboard.tsx:144-165 | no method has two slices, and slices come in the order the methods are first met walking the ledger (newest sale first) |
| TopProducts.NameOf | src/components/dashboard.tsx:129-134 | the name is that of the first line met with the id, and empty when no line has it |
| TopProducts.LineIds | src/components/dashboard.tsx:125 | the product id of every line, in order |
| TopProducts.SalesOf | src/components/dashboard.tsx:139 | one entry per key, in key order, holding that product's sales |
| TopProducts.SaleOfSnoc | src/components/dashboard.tsx:125-135 | a line adds its quantity and its revenue at the frozen price to its own product only |
| TopProducts.UnsoldIsZero | src/components/dashboard.tsx:125 | a product with no line has no quantity and no revenue |
| TopProducts.SoldIsFound | src/components/dashboard.tsx:125 | a product with a line has a first line |
| TopProducts.LineIdsSnoc | src/components/dashboard.tsx:123-124 | a new line appends its id |
| TopProducts.Record | src/components/dashboard.tsx:125-135 | one line adds its id to the keys and changes no other entry; its own entry gets the old units and revenue (or 0) plus this line's, and keeps its name, or takes the line's name when new |
| TopProducts.RecordValues | src/components/dashboard.tsx:125-135 | one step of the loop body keeps every entry equal to its product's sales so far |
| TopProducts.RecordValueAt | src/components/dashboard.tsx:125-135 | after one step, any stored entry is its product's sales so far |
| TopProducts.RecordOwnEntry | src/components/dashboard.tsx:125-135 | after one step, the line's own product has its sales so far |
| TopProducts.RecordExisting | src/components/dashboard.tsx:126-128 | a product sold before keeps its name and adds the line's units and revenue |
| TopProducts.RecordFirst | src/components/dashboard.tsx:129-135 | a product met for the first time gets an entry of this line alone, under this line's name |
| TopProducts.RecordStep | src/components/dashboard.tsx:123-137 | one step keeps the map exact and its keys in the order the products are first met walking the ledger |
| TopProducts.GatherLines | src/components/dashboard.tsx:124-136 | the inner loop over one transaction's lines keeps the map exact |
| TopProducts.GatherSales | src/components/dashboard.tsx:118-137 | the map holds, per product sold, its name, units and revenue, keys in the order the products are first met walking the ledger (newest sale first) |
| TopProducts.Insert | src/components/dashboard.tsx:140 | inserting adds one element and loses none |
| TopProducts.SortByRevenue | src/components/dashboard.tsx:140 | the sort is a permutation |
| TopProducts.InsertKeepsOrder | src/components/dashboard.tsx:140 | inserting into a list sorted by revenue keeps it sorted |
| TopProducts.AppendLowest | src/components/dashboard.tsx:140 | an entry earning no more than any listed one can go last in a sorted list |
| TopProducts.SortByRevenueSorted | src/components/dashboard.tsx:140 | the sort is highest revenue first and a permutation |
| TopProducts.WithRevenueSnoc | src/components/dashboard.tsx:140 | appending an entry adds it to the entries of its own revenue only |
| TopProducts.InsertIsStable | src/components/dashboard.tsx:140 | inserting puts a new entry after the entries of equal revenue |
| TopProducts.SortIsStable | src/components/dashboard.tsx:140 | the sort is stable: entries of equal revenue keep their order |
| TopProducts.TakeFive | src/components/dashboard.tsx:141 | `slice(0, 5)` is the first min(n, 5) entries |
| TopProducts.TopProductsSpec | src/components/dashboard.tsx:139-141 | at most five entries, no more than the products sold, and each one a gathered entry |
| TopProducts.TopProductsOf | src/components/dashboard.tsx:117-142 | the top-products method computes exactly `TopProductsSpec` |
| TopProducts.StoredInKeyOrder | src/components/dashboard.tsx:139 | listing the map's values in key order gives the sales of each key |
| TopProducts.SalesOfPrefix | src/components/dashboard.tsx:139 | one more key adds that product's entry at the end |
| TopProducts.SalesOnePerProduct | src/components/dashboard.tsx:118-137 | one entry per product, and every product sold has one |
| TopProducts.SalesIdsAreKeys | src/components/dashboard.tsx:118-139 | the gathered entries have pairwise different ids |
| TopProducts.SalesCoverLines | src/components/dashboard.tsx:118-139 | every product sold has an entry |
| TopProducts.AppendNewId | src/components/dashboard.tsx:140 | an entry for a product not yet listed can go last and keeps one entry per product |
| TopProducts.InsertKeepsIds | src/components/dashboard.tsx:140 | inserting a new product keeps one entry per product |
| TopProducts.SortKeepsIds | src/components/dashboard.tsx:140 | sorting keeps one entry per product |
| TopProducts.TakeFiveOfSorted | src/components/dashboard.tsx:141 | the first five of a sorted list are sorted, one per product, at most five |
| TopProducts.TopProductsShape | src/components/dashboard.tsx:117-142 | at most five entries, one per product, highest revenue first |
| TopProducts.TakeFiveBeatsTheRest | src/components/dashboard.tsx:140-141 | an entry left out of the first five earns no more than any entry kept |
| TopProducts.TopProductsBeatTheRest | src/components/dashboard.tsx:117-142 | no product left out of the top five earns more than a product in it |
| TopProducts.TopProductsAreGathered | src/components/dashboard.tsx:117-142 | each top entry is the named product's true units and revenue |
| TopProducts.SalesOfTotals | src/components/dashboard.tsx:139 | the entries' units and revenues add up to the sums over their keys |
| TopProducts.SumsSnoc | src/components/dashboard.tsx:126-133 | a line adds its units and revenue to the sums exactly when its product is a key |
| TopProducts.SumsOfNoLines | src/components/dashboard.tsx:118-121 | before any line, every product's units and revenue are 0 |
| TopProducts.CoveringSums | src/components/dashboard.tsx:123-137 | summed over distinct keys covering every line's product, units and revenue are those of all lines |
| TopProducts.SumsAddUp | src/components/dashboard.tsx:123-137 | summed over every product sold, units and revenue are those of all lines |
| TopProducts.SalesConserveLines | src/components/dashboard.tsx:117-142 | gathering loses and invents nothing: units and revenue total those of every line sold |
| App.TransactionId | src/App.tsx:119 | the id is "TRX-" followed by the decimal text of the instant |
| App.TransactionIdsDiffer | src/App.tsx:119 | sales stamped at different instants get different ids |
| App.CheckoutKeepsValid | src/App.tsx:116-138 | recording the cart as a sale and taking its quantities off the catalog keeps the invariant, lowers total stock by the items sold and raises no stock |
| App.Engine.constructor | src/App.tsx:58-61 | the page starts with the seeded catalog, an empty cart and an empty ledger, and the invariant holds |
| App.Engine.AddToCart | src/App.tsx:86-98 | the cart becomes `AddedToCart` of the old cart; a catalog product with stock keeps the invariant |
| App.Engine.UpdateQuantity | src/App.tsx:100-110 | the cart becomes `QuantityUpdated` of the old cart; an admissible request keeps the invariant |
| App.Engine.ApplyLineAction | src/components/shopping-cart.tsx:54-85 | a cart-panel control as written applies its request to the line, or does nothing when disabled; it keeps the invariant for every control except typed text read as a negative number, and for any request that is admissible |
| App.Engine.ClearCart | src/App.tsx:112-114 | the cart is emptied; the catalog and ledger are unchanged |
| App.Engine.HandleLogout | src/App.tsx:76-80 | logging out empties the cart |
| App.Engine.HandleCheckout | src/App.tsx:116-138 | the cart becomes a sale at the head of the ledger with its total; stock falls by each line; cart emptied; invariant kept; total stock falls by the items sold; no stock rises; dashboard revenue and items grow by this sale |
| App.Engine.Checkout | src/App.tsx:197-212 | an empty cart offers no checkout; a short cash payment changes nothing; otherwise a settled sale is committed, the dialog resets and both invariants are kept |
| App.LedgerIsItsLines | src/components/dashboard.tsx:50-66 | on a reconciled ledger, revenue and items sold are the sums over every line sold |
| App.DashboardAgrees | src/components/dashboard.tsx:40-142 | on a reconciled ledger the top-products table and the headline counters agree: product revenues add up to total revenue and units to items sold |

## Left out

- Rendering is not modelled: JSX, styling, the receipt printer, the transaction history view and the charts.
- Login is not modelled: the demo credentials, `handleLogin`, and the authentication fields that `handleLogout` resets. These are session state, not transactions.
- `isCheckoutOpen` and `onClose` are not modelled: opening and closing the dialog changes nothing the engine keeps. `App.Engine.Checkout` models the path from the Checkout button through confirmation.
- React's batching and re-rendering are not modelled. Each handler is one atomic update of the state it names.
- Dates: `Date.now()` is a parameter `now`. A sale's `Date` is its local calendar day, a parameter `day`. "Today" is a parameter. The `dd MMM` label of a day is a function parameter `dayLabel`, with the year left out just as in the source. Time zones and clocks are not modelled.
- Two checkouts in the same millisecond would get the same id. The model lets the caller choose `now` and proves only that different instants give different ids.
- JavaScript numbers are doubles; here money and quantities are unbounded integers. Rounding, `NaN` arithmetic and `String(n)`'s exponent notation for very large numbers are not modelled.
- `toLowerCase` is modelled for ASCII letters only. Unicode case mapping is not modelled.
- `methodNames[method]` is modelled as a lookup of the three known methods. Keys inherited from `Object.prototype` (such as "toString") are not modelled.
- The product image URL is not part of `Product`: it is presentation only.
- `TopProducts.GatherSales`: the source increments the map's entry objects in place. The model replaces the entry with an updated value, which gives the same map contents. Aliasing of entries is not modelled.
- `TopProducts.ProductSale` and `Dashboard.MethodShare` also carry the map key the entry is stored under. The source's output objects have no id or method field; the extra field makes "one entry per product" statable.
- `Dashboard.MethodLabel`: the contract states only the fallback for unknown methods. The three fixed labels are constants in its body.
- The number input's browser-side `min`/`max` validation is not modelled: typed text reaches `onChange` as typed.
- `App.Engine.AddToCart` keeps the invariant only for a catalog product whose add button is enabled. This is how the catalog calls it; other callers are outside what the source guarantees.
- `App.Engine.UpdateQuantity` keeps the invariant only for admissible requests, because `updateQuantity` does not clamp. The panel as written sends an inadmissible request for typed negative numbers (see Findings); `App.Engine.ApplyLineAction` runs that panel and keeps the invariant for every other request.
- `Seqs.Filter`: its own contract states membership and order, not how often each value occurs; `Seqs.FilterMultiplicity` states that. Putting it in the contract makes the proofs that use `filter` too costly.
- `CartRules.FindLine`: its own contract does not say the line found is the first with the id; `CartRules.FindLineIsFirst` states it. In the contract it makes the proofs of the handlers too costly.
- `Dashboard.Revenue` and `Dashboard.ItemsSold` carry no contract of their own, for the same reason. Their properties are the lemmas `Dashboard.RevenueConcat`, `Dashboard.NewSaleCounters`, `Dashboard.DayRevenueBounded` and `App.LedgerIsItsLines`.
- `Dashboard.PaymentMixSpec`, `Dashboard.DailySalesSpec` and `TopProducts.TopProductsSpec`: their own contracts give bounds and membership only. Their full meaning is in the lemmas `Dashboard.PaymentMixCovers`, `Dashboard.PaymentMixOrder`, `Dashboard.SeriesIsDailyRevenue`, `TopProducts.TopProductsShape`, `TopProducts.TopProductsBeatTheRest` and `TopProducts.TopProductsAreGathered`.

## Findings

| source | as written | input that shows it | evidently intended | confidence | as-written member | corrected member |
|---|---|---|---|---|---|---|
| src/components/shopping-cart.tsx:73-79 | typed text becomes `Math.min(parseInt(v) \|\| 0, stock)`, so a negative number is sent to `updateQuantity` unchanged (`min="1"` on a number input does not stop typing) | typing "-3" into the field of a line of 1 unit of product "9" (stock 80): the line gets -3 units, the cart total is -7500, and checkout raises the stock to 83 | quantities stay within the input's own range 1..stock, and 0 still removes the line | medium, not executed | ShoppingCart.NegativeTypedQuantityAsWritten | ShoppingCart.RequestsKeepCartWithinStock |
