# Farm shop: sales and stock core, modelled in Dafny

This project models the sales-and-stock core of a small Java farm-shop
simulation:

- the product values: `Product` with its four kinds `Egg`, `Milk`, `Jam` and `Wool`;
- the two inventories behind the `Inventory` interface:
  - `BasicInventory`, one product at a time;
  - `FancyInventory`, which handles quantities, lists stock grouped by barcode and removes the highest quality first;
- the customer records, `Customer` and `AddressBook`;
- the sales workflow: `Cart`, `Transaction`, the two-state `TransactionManager`, the append-only `TransactionHistory` with its aggregate queries, and the `Farm` orchestration of stocking, adding to carts and checkout;
- the pure helpers of `FarmManager` that turn product names and command flags into barcodes and transaction kinds.

**How the Java is represented.**
- Every entity is an immutable datatype, and every operation is a pure function or a method.
- A Java exception becomes `Err(e)` of a `Result`. `e` names the exception class: `IllegalArgument`, `InvalidStockRequest`, `FailedTransaction`, `DuplicateCustomer` or `CustomerNotFound`.
- A Java `null` becomes `None`.
- Money is an unbounded integer number of cents.
- The two inventory classes are the two variants of one `Inventory` datatype. The interface's documented contract is the lemma `Inventories.InventoryContract`.
- The `Barcode` and `Quality` enums are not part of this model. Their constants' data (base price, display name, `Barcode.values()` order, `Quality.REGULAR`, the printed quality name) is gathered in a `Catalog` value and left uninterpreted. A quality is compared by its enum ordinal.
- Mutable shared objects become values.
  - The cart that changes during a sale is the one held by the ongoing transaction's customer inside the `TransactionManager`.
  - `Transaction.finalise` returns the finalised transaction, whose customer now has an empty cart.

Files, one module each:

- `wrappers.dfy`: `Option`, `Result`, the error kinds.
- `java_strings.dfy`: the `String.trim`, `toLowerCase` and `int`-to-text behaviour relied on.
- `products.dfy`: barcodes, qualities, the catalog, products.
- `product_lists.dfy`: selection by barcode, price sums, `List.removeAll` under `Product.equals`.
- `quality_sort.dfy`: the stable sort by descending quality.
- `inventories.dfy`: both inventories and the interface contract.
- `carts.dfy`, `customers.dfy`, `address_books.dfy`: carts and customer records.
- `transactions.dfy`, `transaction_managers.dfy`, `transaction_histories.dfy`: the sales workflow.
- `farms.dfy`: `Farm`.
- `farm_manager.dfy`: the FarmManager helpers.

Behaviour of the source worth knowing:

- `getMostPopularProduct` breaks ties by the iteration order of a `HashMap`'s keys, which Java leaves unspecified. That order is a parameter of `TransactionHistories.MostPopularProduct`.
- `getLastTransaction` returns `null` on an empty history. The model returns `None`.
- The `Customer` constructor checks for emptiness before trimming. A blank name is therefore accepted and stored as `""`.
- It also accepts phone number 0, while `setPhoneNumber` refuses it.
- `Transaction.finalise` has no guard. A second call re-snapshots the now-empty cart.

## Model

| member | source | states |
|---|---|---|
| JavaStrings.Trim | src/farm/customer/Customer.java:35-36 | `trim` returns an infix of its input that neither starts nor ends with a character at most U+0020; everything cut off is such a character; the result is empty iff the whole input is |
| JavaStrings.TrimIdempotent | src/farm/customer/Customer.java:35-36 | trimming an already trimmed string changes nothing |
| JavaStrings.ToLower | src/farm/core/FarmManager.java:153 | lower-casing keeps the length and maps each character on its own; only ASCII capitals and the Kelvin sign change |
| JavaStrings.ToLowerIdempotent | src/farm/core/FarmManager.java:153 | lower-casing twice is lower-casing once |
| JavaStrings.NatToString | src/farm/inventory/product/Product.java:72 | the decimal digits of a natural number: non-empty, digits only, no leading zero |
| JavaStrings.IntToString | src/farm/inventory/product/Product.java:72 | appending an `int` writes a minus sign exactly for negative values |
| JavaStrings.NatToStringValue | src/farm/inventory/product/Product.java:72 | the digits written for a natural number read back as that number |
| JavaStrings.IntToStringRoundTrip | src/farm/inventory/product/Product.java:72 | the text written for any `int` parses back to the same value |
| Products.SameProductIsEquivalence | src/farm/inventory/product/Product.java:86-103 | product equality is reflexive, symmetric and transitive, holds iff barcode and quality agree, and ignores the price |
| Products.SameProduct | src/farm/inventory/product/Product.java:86-103 | two products are equal iff they differ at most in price |
| Products.DisplayName | src/farm/inventory/product/Product.java:41-43 | the display name is what `toString` begins with, and every product equal to this one has the same display name |
| Products.ProductToString | src/farm/inventory/product/Product.java:65-77 | `toString` is the display name, ": ", the price in decimal (which parses back to the price), "c *", the quality's name and "*" |
| Products.Egg | src/farm/inventory/product/Egg.java:15-17 | `new Egg()` is an EGG of REGULAR quality at EGG's base price |
| Products.EggOfQuality | src/farm/inventory/product/Egg.java:23-25 | `new Egg(quality)` is an EGG of that quality at EGG's base price |
| Products.Milk | src/farm/inventory/product/Milk.java:15-17 | `new Milk()` is a MILK of REGULAR quality at MILK's base price |
| Products.MilkOfQuality | src/farm/inventory/product/Milk.java:23-25 | `new Milk(quality)` is a MILK of that quality at MILK's base price |
| Products.Jam | src/farm/inventory/product/Jam.java:15-17 | `new Jam()` is a JAM of REGULAR quality at JAM's base price |
| Products.JamOfQuality | src/farm/inventory/product/Jam.java:23-25 | `new Jam(quality)` is a JAM of that quality at JAM's base price |
| Products.Wool | src/farm/inventory/product/Wool.java:15-17 | `new Wool()` is a WOOL of REGULAR quality at WOOL's base price |
| Products.WoolOfQuality | src/farm/inventory/product/Wool.java:23-25 | `new Wool(quality)` is a WOOL of that quality at WOOL's base price |
| Products.DefaultConstructorsAreRegular | src/farm/inventory/product/Egg.java:15-25 | each no-argument constructor equals the quality constructor at REGULAR, and products of different kinds are never equal |
| Products.ProductOf | src/farm/inventory/BasicInventory.java:85-92 | the inventories' product factory builds a product of exactly the requested barcode and quality at that barcode's base price |
| Products.ProductOfDeterminesEquality | src/farm/inventory/product/Product.java:86-103 | two factory products are equal iff they were requested with the same barcode and quality, and then they are identical |
| ProductLists.OfBarcode | src/farm/inventory/FancyInventory.java:93-97 | collecting the products with a barcode yields only products with that barcode, never more than the list holds |
| ProductLists.OfBarcodeContents | src/farm/inventory/FancyInventory.java:93-97 | the collected products are a sub-multiset of the list and include every product with the barcode |
| ProductLists.OfBarcodeMultiset | src/farm/inventory/FancyInventory.java:93-97 | the collection holds each product with the barcode exactly as often as the list does, and nothing else |
| ProductLists.OfBarcodeAppend | src/farm/inventory/FancyInventory.java:59-65 | collecting from a concatenation is concatenating the collections |
| ProductLists.HasBarcode | src/farm/inventory/BasicInventory.java:43-50 | the existence loop answers true iff some product has the barcode |
| ProductLists.HasBarcodeIffCounted | src/farm/inventory/FancyInventory.java:121-129 | a barcode occurs iff its count is positive |
| ProductLists.FirstOfBarcode | src/farm/inventory/BasicInventory.java:60-65 | the search with `break` finds the first position holding the barcode, or nothing iff the barcode does not occur |
| ProductLists.FirstIsHeadOfSelection | src/farm/inventory/BasicInventory.java:60-65 | the first product found is the first of the barcode's collected products |
| ProductLists.PriceSumByBarcode | src/farm/sales/TransactionHistory.java:50-56 | the price sum of a list is the sum of the price sums of its four barcode groups |
| ProductLists.CountByBarcode | src/farm/sales/TransactionHistory.java:79-84 | the length of a list is the sum of its four barcode counts |
| ProductLists.MultisetByBarcode | src/farm/inventory/FancyInventory.java:59-65 | the four barcode groups together are a permutation of the list |
| ProductLists.SameSelectionsSameMultiset | src/farm/inventory/FancyInventory.java:55-67 | two lists that agree barcode by barcode are permutations of each other |
| ProductLists.WithoutAll | src/farm/inventory/FancyInventory.java:112 | after `removeAll`, no remaining product equals a removed one |
| ProductLists.WithoutAllContents | src/farm/inventory/FancyInventory.java:112 | `removeAll` only deletes, and keeps every product not equal to a removed one |
| ProductLists.WithoutAllKeepsOtherBarcodes | src/farm/inventory/FancyInventory.java:112 | removing products of one barcode leaves every other barcode's products, in order, untouched |
| ProductLists.WithoutNothing | src/farm/inventory/BasicInventory.java:66 | `removeAll` of an empty list changes nothing |
| QualitySort.SortByQualityDesc | src/farm/inventory/FancyInventory.java:74 | the quality sort is a permutation whose qualities never increase |
| QualitySort.InsertKeepsSorted | src/farm/inventory/FancyInventory.java:74 | inserting into a descending list keeps it descending |
| QualitySort.SortIsStable | src/farm/inventory/FancyInventory.java:104 | the sort is stable: products of any one quality keep their relative order |
| QualitySort.TakeHighest | src/farm/inventory/FancyInventory.java:105-108 | the first n of a descending list are still descending, together with the rest form the whole, and nothing left behind beats anything taken |
| Inventories.NewBasicInventory | src/farm/inventory/BasicInventory.java:23-25 | a new BasicInventory is empty |
| Inventories.NewFancyInventory | src/farm/inventory/FancyInventory.java:25-27 | a new FancyInventory is empty |
| Inventories.AddProduct | src/farm/inventory/FancyInventory.java:29-33 | either inventory appends exactly one product of the barcode, quality and base price, keeping the existing stock in place (BasicInventory.java:27-31 is the same) |
| Inventories.Copies | src/farm/inventory/FancyInventory.java:39-41 | the counted loop yields max(quantity, 0) copies of the product |
| Inventories.AddProductQuantity | src/farm/inventory/FancyInventory.java:35-42 | FancyInventory appends max(quantity, 0) products of that barcode and quality after the existing stock; BasicInventory (BasicInventory.java:33-40) refuses every quantity add with InvalidStockRequest |
| Inventories.AddQuantityCounts | src/farm/inventory/FancyInventory.java:36-42 | the quantity add raises that barcode's count by max(quantity, 0) and leaves every other count alone |
| Inventories.ExistsProduct | src/farm/inventory/FancyInventory.java:44-52 | `existsProduct` holds iff some stored product has the barcode, in either inventory (BasicInventory.java:42-50 is the same loop) |
| Inventories.StockedQuantity | src/farm/inventory/FancyInventory.java:121-129 | the counting loop returns the number of stored products with the barcode |
| Inventories.ExistsIffStocked | src/farm/inventory/FancyInventory.java:45-52 | a barcode exists iff its stocked quantity is positive |
| Inventories.GroupedSelection | src/farm/inventory/FancyInventory.java:59-65 | the nested loop over `Barcode.values()` and the stock keeps, for each listed barcode, exactly its products in stock order |
| Inventories.GroupedIsGrouped | src/farm/inventory/FancyInventory.java:59-65 | the nested loop lists products group by group in the order of `Barcode.values()` |
| Inventories.AllProducts | src/farm/inventory/FancyInventory.java:54-67 | FancyInventory lists a permutation of its stock, grouped by barcode in declaration order, each group in stock order; BasicInventory (BasicInventory.java:52-55) lists its stock as stored |
| Inventories.BasicRemoveProduct | src/farm/inventory/BasicInventory.java:58-68 | returns the first product with the barcode, or nothing with the stock unchanged iff none; the new stock is the old one minus every product equal to the returned one |
| Inventories.BasicRemoveLosesProduct | src/farm/inventory/BasicInventory.java:66 | the returned product was stored and no copy of it remains |
| Inventories.FancyRemoveProduct | src/farm/inventory/FancyInventory.java:70-84 | the stock ends up sorted by descending quality; exactly one product with the barcode leaves it and is returned, of the highest quality among them, or nothing iff none is stored |
| Inventories.SortKeepsBarcodes | src/farm/inventory/FancyInventory.java:74 | sorting neither adds nor loses a barcode |
| Inventories.RemoveAtKeepsSorted | src/farm/inventory/FancyInventory.java:79 | removing one element keeps a descending list descending and takes exactly that element out |
| Inventories.SortedFirstIsBest | src/farm/inventory/FancyInventory.java:74-81 | after the sort, the first product with the barcode has the highest quality among those with it |
| Inventories.RemoveProduct | src/farm/inventory/Inventory.java:48-53 | either inventory returns the removed product, stored and with the barcode, or an empty list iff none exists; at least one copy of it is gone |
| Inventories.TakeForRemoval | src/farm/inventory/FancyInventory.java:99-109 | takes min(quantity, available) products (none for a negative quantity), a sub-multiset of the available ones, none of lower quality than any left behind; when the quantity covers them all they come back as they were, in stock order, and otherwise in descending quality |
| Inventories.RemoveProductQuantity | src/farm/inventory/FancyInventory.java:86-114 | FancyInventory returns min(quantity, count) highest-quality products of the barcode; every stored product equal to one of them is gone, and other barcodes are untouched; the list is the barcode's products in stock order when the quantity covers them all, and in descending quality otherwise; BasicInventory (BasicInventory.java:70-77) always refuses with FailedTransaction |
| Inventories.InventoryContract | src/farm/inventory/Inventory.java:17-64 | both implementations meet the interface: an added barcode exists; the quantity add fails only with InvalidStockRequest on a non-fancy inventory; existence agrees with the listing; removal returns the removed product or nothing and lowers the count; quantity removal fails only with FailedTransaction on a non-fancy inventory and otherwise removes as many as possible |
| Inventories.BasicRemoveTakesEqualCopies | src/farm/inventory/BasicInventory.java:57-68 | with two equal eggs stored, removing one egg from a BasicInventory returns one egg and leaves the stock empty, because `removeAll` drops every equal copy |
| Inventories.FancyRemoveTakesEqualCopies | src/farm/inventory/FancyInventory.java:86-114 | with two equal eggs stored, a quantity removal of one egg from a FancyInventory returns one egg and leaves the stock empty |
| Carts.IsEmpty | src/farm/sales/Cart.java:49-51 | `isEmpty` holds iff the cart holds no products |
| Carts.NewCart | src/farm/sales/Cart.java:17-19 | a new cart is empty |
| Carts.AddProduct | src/farm/sales/Cart.java:25-27 | adding puts the product at the end, keeps earlier items and allows duplicates |
| Carts.SetEmpty | src/farm/sales/Cart.java:41-43 | emptying leaves no products |
| Carts.AddAllAppends | src/farm/sales/Cart.java:25-27 | repeated additions extend the contents by exactly the added products, in call order |
| Carts.ContentsInInsertionOrder | src/farm/sales/Cart.java:29-36 | `getContents` lists the products in the order they were added |
| Customers.NewCustomer | src/farm/customer/Customer.java:27-39 | refuses with IllegalArgument iff name or address is null or empty, or the phone number is negative; otherwise stores the trimmed name and address, the phone number and an empty cart |
| Customers.SetName | src/farm/customer/Customer.java:54-59 | refuses null or blank input; otherwise stores the non-empty trimmed name and nothing else changes |
| Customers.SetPhoneNumber | src/farm/customer/Customer.java:74-79 | refuses zero and negative numbers; otherwise stores the number and nothing else changes |
| Customers.SetAddress | src/farm/customer/Customer.java:94-99 | refuses null or blank input; otherwise stores the non-empty trimmed address and nothing else changes |
| Customers.SameCustomerIsEquivalence | src/farm/customer/Customer.java:130-145 | customer equality is an equivalence that ignores address and cart |
| Customers.SameCustomer | src/farm/customer/Customer.java:130-145 | two customers are equal iff they differ at most in address and cart |
| Customers.ConstructorLooserThanSetters | src/farm/customer/Customer.java:28-31 | the constructor accepts a blank name (stored as "") and phone number 0, both of which the setters refuse |
| Customers.StoredFieldsAreTrimmed | src/farm/customer/Customer.java:35-36 | the stored name and address are already trimmed |
| AddressBooks.NewAddressBook | src/farm/customer/AddressBook.java:20-22 | a new book is empty and free of duplicates |
| AddressBooks.ContainsCustomer | src/farm/customer/AddressBook.java:55-62 | holds iff some stored customer equals the argument |
| AddressBooks.AddCustomer | src/farm/customer/AddressBook.java:31-38 | refuses with DuplicateCustomer iff an equal customer is stored; otherwise `getAllRecords` afterwards is the earlier list with the customer appended |
| AddressBooks.AddCustomerKeepsNoDuplicates | src/farm/customer/AddressBook.java:25-38 | adding keeps the book free of equal customers |
| AddressBooks.RecordsInInsertionOrder | src/farm/customer/AddressBook.java:25-48 | after a run of successful `addCustomer` calls, `getAllRecords` lists the earlier records followed by the added customers in the order they were added, and the book holds no two equal customers |
| AddressBooks.GetCustomer | src/farm/customer/AddressBook.java:73-81 | returns the first record with exactly that name and phone number; CustomerNotFound iff there is none |
| AddressBooks.AddThenGet | src/farm/customer/AddressBook.java:73-81 | a customer just added is found again by its own name and phone number |
| AddressBooks.GetIffContains | src/farm/customer/AddressBook.java:73-81 | lookup by a customer's name and phone succeeds iff the book contains an equal customer, and returns one equal to it |
| Transactions.NewTransaction | src/farm/sales/transaction/Transaction.java:23-29 | a new transaction is active and its purchases are the customer's cart |
| Transactions.GetPurchases | src/farm/sales/transaction/Transaction.java:50-55 | the purchases are the customer's current cart contents while active, and the snapshot once finalised |
| Transactions.Total | src/farm/sales/transaction/Transaction.java:61-68 | the value `getTotal` computes is 0 when there are no purchases; the loop summing the base prices is `Transactions.GetTotal` |
| Transactions.GetTotal | src/farm/sales/transaction/Transaction.java:61-68 | the loop returns the sum of the purchases' base prices, 0 for no purchases |
| Transactions.Finalise | src/farm/sales/transaction/Transaction.java:81-86 | finalising marks it finalised, snapshots the cart's contents as purchases and empties the customer's cart; name, phone and address are kept |
| Transactions.AddToCustomerCart | src/farm/sales/TransactionManager.java:57 | adding through the transaction appends the product to its customer's cart and changes nothing else |
| Transactions.PurchasesFollowCartUntilFinalised | src/farm/sales/transaction/Transaction.java:50-55 | while active, the purchases are whatever the cart holds; once finalised, later cart changes affect neither purchases nor total |
| Transactions.ActiveTracksCart | src/farm/sales/transaction/Transaction.java:50-53 | products added to an active transaction's cart appear as purchases in order |
| Transactions.FinaliseTwiceEmpties | src/farm/sales/transaction/Transaction.java:81-86 | a second finalise replaces the snapshot by the empty cart, so the total drops to 0 |
| TransactionManagers.NewTransactionManager | src/farm/sales/TransactionManager.java:17-19 | a new manager has no ongoing transaction |
| TransactionManagers.SetOngoingTransaction | src/farm/sales/TransactionManager.java:34-39 | refused with FailedTransaction iff one is already ongoing; otherwise the given transaction becomes ongoing |
| TransactionManagers.RegisterPendingPurchase | src/farm/sales/TransactionManager.java:52-58 | refused iff nothing is ongoing or it is finalised; otherwise appends the product to the ongoing customer's cart and purchases, and nothing else changes |
| TransactionManagers.CloseCurrentTransaction | src/farm/sales/TransactionManager.java:67-80 | refused iff nothing is ongoing; otherwise returns the ongoing transaction finalised: purchases are the cart's contents, the cart is emptied, the customer's name, phone number and address are kept, and nothing is left ongoing |
| TransactionManagers.Step | src/farm/sales/TransactionManager.java:34-80 | a refused call leaves the manager unchanged; a start needs no ongoing transaction and makes one; a close needs one and ends it |
| TransactionManagers.ClosedAfterEveryStart | src/farm/sales/TransactionManager.java:67-80 | when no start is open, every earlier start was followed by a close |
| TransactionManagers.RunInvariant | src/farm/sales/TransactionManager.java:34-39 | over any run of calls the manager has an ongoing transaction iff the last start is not yet closed, and no two starts lack a close between them |
| TransactionManagers.StartsSeparatedByClose | src/farm/sales/TransactionManager.java:34-39 | two successful starts are always separated by a successful close |
| TransactionHistories.NewTransactionHistory | src/farm/sales/TransactionHistory.java:17-19 | a new history holds no transactions |
| TransactionHistories.RecordTransaction | src/farm/sales/TransactionHistory.java:21-25 | appends iff the transaction is finalised, keeping earlier entries in place; otherwise nothing changes |
| TransactionHistories.LastTransaction | src/farm/sales/TransactionHistory.java:27-32 | the most recent entry, or none iff the history is empty |
| TransactionHistories.TotalTransactionsMade | src/farm/sales/TransactionHistory.java:62-64 | the count is zero exactly when there is no last transaction |
| TransactionHistories.GrossEarnings | src/farm/sales/TransactionHistory.java:34-41 | the sum of the entries' totals, which is 0 when no products were sold |
| TransactionHistories.GrossEarningsFor | src/farm/sales/TransactionHistory.java:43-60 | the plain-transaction branch: the sum over the entries of their purchases' prices for that barcode, 0 when none of it was sold |
| TransactionHistories.TotalProductsSold | src/farm/sales/TransactionHistory.java:66-72 | the number of purchased products over all entries, 0 iff every recorded transaction was empty |
| TransactionHistories.TotalProductsSoldFor | src/farm/sales/TransactionHistory.java:74-88 | the plain-transaction branch: the number of purchased products of that barcode, 0 iff no recorded transaction holds one |
| TransactionHistories.RecordUpdatesAggregates | src/farm/sales/TransactionHistory.java:21-88 | recording a finalised transaction adds one to the count and its figures to gross earnings, products sold and each barcode's figures; recording an active one changes none |
| TransactionHistories.GrossEarningsByBarcode | src/farm/sales/TransactionHistory.java:50-56 | the four per-barcode earnings add up to the gross earnings |
| TransactionHistories.ProductsSoldByBarcode | src/farm/sales/TransactionHistory.java:79-84 | the four per-barcode counts add up to the products sold |
| TransactionHistories.SoldForAtMostSold | src/farm/sales/TransactionHistory.java:74-88 | no barcode sold more than was sold in all |
| TransactionHistories.GetGrossEarnings | src/farm/sales/TransactionHistory.java:34-41 | the loop returns the sum of the entries' totals, equal to the sum of the four per-barcode earnings |
| TransactionHistories.HighestGrossingTransaction | src/farm/sales/TransactionHistory.java:90-101 | none iff no entry has a positive total; otherwise the earliest entry whose total is the largest |
| TransactionHistories.MostPopularProduct | src/farm/sales/TransactionHistory.java:103-126 | none iff nothing was sold; otherwise a barcode sold at least once and at least as often as every other |
| TransactionHistories.AverageSpendPerVisit | src/farm/sales/TransactionHistory.java:128-139 | 0 for an empty history; otherwise the value that times the entry count gives the gross earnings |
| Farms.NewFarm | src/farm/core/Farm.java:31-39 | a new farm keeps its inventory and address book, with no ongoing transaction and an empty history |
| Farms.SaveCustomer | src/farm/core/Farm.java:79-82 | refused with DuplicateCustomer iff an equal customer is on record; otherwise only the address book changes, gaining the customer at the end |
| Farms.GetCustomer | src/farm/core/Farm.java:228-231 | returns the first stored record with that name and phone number; CustomerNotFound iff there is none |
| Farms.AllStock | src/farm/core/Farm.java:54-56 | `getAllStock` is the inventory's listing: the same products with the same per-barcode counts, the stock as stored for a BasicInventory and grouped by barcode for a FancyInventory |
| Farms.StockProduct | src/farm/core/Farm.java:89-92 | only the inventory changes: it keeps its kind and gains one product of the barcode, quality and base price at the end, so the barcode's count rises by one |
| Farms.StockProductQuantity | src/farm/core/Farm.java:102-116 | IllegalArgument for quantity at most 0; InvalidStockRequest for any positive quantity on a BasicInventory (above one by the farm's check, one by the inventory's); otherwise only the FancyInventory changes, gaining `quantity` products of the barcode, quality and base price at the end, so that barcode's count rises by the quantity and others are unchanged |
| Farms.StartTransaction | src/farm/core/Farm.java:124-127 | refused iff a transaction is ongoing; otherwise only the manager changes, with the given transaction ongoing |
| Farms.AddToCart | src/farm/core/Farm.java:135-156 | FailedTransaction when nothing is ongoing, or when the ongoing transaction is finalised and the barcode is stocked; otherwise returns 1 and appends the first stocked product with the barcode, or returns 0 with nothing changed; the inventory is never modified |
| Farms.AddToCartQuantity | src/farm/core/Farm.java:167-191 | checks in order: IllegalArgument below 1, FailedTransaction above 1 on a BasicInventory, FailedTransaction with nothing ongoing; otherwise returns min(quantity, stocked count) and appends that many of the barcode's products in inventory order, the inventory unchanged |
| Farms.RegisterMatching | src/farm/core/Farm.java:181-190 | the loop registers the matching products in order until the quantity is reached; it fails iff the transaction is finalised and some product matches |
| Farms.SelectionStep | src/farm/core/Farm.java:184-188 | one loop step adds a product iff it matches and fewer than the quantity were added, keeping the count at min(quantity, matches seen) |
| Farms.Checkout | src/farm/core/Farm.java:199-210 | refused iff nothing is ongoing; otherwise closes the transaction and reports whether it held purchases; if so the finalised ongoing transaction is appended to the history with earlier entries kept, else the history is unchanged; inventory and address book are unchanged |
| FarmManagerHelpers.ConvertProductName | src/farm/core/FarmManager.java:566-575 | accepts exactly the four lower-case names, returning the barcode so named; anything else is an InvalidStockRequest |
| FarmManagerHelpers.ConvertProductNameRoundTrip | src/farm/core/FarmManager.java:566-575 | every barcode's name converts back to that barcode |
| FarmManagerHelpers.GetBarcode | src/farm/core/FarmManager.java:152-160 | returns the barcode whose name is the lower-cased input, or null iff there is none |
| FarmManagerHelpers.GetBarcodeIsCaseInsensitiveConvert | src/farm/core/FarmManager.java:152-160 | `getBarcode` is `convertProductName` after lower-casing: it ignores case and accepts every name `convertProductName` does |
| FarmManagerHelpers.TransactionKindOf | src/farm/core/FarmManager.java:239-258 | "-s" and "-specialsale" select a special sale, "-c" and "-categorised" a categorised transaction, anything else a plain one |
| FarmManagerHelpers.StartTransactionFlag | src/farm/core/FarmManager.java:414-422 | one token gives flag "", two tokens give the second as flag, any other count is incorrect arguments |
| FarmManagerHelpers.StartWithoutFlagIsPlain | src/farm/core/FarmManager.java:414-422 | a start without a flag, or with any flag other than the four special ones, begins a plain transaction |

## Left out

- Integer width: all arithmetic is unbounded.
  - Transactions.GetTotal: does not model the 32-bit wrap-around of the Java `int` sum, because prices are cents on a shop scale.
  - TransactionHistories.GetGrossEarnings: does not model 32-bit wrap-around, for the same reason. The same holds for the other history sums.
- TransactionHistories.AverageSpendPerVisit: exact real division, not the IEEE double the source returns.
- TransactionHistories.MostPopularProduct: states no tie-break among equally popular barcodes. The `HashMap` key order that decides it is unspecified in Java and is a parameter here.
- Inventories.RemoveProduct: for FancyInventory it says the returned product has the highest quality for its barcode, but not which of several equally good ones. The stable sort (see `QualitySort.SortIsStable`) makes it the earliest in stock order.
- Inventories.RemoveProductQuantity: when fewer than all the barcode's products are taken, it states their descending order but not which of several equally good products are taken.
- JavaStrings.ToLower: only the ASCII capitals and the Kelvin sign are lowered, while Java's `toLowerCase` lowers every cased letter and can change the length (U+0130 becomes two characters). Only characters whose lower case is an ASCII letter matter to the name switch it feeds.
- FarmManagerHelpers.GetBarcode: lower-casing covers the ASCII letters and the Kelvin sign, the only characters whose lower case is an ASCII letter. Other characters are left as they are, since they cannot turn a name into one of the four product names. Locale-specific lower-casing (the Turkish dotless i) is not modelled.
- Null arguments: a `null` barcode, product name or lookup name makes the Java throw `NullPointerException` or simply not match. Here such arguments are non-null values. The Customer constructor and setters do take optional strings. Also not modelled:
  - `setOngoingTransaction(null)`, which succeeds and leaves nothing ongoing;
  - `addCustomer(null)`, which stores a null record because no stored customer equals `null`.
- The `Barcode` and `Quality` enums are not part of this model. Their constant data is an uninterpreted `Catalog`, so the concrete prices and names are absent.
- `CategorisedTransaction` and `SpecialSaleTransaction` are left out because they do not compile and have no behaviour to model. With them go the categorised and special-sale branches of the history queries and `getAverageProductDiscount`.
- The staged product classes under `product/data/` are left out because they do not compile.
- Receipts are left out: `getReceipt`, `Transaction.toString`, `Farm.getLastReceipt` and price formatting depend on `ReceiptPrinter`, which is not part of this model.
- I/O is left out:
  - the `System.out.println` in `getGrossEarnings`;
  - the FarmManager command loop and display code;
  - `Main`;
  - `Customer.toString`.
- `hashCode` methods and exception messages are left out. Exceptions are error kinds in a `Result`.
- Heap aliasing is not modelled. In Java, the customer in the address book, the transaction's customer and the cart are shared objects. Here they are values: the live cart is the ongoing transaction's customer's cart, and the address-book record's copy is not updated when that cart changes.
- Farms.Checkout: a recorded transaction never changes here. In Java the transaction manager and the history hold the same `Transaction` object, and `startTransaction` (Farm.java:124-127, TransactionManager.java:34-39) accepts one that is already recorded. Checking it out again finalises it a second time (TransactionManager.java:73, Transaction.java:84), which replaces the recorded entry's purchases with the customer's current cart, empty unless products were added since. That changes `getGrossEarnings`, `getMostPopularProduct` and the other history aggregates even when `checkout` returns false. The model treats transactions as values, so its `!recorded ==> after.history == f.history` does not hold for the Java in that case.
- The trivial getters are field reads of the datatypes and have no contract of their own: `Cart.getContents` (its order is stated by `Carts.ContentsInInsertionOrder`), `AddressBook.getAllRecords` and `Farm.getAllCustomers` (stated by `AddressBooks.AddCustomer` and `AddressBooks.RecordsInInsertionOrder`), `TransactionManager.hasOngoingTransaction` (stated by `TransactionManagers.RunInvariant`), `getTransactionManager`, `getTransactionHistory`, `Transaction.getAssociatedCustomer`, `isFinalised`, and `Customer.getCart` and friends. `Farm.getAllStock` is not a field read: it is the inventory's `getAllProducts` listing, modelled as `Farms.AllStock`.
