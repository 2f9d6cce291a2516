/** `Farm`: the orchestration of stocking, adding to carts, checkout and
    customer records over one inventory, address book, transaction manager
    and transaction history. */
module Farms {
  import opened Wrappers
  import opened Products
  import opened ProductLists
  import opened Inventories
  import opened Carts
  import opened Customers
  import opened AddressBooks
  import opened Transactions
  import opened TransactionManagers
  import opened TransactionHistories

  datatype Farm = Farm(inventory: Inventory, addressBook: AddressBook,
                       manager: TransactionManager, history: TransactionHistory)

  /** `new Farm(inventory, addressBook)`: a fresh manager and history. */
  function NewFarm(inventory: Inventory, addressBook: AddressBook): (f: Farm)
    ensures f.inventory == inventory && f.addressBook == addressBook
    ensures !HasOngoingTransaction(f.manager)
    ensures TotalTransactionsMade(f.history) == 0
  {
    Farm(inventory, addressBook, NewTransactionManager(), NewTransactionHistory())
  }

  /** `saveCustomer(customer)`: delegated to the address book. */
  function SaveCustomer(f: Farm, customer: Customer): (r: Result<Farm>)
    ensures r.Err? <==> ContainsCustomer(f.addressBook, customer)
    ensures r.Err? ==> r.error == DuplicateCustomer
    ensures r.Ok? ==> r.value == f.(addressBook := r.value.addressBook)
                      && AllRecords(r.value.addressBook) == AllRecords(f.addressBook) + [customer]
  {
    match AddCustomer(f.addressBook, customer)
    case Err(e) => Err(e)
    case Ok(book) =>
      assert book.customers == f.addressBook.customers + [customer];
      Ok(f.(addressBook := book))
  }

  /** `getCustomer(name, phoneNumber)`: delegated to the address book. */
  function GetCustomer(f: Farm, name: string, phoneNumber: int): (r: Result<Customer>)
    ensures r.Err? <==> forall i :: 0 <= i < |f.addressBook.customers|
                                   ==> !Matches(f.addressBook.customers[i], name, phoneNumber)
    ensures r.Err? ==> r.error == CustomerNotFound
    ensures r.Ok? ==> r.value in f.addressBook.customers && Matches(r.value, name, phoneNumber)
    ensures r.Ok? ==> exists i :: 0 <= i < |f.addressBook.customers| && f.addressBook.customers[i] == r.value
                        && forall j :: 0 <= j < i ==> !Matches(f.addressBook.customers[j], name, phoneNumber)
  {
    AddressBooks.GetCustomer(f.addressBook, name, phoneNumber)
  }

  /** `getAllStock()`: the inventory's `getAllProducts()` listing, which
      holds each stocked product once and, for a FancyInventory, groups
      the stock by barcode. */
  function AllStock(cat: Catalog, f: Farm): (r: seq<Product>)
    requires ValidCatalog(cat)
    ensures multiset(r) == multiset(f.inventory.stock)
    ensures forall b :: CountOf(r, b) == CountOf(f.inventory.stock, b)
    ensures f.inventory.Basic? ==> r == f.inventory.stock
    ensures f.inventory.Fancy? ==> GroupedBy(r, cat.declarationOrder)
  {
    AllProducts(cat, f.inventory)
  }

  /** `stockProduct(barcode, quality)`: one product into the inventory. */
  function StockProduct(cat: Catalog, f: Farm, barcode: Barcode, quality: Quality): (r: Farm)
    ensures r == f.(inventory := r.inventory)
    ensures CountOf(r.inventory.stock, barcode) == CountOf(f.inventory.stock, barcode) + 1
    ensures ExistsProduct(r.inventory, barcode)
    ensures r.inventory == (match f.inventory
                            case Basic(s) => Basic(s + [ProductOf(cat, barcode, quality)])
                            case Fancy(s) => Fancy(s + [ProductOf(cat, barcode, quality)]))
  {
    var inv := Inventories.AddProduct(cat, f.inventory, barcode, quality);
    assert inv.stock == f.inventory.stock + [inv.stock[|f.inventory.stock|]];
    OfBarcodeSnoc(f.inventory.stock, inv.stock[|f.inventory.stock|], barcode);
    f.(inventory := inv)
  }

  /** `stockProduct(barcode, quality, quantity)`: IllegalArgument for a
      quantity below one; InvalidStockRequest for more than one on a
      non-fancy inventory; otherwise the inventory's quantity add, which a
      BasicInventory refuses even for quantity one. */
  function StockProductQuantity(cat: Catalog, f: Farm, barcode: Barcode, quality: Quality,
                                quantity: int): (r: Result<Farm>)
    ensures quantity <= 0 ==> r == Err(IllegalArgument)
    ensures quantity >= 1 && f.inventory.Basic? ==> r == Err(InvalidStockRequest)
    ensures r.Ok? <==> quantity >= 1 && f.inventory.Fancy?
    ensures r.Ok? ==> r.value == f.(inventory := r.value.inventory)
    ensures r.Ok? ==> CountOf(r.value.inventory.stock, barcode) == CountOf(f.inventory.stock, barcode) + quantity
    ensures r.Ok? ==> forall c :: c != barcode ==> CountOf(r.value.inventory.stock, c) == CountOf(f.inventory.stock, c)
    ensures r.Ok? ==> r.value.inventory == Fancy(f.inventory.stock + Copies(ProductOf(cat, barcode, quality), quantity))
  {
    if quantity <= 0 then Err(IllegalArgument)
    else if quantity > 1 && !f.inventory.Fancy? then Err(InvalidStockRequest)
    else
      match AddProductQuantity(cat, f.inventory, barcode, quality, quantity)
      case Err(e) => Err(e)
      case Ok(inv) =>
        assert forall c :: c != barcode ==> CountOf(inv.stock, c) == CountOf(f.inventory.stock, c) by {
          forall c | c != barcode ensures CountOf(inv.stock, c) == CountOf(f.inventory.stock, c) {
            AddQuantityCounts(cat, f.inventory, barcode, quality, quantity, c);
          }
        }
        AddQuantityCounts(cat, f.inventory, barcode, quality, quantity, if barcode == EGG then MILK else EGG);
        Ok(f.(inventory := inv))
  }

  /** `startTransaction(transaction)`: delegated to the manager. */
  function StartTransaction(f: Farm, t: Transaction): (r: Result<Farm>)
    ensures r.Err? <==> HasOngoingTransaction(f.manager)
    ensures r.Err? ==> r.error == FailedTransaction
    ensures r.Ok? ==> r.value == f.(manager := r.value.manager) && r.value.manager.ongoing == Some(t)
  {
    match SetOngoingTransaction(f.manager, t)
    case Err(e) => Err(e)
    case Ok(m) => Ok(f.(manager := m))
  }

  /** The ongoing transaction of `after` is that of `before` with `added`
      appended to its purchases, and nothing else about it changed. */
  predicate PurchasesExtended(before: TransactionManager, after: TransactionManager, added: seq<Product>) {
    && HasOngoingTransaction(before) && HasOngoingTransaction(after)
    && after.ongoing.value == WithCart(before.ongoing.value, after.ongoing.value.customer.cart)
    && GetPurchases(after.ongoing.value) == GetPurchases(before.ongoing.value) + added
  }

  /** `addToCart(barcode)`: FailedTransaction when nothing is ongoing;
      otherwise the first product with the barcode in `getAllProducts()`
      order is registered and 1 returned, or 0 with no change when there is
      none. Registering fails when the ongoing transaction is already
      finalised. The inventory is never modified. */
  function AddToCart(cat: Catalog, f: Farm, barcode: Barcode): (r: Result<(Farm, nat)>)
    requires ValidCatalog(cat)
    ensures r.Err? <==> !HasOngoingTransaction(f.manager)
                        || (f.manager.ongoing.value.finalised && ExistsProduct(f.inventory, barcode))
    ensures r.Err? ==> r.error == FailedTransaction
    ensures r.Ok? ==> r.value.1 == if ExistsProduct(f.inventory, barcode) then 1 else 0
    ensures r.Ok? ==> r.value.0 == f.(manager := r.value.0.manager)
    ensures r.Ok? && r.value.1 == 0 ==> r.value.0 == f
    ensures r.Ok? && r.value.1 == 1 ==>
              CountOf(f.inventory.stock, barcode) > 0
              && PurchasesExtended(f.manager, r.value.0.manager, [OfBarcode(f.inventory.stock, barcode)[0]])
  {
    if !HasOngoingTransaction(f.manager) then Err(FailedTransaction)
    else
      var products := AllProducts(cat, f.inventory);
      HasBarcodeIffCounted(products, barcode);
      HasBarcodeIffCounted(f.inventory.stock, barcode);
      FirstIsHeadOfSelection(products, barcode);
      match FirstOfBarcode(products, barcode)
      case None => Ok((f, 0))
      case Some(i) =>
        match RegisterPendingPurchase(f.manager, products[i])
        case Err(e) => Err(e)
        case Ok(m) => Ok((f.(manager := m), 1))
  }

  /** `addToCart(barcode, quantity)`, its checks in source order:
      IllegalArgument for a quantity below one, FailedTransaction for more
      than one on a BasicInventory, FailedTransaction when nothing is
      ongoing. Then the loop over `getAllProducts()` registers matching
      products until `quantity` have been added; the first registration
      fails when the ongoing transaction is already finalised. The inventory
      is never modified. */
  method AddToCartQuantity(cat: Catalog, f: Farm, barcode: Barcode, quantity: int) returns (r: Result<(Farm, nat)>)
    requires ValidCatalog(cat)
    ensures quantity < 1 ==> r == Err(IllegalArgument)
    ensures quantity > 1 && f.inventory.Basic? ==> r == Err(FailedTransaction)
    ensures quantity >= 1 && !(quantity > 1 && f.inventory.Basic?) && !HasOngoingTransaction(f.manager)
            ==> r == Err(FailedTransaction)
    ensures r.Err? <==> quantity < 1 || (quantity > 1 && f.inventory.Basic?) || !HasOngoingTransaction(f.manager)
                        || (f.manager.ongoing.value.finalised && ExistsProduct(f.inventory, barcode))
    ensures r.Err? ==> r.error == IllegalArgument || r.error == FailedTransaction
    ensures r.Ok? ==> r.value.1 == Min(quantity, CountOf(f.inventory.stock, barcode))
    ensures r.Ok? ==> r.value.0 == f.(manager := r.value.0.manager)
    ensures r.Ok? ==> PurchasesExtended(f.manager, r.value.0.manager,
                                        OfBarcode(f.inventory.stock, barcode)[..r.value.1])
  {
    if quantity < 1 {
      return Err(IllegalArgument);
    }
    if quantity > 1 && f.inventory.Basic? {
      return Err(FailedTransaction);
    }
    if !HasOngoingTransaction(f.manager) {
      return Err(FailedTransaction);
    }
    var products := AllProducts(cat, f.inventory);
    HasBarcodeIffCounted(products, barcode);
    HasBarcodeIffCounted(f.inventory.stock, barcode);
    var registered := RegisterMatching(products, f.manager, barcode, quantity);
    match registered
    case Err(e) =>
      return Err(e);
    case Ok((manager, numAdded)) =>
      return Ok((f.(manager := manager), numAdded));
  }

  /** The loop of `addToCart(barcode, quantity)`: registers the products of
      `products` with the barcode, in order, until `quantity` have been
      added. The first registration fails if the ongoing transaction is
      already finalised, and then every one would. */
  method RegisterMatching(products: seq<Product>, m: TransactionManager, barcode: Barcode, quantity: int)
    returns (r: Result<(TransactionManager, nat)>)
    requires HasOngoingTransaction(m)
    requires quantity >= 1
    ensures r.Err? <==> m.ongoing.value.finalised && CountOf(products, barcode) > 0
    ensures r.Err? ==> r.error == FailedTransaction
    ensures r.Ok? ==> r.value.1 == Min(quantity, CountOf(products, barcode))
    ensures r.Ok? ==> PurchasesExtended(m, r.value.0, OfBarcode(products, barcode)[..r.value.1])
  {
    var manager := m;
    var numAdded := 0;
    var i := 0;
    ExtendedByNothing(manager);
    while i < |products|
      invariant 0 <= i <= |products|
      invariant numAdded == Min(quantity, CountOf(products[..i], barcode))
      invariant m.ongoing.value.finalised ==> CountOf(products[..i], barcode) == 0
      invariant PurchasesExtended(m, manager, OfBarcode(products[..i], barcode)[..numAdded])
    {
      var p := products[i];
      assert products[..i + 1] == products[..i] + [p];
      SelectionStep(products[..i], p, barcode, quantity, numAdded);
      if p.barcode == barcode && numAdded < quantity {
        var registered := RegisterPendingPurchase(manager, p);
        if registered.Err? {
          CountGrowsOnMatch(products, i, barcode);
          return Err(registered.error);
        }
        RegisterExtends(manager, p);
        ExtendedTransitive(m, manager, registered.value,
                           OfBarcode(products[..i], barcode)[..numAdded], [p]);
        manager := registered.value;
        numAdded := numAdded + 1;
      }
      i := i + 1;
    }
    assert products[..i] == products;
    r := Ok((manager, numAdded));
  }

  /** A product with the barcode at position `i` means a positive count. */
  lemma CountGrowsOnMatch(products: seq<Product>, i: nat, barcode: Barcode)
    requires i < |products| && products[i].barcode == barcode
    ensures CountOf(products, barcode) > 0
  {
    HasBarcodeIffCounted(products, barcode);
  }

  /** One more product seen by the loop of `addToCart(barcode, quantity)`:
      the count of added products and the added products themselves. */
  lemma SelectionStep(s: seq<Product>, p: Product, barcode: Barcode, quantity: int, n: nat)
    requires n == Min(quantity, CountOf(s, barcode))
    ensures var n' := if p.barcode == barcode && n < quantity then n + 1 else n;
            && n' == Min(quantity, CountOf(s + [p], barcode))
            && OfBarcode(s + [p], barcode)[..n'] == OfBarcode(s, barcode)[..n] + (if n' > n then [p] else [])
  {
    OfBarcodeSnoc(s, p, barcode);
    var sel := OfBarcode(s, barcode);
    if p.barcode == barcode {
      if n < quantity {
        assert sel[..n] == sel;
        assert (sel + [p])[..n + 1] == sel + [p];
      } else {
        assert (sel + [p])[..n] == sel[..n];
      }
    }
  }

  /** A successful registration extends the ongoing purchases by the product. */
  lemma RegisterExtends(m: TransactionManager, p: Product)
    requires RegisterPendingPurchase(m, p).Ok?
    ensures PurchasesExtended(m, RegisterPendingPurchase(m, p).value, [p])
  {
  }

  lemma ExtendedByNothing(m: TransactionManager)
    requires HasOngoingTransaction(m)
    ensures PurchasesExtended(m, m, [])
  {
  }

  /** Extensions compose. */
  lemma ExtendedTransitive(a: TransactionManager, b: TransactionManager, c: TransactionManager,
                           x: seq<Product>, y: seq<Product>)
    requires PurchasesExtended(a, b, x) && PurchasesExtended(b, c, y)
    ensures PurchasesExtended(a, c, x + y)
  {
  }

  /** `checkout()`: FailedTransaction when nothing is ongoing; otherwise
      the transaction is closed, recorded in the history iff it holds
      purchases, and the result says whether it did. */
  function Checkout(f: Farm): (r: Result<(Farm, bool)>)
    ensures r.Err? <==> !HasOngoingTransaction(f.manager)
    ensures r.Err? ==> r.error == FailedTransaction
    ensures r.Ok? ==> var (after, recorded) := r.value;
              && after.inventory == f.inventory && after.addressBook == f.addressBook
              && !HasOngoingTransaction(after.manager)
              && (recorded <==> |Contents(f.manager.ongoing.value.customer.cart)| > 0)
              && (!recorded ==> after.history == f.history)
              && (recorded ==> && TotalTransactionsMade(after.history) == TotalTransactionsMade(f.history) + 1
                               && LastTransaction(after.history).Some?
                               && LastTransaction(after.history).value.finalised
                               && GetPurchases(LastTransaction(after.history).value)
                                  == Contents(f.manager.ongoing.value.customer.cart)
                               && after.history.entries[..|f.history.entries|] == f.history.entries
                               && LastTransaction(after.history).value == Finalise(f.manager.ongoing.value))
  {
    match CloseCurrentTransaction(f.manager)
    case Err(e) => Err(e)
    case Ok((m, closed)) =>
      if |GetPurchases(closed)| > 0 then
        Ok((f.(manager := m, history := RecordTransaction(f.history, closed)), true))
      else
        Ok((f.(manager := m), false))
  }
}
