/** `Transaction`: a customer's purchases, read from the customer's live
    cart while the transaction is active and frozen into a snapshot once it
    is finalised. */
module Transactions {
  import opened Products
  import opened ProductLists
  import opened Carts
  import opened Customers

  datatype Transaction = Transaction(customer: Customer, purchases: seq<Product>, finalised: bool)

  /** `new Transaction(customer)`: active, with no snapshot. */
  function NewTransaction(customer: Customer): (t: Transaction)
    ensures !t.finalised
    ensures t.customer == customer
    ensures GetPurchases(t) == Contents(customer.cart)
  {
    Transaction(customer, [], false)
  }

  /** `getPurchases()`: the customer's current cart while active, the
      snapshot once finalised. */
  function GetPurchases(t: Transaction): (r: seq<Product>)
    ensures !t.finalised ==> r == Contents(t.customer.cart)
    ensures t.finalised ==> r == t.purchases
  {
    if !t.finalised then Contents(t.customer.cart) else t.purchases
  }

  /** The value `getTotal()` computes: the sum of the base prices of the
      purchases. */
  function Total(t: Transaction): (r: int)
    ensures |GetPurchases(t)| == 0 ==> r == 0
  {
    PriceSum(GetPurchases(t))
  }

  /** `getTotal()`: the loop adding up base prices. */
  method GetTotal(t: Transaction) returns (total: int)
    ensures total == Total(t)
    ensures |GetPurchases(t)| == 0 ==> total == 0
  {
    var purchases := GetPurchases(t);
    total := 0;
    var i := 0;
    while i < |purchases|
      invariant 0 <= i <= |purchases|
      invariant total == PriceSum(purchases[..i])
    {
      assert purchases[..i + 1] == purchases[..i] + [purchases[i]];
      PriceSumSnoc(purchases[..i], purchases[i]);
      total := total + purchases[i].price;
      i := i + 1;
    }
    assert purchases[..i] == purchases;
  }

  /** `finalise()`: marks the transaction finalised, snapshots the cart's
      contents and empties the customer's cart. There is no guard against a
      second call. */
  function Finalise(t: Transaction): (r: Transaction)
    ensures r.finalised
    ensures GetPurchases(r) == Contents(t.customer.cart)
    ensures IsEmpty(r.customer.cart)
    ensures r.customer.name == t.customer.name && r.customer.phoneNumber == t.customer.phoneNumber
            && r.customer.address == t.customer.address
  {
    Transaction(t.customer.(cart := SetEmpty(t.customer.cart)), Contents(t.customer.cart), true)
  }

  /** Adding a product to the customer's cart through the transaction, as
      `getAssociatedCustomer().getCart().addProduct(product)` does. */
  function AddToCustomerCart(t: Transaction, p: Product): (r: Transaction)
    ensures r.finalised == t.finalised && r.purchases == t.purchases
    ensures Contents(r.customer.cart) == Contents(t.customer.cart) + [p]
    ensures r.customer == t.customer.(cart := r.customer.cart)
  {
    var cart := AddProduct(t.customer.cart, p);
    assert Contents(cart) == Contents(t.customer.cart) + [p];
    t.(customer := t.customer.(cart := cart))
  }

  /** A cart change made through the transaction's customer. */
  function WithCart(t: Transaction, cart: Cart): Transaction {
    t.(customer := t.customer.(cart := cart))
  }

  /** While active, the purchases follow the customer's cart, whatever it
      becomes; once finalised, later cart changes do not reach them and the
      total stays put. */
  lemma PurchasesFollowCartUntilFinalised(t: Transaction, cart: Cart)
    ensures !t.finalised ==> GetPurchases(WithCart(t, cart)) == Contents(cart)
    ensures var f := Finalise(t);
            GetPurchases(WithCart(f, cart)) == GetPurchases(f) == Contents(t.customer.cart)
    ensures Total(WithCart(Finalise(t), cart)) == PriceSum(Contents(t.customer.cart))
  {
  }

  /** Products registered while active show up as purchases, in order. */
  lemma {:induction false} ActiveTracksCart(t: Transaction, ps: seq<Product>)
    requires !t.finalised
    ensures GetPurchases(WithCart(t, AddAll(t.customer.cart, ps))) == GetPurchases(t) + ps
  {
    AddAllAppends(t.customer.cart, ps);
  }

  /** A second `finalise` replaces the snapshot with the now empty cart. */
  lemma FinaliseTwiceEmpties(t: Transaction)
    ensures |GetPurchases(Finalise(Finalise(t)))| == 0
    ensures Total(Finalise(Finalise(t))) == 0
    ensures GetPurchases(Finalise(t)) == Contents(t.customer.cart)
  {
  }
}
