/** `Cart`: the products a customer intends to buy, in the order they were
    added. Carts are values here; the one cart that changes during a sale
    is the one held by the ongoing transaction's customer. */
module Carts {
  import opened Products

  datatype Cart = Cart(items: seq<Product>)

  /** `getContents()`: the products in the order they were added. */
  function Contents(c: Cart): seq<Product> {
    c.items
  }

  /** `isEmpty()`. */
  function IsEmpty(c: Cart): (r: bool)
    ensures r <==> |Contents(c)| == 0
  {
    |c.items| == 0
  }

  /** `new Cart()`. */
  function NewCart(): (c: Cart)
    ensures IsEmpty(c)
  {
    Cart([])
  }

  /** `addProduct(product)`: the product goes at the end; earlier items
      stay as they were, and a product already present may be added again. */
  function AddProduct(c: Cart, p: Product): (r: Cart)
    ensures |Contents(r)| == |Contents(c)| + 1
    ensures Contents(r)[..|Contents(c)|] == Contents(c)
    ensures Contents(r)[|Contents(c)|] == p
    ensures !IsEmpty(r)
  {
    assert (c.items + [p])[..|c.items|] == c.items;
    Cart(c.items + [p])
  }

  /** `setEmpty()`. */
  function SetEmpty(c: Cart): (r: Cart)
    ensures IsEmpty(r)
  {
    Cart([])
  }

  /** A sequence of `addProduct` calls, one per element of `ps`, in order. */
  function AddAll(c: Cart, ps: seq<Product>): Cart
    decreases |ps|
  {
    if |ps| == 0 then c else AddProduct(AddAll(c, ps[..|ps| - 1]), ps[|ps| - 1])
  }

  /** Repeated additions extend the contents by exactly the added products,
      in the order of the calls. */
  lemma {:induction false} AddAllAppends(c: Cart, ps: seq<Product>)
    ensures Contents(AddAll(c, ps)) == Contents(c) + ps
    decreases |ps|
  {
    if |ps| > 0 {
      var init := ps[..|ps| - 1];
      AddAllAppends(c, init);
      var before := AddAll(c, init);
      var after := AddProduct(before, ps[|ps| - 1]);
      assert Contents(after) == Contents(before) + [ps[|ps| - 1]];
      assert ps == init + [ps[|ps| - 1]];
    }
  }

  /** `getContents` lists a fresh cart's products in insertion order, and
      the cart is empty exactly when nothing was added. */
  lemma ContentsInInsertionOrder(ps: seq<Product>)
    ensures Contents(AddAll(NewCart(), ps)) == ps
    ensures IsEmpty(AddAll(NewCart(), ps)) <==> |ps| == 0
  {
    AddAllAppends(NewCart(), ps);
  }
}
