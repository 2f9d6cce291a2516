/** The Inventory interface and its two list-backed implementations.

    BasicInventory handles one product at a time and refuses quantity
    requests; FancyInventory supports quantities, lists its stock grouped
    by barcode and removes highest-quality products first. The two
    classes become the two variants of one datatype, and the interface
    contract becomes the lemma `InventoryContract`.
 */
module Inventories {
  import opened Wrappers
  import opened Products
  import opened ProductLists
  import opened QualitySort

  datatype Inventory = Basic(stock: seq<Product>) | Fancy(stock: seq<Product>)

  function NewBasicInventory(): (inv: Inventory)
    ensures inv.Basic? && |inv.stock| == 0
  {
    Basic([])
  }

  function NewFancyInventory(): (inv: Inventory)
    ensures inv.Fancy? && |inv.stock| == 0
  {
    Fancy([])
  }

  // ---------------------------------------------------------------------
  // Adding stock
  // ---------------------------------------------------------------------

  /** `addProduct(barcode, quality)` of both implementations: appends one
      product of that kind and quality. */
  function AddProduct(cat: Catalog, inv: Inventory, barcode: Barcode, quality: Quality): (r: Inventory)
    ensures r.Basic? == inv.Basic?
    ensures |r.stock| == |inv.stock| + 1 && r.stock[..|inv.stock|] == inv.stock
    ensures var p := r.stock[|inv.stock|];
            p.barcode == barcode && p.quality == quality && p.price == cat.basePrice(barcode)
  {
    assert (inv.stock + [ProductOf(cat, barcode, quality)])[..|inv.stock|] == inv.stock;
    inv.(stock := inv.stock + [ProductOf(cat, barcode, quality)])
  }

  /** `n` copies of `p` (the body of FancyInventory's counted loop). */
  function Copies(p: Product, n: int): (r: seq<Product>)
    ensures |r| == if n < 0 then 0 else n
    ensures forall i :: 0 <= i < |r| ==> r[i] == p
    decreases n
  {
    if n <= 0 then [] else Copies(p, n - 1) + [p]
  }

  /** `addProduct(barcode, quality, quantity)`: BasicInventory always throws
      InvalidStockRequest; FancyInventory appends `quantity` copies (none
      when `quantity` is not positive). */
  function AddProductQuantity(cat: Catalog, inv: Inventory, barcode: Barcode, quality: Quality,
                              quantity: int): (r: Result<Inventory>)
    ensures r.Err? <==> inv.Basic?
    ensures r.Err? ==> r.error == InvalidStockRequest
    ensures r.Ok? ==> r.value.Fancy?
    ensures r.Ok? ==> |r.value.stock| == |inv.stock| + (if quantity < 0 then 0 else quantity)
    ensures r.Ok? ==> r.value.stock[..|inv.stock|] == inv.stock
    ensures r.Ok? ==> forall i :: |inv.stock| <= i < |r.value.stock| ==>
              r.value.stock[i].barcode == barcode && r.value.stock[i].quality == quality
              && r.value.stock[i].price == cat.basePrice(barcode)
  {
    match inv
    case Basic(_) => Err(InvalidStockRequest)
    case Fancy(s) =>
      var added := Copies(ProductOf(cat, barcode, quality), quantity);
      assert (s + added)[..|s|] == s;
      assert forall i :: |s| <= i < |s + added| ==> (s + added)[i] == added[i - |s|];
      Ok(Fancy(s + added))
  }

  /** The quantity add on a FancyInventory raises the stocked quantity of
      that barcode by exactly max(quantity, 0) and leaves the others alone. */
  lemma {:induction false} AddQuantityCounts(cat: Catalog, inv: Inventory, barcode: Barcode, quality: Quality,
                                             quantity: int, other: Barcode)
    requires inv.Fancy?
    requires other != barcode
    ensures AddProductQuantity(cat, inv, barcode, quality, quantity).Ok?
    ensures var after := AddProductQuantity(cat, inv, barcode, quality, quantity).value.stock;
            && CountOf(after, barcode) == CountOf(inv.stock, barcode) + (if quantity < 0 then 0 else quantity)
            && CountOf(after, other) == CountOf(inv.stock, other)
  {
    var p := ProductOf(cat, barcode, quality);
    var added := Copies(p, quantity);
    OfBarcodeAppend(inv.stock, added, barcode);
    OfBarcodeAppend(inv.stock, added, other);
    CopiesSelection(p, quantity, barcode);
    CopiesSelection(p, quantity, other);
  }

  lemma {:induction false} CopiesSelection(p: Product, n: int, b: Barcode)
    ensures OfBarcode(Copies(p, n), b) == if p.barcode == b then Copies(p, n) else []
    decreases n
  {
    if n > 0 {
      CopiesSelection(p, n - 1, b);
      OfBarcodeSnoc(Copies(p, n - 1), p, b);
    }
  }

  // ---------------------------------------------------------------------
  // Queries
  // ---------------------------------------------------------------------

  /** `existsProduct(barcode)` of both implementations. */
  function ExistsProduct(inv: Inventory, barcode: Barcode): (r: bool)
    ensures r <==> exists i :: 0 <= i < |inv.stock| && inv.stock[i].barcode == barcode
  {
    HasBarcode(inv.stock, barcode)
  }

  /** FancyInventory's `getStockedQuantity(barcode)`: the counting loop. */
  method StockedQuantity(inv: Inventory, barcode: Barcode) returns (quantity: nat)
    requires inv.Fancy?
    ensures quantity == CountOf(inv.stock, barcode)
  {
    quantity := 0;
    var i := 0;
    while i < |inv.stock|
      invariant 0 <= i <= |inv.stock|
      invariant quantity == CountOf(inv.stock[..i], barcode)
    {
      assert inv.stock[..i + 1] == inv.stock[..i] + [inv.stock[i]];
      OfBarcodeSnoc(inv.stock[..i], inv.stock[i], barcode);
      if inv.stock[i].barcode == barcode {
        quantity := quantity + 1;
      }
      i := i + 1;
    }
    assert inv.stock[..i] == inv.stock;
  }

  /** A barcode exists in the inventory iff its stocked quantity is positive. */
  lemma ExistsIffStocked(inv: Inventory, barcode: Barcode)
    ensures ExistsProduct(inv, barcode) <==> CountOf(inv.stock, barcode) > 0
  {
    HasBarcodeIffCounted(inv.stock, barcode);
  }

  /** The position of `b` in `order` (|order| when absent). */
  function IndexOf(order: seq<Barcode>, b: Barcode): nat {
    if |order| == 0 then 0 else if order[0] == b then 0 else 1 + IndexOf(order[1..], b)
  }

  /** The stock regrouped barcode by barcode in the given order. */
  function Grouped(s: seq<Product>, order: seq<Barcode>): (r: seq<Product>)
    ensures forall i :: 0 <= i < |r| ==> r[i].barcode in order
  {
    if |order| == 0 then []
    else
      var first := OfBarcode(s, order[0]);
      var rest := Grouped(s, order[1..]);
      assert forall i :: |first| <= i < |first + rest| ==> (first + rest)[i] == rest[i - |first|];
      first + rest
  }

  lemma {:induction false} GroupedSelection(s: seq<Product>, order: seq<Barcode>, b: Barcode)
    requires NoRepeats(order)
    ensures OfBarcode(Grouped(s, order), b) == if b in order then OfBarcode(s, b) else []
    decreases |order|
  {
    if |order| > 0 {
      var rest := order[1..];
      assert NoRepeats(rest);
      GroupedSelection(s, rest, b);
      OfBarcodeAppend(OfBarcode(s, order[0]), Grouped(s, rest), b);
      OfBarcodeOfBarcode(s, b, order[0]);
      assert order == [order[0]] + rest;
      if b == order[0] {
        assert b !in rest;
      }
    }
  }

  /** Products appear grouped barcode by barcode, the groups in `order`. */
  predicate GroupedBy(r: seq<Product>, order: seq<Barcode>) {
    forall i, j :: 0 <= i < j < |r| ==> IndexOf(order, r[i].barcode) <= IndexOf(order, r[j].barcode)
  }

  lemma {:induction false} GroupedIsGrouped(s: seq<Product>, order: seq<Barcode>)
    requires NoRepeats(order)
    ensures GroupedBy(Grouped(s, order), order)
    decreases |order|
  {
    if |order| > 0 {
      var rest := order[1..];
      assert NoRepeats(rest);
      GroupedIsGrouped(s, rest);
      var first := OfBarcode(s, order[0]);
      var tail := Grouped(s, rest);
      var g := Grouped(s, order);
      assert g == first + tail;
      assert IndexOf(order, order[0]) == 0;
      forall k | 0 <= k < |tail|
        ensures IndexOf(order, tail[k].barcode) == 1 + IndexOf(rest, tail[k].barcode)
      {
        var w :| 0 <= w < |rest| && rest[w] == tail[k].barcode;
        assert order[w + 1] == tail[k].barcode;
      }
      forall i, j | 0 <= i < j < |g|
        ensures IndexOf(order, g[i].barcode) <= IndexOf(order, g[j].barcode)
      {
        if j < |first| {
          assert g[i] == first[i] && g[j] == first[j];
        } else if i < |first| {
          assert g[i] == first[i];
          assert IndexOf(order, g[i].barcode) == 0;
        } else {
          assert g[i] == tail[i - |first|] && g[j] == tail[j - |first|];
        }
      }
    }
  }

  /** `getAllProducts()`: BasicInventory returns its list as stored;
      FancyInventory returns the same products grouped barcode by barcode in
      declaration order, each group in stock order. */
  function AllProducts(cat: Catalog, inv: Inventory): (r: seq<Product>)
    requires ValidCatalog(cat)
    ensures inv.Basic? ==> r == inv.stock
    ensures forall b :: OfBarcode(r, b) == OfBarcode(inv.stock, b)
    ensures multiset(r) == multiset(inv.stock)
    ensures inv.Fancy? ==> GroupedBy(r, cat.declarationOrder)
  {
    match inv
    case Basic(s) => s
    case Fancy(s) =>
      var order := cat.declarationOrder;
      GroupedIsGrouped(s, order);
      assert forall b :: OfBarcode(Grouped(s, order), b) == OfBarcode(s, b) by {
        forall b ensures OfBarcode(Grouped(s, order), b) == OfBarcode(s, b) {
          GroupedSelection(s, order, b);
        }
      }
      SameSelectionsSameMultiset(Grouped(s, order), s);
      Grouped(s, order)
  }

  // ---------------------------------------------------------------------
  // Removing stock
  // ---------------------------------------------------------------------

  /** BasicInventory's `removeProduct(barcode)`: takes the first product
      with the barcode, then removes, with `removeAll`, every stored product
      equal to it. Returns the new stock and the removed-products list. */
  function BasicRemoveProduct(s: seq<Product>, barcode: Barcode): (r: (seq<Product>, seq<Product>))
    ensures |r.1| <= 1
    ensures |r.1| == 0 <==> !HasBarcode(s, barcode)
    ensures |r.1| == 0 ==> r.0 == s
    ensures |r.1| == 1 ==> CountOf(s, barcode) > 0 && r.1[0] == OfBarcode(s, barcode)[0]
    ensures r.0 == WithoutAll(s, r.1)
  {
    FirstIsHeadOfSelection(s, barcode);
    match FirstOfBarcode(s, barcode)
    case None =>
      WithoutNothing(s);
      (s, [])
    case Some(i) => (WithoutAll(s, [s[i]]), [s[i]])
  }

  /** FancyInventory's `removeProduct(barcode)`: first re-sorts the whole
      stock by descending quality (stably, and even when nothing matches),
      then removes and returns the first product with the barcode;
      `List.remove` hits exactly that position, since no earlier element has
      the barcode. Returns the new stock and the removed-products list. */
  function FancyRemoveProduct(s: seq<Product>, barcode: Barcode): (r: (seq<Product>, seq<Product>))
    ensures |r.1| <= 1
    ensures |r.1| == 0 <==> !HasBarcode(s, barcode)
    ensures SortedByQualityDesc(r.0)
    ensures multiset(r.0) + multiset(r.1) == multiset(s)
    ensures |r.1| == 1 ==> r.1[0].barcode == barcode
    ensures |r.1| == 1 ==>
              forall p :: p in s && p.barcode == barcode ==> p.quality.ordinal <= r.1[0].quality.ordinal
  {
    var sorted := SortByQualityDesc(s);
    SortKeepsBarcodes(s, barcode);
    match FirstOfBarcode(sorted, barcode)
    case None => (sorted, [])
    case Some(i) =>
      RemoveAtKeepsSorted(sorted, i);
      SortedFirstIsBest(s, barcode);
      (sorted[..i] + sorted[i + 1..], [sorted[i]])
  }

  /** `removeProduct(barcode)` of either implementation. */
  function RemoveProduct(inv: Inventory, barcode: Barcode): (r: (Inventory, seq<Product>))
    ensures r.0.Basic? == inv.Basic?
    ensures |r.1| <= 1
    ensures |r.1| == 0 <==> !ExistsProduct(inv, barcode)
    ensures |r.1| == 1 ==> r.1[0].barcode == barcode && r.1[0] in inv.stock
    ensures |r.1| == 1 ==> multiset(r.0.stock)[r.1[0]] < multiset(inv.stock)[r.1[0]]
    ensures inv.Basic? && |r.1| == 0 ==> r.0 == inv
    ensures inv.Basic? && |r.1| == 1 ==>
              CountOf(inv.stock, barcode) > 0 && r.1[0] == OfBarcode(inv.stock, barcode)[0]
    ensures inv.Basic? ==> r.0.stock == WithoutAll(inv.stock, r.1)
    ensures inv.Fancy? ==> SortedByQualityDesc(r.0.stock)
    ensures inv.Fancy? ==> multiset(r.0.stock) + multiset(r.1) == multiset(inv.stock)
    ensures inv.Fancy? && |r.1| == 1 ==>
              forall p :: p in inv.stock && p.barcode == barcode ==> p.quality.ordinal <= r.1[0].quality.ordinal
  {
    match inv
    case Basic(s) =>
      var (after, removed) := BasicRemoveProduct(s, barcode);
      BasicRemoveLosesProduct(s, barcode);
      (Basic(after), removed)
    case Fancy(s) =>
      var (after, removed) := FancyRemoveProduct(s, barcode);
      assert |removed| == 1 ==> removed[0] in multiset(s);
      (Fancy(after), removed)
  }

  /** The product BasicInventory returns was stored and is gone afterwards. */
  lemma BasicRemoveLosesProduct(s: seq<Product>, barcode: Barcode)
    ensures var (after, removed) := BasicRemoveProduct(s, barcode);
            |removed| == 1 ==> removed[0] in s && removed[0] !in after
  {
    var (after, removed) := BasicRemoveProduct(s, barcode);
    if |removed| == 1 {
      var p := removed[0];
      OfBarcodeContents(s, barcode);
      assert p in multiset(OfBarcode(s, barcode));
      assert ContainsEqual(removed, p) by { assert SameProduct(removed[0], p); }
    }
  }

  /** Sorting neither adds nor loses a barcode. */
  lemma SortKeepsBarcodes(s: seq<Product>, barcode: Barcode)
    ensures HasBarcode(SortByQualityDesc(s), barcode) <==> HasBarcode(s, barcode)
  {
    var sorted := SortByQualityDesc(s);
    if HasBarcode(s, barcode) {
      var i :| 0 <= i < |s| && s[i].barcode == barcode;
      assert s[i] in multiset(sorted);
      var k :| 0 <= k < |sorted| && sorted[k] == s[i];
    }
    if HasBarcode(sorted, barcode) {
      var k :| 0 <= k < |sorted| && sorted[k].barcode == barcode;
      assert sorted[k] in multiset(s);
      var i :| 0 <= i < |s| && s[i] == sorted[k];
    }
  }

  /** Removing one element keeps a list sorted and takes it out of the multiset. */
  lemma RemoveAtKeepsSorted(sorted: seq<Product>, i: nat)
    requires SortedByQualityDesc(sorted)
    requires i < |sorted|
    ensures SortedByQualityDesc(sorted[..i] + sorted[i + 1..])
    ensures multiset(sorted[..i] + sorted[i + 1..]) + multiset([sorted[i]]) == multiset(sorted)
  {
    var left := sorted[..i] + sorted[i + 1..];
    assert sorted == sorted[..i] + [sorted[i]] + sorted[i + 1..];
    forall a, c | 0 <= a < c < |left|
      ensures left[c].quality.ordinal <= left[a].quality.ordinal
    {
      var a' := if a < i then a else a + 1;
      var c' := if c < i then c else c + 1;
      assert left[a] == sorted[a'] && left[c] == sorted[c'];
    }
  }

  /** After the sort, the first product with a barcode has the highest
      quality among the products with it. */
  lemma SortedFirstIsBest(s: seq<Product>, barcode: Barcode)
    requires FirstOfBarcode(SortByQualityDesc(s), barcode).Some?
    ensures var sorted := SortByQualityDesc(s);
            forall p :: p in s && p.barcode == barcode
              ==> p.quality.ordinal <= sorted[FirstOfBarcode(sorted, barcode).value].quality.ordinal
  {
    var sorted := SortByQualityDesc(s);
    var i := FirstOfBarcode(sorted, barcode).value;
    forall p | p in s && p.barcode == barcode
      ensures p.quality.ordinal <= sorted[i].quality.ordinal
    {
      assert p in multiset(sorted);
      var k :| 0 <= k < |sorted| && sorted[k] == p;
      assert i <= k;
    }
  }

  /** The products `removeProduct(barcode, quantity)` takes from the
      barcode's products `available`: all of them when they are no more than
      `quantity`, otherwise the first `quantity` after the stable sort by
      descending quality (none for a negative quantity). */
  function TakeForRemoval(available: seq<Product>, quantity: int): (removed: seq<Product>)
    ensures |removed| == if quantity < 0 then 0 else Min(quantity, |available|)
    ensures multiset(removed) <= multiset(available)
    ensures forall p, x :: (p in multiset(available) - multiset(removed) && x in removed)
              ==> p.quality.ordinal <= x.quality.ordinal
    ensures |available| <= quantity ==> removed == available
    ensures quantity < |available| ==> SortedByQualityDesc(removed)
  {
    if |available| <= quantity then available
    else
      var sorted := SortByQualityDesc(available);
      var n := if quantity < 0 then 0 else quantity;
      TakeHighest(sorted, n);
      assert multiset(available) - multiset(sorted[..n]) == multiset(sorted[n..]);
      sorted[..n]
  }

  /** A sub-multiset of products of one barcode holds only that barcode. */
  lemma SubMultisetKeepsBarcode(part: seq<Product>, whole: seq<Product>, barcode: Barcode)
    requires multiset(part) <= multiset(whole)
    requires forall i :: 0 <= i < |whole| ==> whole[i].barcode == barcode
    ensures forall i :: 0 <= i < |part| ==> part[i].barcode == barcode
  {
    forall i | 0 <= i < |part| ensures part[i].barcode == barcode {
      assert part[i] in multiset(part);
      assert part[i] in whole;
    }
  }

  /** `removeProduct(barcode, quantity)`: BasicInventory always throws
      FailedTransaction. FancyInventory takes the products of
      `TakeForRemoval` and then removes, with `removeAll`, every stored
      product equal to a taken one. */
  function RemoveProductQuantity(inv: Inventory, barcode: Barcode, quantity: int)
    : (r: Result<(Inventory, seq<Product>)>)
    ensures r.Err? <==> inv.Basic?
    ensures r.Err? ==> r.error == FailedTransaction
    ensures r.Ok? ==> r.value.0.Fancy?
    ensures r.Ok? ==> |r.value.1| == if quantity < 0 then 0 else Min(quantity, CountOf(inv.stock, barcode))
    ensures r.Ok? ==> forall i :: 0 <= i < |r.value.1| ==> r.value.1[i].barcode == barcode
    ensures r.Ok? ==> multiset(r.value.1) <= multiset(OfBarcode(inv.stock, barcode))
    ensures r.Ok? ==> forall p, x ::
              (p in multiset(OfBarcode(inv.stock, barcode)) - multiset(r.value.1) && x in r.value.1)
              ==> p.quality.ordinal <= x.quality.ordinal
    ensures r.Ok? ==> forall i :: 0 <= i < |r.value.0.stock| ==> !ContainsEqual(r.value.1, r.value.0.stock[i])
    ensures r.Ok? ==> r.value.0.stock == WithoutAll(inv.stock, r.value.1)
    ensures r.Ok? ==> forall c :: c != barcode ==> OfBarcode(r.value.0.stock, c) == OfBarcode(inv.stock, c)
    ensures r.Ok? && CountOf(inv.stock, barcode) <= quantity ==> r.value.1 == OfBarcode(inv.stock, barcode)
    ensures r.Ok? && quantity < CountOf(inv.stock, barcode) ==> SortedByQualityDesc(r.value.1)
  {
    match inv
    case Basic(_) => Err(FailedTransaction)
    case Fancy(s) =>
      var available := OfBarcode(s, barcode);
      var removed := TakeForRemoval(available, quantity);
      SubMultisetKeepsBarcode(removed, available, barcode);
      assert forall c :: c != barcode ==> OfBarcode(WithoutAll(s, removed), c) == OfBarcode(s, c) by {
        forall c | c != barcode ensures OfBarcode(WithoutAll(s, removed), c) == OfBarcode(s, c) {
          WithoutAllKeepsOtherBarcodes(s, removed, barcode, c);
        }
      }
      Ok((Fancy(WithoutAll(s, removed)), removed))
  }

  // ---------------------------------------------------------------------
  // The Inventory interface contract, met by both implementations
  // ---------------------------------------------------------------------

  /** What the Inventory interface documents, for either implementation:
      adding one product makes its barcode exist; the quantity add fails
      only with InvalidStockRequest and only on a non-fancy inventory;
      existence means the barcode shows up in the full stock listing;
      removing by barcode returns the removed product or nothing; the
      quantity removal fails only with FailedTransaction on a non-fancy
      inventory and otherwise removes as many as it can. */
  lemma {:induction false} InventoryContract(cat: Catalog, inv: Inventory, barcode: Barcode,
                                             quality: Quality, quantity: int)
    requires ValidCatalog(cat)
    ensures ExistsProduct(AddProduct(cat, inv, barcode, quality), barcode)
    ensures AddProductQuantity(cat, inv, barcode, quality, quantity).Err?
            ==> AddProductQuantity(cat, inv, barcode, quality, quantity).error == InvalidStockRequest
                && !inv.Fancy?
    ensures ExistsProduct(inv, barcode)
            <==> exists i :: 0 <= i < |AllProducts(cat, inv)| && AllProducts(cat, inv)[i].barcode == barcode
    ensures var (after, removed) := RemoveProduct(inv, barcode);
            && (|removed| == 0 <==> !ExistsProduct(inv, barcode))
            && (|removed| == 1 ==> removed[0] in inv.stock && removed[0].barcode == barcode
                                   && CountOf(after.stock, barcode) < CountOf(inv.stock, barcode))
    ensures var r := RemoveProductQuantity(inv, barcode, quantity);
            && (r.Err? ==> r.error == FailedTransaction && !inv.Fancy?)
            && (r.Ok? && quantity >= 0 ==> |r.value.1| == Min(quantity, CountOf(inv.stock, barcode)))
  {
    var added := AddProduct(cat, inv, barcode, quality);
    assert added.stock[|inv.stock|].barcode == barcode;
    var all := AllProducts(cat, inv);
    HasBarcodeIffCounted(inv.stock, barcode);
    HasBarcodeIffCounted(all, barcode);
    var (after, removed) := RemoveProduct(inv, barcode);
    if |removed| == 1 {
      if inv.Basic? {
        WithoutAllContents(inv.stock, removed);
      }
      RemoveLowersCount(inv.stock, after.stock, removed[0], barcode);
    }
  }

  /** Losing at least one copy of a product lowers the count of its barcode,
      provided no product was gained. */
  lemma RemoveLowersCount(before: seq<Product>, after: seq<Product>, p: Product, barcode: Barcode)
    requires p.barcode == barcode
    requires multiset(after) <= multiset(before)
    requires multiset(after)[p] < multiset(before)[p]
    ensures CountOf(after, barcode) < CountOf(before, barcode)
  {
    OfBarcodeMultiset(before, barcode);
    OfBarcodeMultiset(after, barcode);
    var mb := multiset(OfBarcode(before, barcode));
    var ma := multiset(OfBarcode(after, barcode));
    assert ma <= mb;
    assert ma[p] < mb[p];
    assert ma != mb;
    assert |ma| < |mb| by {
      assert mb == ma + (mb - ma);
    }
  }

  /** `removeAll` takes every equal product. With two equal eggs in a
      BasicInventory, removing one egg empties it. */
  lemma BasicRemoveTakesEqualCopies(cat: Catalog)
    ensures var egg := Egg(cat);
            RemoveProduct(Basic([egg, egg]), EGG) == (Basic([]), [egg])
  {
    var egg := Egg(cat);
    var stock := [egg, egg];
    assert FirstOfBarcode(stock, EGG) == Some(0);
    assert ContainsEqual([egg], egg);
    assert stock[..1] == [egg] && [egg][..0] == [];
    assert WithoutAll([egg], [egg]) == [];
    assert WithoutAll(stock, [egg]) == [];
  }

  /** With two equal eggs in a FancyInventory, removing a quantity of one
      egg returns one egg but `removeAll` takes both copies. */
  lemma FancyRemoveTakesEqualCopies(cat: Catalog)
    ensures var egg := Egg(cat);
            RemoveProductQuantity(Fancy([egg, egg]), EGG, 1) == Ok((Fancy([]), [egg]))
  {
    var egg := Egg(cat);
    var stock := [egg, egg];
    assert stock[..1] == [egg] && [egg][..0] == [];
    assert OfBarcode(stock, EGG) == stock;
    var sorted := SortByQualityDesc(stock);
    assert sorted[0] in multiset(sorted);
    assert sorted[..1] == [egg];
    assert TakeForRemoval(stock, 1) == [egg];
    assert ContainsEqual([egg], egg);
    assert WithoutAll([egg], [egg]) == [];
    assert WithoutAll(stock, [egg]) == [];
  }
}
