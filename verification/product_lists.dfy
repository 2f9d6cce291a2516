/** Queries over lists of products shared by the inventories, carts and
    the sales history: selecting one barcode, counting, summing prices,
    finding the first match and `List.removeAll` under product equality.
 */
module ProductLists {
  import opened Wrappers
  import opened Products

  /** The products of `s` that carry barcode `b`, in their order in `s`. */
  function OfBarcode(s: seq<Product>, b: Barcode): (r: seq<Product>)
    ensures |r| <= |s|
    ensures forall i :: 0 <= i < |r| ==> r[i].barcode == b
  {
    if |s| == 0 then []
    else
      var init := s[..|s| - 1];
      OfBarcode(init, b) + (if s[|s| - 1].barcode == b then [s[|s| - 1]] else [])
  }

  /** The selection is a sub-multiset of the list and misses no product
      with that barcode. */
  lemma {:induction false} OfBarcodeContents(s: seq<Product>, b: Barcode)
    ensures multiset(OfBarcode(s, b)) <= multiset(s)
    ensures forall p :: p in s && p.barcode == b ==> p in OfBarcode(s, b)
    decreases |s|
  {
    if |s| > 0 {
      var init := s[..|s| - 1];
      var last := s[|s| - 1];
      OfBarcodeContents(init, b);
      assert s == init + [last];
      var tail := if last.barcode == b then [last] else [];
      assert OfBarcode(s, b) == OfBarcode(init, b) + tail;
      assert multiset(OfBarcode(s, b)) == multiset(OfBarcode(init, b)) + multiset(tail);
      forall p | p in s && p.barcode == b
        ensures p in OfBarcode(s, b)
      {
        if p != last {
          assert p in init;
        }
      }
    }
  }

  /** The number of products of `s` with barcode `b`. */
  function CountOf(s: seq<Product>, b: Barcode): nat {
    |OfBarcode(s, b)|
  }

  lemma OfBarcodeSnoc(init: seq<Product>, last: Product, b: Barcode)
    ensures OfBarcode(init + [last], b)
            == OfBarcode(init, b) + (if last.barcode == b then [last] else [])
  {
    assert (init + [last])[..|init|] == init;
  }

  lemma {:induction false} OfBarcodeAppend(a: seq<Product>, c: seq<Product>, b: Barcode)
    ensures OfBarcode(a + c, b) == OfBarcode(a, b) + OfBarcode(c, b)
    decreases |c|
  {
    if |c| == 0 {
      assert a + c == a;
    } else {
      var c' := c[..|c| - 1];
      var last := c[|c| - 1];
      var tail := if last.barcode == b then [last] else [];
      assert (a + c)[..|a + c| - 1] == a + c';
      assert (a + c)[|a + c| - 1] == last;
      assert OfBarcode(a + c, b) == OfBarcode(a + c', b) + tail;
      assert OfBarcode(c, b) == OfBarcode(c', b) + tail;
      OfBarcodeAppend(a, c', b);
    }
  }

  /** Selecting a barcode from a selection keeps it or empties it. */
  lemma {:induction false} OfBarcodeOfBarcode(s: seq<Product>, b: Barcode, c: Barcode)
    ensures OfBarcode(OfBarcode(s, c), b) == if b == c then OfBarcode(s, b) else []
    decreases |s|
  {
    if |s| > 0 {
      var init := s[..|s| - 1];
      var last := s[|s| - 1];
      OfBarcodeOfBarcode(init, b, c);
      var tail := if last.barcode == c then [last] else [];
      OfBarcodeAppend(OfBarcode(init, c), tail, b);
      assert OfBarcode(tail, b) == if last.barcode == c && last.barcode == b then [last] else [] by {
        if |tail| == 1 { assert tail[..0] == []; }
      }
    }
  }

  /** True iff some product of `s` has barcode `b` (the inventories' scan). */
  function HasBarcode(s: seq<Product>, b: Barcode): (r: bool)
    ensures r <==> exists i :: 0 <= i < |s| && s[i].barcode == b
  {
    if |s| == 0 then false
    else if s[0].barcode == b then true
    else
      assert forall i :: 1 <= i < |s| ==> s[i] == s[1..][i - 1];
      HasBarcode(s[1..], b)
  }

  lemma HasBarcodeIffCounted(s: seq<Product>, b: Barcode)
    ensures HasBarcode(s, b) <==> CountOf(s, b) > 0
  {
    var r := OfBarcode(s, b);
    OfBarcodeContents(s, b);
    if |r| > 0 {
      assert r[0] in multiset(s);
    }
  }

  /** The index of the first product of `s` with barcode `b`, if any. */
  function FirstOfBarcode(s: seq<Product>, b: Barcode): (r: Option<nat>)
    ensures r.None? <==> !HasBarcode(s, b)
    ensures r.Some? ==> r.value < |s| && s[r.value].barcode == b
    ensures r.Some? ==> forall j :: 0 <= j < r.value ==> s[j].barcode != b
  {
    if |s| == 0 then None
    else if s[0].barcode == b then Some(0)
    else
      match FirstOfBarcode(s[1..], b)
      case None => None
      case Some(i) => Some(i + 1)
  }

  lemma OfBarcodeCons(x: Product, t: seq<Product>, b: Barcode)
    ensures OfBarcode([x] + t, b) == (if x.barcode == b then [x] else []) + OfBarcode(t, b)
  {
    OfBarcodeAppend([x], t, b);
    OfBarcodeSnoc([], x, b);
    assert [] + [x] == [x];
  }

  /** The first match is the head of the selection of that barcode. */
  lemma {:induction false} FirstIsHeadOfSelection(s: seq<Product>, b: Barcode)
    ensures FirstOfBarcode(s, b).Some? ==> CountOf(s, b) > 0
    ensures FirstOfBarcode(s, b).Some? ==> OfBarcode(s, b)[0] == s[FirstOfBarcode(s, b).value]
    decreases |s|
  {
    if |s| > 0 {
      assert s == [s[0]] + s[1..];
      OfBarcodeCons(s[0], s[1..], b);
      if s[0].barcode != b {
        FirstIsHeadOfSelection(s[1..], b);
      }
    }
  }

  // ---------------------------------------------------------------------
  // Prices
  // ---------------------------------------------------------------------

  /** The sum of the base prices of `s`. */
  function PriceSum(s: seq<Product>): int {
    if |s| == 0 then 0 else PriceSum(s[..|s| - 1]) + s[|s| - 1].price
  }

  lemma {:induction false} PriceSumAppend(a: seq<Product>, c: seq<Product>)
    ensures PriceSum(a + c) == PriceSum(a) + PriceSum(c)
    decreases |c|
  {
    if |c| == 0 {
      assert a + c == a;
    } else {
      var c' := c[..|c| - 1];
      assert (a + c)[..|a + c| - 1] == a + c';
      PriceSumAppend(a, c');
    }
  }

  lemma PriceSumSnoc(init: seq<Product>, last: Product)
    ensures PriceSum(init + [last]) == PriceSum(init) + last.price
  {
    assert (init + [last])[..|init|] == init;
  }

  lemma PriceSumOfBarcodeSnoc(init: seq<Product>, last: Product, b: Barcode)
    ensures PriceSum(OfBarcode(init + [last], b))
            == PriceSum(OfBarcode(init, b)) + (if last.barcode == b then last.price else 0)
  {
    OfBarcodeSnoc(init, last, b);
    if last.barcode == b {
      PriceSumSnoc(OfBarcode(init, b), last);
    } else {
      assert OfBarcode(init, b) + [] == OfBarcode(init, b);
    }
  }

  lemma PriceSumSingle(p: Product)
    ensures PriceSum([p]) == p.price
  {
    assert [p][..0] == [];
  }

  /** Summing per barcode and adding up the four sums gives the overall sum. */
  lemma {:induction false} PriceSumByBarcode(s: seq<Product>)
    ensures PriceSum(s) == PriceSum(OfBarcode(s, EGG)) + PriceSum(OfBarcode(s, MILK))
                         + PriceSum(OfBarcode(s, JAM)) + PriceSum(OfBarcode(s, WOOL))
    decreases |s|
  {
    if |s| > 0 {
      var init := s[..|s| - 1];
      var last := s[|s| - 1];
      assert s == init + [last];
      PriceSumByBarcode(init);
      PriceSumSnoc(init, last);
      PriceSumOfBarcodeSnoc(init, last, EGG);
      PriceSumOfBarcodeSnoc(init, last, MILK);
      PriceSumOfBarcodeSnoc(init, last, JAM);
      PriceSumOfBarcodeSnoc(init, last, WOOL);
    }
  }

  /** Counting per barcode and adding up the four counts gives the length. */
  lemma {:induction false} CountByBarcode(s: seq<Product>)
    ensures |s| == CountOf(s, EGG) + CountOf(s, MILK) + CountOf(s, JAM) + CountOf(s, WOOL)
    decreases |s|
  {
    if |s| > 0 {
      CountByBarcode(s[..|s| - 1]);
    }
  }

  lemma MultisetOfBarcodeSnoc(init: seq<Product>, last: Product, b: Barcode)
    ensures multiset(OfBarcode(init + [last], b))
            == multiset(OfBarcode(init, b)) + (if last.barcode == b then multiset{last} else multiset{})
  {
    OfBarcodeSnoc(init, last, b);
  }

  /** The selection of a barcode holds exactly the products with it, with
      their multiplicities. */
  lemma {:induction false} OfBarcodeMultiset(s: seq<Product>, b: Barcode)
    ensures forall p :: multiset(OfBarcode(s, b))[p] == if p.barcode == b then multiset(s)[p] else 0
    decreases |s|
  {
    if |s| > 0 {
      var init := s[..|s| - 1];
      var last := s[|s| - 1];
      assert s == init + [last];
      OfBarcodeMultiset(init, b);
      MultisetOfBarcodeSnoc(init, last, b);
    }
  }

  /** The four selections partition the list as a multiset. */
  lemma {:induction false} MultisetByBarcode(s: seq<Product>)
    ensures multiset(s) == multiset(OfBarcode(s, EGG)) + multiset(OfBarcode(s, MILK))
                         + multiset(OfBarcode(s, JAM)) + multiset(OfBarcode(s, WOOL))
    decreases |s|
  {
    if |s| > 0 {
      var init := s[..|s| - 1];
      var last := s[|s| - 1];
      assert s == init + [last];
      MultisetByBarcode(init);
      MultisetOfBarcodeSnoc(init, last, EGG);
      MultisetOfBarcodeSnoc(init, last, MILK);
      MultisetOfBarcodeSnoc(init, last, JAM);
      MultisetOfBarcodeSnoc(init, last, WOOL);
    }
  }

  /** Lists that agree on every barcode's selection are permutations of each other. */
  lemma SameSelectionsSameMultiset(x: seq<Product>, y: seq<Product>)
    requires forall b :: OfBarcode(x, b) == OfBarcode(y, b)
    ensures multiset(x) == multiset(y)
  {
    MultisetByBarcode(x);
    MultisetByBarcode(y);
    assert OfBarcode(x, EGG) == OfBarcode(y, EGG);
    assert OfBarcode(x, MILK) == OfBarcode(y, MILK);
    assert OfBarcode(x, JAM) == OfBarcode(y, JAM);
    assert OfBarcode(x, WOOL) == OfBarcode(y, WOOL);
  }

  // ---------------------------------------------------------------------
  // List.removeAll under Product.equals
  // ---------------------------------------------------------------------

  /** `rs.contains(p)`: some element of `rs` equals `p`. */
  predicate ContainsEqual(rs: seq<Product>, p: Product) {
    exists i :: 0 <= i < |rs| && SameProduct(rs[i], p)
  }

  /** `s.removeAll(rs)`: the elements of `s` that no element of `rs` equals,
      in their order in `s`. */
  function WithoutAll(s: seq<Product>, rs: seq<Product>): (r: seq<Product>)
    ensures |r| <= |s|
    ensures forall i :: 0 <= i < |r| ==> !ContainsEqual(rs, r[i])
  {
    if |s| == 0 then []
    else
      var init := s[..|s| - 1];
      WithoutAll(init, rs) + (if ContainsEqual(rs, s[|s| - 1]) then [] else [s[|s| - 1]])
  }

  /** `removeAll` only deletes: what remains is a sub-multiset of the list,
      and every element no removed product equals survives. */
  lemma {:induction false} WithoutAllContents(s: seq<Product>, rs: seq<Product>)
    ensures multiset(WithoutAll(s, rs)) <= multiset(s)
    ensures forall p :: p in s && !ContainsEqual(rs, p) ==> p in WithoutAll(s, rs)
    decreases |s|
  {
    if |s| > 0 {
      var init := s[..|s| - 1];
      var last := s[|s| - 1];
      WithoutAllContents(init, rs);
      assert s == init + [last];
      var kept := if ContainsEqual(rs, last) then [] else [last];
      assert WithoutAll(s, rs) == WithoutAll(init, rs) + kept;
      assert multiset(WithoutAll(s, rs)) == multiset(WithoutAll(init, rs)) + multiset(kept);
      forall p | p in s && !ContainsEqual(rs, p)
        ensures p in WithoutAll(s, rs)
      {
        if p != last {
          assert p in init;
        }
      }
    }
  }

  /** Removing products of one barcode leaves every other barcode's
      products exactly as they were, order included. */
  lemma {:induction false} WithoutAllKeepsOtherBarcodes(s: seq<Product>, rs: seq<Product>, b: Barcode, c: Barcode)
    requires forall i :: 0 <= i < |rs| ==> rs[i].barcode == b
    requires c != b
    ensures OfBarcode(WithoutAll(s, rs), c) == OfBarcode(s, c)
    decreases |s|
  {
    if |s| > 0 {
      var init := s[..|s| - 1];
      var last := s[|s| - 1];
      WithoutAllKeepsOtherBarcodes(init, rs, b, c);
      var kept := if ContainsEqual(rs, last) then [] else [last];
      OfBarcodeAppend(WithoutAll(init, rs), kept, c);
      if last.barcode == c {
        assert !ContainsEqual(rs, last);
        assert kept[..0] == [];
      } else if |kept| == 1 {
        assert kept[..0] == [];
      }
    }
  }

  /** Removing nothing changes nothing. */
  lemma {:induction false} WithoutNothing(s: seq<Product>)
    ensures WithoutAll(s, []) == s
    decreases |s|
  {
    if |s| > 0 {
      var init := s[..|s| - 1];
      WithoutNothing(init);
      assert !ContainsEqual([], s[|s| - 1]);
      assert WithoutAll(s, []) == WithoutAll(init, []) + [s[|s| - 1]];
      assert s == init + [s[|s| - 1]];
    }
  }
}
