/** `TransactionHistory`: the append-only ledger of finalised transactions
    and its aggregate queries, for plain transactions. */
module TransactionHistories {
  import opened Wrappers
  import opened Products
  import opened ProductLists
  import opened Transactions

  datatype TransactionHistory = TransactionHistory(entries: seq<Transaction>)

  /** `new TransactionHistory()`. */
  function NewTransactionHistory(): (h: TransactionHistory)
    ensures TotalTransactionsMade(h) == 0
  {
    TransactionHistory([])
  }

  /** `recordTransaction(transaction)`: appended iff finalised, otherwise
      the history is unchanged; earlier entries are never touched. */
  function RecordTransaction(h: TransactionHistory, t: Transaction): (r: TransactionHistory)
    ensures !t.finalised ==> r == h
    ensures t.finalised ==> |r.entries| == |h.entries| + 1 && r.entries[..|h.entries|] == h.entries
                            && LastTransaction(r) == Some(t)
  {
    if t.finalised then
      assert (h.entries + [t])[..|h.entries|] == h.entries;
      TransactionHistory(h.entries + [t])
    else h
  }

  /** `getLastTransaction()`: the most recent entry, or null when empty. */
  function LastTransaction(h: TransactionHistory): (r: Option<Transaction>)
    ensures r.None? <==> |h.entries| == 0
    ensures r.Some? ==> r.value == h.entries[|h.entries| - 1]
  {
    if |h.entries| == 0 then None else Some(h.entries[|h.entries| - 1])
  }

  /** `getTotalTransactionsMade()`: zero exactly when there is no last
      transaction. */
  function TotalTransactionsMade(h: TransactionHistory): (r: nat)
    ensures r == 0 <==> LastTransaction(h).None?
  {
    |h.entries|
  }

  // ---------------------------------------------------------------------
  // Sums over the entries
  // ---------------------------------------------------------------------

  /** The sum of the entries' totals. */
  function SumOfTotals(es: seq<Transaction>): int
    decreases |es|
  {
    if |es| == 0 then 0 else SumOfTotals(es[..|es| - 1]) + Total(es[|es| - 1])
  }

  /** The sum of the entries' earnings from products with barcode `b`. */
  function SumOfTotalsFor(es: seq<Transaction>, b: Barcode): int
    decreases |es|
  {
    if |es| == 0 then 0
    else SumOfTotalsFor(es[..|es| - 1], b) + PriceSum(OfBarcode(GetPurchases(es[|es| - 1]), b))
  }

  /** The number of products the entries hold. */
  function SumOfCounts(es: seq<Transaction>): nat
    decreases |es|
  {
    if |es| == 0 then 0 else SumOfCounts(es[..|es| - 1]) + |GetPurchases(es[|es| - 1])|
  }

  /** The number of products with barcode `b` the entries hold. */
  function SumOfCountsFor(es: seq<Transaction>, b: Barcode): nat
    decreases |es|
  {
    if |es| == 0 then 0 else SumOfCountsFor(es[..|es| - 1], b) + CountOf(GetPurchases(es[|es| - 1]), b)
  }

  /** Nothing is sold iff every entry holds no purchases. */
  lemma {:induction false} NoCountsIffAllEmpty(es: seq<Transaction>)
    ensures SumOfCounts(es) == 0 <==> forall i :: 0 <= i < |es| ==> |GetPurchases(es[i])| == 0
    decreases |es|
  {
    if |es| > 0 {
      var init := es[..|es| - 1];
      NoCountsIffAllEmpty(init);
      assert forall i :: 0 <= i < |init| ==> init[i] == es[i];
    }
  }

  /** Nothing with barcode `b` is sold iff no entry holds such a product. */
  lemma {:induction false} NoCountsForIffNoneHeld(es: seq<Transaction>, b: Barcode)
    ensures SumOfCountsFor(es, b) == 0 <==> forall i :: 0 <= i < |es| ==> CountOf(GetPurchases(es[i]), b) == 0
    decreases |es|
  {
    if |es| > 0 {
      var init := es[..|es| - 1];
      NoCountsForIffNoneHeld(init, b);
      assert forall i :: 0 <= i < |init| ==> init[i] == es[i];
    }
  }

  /** Entries without purchases earn nothing. */
  lemma {:induction false} NothingSoldNothingEarned(es: seq<Transaction>)
    ensures SumOfCounts(es) == 0 ==> SumOfTotals(es) == 0
    decreases |es|
  {
    if |es| > 0 {
      NothingSoldNothingEarned(es[..|es| - 1]);
    }
  }

  /** Entries without products of barcode `b` earn nothing from `b`. */
  lemma {:induction false} NothingSoldForNothingEarned(es: seq<Transaction>, b: Barcode)
    ensures SumOfCountsFor(es, b) == 0 ==> SumOfTotalsFor(es, b) == 0
    decreases |es|
  {
    if |es| > 0 {
      NothingSoldForNothingEarned(es[..|es| - 1], b);
    }
  }

  /** `getTotalProductsSold()`: zero iff every recorded transaction was
      empty. */
  function TotalProductsSold(h: TransactionHistory): (r: nat)
    ensures r == 0 <==> forall i :: 0 <= i < |h.entries| ==> |GetPurchases(h.entries[i])| == 0
  {
    NoCountsIffAllEmpty(h.entries);
    SumOfCounts(h.entries)
  }

  /** `getTotalProductsSold(type)`, plain-transaction branch: zero iff no
      recorded transaction holds a product of that barcode. */
  function TotalProductsSoldFor(h: TransactionHistory, b: Barcode): (r: nat)
    ensures r == 0 <==> forall i :: 0 <= i < |h.entries| ==> CountOf(GetPurchases(h.entries[i]), b) == 0
  {
    NoCountsForIffNoneHeld(h.entries, b);
    SumOfCountsFor(h.entries, b)
  }

  /** `getGrossEarnings()`: the sum of `getTotal()` over the entries, which
      is zero when nothing was sold. */
  function GrossEarnings(h: TransactionHistory): (r: int)
    ensures TotalProductsSold(h) == 0 ==> r == 0
  {
    NothingSoldNothingEarned(h.entries);
    SumOfTotals(h.entries)
  }

  /** `getGrossEarnings(type)`, plain-transaction branch: zero when nothing
      of that barcode was sold. */
  function GrossEarningsFor(h: TransactionHistory, b: Barcode): (r: int)
    ensures TotalProductsSoldFor(h, b) == 0 ==> r == 0
  {
    NothingSoldForNothingEarned(h.entries, b);
    SumOfTotalsFor(h.entries, b)
  }

  /** Recording a transaction adds one to the count and its total, its
      product count and its per-barcode figures to the aggregates; recording
      an active one changes nothing. */
  lemma RecordUpdatesAggregates(h: TransactionHistory, t: Transaction, b: Barcode)
    ensures var r := RecordTransaction(h, t);
            var f := if t.finalised then 1 else 0;
            && TotalTransactionsMade(r) == TotalTransactionsMade(h) + f
            && GrossEarnings(r) == GrossEarnings(h) + f * Total(t)
            && TotalProductsSold(r) == TotalProductsSold(h) + f * |GetPurchases(t)|
            && GrossEarningsFor(r, b) == GrossEarningsFor(h, b) + f * PriceSum(OfBarcode(GetPurchases(t), b))
            && TotalProductsSoldFor(r, b) == TotalProductsSoldFor(h, b) + f * CountOf(GetPurchases(t), b)
  {
    if t.finalised {
      var es := h.entries + [t];
      assert es[..|es| - 1] == h.entries;
    }
  }

  /** The per-barcode earnings add up to the gross earnings. */
  lemma {:induction false} GrossEarningsByBarcode(h: TransactionHistory)
    ensures GrossEarnings(h) == GrossEarningsFor(h, EGG) + GrossEarningsFor(h, MILK)
                                + GrossEarningsFor(h, JAM) + GrossEarningsFor(h, WOOL)
    decreases |h.entries|
  {
    var es := h.entries;
    if |es| > 0 {
      GrossEarningsByBarcode(TransactionHistory(es[..|es| - 1]));
      PriceSumByBarcode(GetPurchases(es[|es| - 1]));
    }
  }

  /** The per-barcode product counts add up to the products sold. */
  lemma {:induction false} ProductsSoldByBarcode(h: TransactionHistory)
    ensures TotalProductsSold(h) == TotalProductsSoldFor(h, EGG) + TotalProductsSoldFor(h, MILK)
                                    + TotalProductsSoldFor(h, JAM) + TotalProductsSoldFor(h, WOOL)
    decreases |h.entries|
  {
    var es := h.entries;
    if |es| > 0 {
      ProductsSoldByBarcode(TransactionHistory(es[..|es| - 1]));
      CountByBarcode(GetPurchases(es[|es| - 1]));
    }
  }

  /** No barcode sold more products than were sold in all. */
  lemma SoldForAtMostSold(h: TransactionHistory, b: Barcode)
    ensures TotalProductsSoldFor(h, b) <= TotalProductsSold(h)
  {
    ProductsSoldByBarcode(h);
    assert b == EGG || b == MILK || b == JAM || b == WOOL;
  }

  /** `getGrossEarnings()`: the loop over the entries. */
  method GetGrossEarnings(h: TransactionHistory) returns (total: int)
    ensures total == GrossEarnings(h)
    ensures total == GrossEarningsFor(h, EGG) + GrossEarningsFor(h, MILK)
                     + GrossEarningsFor(h, JAM) + GrossEarningsFor(h, WOOL)
  {
    total := 0;
    var i := 0;
    while i < |h.entries|
      invariant 0 <= i <= |h.entries|
      invariant total == SumOfTotals(h.entries[..i])
    {
      assert h.entries[..i + 1][..i] == h.entries[..i];
      var t := GetTotal(h.entries[i]);
      total := total + t;
      i := i + 1;
    }
    assert h.entries[..i] == h.entries;
    GrossEarningsByBarcode(h);
  }

  // ---------------------------------------------------------------------
  // Highest-grossing transaction, most popular product, average spend
  // ---------------------------------------------------------------------

  /** `getHighestGrossingTransaction()`: null when no entry has a positive
      total; otherwise the earliest entry with the largest total. */
  method HighestGrossingTransaction(h: TransactionHistory) returns (r: Option<Transaction>)
    ensures r.None? <==> forall i :: 0 <= i < |h.entries| ==> Total(h.entries[i]) <= 0
    ensures r.Some? ==> exists i :: 0 <= i < |h.entries| && h.entries[i] == r.value
                          && Total(r.value) > 0
                          && (forall j :: 0 <= j < |h.entries| ==> Total(h.entries[j]) <= Total(r.value))
                          && (forall j :: 0 <= j < i ==> Total(h.entries[j]) < Total(r.value))
  {
    r := None;
    var highestEarnings := 0;
    ghost var at := 0;
    var i := 0;
    while i < |h.entries|
      invariant 0 <= i <= |h.entries|
      invariant r.None? ==> highestEarnings == 0
      invariant forall k :: 0 <= k < i ==> Total(h.entries[k]) <= highestEarnings
      invariant r.Some? ==> && at < i && h.entries[at] == r.value
                            && Total(r.value) == highestEarnings > 0
                            && forall j :: 0 <= j < at ==> Total(h.entries[j]) < highestEarnings
    {
      var total := GetTotal(h.entries[i]);
      if total > highestEarnings {
        r := Some(h.entries[i]);
        highestEarnings := total;
        at := i;
      }
      i := i + 1;
    }
    if r.Some? {
      assert 0 <= at < |h.entries| && h.entries[at] == r.value;
    }
  }

  /** `getMostPopularProduct()`. The count map holds, for each barcode sold
      at least once, the number of products with it; `keyOrder` is the
      order in which the HashMap happens to list its keys, which Java leaves
      unspecified, extended with the unsold barcodes (whose zero count can
      never win). Null when nothing was sold; otherwise a barcode sold at
      least as often as every other one. */
  method MostPopularProduct(h: TransactionHistory, keyOrder: seq<Barcode>) returns (r: Option<Barcode>)
    requires ListsEachBarcodeOnce(keyOrder)
    ensures r.None? <==> TotalProductsSold(h) == 0
    ensures r.Some? ==> TotalProductsSoldFor(h, r.value) > 0
    ensures r.Some? ==> forall b :: TotalProductsSoldFor(h, b) <= TotalProductsSoldFor(h, r.value)
  {
    var highestTotal := 0;
    r := None;
    var i := 0;
    while i < |keyOrder|
      invariant 0 <= i <= |keyOrder|
      invariant r.None? <==> highestTotal == 0
      invariant r.Some? ==> highestTotal == TotalProductsSoldFor(h, r.value)
      invariant forall k :: 0 <= k < i ==> TotalProductsSoldFor(h, keyOrder[k]) <= highestTotal
    {
      var count := TotalProductsSoldFor(h, keyOrder[i]);
      if count > highestTotal {
        highestTotal := count;
        r := Some(keyOrder[i]);
      }
      i := i + 1;
    }
    ProductsSoldByBarcode(h);
    assert forall b :: TotalProductsSoldFor(h, b) <= highestTotal by {
      forall b ensures TotalProductsSoldFor(h, b) <= highestTotal {
        assert b in keyOrder;
        var k :| 0 <= k < |keyOrder| && keyOrder[k] == b;
      }
    }
    if r.Some? {
      SoldForAtMostSold(h, r.value);
    }
    assert r.None? ==> TotalProductsSoldFor(h, EGG) == TotalProductsSoldFor(h, MILK)
                       == TotalProductsSoldFor(h, JAM) == TotalProductsSoldFor(h, WOOL) == 0;
  }

  /** `getAverageSpendPerVisit()`, in exact arithmetic: 0 for an empty
      history, otherwise the gross earnings per entry. */
  function AverageSpendPerVisit(h: TransactionHistory): (r: real)
    ensures TotalTransactionsMade(h) == 0 ==> r == 0.0
    ensures TotalTransactionsMade(h) > 0 ==> r * TotalTransactionsMade(h) as real == GrossEarnings(h) as real
  {
    if TotalTransactionsMade(h) == 0 then 0.0
    else Quotient(GrossEarnings(h), TotalTransactionsMade(h))
  }

  /** Exact division of an amount by a positive count. */
  function Quotient(amount: int, count: nat): (q: real)
    requires count > 0
    ensures q * count as real == amount as real
  {
    amount as real / count as real
  }
}
