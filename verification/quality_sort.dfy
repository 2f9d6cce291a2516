/** The stable sort by descending quality that FancyInventory applies with
    `sort(Comparator.comparing(Product::getQuality).reversed())`.

    `List.sort` is stable, so among products of equal quality the input
    order is kept. The model is an insertion sort whose insertion places
    an element in front of every element of equal or lower quality.
 */
module QualitySort {
  import opened Products

  /** Qualities never increase from left to right. */
  predicate SortedByQualityDesc(s: seq<Product>) {
    forall i, j :: 0 <= i < j < |s| ==> s[j].quality.ordinal <= s[i].quality.ordinal
  }

  /** Inserts `x` in front of the first element whose quality is not higher
      than its own. */
  function InsertByQuality(x: Product, s: seq<Product>): (r: seq<Product>)
    ensures multiset(r) == multiset(s) + multiset{x}
    ensures |r| == |s| + 1
  {
    if |s| == 0 then [x]
    else if s[0].quality.ordinal <= x.quality.ordinal then [x] + s
    else
      assert s == [s[0]] + s[1..];
      [s[0]] + InsertByQuality(x, s[1..])
  }

  lemma {:induction false} InsertKeepsSorted(x: Product, s: seq<Product>)
    requires SortedByQualityDesc(s)
    ensures SortedByQualityDesc(InsertByQuality(x, s))
    decreases |s|
  {
    if |s| > 0 && x.quality.ordinal < s[0].quality.ordinal {
      var rest := InsertByQuality(x, s[1..]);
      InsertKeepsSorted(x, s[1..]);
      assert s == [s[0]] + s[1..];
      forall k | 0 <= k < |rest|
        ensures rest[k].quality.ordinal <= s[0].quality.ordinal
      {
        assert rest[k] in multiset(s[1..]) + multiset{x};
        if rest[k] != x {
          assert rest[k] in s[1..];
        }
      }
      assert InsertByQuality(x, s) == [s[0]] + rest;
    }
  }

  /** The stable descending-quality sort. */
  function SortByQualityDesc(s: seq<Product>): (r: seq<Product>)
    ensures multiset(r) == multiset(s)
    ensures |r| == |s|
    ensures SortedByQualityDesc(r)
  {
    if |s| == 0 then []
    else
      assert s == [s[0]] + s[1..];
      var sortedTail := SortByQualityDesc(s[1..]);
      InsertKeepsSorted(s[0], sortedTail);
      InsertByQuality(s[0], sortedTail)
  }

  /** The products of `s` of quality `q`, in their order in `s`. */
  function OfQuality(s: seq<Product>, q: Quality): seq<Product> {
    if |s| == 0 then []
    else (if s[0].quality == q then [s[0]] else []) + OfQuality(s[1..], q)
  }

  lemma {:induction false} InsertKeepsQualityOrder(x: Product, s: seq<Product>, q: Quality)
    ensures OfQuality(InsertByQuality(x, s), q)
            == (if x.quality == q then [x] else []) + OfQuality(s, q)
    decreases |s|
  {
    var r := InsertByQuality(x, s);
    if |s| == 0 {
      assert r == [x];
      assert r[1..] == [];
    } else if s[0].quality.ordinal <= x.quality.ordinal {
      assert r == [x] + s;
      assert r[1..] == s;
    } else {
      var rest := InsertByQuality(x, s[1..]);
      assert r == [s[0]] + rest;
      assert r[1..] == rest;
      InsertKeepsQualityOrder(x, s[1..], q);
    }
  }

  /** Stability: products of any one quality keep their relative order. */
  lemma {:induction false} SortIsStable(s: seq<Product>, q: Quality)
    ensures OfQuality(SortByQualityDesc(s), q) == OfQuality(s, q)
    decreases |s|
  {
    if |s| > 0 {
      SortIsStable(s[1..], q);
      InsertKeepsQualityOrder(s[0], SortByQualityDesc(s[1..]), q);
    }
  }

  /** In a descending list, cutting after `n` elements splits the multiset
      into a part of highest qualities, still descending, and the rest. */
  lemma TakeHighest(sorted: seq<Product>, n: nat)
    requires SortedByQualityDesc(sorted)
    requires n <= |sorted|
    ensures multiset(sorted[..n]) + multiset(sorted[n..]) == multiset(sorted)
    ensures forall p, x :: p in sorted[n..] && x in sorted[..n]
              ==> p.quality.ordinal <= x.quality.ordinal
    ensures SortedByQualityDesc(sorted[..n])
  {
    assert sorted == sorted[..n] + sorted[n..];
    forall i, j | 0 <= i < j < n
      ensures sorted[..n][j].quality.ordinal <= sorted[..n][i].quality.ordinal
    {
      assert sorted[..n][i] == sorted[i] && sorted[..n][j] == sorted[j];
    }
    forall p, x | p in sorted[n..] && x in sorted[..n]
      ensures p.quality.ordinal <= x.quality.ordinal
    {
      var j :| 0 <= j < |sorted[n..]| && sorted[n..][j] == p;
      var i :| 0 <= i < n && sorted[..n][i] == x;
      assert sorted[i] == x && sorted[n + j] == p;
    }
  }
}
