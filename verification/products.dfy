/** Product values: the barcode and quality enums, the product record and
    its four concrete kinds (Egg, Milk, Jam, Wool).

    The Barcode and Quality enums themselves are not part of this model.
    Their per-constant data (base price, display name, declaration order,
    the REGULAR constant, the printed quality name) is gathered in a
    `Catalog` that the operations take as a parameter and leave
    uninterpreted.
 */
module Products {
  import opened Wrappers
  import opened JavaStrings

  /** The product kinds, as FarmManager's product-name switch lists them. */
  datatype Barcode = EGG | MILK | JAM | WOOL

  /** A quality grade, identified by the position of its constant in the
      Quality enum; enum comparison compares these positions. */
  datatype Quality = Quality(ordinal: nat)

  /** The uninterpreted constant data of the Barcode and Quality enums. */
  datatype Catalog = Catalog(
    basePrice: Barcode -> int,
    displayName: Barcode -> string,
    declarationOrder: seq<Barcode>,   // Barcode.values()
    regular: Quality,                 // Quality.REGULAR
    qualityName: Quality -> string)   // Quality.toString()

  /** No barcode occurs twice in `order`. */
  predicate NoRepeats(order: seq<Barcode>) {
    forall i, j :: 0 <= i < j < |order| ==> order[i] != order[j]
  }

  /** `order` lists every barcode exactly once, as `Barcode.values()` and
      the key set of a map holding every barcode do. */
  predicate ListsEachBarcodeOnce(order: seq<Barcode>) {
    && (forall b: Barcode :: b in order)
    && NoRepeats(order)
  }

  predicate ValidCatalog(cat: Catalog) {
    ListsEachBarcodeOnce(cat.declarationOrder)
  }

  /** One product instance; `price` is its base price in cents. */
  datatype Product = Product(barcode: Barcode, quality: Quality, price: int)

  /** `Product.equals`: same barcode and same quality; the price is ignored. */
  predicate SameProduct(a: Product, b: Product): (r: bool)
    ensures r <==> a.(price := b.price) == b
  {
    a.barcode == b.barcode && a.quality == b.quality
  }

  /** `equals` is an equivalence relation, and it cannot see the price. */
  lemma SameProductIsEquivalence(a: Product, b: Product, c: Product, price: int)
    ensures SameProduct(a, a)
    ensures SameProduct(a, b) <==> SameProduct(b, a)
    ensures SameProduct(a, b) && SameProduct(b, c) ==> SameProduct(a, c)
    ensures SameProduct(a, a.(price := price))
    ensures SameProduct(a, b) <==> (a.barcode == b.barcode && a.quality == b.quality)
  {
  }

  /** `getDisplayName`: the display name of the product's barcode. It is
      what `toString` begins with, and equal products share it. */
  function DisplayName(cat: Catalog, p: Product): (r: string)
    ensures |r| <= |ProductToString(cat, p)| && ProductToString(cat, p)[..|r|] == r
    ensures forall q :: SameProduct(p, q) ==> cat.displayName(q.barcode) == r
  {
    cat.displayName(p.barcode)
  }

  // ---------------------------------------------------------------------
  // The four concrete products, each with its two constructors
  // ---------------------------------------------------------------------

  /** `new Egg()`. */
  function Egg(cat: Catalog): (p: Product)
    ensures p.barcode == EGG && p.quality == cat.regular && p.price == cat.basePrice(EGG)
  {
    Product(EGG, cat.regular, cat.basePrice(EGG))
  }

  /** `new Egg(quality)`. */
  function EggOfQuality(cat: Catalog, quality: Quality): (p: Product)
    ensures p.barcode == EGG && p.quality == quality && p.price == cat.basePrice(EGG)
  {
    Product(EGG, quality, cat.basePrice(EGG))
  }

  /** `new Milk()`. */
  function Milk(cat: Catalog): (p: Product)
    ensures p.barcode == MILK && p.quality == cat.regular && p.price == cat.basePrice(MILK)
  {
    Product(MILK, cat.regular, cat.basePrice(MILK))
  }

  /** `new Milk(quality)`. */
  function MilkOfQuality(cat: Catalog, quality: Quality): (p: Product)
    ensures p.barcode == MILK && p.quality == quality && p.price == cat.basePrice(MILK)
  {
    Product(MILK, quality, cat.basePrice(MILK))
  }

  /** `new Jam()`. */
  function Jam(cat: Catalog): (p: Product)
    ensures p.barcode == JAM && p.quality == cat.regular && p.price == cat.basePrice(JAM)
  {
    Product(JAM, cat.regular, cat.basePrice(JAM))
  }

  /** `new Jam(quality)`. */
  function JamOfQuality(cat: Catalog, quality: Quality): (p: Product)
    ensures p.barcode == JAM && p.quality == quality && p.price == cat.basePrice(JAM)
  {
    Product(JAM, quality, cat.basePrice(JAM))
  }

  /** `new Wool()`. */
  function Wool(cat: Catalog): (p: Product)
    ensures p.barcode == WOOL && p.quality == cat.regular && p.price == cat.basePrice(WOOL)
  {
    Product(WOOL, cat.regular, cat.basePrice(WOOL))
  }

  /** `new Wool(quality)`. */
  function WoolOfQuality(cat: Catalog, quality: Quality): (p: Product)
    ensures p.barcode == WOOL && p.quality == quality && p.price == cat.basePrice(WOOL)
  {
    Product(WOOL, quality, cat.basePrice(WOOL))
  }

  /** The no-argument constructor of each kind is its quality constructor
      applied to REGULAR, and products of different kinds are never equal. */
  lemma DefaultConstructorsAreRegular(cat: Catalog)
    ensures Egg(cat) == EggOfQuality(cat, cat.regular)
    ensures Milk(cat) == MilkOfQuality(cat, cat.regular)
    ensures Jam(cat) == JamOfQuality(cat, cat.regular)
    ensures Wool(cat) == WoolOfQuality(cat, cat.regular)
    ensures forall q1, q2 :: !SameProduct(EggOfQuality(cat, q1), MilkOfQuality(cat, q2))
    ensures forall q1, q2 :: !SameProduct(JamOfQuality(cat, q1), WoolOfQuality(cat, q2))
  {
  }

  /** The inventories' `getProductByBarcode`: the switch that builds a
      product of the requested kind and quality. */
  function ProductOf(cat: Catalog, barcode: Barcode, quality: Quality): (p: Product)
    ensures p.barcode == barcode && p.quality == quality && p.price == cat.basePrice(barcode)
  {
    match barcode
    case EGG => EggOfQuality(cat, quality)
    case JAM => JamOfQuality(cat, quality)
    case MILK => MilkOfQuality(cat, quality)
    case WOOL => WoolOfQuality(cat, quality)
  }

  /** Two products built for the same barcode and quality are equal. */
  lemma ProductOfDeterminesEquality(cat: Catalog, b1: Barcode, q1: Quality, b2: Barcode, q2: Quality)
    ensures SameProduct(ProductOf(cat, b1, q1), ProductOf(cat, b2, q2)) <==> b1 == b2 && q1 == q2
    ensures SameProduct(ProductOf(cat, b1, q1), ProductOf(cat, b2, q2))
            ==> ProductOf(cat, b1, q1) == ProductOf(cat, b2, q2)
  {
  }

  /** `Product.toString`: "<display name>: <price>c *<quality>*". */
  function ProductToString(cat: Catalog, p: Product): (s: string)
    ensures var name := cat.displayName(p.barcode);
            var qname := cat.qualityName(p.quality);
            var digits := IntToString(p.price);
            && |s| == |name| + 2 + |digits| + 3 + |qname| + 1
            && s[..|name|] == name
            && s[|name|..|name| + 2] == ": "
            && ParseInt(s[|name| + 2..|name| + 2 + |digits|]) == Some(p.price)
            && s[|name| + 2 + |digits|..|name| + 5 + |digits|] == "c *"
            && s[|s| - 1 - |qname|..] == qname + "*"
  {
    var name := cat.displayName(p.barcode);
    var digits := IntToString(p.price);
    var qname := cat.qualityName(p.quality);
    IntToStringRoundTrip(p.price);
    ToStringLayout(name, digits, qname);
    name + ": " + digits + "c *" + qname + "*"
  }

  /** Where each part of "<name>: <digits>c *<quality>*" sits. */
  lemma ToStringLayout(name: string, digits: string, qname: string)
    ensures var s := name + ": " + digits + "c *" + qname + "*";
            && |s| == |name| + 2 + |digits| + 3 + |qname| + 1
            && s[..|name|] == name
            && s[|name|..|name| + 2] == ": "
            && s[|name| + 2..|name| + 2 + |digits|] == digits
            && s[|name| + 2 + |digits|..|name| + 5 + |digits|] == "c *"
            && s[|s| - 1 - |qname|..] == qname + "*"
  {
    var head := name + ": " + digits;
    var s := head + "c *" + qname + "*";
    assert s[..|head|] == head;
    assert head[|name| + 2..] == digits;
    assert s[|name| + 2..|name| + 2 + |digits|] == head[|name| + 2..];
  }
}
