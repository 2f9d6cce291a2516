/** The pure helpers of FarmManager: product names to barcodes, the
    transaction-kind flag and the arity rule of the start command. */
module FarmManagerHelpers {
  import opened Wrappers
  import opened JavaStrings
  import opened Products

  /** The lower-case name by which the command line names each barcode. */
  function ProductName(b: Barcode): string {
    match b
    case EGG => "egg"
    case MILK => "milk"
    case JAM => "jam"
    case WOOL => "wool"
  }

  /** `convertProductName(productName)`: the exact, case-sensitive names
      only; anything else is an InvalidStockRequest. */
  function ConvertProductName(productName: string): (r: Result<Barcode>)
    ensures r.Ok? <==> exists b: Barcode :: ProductName(b) == productName
    ensures r.Ok? ==> ProductName(r.value) == productName
    ensures r.Err? ==> r.error == InvalidStockRequest
  {
    if productName == "egg" then assert ProductName(EGG) == productName; Ok(EGG)
    else if productName == "milk" then assert ProductName(MILK) == productName; Ok(MILK)
    else if productName == "jam" then assert ProductName(JAM) == productName; Ok(JAM)
    else if productName == "wool" then assert ProductName(WOOL) == productName; Ok(WOOL)
    else
      assert forall b: Barcode :: ProductName(b) != productName;
      Err(InvalidStockRequest)
  }

  /** Every barcode's name converts back to that barcode. */
  lemma ConvertProductNameRoundTrip(b: Barcode)
    ensures ConvertProductName(ProductName(b)) == Ok(b)
  {
  }

  /** `getBarcode(productName)`: lower-cases the name first, then the same
      four names; null (`None`) for anything else. */
  function GetBarcode(productName: string): (r: Option<Barcode>)
    ensures r.Some? ==> ProductName(r.value) == ToLower(productName)
    ensures r.None? <==> forall b: Barcode :: ProductName(b) != ToLower(productName)
  {
    var lower := ToLower(productName);
    if lower == "egg" then Some(EGG)
    else if lower == "milk" then Some(MILK)
    else if lower == "jam" then Some(JAM)
    else if lower == "wool" then Some(WOOL)
    else
      assert forall b: Barcode :: ProductName(b) != lower;
      None
  }

  /** `getBarcode` is `convertProductName` after lower-casing, so it does
      not see case, and it accepts every name `convertProductName` does. */
  lemma GetBarcodeIsCaseInsensitiveConvert(name: string, other: string)
    ensures GetBarcode(name).Some? <==> ConvertProductName(ToLower(name)).Ok?
    ensures GetBarcode(name).Some? ==> ConvertProductName(ToLower(name)) == Ok(GetBarcode(name).value)
    ensures ToLower(name) == ToLower(other) ==> GetBarcode(name) == GetBarcode(other)
    ensures ConvertProductName(name).Ok? ==> GetBarcode(name) == Some(ConvertProductName(name).value)
  {
    if ConvertProductName(name).Ok? {
      var b := ConvertProductName(name).value;
      assert ToLower(name) == name by {
        match b
        case EGG => assert name == "egg";
        case MILK => assert name == "milk";
        case JAM => assert name == "jam";
        case WOOL => assert name == "wool";
      }
    }
  }

  /** The transaction kinds `createTransaction` can build. */
  datatype TransactionKind = SpecialSale | Categorised | Plain

  /** `createTransaction(transactionType, customer)`'s flag dispatch. */
  function TransactionKindOf(flag: string): (k: TransactionKind)
    ensures k == SpecialSale <==> flag in {"-s", "-specialsale"}
    ensures k == Categorised <==> flag in {"-c", "-categorised"}
  {
    match flag
    case "-s" => SpecialSale
    case "-specialsale" => SpecialSale
    case "-c" => Categorised
    case "-categorised" => Categorised
    case _ => Plain
  }

  /** `handleStartTransaction(input)`: the flag passed on, or `None` for
      the incorrect-arguments message. */
  function StartTransactionFlag(input: seq<string>): (r: Option<string>)
    ensures r.None? <==> |input| != 1 && |input| != 2
    ensures r.Some? ==> r.value == if |input| == 1 then "" else input[1]
  {
    if |input| == 1 then Some("")
    else if |input| == 2 then Some(input[1])
    else None
  }

  /** A start command without a flag, and one with any flag other than the
      four special ones, starts a plain transaction. */
  lemma StartWithoutFlagIsPlain(command: string, flag: string)
    requires flag !in {"-s", "-specialsale", "-c", "-categorised"}
    ensures TransactionKindOf(StartTransactionFlag([command]).value) == Plain
    ensures TransactionKindOf(StartTransactionFlag([command, flag]).value) == Plain
  {
  }
}
