/**
 * The three mock backend lookups of the tool registry. Each is a pure
 * function of its one string argument that normalises it, tests IDs or
 * keywords in a fixed priority order and returns a canned record.
 */
module MockApis {
  import opened Wrappers
  import opened JsString

  /** A JSON value appearing in a lookup record. */
  datatype Value = Str(s: string) | Num(n: int)

  /** The property names the lookup records use. */
  datatype Key =
    | Status | Location | DeliveryDate | Error
    | Product | Stock | Price | RestockDate | Note
    | City | Address | Phone | Timing | Advice

  /** An object literal: its properties by name, each named at most once. */
  type Record = map<Key, Value>

  /** `record[key]`, `undefined` (`None`) when the property is absent. */
  function Get(r: Record, key: Key): Option<Value> {
    if key in r then Some(r[key]) else None
  }

  /** The record has an entry `key` whose value is the string `s`. */
  predicate HasStr(r: Record, key: Key, s: string) {
    Get(r, key) == Some(Str(s))
  }

  // ---------------------------------------------------------------- trackOrder

  /** The order ID as `trackOrder` compares it: upper-cased, first `#` removed. */
  function NormalizeOrderId(orderId: string): string {
    RemoveFirst(ToUpper(orderId), '#')
  }

  /** The canned texts of the order records. */
  const OrderNotFound := "Order ID not found. Please ask the user to check their order number."
  const BhiwandiHub := "Hub Facility, Bhiwandi, Maharashtra"
  const KoramangalaReception := "Reception, Koramangala, Bangalore"
  const NoidaWarehouse := "Central Warehouse, Noida"

  function TrackOrder(orderId: string): (r: Record)
    ensures var id := NormalizeOrderId(orderId);
      && (HasStr(r, Status, "In Transit") <==> id == "ORD-123")
      && (HasStr(r, Status, "Delivered") <==> id == "ORD-456")
      && (HasStr(r, Status, "Processing") <==>
            StartsWith(id, "ORD") && id != "ORD-123" && id != "ORD-456")
      && (Get(r, Status).Some? <==> StartsWith(id, "ORD"))
      && (Get(r, Error).Some? <==> !StartsWith(id, "ORD"))
  {
    var id := NormalizeOrderId(orderId);
    if id == "ORD-123" then
      map[Status := Str("In Transit"),
       Location := Str(BhiwandiHub),
       DeliveryDate := Str("15th Nov")]
    else if id == "ORD-456" then
      map[Status := Str("Delivered"),
       Location := Str(KoramangalaReception),
       DeliveryDate := Str("10th Nov")]
    else if StartsWith(id, "ORD") then
      map[Status := Str("Processing"),
       Location := Str(NoidaWarehouse),
       DeliveryDate := Str("TBD")]
    else
      map[Error := Str(OrderNotFound)]
  }

  /** A leading `#` is dropped and the rest upper-cased. */
  lemma NormalizeLeadingHash(orderId: string)
    requires orderId != [] && orderId[0] == '#'
    ensures NormalizeOrderId(orderId) == ToUpper(orderId[1..])
  {
    var upper := ToUpper(orderId);
    assert upper[0] == '#';
    assert upper[1..] == ToUpper(orderId[1..]);
  }

  /** An ID without `#` is only upper-cased. */
  lemma NormalizeWithoutHash(orderId: string)
    requires '#' !in orderId
    ensures NormalizeOrderId(orderId) == ToUpper(orderId)
  {
    var upper := ToUpper(orderId);
    RemoveFirstDeletesFirst(upper, '#');
    assert IndexOf(upper, '#') == |upper|;
  }

  /** Case and a leading `#` do not matter: `#ord-123` is the order in transit. */
  lemma LowerCaseHashIdIsInTransit()
    ensures NormalizeOrderId("#ord-123") == "ORD-123"
    ensures HasStr(TrackOrder("#ord-123"), Status, "In Transit")
  {
    var orderId := "#ord-123";
    NormalizeLeadingHash(orderId);
    assert orderId[1..] == "ord-123";
    assert ToUpper("ord-123") == "ORD-123";
  }

  /**
   * Only the first `#` is removed, so an ID with a doubled `#` in front keeps
   * one after normalisation and is never recognised: `##ORD-123` is not
   * found.
   */
  lemma DoubleHashIdIsNotFound(orderId: string)
    requires |orderId| >= 2 && orderId[0] == '#' && orderId[1] == '#'
    ensures NormalizeOrderId(orderId) == ToUpper(orderId[1..]) && NormalizeOrderId(orderId)[0] == '#'
    ensures HasStr(TrackOrder(orderId), Error, OrderNotFound)
    ensures Get(TrackOrder(orderId), Status) == None
  {
    NormalizeLeadingHash(orderId);
    var id := NormalizeOrderId(orderId);
    assert id[0] == UpperChar(orderId[1]);
    assert !StartsWith(id, "ORD") by {
      assert id[0] == '#';
    }
  }

  /** Other `ORD` IDs are processing: `ORD-999` is. */
  lemma OtherOrdIdIsProcessing()
    ensures HasStr(TrackOrder("ORD-999"), Status, "Processing")
  {
    var orderId := "ORD-999";
    NormalizeWithoutHash(orderId);
    assert ToUpper(orderId) == orderId;
  }

  /** An ID without the `ORD` prefix is not found: `XYZ` gets an error and no status. */
  lemma UnprefixedIdIsNotFound()
    ensures Get(TrackOrder("XYZ"), Error).Some? && Get(TrackOrder("XYZ"), Status).None?
  {
    var orderId := "XYZ";
    NormalizeWithoutHash(orderId);
    assert ToUpper(orderId) == orderId;
  }

  // ---------------------------------------------------------------- checkStock

  /** The canned texts of the stock records. */
  const LaptopProduct := "Pro Series Laptop"
  const HeadphonesProduct := "Sonic X Headphones"
  const PhoneProduct := "Phone Series 5"
  const LaptopPrice := "\U{20B9}94,999"
  const HeadphonesPrice := "\U{20B9}2,499"
  const NotInCatalog := "Item not found in catalog."

  function CheckStock(productName: string): (r: Record)
    ensures var lower := ToLower(productName);
      var laptop := Includes(lower, "laptop") || Includes(lower, "book");
      var headphones := Includes(lower, "headphone") || Includes(lower, "audio");
      var phone := Includes(lower, "phone") || Includes(lower, "mobile");
      && (HasStr(r, Status, "In Stock") <==> laptop)
      && (HasStr(r, Status, "Low Stock") <==> !laptop && headphones)
      && (HasStr(r, Status, "Out of Stock") <==> !laptop && !headphones && phone)
      && (HasStr(r, Status, "Unknown Item") <==> !laptop && !headphones && !phone)
      && (laptop ==> HasStr(r, Product, LaptopProduct) && HasStr(r, Price, LaptopPrice))
      && (HasStr(r, Status, "Unknown Item") ==>
            HasStr(r, Product, productName) && Get(r, Stock) == Some(Num(0)))
  {
    var lowerName := ToLower(productName);
    if Includes(lowerName, "laptop") || Includes(lowerName, "book") then
      map[Product := Str(LaptopProduct), Stock := Num(42),
       Status := Str("In Stock"), Price := Str(LaptopPrice)]
    else if Includes(lowerName, "headphone") || Includes(lowerName, "audio") then
      map[Product := Str(HeadphonesProduct), Stock := Num(15),
       Status := Str("Low Stock"), Price := Str(HeadphonesPrice)]
    else if Includes(lowerName, "phone") || Includes(lowerName, "mobile") then
      map[Product := Str(PhoneProduct), Stock := Num(0),
       Status := Str("Out of Stock"), RestockDate := Str("1st Dec")]
    else
      map[Product := Str(productName), Stock := Num(0),
       Status := Str("Unknown Item"), Note := Str(NotInCatalog)]
  }

  /**
   * Every name mentioning a headphone also mentions a phone, yet the
   * headphone test comes first: such a name is never reported out of stock.
   */
  lemma {:induction false} HeadphoneIsNeverOutOfStock(productName: string)
    requires Includes(ToLower(productName), "headphone")
    ensures Includes(ToLower(productName), "phone")
    ensures !HasStr(CheckStock(productName), Status, "Out of Stock")
    ensures HasStr(CheckStock(productName), Status, "In Stock") ||
            HasStr(CheckStock(productName), Status, "Low Stock")
    ensures !Includes(ToLower(productName), "laptop") && !Includes(ToLower(productName), "book") ==>
            HasStr(CheckStock(productName), Status, "Low Stock")
  {
    assert OccursAt("headphone", "phone", 4);
    IncludesTransitive(ToLower(productName), "headphone", "phone");
  }

  /**
   * An unmatched name, here any spelling of "umbrella", is reported as an
   * unknown item and echoed back exactly as given, not lower-cased.
   */
  lemma UnknownItemEchoesInput(productName: string)
    requires ToLower(productName) == "umbrella"
    ensures HasStr(CheckStock(productName), Status, "Unknown Item")
    ensures HasStr(CheckStock(productName), Product, productName)
    ensures Get(CheckStock(productName), Stock) == Some(Num(0))
  {
    var lower := ToLower(productName);
    MissingCharExcludes(lower, "laptop", 'p');
    MissingCharExcludes(lower, "book", 'o');
    MissingCharExcludes(lower, "headphone", 'h');
    MissingCharExcludes(lower, "audio", 'd');
    MissingCharExcludes(lower, "phone", 'p');
    MissingCharExcludes(lower, "mobile", 'o');
  }

  /** "gaming laptop", in any casing, is the laptop in stock at its price. */
  lemma GamingLaptopInStock(productName: string)
    requires ToLower(productName) == "gaming laptop"
    ensures HasStr(CheckStock(productName), Status, "In Stock")
    ensures HasStr(CheckStock(productName), Price, LaptopPrice)
  {
    assert Includes(ToLower(productName), "laptop") by {
      var lower := ToLower(productName);
      assert OccursAt(lower, "laptop", 7);
    }
  }

  /** "wireless headphone" mentions a phone but is the low-stock headphone. */
  lemma WirelessHeadphoneLowStock(productName: string)
    requires ToLower(productName) == "wireless headphone"
    ensures HasStr(CheckStock(productName), Status, "Low Stock")
  {
    WirelessHeadphoneKeywords(ToLower(productName));
    HeadphoneIsNeverOutOfStock(productName);
  }

  lemma WirelessHeadphoneKeywords(lower: string)
    requires lower == "wireless headphone"
    ensures !Includes(lower, "laptop") && !Includes(lower, "book")
    ensures Includes(lower, "headphone")
  {
    MissingCharExcludes(lower, "laptop", 't');
    MissingCharExcludes(lower, "book", 'k');
    assert OccursAt(lower, "headphone", 9);
  }

  // --------------------------------------------------------- findServiceCenter

  /** The canned texts of the service-centre records. */
  const MumbaiAddress := "Shop 12, Phoenix Market City, Kurla, Mumbai"
  const MumbaiPhone := "022-12345678"
  const MumbaiTiming := "10 AM - 8 PM"
  const DelhiAddress := "Sector 18, Noida Electronic City, UP"
  const DelhiPhone := "011-87654321"
  const DelhiTiming := "10 AM - 7 PM"
  const BangaloreAddress := "100ft Road, Indiranagar, Bangalore"
  const BangalorePhone := "080-45671234"
  const BangaloreTiming := "10 AM - 9 PM"
  const NoCenter := "No specific center found"
  const PartnerAdvice := "Please visit our nearest partner store or mail support@techsanju.in"

  function FindServiceCenter(city: string): (r: Record)
    ensures var lower := ToLower(city);
      var mumbai := Includes(lower, "mumbai");
      var delhi := Includes(lower, "delhi") || Includes(lower, "noida");
      var bangalore := Includes(lower, "bangalore") || Includes(lower, "bengaluru");
      && (mumbai ==> HasStr(r, City, "Mumbai"))
      && (!mumbai && delhi ==> HasStr(r, City, "Delhi NCR"))
      && (!mumbai && !delhi && bangalore ==> HasStr(r, City, "Bangalore"))
      && (Get(r, Address).Some? <==> mumbai || delhi || bangalore)
      && (Get(r, Advice).Some? <==> !mumbai && !delhi && !bangalore)
      && (!mumbai && !delhi && !bangalore ==> HasStr(r, City, city) && HasStr(r, Status, NoCenter))
  {
    var lowerCity := ToLower(city);
    if Includes(lowerCity, "mumbai") then
      map[City := Str("Mumbai"),
       Address := Str(MumbaiAddress),
       Phone := Str(MumbaiPhone), Timing := Str(MumbaiTiming)]
    else if Includes(lowerCity, "delhi") || Includes(lowerCity, "noida") then
      map[City := Str("Delhi NCR"),
       Address := Str(DelhiAddress),
       Phone := Str(DelhiPhone), Timing := Str(DelhiTiming)]
    else if Includes(lowerCity, "bangalore") || Includes(lowerCity, "bengaluru") then
      map[City := Str("Bangalore"),
       Address := Str(BangaloreAddress),
       Phone := Str(BangalorePhone), Timing := Str(BangaloreTiming)]
    else
      map[City := Str(city), Status := Str(NoCenter),
       Advice := Str(PartnerAdvice)]
  }

  /** "Mumbai", in any casing, gets the Mumbai centre. */
  lemma MumbaiHasCenter(city: string)
    requires ToLower(city) == "mumbai"
    ensures HasStr(FindServiceCenter(city), City, "Mumbai")
    ensures HasStr(FindServiceCenter(city), Phone, MumbaiPhone)
  {
    assert OccursAt(ToLower(city), "mumbai", 0);
  }

  /** "Pune" has no centre: the advisory record, echoing the city as given. */
  lemma PuneGetsAdvisory(city: string)
    requires ToLower(city) == "pune"
    ensures HasStr(FindServiceCenter(city), City, city)
    ensures HasStr(FindServiceCenter(city), Status, NoCenter)
    ensures Get(FindServiceCenter(city), Address).None?
  {
    var lower := ToLower(city);
    MissingCharExcludes(lower, "mumbai", 'm');
    MissingCharExcludes(lower, "delhi", 'd');
    MissingCharExcludes(lower, "noida", 'o');
    MissingCharExcludes(lower, "bangalore", 'b');
    MissingCharExcludes(lower, "bengaluru", 'b');
  }

  // ------------------------------------------------------------------ the table

  /** A tool call's argument object; only string-valued entries are modelled. */
  type Args = map<string, string>

  /** What a lookup throws when its parameter is absent: reading a string method of `undefined`. */
  datatype TypeError = MissingParameter(tool: string, param: string)

  predicate IsRegistered(name: string) {
    name == "trackOrder" || name == "checkStock" || name == "findServiceCenter"
  }

  /** The parameter each registered lookup destructures from its arguments. */
  function ParamOf(name: string): string
    requires IsRegistered(name)
  {
    if name == "trackOrder" then "orderId"
    else if name == "checkStock" then "productName"
    else "city"
  }

  /**
   * `mockAPIs[name]` applied to `args`: `None` when no lookup is registered
   * under `name`; otherwise the lookup's record, or the error it throws.
   */
  function Handler(name: string, args: Args): (r: Option<Result<Record, TypeError>>)
    ensures r.None? <==> !IsRegistered(name)
    ensures r.Some? ==> (r.value.Err? <==> ParamOf(name) !in args)
    ensures r.Some? && r.value.Err? ==> r.value.error == MissingParameter(name, ParamOf(name))
    ensures name == "trackOrder" && "orderId" in args ==> r == Some(Ok(TrackOrder(args["orderId"])))
    ensures name == "checkStock" && "productName" in args ==> r == Some(Ok(CheckStock(args["productName"])))
    ensures name == "findServiceCenter" && "city" in args ==> r == Some(Ok(FindServiceCenter(args["city"])))
  {
    if name == "trackOrder" then
      Some(if "orderId" in args then Ok(TrackOrder(args["orderId"])) else Err(MissingParameter(name, "orderId")))
    else if name == "checkStock" then
      Some(if "productName" in args then Ok(CheckStock(args["productName"])) else Err(MissingParameter(name, "productName")))
    else if name == "findServiceCenter" then
      Some(if "city" in args then Ok(FindServiceCenter(args["city"])) else Err(MissingParameter(name, "city")))
    else
      None
  }
}
