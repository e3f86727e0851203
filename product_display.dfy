/** What the detector makes of one product query's outcome: the per-ingredient status,
    the products it lists and the tiered sales figure it shows for each. */
module ProductDisplay {
  import opened Wrappers
  import ProductApi

  /** One element of the response's `results`, as the detector reads it; `sales` is None
      when the member is missing or null. */
  datatype RawMatch = RawMatch(
    product: string,
    productId: string,
    sales: Option<real>,
    zeroWaste: bool,
    suggestedAddons: seq<string>)

  /** How a query settled: a parsed response body whose `results` may be absent, or a
      rejection (network or JSON failure) carrying the error's message. */
  datatype FetchOutcome =
    | Delivered(results: Option<seq<RawMatch>>)
    | Rejected(message: string)

  /** A product card as listed under its ingredient. */
  datatype ShownProduct = ShownProduct(
    product: string,
    productId: string,
    displaySales: real,
    zeroWaste: bool,
    suggestedAddons: seq<string>)

  /** The state of one ingredient's products panel. `Loaded([])` is the "No products found"
      message. */
  datatype Status =
    | Loading
    | Loaded(products: seq<ShownProduct>)
    | Failed(message: string)

  /** The prototype divider applied to the backend's whole-sale amount. */
  function NormalizeSales(raw: real): (r: real)
    ensures raw >= 0.0 ==> 0.0 <= r <= raw
    ensures r == raw <==> raw <= 20.0
  {
    if raw > 100.0 then raw / 5.0
    else if raw > 50.0 then raw / 4.0
    else if raw > 20.0 then raw / 3.0
    else raw
  }

  lemma NormalizeSalesExamples()
    ensures NormalizeSales(150.0) == 30.0
    ensures NormalizeSales(100.0) == 25.0
    ensures NormalizeSales(60.0) == 15.0
    ensures NormalizeSales(51.0) == 12.75
    ensures NormalizeSales(50.0) == 50.0 / 3.0
    ensures NormalizeSales(21.0) == 7.0
    ensures NormalizeSales(20.0) == 20.0
    ensures NormalizeSales(0.0) == 0.0
  {
  }

  /** The figure shown for a match: a missing amount counts as 0. */
  function DisplaySales(m: RawMatch): (r: real)
    ensures m.sales.None? ==> r == 0.0
  {
    NormalizeSales(m.sales.GetOr(0.0))
  }

  function Show(m: RawMatch): ShownProduct {
    ShownProduct(m.product, m.productId, DisplaySales(m), m.zeroWaste, m.suggestedAddons)
  }

  /** The matches a delivered body lists; none when `results` is absent. */
  function Matches(outcome: FetchOutcome): seq<RawMatch> {
    match outcome
    case Delivered(results) => results.GetOr([])
    case Rejected(_) => []
  }

  /** The `.then` / `.catch` handlers of one product query. */
  function Settle(outcome: FetchOutcome): (s: Status)
    ensures s != Loading
    ensures s.Failed? <==> outcome.Rejected?
    ensures outcome.Rejected? ==> s.message == outcome.message
    ensures outcome.Delivered? ==>
      && |s.products| == |Matches(outcome)|
      && forall i :: 0 <= i < |s.products| ==> s.products[i] == Show(Matches(outcome)[i])
  {
    match outcome
    case Rejected(message) => Failed(message)
    case Delivered(results) =>
      if results.Some? && |results.value| > 0 then
        Loaded(seq(|results.value|, i requires 0 <= i < |results.value| => Show(results.value[i])))
      else
        Loaded([])
  }

  /** An empty and an absent result list both give "No products found", which is not an error. */
  lemma EmptyAndAbsentAgree()
    ensures Settle(Delivered(Some([]))) == Settle(Delivered(None)) == Loaded([])
  {
  }

  /** A "Spinach" match with sales 120 is shown at 24 and keeps its zero-waste flag. */
  lemma SpinachExample()
    ensures var m := RawMatch("Fresh Spinach 200g", "P1", Some(120.0), true, ["Cheese"]);
      Settle(Delivered(Some([m]))) == Loaded([ShownProduct("Fresh Spinach 200g", "P1", 24.0, true, ["Cheese"])])
  {
    var m := RawMatch("Fresh Spinach 200g", "P1", Some(120.0), true, ["Cheese"]);
    assert Show(m).displaySales == 24.0;
  }

  /** The JSON body the detector receives for a backend response. Error responses still
      parse, and have no `results` member. */
  function Deliver(resp: ProductApi.Response): FetchOutcome {
    match resp
    case Ok(_, results) =>
      Delivered(Some(seq(|results|, i requires 0 <= i < |results| =>
        RawMatch(results[i].product, results[i].productId, Some(results[i].sales),
                 results[i].zeroWaste, results[i].suggestedAddons))))
    case BadRequest(_) => Delivered(None)
    case NotFound(_) => Delivered(None)
  }

  /** Against the backend, a 400 or 404 answer shows "No products found" rather than an
      error, and a 200 answer lists every record with its sales tiered. */
  lemma {:induction false} BackendAnswers(resp: ProductApi.Response)
    ensures !resp.Ok? ==> Settle(Deliver(resp)) == Loaded([])
    ensures resp.Ok? ==> var s := Settle(Deliver(resp));
      && s.Loaded?
      && |s.products| == |resp.results|
      && forall i :: 0 <= i < |resp.results| ==>
           s.products[i].product == resp.results[i].product
           && s.products[i].displaySales == NormalizeSales(resp.results[i].sales)
           && s.products[i].zeroWaste == resp.results[i].zeroWaste
  {
    if resp.Ok? {
      var ms := Matches(Deliver(resp));
      assert |ms| == |resp.results|;
      forall i | 0 <= i < |resp.results|
        ensures Show(ms[i]).displaySales == NormalizeSales(resp.results[i].sales)
      {
        assert ms[i].sales == Some(resp.results[i].sales);
      }
    }
  }
}
