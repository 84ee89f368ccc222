/** Requests that show the exact conditions are met: one that validates and is then rejected, and, for every quantity
    above the posting-price limit, one that validates and builds but is stopped by the monetary gate. */
module RequestExamples {
  import opened Core
  import opened Money
  import opened MatchTypes
  import opened Source = Invoice
  import opened LineEconomics
  import opened VendorBill
  import opened BillValidation
  import opened AcceptableRequests
  import opened BillBuilder
  import opened MonetaryGate

  /** A one-line product invoice with matched supplier and product. */
  function PlainRequest(line: Line, productId: int, precision: Option<Precision>): Request {
    Request(Source.Invoice.Invoice("N", Some(0), Some("TRY"), false, false, None, None, [line]),
            PartnerMatch(Matched, Some(1), 1),
            ProductMatch([ProductResult(line.number, Matched, Some(productId))], []), TaxMatch([], []),
            None, None, {}, None, map[], None, None, precision, None)
  }

  lemma Texts()
    ensures !Blank(Some("1")) && !Blank(Some("TRY")) && Strip("N") != ""
  {
    assert StripLeft("1") == "1" && StripRight("1") == "1";
    assert StripLeft("TRY") == "TRY" && StripRight("TRY") == "TRY";
    assert StripLeft("N") == "N" && StripRight("N") == "N";
  }

  /** Validation has nothing against such a request, whatever the product id. */
  lemma PlainRequestPasses(line: Line, productId: int, precision: Option<Precision>)
    requires Bare(line) && line.quantity.Some? && line.quantity.value > 0.0
    ensures ValidationFindings(PlainRequest(line, productId, precision)) == []
  {
    var r := PlainRequest(line, productId, precision);
    Texts();
    assert HasProduct(r.products.results, line.number) by {
      assert r.products.results[0] in r.products.results;
    }
    assert EconomicDiscounts(line) == [];
    hide Blank, Strip;
    assert LineOk(r, line);
    assert !AnyDiscount(r.invoice);
    assert Acceptable(r);
    AcceptableExactly(r);
  }

  function SampleLine(): Line {
    Line(Some("1"), None, true, Some(1.0), Some(0.0), None, [], [])
  }

  /** Its one line is a plain product line, bad exactly when the product id is not positive. */
  lemma PlainRequestProduct(line: Line, productId: int, precision: Option<Precision>)
    ensures BadProduct(PlainRequest(line, productId, precision), line) <==> productId <= 0
  {
    var r := PlainRequest(line, productId, precision);
    assert ProductResult(line.number, Matched, Some(productId)) in r.products.results;
    assert EvidencedProduct(r, line.number, productId);
    assert forall x :: x in r.products.results ==> x == r.products.results[0];
  }

  /** The exception to total building exists: product id 0 passes validation and the line constructor rejects it. */
  lemma BadProductPassesValidation()
    ensures var r := PlainRequest(SampleLine(), 0, None);
      ValidationFindings(r) == [] && BadProduct(r, r.invoice.lines[0]) && Build(r) == Raised(LineRejected)
  {
    var r := PlainRequest(SampleLine(), 0, None);
    PlainRequestPasses(SampleLine(), 0, None);
    PlainRequestProduct(SampleLine(), 0, None);
    assert r.invoice.lines[0] == SampleLine();
    hide ValidationFindings, Build, BadProduct;
    ValidationMakesBuildingTotal(r);
  }

  lemma PlainRequestBuilds(line: Line, p: Precision)
    requires Bare(line) && line.quantity.Some? && line.quantity.value > 0.0
    ensures var r := PlainRequest(line, 1, Some(p));
      && ValidationFindings(r) == [] && Build(r).Built? && |Build(r).value.lines| == 1
      && Faithful(r, line, Build(r).value.lines[0])
  {
    var r := PlainRequest(line, 1, Some(p));
    PlainRequestPasses(line, 1, Some(p));
    PlainRequestProduct(line, 1, Some(p));
    hide ValidationFindings, Build, Faithful, BadProduct;
    ValidationMakesBuildingTotal(r);
  }

  /** The failure of the posting price reaches the gate: for every quantity above the limit there is a validated,
      built bill whose line net is on the grid and which the gate stops. */
  lemma GateStopsBeyondLimit(q: real, p: Precision) returns (r: Request)
    requires q > QuantityLimit(p)
    ensures r.precision == Some(p) && ValidationFindings(r) == [] && Build(r).Built?
    ensures |r.invoice.lines| == 1 && GridLine(r.invoice.lines[0], q, p)
    ensures AllNetted(r.invoice) && LineMismatches(r.invoice, Build(r).value.lines, p) == [LineMismatch(0)]
  {
    var line := BeyondLimitFails(q, Some(p), p);
    r := PlainRequest(line, 1, Some(p));
    PlainRequestBuilds(line, p);
    var built := Build(r).value.lines;
    GridFixed(NetTotal(line), p);
    assert built[0].quantity == q && built[0].unitPrice == NetUnitPrice(line, Some(p));
    hide ValidationFindings, Build, Faithful, CurrencyRound, NetUnitPrice, NetTotal, OnGrid, Extended;
    assert !LineAgrees(line, built[0], p);
    assert LineFindingsUpTo(r.invoice, built, p, 0) == [];
    assert LineFindingsUpTo(r.invoice, built, p, 1) == [] + [LineMismatch(0)];
  }

  /** Every line is of quantity `q` and nets a whole number of quanta. */
  ghost predicate UniformGrid(r: Request, q: real, p: Precision) {
    forall i :: 0 <= i < |r.invoice.lines| ==> GridLine(r.invoice.lines[i], q, p)
  }

  /** The line gate is silent on every built bill of this request shape. */
  ghost predicate GateSilent(q: real, p: Precision) {
    forall r: Request :: r.precision == Some(p) && Build(r).Built? && UniformGrid(r, q, p) ==>
      AllNetted(r.invoice) && LineMismatches(r.invoice, Build(r).value.lines, p) == []
  }

  /** End to end: the line gate can never stop a built bill with grid nets if and only if the quantity is within the
      limit. */
  lemma GateReachExact(q: real, p: Precision)
    requires q > 0.0
    ensures GateSilent(q, p) <==> q <= QuantityLimit(p)
  {
    hide Build, QuantityLimit, GridLine, LineMismatches, ValidationFindings;
    if q <= QuantityLimit(p) {
      forall r: Request | r.precision == Some(p) && Build(r).Built? && UniformGrid(r, q, p)
        ensures AllNetted(r.invoice) && LineMismatches(r.invoice, Build(r).value.lines, p) == []
      {
        GridQuantities(r, q, p);
        BuiltBillAgrees(r, p);
      }
    } else {
      var r := GateStopsBeyondLimit(q, p);
      assert UniformGrid(r, q, p);
    }
  }

  lemma GridQuantities(r: Request, q: real, p: Precision)
    requires UniformGrid(r, q, p)
    ensures forall i :: 0 <= i < |r.invoice.lines| ==>
      var line := r.invoice.lines[i];
      line.quantity.Some? && line.quantity.value == q && GridLine(line, line.quantity.value, p)
  {
  }
}
