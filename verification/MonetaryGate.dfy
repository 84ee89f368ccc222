/** The pre-write monetary gate: the built bill's money against the source totals at the currency's precision
    (`vendor_bill_money`, `vendor_bill_line_mismatches`, `vendor_bill_monetary_errors` in `app/billing/builder.py`
    and `app/billing/reconciliation.py`). */
module MonetaryGate {
  import opened Core
  import opened Money
  import opened Invoice
  import opened LineEconomics
  import opened VendorBill
  import opened BillValidation
  import opened BillBuilder

  datatype Totals = Totals(untaxed: Option<real>, tax: Option<real>, total: Option<real>)

  datatype BillMoney = BillMoney(computedUntaxed: real, untaxed: real, tax: real, total: real)

  datatype Total = Untaxed | TaxAmount | Gross

  datatype Check = Check(which: Total, actual: Option<real>, expected: Option<real>)

  datatype GateFinding =
    LineCount | LineMismatch(line: nat) | TotalUnavailable(which: Total) | TotalMismatch(which: Total)

  predicate AllNetted(invoice: Invoice) {
    forall i :: 0 <= i < |invoice.lines| ==> Netted(invoice.lines[i])
  }

  /** Lines are compared with their nets only when the bill has as many lines. */
  predicate Comparable(invoice: Invoice, lines: seq<BillLine>) {
    |lines| == |invoice.lines| ==> AllNetted(invoice)
  }

  /** What the gate asserts of its caller: the net it multiplies a tax rate with, or compares, is defined. */
  predicate Evaluable(invoice: Invoice, lines: seq<BillLine>) {
    && Comparable(invoice, lines)
    && forall i, t :: 0 <= i < |invoice.lines| && t in invoice.lines[i].taxes && t.rate.Some? ==>
         Netted(invoice.lines[i])
  }

  // ----- source totals

  function TaxesOf(lines: seq<Line>): seq<Tax> {
    if lines == [] then [] else TaxesOf(lines[..|lines| - 1]) + lines[|lines| - 1].taxes
  }

  function SourceTotals(invoice: Invoice): Totals {
    var taxes := TaxesOf(invoice.lines);
    Totals(
      invoice.taxExclusive,
      if exists t :: t in taxes && t.amount.None? then None
      else Some(Sum(Map((t: Tax) => if t.amount.Some? then t.amount.value else 0.0, taxes))),
      invoice.taxInclusive)
  }

  // ----- bill money

  function SubtotalOf(line: BillLine, p: Precision): real {
    LineSubtotal(line.quantity, line.unitPrice, p)
  }

  function Subtotals(lines: seq<BillLine>, p: Precision): seq<real> {
    Map((line: BillLine) => SubtotalOf(line, p), lines)
  }

  function Extensions(lines: seq<BillLine>): seq<real> {
    Map((line: BillLine) => Extended(line.quantity, line.unitPrice), lines)
  }

  /** A line's tax at full precision: its net times each stated rate. */
  function LineTax(line: Line): real {
    if !Netted(line) then 0.0
    else Sum(Map((t: Tax) => if t.rate.Some? then NetTotal(line) * (t.rate.value / 100.0) else 0.0, line.taxes))
  }

  function MoneyOf(invoice: Invoice, lines: seq<BillLine>, p: Precision): BillMoney {
    var untaxed := Sum(Subtotals(lines, p));
    var tax := CurrencyRound(Sum(Map(LineTax, invoice.lines)), p);
    BillMoney(Sum(Extensions(lines)), untaxed, tax, untaxed + tax)
  }

  // ----- findings

  predicate LineAgrees(source: Line, line: BillLine, p: Precision)
    requires Netted(source)
  {
    MonetaryEqual(Extended(line.quantity, line.unitPrice), NetTotal(source), p)
  }

  function LineFindingsUpTo(invoice: Invoice, lines: seq<BillLine>, p: Precision, upTo: nat): seq<GateFinding>
    requires AllNetted(invoice) && upTo <= |invoice.lines| == |lines|
  {
    if upTo == 0 then []
    else
      LineFindingsUpTo(invoice, lines, p, upTo - 1)
      + (if LineAgrees(invoice.lines[upTo - 1], lines[upTo - 1], p) then [] else [LineMismatch(upTo - 1)])
  }

  function LineMismatches(invoice: Invoice, lines: seq<BillLine>, p: Precision): seq<GateFinding>
    requires Comparable(invoice, lines)
  {
    if |lines| != |invoice.lines| then [LineCount] else LineFindingsUpTo(invoice, lines, p, |lines|)
  }

  function Mismatch(c: Check, p: Precision): seq<GateFinding> {
    if c.actual.None? || c.expected.None? then [TotalUnavailable(c.which)]
    else if MonetaryEqual(c.actual.value, c.expected.value, p) then [] else [TotalMismatch(c.which)]
  }

  function Mismatches(checks: seq<Check>, p: Precision): seq<GateFinding> {
    if checks == [] then []
    else Mismatches(checks[..|checks| - 1], p) + Mismatch(checks[|checks| - 1], p)
  }

  /** Only the totals the source states are compared. */
  function StatedChecks(money: BillMoney, source: Totals): seq<Check> {
    (if source.untaxed.Some? then [Check(Untaxed, Some(money.untaxed), source.untaxed)] else [])
    + (if source.tax.Some? then [Check(TaxAmount, Some(money.tax), source.tax)] else [])
    + (if source.total.Some? then [Check(Gross, Some(money.total), source.total)] else [])
  }

  function GateFindings(invoice: Invoice, lines: seq<BillLine>, p: Precision): seq<GateFinding>
    requires Evaluable(invoice, lines)
  {
    LineMismatches(invoice, lines, p) + Mismatches(StatedChecks(MoneyOf(invoice, lines, p), SourceTotals(invoice)), p)
  }

  method CompareTotals(checks: seq<Check>, p: Precision) returns (findings: seq<GateFinding>)
    ensures findings == Mismatches(checks, p)
  {
    hide MonetaryEqual;
    findings := [];
    for i := 0 to |checks|
      invariant findings == Mismatches(checks[..i], p)
    {
      assert checks[..i + 1][..i] == checks[..i];
      var c := checks[i];
      if c.actual.None? || c.expected.None? {
        findings := findings + [TotalUnavailable(c.which)];
      } else if !MonetaryEqual(c.actual.value, c.expected.value, p) {
        findings := findings + [TotalMismatch(c.which)];
      }
    }
    assert checks[..|checks|] == checks;
  }

  method CompareLines(invoice: Invoice, lines: seq<BillLine>, p: Precision) returns (findings: seq<GateFinding>)
    requires Comparable(invoice, lines)
    ensures findings == LineMismatches(invoice, lines, p)
  {
    hide LineAgrees;
    if |lines| != |invoice.lines| {
      return [LineCount];
    }
    findings := [];
    for i := 0 to |lines|
      invariant findings == LineFindingsUpTo(invoice, lines, p, i)
    {
      if !LineAgrees(invoice.lines[i], lines[i], p) {
        findings := findings + [LineMismatch(i)];
      }
    }
  }

  method RunGate(invoice: Invoice, lines: seq<BillLine>, p: Precision) returns (findings: seq<GateFinding>)
    requires Evaluable(invoice, lines)
    ensures findings == GateFindings(invoice, lines, p)
  {
    hide MoneyOf, SourceTotals, StatedChecks;
    findings := CompareLines(invoice, lines, p);
    var totals := CompareTotals(StatedChecks(MoneyOf(invoice, lines, p), SourceTotals(invoice)), p);
    findings := findings + totals;
  }

  // ----- what an empty gate means

  ghost predicate StatedEqual(actual: real, expected: Option<real>, p: Precision) {
    expected.Some? ==> MonetaryEqual(actual, expected.value, p)
  }

  lemma {:induction false} LineFindingsMeaning(invoice: Invoice, lines: seq<BillLine>, p: Precision, upTo: nat)
    requires AllNetted(invoice) && upTo <= |invoice.lines| == |lines|
    ensures LineFindingsUpTo(invoice, lines, p, upTo) == []
      <==> forall i :: 0 <= i < upTo ==> LineAgrees(invoice.lines[i], lines[i], p)
  {
    hide LineAgrees;
    if upTo != 0 {
      LineFindingsMeaning(invoice, lines, p, upTo - 1);
    }
  }

  lemma TotalsMeaning(money: BillMoney, source: Totals, p: Precision)
    ensures Mismatches(StatedChecks(money, source), p) == [] <==>
      && StatedEqual(money.untaxed, source.untaxed, p)
      && StatedEqual(money.tax, source.tax, p)
      && StatedEqual(money.total, source.total, p)
  {
    hide MonetaryEqual;
    var a := if source.untaxed.Some? then [Check(Untaxed, Some(money.untaxed), source.untaxed)] else [];
    var b := if source.tax.Some? then [Check(TaxAmount, Some(money.tax), source.tax)] else [];
    var c := if source.total.Some? then [Check(Gross, Some(money.total), source.total)] else [];
    MismatchesConcat(a + b, c, p);
    MismatchesConcat(a, b, p);
  }

  lemma {:induction false} MismatchesConcat(xs: seq<Check>, ys: seq<Check>, p: Precision)
    ensures Mismatches(xs + ys, p) == Mismatches(xs, p) + Mismatches(ys, p)
  {
    hide MonetaryEqual;
    if ys == [] {
      assert xs + ys == xs;
    } else {
      var n := |ys| - 1;
      assert (xs + ys)[..|xs + ys| - 1] == xs + ys[..n];
      MismatchesConcat(xs, ys[..n], p);
    }
  }

  /** The gate is silent exactly when lines correspond one-to-one, every line bills its authoritative net, and
      every total the source states is the stored one, all at the currency's precision. */
  lemma GateMeaning(invoice: Invoice, lines: seq<BillLine>, p: Precision)
    requires Evaluable(invoice, lines)
    ensures
      var money, source := MoneyOf(invoice, lines, p), SourceTotals(invoice);
      GateFindings(invoice, lines, p) == [] <==>
        && |lines| == |invoice.lines|
        && (forall i :: 0 <= i < |lines| ==> LineAgrees(invoice.lines[i], lines[i], p))
        && StatedEqual(money.untaxed, source.untaxed, p)
        && StatedEqual(money.tax, source.tax, p)
        && StatedEqual(money.total, source.total, p)
  {
    hide LineAgrees, MoneyOf, SourceTotals, StatedEqual, StatedChecks;
    TotalsMeaning(MoneyOf(invoice, lines, p), SourceTotals(invoice), p);
    if |lines| == |invoice.lines| {
      LineFindingsMeaning(invoice, lines, p, |lines|);
    }
  }

  // ----- bounds

  /** Each stored subtotal is within half a quantum of its exact extension, so `n` of them are within `n` halves. */
  lemma {:induction false} SubtotalsWithin(lines: seq<BillLine>, p: Precision)
    ensures WithinHalfQuanta(Sum(Subtotals(lines, p)), Sum(Extensions(lines)), |lines|, p)
  {
    hide CurrencyRound, Extended, WithinHalfQuanta;
    if lines == [] {
      WithinNothing(p);
    } else {
      var n := |lines| - 1;
      var last := lines[n];
      SubtotalsWithin(lines[..n], p);
      assert Subtotals(lines, p)[..n] == Subtotals(lines[..n], p);
      assert Extensions(lines)[..n] == Extensions(lines[..n]);
      var s, e := Sum(Subtotals(lines[..n], p)), Sum(Extensions(lines[..n]));
      var x, y := SubtotalOf(last, p), Extended(last.quantity, last.unitPrice);
      RoundedWithin(y, p);
      HalfQuantaShift(s, e, x, n, p);
      HalfQuantaShift(x, y, e, 1, p);
      HalfQuantaAdd(s + x, e + x, e + y, n, 1, p);
    }
  }

  /** A bill's money is on the grid, so a stated total that agrees with it is at most half a quantum away. */
  lemma MoneyOnGrid(invoice: Invoice, lines: seq<BillLine>, p: Precision)
    ensures var m := MoneyOf(invoice, lines, p); OnGrid(m.untaxed, p) && OnGrid(m.tax, p) && OnGrid(m.total, p)
  {
    hide CurrencyRound, OnGrid;
    var xs := Subtotals(lines, p);
    forall i | 0 <= i < |xs|
      ensures OnGrid(xs[i], p)
    {
      RoundIdempotent(Extended(lines[i].quantity, lines[i].unitPrice), p);
    }
    GridSum(xs, p);
    RoundIdempotent(Sum(Map(LineTax, invoice.lines)), p);
    GridAdd(Sum(xs), MoneyOf(invoice, lines, p).tax, p);
  }

  lemma AgreedWithin(actual: real, expected: real, p: Precision)
    requires OnGrid(actual, p) && MonetaryEqual(actual, expected, p)
    ensures WithinHalfQuanta(actual, expected, 1, p)
  {
    hide CurrencyRound, OnGrid, WithinHalfQuanta;
    GridFixed(actual, p);
    RoundedWithin(expected, p);
  }

  /** What a silent gate proves about the source: the stored totals add up exactly and are on the grid, the exact line
      extensions are within (n + 1) / 2 quanta of the stated untaxed amount, and three stated totals contradict each
      other by at most 1.5 quanta. */
  lemma GateSoundness(invoice: Invoice, lines: seq<BillLine>, p: Precision)
    requires Evaluable(invoice, lines) && GateFindings(invoice, lines, p) == []
    ensures var money, source := MoneyOf(invoice, lines, p), SourceTotals(invoice);
      && money.total == money.untaxed + money.tax && OnGrid(money.total, p)
      && (source.untaxed.Some? ==> WithinHalfQuanta(money.computedUntaxed, source.untaxed.value, |lines| + 1, p))
      && (source.untaxed.Some? && source.tax.Some? && source.total.Some? ==>
            WithinHalfQuanta(source.untaxed.value + source.tax.value, source.total.value, 3, p))
  {
    hide MonetaryEqual, OnGrid, WithinHalfQuanta, GateFindings, SourceTotals, Subtotals, Extensions, LineAgrees;
    var money, source := MoneyOf(invoice, lines, p), SourceTotals(invoice);
    GateMeaning(invoice, lines, p);
    MoneyOnGrid(invoice, lines, p);
    if source.untaxed.Some? {
      var u := source.untaxed.value;
      AgreedWithin(money.untaxed, u, p);
      SubtotalsWithin(lines, p);
      HalfQuantaFlip(money.untaxed, money.computedUntaxed, |lines|, p);
      HalfQuantaAdd(money.computedUntaxed, money.untaxed, u, |lines|, 1, p);
      if source.tax.Some? && source.total.Some? {
        var t, g := source.tax.value, source.total.value;
        AgreedWithin(money.tax, t, p);
        AgreedWithin(money.total, g, p);
        ThreeTotals(money.untaxed, money.tax, u, t, g, p);
      }
    }
  }

  lemma ThreeTotals(untaxed: real, tax: real, u: real, t: real, g: real, p: Precision)
    requires WithinHalfQuanta(untaxed, u, 1, p) && WithinHalfQuanta(tax, t, 1, p)
      && WithinHalfQuanta(untaxed + tax, g, 1, p)
    ensures WithinHalfQuanta(u + t, g, 3, p)
  {
    hide WithinHalfQuanta;
    HalfQuantaFlip(untaxed, u, 1, p);
    HalfQuantaFlip(tax, t, 1, p);
    HalfQuantaShift(u, untaxed, t, 1, p);
    HalfQuantaShift(t, tax, untaxed, 1, p);
    HalfQuantaAdd(u + t, untaxed + t, untaxed + tax, 1, 1, p);
    HalfQuantaAdd(u + t, untaxed + tax, g, 2, 1, p);
  }

  // ----- from validation to the gate

  lemma CleanPriced(r: Request)
    requires ValidationFindings(r) == []
    ensures AllNetted(r.invoice) && forall i :: 0 <= i < |r.invoice.lines| ==> Priced(r.invoice.lines[i])
  {
    hide ValidationFindings;
    forall i | 0 <= i < |r.invoice.lines|
      ensures Priced(r.invoice.lines[i])
    {
      CleanLine(r, i);
    }
  }

  lemma CleanTotals(r: Request)
    requires ValidationFindings(r) == [] && AnyDiscount(r.invoice)
    ensures TotalsFindings(r.invoice, r.precision) == []
  {
    hide AssetFindings, GeneralFindings, TotalsFindings, PinFindings, AnyDiscount;
  }

  /** The totals invariant carries to the gate: once every line bills its net, the untaxed total of a discounted,
      validated invoice always agrees with the source. */
  lemma TotalsInvariantCarries(r: Request, lines: seq<BillLine>, p: Precision)
    requires ValidationFindings(r) == [] && r.precision == Some(p) && AnyDiscount(r.invoice)
    requires AllNetted(r.invoice) && LineMismatches(r.invoice, lines, p) == []
    ensures r.invoice.taxExclusive.Some?
    ensures MonetaryEqual(MoneyOf(r.invoice, lines, p).untaxed, r.invoice.taxExclusive.value, p)
  {
    hide ValidationFindings, AnyDiscount, CurrencyRound, Extended;
    CleanTotals(r);
    CleanPriced(r);
    LineFindingsMeaning(r.invoice, lines, p, |lines|);
    var nets := Map((line: Line) => StatedNet(line, r.precision), r.invoice.lines);
    assert Subtotals(lines, p) == nets by {
      forall i | 0 <= i < |lines|
        ensures Subtotals(lines, p)[i] == nets[i]
      {
        assert LineAgrees(r.invoice.lines[i], lines[i], p);
      }
    }
  }

  /** Below the quantity limit a bill built from grid nets can never trip the per-line gate. */
  lemma BuiltBillAgrees(r: Request, p: Precision)
    requires Build(r).Built? && r.precision == Some(p)
    requires forall i :: 0 <= i < |r.invoice.lines| ==>
      var line := r.invoice.lines[i];
      line.quantity.Some? && line.quantity.value <= QuantityLimit(p) && GridLine(line, line.quantity.value, p)
    ensures AllNetted(r.invoice) && LineMismatches(r.invoice, Build(r).value.lines, p) == []
  {
    hide ValidationFindings, BuildLines, BadProduct, EvidencedTax, PostedAs, CurrencyRound, QuantityLimit, NetTotal,
      NetUnitPrice;
    ValidationMakesBuildingTotal(r);
    CleanPriced(r);
    var lines := Build(r).value.lines;
    forall i | 0 <= i < |lines|
      ensures LineAgrees(r.invoice.lines[i], lines[i], p)
    {
      var line := r.invoice.lines[i];
      assert Faithful(r, line, lines[i]);
      WithinLimitReproduces(line, line.quantity.value, r.precision, p);
      GridFixed(NetTotal(line), p);
    }
    LineFindingsMeaning(r.invoice, lines, p, |lines|);
  }

  /** Put together: a discounted invoice with grid nets within the quantity limit, once it builds, can only be
      stopped by the gate over its tax or its gross total. */
  lemma OnlyTaxOrGrossCanStop(r: Request, p: Precision)
    requires Build(r).Built? && r.precision == Some(p) && AnyDiscount(r.invoice)
    requires forall i :: 0 <= i < |r.invoice.lines| ==>
      var line := r.invoice.lines[i];
      line.quantity.Some? && line.quantity.value <= QuantityLimit(p) && GridLine(line, line.quantity.value, p)
    ensures AllNetted(r.invoice)
    ensures var money, source := MoneyOf(r.invoice, Build(r).value.lines, p), SourceTotals(r.invoice);
      (GateFindings(r.invoice, Build(r).value.lines, p) == []) <==>
        (StatedEqual(money.tax, source.tax, p) && StatedEqual(money.total, source.total, p))
  {
    BuiltBillAgrees(r, p);
    hide BuildLines, LineMismatches, MonetaryEqual, GridLine, QuantityLimit, AnyDiscount, MoneyOf, LineAgrees;
    TotalsInvariantCarries(r, Build(r).value.lines, p);
    LineCountFromMismatches(r.invoice, Build(r).value.lines, p);
    GateMeaning(r.invoice, Build(r).value.lines, p);
  }

  lemma LineCountFromMismatches(invoice: Invoice, lines: seq<BillLine>, p: Precision)
    requires AllNetted(invoice) && LineMismatches(invoice, lines, p) == []
    ensures |lines| == |invoice.lines|
    ensures forall i :: 0 <= i < |lines| ==> LineAgrees(invoice.lines[i], lines[i], p)
  {
    hide LineAgrees;
    LineFindingsMeaning(invoice, lines, p, |lines|);
  }
}
