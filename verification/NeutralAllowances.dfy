/** Zero-effect allowances are kept as evidence but never change the bill: validation, construction and the
    monetary gate depend on a line's discounts only through its economic ones. */
module NeutralAllowances {
  import opened Core
  import opened Money
  import opened Invoice
  import opened LineEconomics
  import opened VendorBill
  import opened BillValidation
  import opened BillBuilder
  import opened MonetaryGate

  function EraseLine(line: Line): Line {
    line.(discounts := EconomicDiscounts(line))
  }

  function Erase(invoice: Invoice): Invoice {
    invoice.(lines := Map(EraseLine, invoice.lines))
  }

  function EraseRequest(r: Request): Request {
    r.(invoice := Erase(r.invoice))
  }

  lemma NeutralFiltered(before: seq<Discount>, d: Discount, after: seq<Discount>)
    requires Neutral(d)
    ensures Filter(Economic, before + [d] + after) == Filter(Economic, before + after)
  {
    assert Filter(Economic, [d]) == [];
    hide Filter;
    FilterConcat(Economic, before + [d], after);
    FilterConcat(Economic, before, [d]);
    FilterConcat(Economic, before, after);
    assert Filter(Economic, before) + [] == Filter(Economic, before);
  }

  /** Adding one zero-effect allowance anywhere on a line, or removing it, leaves the erased line unchanged. */
  lemma InsertNeutral(line: Line, at: nat, d: Discount)
    requires at <= |line.discounts| && Neutral(d)
    ensures EraseLine(line.(discounts := line.discounts[..at] + [d] + line.discounts[at..])) == EraseLine(line)
  {
    hide Filter;
    NeutralFiltered(line.discounts[..at], d, line.discounts[at..]);
    assert line.discounts == line.discounts[..at] + line.discounts[at..];
  }

  lemma {:induction false} FilterIdempotent<A(!new)>(p: A -> bool, xs: seq<A>)
    ensures Filter(p, Filter(p, xs)) == Filter(p, xs)
  {
    if xs != [] {
      FilterIdempotent(p, xs[1..]);
      if p(xs[0]) {
        assert ([xs[0]] + Filter(p, xs[1..]))[1..] == Filter(p, xs[1..]);
      }
    }
  }

  /** Every per-line quantity of the builder is blind to neutral allowances. */
  lemma EraseLineEconomics(line: Line, precision: Option<Precision>, i: nat)
    ensures EconomicDiscounts(EraseLine(line)) == EconomicDiscounts(line)
    ensures Priced(EraseLine(line)) == Priced(line) && Netted(EraseLine(line)) == Netted(line)
    ensures Netted(line) ==> NetTotal(EraseLine(line)) == NetTotal(line)
    ensures Priced(line) ==>
      && GrossTotal(EraseLine(line)) == GrossTotal(line)
      && DiscountFindings(EraseLine(line), i, precision) == DiscountFindings(line, i, precision)
    ensures Priced(line) && line.quantity.value != 0.0 ==>
      NetUnitPrice(EraseLine(line), precision) == NetUnitPrice(line, precision)
    ensures StatedNet(EraseLine(line), precision) == StatedNet(line, precision)
    ensures LineTax(EraseLine(line)) == LineTax(line)
  {
    FilterIdempotent(Economic, line.discounts);
    hide CurrencyRound, Extended, Filter, DerivedPrice;
    assert TotalDiscount(EraseLine(line)) == TotalDiscount(line);
    if Netted(line) {
      assert Map((t: Tax) => if t.rate.Some? then NetTotal(EraseLine(line)) * (t.rate.value / 100.0)
                             else 0.0, line.taxes)
          == Map((t: Tax) => if t.rate.Some? then NetTotal(line) * (t.rate.value / 100.0) else 0.0, line.taxes);
    }
  }

  lemma {:induction false} EraseTaxFindings(line: Line, i: nat, taxes: TaxTable, upTo: nat)
    requires upTo <= |line.taxes|
    ensures TaxFindingsOfLine(EraseLine(line), i, taxes, upTo) == TaxFindingsOfLine(line, i, taxes, upTo)
  {
    if upTo != 0 {
      EraseTaxFindings(line, i, taxes, upTo - 1);
    }
  }

  lemma EraseLineFindings(line: Line, i: nat, needs: seq<Finding>, taxes: TaxTable, precision: Option<Precision>)
    ensures LineFindings(EraseLine(line), i, needs, taxes, precision) == LineFindings(line, i, needs, taxes, precision)
  {
    hide DiscountFindings, TaxFindingsOfLine;
    EraseLineEconomics(line, precision, i);
    EraseTaxFindings(line, i, taxes, |line.taxes|);
  }

  /** The mode of a request and everything read from its header are untouched. */
  lemma EraseModes(r: Request)
    ensures IdentifierFree(EraseRequest(r).invoice) == IdentifierFree(r.invoice)
    ensures ExpenseMode(EraseRequest(r)) == ExpenseMode(r)
    ensures AccountOnlyLines(EraseRequest(r)) == AccountOnlyLines(r)
    ensures ValidProducts(EraseRequest(r)) == ValidProducts(r)
    ensures HeaderFindings(EraseRequest(r)) == HeaderFindings(r)
    ensures forall ns :: ResolvedAccounts(EraseRequest(r), ns) == ResolvedAccounts(r, ns)
    ensures ProductShapeFindings(EraseRequest(r).invoice, r.products) == ProductShapeFindings(r.invoice, r.products)
  {
    var a, b := r.invoice, EraseRequest(r).invoice;
    assert |a.lines| == |b.lines|;
    assert forall i :: 0 <= i < |a.lines| ==>
      b.lines[i].identified == a.lines[i].identified && b.lines[i].number == a.lines[i].number;
    assert IdentifierFree(b) == IdentifierFree(a);
    assert forall n :: AccountFor(EraseRequest(r), n) == AccountFor(r, n);
  }

  lemma EraseNeeds(r: Request, products: ProductTable, line: Line, i: nat)
    ensures LineNeeds(EraseRequest(r), products, EraseLine(line), i) == LineNeeds(r, products, line, i)
  {
  }

  lemma {:induction false} EraseAllLines(r: Request, products: ProductTable, taxes: TaxTable, upTo: nat)
    requires upTo <= |r.invoice.lines|
    ensures AllLineFindings(EraseRequest(r), products, taxes, upTo) == AllLineFindings(r, products, taxes, upTo)
  {
    hide LineFindings, LineNeeds, EraseLine;
    if upTo != 0 {
      EraseAllLines(r, products, taxes, upTo - 1);
      var line := r.invoice.lines[upTo - 1];
      EraseNeeds(r, products, line, upTo - 1);
      EraseLineFindings(line, upTo - 1, LineNeeds(r, products, line, upTo - 1), taxes, r.precision);
    }
  }

  lemma EraseTotals(invoice: Invoice, precision: Option<Precision>)
    ensures AnyDiscount(Erase(invoice)) == AnyDiscount(invoice)
    ensures TotalsFindings(Erase(invoice), precision) == TotalsFindings(invoice, precision)
  {
    hide CurrencyRound, StatedNet, EconomicDiscounts, MonetaryEqual;
    var a, b := invoice.lines, Erase(invoice).lines;
    forall i | 0 <= i < |a|
      ensures EconomicDiscounts(b[i]) == EconomicDiscounts(a[i])
        && StatedNet(b[i], precision) == StatedNet(a[i], precision)
    {
      EraseLineEconomics(a[i], precision, i);
    }
    assert Map((line: Line) => StatedNet(line, precision), b) == Map((line: Line) => StatedNet(line, precision), a);
  }

  lemma ErasePins(kind: PinKind, pins: PinTable, r: Request, products: ProductTable)
    ensures PinFindings(kind, pins, EraseRequest(r), products) == PinFindings(kind, pins, r, products)
  {
  }

  lemma EraseFindings(r: Request)
    ensures AssetFindings(EraseRequest(r)) == AssetFindings(r)
    ensures GeneralFindings(EraseRequest(r)) == GeneralFindings(r)
  {
    hide AllLineFindings, TaxEvidence, ProductEvidence, HeaderFindings, IdentifierFree, ProductShapeFindings,
      AccountOnlyLines, ExpenseMode, ResolvedAccounts, ValidProducts;
    var taxes := TaxTableOf(r.taxes.results);
    EraseModes(r);
    EraseAllLines(r, map[], taxes, |r.invoice.lines|);
    EraseAllLines(r, ValidProducts(r), taxes, |r.invoice.lines|);
  }

  lemma EraseValidation(r: Request)
    ensures ValidationFindings(EraseRequest(r)) == ValidationFindings(r)
  {
    hide AssetFindings, GeneralFindings, TotalsFindings, PinFindings, AnyDiscount, ValidProducts, ExpenseMode,
      IdentifierFree;
    EraseModes(r);
    EraseFindings(r);
    EraseTotals(r.invoice, r.precision);
    if r.resale.Some? {
      ErasePins(Resale, r.resale.value, r, ValidProducts(r));
    }
    if r.internalUse.Some? {
      ErasePins(InternalUse, r.internalUse.value, r, ValidProducts(r));
    }
  }

  lemma EraseTaxIds(line: Line, ids: map<(Option<string>, int), int>)
    ensures HasTaxIds(EraseLine(line), ids) == HasTaxIds(line, ids)
    ensures HasTaxIds(line, ids) ==> TaxIdsOf(EraseLine(line), ids) == TaxIdsOf(line, ids)
  {
  }

  lemma EraseMakeLine(r: Request, line: Line, product: Option<int>, account: Option<int>, resale: Option<LinePin>,
                      internalUse: Option<LinePin>, model: Option<int>)
    ensures MakeLine(EraseRequest(r), EraseLine(line), product, account, resale, internalUse, model)
         == MakeLine(r, line, product, account, resale, internalUse, model)
  {
    hide NetUnitPrice, Construct, HasTaxIds, TaxIdsOf, TaxIdsByLine, EconomicDiscounts;
    EraseLineEconomics(line, r.precision, 0);
    EraseTaxIds(line, TaxIdsByLine(r.taxes.results));
  }

  lemma EraseBuildProductLine(r: Request, line: Line)
    ensures BuildProductLine(EraseRequest(r), EraseLine(line)) == BuildProductLine(r, line)
  {
    hide MakeLine, EconomicDiscounts, PinFor, ProductsByLine;
    var products := ProductsByLine(r.products.results);
    if line.number in products {
      var product := products[line.number].productId;
      var resale, internalUse := PinOn(r.resale, line), PinOn(r.internalUse, line);
      if resale.Some? {
        EraseMakeLine(r, line, product, Some(resale.value.accountId), resale, None, None);
      } else if internalUse.Some? {
        EraseMakeLine(r, line, product, Some(internalUse.value.accountId), None, internalUse, None);
      } else {
        EraseMakeLine(r, line, product, None, None, None, None);
      }
    }
  }

  lemma EraseBuildLine(r: Request, line: Line)
    ensures BuildLine(EraseRequest(r), EraseLine(line)) == BuildLine(r, line)
  {
    hide MakeLine, IdentifierFree, ResolvedAccounts, EconomicDiscounts, BuildProductLine;
    EraseModes(r);
    EraseBuildProductLine(r, line);
    var accounts := ResolvedAccounts(r, r.accountOnly);
    assert ResolvedAccounts(EraseRequest(r), r.accountOnly) == accounts;
    if r.fixedAsset.Some? {
      EraseMakeLine(r, line, None, Some(r.fixedAsset.value.assetAccountId), None, None,
                    Some(r.fixedAsset.value.depreciationModelId));
    } else if ExpenseMode(r) {
      EraseMakeLine(r, line, None, r.expense.value.accountId, None, None, None);
    } else if line.number.Some? && line.number.value in accounts {
      EraseMakeLine(r, line, None, Some(accounts[line.number.value]), None, None, None);
    }
  }

  lemma {:induction false} EraseBuildLines(r: Request, upTo: nat)
    requires upTo <= |r.invoice.lines|
    ensures BuildLines(EraseRequest(r), upTo) == BuildLines(r, upTo)
  {
    hide BuildLine, EraseLine;
    if upTo != 0 {
      var line, s := r.invoice.lines[upTo - 1], EraseRequest(r);
      EraseBuildLines(r, upTo - 1);
      EraseBuildLine(r, line);
      assert s.invoice.lines[upTo - 1] == EraseLine(line);
      hide EraseRequest;
    }
  }

  lemma EraseBuild(r: Request)
    ensures Build(EraseRequest(r)) == Build(r)
  {
    hide ValidationFindings, BuildLines;
    EraseValidation(r);
    EraseBuildLines(r, |r.invoice.lines|);
  }

  lemma {:induction false} EraseTaxes(lines: seq<Line>)
    ensures TaxesOf(Map(EraseLine, lines)) == TaxesOf(lines)
  {
    if lines != [] {
      var n := |lines| - 1;
      EraseTaxes(lines[..n]);
      assert Map(EraseLine, lines)[..n] == Map(EraseLine, lines[..n]);
    }
  }

  lemma EraseLineAgrees(line: Line, built: BillLine, p: Precision)
    requires Netted(line)
    ensures Netted(EraseLine(line)) && LineAgrees(EraseLine(line), built, p) == LineAgrees(line, built, p)
  {
    EraseLineEconomics(line, None, 0);
    hide MonetaryEqual, NetTotal, EconomicDiscounts, GrossTotal;
  }

  lemma {:induction false} EraseGateLines(invoice: Invoice, lines: seq<BillLine>, p: Precision, upTo: nat)
    requires AllNetted(invoice) && AllNetted(Erase(invoice)) && upTo <= |invoice.lines| == |lines|
    ensures LineFindingsUpTo(Erase(invoice), lines, p, upTo) == LineFindingsUpTo(invoice, lines, p, upTo)
  {
    hide LineAgrees, EraseLine;
    if upTo != 0 {
      EraseGateLines(invoice, lines, p, upTo - 1);
      assert Erase(invoice).lines[upTo - 1] == EraseLine(invoice.lines[upTo - 1]);
      EraseLineAgrees(invoice.lines[upTo - 1], lines[upTo - 1], p);
    }
  }

  lemma EraseMoney(invoice: Invoice, lines: seq<BillLine>, p: Precision)
    ensures MoneyOf(Erase(invoice), lines, p) == MoneyOf(invoice, lines, p)
  {
    hide CurrencyRound, LineTax, Subtotals, Extensions, EraseLine;
    var a, b := invoice.lines, Erase(invoice).lines;
    forall i | 0 <= i < |a|
      ensures LineTax(b[i]) == LineTax(a[i])
    {
      EraseLineEconomics(a[i], None, 0);
    }
    assert Map(LineTax, b) == Map(LineTax, a);
  }

  lemma EraseNetted(invoice: Invoice)
    ensures AllNetted(Erase(invoice)) <==> AllNetted(invoice)
    ensures forall lines :: Evaluable(Erase(invoice), lines) <==> Evaluable(invoice, lines)
  {
    var a, b := invoice.lines, Erase(invoice).lines;
    forall i | 0 <= i < |a|
      ensures Netted(b[i]) == Netted(a[i])
    {
      EraseLineEconomics(a[i], None, 0);
    }
  }

  lemma EraseGate(invoice: Invoice, lines: seq<BillLine>, p: Precision)
    requires Evaluable(invoice, lines)
    ensures Evaluable(Erase(invoice), lines)
      && GateFindings(Erase(invoice), lines, p) == GateFindings(invoice, lines, p)
  {
    EraseNetted(invoice);
    hide MoneyOf, StatedChecks, Mismatches, LineFindingsUpTo, TaxesOf, EconomicDiscounts, AllNetted;
    EraseMoney(invoice, lines, p);
    EraseTaxes(invoice.lines);
    assert SourceTotals(Erase(invoice)) == SourceTotals(invoice);
    if |lines| == |invoice.lines| {
      EraseGateLines(invoice, lines, p, |lines|);
    }
  }

  /** Two requests that differ only in zero-effect allowances, however many and wherever, get the same findings,
      the same bill and the same gate verdict, in every mode. */
  lemma NeutralAllowancesErasable(r: Request, s: Request, lines: seq<BillLine>, p: Precision)
    requires EraseRequest(r) == EraseRequest(s)
    ensures ValidationFindings(r) == ValidationFindings(s)
    ensures Build(r) == Build(s)
    ensures Evaluable(r.invoice, lines) <==> Evaluable(s.invoice, lines)
    ensures Evaluable(r.invoice, lines) && Evaluable(s.invoice, lines) ==>
      GateFindings(r.invoice, lines, p) == GateFindings(s.invoice, lines, p)
  {
    hide ValidationFindings, Build, GateFindings, Evaluable;
    EraseValidation(r);
    EraseValidation(s);
    EraseBuild(r);
    EraseBuild(s);
    EraseNetted(r.invoice);
    EraseNetted(s.invoice);
    if Evaluable(r.invoice, lines) {
      EraseGate(r.invoice, lines, p);
      EraseGate(s.invoice, lines, p);
    }
  }
}
