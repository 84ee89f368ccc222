/** Which requests pass validation, stated over the invoice and the match evidence alone: no finding lists, no tables,
    no order (`validate_vendor_bill_inputs` and `_fixed_asset_mode_errors` in `app/billing/builder.py`). */
module AcceptableRequests {
  import opened Core
  import opened Money
  import opened Invoice
  import opened MatchTypes
  import opened LineEconomics
  import opened VendorBill
  import opened BillValidation
  import opened BillBuilder

  // ----- what is demanded

  predicate HeaderOk(r: Request) {
    && r.partner.status == Matched && r.partner.partnerId.Some?
    && Strip(r.invoice.invoiceNumber) != "" && r.invoice.issueDate.Some? && !Blank(r.invoice.currency)
    && r.invoice.lines != []
    && (r.companyId.Some? ==> r.companyId.value > 0)
  }

  /** One matched result with a tax id per (line, tax) at most. */
  ghost predicate TaxesOk(taxes: TaxMatch) {
    && taxes.errors == []
    && (forall x :: x in taxes.results ==> x.status == Matched && x.taxId.Some?)
    && (forall i, j :: 0 <= i < j < |taxes.results| ==> TaxKey(taxes.results[i]) != TaxKey(taxes.results[j]))
  }

  /** One matched result with a product id per line at most, apart from skipped lines. */
  ghost predicate ProductsOk(products: ProductMatch, skip: set<string>) {
    && products.errors == []
    && (forall x :: x in products.results && !Skipped(x.lineNumber, skip) ==> x.status == Matched && x.productId.Some?)
    && (forall i, j :: 0 <= i < j < |products.results| && !Skipped(products.results[i].lineNumber, skip) ==>
          products.results[i].lineNumber != products.results[j].lineNumber)
  }

  /** Exactly one INVALID_INPUT result per line, in order. */
  predicate ShapeOk(invoice: Invoice, products: ProductMatch) {
    && products.errors == [] && |products.results| == |invoice.lines|
    && forall i :: 0 <= i < |invoice.lines| ==>
         products.results[i].lineNumber == invoice.lines[i].number && products.results[i].status == InvalidInput
  }

  ghost predicate HasProduct(results: seq<ProductResult>, number: Option<string>) {
    exists x :: x in results && x.lineNumber == number
  }

  ghost predicate HasTax(results: seq<TaxResult>, number: Option<string>, t: int) {
    exists x :: x in results && x.lineNumber == number && x.index == t
  }

  /** Every economic discount states its amount, and together they lie between zero and the gross. */
  predicate DiscountsOk(line: Line, precision: Option<Precision>)
    requires Priced(line)
  {
    EconomicDiscounts(line) != [] ==>
      && (forall j :: 0 <= j < |EconomicDiscounts(line)| ==> EconomicDiscounts(line)[j].amount.Some?)
      && 0.0 <= TotalDiscount(line)
      && (match precision
          case None => TotalDiscount(line) <= GrossTotal(line) + LEGACY_TOTALS_TOLERANCE
          case Some(p) => CurrencyRound(TotalDiscount(line), p) <= CurrencyRound(GrossTotal(line), p))
  }

  ghost predicate LineNeedMet(r: Request, line: Line) {
    if r.fixedAsset.Some? then !Blank(line.description)
    else ExpenseMode(r) || Skipped(line.number, AccountOnlyLines(r)) || HasProduct(r.products.results, line.number)
  }

  ghost predicate LineOk(r: Request, line: Line) {
    && !Blank(line.number) && LineNeedMet(r, line)
    && Priced(line) && line.quantity.value > 0.0 && line.unitPrice.value >= 0.0
    && (forall t :: 0 <= t < |line.taxes| ==> HasTax(r.taxes.results, line.number, t))
    && DiscountsOk(line, r.precision)
  }

  predicate Reconciles(invoice: Invoice, precision: Option<Precision>) {
    && invoice.taxExclusive.Some?
    && (match precision
        case None => AbsR(NetSum(invoice, precision) - invoice.taxExclusive.value) <= LEGACY_TOTALS_TOLERANCE
        case Some(p) => MonetaryEqual(NetSum(invoice, precision), invoice.taxExclusive.value, p))
  }

  ghost predicate PinOk(r: Request, key: string, pin: LinePin) {
    && pin.issued && pin.lineNumber == key
    && exists x :: x in r.products.results && x.lineNumber == Some(key) && x.productId == Some(pin.productId)
  }

  /** Pins cover exactly the lines of a pure product bill, each sealed for its own line and matched product. */
  ghost predicate PinsOk(kind: PinKind, pins: Option<PinTable>, r: Request) {
    pins.Some? ==>
      && pins.value != [] && (kind == InternalUse ==> r.resale.None?)
      && !ExpenseMode(r) && AccountOnlyLines(r) == {} && Covers(pins.value, r.invoice)
      && forall i :: 0 <= i < |pins.value| ==> PinOk(r, pins.value[i].0, pins.value[i].1)
  }

  ghost predicate AssetOk(r: Request) {
    && r.internalUse.None? && r.expense.None? && r.resale.None? && r.accountOnly == {} && |r.explicitAccounts| == 0
    && IdentifierFree(r.invoice) && ShapeOk(r.invoice, r.products)
  }

  /** Account-only decisions and an ambiguous commercial purchase are resolved. */
  ghost predicate PreludeOk(r: Request) {
    && (r.invoice.productSource ==> r.accountOnly == {} && |r.explicitAccounts| == 0)
    && (r.invoice.productSource && IdentifierFree(r.invoice) ==> r.expense.Some? && r.expense.value.reviewResolution)
    && (forall n :: n in AccountOnlyLines(r) ==> AccountFor(r, n).Some?)
  }

  /** Product evidence of the mode. */
  ghost predicate StageOk(r: Request) {
    if ExpenseMode(r) then ShapeOk(r.invoice, r.products) else ProductsOk(r.products, AccountOnlyLines(r))
  }

  ghost predicate GeneralOk(r: Request) {
    PreludeOk(r) && StageOk(r) && PinsOk(Resale, r.resale, r) && PinsOk(InternalUse, r.internalUse, r)
  }

  ghost predicate Acceptable(r: Request) {
    && !r.invoice.isReturn && HeaderOk(r) && TaxesOk(r.taxes)
    && (if r.fixedAsset.Some? then AssetOk(r) else GeneralOk(r))
    && (forall i :: 0 <= i < |r.invoice.lines| ==> LineOk(r, r.invoice.lines[i]))
    && (AnyDiscount(r.invoice) ==> Reconciles(r.invoice, r.precision))
  }

  // ----- evidence tables

  ghost predicate TaxResultsOk(xs: seq<TaxResult>) {
    && (forall x :: x in xs ==> x.status == Matched && x.taxId.Some?)
    && (forall i, j :: 0 <= i < j < |xs| ==> TaxKey(xs[i]) != TaxKey(xs[j]))
  }

  lemma {:induction false} TaxKeys(xs: seq<TaxResult>)
    ensures forall k :: k in TaxTableOf(xs) ==> exists x :: x in xs && TaxKey(x) == k
    ensures (forall x :: x in xs ==> x.status == Matched && x.taxId.Some?) ==>
      forall x :: x in xs ==> TaxKey(x) in TaxTableOf(xs)
  {
    if xs != [] {
      var n := |xs| - 1;
      TaxKeys(xs[..n]);
      assert xs == xs[..n] + [xs[n]];
    }
  }

  lemma TaxResultsLast(xs: seq<TaxResult>)
    requires xs != []
    ensures var n := |xs| - 1;
      TaxResultsOk(xs) <==>
        && TaxResultsOk(xs[..n]) && xs[n].status == Matched && xs[n].taxId.Some?
        && TaxKey(xs[n]) !in TaxTableOf(xs[..n])
  {
    var n := |xs| - 1;
    TaxKeys(xs[..n]);
    assert xs == xs[..n] + [xs[n]];
  }

  lemma {:induction false} TaxResultsExactly(xs: seq<TaxResult>)
    ensures TaxFindings(xs) == [] <==> TaxResultsOk(xs)
  {
    if xs != [] {
      TaxResultsExactly(xs[..|xs| - 1]);
      TaxResultsLast(xs);
      hide TaxResultsOk, TaxTableOf;
    }
  }

  lemma EvaluationsEmpty(errors: seq<string>)
    ensures Evaluations(errors) == [] <==> errors == []
  {
    assert |Evaluations(errors)| == |errors|;
  }

  lemma TaxesExactly(taxes: TaxMatch)
    ensures TaxEvidence(taxes) == [] <==> TaxesOk(taxes)
    ensures TaxesOk(taxes) ==>
      forall number, t :: (number, t) in TaxTableOf(taxes.results) <==> HasTax(taxes.results, number, t)
  {
    EvaluationsEmpty(taxes.errors);
    TaxResultsExactly(taxes.results);
    TaxKeys(taxes.results);
    hide TaxTableOf, TaxFindings, Evaluations;
    if TaxesOk(taxes) {
      forall number, t
        ensures (number, t) in TaxTableOf(taxes.results) <==> HasTax(taxes.results, number, t)
      {
        if HasTax(taxes.results, number, t) {
          var x :| x in taxes.results && x.lineNumber == number && x.index == t;
          assert TaxKey(x) == (number, t);
        }
      }
    }
  }

  ghost predicate ProductResultsOk(xs: seq<ProductResult>, skip: set<string>) {
    && (forall x :: x in xs && !Skipped(x.lineNumber, skip) ==> x.status == Matched && x.productId.Some?)
    && (forall i, j :: 0 <= i < j < |xs| && !Skipped(xs[i].lineNumber, skip) ==> xs[i].lineNumber != xs[j].lineNumber)
  }

  lemma {:induction false} ProductKeys(xs: seq<ProductResult>, skip: set<string>)
    ensures forall k :: k in ProductTableOf(xs, skip) ==> !Skipped(k, skip) && HasProduct(xs, k)
    ensures (forall x :: x in xs && !Skipped(x.lineNumber, skip) ==> x.status == Matched && x.productId.Some?) ==>
      forall x :: x in xs && !Skipped(x.lineNumber, skip) ==> x.lineNumber in ProductTableOf(xs, skip)
  {
    if xs != [] {
      var n := |xs| - 1;
      ProductKeys(xs[..n], skip);
      assert xs == xs[..n] + [xs[n]];
    }
  }

  lemma ProductResultsLast(xs: seq<ProductResult>, skip: set<string>)
    requires xs != []
    ensures var n := |xs| - 1;
      ProductResultsOk(xs, skip) <==>
        && ProductResultsOk(xs[..n], skip)
        && (!Skipped(xs[n].lineNumber, skip) ==>
              xs[n].status == Matched && xs[n].productId.Some? && xs[n].lineNumber !in ProductTableOf(xs[..n], skip))
  {
    var n := |xs| - 1;
    ProductKeys(xs[..n], skip);
    hide ProductTableOf;
    assert xs == xs[..n] + [xs[n]];
  }

  lemma {:induction false} ProductResultsExactly(xs: seq<ProductResult>, skip: set<string>)
    ensures ProductFindings(xs, skip) == [] <==> ProductResultsOk(xs, skip)
  {
    if xs != [] {
      ProductResultsExactly(xs[..|xs| - 1], skip);
      ProductResultsLast(xs, skip);
      hide ProductResultsOk, ProductTableOf;
    }
  }

  lemma ProductsExactly(products: ProductMatch, skip: set<string>)
    ensures ProductEvidence(products, skip) == [] <==> ProductsOk(products, skip)
    ensures ProductsOk(products, skip) ==>
      forall k :: k in ProductTableOf(products.results, skip) <==> !Skipped(k, skip) && HasProduct(products.results, k)
  {
    EvaluationsEmpty(products.errors);
    ProductResultsExactly(products.results, skip);
    ProductKeys(products.results, skip);
    hide ProductTableOf, ProductFindings, Evaluations;
  }

  // ----- lines

  ghost predicate TaxesEvidenced(line: Line, taxes: TaxTable, upTo: nat) {
    forall t :: 0 <= t < upTo ==> (line.number, t) in taxes
  }

  lemma {:induction false} LineTaxesExactly(line: Line, i: nat, taxes: TaxTable, upTo: nat)
    requires upTo <= |line.taxes|
    ensures TaxFindingsOfLine(line, i, taxes, upTo) == [] <==> TaxesEvidenced(line, taxes, upTo)
  {
    if upTo != 0 {
      LineTaxesExactly(line, i, taxes, upTo - 1);
    }
  }

  lemma DiscountsExactly(line: Line, i: nat, precision: Option<Precision>)
    requires Priced(line)
    ensures DiscountFindings(line, i, precision) == [] <==> DiscountsOk(line, precision)
  {
    hide CurrencyRound, TotalDiscount, GrossTotal, EconomicDiscounts;
  }

  lemma LineExactly(r: Request, line: Line, i: nat, needs: seq<Finding>, taxes: TaxTable)
    requires needs == [] <==> LineNeedMet(r, line)
    requires forall number, t :: (number, t) in taxes <==> HasTax(r.taxes.results, number, t)
    ensures LineFindings(line, i, needs, taxes, r.precision) == [] <==> LineOk(r, line)
  {
    LineTaxesExactly(line, i, taxes, |line.taxes|);
    if Priced(line) {
      DiscountsExactly(line, i, r.precision);
    }
    hide TaxFindingsOfLine, DiscountFindings, DiscountsOk, LineNeedMet, HasTax, Blank;
  }

  lemma {:induction false} LinesExactly(r: Request, products: ProductTable, taxes: TaxTable, upTo: nat)
    requires upTo <= |r.invoice.lines|
    requires forall number, t :: (number, t) in taxes <==> HasTax(r.taxes.results, number, t)
    requires forall i :: 0 <= i < upTo ==>
      (LineNeeds(r, products, r.invoice.lines[i], i) == [] <==> LineNeedMet(r, r.invoice.lines[i]))
    ensures AllLineFindings(r, products, taxes, upTo) == [] <==>
      forall i :: 0 <= i < upTo ==> LineOk(r, r.invoice.lines[i])
  {
    hide LineOk, LineFindings, LineNeeds, LineNeedMet, HasTax;
    if upTo != 0 {
      var line := r.invoice.lines[upTo - 1];
      LinesExactly(r, products, taxes, upTo - 1);
      LineExactly(r, line, upTo - 1, LineNeeds(r, products, line, upTo - 1), taxes);
    }
  }

  // ----- pins

  lemma PinExactly(r: Request, kind: PinKind, key: string, pin: LinePin)
    requires ProductsOk(r.products, {})
    ensures PinFinding(kind, key, pin, ProductTableOf(r.products.results, {})) == [] <==> PinOk(r, key, pin)
  {
    var xs, table := r.products.results, ProductTableOf(r.products.results, {});
    ProductsExactly(r.products, {});
    CleanProducts(xs, {});
    hide ProductTableOf, ProductsByLine;
    assert forall x :: x in xs ==> !Skipped(x.lineNumber, {});
    assert forall x :: x in xs ==> x.lineNumber in table && table[x.lineNumber] == x;
  }

  lemma {:induction false} PinTableExactly(r: Request, kind: PinKind, pins: seq<(string, LinePin)>)
    requires ProductsOk(r.products, {})
    ensures PinTableFindings(kind, pins, ProductTableOf(r.products.results, {})) == [] <==>
      forall i :: 0 <= i < |pins| ==> PinOk(r, pins[i].0, pins[i].1)
  {
    hide PinOk, ProductTableOf, PinFinding, ProductsOk;
    if pins != [] {
      var n := |pins| - 1;
      PinTableExactly(r, kind, pins[..n]);
      PinExactly(r, kind, pins[n].0, pins[n].1);
      assert forall i :: 0 <= i < n ==> pins[..n][i] == pins[i];
    }
  }

  lemma PinsExactly(r: Request, kind: PinKind, pins: Option<PinTable>)
    requires !ExpenseMode(r) ==> ProductsOk(r.products, AccountOnlyLines(r))
    ensures OptionalPinFindings(kind, pins, r, ValidProducts(r)) == [] <==> PinsOk(kind, pins, r)
  {
    hide ProductTableOf, PinOk, PinTableFindings, ProductsOk, ExpenseMode, Covers;
    if pins.Some? && !ExpenseMode(r) && AccountOnlyLines(r) == {} {
      PinTableExactly(r, kind, pins.value);
    }
  }

  // ----- the whole check

  lemma ShapeExactly(invoice: Invoice, products: ProductMatch)
    ensures ProductShapeFindings(invoice, products) == [] <==> ShapeOk(invoice, products)
  {
  }

  lemma HeaderExactly(r: Request)
    ensures CompanyFindings(r) + HeaderFindings(r) == [] <==> HeaderOk(r)
  {
    hide Strip, Blank;
  }

  lemma AccountsExactly(r: Request)
    ensures AccountOnlyLines(r) - ResolvedAccounts(r, AccountOnlyLines(r)).Keys == {} <==>
      forall n :: n in AccountOnlyLines(r) ==> AccountFor(r, n).Some?
  {
    hide AccountFor;
    var lines := AccountOnlyLines(r);
    hide AccountOnlyLines;
    assert forall n :: n in lines - ResolvedAccounts(r, lines).Keys <==> n in lines && AccountFor(r, n).None?;
  }

  lemma TotalsExactly(invoice: Invoice, precision: Option<Precision>)
    ensures TotalsFindings(invoice, precision) == [] <==> Reconciles(invoice, precision)
  {
    hide MonetaryEqual, NetSum;
  }

  /** The table the line loop consults holds exactly the lines that have a product result. */
  lemma NeedsExactly(r: Request, i: nat)
    requires i < |r.invoice.lines|
      && (r.fixedAsset.None? && !ExpenseMode(r) ==> ProductsOk(r.products, AccountOnlyLines(r)))
    ensures LineNeeds(r, LoopProducts(r), r.invoice.lines[i], i) == [] <==> LineNeedMet(r, r.invoice.lines[i])
  {
    if r.fixedAsset.None? && !ExpenseMode(r) {
      ProductsExactly(r.products, AccountOnlyLines(r));
    }
    hide ProductTableOf, ExpenseMode, AccountOnlyLines, HasProduct, ProductsOk, Blank;
  }

  lemma AllLinesExactly(r: Request)
    requires TaxesOk(r.taxes) && (r.fixedAsset.None? && !ExpenseMode(r) ==> ProductsOk(r.products, AccountOnlyLines(r)))
    ensures AllLineFindings(r, LoopProducts(r), TaxTableOf(r.taxes.results), |r.invoice.lines|) == [] <==>
      forall i :: 0 <= i < |r.invoice.lines| ==> LineOk(r, r.invoice.lines[i])
  {
    TaxesExactly(r.taxes);
    forall i | 0 <= i < |r.invoice.lines|
      ensures LineNeeds(r, LoopProducts(r), r.invoice.lines[i], i) == [] <==> LineNeedMet(r, r.invoice.lines[i])
    {
      NeedsExactly(r, i);
    }
    hide LineNeeds, LineNeedMet, LoopProducts, TaxTableOf, LineOk, AllLineFindings;
    LinesExactly(r, LoopProducts(r), TaxTableOf(r.taxes.results), |r.invoice.lines|);
  }

  lemma AssetExactly(r: Request)
    requires r.fixedAsset.Some? && r.internalUse.None?
    ensures AssetFindings(r) == [] <==>
      && HeaderOk(r) && TaxesOk(r.taxes) && AssetOk(r)
      && forall i :: 0 <= i < |r.invoice.lines| ==> LineOk(r, r.invoice.lines[i])
  {
    HeaderExactly(r);
    ShapeExactly(r.invoice, r.products);
    TaxesExactly(r.taxes);
    if TaxesOk(r.taxes) {
      AllLinesExactly(r);
    }
    hide HeaderOk, CompanyFindings, HeaderFindings, ShapeOk, ProductShapeFindings, TaxEvidence, TaxesOk,
      AllLineFindings, LineOk,
      TaxTableOf, IdentifierFree, HasTax, ExpenseMode, AccountOnlyLines, ProductsOk;
  }

  predicate GeneralSilent(r: Request) {
    && GeneralFindings(r) == []
    && OptionalPinFindings(Resale, r.resale, r, ValidProducts(r)) == []
    && OptionalPinFindings(InternalUse, r.internalUse, r, ValidProducts(r)) == []
  }

  lemma PreludeExactly(r: Request)
    ensures GeneralPrelude(r) == [] <==> HeaderOk(r) && PreludeOk(r)
  {
    HeaderExactly(r);
    AccountsExactly(r);
    hide HeaderOk, CompanyFindings, HeaderFindings, IdentifierFree, AccountOnlyLines, ResolvedAccounts, AccountFor;
  }

  lemma StageExactly(r: Request)
    ensures ProductStage(r) == [] <==> StageOk(r)
  {
    ShapeExactly(r.invoice, r.products);
    ProductsExactly(r.products, AccountOnlyLines(r));
    hide ShapeOk, ProductShapeFindings, ExpenseMode, AccountOnlyLines, ProductsOk, ProductEvidence;
  }

  lemma GeneralExactly(r: Request)
    requires r.fixedAsset.None?
    ensures GeneralSilent(r) <==>
      && HeaderOk(r) && TaxesOk(r.taxes) && GeneralOk(r)
      && forall i :: 0 <= i < |r.invoice.lines| ==> LineOk(r, r.invoice.lines[i])
  {
    PreludeExactly(r);
    StageExactly(r);
    TaxesExactly(r.taxes);
    if StageOk(r) {
      PinsExactly(r, Resale, r.resale);
      PinsExactly(r, InternalUse, r.internalUse);
      if TaxesOk(r.taxes) {
        AllLinesExactly(r);
      }
    }
    hide HeaderOk, PreludeOk, StageOk, GeneralPrelude, ProductStage, TaxEvidence, TaxesOk, AllLineFindings, LineOk,
      TaxTableOf, HasTax, ValidProducts, PinsOk, OptionalPinFindings;
  }

  /** Validation is silent exactly on acceptable requests, in every mode. */
  lemma AcceptableExactly(r: Request)
    ensures ValidationFindings(r) == [] <==> Acceptable(r)
  {
    TotalsExactly(r.invoice, r.precision);
    if r.fixedAsset.None? {
      GeneralExactly(r);
    } else if r.internalUse.None? {
      AssetExactly(r);
    }
    hide HeaderOk, TaxesOk, GeneralOk, LineOk, AnyDiscount, Reconciles, TotalsFindings, GeneralFindings, AssetFindings,
      ValidProducts,
      OptionalPinFindings, IdentifierFree, ShapeOk;
  }
}
