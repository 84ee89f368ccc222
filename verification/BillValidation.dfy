/** Fail-closed validation of Vendor Bill inputs (`validate_vendor_bill_inputs` in `app/billing/builder.py`). */
module BillValidation {
  import opened Core
  import opened Money
  import opened Invoice
  import opened MatchTypes
  import opened LineEconomics
  import opened VendorBill

  datatype ProductResult = ProductResult(lineNumber: Option<string>, status: Status, productId: Option<int>)

  datatype ProductMatch = ProductMatch(results: seq<ProductResult>, errors: seq<string>)

  datatype TaxResult = TaxResult(lineNumber: Option<string>, index: int, status: Status, taxId: Option<int>)

  datatype TaxMatch = TaxMatch(results: seq<TaxResult>, errors: seq<string>)

  /** `reviewResolution`: matched by an explicit review-scoped accounting resolution. */
  datatype ExpenseMatch = ExpenseMatch(status: Status, accountId: Option<int>, reviewResolution: bool)

  datatype RawAsset = RawAsset(assetAccountId: int, depreciationModelId: int)

  /** `FixedAssetAccounting`: its constructor refuses non-positive ids. */
  type FixedAsset = a: RawAsset | a.assetAccountId > 0 && a.depreciationModelId > 0 witness RawAsset(1, 1)

  /** The items of a pin mapping in iteration order; a mapping never repeats a key. */
  type PinTable = t: seq<(string, LinePin)> | forall i, j :: 0 <= i < j < |t| ==> t[i].0 != t[j].0

  datatype Request = Request(
    invoice: Invoice,
    partner: PartnerMatch,
    products: ProductMatch,
    taxes: TaxMatch,
    companyId: Option<int>,
    expense: Option<ExpenseMatch>,
    accountOnly: set<string>,
    accountOnlyExpense: Option<ExpenseMatch>,
    explicitAccounts: map<string, int>,
    resale: Option<PinTable>,
    internalUse: Option<PinTable>,
    precision: Option<Precision>,
    fixedAsset: Option<FixedAsset>)

  datatype PinKind = Resale | InternalUse

  datatype Finding =
    | CompanyIdInvalid
    | ReturnDocument
    | AssetWithInternalUse
    | AssetWithExpense
    | AssetWithAccountOnly
    | AssetWithResale
    | AssetWithIdentifiers
    | AccountOnlyForProductSource
    | AmbiguousCommercialPurchase
    | AccountOnlyUnresolved
    | SupplierUnmatched
    | NumberMissing
    | DateMissing
    | CurrencyMissing
    | NoLines
    | Evaluation(text: string)
    | ProductShape
    | ProductDuplicate(lineNumber: Option<string>)
    | ProductNotMatched(lineNumber: Option<string>)
    | TaxDuplicate(lineNumber: Option<string>, tax: int)
    | TaxNotMatched(lineNumber: Option<string>, tax: int)
    | LineNumberMissing(line: nat)
    | LineDescriptionMissing(line: nat)
    | LineProductUnmatched(line: nat)
    | LineQuantityNotPositive(line: nat)
    | LinePriceMissing(line: nat)
    | LinePriceNegative(line: nat)
    | LineTaxUnmatched(line: nat, tax: int)
    | DiscountWithoutAmount(line: nat)
    | DiscountNegative(line: nat)
    | DiscountExceedsGross(line: nat)
    | TotalMissing
    | TotalsDiffer
    | PinsEmpty(kind: PinKind)
    | PinsCombined
    | PinsOnAccountLines(kind: PinKind)
    | PinsCoverage(kind: PinKind)
    | PinNotIssued(kind: PinKind, key: string)
    | PinWrongLine(kind: PinKind, key: string)
    | PinWrongProduct(kind: PinKind, key: string)

  function When(condition: bool, finding: Finding): seq<Finding> {
    if condition then [finding] else []
  }

  // ----- modes

  function MatchedAccount(m: Option<ExpenseMatch>): Option<int> {
    if m.Some? && m.value.status == Matched && PositiveId(m.value.accountId) then m.value.accountId else None
  }

  predicate ExpenseMode(r: Request) {
    MatchedAccount(r.expense).Some? && IdentifierFree(r.invoice)
  }

  /** Whole-invoice operating expense switches the per-line account-only decisions off. */
  function AccountOnlyLines(r: Request): set<string> {
    if ExpenseMode(r) then {} else r.accountOnly
  }

  /** The account of each account-only line: its explicit account, else the supplier-wide fallback, else none. */
  function AccountFor(r: Request, number: string): Option<int> {
    if number in r.explicitAccounts && r.explicitAccounts[number] > 0 then Some(r.explicitAccounts[number])
    else MatchedAccount(r.accountOnlyExpense)
  }

  function ResolvedAccounts(r: Request, numbers: set<string>): map<string, int> {
    map n | n in numbers && AccountFor(r, n).Some? :: AccountFor(r, n).value
  }

  // ----- match evidence

  type ProductTable = map<Option<string>, ProductResult>

  type TaxTable = map<(Option<string>, int), TaxResult>

  predicate Skipped(number: Option<string>, skip: set<string>) {
    number.Some? && number.value in skip
  }

  /** What one product result adds: a table entry or a finding, or nothing when its line is skipped. */
  function ProductFinding(table: ProductTable, x: ProductResult, skip: set<string>): seq<Finding> {
    if Skipped(x.lineNumber, skip) then []
    else if x.lineNumber in table then [ProductDuplicate(x.lineNumber)]
    else When(x.status != Matched || x.productId.None?, ProductNotMatched(x.lineNumber))
  }

  predicate ProductAccepted(table: ProductTable, x: ProductResult, skip: set<string>) {
    !Skipped(x.lineNumber, skip) && x.lineNumber !in table && x.status == Matched && x.productId.Some?
  }

  function ProductTableOf(xs: seq<ProductResult>, skip: set<string>): ProductTable {
    if xs == [] then map[]
    else
      var n := |xs| - 1;
      var table := ProductTableOf(xs[..n], skip);
      if ProductAccepted(table, xs[n], skip) then table[xs[n].lineNumber := xs[n]] else table
  }

  function ProductFindings(xs: seq<ProductResult>, skip: set<string>): seq<Finding> {
    if xs == [] then []
    else
      var n := |xs| - 1;
      ProductFindings(xs[..n], skip) + ProductFinding(ProductTableOf(xs[..n], skip), xs[n], skip)
  }

  function TaxKey(x: TaxResult): (Option<string>, int) {
    (x.lineNumber, x.index)
  }

  function TaxFinding(table: TaxTable, x: TaxResult): seq<Finding> {
    if TaxKey(x) in table then [TaxDuplicate(x.lineNumber, x.index)]
    else When(x.status != Matched || x.taxId.None?, TaxNotMatched(x.lineNumber, x.index))
  }

  function TaxTableOf(xs: seq<TaxResult>): TaxTable {
    if xs == [] then map[]
    else
      var n := |xs| - 1;
      var table := TaxTableOf(xs[..n]);
      if TaxKey(xs[n]) !in table && xs[n].status == Matched && xs[n].taxId.Some? then table[TaxKey(xs[n]) := xs[n]]
      else table
  }

  function TaxFindings(xs: seq<TaxResult>): seq<Finding> {
    if xs == [] then []
    else
      var n := |xs| - 1;
      TaxFindings(xs[..n]) + TaxFinding(TaxTableOf(xs[..n]), xs[n])
  }

  function Evaluations(errors: seq<string>): seq<Finding> {
    Map((e: string) => Evaluation(e), errors)
  }

  /** An identifier-free invoice must have exactly one INVALID_INPUT product result per line, in order. */
  function ProductShapeFindings(invoice: Invoice, products: ProductMatch): seq<Finding> {
    When(
      || products.errors != []
      || |products.results| != |invoice.lines|
      || (exists i :: 0 <= i < |invoice.lines| && products.results[i].lineNumber != invoice.lines[i].number)
      || (exists i :: 0 <= i < |invoice.lines| && products.results[i].status != InvalidInput),
      ProductShape)
  }

  // ----- lines

  function DiscountFindings(line: Line, i: nat, precision: Option<Precision>): seq<Finding>
    requires Priced(line)
  {
    var discounts := EconomicDiscounts(line);
    if discounts == [] then []
    else if exists j :: 0 <= j < |discounts| && discounts[j].amount.None? then [DiscountWithoutAmount(i)]
    else if TotalDiscount(line) < 0.0 then [DiscountNegative(i)]
    else
      var exceeds :=
        match precision
        case None => TotalDiscount(line) > GrossTotal(line) + LEGACY_TOTALS_TOLERANCE
        case Some(p) => CurrencyRound(TotalDiscount(line), p) > CurrencyRound(GrossTotal(line), p);
      When(exceeds, DiscountExceedsGross(i))
  }

  const LEGACY_TOTALS_TOLERANCE := 0.01

  function TaxFindingsOfLine(line: Line, i: nat, taxes: TaxTable, upTo: nat): seq<Finding>
    requires upTo <= |line.taxes|
  {
    if upTo == 0 then []
    else
      TaxFindingsOfLine(line, i, taxes, upTo - 1)
      + When((line.number, upTo - 1) !in taxes, LineTaxUnmatched(i, upTo - 1))
  }

  function AmountFindings(line: Line, i: nat): seq<Finding> {
    When(line.quantity.None? || line.quantity.value <= 0.0, LineQuantityNotPositive(i))
    + (if line.unitPrice.None? then [LinePriceMissing(i)] else When(line.unitPrice.value < 0.0, LinePriceNegative(i)))
  }

  /** Everything the per-line loop checks of one line; `needs` is the mode-specific requirement. */
  function LineFindings(line: Line, i: nat, needs: seq<Finding>, taxes: TaxTable,
                        precision: Option<Precision>): seq<Finding> {
    if Blank(line.number) then [LineNumberMissing(i)]
    else
      needs
      + AmountFindings(line, i)
      + TaxFindingsOfLine(line, i, taxes, |line.taxes|)
      + (if Priced(line) then DiscountFindings(line, i, precision) else [])
  }

  /** The mode-specific requirement: a label for an asset line, a matched product for a product line. */
  function LineNeeds(r: Request, products: ProductTable, line: Line, i: nat): seq<Finding> {
    if r.fixedAsset.Some? then When(Blank(line.description), LineDescriptionMissing(i))
    else
      When(!ExpenseMode(r) && !Skipped(line.number, AccountOnlyLines(r)) && line.number !in products,
           LineProductUnmatched(i))
  }

  function AllLineFindings(r: Request, products: ProductTable, taxes: TaxTable, upTo: nat): seq<Finding>
    requires upTo <= |r.invoice.lines|
  {
    if upTo == 0 then []
    else
      var line := r.invoice.lines[upTo - 1];
      AllLineFindings(r, products, taxes, upTo - 1)
      + LineFindings(line, upTo - 1, LineNeeds(r, products, line, upTo - 1), taxes, r.precision)
  }

  // ----- totals

  /** A line's net counts toward the totals invariant only when both factors are stated. */
  function StatedNet(line: Line, precision: Option<Precision>): real {
    if !Priced(line) then 0.0
    else match precision
      case None => NetTotal(line)
      case Some(p) => CurrencyRound(NetTotal(line), p)
  }

  function NetSum(invoice: Invoice, precision: Option<Precision>): real {
    Sum(Map((line: Line) => StatedNet(line, precision), invoice.lines))
  }

  function TotalsFindings(invoice: Invoice, precision: Option<Precision>): seq<Finding> {
    if invoice.taxExclusive.None? then [TotalMissing]
    else
      var computed, target := NetSum(invoice, precision), invoice.taxExclusive.value;
      var reconciles :=
        match precision
        case None => AbsR(computed - target) <= LEGACY_TOTALS_TOLERANCE
        case Some(p) => MonetaryEqual(computed, target, p);
      When(!reconciles, TotalsDiffer)
  }

  predicate AnyDiscount(invoice: Invoice) {
    exists i :: 0 <= i < |invoice.lines| && EconomicDiscounts(invoice.lines[i]) != []
  }

  /** The totals invariant runs only on an otherwise clean, discounted invoice. */
  function WithTotals(findings: seq<Finding>, invoice: Invoice, precision: Option<Precision>): seq<Finding> {
    if findings == [] && AnyDiscount(invoice) then TotalsFindings(invoice, precision) else findings
  }

  // ----- pins

  function PinFor(pins: seq<(string, LinePin)>, number: Option<string>): (pin: Option<LinePin>)
    ensures pin.Some? ==> number.Some? && (number.value, pin.value) in pins
    ensures pin.None? ==> forall i :: 0 <= i < |pins| ==> number != Some(pins[i].0)
  {
    if pins == [] then None
    else if number == Some(pins[0].0) then Some(pins[0].1)
    else PinFor(pins[1..], number)
  }

  function PinFinding(kind: PinKind, key: string, pin: LinePin, products: ProductTable): seq<Finding> {
    if !pin.issued then [PinNotIssued(kind, key)]
    else if pin.lineNumber != key || Some(key) !in products then [PinWrongLine(kind, key)]
    else When(products[Some(key)].productId != Some(pin.productId), PinWrongProduct(kind, key))
  }

  function PinTableFindings(kind: PinKind, pins: seq<(string, LinePin)>, products: ProductTable): seq<Finding> {
    if pins == [] then []
    else
      var n := |pins| - 1;
      PinTableFindings(kind, pins[..n], products) + PinFinding(kind, pins[n].0, pins[n].1, products)
  }

  function LineNumbers(invoice: Invoice): set<Option<string>> {
    set i | 0 <= i < |invoice.lines| :: invoice.lines[i].number
  }

  function PinKeys(pins: PinTable): set<Option<string>> {
    set i | 0 <= i < |pins| :: Some(pins[i].0)
  }

  /** The pins name exactly the invoice's line numbers. */
  predicate Covers(pins: PinTable, invoice: Invoice) {
    PinKeys(pins) == LineNumbers(invoice)
  }

  function PinFindings(kind: PinKind, pins: PinTable, r: Request, products: ProductTable): seq<Finding> {
    if pins == [] then [PinsEmpty(kind)]
    else if kind == InternalUse && r.resale.Some? then [PinsCombined]
    else if ExpenseMode(r) || AccountOnlyLines(r) != {} then [PinsOnAccountLines(kind)]
    else if !Covers(pins, r.invoice) then [PinsCoverage(kind)]
    else PinTableFindings(kind, pins, products)
  }

  function OptionalPinFindings(kind: PinKind, pins: Option<PinTable>, r: Request,
                               products: ProductTable): seq<Finding> {
    if pins.None? then [] else PinFindings(kind, pins.value, r, products)
  }

  // ----- the whole check

  function HeaderFindings(r: Request): seq<Finding> {
    When(r.partner.status != Matched || r.partner.partnerId.None?, SupplierUnmatched)
    + When(Strip(r.invoice.invoiceNumber) == "", NumberMissing)
    + When(r.invoice.issueDate.None?, DateMissing)
    + When(Blank(r.invoice.currency), CurrencyMissing)
    + When(r.invoice.lines == [], NoLines)
  }

  function CompanyFindings(r: Request): seq<Finding> {
    When(r.companyId.Some? && r.companyId.value <= 0, CompanyIdInvalid)
  }

  function TaxEvidence(taxes: TaxMatch): seq<Finding> {
    Evaluations(taxes.errors) + TaxFindings(taxes.results)
  }

  function ProductEvidence(products: ProductMatch, skip: set<string>): seq<Finding> {
    Evaluations(products.errors) + ProductFindings(products.results, skip)
  }

  function AssetPrelude(r: Request): seq<Finding> {
    CompanyFindings(r)
    + When(r.expense.Some?, AssetWithExpense)
    + When(r.accountOnly != {} || |r.explicitAccounts| != 0, AssetWithAccountOnly)
    + When(r.resale.Some?, AssetWithResale)
    + HeaderFindings(r)
    + When(!IdentifierFree(r.invoice), AssetWithIdentifiers)
    + ProductShapeFindings(r.invoice, r.products)
  }

  function AssetFindings(r: Request): seq<Finding> {
    AssetPrelude(r) + TaxEvidence(r.taxes) + AllLineFindings(r, map[], TaxTableOf(r.taxes.results), |r.invoice.lines|)
  }

  function GeneralPrelude(r: Request): seq<Finding> {
    CompanyFindings(r)
    + When(r.invoice.productSource && (r.accountOnly != {} || |r.explicitAccounts| != 0), AccountOnlyForProductSource)
    + When(r.invoice.productSource && IdentifierFree(r.invoice)
             && (r.expense.None? || !r.expense.value.reviewResolution),
           AmbiguousCommercialPurchase)
    + When(AccountOnlyLines(r) - ResolvedAccounts(r, AccountOnlyLines(r)).Keys != {}, AccountOnlyUnresolved)
    + HeaderFindings(r)
  }

  function ProductStage(r: Request): seq<Finding> {
    if ExpenseMode(r) then ProductShapeFindings(r.invoice, r.products)
    else ProductEvidence(r.products, AccountOnlyLines(r))
  }

  function GeneralFindings(r: Request): seq<Finding> {
    GeneralPrelude(r) + ProductStage(r) + TaxEvidence(r.taxes)
    + AllLineFindings(r, ValidProducts(r), TaxTableOf(r.taxes.results), |r.invoice.lines|)
  }

  function ValidProducts(r: Request): ProductTable {
    if ExpenseMode(r) then map[] else ProductTableOf(r.products.results, AccountOnlyLines(r))
  }

  function ValidationFindings(r: Request): seq<Finding> {
    if r.invoice.isReturn then [ReturnDocument]
    else if r.fixedAsset.Some? then
      if r.internalUse.Some? then [AssetWithInternalUse] else WithTotals(AssetFindings(r), r.invoice, r.precision)
    else
      WithTotals(GeneralFindings(r), r.invoice, r.precision)
      + OptionalPinFindings(Resale, r.resale, r, ValidProducts(r))
      + OptionalPinFindings(InternalUse, r.internalUse, r, ValidProducts(r))
  }

  // ----- the loops

  lemma ProductsNext(xs: seq<ProductResult>, skip: set<string>, i: nat)
    requires i < |xs|
    ensures var table := ProductTableOf(xs[..i], skip);
      && ProductTableOf(xs[..i + 1], skip)
         == (if ProductAccepted(table, xs[i], skip) then table[xs[i].lineNumber := xs[i]] else table)
      && ProductFindings(xs[..i + 1], skip) == ProductFindings(xs[..i], skip) + ProductFinding(table, xs[i], skip)
  {
    assert xs[..i + 1][..i] == xs[..i];
  }

  lemma NoProducts(skip: set<string>)
    ensures ProductTableOf([], skip) == map[] && ProductFindings([], skip) == []
  {
  }

  method ValidatedProducts(products: ProductMatch, skip: set<string>)
    returns (table: ProductTable, findings: seq<Finding>)
    ensures table == ProductTableOf(products.results, skip)
    ensures findings == ProductEvidence(products, skip)
  {
    hide ProductTableOf, ProductFindings;
    var xs := products.results;
    table, findings := map[], Evaluations(products.errors);
    NoProducts(skip);
    for i := 0 to |xs|
      invariant table == ProductTableOf(xs[..i], skip)
      invariant findings == Evaluations(products.errors) + ProductFindings(xs[..i], skip)
    {
      ProductsNext(xs, skip, i);
      var x := xs[i];
      if Skipped(x.lineNumber, skip) {
        continue;
      }
      if x.lineNumber in table {
        findings := findings + [ProductDuplicate(x.lineNumber)];
        continue;
      }
      if x.status != Matched || x.productId.None? {
        findings := findings + [ProductNotMatched(x.lineNumber)];
        continue;
      }
      table := table[x.lineNumber := x];
    }
    assert xs[..|xs|] == xs;
  }

  lemma TaxesNext(xs: seq<TaxResult>, i: nat)
    requires i < |xs|
    ensures var table, x := TaxTableOf(xs[..i]), xs[i];
      && TaxTableOf(xs[..i + 1])
         == (if TaxKey(x) !in table && x.status == Matched && x.taxId.Some? then table[TaxKey(x) := x] else table)
      && TaxFindings(xs[..i + 1]) == TaxFindings(xs[..i]) + TaxFinding(table, x)
  {
    assert xs[..i + 1][..i] == xs[..i];
  }

  lemma NoTaxes()
    ensures TaxTableOf([]) == map[] && TaxFindings([]) == []
  {
  }

  method ValidatedTaxes(taxes: TaxMatch) returns (table: TaxTable, findings: seq<Finding>)
    ensures table == TaxTableOf(taxes.results)
    ensures findings == TaxEvidence(taxes)
  {
    hide TaxTableOf, TaxFindings;
    var xs := taxes.results;
    table, findings := map[], Evaluations(taxes.errors);
    NoTaxes();
    for i := 0 to |xs|
      invariant table == TaxTableOf(xs[..i])
      invariant findings == Evaluations(taxes.errors) + TaxFindings(xs[..i])
    {
      TaxesNext(xs, i);
      var x := xs[i];
      if TaxKey(x) in table {
        findings := findings + [TaxDuplicate(x.lineNumber, x.index)];
        continue;
      }
      if x.status != Matched || x.taxId.None? {
        findings := findings + [TaxNotMatched(x.lineNumber, x.index)];
        continue;
      }
      table := table[TaxKey(x) := x];
    }
    assert xs[..|xs|] == xs;
  }

  /** One round of the per-line loop. */
  method CheckLine(line: Line, i: nat, needs: seq<Finding>, taxes: TaxTable, precision: Option<Precision>)
    returns (findings: seq<Finding>)
    ensures findings == LineFindings(line, i, needs, taxes, precision)
  {
    hide DiscountFindings, Blank;
    if Blank(line.number) {
      return [LineNumberMissing(i)];
    }
    var unmatched := [];
    for t := 0 to |line.taxes|
      invariant unmatched == TaxFindingsOfLine(line, i, taxes, t)
    {
      if (line.number, t) !in taxes {
        unmatched := unmatched + [LineTaxUnmatched(i, t)];
      }
    }
    findings := needs + AmountFindings(line, i) + unmatched;
    if Priced(line) {
      findings := findings + DiscountFindings(line, i, precision);
    }
  }

  /** The per-line loop of both the general and the fixed-asset path. */
  method CheckLines(r: Request, products: ProductTable, taxes: TaxTable) returns (findings: seq<Finding>)
    ensures findings == AllLineFindings(r, products, taxes, |r.invoice.lines|)
  {
    hide LineFindings, LineNeeds;
    findings := [];
    for i := 0 to |r.invoice.lines|
      invariant findings == AllLineFindings(r, products, taxes, i)
    {
      var line := r.invoice.lines[i];
      var own := CheckLine(line, i, LineNeeds(r, products, line, i), taxes, r.precision);
      findings := findings + own;
    }
  }

  method CheckPins(kind: PinKind, pins: PinTable, r: Request, products: ProductTable) returns (findings: seq<Finding>)
    ensures findings == PinFindings(kind, pins, r, products)
  {
    if pins == [] {
      return [PinsEmpty(kind)];
    }
    if kind == InternalUse && r.resale.Some? {
      return [PinsCombined];
    }
    if ExpenseMode(r) || AccountOnlyLines(r) != {} {
      return [PinsOnAccountLines(kind)];
    }
    if !Covers(pins, r.invoice) {
      return [PinsCoverage(kind)];
    }
    findings := [];
    for i := 0 to |pins|
      invariant findings == PinTableFindings(kind, pins[..i], products)
    {
      assert pins[..i + 1][..i] == pins[..i];
      var (key, pin) := pins[i];
      if !pin.issued {
        findings := findings + [PinNotIssued(kind, key)];
        continue;
      }
      if pin.lineNumber != key || Some(key) !in products {
        findings := findings + [PinWrongLine(kind, key)];
      } else if products[Some(key)].productId != Some(pin.productId) {
        findings := findings + [PinWrongProduct(kind, key)];
      }
    }
    assert pins[..|pins|] == pins;
  }

  method Validate(r: Request) returns (findings: seq<Finding>)
    ensures findings == ValidationFindings(r)
  {
    hide WithTotals, PinFindings, AllLineFindings, AssetPrelude, GeneralPrelude, ProductEvidence, TaxEvidence,
      ProductShapeFindings;
    if r.invoice.isReturn {
      return [ReturnDocument];
    }
    if r.fixedAsset.Some? && r.internalUse.Some? {
      return [AssetWithInternalUse];
    }
    var taxTable, taxFindings := ValidatedTaxes(r.taxes);
    if r.fixedAsset.Some? {
      var lineFindings := CheckLines(r, map[], taxTable);
      return WithTotals(AssetPrelude(r) + taxFindings + lineFindings, r.invoice, r.precision);
    }
    findings := GeneralPrelude(r);
    var products: ProductTable := map[];
    if ExpenseMode(r) {
      findings := findings + ProductShapeFindings(r.invoice, r.products);
    } else {
      var productFindings;
      products, productFindings := ValidatedProducts(r.products, AccountOnlyLines(r));
      findings := findings + productFindings;
    }
    var lineFindings := CheckLines(r, products, taxTable);
    findings := WithTotals(findings + taxFindings + lineFindings, r.invoice, r.precision);
    if r.resale.Some? {
      var pinFindings := CheckPins(Resale, r.resale.value, r, products);
      findings := findings + pinFindings;
    }
    if r.internalUse.Some? {
      var pinFindings := CheckPins(InternalUse, r.internalUse.value, r, products);
      findings := findings + pinFindings;
    }
  }
}
