/** When validation reports each finding, written out over the request (`validate_vendor_bill_inputs`,
    `_fixed_asset_mode_errors` and the pin checks in `app/billing/builder.py`). */
module FindingMeaning {
  import opened Core
  import opened Money
  import opened Invoice
  import opened MatchTypes
  import opened LineEconomics
  import opened VendorBill
  import opened BillValidation
  import opened BillBuilder
  import opened NetAmounts

  // ----- the mode of a request

  predicate AssetMode(r: Request) {
    r.fixedAsset.Some?
  }

  /** The supplier-wide expense account, when the match is clean. */
  predicate NamesAccount(m: Option<ExpenseMatch>, account: int) {
    m.Some? && m.value.status == Matched && m.value.accountId == Some(account) && account > 0
  }

  ghost predicate CleanMatch(m: Option<ExpenseMatch>) {
    exists account :: NamesAccount(m, account)
  }

  /** The whole invoice is an operating expense: a clean match and no line with a product identifier. */
  ghost predicate Expensed(r: Request) {
    && CleanMatch(r.expense) && r.invoice.lines != []
    && forall i :: 0 <= i < |r.invoice.lines| ==> !r.invoice.lines[i].identified
  }

  ghost predicate ByProduct(r: Request) {
    !AssetMode(r) && !Expensed(r)
  }

  /** The line is billed to an account by decision. */
  ghost predicate OnAccount(r: Request, number: Option<string>) {
    !Expensed(r) && number.Some? && number.value in r.accountOnly
  }

  /** An account-only line posts its explicit account when that is positive, else the supplier-wide one. */
  predicate Posts(r: Request, number: string, account: int) {
    if number in r.explicitAccounts && r.explicitAccounts[number] > 0 then account == r.explicitAccounts[number]
    else NamesAccount(r.accountOnlyExpense, account)
  }

  ghost predicate Resolved(r: Request, number: string) {
    exists account :: Posts(r, number, account)
  }

  lemma AccountMeaning(m: Option<ExpenseMatch>)
    ensures forall account :: MatchedAccount(m) == Some(account) <==> NamesAccount(m, account)
    ensures MatchedAccount(m).Some? <==> CleanMatch(m)
  {
    if MatchedAccount(m).Some? {
      assert NamesAccount(m, MatchedAccount(m).value);
    }
  }

  lemma ModeMeaning(r: Request)
    ensures ExpenseMode(r) <==> Expensed(r)
    ensures forall number :: Skipped(number, AccountOnlyLines(r)) <==> OnAccount(r, number)
  {
    AccountMeaning(r.expense);
    hide MatchedAccount, CleanMatch;
  }

  lemma PostingMeaning(r: Request, number: string)
    ensures forall account :: AccountFor(r, number) == Some(account) <==> Posts(r, number, account)
    ensures AccountFor(r, number).Some? <==> Resolved(r, number)
  {
    AccountMeaning(r.accountOnlyExpense);
    hide MatchedAccount;
    if AccountFor(r, number).Some? {
      assert Posts(r, number, AccountFor(r, number).value);
    }
  }

  /** The line of a built bill that was decided to be account-only posts its own account when it has a positive one, and
      the supplier's clean account otherwise. */
  lemma BuiltAccount(r: Request, i: nat)
    requires Build(r).Built? && i < |Build(r).value.lines| && i < |r.invoice.lines|
    requires !AssetMode(r) && OnAccount(r, r.invoice.lines[i].number)
    ensures var b, number := Build(r).value.lines[i], r.invoice.lines[i].number.value;
      b.productId.None? && b.accountId.Some? && Posts(r, number, b.accountId.value)
  {
    var line, b := r.invoice.lines[i], Build(r).value.lines[i];
    BuiltLine(r, i);
    ModeMeaning(r);
    PostingMeaning(r, line.number.value);
    hide Build, Expensed, ExpenseMode, Posts, AccountFor, Resolved;
    assert AccountOnlyLine(r, line);
    PostedAccount(r, line, b);
  }

  /** A built bill takes its supplier from the match evidence and its header from the invoice. */
  lemma BuiltHeader(r: Request)
    requires Build(r).Built?
    ensures var bill := Build(r).value;
      && r.partner.partnerId == Some(bill.supplierId)
      && bill.invoiceNumber == Strip(r.invoice.invoiceNumber) && bill.invoiceDate == r.invoice.issueDate
      && r.invoice.currency.Some? && bill.currency == Strip(r.invoice.currency.value)
      && bill.companyId == r.companyId && |bill.lines| == |r.invoice.lines|
  {
    hide ValidationFindings, BuildLines, Strip, BadProduct;
    ValidationMakesBuildingTotal(r);
  }

  lemma BuiltLine(r: Request, i: nat)
    requires Build(r).Built? && i < |Build(r).value.lines|
    ensures i < |r.invoice.lines| && PostedAs(r, r.invoice.lines[i], Build(r).value.lines[i])
  {
    hide ValidationFindings, BuildLines, BadProduct, NetUnitPrice, EvidencedTax, PostedAs;
    ValidationMakesBuildingTotal(r);
    assert Faithful(r, r.invoice.lines[i], Build(r).value.lines[i]);
  }

  lemma PostedAccount(r: Request, line: Line, b: BillLine)
    requires PostedAs(r, line, b) && r.fixedAsset.None? && !ExpenseMode(r) && AccountOnlyLine(r, line)
    ensures b.productId.None? && b.accountId.Some? && b.accountId == AccountFor(r, line.number.value)
  {
    hide ExpenseMode, AccountFor;
  }

  // ----- the header and the mode

  /** One INVALID_INPUT result per line, in order, and no evaluation error. */
  predicate OneInvalidEach(r: Request) {
    && r.products.errors == [] && |r.products.results| == |r.invoice.lines|
    && forall i :: 0 <= i < |r.invoice.lines| ==>
         && r.products.results[i].lineNumber == r.invoice.lines[i].number
         && r.products.results[i].status == InvalidInput
  }

  ghost predicate HeaderReports(r: Request, f: Finding) {
    match f
    case CompanyIdInvalid => r.companyId.Some? && r.companyId.value <= 0
    case SupplierUnmatched => r.partner.status != Matched || r.partner.partnerId.None?
    case NumberMissing => Strip(r.invoice.invoiceNumber) == ""
    case DateMissing => r.invoice.issueDate.None?
    case CurrencyMissing => r.invoice.currency.None? || Strip(r.invoice.currency.value) == ""
    case NoLines => r.invoice.lines == []
    case _ => false
  }

  ghost predicate ModeReports(r: Request, f: Finding) {
    match f
    case AssetWithExpense => AssetMode(r) && r.expense.Some?
    case AssetWithAccountOnly => AssetMode(r) && (r.accountOnly != {} || r.explicitAccounts != map[])
    case AssetWithResale => AssetMode(r) && r.resale.Some?
    case AssetWithIdentifiers =>
      AssetMode(r) && (r.invoice.lines == []
                       || exists i :: 0 <= i < |r.invoice.lines| && r.invoice.lines[i].identified)
    case AccountOnlyForProductSource =>
      !AssetMode(r) && r.invoice.productSource && (r.accountOnly != {} || r.explicitAccounts != map[])
    case AmbiguousCommercialPurchase =>
      && !AssetMode(r) && r.invoice.productSource && r.invoice.lines != []
      && (forall i :: 0 <= i < |r.invoice.lines| ==> !r.invoice.lines[i].identified)
      && (r.expense.None? || !r.expense.value.reviewResolution)
    case AccountOnlyUnresolved => ByProduct(r) && exists number :: number in r.accountOnly && !Resolved(r, number)
    case ProductShape => (AssetMode(r) || Expensed(r)) && !OneInvalidEach(r)
    case _ => false
  }

  // ----- match evidence

  /** The first `upTo` results hold a matched one with a product for the line. */
  ghost predicate ProductBefore(xs: seq<ProductResult>, upTo: int, number: Option<string>) {
    exists i ::
      0 <= i < upTo && i < |xs| && xs[i].lineNumber == number && xs[i].status == Matched && xs[i].productId.Some?
  }

  ghost predicate TaxBefore(xs: seq<TaxResult>, upTo: int, number: Option<string>, tax: int) {
    exists i ::
      && 0 <= i < upTo && i < |xs| && xs[i].lineNumber == number && xs[i].index == tax
      && xs[i].status == Matched && xs[i].taxId.Some?
  }

  ghost predicate ProductReports(xs: seq<ProductResult>, skip: set<string>, f: Finding) {
    match f
    case ProductDuplicate(number) =>
      && !(number.Some? && number.value in skip)
      && exists j :: 0 <= j < |xs| && xs[j].lineNumber == number && ProductBefore(xs, j, number)
    case ProductNotMatched(number) =>
      && !(number.Some? && number.value in skip)
      && exists j ::
           && 0 <= j < |xs| && xs[j].lineNumber == number && (xs[j].status != Matched || xs[j].productId.None?)
           && !ProductBefore(xs, j, number)
    case _ => false
  }

  ghost predicate TaxReports(xs: seq<TaxResult>, f: Finding) {
    match f
    case TaxDuplicate(number, tax) =>
      exists j :: 0 <= j < |xs| && xs[j].lineNumber == number && xs[j].index == tax && TaxBefore(xs, j, number, tax)
    case TaxNotMatched(number, tax) =>
      exists j ::
        && 0 <= j < |xs| && xs[j].lineNumber == number && xs[j].index == tax
        && (xs[j].status != Matched || xs[j].taxId.None?) && !TaxBefore(xs, j, number, tax)
    case _ => false
  }

  lemma {:induction false} ProductTableKeys(xs: seq<ProductResult>, skip: set<string>, number: Option<string>)
    ensures number in ProductTableOf(xs, skip) <==> !Skipped(number, skip) && ProductBefore(xs, |xs|, number)
  {
    if xs != [] {
      var n := |xs| - 1;
      ProductTableKeys(xs[..n], skip, number);
      ProductBeforeLast(xs, number);
      hide ProductBefore;
    }
  }

  lemma ProductBeforeLast(xs: seq<ProductResult>, number: Option<string>)
    requires xs != []
    ensures var n := |xs| - 1;
      ProductBefore(xs, |xs|, number) <==>
        || ProductBefore(xs[..n], n, number)
        || (xs[n].lineNumber == number && xs[n].status == Matched && xs[n].productId.Some?)
  {
  }

  lemma ProductBeforePrefix(xs: seq<ProductResult>, ys: seq<ProductResult>, upTo: nat, number: Option<string>)
    requires upTo <= |xs| <= |ys| && ys[..|xs|] == xs
    ensures ProductBefore(xs, upTo, number) <==> ProductBefore(ys, upTo, number)
  {
    assert forall i :: 0 <= i < |xs| ==> xs[i] == ys[i];
  }

  lemma ProductFindingMeaning(xs: seq<ProductResult>, skip: set<string>, f: Finding)
    requires xs != []
    ensures var n := |xs| - 1;
      f in ProductFinding(ProductTableOf(xs[..n], skip), xs[n], skip) <==> ProductReportsAt(xs, n, skip, f)
  {
    var n := |xs| - 1;
    ProductTableKeys(xs[..n], skip, xs[n].lineNumber);
    ProductBeforePrefix(xs[..n], xs, n, xs[n].lineNumber);
    hide ProductBefore, ProductTableOf;
  }

  /** What the result at position `j` adds. */
  ghost predicate ProductReportsAt(xs: seq<ProductResult>, j: nat, skip: set<string>, f: Finding)
    requires j < |xs|
  {
    var x := xs[j];
    && !(x.lineNumber.Some? && x.lineNumber.value in skip)
    && (|| (f == ProductDuplicate(x.lineNumber) && ProductBefore(xs, j, x.lineNumber))
        || (f == ProductNotMatched(x.lineNumber) && !ProductBefore(xs, j, x.lineNumber)
            && (x.status != Matched || x.productId.None?)))
  }

  lemma {:induction false} ProductFindingsMeaning(xs: seq<ProductResult>, skip: set<string>, f: Finding)
    ensures f in ProductFindings(xs, skip) <==> exists j :: 0 <= j < |xs| && ProductReportsAt(xs, j, skip, f)
  {
    if xs != [] {
      var n := |xs| - 1;
      ProductFindingsMeaning(xs[..n], skip, f);
      ProductFindingMeaning(xs, skip, f);
      forall j | 0 <= j < n
        ensures ProductReportsAt(xs[..n], j, skip, f) <==> ProductReportsAt(xs, j, skip, f)
      {
        ProductBeforePrefix(xs[..n], xs, j, xs[j].lineNumber);
        hide ProductBefore;
      }
      hide ProductReportsAt, ProductFinding, ProductTableOf;
    }
  }

  lemma ProductReportsMeaning(xs: seq<ProductResult>, skip: set<string>, f: Finding)
    ensures f in ProductFindings(xs, skip) <==> ProductReports(xs, skip, f)
  {
    ProductFindingsMeaning(xs, skip, f);
    hide ProductBefore, ProductFindings;
    if j :| 0 <= j < |xs| && ProductReportsAt(xs, j, skip, f) {
      assert ProductReports(xs, skip, f);
    }
    if ProductReports(xs, skip, f) && f.ProductDuplicate? {
      var j :| 0 <= j < |xs| && xs[j].lineNumber == f.lineNumber && ProductBefore(xs, j, f.lineNumber);
      assert ProductReportsAt(xs, j, skip, f);
    }
    if ProductReports(xs, skip, f) && f.ProductNotMatched? {
      var j :| 0 <= j < |xs| && xs[j].lineNumber == f.lineNumber && (xs[j].status != Matched || xs[j].productId.None?)
        && !ProductBefore(xs, j, f.lineNumber);
      assert ProductReportsAt(xs, j, skip, f);
    }
  }

  lemma {:induction false} TaxTableKeys(xs: seq<TaxResult>, number: Option<string>, tax: int)
    ensures (number, tax) in TaxTableOf(xs) <==> TaxBefore(xs, |xs|, number, tax)
  {
    if xs != [] {
      var n := |xs| - 1;
      TaxTableKeys(xs[..n], number, tax);
      TaxBeforeLast(xs, number, tax);
      hide TaxBefore;
    }
  }

  lemma TaxBeforeLast(xs: seq<TaxResult>, number: Option<string>, tax: int)
    requires xs != []
    ensures var n := |xs| - 1;
      TaxBefore(xs, |xs|, number, tax) <==>
        || TaxBefore(xs[..n], n, number, tax)
        || (xs[n].lineNumber == number && xs[n].index == tax && xs[n].status == Matched && xs[n].taxId.Some?)
  {
  }

  lemma TaxBeforePrefix(xs: seq<TaxResult>, ys: seq<TaxResult>, upTo: nat, number: Option<string>, tax: int)
    requires upTo <= |xs| <= |ys| && ys[..|xs|] == xs
    ensures TaxBefore(xs, upTo, number, tax) <==> TaxBefore(ys, upTo, number, tax)
  {
    assert forall i :: 0 <= i < |xs| ==> xs[i] == ys[i];
  }

  ghost predicate TaxReportsAt(xs: seq<TaxResult>, j: nat, f: Finding)
    requires j < |xs|
  {
    var x := xs[j];
    || (f == TaxDuplicate(x.lineNumber, x.index) && TaxBefore(xs, j, x.lineNumber, x.index))
    || (f == TaxNotMatched(x.lineNumber, x.index) && !TaxBefore(xs, j, x.lineNumber, x.index)
        && (x.status != Matched || x.taxId.None?))
  }

  lemma TaxFindingMeaning(xs: seq<TaxResult>, f: Finding)
    requires xs != []
    ensures var n := |xs| - 1; f in TaxFinding(TaxTableOf(xs[..n]), xs[n]) <==> TaxReportsAt(xs, n, f)
  {
    var n := |xs| - 1;
    TaxTableKeys(xs[..n], xs[n].lineNumber, xs[n].index);
    TaxBeforePrefix(xs[..n], xs, n, xs[n].lineNumber, xs[n].index);
    hide TaxBefore, TaxTableOf;
  }

  lemma {:induction false} TaxFindingsMeaning(xs: seq<TaxResult>, f: Finding)
    ensures f in TaxFindings(xs) <==> exists j :: 0 <= j < |xs| && TaxReportsAt(xs, j, f)
  {
    if xs != [] {
      var n := |xs| - 1;
      TaxFindingsMeaning(xs[..n], f);
      TaxFindingMeaning(xs, f);
      forall j | 0 <= j < n
        ensures TaxReportsAt(xs[..n], j, f) <==> TaxReportsAt(xs, j, f)
      {
        TaxBeforePrefix(xs[..n], xs, j, xs[j].lineNumber, xs[j].index);
        hide TaxBefore;
      }
      hide TaxReportsAt, TaxFinding, TaxTableOf;
    }
  }

  lemma TaxReportsMeaning(xs: seq<TaxResult>, f: Finding)
    ensures f in TaxFindings(xs) <==> TaxReports(xs, f)
  {
    TaxFindingsMeaning(xs, f);
    hide TaxBefore, TaxFindings;
    if j :| 0 <= j < |xs| && TaxReportsAt(xs, j, f) {
      assert TaxReports(xs, f);
    }
    if TaxReports(xs, f) && f.TaxDuplicate? {
      var j :| 0 <= j < |xs| && xs[j].lineNumber == f.lineNumber && xs[j].index == f.tax
        && TaxBefore(xs, j, f.lineNumber, f.tax);
      assert TaxReportsAt(xs, j, f);
    }
    if TaxReports(xs, f) && f.TaxNotMatched? {
      var j :| 0 <= j < |xs| && xs[j].lineNumber == f.lineNumber && xs[j].index == f.tax
        && (xs[j].status != Matched || xs[j].taxId.None?) && !TaxBefore(xs, j, f.lineNumber, f.tax);
      assert TaxReportsAt(xs, j, f);
    }
  }

  // ----- lines

  predicate Numbered(line: Line) {
    line.number.Some? && Strip(line.number.value) != ""
  }

  predicate AmountsStated(line: Line) {
    forall j :: 0 <= j < |line.discounts| ==> line.discounts[j].amount.Some?
  }

  function Worth(line: Line): real
    requires Priced(line)
  {
    line.quantity.value * line.unitPrice.value
  }

  /** More is deducted than the line is worth, at the currency's precision or beyond one hundredth without one. */
  predicate Exceeds(line: Line, precision: Option<Precision>)
    requires Priced(line)
  {
    match precision
    case None => StatedDiscounts(line.discounts) > Worth(line) + 0.01
    case Some(p) => CurrencyRound(StatedDiscounts(line.discounts), p) > CurrencyRound(Worth(line), p)
  }

  predicate DiscountReports(line: Line, i: nat, precision: Option<Precision>, f: Finding)
    requires Priced(line)
  {
    || (f == DiscountWithoutAmount(i) && !AmountsStated(line))
    || (f == DiscountNegative(i) && AmountsStated(line) && StatedDiscounts(line.discounts) < 0.0)
    || (f == DiscountExceedsGross(i) && Discounted(line) && AmountsStated(line)
        && 0.0 <= StatedDiscounts(line.discounts) && Exceeds(line, precision))
  }

  lemma StatedAmounts(line: Line)
    ensures AmountsStated(line) <==>
      forall j :: 0 <= j < |EconomicDiscounts(line)| ==> EconomicDiscounts(line)[j].amount.Some?
  {
    var kept := EconomicDiscounts(line);
    forall j | 0 <= j < |line.discounts| && line.discounts[j].amount.None?
      ensures exists k :: 0 <= k < |kept| && kept[k].amount.None?
    {
      assert line.discounts[j] in line.discounts && Economic(line.discounts[j]);
      assert line.discounts[j] in kept;
    }
    forall k | 0 <= k < |kept|
      ensures kept[k] in line.discounts
    {
      assert kept[k] in kept;
    }
  }

  lemma DiscountMeaning(line: Line, i: nat, precision: Option<Precision>, f: Finding)
    requires Priced(line)
    ensures f in DiscountFindings(line, i, precision) <==> DiscountReports(line, i, precision, f)
  {
    StatedAmounts(line);
    DiscountedMeaning(line);
    FilteredSum(line.discounts);
    if !Discounted(line) {
      Undiscounted(line);
    }
    GrossMeaning(line);
    hide CurrencyRound, StatedDiscounts, AmountsStated, GrossTotal, Discounted;
    assert TotalDiscount(line) == StatedDiscounts(line.discounts);
    hide TotalDiscount;
    var discounts := EconomicDiscounts(line);
    hide EconomicDiscounts;
    if discounts != [] && AmountsStated(line) && TotalDiscount(line) >= 0.0 {
      ExceedsMeaning(line, precision);
      hide Exceeds;
    }
  }

  lemma GrossMeaning(line: Line)
    requires Priced(line)
    ensures GrossTotal(line) == Worth(line)
  {
  }

  lemma ExceedsMeaning(line: Line, precision: Option<Precision>)
    requires Priced(line) && TotalDiscount(line) == StatedDiscounts(line.discounts)
    ensures Exceeds(line, precision) <==>
      match precision
      case None => TotalDiscount(line) > GrossTotal(line) + LEGACY_TOTALS_TOLERANCE
      case Some(p) => CurrencyRound(TotalDiscount(line), p) > CurrencyRound(GrossTotal(line), p)
  {
    GrossMeaning(line);
    hide CurrencyRound, StatedDiscounts, GrossTotal, TotalDiscount, Worth;
  }

  lemma Undiscounted(line: Line)
    requires Priced(line) && !Discounted(line)
    ensures AmountsStated(line) && StatedDiscounts(line.discounts) == 0.0
  {
    NetMeaning(line);
    forall j | 0 <= j < |line.discounts|
      ensures line.discounts[j].amount.Some?
    {
      assert !IsDiscount(line.discounts[j]);
    }
  }

  predicate AmountReports(line: Line, i: nat, f: Finding) {
    || (f == LineQuantityNotPositive(i) && (line.quantity.None? || line.quantity.value <= 0.0))
    || (f == LinePriceMissing(i) && line.unitPrice.None?)
    || (f == LinePriceNegative(i) && line.unitPrice.Some? && line.unitPrice.value < 0.0)
  }

  ghost predicate NeedReports(r: Request, line: Line, i: nat, f: Finding) {
    || (f == LineDescriptionMissing(i) && AssetMode(r)
        && (line.description.None? || Strip(line.description.value) == ""))
    || (f == LineProductUnmatched(i) && ByProduct(r) && !OnAccount(r, line.number)
        && !ProductBefore(r.products.results, |r.products.results|, line.number))
  }

  ghost predicate LineTaxReports(line: Line, i: nat, taxes: seq<TaxResult>, f: Finding) {
    f.LineTaxUnmatched? && f.line == i && 0 <= f.tax < |line.taxes| && !TaxBefore(taxes, |taxes|, line.number, f.tax)
  }

  /** What is said of line `i`: only that it has no number, or everything else that is wrong with it. */
  ghost predicate LineReports(r: Request, i: int, f: Finding) {
    && 0 <= i < |r.invoice.lines|
    && var line := r.invoice.lines[i];
    if !Numbered(line) then f == LineNumberMissing(i)
    else
      || NeedReports(r, line, i, f) || AmountReports(line, i, f) || LineTaxReports(line, i, r.taxes.results, f)
      || (line.quantity.Some? && line.unitPrice.Some? && DiscountReports(line, i, r.precision, f))
  }

  lemma {:induction false} LineTaxMeaning(line: Line, i: nat, xs: seq<TaxResult>, upTo: nat, f: Finding)
    requires upTo <= |line.taxes|
    ensures f in TaxFindingsOfLine(line, i, TaxTableOf(xs), upTo) <==>
      f.LineTaxUnmatched? && f.line == i && 0 <= f.tax < upTo && !TaxBefore(xs, |xs|, line.number, f.tax)
  {
    if upTo != 0 {
      LineTaxMeaning(line, i, xs, upTo - 1, f);
      TaxTableKeys(xs, line.number, upTo - 1);
      hide TaxBefore, TaxTableOf;
    }
  }

  lemma NeedMeaning(r: Request, line: Line, i: nat, f: Finding)
    ensures f in LineNeeds(r, LoopProducts(r), line, i) <==> NeedReports(r, line, i, f)
  {
    ModeMeaning(r);
    ProductTableKeys(r.products.results, AccountOnlyLines(r), line.number);
    hide ExpenseMode, Expensed, AccountOnlyLines, OnAccount, Skipped, ProductBefore, ProductTableOf;
  }

  lemma NumberedMeaning(line: Line)
    ensures Numbered(line) <==> !Blank(line.number)
  {
  }

  lemma AmountMeaning(line: Line, i: nat, f: Finding)
    ensures f in AmountFindings(line, i) <==> AmountReports(line, i, f)
  {
  }

  lemma LineMeaning(r: Request, i: nat, f: Finding)
    requires i < |r.invoice.lines|
    ensures var line := r.invoice.lines[i];
      f in LineFindings(line, i, LineNeeds(r, LoopProducts(r), line, i), TaxTableOf(r.taxes.results), r.precision) <==>
      LineReports(r, i, f)
  {
    var line := r.invoice.lines[i];
    NeedMeaning(r, line, i, f);
    LineTaxMeaning(line, i, r.taxes.results, |line.taxes|, f);
    if Priced(line) {
      DiscountMeaning(line, i, r.precision, f);
    }
    NumberedMeaning(line);
    AmountMeaning(line, i, f);
    hide NeedReports, LineNeeds, LoopProducts, DiscountReports, DiscountFindings, TaxFindingsOfLine, TaxTableOf, Strip,
      TaxBefore, Numbered, Blank, AmountReports, AmountFindings;
  }

  lemma {:induction false} AllLinesMeaning(r: Request, upTo: nat, f: Finding)
    requires upTo <= |r.invoice.lines|
    ensures f in AllLineFindings(r, LoopProducts(r), TaxTableOf(r.taxes.results), upTo) <==>
      exists i :: 0 <= i < upTo && LineReports(r, i, f)
  {
    hide LineReports, LineFindings, LineNeeds, LoopProducts, TaxTableOf;
    if upTo != 0 {
      AllLinesMeaning(r, upTo - 1, f);
      LineMeaning(r, upTo - 1, f);
    }
  }

  // ----- header, mode and evidence together

  lemma HeaderMeaning(r: Request, f: Finding)
    ensures f in CompanyFindings(r) || f in HeaderFindings(r) <==> HeaderReports(r, f)
  {
    hide Strip;
  }

  lemma ShapeMeaning(r: Request, f: Finding)
    ensures f in ProductShapeFindings(r.invoice, r.products) <==> f == ProductShape && !OneInvalidEach(r)
  {
  }

  lemma NoExplicit(m: map<string, int>)
    ensures |m| != 0 <==> m != map[]
  {
  }

  lemma AssetPreludeMeaning(r: Request, f: Finding)
    requires AssetMode(r)
    ensures f in AssetPrelude(r) <==> HeaderReports(r, f) || ModeReports(r, f)
  {
    HeaderMeaning(r, f);
    ShapeMeaning(r, f);
    NoExplicit(r.explicitAccounts);
    hide CompanyFindings, HeaderFindings, ProductShapeFindings, HeaderReports, OneInvalidEach, Expensed, Resolved;
  }

  lemma UnresolvedMeaning(r: Request)
    ensures AccountOnlyLines(r) - ResolvedAccounts(r, AccountOnlyLines(r)).Keys != {} <==>
      !Expensed(r) && exists number :: number in r.accountOnly && !Resolved(r, number)
  {
    ModeMeaning(r);
    forall number: string
      ensures AccountFor(r, number).Some? <==> Resolved(r, number)
    {
      PostingMeaning(r, number);
    }
    hide ExpenseMode, Expensed, Resolved, AccountFor;
    var open := AccountOnlyLines(r) - ResolvedAccounts(r, AccountOnlyLines(r)).Keys;
    if number :| number in r.accountOnly && !Resolved(r, number) && !Expensed(r) {
      assert number in open;
    }
  }

  lemma GeneralPreludeMeaning(r: Request, f: Finding)
    requires !AssetMode(r)
    ensures f in GeneralPrelude(r) || (ExpenseMode(r) && f in ProductShapeFindings(r.invoice, r.products)) <==>
      HeaderReports(r, f) || ModeReports(r, f)
  {
    HeaderMeaning(r, f);
    ShapeMeaning(r, f);
    ModeMeaning(r);
    UnresolvedMeaning(r);
    NoExplicit(r.explicitAccounts);
    hide CompanyFindings, HeaderFindings, ProductShapeFindings, HeaderReports, OneInvalidEach, Expensed, Resolved,
      ExpenseMode, AccountOnlyLines, ResolvedAccounts;
  }

  ghost predicate EvidenceReports(r: Request, f: Finding) {
    || (f.Evaluation? && (f.text in r.taxes.errors || (ByProduct(r) && f.text in r.products.errors)))
    || TaxReports(r.taxes.results, f)
    || (ByProduct(r) && ProductReports(r.products.results, r.accountOnly, f))
  }

  lemma EvaluationMeaning(errors: seq<string>, f: Finding)
    ensures f in Evaluations(errors) <==> f.Evaluation? && f.text in errors
  {
    if f.Evaluation? && f.text in errors {
      var i :| 0 <= i < |errors| && errors[i] == f.text;
      assert Evaluations(errors)[i] == f;
    }
  }

  lemma EvidenceMeaning(r: Request, f: Finding)
    ensures EvidenceReports(r, f) <==>
      || f in TaxEvidence(r.taxes)
      || (ByProduct(r) && f in ProductEvidence(r.products, AccountOnlyLines(r)))
  {
    ModeMeaning(r);
    EvaluationMeaning(r.taxes.errors, f);
    EvaluationMeaning(r.products.errors, f);
    TaxReportsMeaning(r.taxes.results, f);
    ProductReportsMeaning(r.products.results, AccountOnlyLines(r), f);
    hide Evaluations, TaxFindings, ProductFindings, ProductReports, TaxReports, Expensed, ExpenseMode;
  }

  /** Everything but the totals and the pins. */
  ghost predicate BaseReports(r: Request, f: Finding) {
    || HeaderReports(r, f) || ModeReports(r, f) || EvidenceReports(r, f)
    || exists i :: 0 <= i < |r.invoice.lines| && LineReports(r, i, f)
  }

  function BaseFindings(r: Request): seq<Finding> {
    if AssetMode(r) then AssetFindings(r) else GeneralFindings(r)
  }

  lemma BaseMeaning(r: Request, f: Finding)
    ensures f in BaseFindings(r) <==> BaseReports(r, f)
  {
    EvidenceMeaning(r, f);
    AllLinesMeaning(r, |r.invoice.lines|, f);
    ModeMeaning(r);
    hide HeaderReports, ModeReports, EvidenceReports, LineReports, AllLineFindings, TaxEvidence, ProductEvidence,
      AssetPrelude, GeneralPrelude, ProductShapeFindings, ExpenseMode, Expensed, AccountOnlyLines, TaxTableOf,
      ValidProducts;
    if AssetMode(r) {
      AssetPreludeMeaning(r, f);
    } else {
      GeneralPreludeMeaning(r, f);
    }
  }

  // ----- totals

  /** The line's authoritative net. */
  function NetOf(line: Line): real
    requires Priced(line)
  {
    if !Discounted(line) && line.extension.Some? then line.extension.value
    else Worth(line) - StatedDiscounts(line.discounts)
  }

  function RoundedNet(line: Line, precision: Option<Precision>): real
    requires Priced(line)
  {
    if precision.Some? then CurrencyRound(NetOf(line), precision.value) else NetOf(line)
  }

  /** The sum of the first nets, each at the currency's precision. */
  function NetsOf(lines: seq<Line>, precision: Option<Precision>): real
    requires forall i :: 0 <= i < |lines| ==> Priced(lines[i])
  {
    if lines == [] then 0.0
    else NetsOf(lines[..|lines| - 1], precision) + RoundedNet(lines[|lines| - 1], precision)
  }

  /** The nets add up to the stated total, at the currency's precision or within one hundredth without one. */
  predicate AddUp(nets: real, total: real, precision: Option<Precision>) {
    match precision
    case None => -0.01 <= nets - total <= 0.01
    case Some(p) => CurrencyRound(nets, p) == CurrencyRound(total, p)
  }

  predicate SomeDiscount(invoice: Invoice) {
    exists i :: 0 <= i < |invoice.lines| && Discounted(invoice.lines[i])
  }

  predicate TotalsReport(invoice: Invoice, precision: Option<Precision>, f: Finding)
    requires forall i :: 0 <= i < |invoice.lines| ==> Priced(invoice.lines[i])
  {
    || (f == TotalMissing && invoice.taxExclusive.None?)
    || (f == TotalsDiffer && invoice.taxExclusive.Some?
        && !AddUp(NetsOf(invoice.lines, precision), invoice.taxExclusive.value, precision))
  }

  lemma RoundedNetMeaning(line: Line, precision: Option<Precision>)
    requires Priced(line)
    ensures StatedNet(line, precision) == RoundedNet(line, precision)
  {
    NetMeaning(line);
    hide CurrencyRound, StatedDiscounts, Discounted, NetTotal;
    assert NetTotal(line) == NetOf(line);
  }

  lemma {:induction false} NetsMeaning(lines: seq<Line>, precision: Option<Precision>)
    requires forall i :: 0 <= i < |lines| ==> Priced(lines[i])
    ensures Sum(Map((line: Line) => StatedNet(line, precision), lines)) == NetsOf(lines, precision)
  {
    var net := (line: Line) => StatedNet(line, precision);
    if lines == [] {
      assert Map(net, lines) == [];
    } else {
      var n := |lines| - 1;
      NetsMeaning(lines[..n], precision);
      RoundedNetMeaning(lines[n], precision);
      hide StatedNet, RoundedNet;
      assert Map(net, lines) == Map(net, lines[..n]) + [net(lines[n])];
      SumAppend(Map(net, lines[..n]), net(lines[n]));
    }
  }

  lemma TotalsMeaning(invoice: Invoice, precision: Option<Precision>, f: Finding)
    requires forall i :: 0 <= i < |invoice.lines| ==> Priced(invoice.lines[i])
    ensures f in TotalsFindings(invoice, precision) <==> TotalsReport(invoice, precision, f)
  {
    NetsMeaning(invoice.lines, precision);
    hide CurrencyRound, NetsOf, StatedNet, Sum;
  }

  lemma SomeDiscountMeaning(invoice: Invoice)
    ensures AnyDiscount(invoice) <==> SomeDiscount(invoice)
  {
    forall line
      ensures EconomicDiscounts(line) != [] <==> Discounted(line)
    {
      DiscountedMeaning(line);
    }
    hide EconomicDiscounts, Discounted;
  }

  /** Without base findings every line is priced. */
  lemma CleanIsPriced(r: Request, i: nat)
    requires i < |r.invoice.lines| && forall g :: !BaseReports(r, g)
    ensures Priced(r.invoice.lines[i])
  {
    var line := r.invoice.lines[i];
    hide HeaderReports, ModeReports, EvidenceReports, NeedReports, LineTaxReports, DiscountReports, Numbered;
    assert !BaseReports(r, LineNumberMissing(i)) && !BaseReports(r, LineQuantityNotPositive(i))
      && !BaseReports(r, LinePriceMissing(i));
    assert !LineReports(r, i, LineNumberMissing(i)) && !LineReports(r, i, LineQuantityNotPositive(i))
      && !LineReports(r, i, LinePriceMissing(i));
  }

  /** With nothing else wrong and some line discounted, the totals are compared. */
  ghost predicate TotalReports(r: Request, f: Finding) {
    && SomeDiscount(r.invoice)
    && (forall g :: !BaseReports(r, g))
    && (forall i :: 0 <= i < |r.invoice.lines| ==> Priced(r.invoice.lines[i]))
    && TotalsReport(r.invoice, r.precision, f)
  }

  lemma NothingReported(r: Request)
    ensures BaseFindings(r) == [] <==> forall g :: !BaseReports(r, g)
  {
    var base := BaseFindings(r);
    forall g
      ensures g in base <==> BaseReports(r, g)
    {
      BaseMeaning(r, g);
    }
    hide BaseReports, BaseFindings;
    if base != [] {
      assert base[0] in base;
    }
  }

  lemma TotalsWhenClean(r: Request, f: Finding)
    requires forall g :: !BaseReports(r, g)
    ensures AnyDiscount(r.invoice) && f in TotalsFindings(r.invoice, r.precision) <==> TotalReports(r, f)
  {
    forall i | 0 <= i < |r.invoice.lines|
      ensures Priced(r.invoice.lines[i])
    {
      CleanIsPriced(r, i);
    }
    SomeDiscountMeaning(r.invoice);
    TotalsMeaning(r.invoice, r.precision, f);
    hide BaseReports, AnyDiscount, SomeDiscount, TotalsFindings, TotalsReport;
  }

  lemma WithTotalsMeaning(r: Request, f: Finding)
    ensures f in WithTotals(BaseFindings(r), r.invoice, r.precision) <==> BaseReports(r, f) || TotalReports(r, f)
  {
    BaseMeaning(r, f);
    NothingReported(r);
    hide BaseReports, BaseFindings, AnyDiscount, SomeDiscount, TotalsFindings, TotalsReport;
    if BaseFindings(r) == [] {
      TotalsWhenClean(r, f);
      hide TotalReports;
    }
  }

  // ----- pins

  predicate IsLine(invoice: Invoice, number: Option<string>) {
    exists i :: 0 <= i < |invoice.lines| && invoice.lines[i].number == number
  }

  predicate IsPinned(pins: PinTable, number: Option<string>) {
    exists j :: 0 <= j < |pins| && number == Some(pins[j].0)
  }

  /** The pins name every line of the invoice and nothing else. */
  ghost predicate NamesLines(pins: PinTable, invoice: Invoice) {
    forall number: Option<string> :: IsPinned(pins, number) <==> IsLine(invoice, number)
  }

  /** The first matched product of a line is another one. */
  ghost predicate OtherProduct(xs: seq<ProductResult>, number: Option<string>, product: int) {
    exists j ::
      && 0 <= j < |xs| && xs[j].lineNumber == number && xs[j].status == Matched && xs[j].productId.Some?
      && !ProductBefore(xs, j, number) && xs[j].productId.value != product
  }

  /** A pin that was not issued is not looked at further; nor is one for another line or an unmatched one. */
  ghost predicate PinReportsAt(r: Request, kind: PinKind, key: string, pin: LinePin, f: Finding) {
    var xs := r.products.results;
    if !pin.issued then f == PinNotIssued(kind, key)
    else if pin.lineNumber != key || !ProductBefore(xs, |xs|, Some(key)) then f == PinWrongLine(kind, key)
    else f == PinWrongProduct(kind, key) && OtherProduct(xs, Some(key), pin.productId)
  }

  ghost predicate PinReports(r: Request, kind: PinKind, pins: PinTable, f: Finding) {
    if pins == [] then f == PinsEmpty(kind)
    else if kind == InternalUse && r.resale.Some? then f == PinsCombined
    else if Expensed(r) || r.accountOnly != {} then f == PinsOnAccountLines(kind)
    else if !NamesLines(pins, r.invoice) then f == PinsCoverage(kind)
    else exists j :: 0 <= j < |pins| && PinReportsAt(r, kind, pins[j].0, pins[j].1, f)
  }

  lemma {:induction false} FirstMatched(xs: seq<ProductResult>, number: Option<string>, product: int)
    ensures OtherProduct(xs, number, product) <==>
      number in ProductTableOf(xs, {}) && ProductTableOf(xs, {})[number].productId != Some(product)
    ensures number in ProductTableOf(xs, {}) ==> ProductTableOf(xs, {})[number].productId.Some?
  {
    if xs != [] {
      var n := |xs| - 1;
      FirstMatched(xs[..n], number, product);
      ProductTableKeys(xs[..n], {}, number);
      OtherProductLast(xs, number, product);
      hide ProductBefore, OtherProduct;
    }
  }

  lemma OtherProductLast(xs: seq<ProductResult>, number: Option<string>, product: int)
    requires xs != []
    ensures var n := |xs| - 1;
      OtherProduct(xs, number, product) <==>
        || OtherProduct(xs[..n], number, product)
        || (xs[n].lineNumber == number && xs[n].status == Matched && xs[n].productId.Some?
            && !ProductBefore(xs[..n], n, number) && xs[n].productId.value != product)
  {
    var n := |xs| - 1;
    forall j | 0 <= j <= n
      ensures ProductBefore(xs[..n], j, number) <==> ProductBefore(xs, j, number)
    {
      ProductBeforePrefix(xs[..n], xs, j, number);
    }
    hide ProductBefore;
  }

  lemma PinFindingMeaning(r: Request, kind: PinKind, key: string, pin: LinePin, f: Finding)
    ensures f in PinFinding(kind, key, pin, ProductTableOf(r.products.results, {})) <==>
      PinReportsAt(r, kind, key, pin, f)
  {
    FirstMatched(r.products.results, Some(key), pin.productId);
    ProductTableKeys(r.products.results, {}, Some(key));
    hide ProductBefore, OtherProduct, ProductTableOf;
  }

  lemma {:induction false} PinTableMeaning(r: Request, kind: PinKind, pins: seq<(string, LinePin)>, f: Finding)
    ensures f in PinTableFindings(kind, pins, ProductTableOf(r.products.results, {})) <==>
      exists j :: 0 <= j < |pins| && PinReportsAt(r, kind, pins[j].0, pins[j].1, f)
  {
    hide PinReportsAt, PinFinding, ProductTableOf;
    if pins != [] {
      var n := |pins| - 1;
      PinTableMeaning(r, kind, pins[..n], f);
      PinFindingMeaning(r, kind, pins[n].0, pins[n].1, f);
      assert forall j :: 0 <= j < n ==> pins[..n][j] == pins[j];
    }
  }

  lemma CoverageMeaning(pins: PinTable, invoice: Invoice)
    ensures Covers(pins, invoice) <==> NamesLines(pins, invoice)
  {
    forall number: Option<string>
      ensures number in PinKeys(pins) <==> IsPinned(pins, number)
      ensures number in LineNumbers(invoice) <==> IsLine(invoice, number)
    {
      if j :| 0 <= j < |pins| && number == Some(pins[j].0) {
        assert Some(pins[j].0) in PinKeys(pins);
      }
      if i :| 0 <= i < |invoice.lines| && invoice.lines[i].number == number {
        assert invoice.lines[i].number in LineNumbers(invoice);
      }
    }
    hide IsPinned, IsLine, PinKeys, LineNumbers;
    if NamesLines(pins, invoice) {
      assert PinKeys(pins) == LineNumbers(invoice);
    }
  }

  lemma PinsMeaning(r: Request, kind: PinKind, pins: PinTable, f: Finding)
    requires !AssetMode(r)
    ensures f in PinFindings(kind, pins, r, ValidProducts(r)) <==> PinReports(r, kind, pins, f)
  {
    ModeMeaning(r);
    CoverageMeaning(pins, r.invoice);
    PinTableMeaning(r, kind, pins, f);
    hide ExpenseMode, Expensed, Covers, NamesLines, PinTableFindings, PinReportsAt, ProductTableOf;
  }

  // ----- the whole

  /** What validation reports. A return document is reported alone, and so is an asset with internal-use accounts. */
  ghost predicate Reports(r: Request, f: Finding) {
    if r.invoice.isReturn then f == ReturnDocument
    else if AssetMode(r) && r.internalUse.Some? then f == AssetWithInternalUse
    else
      || BaseReports(r, f) || TotalReports(r, f)
      || (!AssetMode(r) && r.resale.Some? && PinReports(r, Resale, r.resale.value, f))
      || (!AssetMode(r) && r.internalUse.Some? && PinReports(r, InternalUse, r.internalUse.value, f))
  }

  /** Validation reports every finding exactly when its own condition holds. */
  lemma FindingsExactly(r: Request, f: Finding)
    ensures f in ValidationFindings(r) <==> Reports(r, f)
  {
    WithTotalsMeaning(r, f);
    hide BaseReports, TotalReports, PinReports, WithTotals, AssetFindings, GeneralFindings, PinFindings, ValidProducts;
    if !AssetMode(r) && r.resale.Some? {
      PinsMeaning(r, Resale, r.resale.value, f);
    }
    if !AssetMode(r) && r.internalUse.Some? {
      PinsMeaning(r, InternalUse, r.internalUse.value, f);
    }
  }
}
