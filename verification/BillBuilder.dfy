/** Construction of the Vendor Bill (`VendorBillBuilder.build` in `app/billing/builder.py`), with every way the
    construction could still raise made explicit. */
module BillBuilder {
  import opened Core
  import opened Money
  import opened Invoice
  import opened MatchTypes
  import opened LineEconomics
  import opened VendorBill
  import opened BillValidation

  datatype Fault = MissingKey | FailedAssertion | LineRejected

  /** `Refused` is the build error carrying the findings; `Raised` is any other exception. */
  datatype Outcome<+T> = Built(value: T) | Refused(findings: seq<Finding>) | Raised(fault: Fault)

  /** `_product_results_by_line`: the last result of a line wins. */
  function ProductsByLine(xs: seq<ProductResult>): ProductTable {
    if xs == [] then map[]
    else var n := |xs| - 1; ProductsByLine(xs[..n])[xs[n].lineNumber := xs[n]]
  }

  /** `_tax_ids_by_line`: the last stated id of a key wins. */
  function TaxIdsByLine(xs: seq<TaxResult>): map<(Option<string>, int), int> {
    if xs == [] then map[]
    else
      var n := |xs| - 1;
      var ids := TaxIdsByLine(xs[..n]);
      if xs[n].taxId.Some? then ids[TaxKey(xs[n]) := xs[n].taxId.value] else ids
  }

  predicate HasTaxIds(line: Line, ids: map<(Option<string>, int), int>) {
    forall t :: 0 <= t < |line.taxes| ==> (line.number, t) in ids
  }

  function TaxIdsOf(line: Line, ids: map<(Option<string>, int), int>): seq<int>
    requires HasTaxIds(line, ids)
  {
    seq(|line.taxes|, t requires 0 <= t < |line.taxes| => ids[(line.number, t)])
  }

  function Construct(line: BillLine): Outcome<BillLine> {
    if Constructible(line) then Built(line) else Raised(LineRejected)
  }

  /** One bill line for a source line, given what the mode puts on it. */
  function MakeLine(r: Request, line: Line, product: Option<int>, account: Option<int>, resale: Option<LinePin>,
                    internalUse: Option<LinePin>, model: Option<int>): Outcome<BillLine> {
    var ids := TaxIdsByLine(r.taxes.results);
    if !Priced(line) || line.quantity.value == 0.0 then Raised(FailedAssertion)
    else if !HasTaxIds(line, ids) then Raised(MissingKey)
    else
      Construct(BillLine(product, account, line.quantity.value, NetUnitPrice(line, r.precision), TaxIdsOf(line, ids),
                         line.description, resale, internalUse, model))
  }

  function PinOn(pins: Option<PinTable>, line: Line): Option<LinePin> {
    if pins.None? then None else PinFor(pins.value, line.number)
  }

  function BuildProductLine(r: Request, line: Line): Outcome<BillLine> {
    var products := ProductsByLine(r.products.results);
    if line.number !in products then Raised(MissingKey)
    else
      var product := products[line.number].productId;
      var resale, internalUse := PinOn(r.resale, line), PinOn(r.internalUse, line);
      if product.None? then Raised(FailedAssertion)
      else if resale.Some? then MakeLine(r, line, product, Some(resale.value.accountId), resale, None, None)
      else if internalUse.Some? then
        MakeLine(r, line, product, Some(internalUse.value.accountId), None, internalUse, None)
      else MakeLine(r, line, product, None, None, None, None)
  }

  function BuildLine(r: Request, line: Line): Outcome<BillLine> {
    if r.fixedAsset.Some? then
      MakeLine(r, line, None, Some(r.fixedAsset.value.assetAccountId), None, None,
               Some(r.fixedAsset.value.depreciationModelId))
    else if ExpenseMode(r) then MakeLine(r, line, None, r.expense.value.accountId, None, None, None)
    else if line.number.Some? && line.number.value in ResolvedAccounts(r, r.accountOnly) then
      MakeLine(r, line, None, Some(ResolvedAccounts(r, r.accountOnly)[line.number.value]), None, None, None)
    else BuildProductLine(r, line)
  }

  function BuildLines(r: Request, upTo: nat): Outcome<seq<BillLine>>
    requires upTo <= |r.invoice.lines|
  {
    if upTo == 0 then Built([])
    else
      var before := BuildLines(r, upTo - 1);
      if !before.Built? then before
      else match BuildLine(r, r.invoice.lines[upTo - 1])
        case Built(line) => Built(before.value + [line])
        case Refused(findings) => Refused(findings)
        case Raised(fault) => Raised(fault)
  }

  function Build(r: Request): Outcome<Bill> {
    var findings := ValidationFindings(r);
    if findings != [] then Refused(findings)
    else if r.partner.partnerId.None? || r.invoice.currency.None? then Raised(FailedAssertion)
    else match BuildLines(r, |r.invoice.lines|)
      case Built(lines) =>
        Built(Bill(r.partner.partnerId.value, Strip(r.invoice.invoiceNumber), r.invoice.issueDate,
                   Strip(r.invoice.currency.value), r.companyId, lines))
      case Refused(fs) => Refused(fs)
      case Raised(fault) => Raised(fault)
  }

  // ----- what a bill line must be, read off the evidence alone

  ghost predicate EvidencedTax(r: Request, number: Option<string>, t: int, id: int) {
    exists x :: x in r.taxes.results && x == TaxResult(number, t, Matched, Some(id))
  }

  ghost predicate EvidencedProduct(r: Request, number: Option<string>, id: int) {
    exists x :: x in r.products.results && x == ProductResult(number, Matched, Some(id))
  }

  predicate AccountOnlyLine(r: Request, line: Line) {
    Skipped(line.number, r.accountOnly)
  }

  /** The one mode a line is posted in, and the product and account that mode names. */
  ghost predicate PostedAs(r: Request, line: Line, b: BillLine) {
    if r.fixedAsset.Some? then
      && HasShape(b, AssetLine)
      && b.accountId == Some(r.fixedAsset.value.assetAccountId)
      && b.depreciationModel == Some(r.fixedAsset.value.depreciationModelId)
    else if ExpenseMode(r) then HasShape(b, AccountLine) && b.accountId == r.expense.value.accountId
    else if AccountOnlyLine(r, line) then HasShape(b, AccountLine) && b.accountId == AccountFor(r, line.number.value)
    else
      && b.productId.Some? && EvidencedProduct(r, line.number, b.productId.value)
      && (if r.resale.Some? then
            && HasShape(b, ResaleLine)
            && (b.resale.value.lineNumber, b.resale.value) in r.resale.value
            && line.number == Some(b.resale.value.lineNumber)
          else if r.internalUse.Some? then
            && HasShape(b, InternalUseLine)
            && (b.internalUse.value.lineNumber, b.internalUse.value) in r.internalUse.value
            && line.number == Some(b.internalUse.value.lineNumber)
          else HasShape(b, ProductLine))
  }

  /** A bill line that says exactly what its source line and the evidence say. */
  ghost predicate Faithful(r: Request, line: Line, b: BillLine) {
    && Priced(line) && line.quantity.value > 0.0
    && b.quantity == line.quantity.value
    && b.unitPrice == NetUnitPrice(line, r.precision)
    && b.description == line.description
    && |b.taxIds| == |line.taxes|
    && (forall t :: 0 <= t < |b.taxIds| ==> EvidencedTax(r, line.number, t, b.taxIds[t]))
    && PostedAs(r, line, b)
  }

  /** The lines whose product id nothing but the product evidence vouches for. */
  predicate PlainProduct(r: Request, line: Line) {
    && r.fixedAsset.None? && !ExpenseMode(r) && !AccountOnlyLine(r, line)
    && r.resale.None? && r.internalUse.None?
  }

  /** A plain product line whose evidence names a non-positive product. */
  ghost predicate BadProduct(r: Request, line: Line) {
    PlainProduct(r, line) && exists id: int :: id <= 0 && EvidencedProduct(r, line.number, id)
  }

  // ----- consequences of clean validation

  ghost predicate TaxesAgree(xs: seq<TaxResult>, ids: map<(Option<string>, int), int>, table: TaxTable) {
    && ids.Keys == table.Keys
    && forall k :: k in ids ==> TaxResult(k.0, k.1, Matched, Some(ids[k])) in xs
  }

  lemma TaxesAgreeStep(xs: seq<TaxResult>, x: TaxResult, ids: map<(Option<string>, int), int>, table: TaxTable)
    requires TaxesAgree(xs, ids, table) && x.status == Matched && x.taxId.Some?
    ensures TaxesAgree(xs + [x], ids[TaxKey(x) := x.taxId.value], table[TaxKey(x) := x])
  {
  }

  lemma {:induction false} LastTax(xs: seq<TaxResult>)
    requires xs != [] && TaxFindings(xs) == []
    ensures var n, x := |xs| - 1, xs[|xs| - 1];
      && TaxFindings(xs[..n]) == [] && x.status == Matched && x.taxId.Some?
      && TaxIdsByLine(xs) == TaxIdsByLine(xs[..n])[TaxKey(x) := x.taxId.value]
      && TaxTableOf(xs) == TaxTableOf(xs[..n])[TaxKey(x) := x]
  {
  }

  lemma NoTaxesAgree()
    ensures TaxesAgree([], TaxIdsByLine([]), TaxTableOf([]))
  {
    assert TaxIdsByLine([]) == map[] && TaxTableOf([]) == map[];
  }

  lemma {:induction false} CleanTaxes(xs: seq<TaxResult>)
    requires TaxFindings(xs) == []
    ensures TaxesAgree(xs, TaxIdsByLine(xs), TaxTableOf(xs))
  {
    hide TaxesAgree, TaxFindings, TaxIdsByLine, TaxTableOf, TaxKey;
    if xs == [] {
      NoTaxesAgree();
    } else {
      var n := |xs| - 1;
      LastTax(xs);
      var ids, table := TaxIdsByLine(xs[..n]), TaxTableOf(xs[..n]);
      CleanTaxes(xs[..n]);
      TaxesAgreeStep(xs[..n], xs[n], ids, table);
      assert xs[..n] + [xs[n]] == xs;
    }
  }

  ghost predicate ProductsAgree(xs: seq<ProductResult>, skip: set<string>, byLine: ProductTable, table: ProductTable) {
    && (forall k :: k in table ==>
          && !Skipped(k, skip) && k in byLine && byLine[k] == table[k] && table[k].productId.Some?
          && ProductResult(k, Matched, table[k].productId) in xs)
    && (forall x :: x in xs && !Skipped(x.lineNumber, skip) ==> x.lineNumber in table && table[x.lineNumber] == x)
  }

  lemma ProductsAgreeStep(xs: seq<ProductResult>, x: ProductResult, skip: set<string>, byLine: ProductTable,
                          table: ProductTable)
    requires ProductsAgree(xs, skip, byLine, table)
    requires !Skipped(x.lineNumber, skip) ==> x.lineNumber !in table && x.status == Matched && x.productId.Some?
    ensures ProductsAgree(xs + [x], skip, byLine[x.lineNumber := x],
                          if Skipped(x.lineNumber, skip) then table else table[x.lineNumber := x])
  {
  }

  lemma LastProduct(xs: seq<ProductResult>, skip: set<string>)
    requires xs != [] && ProductFindings(xs, skip) == []
    ensures var n, x := |xs| - 1, xs[|xs| - 1];
      && ProductFindings(xs[..n], skip) == []
      && ProductsByLine(xs) == ProductsByLine(xs[..n])[x.lineNumber := x]
      && (Skipped(x.lineNumber, skip) ==> ProductTableOf(xs, skip) == ProductTableOf(xs[..n], skip))
      && (!Skipped(x.lineNumber, skip) ==>
            && x.lineNumber !in ProductTableOf(xs[..n], skip) && x.status == Matched && x.productId.Some?
            && ProductTableOf(xs, skip) == ProductTableOf(xs[..n], skip)[x.lineNumber := x])
  {
  }

  lemma {:induction false} CleanProducts(xs: seq<ProductResult>, skip: set<string>)
    requires ProductFindings(xs, skip) == []
    ensures ProductsAgree(xs, skip, ProductsByLine(xs), ProductTableOf(xs, skip))
  {
    if xs != [] {
      hide ProductsAgree, ProductFindings, ProductsByLine, ProductTableOf;
      var n := |xs| - 1;
      LastProduct(xs, skip);
      CleanProducts(xs[..n], skip);
      ProductsAgreeStep(xs[..n], xs[n], skip, ProductsByLine(xs[..n]), ProductTableOf(xs[..n], skip));
      assert xs[..n] + [xs[n]] == xs;
    }
  }

  lemma {:induction false} CleanLineTaxes(line: Line, i: nat, taxes: TaxTable, upTo: nat)
    requires upTo <= |line.taxes| && TaxFindingsOfLine(line, i, taxes, upTo) == []
    ensures forall t :: 0 <= t < upTo ==> (line.number, t) in taxes
  {
    if upTo != 0 {
      CleanLineTaxes(line, i, taxes, upTo - 1);
    }
  }

  lemma {:induction false} CleanLines(r: Request, products: ProductTable, taxes: TaxTable, upTo: nat, i: nat)
    requires i < upTo <= |r.invoice.lines| && AllLineFindings(r, products, taxes, upTo) == []
    ensures
      var line := r.invoice.lines[i];
      LineFindings(line, i, LineNeeds(r, products, line, i), taxes, r.precision) == []
  {
    hide LineFindings, LineNeeds;
    if i < upTo - 1 {
      CleanLines(r, products, taxes, upTo - 1, i);
    }
  }

  lemma {:induction false} CleanPins(kind: PinKind, pins: seq<(string, LinePin)>, products: ProductTable, i: nat)
    requires i < |pins| && PinTableFindings(kind, pins, products) == []
    ensures pins[i].1.issued && pins[i].1.lineNumber == pins[i].0
    ensures Some(pins[i].0) in products && products[Some(pins[i].0)].productId == Some(pins[i].1.productId)
  {
    var n := |pins| - 1;
    if i < n {
      CleanPins(kind, pins[..n], products, i);
    }
  }

  function LoopProducts(r: Request): ProductTable {
    if r.fixedAsset.Some? then map[] else ValidProducts(r)
  }

  lemma CleanLoop(r: Request)
    requires ValidationFindings(r) == []
    ensures AllLineFindings(r, LoopProducts(r), TaxTableOf(r.taxes.results), |r.invoice.lines|) == []
    ensures TaxFindings(r.taxes.results) == []
  {
    hide AllLineFindings, TotalsFindings, PinFindings, AssetPrelude, GeneralPrelude, ProductStage, TaxFindings,
      Evaluations, AnyDiscount;
    assert TaxEvidence(r.taxes) == [];
  }

  /** What clean validation says about line `i` on its own. */
  lemma CleanLine(r: Request, i: nat)
    requires ValidationFindings(r) == [] && i < |r.invoice.lines|
    ensures var line := r.invoice.lines[i];
      && line.number.Some? && Priced(line) && line.quantity.value > 0.0
      && HasTaxIds(line, TaxIdsByLine(r.taxes.results))
      && TaxFindings(r.taxes.results) == []
      && LineNeeds(r, LoopProducts(r), line, i) == []
  {
    hide DiscountFindings, LineNeeds, ValidationFindings, LoopProducts, AllLineFindings, TaxFindings, TaxFindingsOfLine,
      Strip;
    var line := r.invoice.lines[i];
    var taxes := TaxTableOf(r.taxes.results);
    CleanLoop(r);
    CleanLines(r, LoopProducts(r), taxes, |r.invoice.lines|, i);
    CleanLineTaxes(line, i, taxes, |line.taxes|);
    CleanTaxes(r.taxes.results);
  }

  /** Clean validation outside the fixed-asset path leaves clean product evidence and resolved account-only lines. */
  lemma CleanEvidence(r: Request)
    requires ValidationFindings(r) == [] && r.fixedAsset.None? && !ExpenseMode(r)
    ensures ProductFindings(r.products.results, r.accountOnly) == []
    ensures forall n :: n in r.accountOnly ==> AccountFor(r, n).Some? && n in ResolvedAccounts(r, r.accountOnly)
    ensures r.resale.Some? ==> PinFindings(Resale, r.resale.value, r, ValidProducts(r)) == []
    ensures r.internalUse.Some? ==> PinFindings(InternalUse, r.internalUse.value, r, ValidProducts(r)) == []
    ensures r.resale.None? || r.internalUse.None?
  {
    hide AllLineFindings, TotalsFindings, HeaderFindings, TaxEvidence, Covers, PinTableFindings;
    assert ProductStage(r) == [] && GeneralPrelude(r) == [];
    assert AccountOnlyLines(r) - ResolvedAccounts(r, AccountOnlyLines(r)).Keys == {};
    forall n | n in r.accountOnly
      ensures n in ResolvedAccounts(r, r.accountOnly).Keys
    {
      assert n !in AccountOnlyLines(r) - ResolvedAccounts(r, AccountOnlyLines(r)).Keys;
    }
  }

  lemma MatchedAccountPositive(m: Option<ExpenseMatch>)
    ensures MatchedAccount(m).Some? ==> MatchedAccount(m).value > 0
  {
  }

  /** The pieces common to every mode: quantity, price, taxes and description come straight from the evidence. */
  lemma MadeLine(r: Request, i: nat, product: Option<int>, account: Option<int>, resale: Option<LinePin>,
                 internalUse: Option<LinePin>, model: Option<int>) returns (b: BillLine)
    requires ValidationFindings(r) == [] && i < |r.invoice.lines|
    ensures MakeLine(r, r.invoice.lines[i], product, account, resale, internalUse, model) == Construct(b)
    ensures b.productId == product && b.accountId == account && b.resale == resale && b.internalUse == internalUse
      && b.depreciationModel == model
    ensures PostedAs(r, r.invoice.lines[i], b) ==> Faithful(r, r.invoice.lines[i], b)
  {
    hide ValidationFindings, Construct, NetUnitPrice, PostedAs;
    CleanLine(r, i);
    CleanTaxes(r.taxes.results);
    var line, ids := r.invoice.lines[i], TaxIdsByLine(r.taxes.results);
    b := BillLine(product, account, line.quantity.value, NetUnitPrice(line, r.precision), TaxIdsOf(line, ids),
                  line.description, resale, internalUse, model);
    forall t | 0 <= t < |b.taxIds|
      ensures EvidencedTax(r, line.number, t, b.taxIds[t])
    {
      assert b.taxIds[t] == ids[(line.number, t)];
      assert TaxResult(line.number, t, Matched, Some(b.taxIds[t])) in r.taxes.results;
    }
  }

  lemma ConstructedShape(b: BillLine, shape: Shape)
    requires HasShape(b, shape)
    ensures Construct(b) == Built(b)
  {
  }

  /** A pinned product line: its pin is sealed, for this line and for the matched product. */
  lemma PinnedLine(r: Request, kind: PinKind, pins: PinTable, line: Line) returns (pin: LinePin)
    requires line in r.invoice.lines && line.number.Some?
    requires PinFindings(kind, pins, r, ValidProducts(r)) == []
    ensures PinFor(pins, line.number) == Some(pin) && pin.issued && line.number == Some(pin.lineNumber)
    ensures (pin.lineNumber, pin) in pins
    ensures line.number in ValidProducts(r) && ValidProducts(r)[line.number].productId == Some(pin.productId)
  {
    var j :| 0 <= j < |r.invoice.lines| && r.invoice.lines[j] == line;
    assert line.number in LineNumbers(r.invoice);
    assert line.number in PinKeys(pins);
    pin := PinFor(pins, line.number).value;
    var i :| 0 <= i < |pins| && pins[i] == (line.number.value, pin);
    CleanPins(kind, pins, ValidProducts(r), i);
  }

  /** After clean validation a line builds to a faithful bill line, unless it is a plain product line whose
      evidence names a non-positive product; then the line constructor rejects it. */
  lemma BuildLineCorrect(r: Request, i: nat)
    requires ValidationFindings(r) == [] && i < |r.invoice.lines|
    ensures var line := r.invoice.lines[i];
      && (!BadProduct(r, line) ==> BuildLine(r, line).Built? && Faithful(r, line, BuildLine(r, line).value))
      && (BadProduct(r, line) ==> BuildLine(r, line) == Raised(LineRejected))
  {
    hide ValidationFindings, MakeLine, Construct, Faithful;
    var line := r.invoice.lines[i];
    if r.fixedAsset.Some? {
      var a := r.fixedAsset.value;
      var b := MadeLine(r, i, None, Some(a.assetAccountId), None, None, Some(a.depreciationModelId));
      ConstructedShape(b, AssetLine);
    } else if ExpenseMode(r) {
      var b := MadeLine(r, i, None, r.expense.value.accountId, None, None, None);
      ConstructedShape(b, AccountLine);
    } else {
      CleanEvidence(r);
      if AccountOnlyLine(r, line) {
        MatchedAccountPositive(r.accountOnlyExpense);
        var b := MadeLine(r, i, None, AccountFor(r, line.number.value), None, None, None);
        ConstructedShape(b, AccountLine);
      } else {
        BuildProductLineCorrect(r, i);
      }
    }
  }

  lemma BuildProductLineCorrect(r: Request, i: nat)
    requires ValidationFindings(r) == [] && i < |r.invoice.lines|
    requires r.fixedAsset.None? && !ExpenseMode(r) && !AccountOnlyLine(r, r.invoice.lines[i])
    ensures var line := r.invoice.lines[i];
      && (!BadProduct(r, line) ==>
            BuildProductLine(r, line).Built? && Faithful(r, line, BuildProductLine(r, line).value))
      && (BadProduct(r, line) ==> BuildProductLine(r, line) == Raised(LineRejected))
  {
    hide ValidationFindings, MakeLine, Construct, Faithful, PinFindings;
    var line := r.invoice.lines[i];
    CleanEvidence(r);
    CleanLine(r, i);
    CleanProducts(r.products.results, r.accountOnly);
    var product := MatchedProduct(r, i);
    if r.resale.Some? {
      var pin := PinnedLine(r, Resale, r.resale.value, line);
      var b := MadeLine(r, i, Some(product), Some(pin.accountId), Some(pin), None, None);
      ConstructedShape(b, ResaleLine);
    } else if r.internalUse.Some? {
      var pin := PinnedLine(r, InternalUse, r.internalUse.value, line);
      var b := MadeLine(r, i, Some(product), Some(pin.accountId), None, Some(pin), None);
      ConstructedShape(b, InternalUseLine);
    } else {
      var b := MadeLine(r, i, Some(product), None, None, None, None);
      PlainProductVerdict(r, i, product, b);
    }
  }

  /** The product of a product line: found, and the only one its evidence names. */
  lemma MatchedProduct(r: Request, i: nat) returns (product: int)
    requires ValidationFindings(r) == [] && i < |r.invoice.lines|
    requires r.fixedAsset.None? && !ExpenseMode(r) && !AccountOnlyLine(r, r.invoice.lines[i])
    ensures var line, table := r.invoice.lines[i], ProductsByLine(r.products.results);
      && line.number in table && table[line.number].productId == Some(product)
      && line.number in ValidProducts(r) && ValidProducts(r)[line.number] == table[line.number]
      && EvidencedProduct(r, line.number, product)
      && forall id: int :: EvidencedProduct(r, line.number, id) ==> id == product
  {
    hide ValidationFindings;
    CleanEvidence(r);
    CleanLine(r, i);
    CleanProducts(r.products.results, r.accountOnly);
    var line, table := r.invoice.lines[i], ProductsByLine(r.products.results);
    product := table[line.number].productId.value;
    assert ProductResult(line.number, Matched, Some(product)) in r.products.results;
    forall id: int | EvidencedProduct(r, line.number, id)
      ensures id == product
    {
      var x :| x in r.products.results && x == ProductResult(line.number, Matched, Some(id));
      assert ValidProducts(r)[line.number] == x;
    }
  }

  lemma PlainProductVerdict(r: Request, i: nat, product: int, b: BillLine)
    requires i < |r.invoice.lines| && PlainProduct(r, r.invoice.lines[i])
    requires EvidencedProduct(r, r.invoice.lines[i].number, product)
    requires forall id: int :: EvidencedProduct(r, r.invoice.lines[i].number, id) ==> id == product
    requires b.productId == Some(product) && b.accountId.None? && b.resale.None? && b.internalUse.None?
      && b.depreciationModel.None?
    ensures !BadProduct(r, r.invoice.lines[i]) ==> Construct(b) == Built(b) && PostedAs(r, r.invoice.lines[i], b)
    ensures BadProduct(r, r.invoice.lines[i]) ==> Construct(b) == Raised(LineRejected)
  {
  }

  ghost predicate OneToOne(r: Request, lines: seq<BillLine>, upTo: nat)
    requires upTo <= |r.invoice.lines|
  {
    |lines| == upTo && forall i :: 0 <= i < upTo ==> Faithful(r, r.invoice.lines[i], lines[i])
  }

  lemma {:induction false} BuildLinesCorrect(r: Request, upTo: nat)
    requires ValidationFindings(r) == [] && upTo <= |r.invoice.lines|
    ensures if forall i :: 0 <= i < upTo ==> !BadProduct(r, r.invoice.lines[i])
            then BuildLines(r, upTo).Built? && OneToOne(r, BuildLines(r, upTo).value, upTo)
            else BuildLines(r, upTo) == Raised(LineRejected)
  {
    hide ValidationFindings, BuildLine, BadProduct, Faithful;
    if upTo != 0 {
      BuildLinesCorrect(r, upTo - 1);
      BuildLineCorrect(r, upTo - 1);
    }
  }

  /** Validation makes building total. A request without findings is never refused and never meets a missing key
      or a failed assertion. It yields one faithful line per source line, in order, exactly when no plain product
      line's evidence names a non-positive product; otherwise the line constructor rejects it. */
  lemma ValidationMakesBuildingTotal(r: Request)
    requires ValidationFindings(r) == []
    ensures Build(r).Built? <==> forall i :: 0 <= i < |r.invoice.lines| ==> !BadProduct(r, r.invoice.lines[i])
    ensures Build(r).Built? ==>
      && OneToOne(r, Build(r).value.lines, |r.invoice.lines|)
      && r.partner.status == Matched && r.partner.partnerId == Some(Build(r).value.supplierId)
      && Build(r).value.invoiceNumber != "" && Build(r).value.currency != "" && Build(r).value.invoiceDate.Some?
    ensures !Build(r).Built? ==> Build(r) == Raised(LineRejected)
  {
    hide ValidationFindings, BuildLines, BadProduct, Faithful, Strip;
    CleanHeader(r);
    BuildLinesCorrect(r, |r.invoice.lines|);
  }

  lemma CleanHeader(r: Request)
    requires ValidationFindings(r) == []
    ensures r.partner.status == Matched && r.partner.partnerId.Some? && r.invoice.issueDate.Some?
    ensures Strip(r.invoice.invoiceNumber) != "" && r.invoice.currency.Some? && Strip(r.invoice.currency.value) != ""
  {
    hide AllLineFindings, TotalsFindings, TaxEvidence, PinFindings, ProductStage, Strip, ProductShapeFindings,
      CompanyFindings;
    if r.fixedAsset.Some? {
      assert AssetPrelude(r) == [];
    } else {
      assert GeneralPrelude(r) == [];
    }
    assert HeaderFindings(r) == [];
  }

  /** In every built bill a product line carries an account only when that account is its sealed pin. */
  lemma BuiltAccountsArePinned(r: Request, i: nat)
    requires Build(r).Built? && i < |Build(r).value.lines|
    ensures var b := Build(r).value.lines[i];
      b.productId.Some? && b.accountId.Some? ==>
        (b.resale.Some? && PinnedBy(b, b.resale.value)) || (b.internalUse.Some? && PinnedBy(b, b.internalUse.value))
  {
    hide ValidationFindings, BuildLines, NetUnitPrice, BadProduct, EvidencedTax, EvidencedProduct;
    ValidationMakesBuildingTotal(r);
    assert Faithful(r, r.invoice.lines[i], Build(r).value.lines[i]);
  }
}
