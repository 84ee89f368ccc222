/** Verification of a created draft bill's company-currency amounts (`verify_vendor_bill_company_amounts` in
    `app/billing/fx_rate.py`): what VERIFIED proves, and when its total check adds nothing to its line checks. */
module FxVerification {
  import opened Core
  import opened Money
  import opened FxRate

  datatype Kind = Product | TaxLine | Payable | Zero | Other

  datatype JournalLine = JournalLine(id: int, kind: Kind, amountCurrency: real, balance: real)

  datatype BillAmounts = BillAmounts(draft: bool, currency: string, rate: Option<real>, lines: seq<JournalLine>)

  datatype Mismatch =
    | NoApplicableRate
    | BillNotFound
    | PrecisionUnknown
    | CurrencyDiffers
    | NotDraft
    | RateDiffers
    | UnverifiedLineType(id: int)
    | NoProductOrPayable
    | LineAmount(id: int)
    | Unbalanced
    | TotalDiffers

  datatype VerificationStatus = Verified | Mismatched | NothingToVerify | Unverified

  datatype Amounts = Amounts(untaxed: real, tax: real, payable: real)

  datatype Verification = Verification(status: VerificationStatus, amounts: Option<Amounts>, mismatches: seq<Mismatch>)

  // ----- the pieces of the check

  function OfKind(lines: seq<JournalLine>, kind: Kind): seq<JournalLine> {
    if lines == [] then []
    else
      var n := |lines| - 1;
      OfKind(lines[..n], kind) + (if lines[n].kind == kind then [lines[n]] else [])
  }

  function Balance(line: JournalLine): real {
    line.balance
  }

  function AbsBalance(line: JournalLine): real {
    AbsR(line.balance)
  }

  function AbsAmount(line: JournalLine): real {
    AbsR(line.amountCurrency)
  }

  /** |balance| is the converted |amount| within a tolerance. */
  predicate LineOk(line: JournalLine, rate: real, p: Precision, tolerance: real) {
    AbsR(AbsBalance(line) - Convert(AbsAmount(line), rate, p)) <= tolerance
  }

  function TaxTolerance(products: nat, p: Precision): real {
    Quantum(p) * Max(1, products) as real
  }

  predicate LinesOk(lines: seq<JournalLine>, rate: real, p: Precision, tolerance: real) {
    forall i :: 0 <= i < |lines| ==> LineOk(lines[i], rate, p, tolerance)
  }

  predicate Balanced(products: seq<JournalLine>, taxes: seq<JournalLine>, payables: seq<JournalLine>) {
    Sum(Map(Balance, payables)) + Sum(Map(Balance, products + taxes)) == 0.0
  }

  predicate TotalOk(payables: seq<JournalLine>, expected: Option<real>, products: nat, p: Precision) {
    expected.Some? ==>
      AbsR(AbsR(Sum(Map(Balance, payables))) - expected.value)
        <= Quantum(p) * products as real + TaxTolerance(products, p)
  }

  predicate OnlyKnownKinds(lines: seq<JournalLine>) {
    forall i :: 0 <= i < |lines| ==> lines[i].kind != Other
  }

  /** Everything VERIFIED asserts of a plan and a bill. */
  ghost predicate Proven(plan: Plan, actual: BillAmounts) {
    && plan.status == SourceRateSelected && plan.selectedRate.Some? && plan.places.Some?
    && var rate, p := plan.selectedRate.value, plan.places.value;
    && var products, taxes := OfKind(actual.lines, Product), OfKind(actual.lines, TaxLine);
    && var payables := OfKind(actual.lines, Payable);
    && Currency(actual.currency) == plan.documentCurrency && actual.draft
    && CompanyRateFromOdoo(actual.rate) == Some(NormalizedRate(rate))
    && OnlyKnownKinds(actual.lines) && products != [] && payables != []
    && LinesOk(products, rate, p, Quantum(p))
    && LinesOk(taxes, rate, p, TaxTolerance(|products|, p))
    && Balanced(products, taxes, payables)
    && TotalOk(payables, plan.expectedTotal, |products|, p)
  }

  // ----- the mismatches

  /** A line of a kind that is not verified. */
  predicate UnverifiedIn(lines: seq<JournalLine>, m: Mismatch) {
    exists i :: 0 <= i < |lines| && lines[i].kind == Other && m == UnverifiedLineType(lines[i].id)
  }

  /** A line whose balance is off its conversion. */
  predicate OffIn(lines: seq<JournalLine>, rate: real, p: Precision, tolerance: real, m: Mismatch) {
    exists i :: 0 <= i < |lines| && !LineOk(lines[i], rate, p, tolerance) && m == LineAmount(lines[i].id)
  }

  /** When a comparable bill has each mismatch. */
  predicate Mismatching(plan: Plan, actual: BillAmounts, m: Mismatch)
    requires plan.selectedRate.Some? && plan.places.Some?
  {
    var rate, p := plan.selectedRate.value, plan.places.value;
    var products, taxes := OfKind(actual.lines, Product), OfKind(actual.lines, TaxLine);
    var payables := OfKind(actual.lines, Payable);
    || (m == CurrencyDiffers && Currency(actual.currency) != plan.documentCurrency)
    || (m == NotDraft && !actual.draft)
    || (m == RateDiffers && CompanyRateFromOdoo(actual.rate) != Some(NormalizedRate(rate)))
    || UnverifiedIn(actual.lines, m)
    || (m == NoProductOrPayable && (products == [] || payables == []))
    || OffIn(products, rate, p, Quantum(p), m)
    || OffIn(taxes, rate, p, TaxTolerance(|products|, p), m)
    || (m == Unbalanced && !Balanced(products, taxes, payables))
    || (m == TotalDiffers && !TotalOk(payables, plan.expectedTotal, |products|, p))
  }

  // ----- the loops

  method SplitByKind(lines: seq<JournalLine>)
    returns (products: seq<JournalLine>, taxes: seq<JournalLine>, payables: seq<JournalLine>, mismatches: seq<Mismatch>)
    ensures products == OfKind(lines, Product) && taxes == OfKind(lines, TaxLine) && payables == OfKind(lines, Payable)
    ensures mismatches == [] <==> OnlyKnownKinds(lines)
    ensures forall m :: m in mismatches <==> UnverifiedIn(lines, m)
  {
    products, taxes, payables, mismatches := [], [], [], [];
    for i := 0 to |lines|
      invariant products == OfKind(lines[..i], Product)
      invariant taxes == OfKind(lines[..i], TaxLine)
      invariant payables == OfKind(lines[..i], Payable)
      invariant mismatches == [] <==> OnlyKnownKinds(lines[..i])
      invariant forall m :: m in mismatches <==> UnverifiedIn(lines[..i], m)
    {
      assert lines[..i + 1][..i] == lines[..i];
      assert lines[..i + 1][i] == lines[i];
      assert OnlyKnownKinds(lines[..i + 1]) <==> OnlyKnownKinds(lines[..i]) && lines[i].kind != Other;
      match lines[i].kind
      case Zero =>
      case Other => mismatches := mismatches + [UnverifiedLineType(lines[i].id)];
      case Product => products := products + [lines[i]];
      case TaxLine => taxes := taxes + [lines[i]];
      case Payable => payables := payables + [lines[i]];
      UnverifiedNext(lines, i);
      hide UnverifiedIn;
    }
    assert lines[..|lines|] == lines;
  }

  lemma OffNext(lines: seq<JournalLine>, n: nat, rate: real, p: Precision, tolerance: real)
    requires n < |lines|
    ensures forall m :: OffIn(lines[..n + 1], rate, p, tolerance, m) <==>
      || OffIn(lines[..n], rate, p, tolerance, m)
      || (!LineOk(lines[n], rate, p, tolerance) && m == LineAmount(lines[n].id))
  {
    hide LineOk;
    var all := lines[..n + 1];
    assert all == lines[..n] + [lines[n]];
    forall m
      ensures OffIn(all, rate, p, tolerance, m) <==>
        || OffIn(lines[..n], rate, p, tolerance, m)
        || (!LineOk(lines[n], rate, p, tolerance) && m == LineAmount(lines[n].id))
    {
      if !LineOk(lines[n], rate, p, tolerance) && m == LineAmount(lines[n].id) {
        assert all[n] == lines[n];
      }
      if i :| 0 <= i < n && !LineOk(lines[..n][i], rate, p, tolerance) && m == LineAmount(lines[..n][i].id) {
        assert all[i] == lines[..n][i];
      }
    }
  }

  lemma UnverifiedNext(lines: seq<JournalLine>, n: nat)
    requires n < |lines|
    ensures forall m :: UnverifiedIn(lines[..n + 1], m) <==>
      UnverifiedIn(lines[..n], m) || (lines[n].kind == Other && m == UnverifiedLineType(lines[n].id))
  {
    assert lines[..n + 1] == lines[..n] + [lines[n]];
  }

  method CheckLineAmounts(lines: seq<JournalLine>, rate: real, p: Precision, tolerance: real)
    returns (mismatches: seq<Mismatch>)
    ensures mismatches == [] <==> LinesOk(lines, rate, p, tolerance)
    ensures forall m :: m in mismatches <==> OffIn(lines, rate, p, tolerance, m)
  {
    hide LineOk;
    mismatches := [];
    for i := 0 to |lines|
      invariant mismatches == [] <==> forall j :: 0 <= j < i ==> LineOk(lines[j], rate, p, tolerance)
      invariant forall m :: m in mismatches <==> OffIn(lines[..i], rate, p, tolerance, m)
    {
      if !LineOk(lines[i], rate, p, tolerance) {
        mismatches := mismatches + [LineAmount(lines[i].id)];
      }
      OffNext(lines, i, rate, p, tolerance);
      hide OffIn;
    }
    assert lines[..|lines|] == lines;
  }

  /** The whole verification. A selected plan always carries its rate; a plan without a precision proves nothing. */
  method Verify(plan: Option<Plan>, actual: Option<BillAmounts>) returns (v: Verification)
    requires plan.Some? && plan.value.status == SourceRateSelected ==> plan.value.selectedRate.Some?
    ensures v.status == Verified <==> plan.Some? && actual.Some? && Proven(plan.value, actual.value)
    ensures v.status == Verified <==> v.mismatches == [] && v.status != NothingToVerify
    ensures v.status == Verified || v.status == Mismatched ==>
      && plan.Some? && actual.Some? && plan.value.selectedRate.Some? && plan.value.places.Some?
      && forall m :: m in v.mismatches <==> Mismatching(plan.value, actual.value, m)
    ensures v.status == Unverified ==>
      v.mismatches == [if plan.None? || plan.value.status != SourceRateSelected then NoApplicableRate
                       else if actual.None? then BillNotFound else PrecisionUnknown]
    ensures v.status == NothingToVerify <==> plan.Some? && plan.value.status == NotApplicable
    ensures v.status == Unverified <==>
      && (plan.None? || plan.value.status != NotApplicable)
      && (plan.None? || plan.value.status != SourceRateSelected || actual.None? || plan.value.places.None?)
    ensures v.status == Verified || v.status == Mismatched ==>
      v.amounts == Some(Amounts(
        Sum(Map(AbsBalance, OfKind(actual.value.lines, Product))),
        Sum(Map(AbsBalance, OfKind(actual.value.lines, TaxLine))),
        AbsR(Sum(Map(Balance, OfKind(actual.value.lines, Payable))))))
    ensures v.status == NothingToVerify || v.status == Unverified ==> v.amounts.None?
  {
    hide LineOk, LinesOk, TaxTolerance, Quantum, NormalizedRate, CompanyRateFromOdoo, Currency, TotalOk, Balanced,
      OnlyKnownKinds, UnverifiedIn, OffIn, OfKind;
    if plan.None? || plan.value.status != SourceRateSelected {
      if plan.Some? && plan.value.status == NotApplicable {
        return Verification(NothingToVerify, None, []);
      }
      return Verification(Unverified, None, [NoApplicableRate]);
    }
    if actual.None? {
      return Verification(Unverified, None, [BillNotFound]);
    }
    var rate := plan.value.selectedRate.value;
    if plan.value.places.None? {
      return Verification(Unverified, None, [PrecisionUnknown]);
    }
    var p := plan.value.places.value;
    var header: seq<Mismatch> := [];
    if Currency(actual.value.currency) != plan.value.documentCurrency {
      header := header + [CurrencyDiffers];
    }
    if !actual.value.draft {
      header := header + [NotDraft];
    }
    if CompanyRateFromOdoo(actual.value.rate) != Some(NormalizedRate(rate)) {
      header := header + [RateDiffers];
    }
    var products, taxes, payables, kinds := SplitByKind(actual.value.lines);
    if products == [] || payables == [] {
      kinds := kinds + [NoProductOrPayable];
    }
    var productAmounts := CheckLineAmounts(products, rate, p, Quantum(p));
    var taxAmounts := CheckLineAmounts(taxes, rate, p, TaxTolerance(|products|, p));
    var totals: seq<Mismatch> := [];
    if !Balanced(products, taxes, payables) {
      totals := totals + [Unbalanced];
    }
    if !TotalOk(payables, plan.value.expectedTotal, |products|, p) {
      totals := totals + [TotalDiffers];
    }
    var mismatches := header + kinds + productAmounts + taxAmounts + totals;
    v := Verification(
      if mismatches == [] then Verified else Mismatched,
      Some(Amounts(Sum(Map(AbsBalance, products)), Sum(Map(AbsBalance, taxes)), AbsR(Sum(Map(Balance, payables))))),
      mismatches);
  }

  // ----- soundness

  /** One verified product line is within one and a half quanta of its exact conversion. */
  lemma LineWithin(line: JournalLine, rate: real, p: Precision)
    requires LineOk(line, rate, p, Quantum(p))
    ensures WithinHalfQuanta(AbsBalance(line), Extended(AbsAmount(line), rate), 3, p)
  {
    hide CurrencyRound, Quantum, Extended, WithinHalfQuanta;
    var b, c, x := AbsBalance(line), Convert(AbsAmount(line), rate, p), Extended(AbsAmount(line), rate);
    QuantumIsTwoHalves(b, c, p);
    RoundedWithin(x, p);
    HalfQuantaAdd(b, c, x, 2, 1, p);
  }

  lemma QuantumIsTwoHalves(a: real, b: real, p: Precision)
    requires AbsR(a - b) <= Quantum(p)
    ensures WithinHalfQuanta(a, b, 2, p)
  {
    hide Quantum;
  }

  lemma {:induction false} LinesWithin(lines: seq<JournalLine>, rate: real, p: Precision)
    requires LinesOk(lines, rate, p, Quantum(p))
    ensures WithinHalfQuanta(Sum(Map(AbsBalance, lines)), Extended(Sum(Map(AbsAmount, lines)), rate), 3 * |lines|, p)
  {
    hide LineOk, WithinHalfQuanta, AbsBalance, AbsAmount, Quantum, Extended;
    if lines == [] {
      ExtendedZero(rate);
      WithinNothing(p);
    } else {
      var n := |lines| - 1;
      var last := lines[n];
      LinesWithin(lines[..n], rate, p);
      assert Map(AbsBalance, lines)[..n] == Map(AbsBalance, lines[..n]);
      assert Map(AbsAmount, lines)[..n] == Map(AbsAmount, lines[..n]);
      var s, t := Sum(Map(AbsBalance, lines[..n])), Sum(Map(AbsAmount, lines[..n]));
      var x, y := AbsBalance(last), AbsAmount(last);
      LineWithin(last, rate, p);
      ExtendedAdd(t, y, rate);
      HalfQuantaShift(s, Extended(t, rate), x, 3 * n, p);
      HalfQuantaShift(x, Extended(y, rate), Extended(t, rate), 3, p);
      HalfQuantaAdd(s + x, Extended(t, rate) + x, Extended(t, rate) + Extended(y, rate), 3 * n, 3, p);
    }
  }

  lemma ExtendedZero(rate: real)
    ensures Extended(0.0, rate) == 0.0
  {
  }

  lemma ExtendedAdd(a: real, b: real, rate: real)
    ensures Extended(a + b, rate) == Extended(a, rate) + Extended(b, rate)
  {
  }

  /** What VERIFIED proves, for any number of lines: the untaxed company amount is within 1.5 quanta per product line
      of the exact conversion of the document amounts, and the payable never exceeds untaxed plus tax. */
  lemma VerifiedSoundness(plan: Plan, actual: BillAmounts)
    requires Proven(plan, actual)
    ensures var products, taxes := OfKind(actual.lines, Product), OfKind(actual.lines, TaxLine);
      var payables := OfKind(actual.lines, Payable);
      && WithinHalfQuanta(Sum(Map(AbsBalance, products)),
                          Extended(Sum(Map(AbsAmount, products)), plan.selectedRate.value),
                          3 * |products|, plan.places.value)
      && AbsR(Sum(Map(Balance, payables))) <= Sum(Map(AbsBalance, products)) + Sum(Map(AbsBalance, taxes))
  {
    hide LinesOk, WithinHalfQuanta, Extended, Quantum, TotalOk, NormalizedRate, CompanyRateFromOdoo, Currency;
    var products, taxes := OfKind(actual.lines, Product), OfKind(actual.lines, TaxLine);
    LinesWithin(products, plan.selectedRate.value, plan.places.value);
    SumAbs(Map(Balance, products + taxes), Map(AbsBalance, products + taxes));
    SumMapConcat(AbsBalance, products, taxes);
  }

  lemma {:induction false} SumMapConcat<A>(f: A -> real, xs: seq<A>, ys: seq<A>)
    ensures Sum(Map(f, xs + ys)) == Sum(Map(f, xs)) + Sum(Map(f, ys))
  {
    if ys == [] {
      assert xs + ys == xs;
      assert Map(f, ys) == [];
    } else {
      var n := |ys| - 1;
      SumMapConcat(f, xs, ys[..n]);
      assert Map(f, xs + ys) == Map(f, xs + ys[..n]) + [f(ys[n])];
      assert Map(f, ys) == Map(f, ys[..n]) + [f(ys[n])];
      SumAppend(Map(f, xs + ys[..n]), f(ys[n]));
      SumAppend(Map(f, ys[..n]), f(ys[n]));
    }
  }

  // ----- completeness of the line checks

  /** A bill whose document amounts are the plan's, with balances of one sign, that passes every line check and
      balances exactly. */
  ghost predicate LineChecksPass(products: seq<JournalLine>, taxes: seq<JournalLine>, payables: seq<JournalLine>,
                                 subtotals: seq<real>, taxTotal: real, rate: real, p: Precision) {
    && subtotals == Map(AbsAmount, products)
    && taxTotal == Sum(Map(AbsAmount, taxes))
    && OneSign(products + taxes)
    && LinesOk(products, rate, p, Quantum(p))
    && LinesOk(taxes, rate, p, TaxTolerance(|products|, p))
    && Balanced(products, taxes, payables)
  }

  predicate OneSign(lines: seq<JournalLine>) {
    || (forall i :: 0 <= i < |lines| ==> lines[i].balance >= 0.0)
    || (forall i :: 0 <= i < |lines| ==> lines[i].balance <= 0.0)
  }

  function ExpectedTotal(subtotals: seq<real>, taxTotal: real, rate: real, p: Precision): real {
    ConvertedSum(subtotals, rate, p) + Convert(taxTotal, rate, p)
  }

  /** The total check can never fail for `n` product lines and `k` tax lines once the line checks pass. */
  ghost predicate TotalImplied(n: nat, k: nat) {
    forall products, taxes, payables, subtotals, taxTotal, rate, p: Precision ::
      |products| == n && |taxes| == k && LineChecksPass(products, taxes, payables, subtotals, taxTotal, rate, p) ==>
        TotalOk(payables, Some(ExpectedTotal(subtotals, taxTotal, rate, p)), n, p)
  }

  /** With one sign everywhere, an exactly balancing payable is the sum of the absolute balances. */
  lemma PayableIsSum(products: seq<JournalLine>, taxes: seq<JournalLine>, payables: seq<JournalLine>)
    requires Balanced(products, taxes, payables) && OneSign(products + taxes)
    ensures AbsR(Sum(Map(Balance, payables))) == Sum(Map(AbsBalance, products)) + Sum(Map(AbsBalance, taxes))
  {
    SumAbs(Map(Balance, products + taxes), Map(AbsBalance, products + taxes));
    SumMapConcat(AbsBalance, products, taxes);
  }

  lemma ProductsNearExpected(products: seq<JournalLine>, rate: real, p: Precision)
    requires LinesOk(products, rate, p, Quantum(p))
    ensures AbsR(Sum(Map(AbsBalance, products)) - ConvertedSum(Map(AbsAmount, products), rate, p))
         <= Quantum(p) * |products| as real
  {
    hide CurrencyRound, Quantum, Extended, Convert;
    var xs := Map(AbsBalance, products);
    var ys := Map((s: real) => Convert(s, rate, p), Map(AbsAmount, products));
    forall i | 0 <= i < |xs|
      ensures -Quantum(p) <= xs[i] - ys[i] <= Quantum(p)
    {
      assert LineOk(products[i], rate, p, Quantum(p));
    }
    SumsClose(xs, ys, Quantum(p));
  }

  lemma OneTaxNearExpected(taxes: seq<JournalLine>, n: nat, rate: real, p: Precision)
    requires |taxes| <= 1 && LinesOk(taxes, rate, p, TaxTolerance(n, p))
    ensures AbsR(Sum(Map(AbsBalance, taxes)) - Convert(Sum(Map(AbsAmount, taxes)), rate, p)) <= TaxTolerance(n, p)
  {
    if taxes == [] {
      RoundGrid(0, p);
      hide CurrencyRound, Quantum;
      ExtendedZero(rate);
      assert Convert(0.0, rate, p) == 0.0;
      assert TaxTolerance(n, p) >= 0.0 by { MulLe(0.0, Max(1, n) as real, Quantum(p)); }
    } else {
      hide CurrencyRound, Quantum, Extended, Convert, TaxTolerance;
      assert LineOk(taxes[0], rate, p, TaxTolerance(n, p));
      assert Map(AbsBalance, taxes) == [] + [AbsBalance(taxes[0])];
      assert Map(AbsAmount, taxes) == [] + [AbsAmount(taxes[0])];
      SumAppend([], AbsBalance(taxes[0]));
      SumAppend([], AbsAmount(taxes[0]));
    }
  }

  lemma AtMostOneTaxSuffices(products: seq<JournalLine>, taxes: seq<JournalLine>, payables: seq<JournalLine>,
                             subtotals: seq<real>, taxTotal: real, rate: real, p: Precision)
    requires |taxes| <= 1 && LineChecksPass(products, taxes, payables, subtotals, taxTotal, rate, p)
    ensures TotalOk(payables, Some(ExpectedTotal(subtotals, taxTotal, rate, p)), |products|, p)
  {
    hide LinesOk, Convert, Quantum, TaxTolerance, OneSign, Balanced, ConvertedSum;
    PayableIsSum(products, taxes, payables);
    ProductsNearExpected(products, rate, p);
    OneTaxNearExpected(taxes, |products|, rate, p);
  }

  /** `count` copies of one line. */
  function Copies(line: JournalLine, count: nat): (lines: seq<JournalLine>)
    ensures |lines| == count && forall i :: 0 <= i < count ==> lines[i] == line
  {
    seq(count, _ => line)
  }

  lemma {:induction false} SumSame(xs: seq<real>, x: real)
    requires forall i :: 0 <= i < |xs| ==> xs[i] == x
    ensures Sum(xs) == x * |xs| as real
  {
    if xs != [] {
      SumSame(xs[..|xs| - 1], x);
      assert x * |xs| as real == x * (|xs| - 1) as real + x;
    }
  }

  function ExampleProduct(): JournalLine {
    JournalLine(1, Product, 1.0, 2.0)
  }

  function ExampleTax(n: nat): JournalLine {
    JournalLine(2, TaxLine, 1.0, 1.0 + n as real)
  }

  function ExampleDue(n: nat, k: nat): real {
    2.0 * n as real + (1.0 + n as real) * k as real
  }

  lemma UnitTolerances(n: nat)
    requires n >= 1
    ensures Quantum(0) == 1.0 && TaxTolerance(n, 0) == n as real
  {
    assert Pow10(0) == 1;
  }

  lemma ExampleLineOk(n: nat)
    ensures LineOk(ExampleProduct(), 1.0, 0, 1.0)
    ensures LineOk(ExampleTax(n), 1.0, 0, n as real)
  {
    hide Convert;
    UnitRate(1.0, 1);
  }

  lemma CopiesOk(line: JournalLine, count: nat, rate: real, p: Precision, tolerance: real)
    requires LineOk(line, rate, p, tolerance)
    ensures LinesOk(Copies(line, count), rate, p, tolerance)
  {
  }

  lemma ExampleLinesOk(n: nat, k: nat)
    requires n >= 1
    ensures LinesOk(Copies(ExampleProduct(), n), 1.0, 0, Quantum(0))
    ensures LinesOk(Copies(ExampleTax(n), k), 1.0, 0, TaxTolerance(n, 0))
    ensures Quantum(0) * n as real + TaxTolerance(n, 0) == 2.0 * n as real
  {
    hide Quantum, TaxTolerance, LineOk, LinesOk;
    UnitTolerances(n);
    ExampleLineOk(n);
    CopiesOk(ExampleProduct(), n, 1.0, 0, 1.0);
    CopiesOk(ExampleTax(n), k, 1.0, 0, n as real);
  }

  lemma ExampleBalanced(n: nat, k: nat, payables: seq<JournalLine>)
    requires payables == [JournalLine(3, Payable, 0.0, -ExampleDue(n, k))]
    ensures Balanced(Copies(ExampleProduct(), n), Copies(ExampleTax(n), k), payables)
    ensures Sum(Map(Balance, payables)) == -ExampleDue(n, k)
  {
    var products, taxes := Copies(ExampleProduct(), n), Copies(ExampleTax(n), k);
    SumSame(Map(Balance, products), 2.0);
    SumSame(Map(Balance, taxes), 1.0 + n as real);
    SumMapConcat(Balance, products, taxes);
    assert Map(Balance, payables) == [] + [-ExampleDue(n, k)];
    SumAppend([], -ExampleDue(n, k));
  }

  lemma ExampleExpected(n: nat, k: nat)
    ensures Sum(Map(AbsAmount, Copies(ExampleTax(n), k))) == k as real
    ensures ExpectedTotal(Map(AbsAmount, Copies(ExampleProduct(), n)), k as real, 1.0, 0) == n as real + k as real
  {
    hide Convert;
    UnitRate(1.0, 1);
    UnitRate(k as real, k);
    var subtotals := Map(AbsAmount, Copies(ExampleProduct(), n));
    SumSame(Map(AbsAmount, Copies(ExampleTax(n), k)), 1.0);
    SumSame(Map((s: real) => Convert(s, 1.0, 0), subtotals), 1.0);
  }

  /** Two or more tax lines can each use their whole tolerance, which the total tolerance grants only once. */
  lemma SeveralTaxesCanFail(n: nat, k: nat)
    requires n >= 1 && k >= 2
    ensures !TotalImplied(n, k)
  {
    hide LinesOk, TaxTolerance, Quantum, ExampleDue, ExpectedTotal, Balanced;
    var products, taxes := Copies(ExampleProduct(), n), Copies(ExampleTax(n), k);
    var payables := [JournalLine(3, Payable, 0.0, -ExampleDue(n, k))];
    var subtotals := Map(AbsAmount, products);
    ExampleLinesOk(n, k);
    ExampleBalanced(n, k, payables);
    ExampleExpected(n, k);
    assert OneSign(products + taxes);
    assert LineChecksPass(products, taxes, payables, subtotals, k as real, 1.0, 0);
    OverTolerance(n, k);
    assert !TotalOk(payables, Some(ExpectedTotal(subtotals, k as real, 1.0, 0)), n, 0);
  }

  lemma UnitRate(amount: real, k: int)
    requires amount == k as real
    ensures Convert(amount, 1.0, 0) == amount
  {
    assert Pow10(0) == 1 && Quantum(0) == 1.0 && Scale(0) == 1.0;
    assert Extended(amount, 1.0) == Amount(k, 0);
    RoundGrid(k, 0);
  }

  lemma OverTolerance(n: nat, k: nat)
    requires n >= 1 && k >= 2
    ensures ExampleDue(n, k) - (n as real + k as real) > 2.0 * n as real && ExampleDue(n, k) > 0.0
  {
    var nk := n as real * k as real;
    assert (1.0 + n as real) * k as real == k as real + nk;
    assert nk >= 2.0 * n as real by { MulLe(2.0, k as real, n as real); }
  }

  /** For any number of product lines, the line checks and the exact balance make the total check redundant if and
      only if there is at most one tax line. */
  lemma TotalCheckExact(n: nat, k: nat)
    requires n >= 1
    ensures TotalImplied(n, k) <==> k <= 1
  {
    hide LineChecksPass, TotalOk, ExpectedTotal;
    if k <= 1 {
      forall products: seq<JournalLine>, taxes: seq<JournalLine>, payables: seq<JournalLine>, subtotals: seq<real>,
             taxTotal: real, rate: real, p: Precision
        | |products| == n && |taxes| == k && LineChecksPass(products, taxes, payables, subtotals, taxTotal, rate, p)
        ensures TotalOk(payables, Some(ExpectedTotal(subtotals, taxTotal, rate, p)), n, p)
      {
        AtMostOneTaxSuffices(products, taxes, payables, subtotals, taxTotal, rate, p);
      }
    } else {
      SeveralTaxesCanFail(n, k);
    }
  }

}
