/** What VERIFIED asserts, written out over the journal lines: no tolerances, no filters
    (`verify_vendor_bill_company_amounts` in `app/billing/fx_rate.py`). */
module VerifiedAmounts {
  import opened Core
  import opened Money
  import opened FxRate
  import opened FxVerification

  /** How many of the lines are product lines. */
  function Products(lines: seq<JournalLine>): nat {
    if lines == [] then 0
    else Products(lines[..|lines| - 1]) + (if lines[|lines| - 1].kind == Product then 1 else 0)
  }

  /** The sum of the balances of one kind. */
  function BalanceOf(lines: seq<JournalLine>, kind: Kind): real {
    if lines == [] then 0.0
    else
      BalanceOf(lines[..|lines| - 1], kind)
      + (if lines[|lines| - 1].kind == kind then lines[|lines| - 1].balance else 0.0)
  }

  function Distance(a: real, b: real): real {
    if a < b then b - a else a - b
  }

  function Absolute(x: real): real {
    if x < 0.0 then -x else x
  }

  /** The line's exact conversion. */
  function Due(line: JournalLine, rate: real): real {
    Absolute(line.amountCurrency) * rate
  }

  /** The line's absolute balance is its absolute amount, converted and rounded, within the tolerance. */
  predicate Converts(line: JournalLine, rate: real, p: Precision, tolerance: real) {
    Distance(Absolute(line.balance), CurrencyRound(Due(line, rate), p)) <= tolerance
  }

  /** Every line of the kind converts. */
  predicate AllConvert(lines: seq<JournalLine>, kind: Kind, rate: real, p: Precision, tolerance: real) {
    forall i :: 0 <= i < |lines| && lines[i].kind == kind ==> Converts(lines[i], rate, p, tolerance)
  }

  predicate Has(lines: seq<JournalLine>, kind: Kind) {
    exists i :: 0 <= i < |lines| && lines[i].kind == kind
  }

  /** Nothing but product, tax, payable and zero lines. */
  predicate Recognized(lines: seq<JournalLine>) {
    forall i :: 0 <= i < |lines| ==> lines[i].kind in {Product, TaxLine, Payable, Zero}
  }

  /** The tax lines get one quantum per product line, and at least one. */
  function TaxQuanta(products: nat): nat {
    if products == 0 then 1 else products
  }

  // ----- the lists by kind

  lemma {:induction false} KindMembers(lines: seq<JournalLine>, kind: Kind)
    ensures forall x :: x in OfKind(lines, kind) <==> x in lines && x.kind == kind
  {
    if lines != [] {
      var n := |lines| - 1;
      KindMembers(lines[..n], kind);
      assert lines == lines[..n] + [lines[n]];
    }
  }

  lemma {:induction false} KindCount(lines: seq<JournalLine>)
    ensures |OfKind(lines, Product)| == Products(lines)
  {
    if lines != [] {
      KindCount(lines[..|lines| - 1]);
    }
  }

  lemma {:induction false} KindSum(lines: seq<JournalLine>, kind: Kind)
    ensures Sum(Map(Balance, OfKind(lines, kind))) == BalanceOf(lines, kind)
  {
    if lines == [] {
      assert Map(Balance, OfKind(lines, kind)) == [];
    } else {
      var n := |lines| - 1;
      var before := OfKind(lines[..n], kind);
      KindSum(lines[..n], kind);
      if lines[n].kind == kind {
        assert OfKind(lines, kind) == before + [lines[n]];
        hide OfKind, BalanceOf;
        assert Map(Balance, before + [lines[n]]) == Map(Balance, before) + [lines[n].balance];
        SumAppend(Map(Balance, before), lines[n].balance);
      } else {
        assert OfKind(lines, kind) == before;
      }
    }
  }

  lemma OkMeaning(line: JournalLine, rate: real, p: Precision, tolerance: real)
    ensures LineOk(line, rate, p, tolerance) <==> Converts(line, rate, p, tolerance)
  {
    ConvertIs(line, rate, p);
    hide CurrencyRound, Convert, Due;
  }

  lemma ConvertIs(line: JournalLine, rate: real, p: Precision)
    ensures Convert(AbsAmount(line), rate, p) == CurrencyRound(Due(line, rate), p)
  {
    hide CurrencyRound;
    assert AbsAmount(line) == Absolute(line.amountCurrency);
    assert Extended(AbsAmount(line), rate) == Due(line, rate);
  }

  lemma KindOk(lines: seq<JournalLine>, kind: Kind, rate: real, p: Precision, tolerance: real)
    ensures LinesOk(OfKind(lines, kind), rate, p, tolerance) <==> AllConvert(lines, kind, rate, p, tolerance)
  {
    KindMembers(lines, kind);
    forall line
      ensures LineOk(line, rate, p, tolerance) <==> Converts(line, rate, p, tolerance)
    {
      OkMeaning(line, rate, p, tolerance);
    }
    hide LineOk, Converts, OfKind;
    var chosen := OfKind(lines, kind);
    if LinesOk(chosen, rate, p, tolerance) {
      forall i | 0 <= i < |lines| && lines[i].kind == kind
        ensures Converts(lines[i], rate, p, tolerance)
      {
        assert lines[i] in chosen;
        var j :| 0 <= j < |chosen| && chosen[j] == lines[i];
      }
    } else {
      var j :| 0 <= j < |chosen| && !LineOk(chosen[j], rate, p, tolerance);
      assert chosen[j] in chosen;
      var i :| 0 <= i < |lines| && lines[i] == chosen[j];
    }
  }

  predicate TotalWithin(lines: seq<JournalLine>, expected: Option<real>, tolerance: real) {
    expected.Some? ==> Distance(Absolute(BalanceOf(lines, Payable)), expected.value) <= tolerance
  }

  /** VERIFIED, written out: the header agrees, every line is a product, tax, payable or zero line, there is a product
      and a payable, each product line converts within one quantum and each tax line within one quantum per product,
      the three balances cancel, and the payable is within that many quanta more of the expected total. */
  ghost predicate VerifiedMeans(plan: Plan, actual: BillAmounts) {
    && plan.status == SourceRateSelected && plan.selectedRate.Some? && plan.places.Some?
    && var rate, p, n := plan.selectedRate.value, plan.places.value, Products(actual.lines);
    && Currency(actual.currency) == plan.documentCurrency && actual.draft
    && CompanyRateFromOdoo(actual.rate) == Some(NormalizedRate(rate))
    && Recognized(actual.lines) && Has(actual.lines, Product) && Has(actual.lines, Payable)
    && AllConvert(actual.lines, Product, rate, p, Quantum(p))
    && AllConvert(actual.lines, TaxLine, rate, p, Times(Quantum(p), TaxQuanta(n)))
    && BalanceOf(actual.lines, Product) + BalanceOf(actual.lines, TaxLine) + BalanceOf(actual.lines, Payable) == 0.0
    && TotalWithin(actual.lines, plan.expectedTotal, Times(Quantum(p), n + TaxQuanta(n)))
  }

  lemma Tolerances(n: nat, p: Precision)
    ensures TaxTolerance(n, p) == Times(Quantum(p), TaxQuanta(n))
    ensures Quantum(p) * n as real + TaxTolerance(n, p) == Times(Quantum(p), n + TaxQuanta(n))
  {
    hide Quantum;
    var q, a, b := Quantum(p), n as real, TaxQuanta(n) as real;
    assert (n + TaxQuanta(n)) as real == a + b;
    assert q * (a + b) == q * a + q * b;
  }

  lemma KindFound(lines: seq<JournalLine>, kind: Kind)
    ensures OfKind(lines, kind) != [] <==> Has(lines, kind)
  {
    KindMembers(lines, kind);
    var chosen := OfKind(lines, kind);
    if chosen != [] {
      assert chosen[0] in chosen;
      var i :| 0 <= i < |lines| && lines[i] == chosen[0];
    }
    if i :| 0 <= i < |lines| && lines[i].kind == kind {
      assert lines[i] in chosen;
    }
  }

  lemma BalancedMeaning(lines: seq<JournalLine>)
    ensures Balanced(OfKind(lines, Product), OfKind(lines, TaxLine), OfKind(lines, Payable)) <==>
      BalanceOf(lines, Product) + BalanceOf(lines, TaxLine) + BalanceOf(lines, Payable) == 0.0
  {
    KindSum(lines, Product);
    KindSum(lines, TaxLine);
    KindSum(lines, Payable);
    SumMapConcat(Balance, OfKind(lines, Product), OfKind(lines, TaxLine));
  }

  lemma TotalMeaning(lines: seq<JournalLine>, expected: Option<real>, p: Precision)
    ensures TotalOk(OfKind(lines, Payable), expected, |OfKind(lines, Product)|, p) <==>
      TotalWithin(lines, expected, Times(Quantum(p), Products(lines) + TaxQuanta(Products(lines))))
  {
    KindSum(lines, Payable);
    KindCount(lines);
    Tolerances(Products(lines), p);
    hide Quantum, TaxTolerance, Times, OfKind, BalanceOf, Products, TaxQuanta, Map, Sum;
  }

  /** A verification answers VERIFIED exactly when all of that holds. */
  lemma VerifiedExactly(plan: Plan, actual: BillAmounts)
    ensures Proven(plan, actual) <==> VerifiedMeans(plan, actual)
  {
    if plan.selectedRate.Some? && plan.places.Some? {
      var rate, p, n := plan.selectedRate.value, plan.places.value, Products(actual.lines);
      KindCount(actual.lines);
      KindOk(actual.lines, Product, rate, p, Quantum(p));
      KindOk(actual.lines, TaxLine, rate, p, Times(Quantum(p), TaxQuanta(n)));
      Tolerances(n, p);
      KindFound(actual.lines, Product);
      KindFound(actual.lines, Payable);
      BalancedMeaning(actual.lines);
      TotalMeaning(actual.lines, plan.expectedTotal, p);
      KnownMeaning(actual.lines);
      hide LinesOk, AllConvert, Has, Recognized, Balanced, TotalOk, OnlyKnownKinds, Quantum, TaxTolerance, OfKind,
        Distance, Absolute, NormalizedRate, CompanyRateFromOdoo, Currency, TaxQuanta, BalanceOf, Times, TotalWithin,
        Products;
    }
  }

  lemma KnownMeaning(lines: seq<JournalLine>)
    ensures OnlyKnownKinds(lines) <==> Recognized(lines)
  {
  }

  // ----- what follows in amounts

  lemma NearExact(line: JournalLine, rate: real, p: Precision, tolerance: real)
    requires Converts(line, rate, p, tolerance)
    ensures Distance(Absolute(line.balance), Due(line, rate)) <= tolerance + Quantum(p) / 2.0
  {
    RoundClose(Due(line, rate), p);
    hide CurrencyRound, Quantum, Absolute, Due, Distance;
    var x, r := Due(line, rate), CurrencyRound(Due(line, rate), p);
    Near(Absolute(line.balance), r, x, tolerance, Quantum(p));
  }

  lemma Near(b: real, r: real, x: real, tolerance: real, q: real)
    requires Distance(b, r) <= tolerance && -q <= 2.0 * (r - x) <= q
    ensures Distance(b, x) <= tolerance + q / 2.0
  {
  }

  /** VERIFIED bounds every tax line by its exact conversion; one further off its rounded conversion than one quantum
      per product line is never VERIFIED. */
  lemma VerifiedBounds(plan: Plan, actual: BillAmounts, i: nat)
    requires plan.selectedRate.Some? && plan.places.Some?
    requires i < |actual.lines| && actual.lines[i].kind == TaxLine
    ensures var line, rate, p := actual.lines[i], plan.selectedRate.value, plan.places.value;
      var tolerance := Times(Quantum(p), TaxQuanta(Products(actual.lines)));
      && (Proven(plan, actual) ==>
            Distance(Absolute(line.balance), Due(line, rate)) <= tolerance + Quantum(p) / 2.0)
      && (Distance(Absolute(line.balance), CurrencyRound(Due(line, rate), p)) > tolerance ==>
            !Proven(plan, actual))
  {
    VerifiedExactly(plan, actual);
    hide Proven, CurrencyRound, Quantum, Distance, Absolute, Times, Due, BalanceOf, NormalizedRate, CompanyRateFromOdoo,
      Currency, TaxQuanta, Products;
    if Proven(plan, actual) {
      NearExact(actual.lines[i], plan.selectedRate.value, plan.places.value,
                Times(Quantum(plan.places.value), TaxQuanta(Products(actual.lines))));
    }
  }
}
