/** The invoice's own exchange rate: selection, company-currency conversion and the reciprocal Odoo stores
    (`app/billing/fx_rate.py`). Rates are exact reals; "company units per document unit". */
module FxRate {
  import opened Core
  import opened Money

  const PRICING := "PricingExchangeRate"
  const RATE_PLACES := 6

  datatype RateFact = RateFact(element: string, from: Option<string>, to: Option<string>, rate: Option<real>)

  datatype FxFacts = FxFacts(documentCurrency: Option<string>, rates: seq<RateFact>)

  datatype OdooContext = OdooContext(companyCurrency: string, decimalPlaces: int, automaticRate: Option<real>)

  datatype RateStatus =
    NotApplicable | SourceRateSelected | UnverifiedSourceDocument | SourceRateMissing | SourceRateInvalid
    | SourceRateDirectionInvalid | SourceRateContradictory | EvidenceUnavailable

  datatype Plan = Plan(
    status: RateStatus,
    documentCurrency: string,
    companyCurrency: Option<string>,
    places: Option<Precision>,
    automaticRate: Option<real>,
    sourceRate: Option<real>,
    selectedRate: Option<real>,
    rateDifference: Option<real>,
    expectedUntaxed: Option<real>,
    expectedTax: Option<real>,
    expectedTotal: Option<real>)

  // ----- conversions

  /** `ROUND_HALF_EVEN` to an integer (roundTiesToEven in section 4.3.1 of IEEE 754-2008). */
  function HalfEven(x: real): int {
    var f := x.Floor;
    var d := x - f as real;
    if d < 0.5 || (d == 0.5 && f % 2 == 0) then f else f + 1
  }

  /** What roundTiesToEven means, without saying how to compute it. */
  predicate NearestTiesEven(x: real, k: int) {
    var d := AbsR(x - k as real);
    d < 0.5 || (d == 0.5 && k % 2 == 0)
  }

  lemma HalfEvenMeaning(x: real, k: int)
    ensures HalfEven(x) == k <==> NearestTiesEven(x, k)
  {
    var f := x.Floor;
    if NearestTiesEven(x, k) {
      assert -1.0 < (k - f) as real < 2.0;
    }
  }

  lemma HalfEvenOf(x: real, k: int)
    requires -0.5 < x - k as real < 0.5
    ensures HalfEven(x) == k
  {
  }

  lemma HalfEvenAway(x: real, k: int)
    requires x - k as real > 0.5
    ensures HalfEven(x) > k
  {
  }

  function NormalizedRate(rate: real): real {
    Amount(HalfEven(rate * Scale(RATE_PLACES)), RATE_PLACES)
  }

  /** An Odoo-direction rate inverted and normalized; nothing for an unusable one. */
  function CompanyRateFromOdoo(rate: Option<real>): Option<real> {
    if rate.None? || rate.value <= 0.0 then None else Some(NormalizedRate(1.0 / rate.value))
  }

  function Convert(amount: real, rate: real, p: Precision): real {
    CurrencyRound(Extended(amount, rate), p)
  }

  function UpperChar(c: char): char {
    if 'a' <= c <= 'z' then c - 'a' + 'A' else c
  }

  function Currency(code: string): string {
    Map(UpperChar, Strip(code))
  }

  /** Odoo answers 1.0 when it holds no rate at all; that is treated as no rate. */
  function AutomaticRate(odoo: Option<OdooContext>): Option<real> {
    if odoo.None? then None
    else
      var automatic := CompanyRateFromOdoo(odoo.value.automaticRate);
      if automatic == Some(NormalizedRate(1.0)) then None else automatic
  }

  // ----- selection

  function Base(document: string, odoo: Option<OdooContext>): Plan {
    Plan(EvidenceUnavailable, document,
         if odoo.Some? then Some(Currency(odoo.value.companyCurrency)) else None,
         if odoo.Some? then MakePrecision(odoo.value.decimalPlaces) else None,
         AutomaticRate(odoo), None, None, None, None, None, None)
  }

  predicate ForPair(fact: RateFact, document: string, company: string) {
    fact.from == Some(document) && fact.to == Some(company)
  }

  predicate IsPricing(fact: RateFact) {
    fact.element == PRICING
  }

  /** Another stated rate of the same currency pair that is not the pricing rate. */
  predicate Contradicts(fact: RateFact, document: string, company: string, rate: real) {
    !IsPricing(fact) && ForPair(fact, document, company) && fact.rate != Some(rate)
  }

  datatype Stated = Stated(rate: real) | Blocked(status: RateStatus)

  /** Rules 1 to 6 of the selection: the document's one usable pricing rate, or why there is none. */
  method StatedPricingRate(doc: string, facts: Option<FxFacts>, odoo: Option<OdooContext>) returns (r: Stated)
    ensures r.Stated? ==> Stating(doc, facts, odoo, r.rate)
    ensures r.Blocked? ==> forall rate: real :: !Stating(doc, facts, odoo, rate)
    ensures r == Blocked(NotApplicable) <==> odoo.Some? && Currency(odoo.value.companyCurrency) == doc
    ensures r == Blocked(EvidenceUnavailable) <==> !Foreign(doc, odoo) && r != Blocked(NotApplicable)
    ensures r == Blocked(UnverifiedSourceDocument) <==> Foreign(doc, odoo) && facts.None?
    ensures r == Blocked(SourceRateMissing) <==> Unpriced(doc, facts, odoo)
    ensures r == Blocked(SourceRateDirectionInvalid) <==> Misdirected(doc, facts, odoo)
    ensures r == Blocked(SourceRateInvalid) <==> Unusable(doc, facts, odoo)
    ensures r.Blocked? ==> r.status != SourceRateSelected
    ensures r == Blocked(SourceRateContradictory) <==>
      Foreign(doc, odoo) && facts.Some?
      && (facts.value.documentCurrency != Some(doc) || SeveralPricing(facts.value.rates))
  {
    hide Currency;
    if odoo.Some? && doc == Currency(odoo.value.companyCurrency) {
      return Blocked(NotApplicable);
    }
    if odoo.None? || MakePrecision(odoo.value.decimalPlaces).None? {
      return Blocked(EvidenceUnavailable);
    }
    if facts.None? {
      return Blocked(UnverifiedSourceDocument);
    }
    if facts.value.documentCurrency != Some(doc) {
      return Blocked(SourceRateContradictory);
    }
    var rates := facts.value.rates;
    var pricing := Filter(IsPricing, rates);
    PricingCount(rates);
    if pricing == [] {
      return Blocked(SourceRateMissing);
    }
    var stated := pricing[0];
    assert stated in rates && IsPricing(stated);
    if |pricing| > 1 {
      return Blocked(SourceRateContradictory);
    }
    ghost var at: nat :| PricingAt(rates, at);
    assert stated == rates[at];
    if !ForPair(stated, doc, Currency(odoo.value.companyCurrency)) {
      return Blocked(SourceRateDirectionInvalid);
    }
    if !PositiveRate(stated) {
      return Blocked(SourceRateInvalid);
    }
    assert UsablePricing(doc, facts.value, odoo.value, at, stated.rate.value);
    return Stated(stated.rate.value);
  }

  /** The whole rate-selection rule. `other is stated` is decided by the element name: at that point exactly one
      fact is a pricing rate. Odoo's automatic rate only feeds the displayed difference. */
  method SelectRate(document: string, evidenceRate: Option<real>, facts: Option<FxFacts>, odoo: Option<OdooContext>,
                    subtotals: seq<real>, taxTotal: Option<real>) returns (plan: Plan)
    ensures plan.documentCurrency == Currency(document)
    ensures plan.status == SourceRateSelected <==>
      exists rate: real :: Agreed(Currency(document), evidenceRate, facts, odoo, rate)
    ensures plan.status == SourceRateSelected ==>
      && plan.selectedRate.Some? && plan.sourceRate == plan.selectedRate && plan.places.Some?
      && Agreed(Currency(document), evidenceRate, facts, odoo, plan.selectedRate.value)
      && plan.places == MakePrecision(odoo.value.decimalPlaces)
      && Expected(plan, subtotals, taxTotal)
    ensures plan.status == SourceRateSelected ==>
      plan.rateDifference == if plan.automaticRate.Some?
                             then Some(NormalizedRate(plan.selectedRate.value) - plan.automaticRate.value) else None
    ensures plan.automaticRate == AutomaticRate(odoo)
    ensures plan.status == NotApplicable <==> odoo.Some? && Currency(odoo.value.companyCurrency) == Currency(document)
    ensures plan.status == EvidenceUnavailable <==> !Foreign(Currency(document), odoo) && plan.status != NotApplicable
    ensures plan.status == UnverifiedSourceDocument <==> Foreign(Currency(document), odoo) && facts.None?
    ensures plan.status == SourceRateMissing <==> Unpriced(Currency(document), facts, odoo)
    ensures plan.status == SourceRateDirectionInvalid <==> Misdirected(Currency(document), facts, odoo)
    ensures plan.status == SourceRateInvalid <==> Unusable(Currency(document), facts, odoo)
    ensures plan.status != SourceRateSelected ==>
      && plan.selectedRate.None? && plan.rateDifference.None?
      && plan.expectedUntaxed.None? && plan.expectedTax.None? && plan.expectedTotal.None?
    ensures plan.sourceRate.Some? ==> Stating(Currency(document), facts, odoo, plan.sourceRate.value)
    ensures plan.sourceRate.None? ==> forall rate: real :: !Stating(Currency(document), facts, odoo, rate)
    ensures plan.companyCurrency == if odoo.Some? then Some(Currency(odoo.value.companyCurrency)) else None
  {
    hide CurrencyRound, Extended, NormalizedRate, Currency, CompanyRateFromOdoo, AutomaticRate;
    var doc := Currency(document);
    var base := Base(doc, odoo);
    var stated := StatedPricingRate(doc, facts, odoo);
    if stated.Blocked? {
      return base.(status := stated.status);
    }
    var rates, company, rate := facts.value.rates, Currency(odoo.value.companyCurrency), stated.rate;
    ghost var at: nat :| UsablePricing(doc, facts.value, odoo.value, at, rate);
    AgreedRate(doc, evidenceRate, facts, odoo, at, rate);
    base := base.(sourceRate := Some(rate));
    if evidenceRate != Some(rate) {
      return base.(status := SourceRateContradictory);
    }
    for i := 0 to |rates|
      invariant forall j :: 0 <= j < i ==> !Contradicts(rates[j], doc, company, rate)
    {
      if Contradicts(rates[i], doc, company, rate) {
        return base.(status := SourceRateContradictory);
      }
    }
    assert Agreed(doc, evidenceRate, facts, odoo, rate);
    var p := base.places.value;
    var untaxed := ConvertedSum(subtotals, rate, p);
    var tax := if taxTotal.Some? then Some(Convert(taxTotal.value, rate, p)) else None;
    plan := base.(
      status := SourceRateSelected,
      selectedRate := Some(rate),
      rateDifference := if base.automaticRate.Some? then Some(NormalizedRate(rate) - base.automaticRate.value)
                        else None,
      expectedUntaxed := Some(untaxed),
      expectedTax := tax,
      expectedTotal := if tax.Some? then Some(untaxed + tax.value) else None);
  }

  /** The bill is in a currency foreign to a company whose precision is known. */
  predicate Foreign(doc: string, odoo: Option<OdooContext>) {
    odoo.Some? && MakePrecision(odoo.value.decimalPlaces).Some? && Currency(odoo.value.companyCurrency) != doc
  }

  /** A foreign bill whose original document was verified and states the bill's currency. */
  predicate Verified(doc: string, facts: Option<FxFacts>, odoo: Option<OdooContext>) {
    Foreign(doc, odoo) && facts.Some? && facts.value.documentCurrency == Some(doc)
  }

  /** The one pricing rate of the document sits at position `at`. */
  predicate PricingAt(rates: seq<RateFact>, at: nat) {
    at < |rates| && IsPricing(rates[at]) && forall j :: 0 <= j < |rates| && j != at ==> !IsPricing(rates[j])
  }

  ghost predicate SeveralPricing(rates: seq<RateFact>) {
    (exists j :: 0 <= j < |rates| && IsPricing(rates[j])) && forall at: nat :: !PricingAt(rates, at)
  }

  predicate PositiveRate(fact: RateFact) {
    fact.rate.Some? && fact.rate.value > 0.0
  }

  predicate Directed(doc: string, facts: FxFacts, odoo: OdooContext, at: nat)
    requires at < |facts.rates|
  {
    ForPair(facts.rates[at], doc, Currency(odoo.companyCurrency))
  }

  /** No pricing rate is stated. */
  predicate Unpriced(doc: string, facts: Option<FxFacts>, odoo: Option<OdooContext>) {
    Verified(doc, facts, odoo) && forall j :: 0 <= j < |facts.value.rates| ==> !IsPricing(facts.value.rates[j])
  }

  /** The one pricing rate converts another pair or the other way. */
  ghost predicate Misdirected(doc: string, facts: Option<FxFacts>, odoo: Option<OdooContext>) {
    && Verified(doc, facts, odoo)
    && exists at: nat :: PricingAt(facts.value.rates, at) && !Directed(doc, facts.value, odoo.value, at)
  }

  /** The one pricing rate has the right direction but is not a positive number. */
  ghost predicate Unusable(doc: string, facts: Option<FxFacts>, odoo: Option<OdooContext>) {
    && Verified(doc, facts, odoo)
    && exists at: nat ::
         PricingAt(facts.value.rates, at) && Directed(doc, facts.value, odoo.value, at)
         && !PositiveRate(facts.value.rates[at])
  }

  predicate UsablePricing(doc: string, facts: FxFacts, odoo: OdooContext, at: nat, rate: real) {
    PricingAt(facts.rates, at) && Directed(doc, facts, odoo, at) && facts.rates[at].rate == Some(rate) && rate > 0.0
  }

  /** The document's one usable pricing rate, whether or not the evidence agrees with it. */
  ghost predicate Stating(doc: string, facts: Option<FxFacts>, odoo: Option<OdooContext>, rate: real) {
    Verified(doc, facts, odoo) && exists at: nat :: UsablePricing(doc, facts.value, odoo.value, at, rate)
  }

  /** What a selected rate means, with no rule order in sight: a verified document in the evidence currency, foreign
      to the company, states exactly one pricing rate; it is positive, stated in the right direction, the one the
      decision accepted, and no other rate of the pair differs from it. */
  ghost predicate Agreed(doc: string, evidenceRate: Option<real>, facts: Option<FxFacts>, odoo: Option<OdooContext>,
                         rate: real) {
    && Verified(doc, facts, odoo)
    && var company, rates := Currency(odoo.value.companyCurrency), facts.value.rates;
    && rate > 0.0 && evidenceRate == Some(rate)
    && (exists at: nat :: PricingAt(rates, at) && ForPair(rates[at], doc, company))
    && (forall j :: 0 <= j < |rates| && (ForPair(rates[j], doc, company) || IsPricing(rates[j])) ==>
          rates[j].rate == Some(rate))
  }

  /** The company amounts a selected plan expects. */
  ghost predicate Expected(plan: Plan, subtotals: seq<real>, taxTotal: Option<real>)
    requires plan.selectedRate.Some? && plan.places.Some?
  {
    var rate, p := plan.selectedRate.value, plan.places.value;
    && plan.expectedUntaxed == Some(ConvertedSum(subtotals, rate, p))
    && plan.expectedTax == (if taxTotal.Some? then Some(Convert(taxTotal.value, rate, p)) else None)
    && plan.expectedTotal == (if taxTotal.Some?
                              then Some(ConvertedSum(subtotals, rate, p) + Convert(taxTotal.value, rate, p))
                              else None)
  }

  function ConvertedSum(amounts: seq<real>, rate: real, p: Precision): real {
    Sum(Map((s: real) => Convert(s, rate, p), amounts))
  }

  lemma {:induction false} FilterCount<A(!new)>(f: A -> bool, xs: seq<A>, i: nat, j: nat)
    requires i < j < |xs| && f(xs[i]) && f(xs[j])
    ensures |Filter(f, xs)| >= 2
  {
    if i == 0 {
      assert xs[1..][j - 1] == xs[j];
      assert xs[j] in Filter(f, xs[1..]);
    } else {
      FilterCount(f, xs[1..], i - 1, j - 1);
    }
  }

  lemma {:induction false} FilterSome<A(!new)>(f: A -> bool, xs: seq<A>) returns (at: nat)
    requires Filter(f, xs) != []
    ensures at < |xs| && f(xs[at])
    ensures |Filter(f, xs)| == 1 ==> forall j :: 0 <= j < |xs| && j != at ==> !f(xs[j])
  {
    assert Filter(f, xs)[0] in xs;
    at :| 0 <= at < |xs| && f(xs[at]);
    forall j | 0 <= j < |xs| && j != at && f(xs[j])
      ensures |Filter(f, xs)| >= 2
    {
      if j < at {
        FilterCount(f, xs, j, at);
      } else {
        FilterCount(f, xs, at, j);
      }
    }
  }

  /** Exactly one fact survives the pricing filter just when one position holds the only pricing rate. */
  lemma PricingCount(rates: seq<RateFact>)
    ensures |Filter(IsPricing, rates)| == 1 <==> exists at: nat :: PricingAt(rates, at)
  {
    if |Filter(IsPricing, rates)| == 1 {
      var at := FilterSome(IsPricing, rates);
      assert PricingAt(rates, at);
    }
    if at: nat :| PricingAt(rates, at) {
      assert rates[at] in Filter(IsPricing, rates);
      OnlyOne(IsPricing, rates, at);
    }
  }

  lemma {:induction false} OnlyOne<A(!new)>(f: A -> bool, xs: seq<A>, at: nat)
    requires at < |xs| && forall j :: 0 <= j < |xs| && j != at ==> !f(xs[j])
    ensures |Filter(f, xs)| <= 1
  {
    if at == 0 {
      assert forall j :: 0 <= j < |xs[1..]| ==> xs[1..][j] == xs[j + 1];
      if Filter(f, xs[1..]) != [] {
        var k := FilterSome(f, xs[1..]);
        assert false;
      }
    } else {
      assert forall j :: 0 <= j < |xs[1..]| ==> xs[1..][j] == xs[j + 1];
      OnlyOne(f, xs[1..], at - 1);
    }
  }

  /** Whatever rate is agreed on is the one the pricing fact states. */
  lemma AgreedRate(doc: string, evidenceRate: Option<real>, facts: Option<FxFacts>, odoo: Option<OdooContext>, at: nat,
                   rate: real)
    requires facts.Some? && odoo.Some? && UsablePricing(doc, facts.value, odoo.value, at, rate)
    ensures forall other: real :: Agreed(doc, evidenceRate, facts, odoo, other) ==> other == rate
  {
    assert IsPricing(facts.value.rates[at]);
  }
}
