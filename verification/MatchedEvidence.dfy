/** Where the matcher and the Vendor Bill builder meet: product evidence that comes from the matcher never makes the
    builder fail after a clean validation (`app/matching/product.py`, `app/billing/builder.py`). */
module MatchedEvidence {
  import opened Core
  import opened MatchTypes
  import opened Invoice
  import PM = ProductMatching
  import opened BillValidation
  import opened BillBuilder

  /** `InvoiceProductMatchResult`: one result per line with the line's own number, or only an error. */
  function Evidence(lines: seq<PM.ProductLine>, m: PM.InvoiceMatch): ProductMatch
    requires m.Lines? ==> |m.results| == |lines|
  {
    match m
    case NoLines => ProductMatch([], ["Invoice has no lines to match."])
    case Lines(results) =>
      ProductMatch(seq(|lines|, i requires 0 <= i < |lines| =>
                     ProductResult(lines[i].lineNumber, results[i].status, results[i].productId)), [])
  }

  // ----- the matcher names only records it was given

  predicate PositiveRecords(answer: Option<seq<PM.Product>>) {
    answer.Some? ==> forall i :: 0 <= i < |answer.value| ==> answer.value[i].id > 0
  }

  /** Odoo record ids are positive. */
  ghost predicate PositiveRepository(repository: PM.Repository) {
    && (forall code :: PositiveRecords(repository.byDefaultCode(code)))
    && (forall code :: PositiveRecords(repository.byBarcode(code)))
    && (repository.supplierProducts.Some? ==>
          forall row, company :: PositiveRecords(repository.supplierProducts.value.variants(row, company)))
  }

  ghost predicate PositiveProbe(probe: PM.Probe) {
    forall code :: PositiveRecords(probe.lookup(code))
  }

  predicate PositiveOutcome(o: PM.Outcome) {
    o.productId.Some? ==> o.productId.value > 0
  }

  lemma LookedUp(via: PM.MatchedBy, answer: Option<seq<PM.Product>>)
    requires PositiveRecords(answer)
    ensures PM.LookupOutcome(via, answer).Done? ==> PositiveOutcome(PM.LookupOutcome(via, answer).value)
  {
    if answer.Some? {
      var active := Filter(PM.IsActive, answer.value);
      if |active| == 1 {
        assert active[0] in answer.value;
      }
    }
  }

  lemma {:induction false} ChainPositive(plan: seq<PM.Probe>)
    requires forall i :: 0 <= i < |plan| ==> PositiveProbe(plan[i])
    ensures PM.ChainOutcome(plan).Done? ==> PositiveOutcome(PM.ChainOutcome(plan).value)
  {
    if plan != [] {
      ChainPositive(plan[1..]);
      if plan[0].identifier.Some? {
        assert PositiveProbe(plan[0]);
        LookedUp(plan[0].via, plan[0].lookup(plan[0].identifier.value));
      }
    }
  }

  lemma {:induction false} LookupsPositive(plan: seq<PM.Probe>)
    requires forall i :: 0 <= i < |plan| ==> PositiveProbe(plan[i])
    ensures PM.LookupAll(plan).Done? ==> forall o :: o in PM.LookupAll(plan).value ==> PositiveOutcome(o)
  {
    if plan != [] {
      var n := |plan| - 1;
      LookupsPositive(plan[..n]);
      if plan[n].identifier.Some? {
        assert PositiveProbe(plan[n]);
        LookedUp(plan[n].via, plan[n].lookup(plan[n].identifier.value));
      }
    }
  }

  lemma OutcomesPositive(line: PM.ProductLine, supplier: Option<int>, company: Option<int>, repository: PM.Repository)
    requires PositiveRepository(repository) && PM.Outcomes(line, supplier, company, repository).Done?
    ensures forall o :: o in PM.Outcomes(line, supplier, company, repository).value ==> PositiveOutcome(o)
  {
    var seller := Clean(line.sellerCode);
    ChainPositive(PM.LegacyPlan(line, repository));
    LookupsPositive(PM.SkuPlan(line, repository));
    var own := PM.SupplierOutcome(seller, supplier, company, repository);
    if own.value.Some? {
      var rows := repository.supplierProducts.value.codes(supplier.value, seller.value, company.value).value;
      if |rows| == 1 {
        LookedUp(PM.SupplierProductCode, repository.supplierProducts.value.variants(rows[0], company.value));
      }
    }
  }

  /** A matched line names a positive product. */
  lemma MatchedIsPositive(line: PM.ProductLine, supplier: Option<int>, company: Option<int>, repository: PM.Repository)
    requires PositiveRepository(repository) && PM.MatchLine(line, supplier, company, repository).Done?
    ensures var m := PM.MatchLine(line, supplier, company, repository).value;
      && (m.status == Matched <==> m.productId.Some?)
      && (m.productId.Some? ==> m.productId.value > 0)
  {
    var m := PM.MatchLine(line, supplier, company, repository).value;
    if m.productId.Some? || m.status == Matched {
      var outcomes := PM.Outcomes(line, supplier, company, repository).value;
      var advisory := PM.AdvisoryOutcome(Clean(line.sellerCode),
                                         PM.ChainOutcome(PM.LegacyPlan(line, repository)).value, repository).value;
      PM.CombinedMeaning(outcomes, advisory);
      OutcomesPositive(line, supplier, company, repository);
      hide PM.Combined, PM.Outcomes, PM.AdvisoryOutcome, PM.ChainOutcome;
      assert PM.Names(outcomes, m.productId.value);
    }
  }

  // ----- and so the bill is built

  /** The request's product evidence is what the matcher answered for some lines over positive records. */
  ghost predicate FromMatcher(r: Request, lines: seq<PM.ProductLine>, supplier: Option<int>, company: Option<int>,
                              repository: PM.Repository, m: PM.InvoiceMatch) {
    && PositiveRepository(repository)
    && (m.Lines? ==>
          && |m.results| == |lines|
          && forall i :: 0 <= i < |lines| ==>
               PM.MatchLine(lines[i], supplier, company, repository) == PM.Done(m.results[i]))
    && r.products == Evidence(lines, m)
  }

  lemma MatcherNamesNoBadProduct(r: Request, lines: seq<PM.ProductLine>, supplier: Option<int>, company: Option<int>,
                                 repository: PM.Repository, m: PM.InvoiceMatch, number: Option<string>, id: int)
    requires FromMatcher(r, lines, supplier, company, repository, m) && EvidencedProduct(r, number, id)
    ensures id > 0
  {
    var k :| 0 <= k < |r.products.results| && r.products.results[k] == ProductResult(number, Matched, Some(id));
    MatchedIsPositive(lines[k], supplier, company, repository);
  }

  lemma NotBad(r: Request, lines: seq<PM.ProductLine>, supplier: Option<int>, company: Option<int>,
               repository: PM.Repository, m: PM.InvoiceMatch, line: Line)
    requires FromMatcher(r, lines, supplier, company, repository, m)
    ensures !BadProduct(r, line)
  {
    hide EvidencedProduct, FromMatcher, PlainProduct;
    forall id: int | EvidencedProduct(r, line.number, id)
      ensures id > 0
    {
      MatcherNamesNoBadProduct(r, lines, supplier, company, repository, m, line.number, id);
    }
  }

  /** A clean request whose product evidence comes from the matcher always builds, with one faithful line per source
      line: the rejection left open by validation needs a record id that Odoo never hands out. */
  lemma MatchedRequestBuilds(r: Request, lines: seq<PM.ProductLine>, supplier: Option<int>, company: Option<int>,
                             repository: PM.Repository, m: PM.InvoiceMatch)
    requires ValidationFindings(r) == [] && FromMatcher(r, lines, supplier, company, repository, m)
    ensures Build(r).Built? && OneToOne(r, Build(r).value.lines, |r.invoice.lines|)
  {
    hide *;
    forall i | 0 <= i < |r.invoice.lines|
      ensures !BadProduct(r, r.invoice.lines[i])
    {
      NotBad(r, lines, supplier, company, repository, m, r.invoice.lines[i]);
    }
    ValidationMakesBuildingTotal(r);
  }
}
