/** Deterministic product matching (`app/matching/product.py`): identities are looked up one by one and combined
    fail-closed. Repository answers are parameters; an absent answer is a lookup that raised. */
module ProductMatching {
  import opened Core
  import opened MatchTypes

  datatype Attempt<+T> = Raised | Done(value: T)

  datatype Product = Product(id: int, active: bool)

  datatype MatchedBy = BuyerCode | BarcodeIdentity | SellerCode | ManufacturerCode | ProfileSku | SupplierProductCode

  datatype Outcome = Outcome(via: Option<MatchedBy>, productId: Option<int>, count: nat)

  datatype ProductMatch = ProductMatch(
    status: Status,
    productId: Option<int>,
    matchedBy: Option<MatchedBy>,
    count: nat,
    corroboratedBy: seq<Option<MatchedBy>>)

  datatype ProductLine = ProductLine(
    lineNumber: Option<string>,
    buyerCode: Option<string>,
    barcode: Option<string>,
    sellerCode: Option<string>,
    manufacturerCode: Option<string>,
    profileSku: Option<string>)

  datatype SupplierCode = SupplierCode(templateId: int, productId: Option<int>)

  type Lookup = string -> Option<seq<Product>>

  /** The supplier-scoped repository; every answer holds at most `SUPPLIER_PRODUCT_LOOKUP_LIMIT` rows. */
  datatype SupplierProducts = SupplierProducts(
    codes: (int, string, int) -> Option<seq<SupplierCode>>,
    variants: (SupplierCode, int) -> Option<seq<Product>>)

  datatype Repository = Repository(byDefaultCode: Lookup, byBarcode: Lookup, supplierProducts: Option<SupplierProducts>)

  predicate IsActive(p: Product) {
    p.active
  }

  // ----- one identity

  function OutcomeOf(via: MatchedBy, candidates: seq<Product>): Outcome {
    var active := Filter(IsActive, candidates);
    Outcome(Some(via), if |active| == 1 then Some(active[0].id) else None, |active|)
  }

  /** `_lookup_outcome`. */
  function LookupOutcome(via: MatchedBy, answer: Option<seq<Product>>): Attempt<Outcome> {
    if answer.None? then Raised else Done(OutcomeOf(via, answer.value))
  }

  datatype Probe = Probe(via: MatchedBy, identifier: Option<string>, lookup: Lookup)

  /** The priority chain: the first unique or ambiguous hit decides. */
  function ChainOutcome(plan: seq<Probe>): Attempt<Outcome> {
    if plan == [] then Done(Outcome(None, None, 0))
    else if plan[0].identifier.None? then ChainOutcome(plan[1..])
    else
      var outcome := LookupOutcome(plan[0].via, plan[0].lookup(plan[0].identifier.value));
      if outcome.Done? && outcome.value.count == 0 then ChainOutcome(plan[1..]) else outcome
  }

  /** `_legacy_chain_outcome`. */
  method LegacyChain(plan: seq<Probe>) returns (r: Attempt<Outcome>)
    ensures r == ChainOutcome(plan)
  {
    for i := 0 to |plan|
      invariant ChainOutcome(plan) == ChainOutcome(plan[i..])
    {
      var probe := plan[i];
      assert plan[i..][1..] == plan[i + 1..];
      if probe.identifier.None? {
        continue;
      }
      var outcome := LookupOutcome(probe.via, probe.lookup(probe.identifier.value));
      if outcome.Raised? || outcome.value.count > 0 {
        return outcome;
      }
    }
    return Done(Outcome(None, None, 0));
  }

  /** The probe finds no active candidate. */
  predicate Silent(probe: Probe) {
    probe.identifier.Some? ==>
      var answer := probe.lookup(probe.identifier.value);
      answer.Some? && Filter(IsActive, answer.value) == []
  }

  predicate Decides(plan: seq<Probe>, k: int) {
    0 <= k < |plan| && !Silent(plan[k]) && forall j :: 0 <= j < k ==> Silent(plan[j])
  }

  /** What the chain answers without running it: the first probe that is not silent, or nothing when all are. */
  lemma {:induction false} ChainMeaning(plan: seq<Probe>)
    ensures forall k :: Decides(plan, k) ==>
      plan[k].identifier.Some?
      && ChainOutcome(plan) == LookupOutcome(plan[k].via, plan[k].lookup(plan[k].identifier.value))
    ensures (forall k :: 0 <= k < |plan| ==> Silent(plan[k])) <==> ChainOutcome(plan) == Done(Outcome(None, None, 0))
  {
    if plan != [] {
      ChainMeaning(plan[1..]);
      var rest := plan[1..];
      forall k | Decides(plan, k) && k > 0
        ensures Decides(rest, k - 1)
      {
        assert forall j :: 0 <= j < k - 1 ==> rest[j] == plan[j + 1];
      }
      assert forall k :: 1 <= k < |plan| ==> rest[k - 1] == plan[k];
      assert (forall k :: 0 <= k < |plan| ==> Silent(plan[k])) <==>
        Silent(plan[0]) && forall k :: 0 <= k < |rest| ==> Silent(rest[k]);
    }
  }

  /** `_supplier_product_outcome`; `Done(None)` when supplierinfo does not participate. */
  function SupplierOutcome(sellerCode: Option<string>, supplier: Option<int>, company: Option<int>,
                           repository: Repository): Attempt<Option<Outcome>> {
    if repository.supplierProducts.None? || sellerCode.None? || supplier.None? || company.None? then Done(None)
    else if company.value <= 0 then Done(None)
    else
      var rows := repository.supplierProducts.value.codes(supplier.value, sellerCode.value, company.value);
      if rows.None? then Raised
      else if |rows.value| != 1 then Done(Some(Outcome(Some(SupplierProductCode), None, |rows.value|)))
      else
        var variants := repository.supplierProducts.value.variants(rows.value[0], company.value);
        if variants.None? then Raised else Done(Some(OutcomeOf(SupplierProductCode, variants.value)))
  }

  /** Supplierinfo leads to exactly one active variant. */
  function SupplierFound(id: int): Outcome {
    Outcome(Some(SupplierProductCode), Some(id), 1)
  }

  // ----- the combination

  function FirstAmbiguous(outcomes: seq<Outcome>): Option<Outcome> {
    if outcomes == [] then None else if outcomes[0].count > 1 then Some(outcomes[0]) else FirstAmbiguous(outcomes[1..])
  }

  predicate HasProduct(o: Outcome) {
    o.productId.Some?
  }

  function ProductOf(o: Outcome): Option<int> {
    o.productId
  }

  function ViaOf(o: Outcome): Option<MatchedBy> {
    o.via
  }

  /** `tuple(dict.fromkeys(xs))`. */
  function FirstSeen<T(==)>(xs: seq<T>): seq<T> {
    if xs == [] then []
    else
      var before := FirstSeen(xs[..|xs| - 1]);
      if xs[|xs| - 1] in before then before else before + [xs[|xs| - 1]]
  }

  function Advised(advisory: Option<Outcome>, productId: Option<int>): seq<Option<MatchedBy>> {
    if advisory.Some? && advisory.value.count == 1 && advisory.value.productId == productId then [advisory.value.via]
    else []
  }

  /** `_combined_result`. */
  function Combined(outcomes: seq<Outcome>, advisory: Option<Outcome>): ProductMatch {
    var ambiguous := FirstAmbiguous(outcomes);
    var matched := Filter(HasProduct, outcomes);
    var ids := FirstSeen(Map(ProductOf, matched));
    if ambiguous.Some? then ProductMatch(MultipleMatches, None, None, ambiguous.value.count, [])
    else if |ids| > 1 then ProductMatch(MultipleMatches, None, None, |ids|, [])
    else if |ids| == 1 && |matched| > 0 then
      ProductMatch(Matched, ids[0], matched[0].via, 1, Map(ViaOf, matched[1..]) + Advised(advisory, ids[0]))
    else ProductMatch(NotFound, None, None, 0, [])
  }

  // ----- what a combination means

  ghost predicate Ambiguous(outcomes: seq<Outcome>) {
    exists o :: o in outcomes && o.count > 1
  }

  ghost predicate Disagree(outcomes: seq<Outcome>) {
    exists a, b ::
      && a in outcomes && b in outcomes && a.productId.Some? && b.productId.Some? && a.productId != b.productId
  }

  ghost predicate Names(outcomes: seq<Outcome>, id: int) {
    exists o :: o in outcomes && o.productId == Some(id)
  }

  lemma {:induction false} FirstAmbiguousMeaning(outcomes: seq<Outcome>)
    ensures FirstAmbiguous(outcomes).Some? <==> Ambiguous(outcomes)
    ensures FirstAmbiguous(outcomes).Some? ==> FirstAmbiguous(outcomes).value in outcomes
  {
    if outcomes != [] {
      FirstAmbiguousMeaning(outcomes[1..]);
      assert outcomes == [outcomes[0]] + outcomes[1..];
    }
  }

  lemma {:induction false} FirstSeenMeaning<T(!new)>(xs: seq<T>)
    ensures Distinct(FirstSeen(xs)) && forall x :: x in FirstSeen(xs) <==> x in xs
  {
    if xs != [] {
      FirstSeenMeaning(xs[..|xs| - 1]);
      assert xs == xs[..|xs| - 1] + [xs[|xs| - 1]];
    }
  }

  lemma IdsMeaning(outcomes: seq<Outcome>)
    ensures var ids := FirstSeen(Map(ProductOf, Filter(HasProduct, outcomes)));
      && Distinct(ids)
      && (forall x :: x in ids <==> exists o :: o in outcomes && o.productId.Some? && o.productId == x)
  {
    var matched := Filter(HasProduct, outcomes);
    var named := Map(ProductOf, matched);
    FirstSeenMeaning(named);
    forall x
      ensures x in named <==> exists o :: o in outcomes && o.productId.Some? && o.productId == x
    {
      if o :| o in outcomes && o.productId.Some? && o.productId == x {
        assert o in matched;
        var i :| 0 <= i < |matched| && matched[i] == o;
        assert named[i] == x;
      }
      if x in named {
        var i :| 0 <= i < |named| && named[i] == x;
        assert matched[i] in matched;
      }
    }
  }

  /** The verdict of a combination, read off the set of outcomes alone: both directions for every status. */
  lemma CombinedMeaning(outcomes: seq<Outcome>, advisory: Option<Outcome>)
    ensures var m := Combined(outcomes, advisory);
      && (m.status == MultipleMatches <==> Ambiguous(outcomes) || Disagree(outcomes))
      && (m.status == Matched <==> m.productId.Some?)
      && (forall id :: m.productId == Some(id) <==> !Ambiguous(outcomes) && !Disagree(outcomes) && Names(outcomes, id))
      && m.status != InvalidInput
  {
    FirstAmbiguousMeaning(outcomes);
    IdsMeaning(outcomes);
    var ids := FirstSeen(Map(ProductOf, Filter(HasProduct, outcomes)));
    hide FirstAmbiguous, FirstSeen;
    assert forall o :: o in outcomes && o.productId.Some? ==> o.productId in ids;
    if |ids| > 1 {
      assert ids[0] in ids && ids[1] in ids && ids[0] != ids[1];
    } else if |ids| == 1 {
      assert ids[0] in ids && forall x :: x in ids ==> x == ids[0];
      var o :| o in outcomes && o.productId.Some? && o.productId == ids[0];
      assert o in Filter(HasProduct, outcomes);
      assert forall id :: Names(outcomes, id) ==> Some(id) in ids;
    } else {
      assert forall id :: Names(outcomes, id) ==> Some(id) in ids;
    }
  }

  /** The primary identity is the first outcome that names a product: supplierinfo when it matched. */
  lemma PrimaryIdentity(first: Outcome, rest: seq<Outcome>, advisory: Option<Outcome>)
    requires Combined([first] + rest, advisory).status == Matched && HasProduct(first)
    ensures Combined([first] + rest, advisory).matchedBy == first.via
    ensures Combined([first] + rest, advisory).productId == first.productId
  {
    CombinedMeaning([first] + rest, advisory);
    assert ([first] + rest)[0] == first && ([first] + rest)[1..] == rest;
    assert Names([first] + rest, first.productId.value);
  }

  // ----- the lattice

  /** Nothing < a single product < conflict. */
  datatype Verdict = Nothing | Single(id: int) | Conflict

  predicate Below(a: Verdict, b: Verdict) {
    a == b || a == Nothing || b == Conflict
  }

  function VerdictOf(m: ProductMatch): Verdict {
    if m.status == MultipleMatches then Conflict else if m.productId.Some? then Single(m.productId.value) else Nothing
  }

  function Join(a: Verdict, b: Verdict): Verdict {
    if a == Nothing then b else if b == Nothing || a == b then a else Conflict
  }

  lemma JoinLaws(a: Verdict, b: Verdict, c: Verdict)
    ensures Join(a, b) == Join(b, a) && Join(Join(a, b), c) == Join(a, Join(b, c)) && Join(a, a) == a
    ensures Below(a, b) <==> Join(a, b) == b
  {
  }

  /** Combining is the join of the lattice: combining two groups together or apart gives one verdict, whatever the
      advisory outcome. */
  lemma CombinedIsJoin(a: seq<Outcome>, b: seq<Outcome>, advisory: Option<Outcome>, other: Option<Outcome>,
                       third: Option<Outcome>)
    ensures VerdictOf(Combined(a + b, advisory)) == Join(VerdictOf(Combined(a, other)), VerdictOf(Combined(b, third)))
  {
    CombinedMeaning(a + b, advisory);
    CombinedMeaning(a, other);
    CombinedMeaning(b, third);
    hide Combined;
    var ma, mb, m := Combined(a, other), Combined(b, third), Combined(a + b, advisory);
    assert forall o :: o in a + b <==> o in a || o in b;
    if ma.status == MultipleMatches || mb.status == MultipleMatches {
      assert Ambiguous(a + b) || Disagree(a + b);
    } else if ma.productId.Some? && mb.productId.Some? {
      assert Names(a, ma.productId.value) && Names(b, mb.productId.value);
      if ma.productId == mb.productId {
        OneName(a, ma.productId.value);
        OneName(b, ma.productId.value);
        assert Names(a + b, ma.productId.value) && !Ambiguous(a + b) && !Disagree(a + b);
      } else {
        var x :| x in a && x.productId == ma.productId;
        var y :| y in b && y.productId == mb.productId;
        assert Disagree(a + b);
      }
    } else if ma.productId.Some? {
      NoName(b, mb);
      OneName(a, ma.productId.value);
      assert Names(a + b, ma.productId.value) && !Ambiguous(a + b) && !Disagree(a + b);
    } else if mb.productId.Some? {
      NoName(a, ma);
      OneName(b, mb.productId.value);
      assert Names(a + b, mb.productId.value) && !Ambiguous(a + b) && !Disagree(a + b);
    } else {
      NoName(a, ma);
      NoName(b, mb);
      assert !Ambiguous(a + b) && !Disagree(a + b) && forall id :: !Names(a + b, id);
    }
  }

  lemma OneName(outcomes: seq<Outcome>, id: int)
    requires !Disagree(outcomes) && Names(outcomes, id)
    ensures forall o :: o in outcomes && o.productId.Some? ==> o.productId == Some(id)
  {
  }

  lemma NoName(outcomes: seq<Outcome>, m: ProductMatch)
    requires m.productId.None? && !Ambiguous(outcomes) && !Disagree(outcomes)
    requires forall id :: m.productId == Some(id) <==>
      !Ambiguous(outcomes) && !Disagree(outcomes) && Names(outcomes, id)
    ensures forall o :: o in outcomes ==> o.productId.None?
  {
    forall o | o in outcomes
      ensures o.productId.None?
    {
      if o.productId.Some? {
        assert Names(outcomes, o.productId.value);
      }
    }
  }

  /** The verdict depends only on which outcomes there are, and more outcomes only move it up: order and repetition
      do not matter, a conflict is never resolved, and a matched product is never replaced by another one. */
  lemma CombinedMonotone(few: seq<Outcome>, many: seq<Outcome>, advisory: Option<Outcome>, other: Option<Outcome>)
    requires forall o :: o in few ==> o in many
    ensures Below(VerdictOf(Combined(few, advisory)), VerdictOf(Combined(many, other)))
    ensures (forall o :: o in many ==> o in few) ==>
      VerdictOf(Combined(few, advisory)) == VerdictOf(Combined(many, other))
  {
    CombinedMeaning(few, advisory);
    CombinedMeaning(many, other);
    hide Combined;
    var m, n := Combined(few, advisory), Combined(many, other);
    if m.productId.Some? {
      assert Names(few, m.productId.value) && Names(many, m.productId.value);
    }
    if n.productId.Some? && forall o :: o in many ==> o in few {
      assert Names(many, n.productId.value) && Names(few, n.productId.value);
    }
  }

  /** The advisory outcome is only ever listed as corroboration. */
  lemma AdvisoryNeverDecides(outcomes: seq<Outcome>, advisory: Outcome)
    ensures var plain, advised := Combined(outcomes, None), Combined(outcomes, Some(advisory));
      && advised.(corroboratedBy := plain.corroboratedBy) == plain
      && (advised != plain <==> plain.productId.Some? && advisory.count == 1 && advisory.productId == plain.productId)
  {
    var plain, advised := Combined(outcomes, None), Combined(outcomes, Some(advisory));
    CombinedMeaning(outcomes, None);
    if plain.productId.Some? && advisory.count == 1 && advisory.productId == plain.productId {
      assert |advised.corroboratedBy| == |plain.corroboratedBy| + 1;
    }
  }

  // ----- the chain is not part of the lattice

  /** Swapping the two lookups of the chain keeps the verdict exactly when one of them is silent or both agree. */
  lemma ChainOrderExact(a: Probe, b: Probe, x: Outcome, y: Outcome)
    requires a.identifier.Some? && b.identifier.Some?
    requires LookupOutcome(a.via, a.lookup(a.identifier.value)) == Done(x)
    requires LookupOutcome(b.via, b.lookup(b.identifier.value)) == Done(y)
    ensures var forward, backward := ChainOutcome([a, b]), ChainOutcome([b, a]);
      && forward.Done? && backward.Done?
      && (VerdictOf(Combined([forward.value], None)) == VerdictOf(Combined([backward.value], None))
          <==> x.count == 0 || y.count == 0 || VerdictOf(Combined([x], None)) == VerdictOf(Combined([y], None)))
  {
    assert [a, b][1..] == [b] && [b, a][1..] == [a];
    assert [a][1..] == [] && [b][1..] == [];
    assert ChainOutcome([a]) == Done(if x.count == 0 then Outcome(None, None, 0) else x);
    assert ChainOutcome([b]) == Done(if y.count == 0 then Outcome(None, None, 0) else y);
  }

  ghost predicate SwapChangesProduct(a: Probe, b: Probe, first: int, second: int) {
    && ChainOutcome([a, b]).Done? && Combined([ChainOutcome([a, b]).value], None).productId == Some(first)
    && ChainOutcome([b, a]).Done? && Combined([ChainOutcome([b, a]).value], None).productId == Some(second)
  }

  lemma ChainIsOrderDependent()
    ensures exists a, b :: SwapChangesProduct(a, b, 1, 2)
  {
    var one, two := [Product(1, true)], [Product(2, true)];
    var a := Probe(BuyerCode, Some("A"), s => Some([Product(1, true)]));
    var b := Probe(BarcodeIdentity, Some("B"), s => Some([Product(2, true)]));
    assert one[1..] == [] && two[1..] == [];
    assert Filter(IsActive, one) == one && Filter(IsActive, two) == two;
    assert ChainOutcome([a, b]) == Done(Outcome(Some(BuyerCode), Some(1), 1));
    assert ChainOutcome([b, a]) == Done(Outcome(Some(BarcodeIdentity), Some(2), 1));
    SingleOutcome(Outcome(Some(BuyerCode), Some(1), 1), 1);
    SingleOutcome(Outcome(Some(BarcodeIdentity), Some(2), 1), 2);
    assert SwapChangesProduct(a, b, 1, 2);
  }

  lemma SingleOutcome(o: Outcome, id: int)
    requires o.productId == Some(id) && o.count <= 1
    ensures Combined([o], None).productId == Some(id)
  {
    CombinedMeaning([o], None);
    assert Names([o], id);
  }

  // ----- one line, one invoice

  function Invalid(): ProductMatch {
    ProductMatch(InvalidInput, None, None, 0, [])
  }

  /** `authoritative_sku_identities`, as probes of the default code. */
  function SkuPlan(line: ProductLine, repository: Repository): seq<Probe> {
    (if Clean(line.manufacturerCode).Some?
     then [Probe(ManufacturerCode, Clean(line.manufacturerCode), repository.byDefaultCode)]
     else [])
    + (if line.profileSku.Some? then [Probe(ProfileSku, line.profileSku, repository.byDefaultCode)] else [])
  }

  function LegacyPlan(line: ProductLine, repository: Repository): seq<Probe> {
    [Probe(BuyerCode, Clean(line.buyerCode), repository.byDefaultCode),
     Probe(BarcodeIdentity, Clean(line.barcode), repository.byBarcode)]
  }

  function LookupAll(plan: seq<Probe>): Attempt<seq<Outcome>> {
    if plan == [] then Done([])
    else
      var n := |plan| - 1;
      var before := LookupAll(plan[..n]);
      if before.Raised? || plan[n].identifier.None? then before
      else
        var outcome := LookupOutcome(plan[n].via, plan[n].lookup(plan[n].identifier.value));
        if outcome.Raised? then Raised else Done(before.value + [outcome.value])
  }

  /** The advisory probe runs only when neither the buyer code nor the barcode found a candidate. */
  function AdvisoryOutcome(sellerCode: Option<string>, legacy: Outcome,
                           repository: Repository): Attempt<Option<Outcome>> {
    if sellerCode.None? || legacy.count > 0 then Done(None)
    else
      var outcome := LookupOutcome(SellerCode, repository.byDefaultCode(sellerCode.value));
      if outcome.Raised? then Raised else Done(Some(outcome.value))
  }

  /** The deterministic outcomes of a line in precedence order, or `Raised` when a lookup failed. */
  function Outcomes(line: ProductLine, supplier: Option<int>, company: Option<int>,
                    repository: Repository): Attempt<seq<Outcome>> {
    var legacy := ChainOutcome(LegacyPlan(line, repository));
    var skus := LookupAll(SkuPlan(line, repository));
    var supplierOutcome := SupplierOutcome(Clean(line.sellerCode), supplier, company, repository);
    if legacy.Raised? || skus.Raised? || supplierOutcome.Raised? then Raised
    else Done((if supplierOutcome.value.Some? then [supplierOutcome.value.value] else []) + [legacy.value] + skus.value)
  }

  predicate Identified(line: ProductLine) {
    || Clean(line.buyerCode).Some? || Clean(line.barcode).Some? || Clean(line.sellerCode).Some?
    || Clean(line.manufacturerCode).Some? || line.profileSku.Some?
  }

  /** `_match_line`. */
  function MatchLine(line: ProductLine, supplier: Option<int>, company: Option<int>,
                     repository: Repository): Attempt<ProductMatch> {
    if Blank(line.lineNumber) || !Identified(line) then Done(Invalid())
    else
      var legacy := ChainOutcome(LegacyPlan(line, repository));
      if legacy.Raised? then Raised
      else
        var advisory := AdvisoryOutcome(Clean(line.sellerCode), legacy.value, repository);
        var outcomes := Outcomes(line, supplier, company, repository);
        if advisory.Raised? || outcomes.Raised? then Raised else Done(Combined(outcomes.value, advisory.value))
  }

  datatype InvoiceMatch = NoLines | Lines(results: seq<ProductMatch>)

  /** `match_invoice`: one result per line in order; the first failed lookup fails the invoice. */
  method MatchInvoice(lines: seq<ProductLine>, supplier: Option<int>, company: Option<int>, repository: Repository)
    returns (r: Attempt<InvoiceMatch>)
    ensures r == Done(NoLines) <==> lines == []
    ensures r.Done? && r.value.Lines? ==>
      && |r.value.results| == |lines|
      && forall i :: 0 <= i < |lines| ==> MatchLine(lines[i], supplier, company, repository) == Done(r.value.results[i])
    ensures r.Raised? <==> exists i :: 0 <= i < |lines| && MatchLine(lines[i], supplier, company, repository).Raised?
  {
    hide MatchLine;
    if lines == [] {
      return Done(NoLines);
    }
    var results := [];
    for i := 0 to |lines|
      invariant |results| == i
      invariant forall j :: 0 <= j < i ==> MatchLine(lines[j], supplier, company, repository) == Done(results[j])
    {
      var result := MatchLine(lines[i], supplier, company, repository);
      if result.Raised? {
        return Raised;
      }
      results := results + [result.value];
    }
    return Done(Lines(results));
  }

  /** Exactly one supplierinfo row leads to exactly one active variant: the line is that variant or ambiguous, never
      not found; and it is that variant exactly when no other identity of the line is ambiguous or names another one. */
  lemma SupplierRowDecides(line: ProductLine, supplier: Option<int>, company: Option<int>, repository: Repository,
                           id: int)
    requires !Blank(line.lineNumber)
    requires SupplierOutcome(Clean(line.sellerCode), supplier, company, repository) == Done(Some(SupplierFound(id)))
    requires MatchLine(line, supplier, company, repository).Done?
    ensures Outcomes(line, supplier, company, repository).Done?
    ensures var m := MatchLine(line, supplier, company, repository).value;
      var outcomes := Outcomes(line, supplier, company, repository).value;
      && (m.status == MultipleMatches || m.status == Matched)
      && (m.status == Matched ==> m.productId == Some(id) && m.matchedBy == Some(SupplierProductCode))
      && (m.status == Matched <==>
            forall o :: o in outcomes ==> o.count <= 1 && (o.productId.Some? ==> o.productId == Some(id)))
  {
    assert Clean(line.sellerCode).Some? && Identified(line);
    hide SupplierOutcome, LookupAll, ChainOutcome, Combined;
    var outcomes := Outcomes(line, supplier, company, repository).value;
    var first := Outcome(Some(SupplierProductCode), Some(id), 1);
    var legacy := ChainOutcome(LegacyPlan(line, repository)).value;
    var advisory := AdvisoryOutcome(Clean(line.sellerCode), legacy, repository).value;
    assert outcomes == [first] + outcomes[1..];
    var m := Combined(outcomes, advisory);
    CombinedMeaning(outcomes, advisory);
    assert first in outcomes && Names(outcomes, id);
    if m.status == Matched {
      PrimaryIdentity(first, outcomes[1..], advisory);
      OneName(outcomes, id);
    }
  }
}
