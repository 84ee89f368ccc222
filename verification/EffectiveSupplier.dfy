/** The one precedence rule for the supplier of a review, and the consumers that must agree on it
    (`app/application/effective_supplier.py`, `app/application/use_cases/effective_decision.py`). */
module EffectiveSupplier {
  import opened Core
  import opened MatchTypes
  import opened ProductMatching
  import opened PartnerMatching

  datatype Origin = Deterministic | MatchExisting | CreatePermanentSupplier | OneOffVendor

  datatype AcceptedSupplier = AcceptedSupplier(origin: Origin, partnerId: int)

  /** What the constructor of an accepted supplier demands. */
  predicate Constructible(a: AcceptedSupplier) {
    a.origin != Deterministic && a.partnerId > 0
  }

  datatype Effective = Effective(partnerId: int, origin: Origin, partnerMatch: PartnerMatch)

  predicate IsMatched(raw: Option<PartnerMatch>) {
    raw.Some? && raw.value.status == Matched && PositiveId(raw.value.partnerId)
  }

  function AcceptedMatch(partnerId: int): PartnerMatch {
    PartnerMatch(Matched, Some(partnerId), 1)
  }

  /** `resolve_effective_supplier`. */
  function Resolve(raw: Option<PartnerMatch>, accepted: Option<AcceptedSupplier>): Option<Effective> {
    if IsMatched(raw) then Some(Effective(raw.value.partnerId.value, Deterministic, raw.value))
    else if accepted.Some? then
      var id := accepted.value.partnerId;
      Some(Effective(id, accepted.value.origin, AcceptedMatch(id)))
    else None
  }

  /** `supplier_match_for_product_matching`. */
  function MatchForProducts(raw: Option<PartnerMatch>, accepted: Option<AcceptedSupplier>): Option<PartnerMatch> {
    var effective := Resolve(raw, accepted);
    if effective.Some? then Some(effective.value.partnerMatch) else raw
  }

  /** `_resolved_supplier_partner_id` of product matching. */
  function ProductSupplier(partnerMatch: Option<PartnerMatch>): Option<int> {
    if partnerMatch.None? || partnerMatch.value.status != Matched then None
    else if PositiveId(partnerMatch.value.partnerId) then partnerMatch.value.partnerId
    else None
  }

  // ----- the accepted resolution

  datatype Effect = Effect(mode: string, partnerId: int)

  datatype AcceptedLookup = NoResolution | Proven(supplier: AcceptedSupplier) | Unproven

  function AcceptedOrigin(mode: string): Option<Origin> {
    if mode == "match_existing" then Some(MatchExisting)
    else if mode == "create_permanent_supplier" then Some(CreatePermanentSupplier)
    else if mode == "one_off_vendor" then Some(OneOffVendor)
    else None
  }

  function RowsOf(rows: seq<Partner>, id: int): seq<Partner> {
    Filter((row: Partner) => row.id == id, rows)
  }

  /** `AcceptedSupplierReader.lookup`; `read` includes archived partners and may raise. */
  function LookupAccepted(effect: Option<Effect>, company: int,
                          read: int -> Option<seq<Partner>>): Attempt<AcceptedLookup> {
    if effect.None? then Done(NoResolution)
    else if AcceptedOrigin(effect.value.mode).None? || effect.value.partnerId <= 0 then Done(Unproven)
    else if read(effect.value.partnerId).None? then Raised
    else
      var partners := RowsOf(read(effect.value.partnerId).value, effect.value.partnerId);
      if |partners| != 1 then Done(Unproven)
      else if Canonical(partners[0]) != partners[0].id then Done(Unproven)
      else if partners[0].companyId.Some? && partners[0].companyId.value != company then Done(Unproven)
      else Done(Proven(AcceptedSupplier(AcceptedOrigin(effect.value.mode).value, effect.value.partnerId)))
  }

  /** The accepted partner is its own commercial partner in a compatible company; an archived one qualifies. */
  ghost predicate ProvenPartner(rows: seq<Partner>, id: int, company: int) {
    exists p ::
      && RowsOf(rows, id) == [p] && (p.commercialId.None? || p.commercialId.value == id)
      && (p.companyId.None? || p.companyId.value == company)
  }

  /** A resolution is used exactly when it is of an accepted kind and its partner is proven; a failed read is never
      treated as "no supplier"; what is used can always be constructed. */
  lemma AcceptedExactly(effect: Option<Effect>, company: int, read: int -> Option<seq<Partner>>)
    ensures var r := LookupAccepted(effect, company, read);
      && (r == Done(NoResolution) <==> effect.None?)
      && (r.Raised? <==>
            effect.Some? && AcceptedOrigin(effect.value.mode).Some? && effect.value.partnerId > 0
            && read(effect.value.partnerId).None?)
      && (r.Done? && r.value.Proven? <==>
            && effect.Some? && AcceptedOrigin(effect.value.mode).Some? && effect.value.partnerId > 0
            && read(effect.value.partnerId).Some?
            && ProvenPartner(read(effect.value.partnerId).value, effect.value.partnerId, company))
      && (r.Done? && r.value.Proven? ==>
            Constructible(r.value.supplier) && r.value.supplier.partnerId == effect.value.partnerId)
  {
    if effect.Some? && read(effect.value.partnerId).Some? {
      var partners := RowsOf(read(effect.value.partnerId).value, effect.value.partnerId);
      if |partners| == 1 {
        assert partners == [partners[0]] && partners[0] in partners;
      }
    }
  }

  // ----- the consumers

  /** `EffectiveSupplierResolver.resolve`: the accepted resolution is read only when the raw match did not resolve.
      `None` is a failure message. */
  function ResolveLazily(raw: Attempt<PartnerMatch>,
                         lookup: () -> Attempt<AcceptedLookup>): Attempt<Option<Effective>> {
    if raw.Raised? then Raised
    else
      var effective := Resolve(Some(raw.value), None);
      if effective.Some? then Done(effective)
      else if lookup().Raised? then Raised
      else if lookup().value.Proven? then Done(Resolve(Some(raw.value), Some(lookup().value.supplier)))
      else Done(None)
  }

  /** The eager rule: read the accepted resolution first, then ask which partner match product matching gets. */
  function EagerSupplier(raw: PartnerMatch, lookup: AcceptedLookup): Option<int> {
    ProductSupplier(MatchForProducts(Some(raw), if lookup.Proven? then Some(lookup.supplier) else None))
  }

  /** `EffectiveDecisionResolver.resolve`: reclassification consults the resolution unless the raw status is MATCHED. */
  function ReclassifiedSupplier(raw: PartnerMatch, lookup: () -> Attempt<AcceptedLookup>): Attempt<Option<int>> {
    if raw.status == Matched then Done(ProductSupplier(MatchForProducts(Some(raw), None)))
    else if lookup().Raised? then Raised
    else
      Done(ProductSupplier(MatchForProducts(Some(raw), if lookup().value.Proven? then Some(lookup().value.supplier)
                                                       else None)))
  }

  function PartnerOf(r: Option<Effective>): Option<int> {
    if r.Some? then Some(r.value.partnerId) else None
  }

  ghost predicate WellFormedLookup(lookup: Attempt<AcceptedLookup>) {
    lookup.Done? && lookup.value.Proven? ==> Constructible(lookup.value.supplier)
  }

  /** The lazy resolver returns a supplier exactly when the eager rule gives product matching that supplier, and
      never both disagree; it raises exactly when it needed the read that failed. */
  lemma LazyAgreesWithEager(raw: PartnerMatch, lookup: () -> Attempt<AcceptedLookup>)
    requires WellFormedLookup(lookup())
    ensures lookup().Done? ==>
      && ResolveLazily(Done(raw), lookup).Done?
      && PartnerOf(ResolveLazily(Done(raw), lookup).value) == EagerSupplier(raw, lookup().value)
    ensures ResolveLazily(Done(raw), lookup).Raised? <==> lookup().Raised? && !IsMatched(Some(raw))
  {
  }

  /** Reclassification tests only the raw status, the resolver also the partner id. They agree on the supplier exactly
      when no MATCHED raw result lacks a positive partner id while an accepted supplier is proven. */
  lemma ReclassificationAgrees(raw: PartnerMatch, lookup: () -> Attempt<AcceptedLookup>)
    requires WellFormedLookup(lookup()) && lookup().Done?
    ensures ReclassifiedSupplier(raw, lookup).Done? && ResolveLazily(Done(raw), lookup).Done?
    ensures ReclassifiedSupplier(raw, lookup).value == PartnerOf(ResolveLazily(Done(raw), lookup).value)
       <==> !(raw.status == Matched && !IsMatched(Some(raw)) && lookup().value.Proven?)
  {
  }

  predicate PositiveIds(answer: Option<seq<Partner>>) {
    answer.Some? ==> forall p :: p in answer.value ==> p.id > 0
  }

  /** Every MATCHED partner is the id of a partner record, so with positive record ids all three consumers agree on
      every result the partner matcher can produce. */
  lemma MatcherResultsAgree(
      taxNumber: Option<string>, company: Option<int>, findByTax: FindByTax, findByIds: FindByIds,
      lookup: () -> Attempt<AcceptedLookup>)
    requires WellFormedLookup(lookup()) && lookup().Done?
    requires MatchPartner(taxNumber, company, findByTax, findByIds).Done?
    requires forall tax :: PositiveIds(findByTax(tax))
    requires forall ids :: PositiveIds(findByIds(ids))
    ensures var raw := MatchPartner(taxNumber, company, findByTax, findByIds).value;
      && ReclassifiedSupplier(raw, lookup).Done? && ResolveLazily(Done(raw), lookup).Done?
      && ReclassifiedSupplier(raw, lookup).value == PartnerOf(ResolveLazily(Done(raw), lookup).value)
      && ReclassifiedSupplier(raw, lookup).value == EagerSupplier(raw, lookup().value)
  {
    var raw := MatchPartner(taxNumber, company, findByTax, findByIds).value;
    if raw.status == Matched {
      MatchedIsPositive(taxNumber, company, findByTax, findByIds);
    }
    hide MatchPartner;
    ReclassificationAgrees(raw, lookup);
    LazyAgreesWithEager(raw, lookup);
  }

  lemma MatchedIsPositive(taxNumber: Option<string>, company: Option<int>, findByTax: FindByTax, findByIds: FindByIds)
    requires MatchPartner(taxNumber, company, findByTax, findByIds).Done?
    requires MatchPartner(taxNumber, company, findByTax, findByIds).value.status == Matched
    requires forall tax :: PositiveIds(findByTax(tax))
    requires forall ids :: PositiveIds(findByIds(ids))
    ensures IsMatched(Some(MatchPartner(taxNumber, company, findByTax, findByIds).value))
  {
    var rows := findByTax(Clean(taxNumber).value).value;
    var active := Filter(IsActivePartner, rows);
    MatchedExactly(taxNumber, company, findByTax, findByIds, 0);
    var id := MatchPartner(taxNumber, company, findByTax, findByIds).value.partnerId.value;
    MatchedExactly(taxNumber, company, findByTax, findByIds, id);
    var loaded := Loaded(active, findByIds).value;
    ByIdFinds(active, id);
    ByIdFinds(loaded, id);
    hide MatchPartner;
    var record := OwnRecord(active, loaded, id).value;
    assert PositiveIds(findByTax(Clean(taxNumber).value)) && PositiveIds(findByIds(Missing(active)));
    assert record in rows || (findByIds(Missing(active)) == Some(loaded) && record in loaded);
  }

  /** End to end: the supplier a use case resolved and wrote one supplierinfo row for, leading to one active variant,
      is the supplier reclassification matches under; the line becomes that variant or a conflict, never not found. */
  lemma MappedLineIsFound(
      raw: PartnerMatch, lookup: () -> Attempt<AcceptedLookup>, line: ProductLine, company: int, repository: Repository,
      supplier: int, row: SupplierCode, variants: seq<Product>, variant: int)
    requires WellFormedLookup(lookup()) && lookup().Done? && company > 0 && !Blank(line.lineNumber)
    requires raw.status == Matched ==> IsMatched(Some(raw))
    requires ResolveLazily(Done(raw), lookup).Done?
      && PartnerOf(ResolveLazily(Done(raw), lookup).value) == Some(supplier)
    requires Clean(line.sellerCode).Some? && repository.supplierProducts.Some?
    requires repository.supplierProducts.value.codes(supplier, Clean(line.sellerCode).value, company) == Some([row])
    requires repository.supplierProducts.value.variants(row, company) == Some(variants)
    requires Filter(IsActive, variants) == [Product(variant, true)]
    ensures ReclassifiedSupplier(raw, lookup) == Done(Some(supplier))
    ensures var m := MatchLine(line, ReclassifiedSupplier(raw, lookup).value, Some(company), repository);
      m.Done? ==>
        && (m.value.status == Matched || m.value.status == MultipleMatches)
        && (m.value.status == Matched ==>
              m.value.productId == Some(variant) && m.value.matchedBy == Some(SupplierProductCode))
  {
    ReclassificationAgrees(raw, lookup);
    var s := Some(supplier);
    assert ReclassifiedSupplier(raw, lookup).value == s;
    assert [row][0] == row;
    assert SupplierOutcome(Clean(line.sellerCode), s, Some(company), repository) == Done(Some(SupplierFound(variant)));
    hide ReclassifiedSupplier, ResolveLazily, MatchLine, SupplierOutcome;
    if MatchLine(line, s, Some(company), repository).Done? {
      SupplierRowDecides(line, s, Some(company), repository, variant);
    }
  }
}
