/** What the engine accepts as evidence, read off the line, the catalog and the earlier mappings with every guard
    written out (`app/advisory/product_suggestions.py`). */
module SuggestionEvidence {
  import opened Core
  import opened Sorting
  import opened Ranking
  import opened AttributeGuard
  import opened SuggestionEngine
  import opened SuggestionGuards
  import opened TierPrecedence

  /** An active, purchasable variant of the line's company or of no company. */
  predicate Sold(v: Variant, companyId: int) {
    v.active && v.purchaseOk && (v.companyId == None || v.companyId == Some(companyId))
  }

  /** The code's shape says which product it is: both are CSP identities, or both are SKUs. */
  predicate Comparable(a: string, b: string, lex: Lexicon) {
    || (lex.cspProduct(a).Some? && lex.cspProduct(b).Some?)
    || (lex.skuShaped(a) && lex.skuShaped(b))
  }

  /** A stated code of the line and the Internal Reference are the same code, unless they cannot be compared. */
  predicate CodeAgrees(stated: Option<string>, reference: Option<string>, lex: Lexicon) {
    stated.None? || reference.None? || !Comparable(stated.value, reference.value, lex)
    || lex.codeKey(stated.value) == lex.codeKey(reference.value)
  }

  /** Neither a code nor an attribute of the line speaks against the variant. */
  predicate Agrees(line: SuggestionLine, v: Variant, lex: Lexicon) {
    && CodeAgrees(Clean(line.sellerCode), Clean(v.defaultCode), lex)
    && CodeAgrees(Clean(line.manufacturerCode), Clean(v.defaultCode), lex)
    && !AttributeConflict(lex.lineAttributes(Text(line.description)), lex.nameAttributes(v.name))
  }

  /** The line names this code as a global identity: its manufacturer code, a seller code shaped like a CSP identity or
      a SKU, or a SKU in its description. */
  predicate Identifies(line: SuggestionLine, code: string, lex: Lexicon) {
    || Clean(line.manufacturerCode) == Some(code)
    || (Clean(line.sellerCode) == Some(code) && (lex.cspProduct(code).Some? || lex.skuShaped(code)))
    || (line.description.Some? && line.description.value != "" && code in lex.skuTokens(line.description.value))
  }

  predicate Carries(v: Variant, code: string, lex: Lexicon) {
    v.defaultCode.Some? && v.defaultCode.value != "" && lex.codeKey(v.defaultCode.value) == lex.codeKey(code)
  }

  /** The same supplier's same code, or the same description, was mapped to the variant. */
  predicate Remembers(line: SuggestionLine, prior: Prior, v: Variant, lex: Lexicon) {
    && line.supplierId == Some(prior.supplierId) && prior.productId == v.productId
    && (|| (Clean(line.sellerCode).Some? && Clean(prior.sellerCode).Some?
            && lex.codeKey(Clean(line.sellerCode).value) == lex.codeKey(Clean(prior.sellerCode).value))
        || (lex.normalize(Text(line.description)) != ""
            && lex.normalize(Text(line.description)) == lex.normalize(Text(prior.description))))
  }

  /** The line's name may be compared: it has meaningful words, its supplier is not one of exact codes only, and
      neither its description nor its seller code holds a SKU. */
  predicate Nameable(line: SuggestionLine, policy: Policy, lex: Lexicon) {
    && line.description.Some? && line.description.value != "" && lex.meaningful(line.description.value)
    && (line.supplierId.None? || line.supplierId.value !in policy.manualSuppliers)
    && lex.skuTokens(line.description.value) == []
    && (Clean(line.sellerCode).None? || !lex.skuShaped(Clean(line.sellerCode).value))
  }

  /** The category lies below a category of exact codes only. */
  ghost predicate BelowManual(categoryId: int, catalog: Catalog, policy: Policy) {
    exists path, root, rootPath ::
      && (categoryId, path) in catalog.categories && (root, rootPath) in catalog.categories
      && root in policy.manualCategories && rootPath + " / " <= path
  }

  /** The variant's name may be compared: its reference is no SKU and its category is not one of exact codes only. */
  ghost predicate Comparably(v: Variant, catalog: Catalog, policy: Policy, lex: Lexicon) {
    && (v.defaultCode.None? || v.defaultCode.value == "" || !lex.skuShaped(Strip(v.defaultCode.value)))
    && (v.categoryId.None?
        || (v.categoryId.value !in policy.manualCategories && !BelowManual(v.categoryId.value, catalog, policy)))
  }

  ghost predicate NamesAlike(line: SuggestionLine, v: Variant, catalog: Catalog, policy: Policy, lex: Lexicon) {
    && Nameable(line, policy, lex) && Comparably(v, catalog, policy, lex)
    && lex.shared(line.description.value, v.name) != []
  }

  /** The evidence for each tier and its score. */
  ghost predicate Evident(line: SuggestionLine, catalog: Catalog, priors: seq<Prior>, policy: Policy, v: Variant,
                          tier: Tier, score: real, lex: Lexicon) {
    match tier
    case StaleSupplierinfo => false
    case ExactIdentifier => score == 1.0 && exists code :: Identifies(line, code, lex) && Carries(v, code, lex)
    case PriorMapping =>
      score == 0.9 && Agrees(line, v, lex) && exists prior :: prior in priors && Remembers(line, prior, v, lex)
    case NameSimilarity =>
      && NamesAlike(line, v, catalog, policy, lex) && Agrees(line, v, lex)
      && score == lex.similarity(line.description.value, v.name) && score >= policy.threshold
  }

  /** Some sold variant of the catalog is evidence for the product, tier and score. */
  ghost predicate EvidentIn(line: SuggestionLine, catalog: Catalog, priors: seq<Prior>, policy: Policy, x: Candidate,
                            lex: Lexicon) {
    exists v ::
      && v in catalog.variants && Sold(v, line.companyId) && v.productId == x.productId
      && Evident(line, catalog, priors, policy, v, x.tier, x.score, lex)
  }

  // ----- the guards

  lemma AgreesMeaning(c: Context, v: Variant, lex: Lexicon)
    ensures Discriminated(c, v, lex) <==> !Agrees(c.line, v, lex)
  {
    hide Clean, AttributeConflict;
  }

  ghost predicate HasCode(ids: seq<(string, string)>, code: string) {
    exists i :: 0 <= i < |ids| && ids[i].1 == code
  }

  lemma HasCodeConcat(xs: seq<(string, string)>, ys: seq<(string, string)>, code: string)
    ensures HasCode(xs + ys, code) <==> HasCode(xs, code) || HasCode(ys, code)
  {
    if i :| 0 <= i < |xs| && xs[i].1 == code {
      assert (xs + ys)[i].1 == code;
    }
    if i :| 0 <= i < |ys| && ys[i].1 == code {
      assert (xs + ys)[|xs| + i].1 == code;
    }
  }

  lemma HasToken(tokens: seq<string>, code: string)
    ensures HasCode(Map((t: string) => ("description", t), tokens), code) <==> code in tokens
  {
    var found := Map((t: string) => ("description", t), tokens);
    if i :| 0 <= i < |tokens| && tokens[i] == code {
      assert found[i].1 == code;
    }
  }

  lemma HasNone(code: string)
    ensures !HasCode([], code)
  {
  }

  lemma HasOne(id: (string, string), code: string)
    ensures HasCode([id], code) <==> id.1 == code
  {
    assert [id][0] == id;
  }

  lemma IdentifiersMeaning(line: SuggestionLine, code: string, lex: Lexicon)
    ensures Identifies(line, code, lex) <==> HasCode(Identifiers(line, lex), code)
  {
    hide Clean, HasCode;
    var manufacturer, seller := Clean(line.manufacturerCode), Clean(line.sellerCode);
    var first := if manufacturer.Some? then [("manufacturer", manufacturer.value)] else [];
    var second := if seller.Some? && (lex.cspProduct(seller.value).Some? || lex.skuShaped(seller.value))
                  then [("seller", seller.value)]
                  else [];
    var third := if NonEmpty(line.description)
                 then Map((t: string) => ("description", t), lex.skuTokens(line.description.value))
                 else [];
    assert Identifiers(line, lex) == first + second + third;
    hide Identifiers;
    HasCodeConcat(first + second, third, code);
    HasCodeConcat(first, second, code);
    HasNone(code);
    if manufacturer.Some? {
      HasOne(("manufacturer", manufacturer.value), code);
    }
    if seller.Some? {
      HasOne(("seller", seller.value), code);
    }
    if NonEmpty(line.description) {
      HasToken(lex.skuTokens(line.description.value), code);
    }
  }

  lemma ExactMeaning(c: Context, v: Variant, lex: Lexicon)
    ensures ExactEvidence(c, v, lex) <==> exists code :: Identifies(c.line, code, lex) && Carries(v, code, lex)
  {
    hide Identifiers, Identifies;
    if ExactEvidence(c, v, lex) {
      var id :| id in Identifiers(c.line, lex) && Carries(v, id.1, lex);
      var i :| 0 <= i < |Identifiers(c.line, lex)| && Identifiers(c.line, lex)[i] == id;
      IdentifiersMeaning(c.line, id.1, lex);
    }
    if code :| Identifies(c.line, code, lex) && Carries(v, code, lex) {
      IdentifiersMeaning(c.line, code, lex);
      var i :| 0 <= i < |Identifiers(c.line, lex)| && Identifiers(c.line, lex)[i].1 == code;
      assert Identifiers(c.line, lex)[i] in Identifiers(c.line, lex);
    }
  }

  lemma EligibleMeaning(catalog: Catalog, companyId: int, v: Variant)
    ensures v in EligibleVariants(catalog, companyId) <==> v in catalog.variants && Sold(v, companyId)
  {
    var found := Filter((w: Variant) => Eligible(w, companyId), catalog.variants);
    SortByMultiset(found, IdLe);
    assert v in found <==> v in multiset(found);
    assert v in EligibleVariants(catalog, companyId) <==> v in multiset(EligibleVariants(catalog, companyId));
  }

  lemma ManualMeaning(line: SuggestionLine, catalog: Catalog, policy: Policy, categoryId: int)
    requires UniqueIds(catalog)
    ensures var c := ContextOf(line, catalog, policy);
      BelowManual(categoryId, catalog, policy) <==> categoryId in c.paths && UnderManualRoot(c, c.paths[categoryId])
  {
    PathsMeaning(catalog.categories);
    hide EligibleVariants, PathsOf;
    var c := ContextOf(line, catalog, policy);
    if categoryId in c.paths && UnderManualRoot(c, c.paths[categoryId]) {
      var root :| root in c.policy.manualCategories && root in c.paths && c.paths[root] + " / " <= c.paths[categoryId];
      assert (categoryId, c.paths[categoryId]) in catalog.categories && (root, c.paths[root]) in catalog.categories;
    }
  }

  lemma NamesMeaning(line: SuggestionLine, catalog: Catalog, policy: Policy, v: Variant, lex: Lexicon)
    requires UniqueIds(catalog)
    ensures var c := ContextOf(line, catalog, policy);
      SimilarityRuns(c, lex) && Compared(c, v, lex) <==> NamesAlike(line, v, catalog, policy, lex)
  {
    if v.categoryId.Some? {
      ManualMeaning(line, catalog, policy, v.categoryId.value);
    }
    hide BelowManual, UnderManualRoot, EligibleVariants, PathsOf, Clean, Strip, UniqueIds;
  }

  lemma EvidentMeaning(line: SuggestionLine, catalog: Catalog, priors: seq<Prior>, policy: Policy, v: Variant,
                       tier: Tier, score: real, lex: Lexicon)
    requires UniqueIds(catalog)
    ensures Supports(ContextOf(line, catalog, policy), priors, v, tier, score, lex) <==>
      Evident(line, catalog, priors, policy, v, tier, score, lex)
  {
    var c := ContextOf(line, catalog, policy);
    AgreesMeaning(c, v, lex);
    NamesMeaning(line, catalog, policy, v, lex);
    hide EligibleVariants, PathsOf, Agrees, Discriminated, Compared, SimilarityRuns, Clean, Identifiers, Identifies;
    match tier
    case StaleSupplierinfo =>
    case ExactIdentifier =>
      ExactMeaning(c, v, lex);
    case PriorMapping =>
      assert forall prior :: Evidences(c, prior, v, lex) <==> Remembers(line, prior, v, lex);
    case NameSimilarity =>
  }

  /** A product, tier and score is a candidate exactly when a sold variant of the catalog is evidence for it: a code
      that disagrees with a comparable code of the line rejects every variant from T2 and T3. */
  lemma JustifiedExactly(line: SuggestionLine, catalog: Catalog, priors: seq<Prior>, policy: Policy, x: Candidate,
                         lex: Lexicon)
    requires UniqueIds(catalog)
    ensures Justified(ContextOf(line, catalog, policy), priors, x, lex) <==>
      EvidentIn(line, catalog, priors, policy, x, lex)
  {
    var c := ContextOf(line, catalog, policy);
    forall v: Variant
      ensures v in c.eligible <==> v in catalog.variants && Sold(v, line.companyId)
      ensures Supports(c, priors, v, x.tier, x.score, lex) <==>
        Evident(line, catalog, priors, policy, v, x.tier, x.score, lex)
    {
      EligibleMeaning(catalog, line.companyId, v);
      EvidentMeaning(line, catalog, priors, policy, v, x.tier, x.score, lex);
    }
    hide Supports, Evident, Sold, EligibleVariants, UniqueIds;
  }

  // ----- what is said besides

  /** The supplier has a row with the line's seller code, compared as `same` compares codes. */
  ghost predicate Listed(line: SuggestionLine, row: SupplierRow) {
    && line.supplierId == Some(row.partnerId) && row.code.Some?
    && (row.companyId == None || row.companyId == Some(line.companyId))
  }

  ghost predicate ListedExactly(line: SuggestionLine, catalog: Catalog) {
    exists row ::
      row in catalog.mappings && Listed(line, row) && Clean(line.sellerCode) == row.code
  }

  ghost predicate ListedNearly(line: SuggestionLine, catalog: Catalog, lex: Lexicon) {
    exists row ::
      && row in catalog.mappings && Listed(line, row)
      && Clean(line.sellerCode).Some? && lex.codeKey(row.code.value) == lex.codeKey(Clean(line.sellerCode).value)
  }

  /** The seller code is a CSP identity whose product, but not whose SKU, some sold variant carries. */
  ghost predicate SameCspProduct(line: SuggestionLine, v: Variant, lex: Lexicon) {
    && Clean(line.sellerCode).Some? && lex.cspProduct(Clean(line.sellerCode).value).Some?
    && v.defaultCode.Some? && v.defaultCode.value != ""
    && lex.cspProduct(Strip(v.defaultCode.value)) == lex.cspProduct(Clean(line.sellerCode).value)
  }

  /** Some variant is a candidate of the tier. */
  ghost predicate Reached(line: SuggestionLine, catalog: Catalog, priors: seq<Prior>, policy: Policy, tier: Tier,
                          lex: Lexicon) {
    exists x: Candidate :: x.tier == tier && EvidentIn(line, catalog, priors, policy, x, lex)
  }

  /** The variants whose names were compared and that a code or an attribute speaks against. */
  ghost function Refused(line: SuggestionLine, catalog: Catalog, policy: Policy, lex: Lexicon): set<Variant> {
    set v |
      v in catalog.variants && Sold(v, line.companyId) && NamesAlike(line, v, catalog, policy, lex)
      && !Agrees(line, v, lex)
  }

  lemma RowsFound(line: SuggestionLine, catalog: Catalog, seller: string, lex: Lexicon)
    requires Clean(line.sellerCode) == Some(seller)
    ensures ExactRows(catalog.mappings, line, seller) != [] <==> ListedExactly(line, catalog)
    ensures NearRows(catalog.mappings, line, seller, lex) != [] <==> ListedNearly(line, catalog, lex)
  {
    hide Clean;
    var exact, near := ExactRows(catalog.mappings, line, seller), NearRows(catalog.mappings, line, seller, lex);
    assert exact != [] ==> exact[0] in exact;
    assert near != [] ==> near[0] in near;
  }

  lemma RowNotes(line: SuggestionLine, catalog: Catalog, policy: Policy, lex: Lexicon, note: Note)
    ensures var stale := StaleSupplierinfoOf(ContextOf(line, catalog, policy), lex);
      stale.NoRow? ==>
        (note in stale.notes <==>
           || (note == NearMiss && ListedNearly(line, catalog, lex) && !ListedExactly(line, catalog))
           || (note == AmbiguousSupplierinfo && ListedExactly(line, catalog)))
  {
    var c := ContextOf(line, catalog, policy);
    var seller := Clean(line.sellerCode);
    hide Clean, EligibleVariants, PathsOf, SingleVariant;
    if seller.Some? {
      RowsFound(line, catalog, seller.value, lex);
      hide ExactRows, NearRows, ListedExactly, ListedNearly;
    }
  }

  lemma ExactFound(line: SuggestionLine, catalog: Catalog, priors: seq<Prior>, policy: Policy, lex: Lexicon)
    requires UniqueIds(catalog)
    ensures ExactOf(Identifiers(line, lex), EligibleVariants(catalog, line.companyId), lex) == [] <==>
      !Reached(line, catalog, priors, policy, ExactIdentifier, lex)
  {
    var c := ContextOf(line, catalog, policy);
    var exact := ExactOf(Identifiers(line, lex), c.eligible, lex);
    hide EvidentIn, Justified, IdentifierMatch, EligibleVariants, Identifiers, UniqueIds, ExactOf;
    if exact != [] {
      var x := exact[0];
      assert x in exact && SameKey(x, x);
      ExactOfMeaning(Identifiers(line, lex), c.eligible, x, lex);
      ExactTier(c, priors, x, lex);
      JustifiedExactly(line, catalog, priors, policy, x, lex);
    }
    if Reached(line, catalog, priors, policy, ExactIdentifier, lex) {
      var x: Candidate :| x.tier == ExactIdentifier && EvidentIn(line, catalog, priors, policy, x, lex);
      ExactOfMeaning(Identifiers(line, lex), c.eligible, x, lex);
      ExactTier(c, priors, x, lex);
      JustifiedExactly(line, catalog, priors, policy, x, lex);
    }
  }

  predicate Clashes(c: Context, v: Variant, lex: Lexicon) {
    Compared(c, v, lex) && Discriminated(c, v, lex)
  }

  lemma {:induction false} CountClashes(c: Context, eligible: seq<Variant>, lex: Lexicon)
    requires Distinct(eligible)
    ensures RejectedCount(c, eligible, lex) == |ClashesIn(c, eligible, lex)|
  {
    hide ClashesIn;
    if eligible == [] {
      NoClashes(c, lex);
    } else {
      var n := |eligible| - 1;
      CountClashes(c, eligible[..n], lex);
      ClashesStep(c, eligible, lex);
    }
  }

  lemma NoClashes(c: Context, lex: Lexicon)
    ensures ClashesIn(c, [], lex) == {}
  {
  }

  lemma ClashesStep(c: Context, eligible: seq<Variant>, lex: Lexicon)
    requires eligible != [] && Distinct(eligible)
    ensures var n := |eligible| - 1;
      |ClashesIn(c, eligible, lex)| ==
      |ClashesIn(c, eligible[..n], lex)| + if Clashes(c, eligible[n], lex) then 1 else 0
  {
    hide Clashes;
    var n := |eligible| - 1;
    var last, before := eligible[n], eligible[..n];
    assert eligible == before + [last];
    assert last !in before;
    assert ClashesIn(c, eligible, lex) == ClashesIn(c, before, lex) + if Clashes(c, last, lex) then {last} else {};
  }

  function ClashesIn(c: Context, eligible: seq<Variant>, lex: Lexicon): set<Variant> {
    set v | v in eligible && Clashes(c, v, lex)
  }

  lemma EligibleDistinct(catalog: Catalog, companyId: int)
    requires UniqueIds(catalog)
    ensures Distinct(EligibleVariants(catalog, companyId))
  {
    var chosen := (v: Variant) => Eligible(v, companyId);
    FilterDistinct(chosen, catalog.variants);
    SortByMultiset(Filter(chosen, catalog.variants), IdLe);
    SamePermutationDistinct(Filter(chosen, catalog.variants), EligibleVariants(catalog, companyId));
  }

  lemma {:induction false} FilterDistinct<A(!new)>(p: A -> bool, xs: seq<A>)
    requires Distinct(xs)
    ensures Distinct(Filter(p, xs))
  {
    if xs != [] {
      FilterDistinct(p, xs[1..]);
      assert xs[0] !in xs[1..];
    }
  }

  lemma {:induction false} SamePermutationDistinct<A(!new)>(xs: seq<A>, ys: seq<A>)
    requires multiset(xs) == multiset(ys) && Distinct(xs)
    ensures Distinct(ys)
  {
    forall i, j | 0 <= i < j < |ys|
      ensures ys[i] != ys[j]
    {
      if ys[i] == ys[j] {
        assert ys == ys[..i] + [ys[i]] + ys[i + 1..j] + [ys[j]] + ys[j + 1..];
        assert multiset(xs)[ys[i]] >= 2;
        DistinctOnce(xs, ys[i]);
      }
    }
  }

  lemma {:induction false} DistinctOnce<A(!new)>(xs: seq<A>, x: A)
    requires Distinct(xs)
    ensures multiset(xs)[x] <= 1
  {
    if xs != [] {
      var n := |xs| - 1;
      DistinctOnce(xs[..n], x);
      assert xs == xs[..n] + [xs[n]];
      assert x == xs[n] ==> x !in xs[..n];
    }
  }

  lemma RefusedCounted(line: SuggestionLine, catalog: Catalog, policy: Policy, lex: Lexicon)
    requires UniqueIds(catalog)
    ensures var c := ContextOf(line, catalog, policy);
      |Refused(line, catalog, policy, lex)| ==
      if SimilarityRuns(c, lex) then RejectedCount(c, c.eligible, lex) else 0
  {
    var c := ContextOf(line, catalog, policy);
    forall v: Variant
      ensures v in c.eligible <==> v in catalog.variants && Sold(v, line.companyId)
      ensures SimilarityRuns(c, lex) && Compared(c, v, lex) <==> NamesAlike(line, v, catalog, policy, lex)
      ensures Discriminated(c, v, lex) <==> !Agrees(line, v, lex)
    {
      EligibleMeaning(catalog, line.companyId, v);
      NamesMeaning(line, catalog, policy, v, lex);
      AgreesMeaning(c, v, lex);
    }
    EligibleDistinct(catalog, line.companyId);
    CountClashes(c, c.eligible, lex);
    hide Sold, EligibleVariants, NamesAlike, Agrees, Compared, Discriminated, SimilarityRuns, UniqueIds, RejectedCount;
    if SimilarityRuns(c, lex) {
      assert Refused(line, catalog, policy, lex) == ClashesIn(c, c.eligible, lex);
    } else {
      assert Refused(line, catalog, policy, lex) == {};
    }
  }

  /** The description is set and names may not be compared for the line. */
  predicate ExactCodesOnly(line: SuggestionLine, policy: Policy, lex: Lexicon) {
    && line.description.Some? && line.description.value != ""
    && (|| (line.supplierId.Some? && line.supplierId.value in policy.manualSuppliers)
        || lex.skuTokens(line.description.value) != []
        || (Clean(line.sellerCode).Some? && lex.skuShaped(Clean(line.sellerCode).value)))
  }

  ghost predicate CspProductFound(line: SuggestionLine, catalog: Catalog, lex: Lexicon) {
    exists v :: v in catalog.variants && Sold(v, line.companyId) && SameCspProduct(line, v, lex)
  }

  ghost predicate CspAmong(line: SuggestionLine, eligible: seq<Variant>, lex: Lexicon) {
    exists i :: 0 <= i < |eligible| && SameCspProduct(line, eligible[i], lex)
  }

  lemma CspNotesAre(c: Context, found: seq<Candidate>, lex: Lexicon)
    ensures CspNotes(c, found, lex) == if found == [] && CspAmong(c.line, c.eligible, lex) then [CspProductOnly] else []
  {
    hide Clean, Strip;
    if CspAmong(c.line, c.eligible, lex) {
      var i :| 0 <= i < |c.eligible| && SameCspProduct(c.line, c.eligible[i], lex);
      assert NonEmpty(c.eligible[i].defaultCode);
    }
  }

  lemma CspMeaning(line: SuggestionLine, catalog: Catalog, lex: Lexicon)
    ensures CspAmong(line, EligibleVariants(catalog, line.companyId), lex) <==> CspProductFound(line, catalog, lex)
  {
    var eligible := EligibleVariants(catalog, line.companyId);
    hide Sold, SameCspProduct, EligibleVariants;
    if i :| 0 <= i < |eligible| && SameCspProduct(line, eligible[i], lex) {
      EligibleMeaning(catalog, line.companyId, eligible[i]);
    }
    if v :| v in catalog.variants && Sold(v, line.companyId) && SameCspProduct(line, v, lex) {
      EligibleMeaning(catalog, line.companyId, v);
      var i :| 0 <= i < |eligible| && eligible[i] == v;
    }
  }

  lemma ExactCodesMeaning(line: SuggestionLine, catalog: Catalog, policy: Policy, lex: Lexicon)
    ensures ExactCodesOnly(line, policy, lex) <==>
      NonEmpty(line.description) && IsVariantCatalogLine(ContextOf(line, catalog, policy), lex)
  {
    hide Clean, EligibleVariants, PathsOf;
  }

  lemma SimilarityMeaning(line: SuggestionLine, catalog: Catalog, policy: Policy, lex: Lexicon)
    requires UniqueIds(catalog)
    ensures var refused := |Refused(line, catalog, policy, lex)|;
      SimilarityNotes(ContextOf(line, catalog, policy), lex) ==
      if ExactCodesOnly(line, policy, lex) then [VariantCatalog] else if refused > 0 then [Rejected(refused)] else []
    ensures ExactCodesOnly(line, policy, lex) ==> Refused(line, catalog, policy, lex) == {}
  {
    ExactCodesMeaning(line, catalog, policy, lex);
    RefusedCounted(line, catalog, policy, lex);
    var c := ContextOf(line, catalog, policy);
    hide IsVariantCatalogLine, RejectedCount, UniqueIds, ContextOf, ExactCodesOnly, Refused;
  }

  /** When each note is warranted: the supplier's row has only a similar code, or is not decisive; the CSP product
      matched but not the SKU; names may not be compared; so many compared names were refused; so many products
      qualified for a shorter list. */
  ghost predicate Warranted(line: SuggestionLine, catalog: Catalog, priors: seq<Prior>, policy: Policy, lex: Lexicon,
                            note: Note) {
    match note
    case NearMiss => ListedNearly(line, catalog, lex) && !ListedExactly(line, catalog)
    case AmbiguousSupplierinfo => ListedExactly(line, catalog)
    case CspProductOnly =>
      !Reached(line, catalog, priors, policy, ExactIdentifier, lex) && CspProductFound(line, catalog, lex)
    case VariantCatalog => ExactCodesOnly(line, policy, lex)
    case Rejected(n) => n == |Refused(line, catalog, policy, lex)| > 0
    case Truncated(n) =>
      n == |Everything(Found(ContextOf(line, catalog, policy), priors, lex), policy.tieMargin)| > policy.maxSuggestions
  }

  function CutNotes(total: nat, max: nat): seq<Note> {
    if total > max then [Truncated(total)] else []
  }

  lemma NotesAre(c: Context, fingerprint: string, priors: seq<Prior>, lex: Lexicon)
    requires StaleSupplierinfoOf(c, lex).NoRow?
    ensures SuggestIn(c, fingerprint, priors, lex).notes ==
      StaleSupplierinfoOf(c, lex).notes + CspNotes(c, ExactOf(Identifiers(c.line, lex), c.eligible, lex), lex)
      + SimilarityNotes(c, lex)
      + CutNotes(|Everything(Found(c, priors, lex), c.policy.tieMargin)|, c.policy.maxSuggestions)
  {
    ShortlistIsPrefix(Found(c, priors, lex), c.policy.tieMargin, c.policy.maxSuggestions);
    hide Everything, ExactOf, PriorsOf, SimilarOf, Shortlisted, StaleSupplierinfoOf, CspNotes, SimilarityNotes,
      SimilarityRuns, Identifiers, InOrder, OneEach;
  }

  /** When T0 names nothing, exactly the warranted notes accompany the suggestions. */
  lemma NotesExactly(line: SuggestionLine, catalog: Catalog, fingerprint: string, priors: seq<Prior>, policy: Policy,
                     lex: Lexicon, note: Note)
    requires UniqueIds(catalog)
    requires StaleSupplierinfoOf(ContextOf(line, catalog, policy), lex).NoRow?
    ensures note in SuggestProducts(line, catalog, fingerprint, priors, policy, lex).notes <==>
      Warranted(line, catalog, priors, policy, lex, note)
  {
    var c := ContextOf(line, catalog, policy);
    assert SuggestProducts(line, catalog, fingerprint, priors, policy, lex) == SuggestIn(c, fingerprint, priors, lex);
    var rows, similar := StaleSupplierinfoOf(c, lex).notes, SimilarityNotes(c, lex);
    var csp := CspNotes(c, ExactOf(Identifiers(line, lex), c.eligible, lex), lex);
    var cut := CutNotes(|Everything(Found(c, priors, lex), policy.tieMargin)|, policy.maxSuggestions);
    NotesAre(c, fingerprint, priors, lex);
    InOneOf(note, rows, csp, similar, cut);
    RowNotes(line, catalog, policy, lex, note);
    CspNote(line, catalog, priors, policy, lex, note);
    SimilarityNote(line, catalog, policy, lex, note);
    hide ListedNearly, ListedExactly, Reached, CspProductFound, ExactCodesOnly, Refused, Everything, ExactOf, Found,
      StaleSupplierinfoOf, CspNotes, SimilarityNotes, UniqueIds, SuggestIn, ContextOf, SuggestProducts, Identifiers;
    match note
    case NearMiss =>
    case AmbiguousSupplierinfo =>
    case CspProductOnly =>
    case VariantCatalog =>
    case Rejected(n) =>
    case Truncated(n) =>
  }

  lemma CspNote(line: SuggestionLine, catalog: Catalog, priors: seq<Prior>, policy: Policy, lex: Lexicon, note: Note)
    requires UniqueIds(catalog)
    ensures var c := ContextOf(line, catalog, policy);
      note in CspNotes(c, ExactOf(Identifiers(line, lex), c.eligible, lex), lex) <==>
      && note == CspProductOnly && !Reached(line, catalog, priors, policy, ExactIdentifier, lex)
      && CspProductFound(line, catalog, lex)
  {
    var c := ContextOf(line, catalog, policy);
    CspNotesAre(c, ExactOf(Identifiers(line, lex), c.eligible, lex), lex);
    CspMeaning(line, catalog, lex);
    ExactFound(line, catalog, priors, policy, lex);
    hide Reached, CspProductFound, CspAmong, ExactOf, CspNotes, UniqueIds, Identifiers, EligibleVariants, PathsOf;
  }

  lemma SimilarityNote(line: SuggestionLine, catalog: Catalog, policy: Policy, lex: Lexicon, note: Note)
    requires UniqueIds(catalog)
    ensures note in SimilarityNotes(ContextOf(line, catalog, policy), lex) <==>
      || (note == VariantCatalog && ExactCodesOnly(line, policy, lex))
      || (note.Rejected? && note.count == |Refused(line, catalog, policy, lex)| > 0)
  {
    SimilarityMeaning(line, catalog, policy, lex);
    hide ExactCodesOnly, Refused, SimilarityNotes, UniqueIds, ContextOf;
  }

  lemma InOneOf(note: Note, a: seq<Note>, b: seq<Note>, c: seq<Note>, d: seq<Note>)
    ensures note in a + b + c + d <==> note in a || note in b || note in c || note in d
  {
  }
}
