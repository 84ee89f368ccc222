/** The pure advisory engine (`suggest_products` in `app/advisory/product_suggestions.py`) over immutable snapshots.
    Text processing is a parameter; every theorem holds for every choice of it. */
module SuggestionEngine {
  import opened Core
  import opened Sorting
  import opened Ranking
  import opened AttributeGuard

  datatype Variant = Variant(
    productId: int,
    templateId: int,
    name: string,
    defaultCode: Option<string>,
    active: bool,
    purchaseOk: bool,
    categoryId: Option<int>,
    companyId: Option<int>)

  datatype SupplierRow = SupplierRow(
    id: int, partnerId: int, code: Option<string>, templateId: int, productId: Option<int>, companyId: Option<int>)

  datatype Catalog = Catalog(variants: seq<Variant>, mappings: seq<SupplierRow>, categories: seq<(int, string)>)

  datatype Prior = Prior(supplierId: int, productId: int, sellerCode: Option<string>, description: Option<string>,
                         source: string)

  datatype SuggestionLine = SuggestionLine(
    reviewId: string,
    companyId: int,
    version: int,
    lineNumber: string,
    supplierId: Option<int>,
    sellerCode: Option<string>,
    description: Option<string>,
    manufacturerCode: Option<string>)

  datatype Policy = Policy(
    manualSuppliers: set<int>, manualCategories: set<int>, threshold: real, tieMargin: real, maxSuggestions: nat)

  /** The regular expressions, normalization and similarity the engine treats as given. */
  datatype Lexicon = Lexicon(
    codeKey: string -> string,
    cspProduct: string -> Option<string>,
    skuShaped: string -> bool,
    skuTokens: string -> seq<string>,
    normalize: string -> string,
    meaningful: string -> bool,
    shared: (string, string) -> seq<string>,
    lineAttributes: string -> Discriminators,
    nameAttributes: string -> Discriminators,
    similarity: (string, string) -> real)

  datatype Note =
    NearMiss | AmbiguousSupplierinfo | CspProductOnly | VariantCatalog | Rejected(count: nat) | Truncated(count: nat)

  datatype Result = Result(
    reviewId: string,
    lineNumber: string,
    version: int,
    fingerprint: string,
    suggestions: seq<Ranked>,
    reclassify: bool,
    ambiguous: bool,
    notes: seq<Note>)

  // ----- the context

  predicate Eligible(v: Variant, companyId: int) {
    v.active && v.purchaseOk && (v.companyId.None? || v.companyId.value == companyId)
  }

  predicate IdLe(a: Variant, b: Variant) {
    a.productId <= b.productId
  }

  function EligibleVariants(catalog: Catalog, companyId: int): seq<Variant> {
    SortBy(Filter((v: Variant) => Eligible(v, companyId), catalog.variants), IdLe)
  }

  /** `eligible` sorted by product id, the supplier rows as read and the category paths as a dictionary. */
  datatype Context = Context(line: SuggestionLine, policy: Policy, eligible: seq<Variant>, rows: seq<SupplierRow>,
                             paths: map<int, string>)

  function PathsOf(categories: seq<(int, string)>): map<int, string> {
    if categories == [] then map[]
    else var n := |categories| - 1; PathsOf(categories[..n])[categories[n].0 := categories[n].1]
  }

  function ContextOf(line: SuggestionLine, catalog: Catalog, policy: Policy): Context {
    Context(line, policy, EligibleVariants(catalog, line.companyId), catalog.mappings, PathsOf(catalog.categories))
  }

  /** `by_id`: the last eligible variant of an id. */
  function ById(eligible: seq<Variant>, id: int): Option<Variant> {
    if eligible == [] then None
    else
      var last := eligible[|eligible| - 1];
      if last.productId == id then Some(last) else ById(eligible[..|eligible| - 1], id)
  }

  function OfTemplate(eligible: seq<Variant>, templateId: int): seq<Variant> {
    Filter((v: Variant) => v.templateId == templateId, eligible)
  }

  predicate NonEmpty(s: Option<string>) {
    s.Some? && s.value != ""
  }

  predicate IsVariantCatalogLine(c: Context, lex: Lexicon) {
    || (c.line.supplierId.Some? && c.line.supplierId.value in c.policy.manualSuppliers)
    || (NonEmpty(c.line.description) && lex.skuTokens(c.line.description.value) != [])
    || (Clean(c.line.sellerCode).Some? && lex.skuShaped(Clean(c.line.sellerCode).value))
  }

  predicate ConflictsWith(identifier: Option<string>, code: string, lex: Lexicon) {
    && identifier.Some? && lex.codeKey(identifier.value) != lex.codeKey(code)
    && ((lex.cspProduct(identifier.value).Some? && lex.cspProduct(code).Some?)
        || (lex.skuShaped(identifier.value) && lex.skuShaped(code)))
  }

  predicate IdentifierConflict(c: Context, v: Variant, lex: Lexicon) {
    && Clean(v.defaultCode).Some?
    && (ConflictsWith(Clean(c.line.sellerCode), Clean(v.defaultCode).value, lex)
        || ConflictsWith(Clean(c.line.manufacturerCode), Clean(v.defaultCode).value, lex))
  }

  /** `_conflicts`: the line's description and the product's name state a discriminator differently. */
  predicate Conflicts(c: Context, v: Variant, lex: Lexicon) {
    AttributeConflict(lex.lineAttributes(Text(c.line.description)), lex.nameAttributes(v.name))
  }

  predicate IsVariantCatalogCandidate(c: Context, v: Variant, lex: Lexicon) {
    || (NonEmpty(v.defaultCode) && lex.skuShaped(Strip(v.defaultCode.value)))
    || (v.categoryId.Some? && v.categoryId.value in c.policy.manualCategories)
    || (v.categoryId.Some? && v.categoryId.value in c.paths && UnderManualRoot(c, c.paths[v.categoryId.value]))
  }

  predicate UnderManualRoot(c: Context, path: string) {
    exists root :: root in c.policy.manualCategories && root in c.paths && c.paths[root] + " / " <= path
  }

  // ----- tiers

  datatype Stale = NoRow(notes: seq<Note>) | Names(productId: int, reasons: seq<string>)

  predicate SupplierRowFor(row: SupplierRow, line: SuggestionLine) {
    && line.supplierId == Some(row.partnerId) && row.code.Some?
    && (row.companyId.None? || row.companyId.value == line.companyId)
  }

  predicate ExactRowFor(row: SupplierRow, line: SuggestionLine, seller: string) {
    SupplierRowFor(row, line) && row.code == Some(seller)
  }

  predicate NearRowFor(row: SupplierRow, line: SuggestionLine, seller: string, lex: Lexicon) {
    SupplierRowFor(row, line) && lex.codeKey(row.code.value) == lex.codeKey(seller)
  }

  function ExactRows(rows: seq<SupplierRow>, line: SuggestionLine, seller: string): seq<SupplierRow> {
    Filter((row: SupplierRow) => ExactRowFor(row, line, seller), rows)
  }

  function NearRows(rows: seq<SupplierRow>, line: SuggestionLine, seller: string, lex: Lexicon): seq<SupplierRow> {
    Filter((row: SupplierRow) => NearRowFor(row, line, seller, lex), rows)
  }

  function SingleVariant(c: Context, row: SupplierRow): Option<Variant> {
    if row.productId.Some? then
      var v := ById(c.eligible, row.productId.value);
      if v.Some? && v.value.templateId == row.templateId then v else None
    else
      var vs := OfTemplate(c.eligible, row.templateId);
      if |vs| == 1 then Some(vs[0]) else None
  }

  /** `_stale_supplierinfo`. */
  function StaleSupplierinfoOf(c: Context, lex: Lexicon): Stale {
    var seller := Clean(c.line.sellerCode);
    if seller.None? || c.line.supplierId.None? then NoRow([])
    else
      var rows := ExactRows(c.rows, c.line, seller.value);
      if rows == [] then
        NoRow(if NearRows(c.rows, c.line, seller.value, lex) != [] then [NearMiss] else [])
      else
        var v := if |rows| == 1 then SingleVariant(c, rows[0]) else None;
        if v.None? then NoRow([AmbiguousSupplierinfo]) else Names(v.value.productId, [seller.value])
  }

  function Identifiers(line: SuggestionLine, lex: Lexicon): seq<(string, string)> {
    var manufacturer, seller := Clean(line.manufacturerCode), Clean(line.sellerCode);
    (if manufacturer.Some? then [("manufacturer", manufacturer.value)] else [])
    + (if seller.Some? && (lex.cspProduct(seller.value).Some? || lex.skuShaped(seller.value))
       then [("seller", seller.value)]
       else [])
    + (if NonEmpty(line.description) then Map((t: string) => ("description", t), lex.skuTokens(line.description.value))
       else [])
  }

  function ExactFor(basis: string, identifier: string, eligible: seq<Variant>, lex: Lexicon): seq<Candidate> {
    if eligible == [] then []
    else
      var n := |eligible| - 1;
      ExactFor(basis, identifier, eligible[..n], lex)
      + (if NonEmpty(eligible[n].defaultCode) && lex.codeKey(eligible[n].defaultCode.value) == lex.codeKey(identifier)
         then [Candidate(eligible[n].productId, ExactIdentifier, 1.0, [basis, identifier])] else [])
  }

  function ExactOf(identifiers: seq<(string, string)>, eligible: seq<Variant>, lex: Lexicon): seq<Candidate> {
    if identifiers == [] then []
    else
      var n := |identifiers| - 1;
      ExactOf(identifiers[..n], eligible, lex) + ExactFor(identifiers[n].0, identifiers[n].1, eligible, lex)
  }

  function CspNotes(c: Context, found: seq<Candidate>, lex: Lexicon): seq<Note> {
    var seller := Clean(c.line.sellerCode);
    if found == [] && seller.Some? && lex.cspProduct(seller.value).Some?
       && exists i :: 0 <= i < |c.eligible| && NonEmpty(c.eligible[i].defaultCode)
            && lex.cspProduct(Strip(c.eligible[i].defaultCode.value)) == lex.cspProduct(seller.value)
    then [CspProductOnly] else []
  }

  predicate PriorLe(a: Prior, b: Prior) {
    a.productId < b.productId || (a.productId == b.productId && StringLe(a.source, b.source))
  }

  function Text(s: Option<string>): string {
    if s.Some? then s.value else ""
  }

  function PriorCandidate(c: Context, prior: Prior, lex: Lexicon): seq<Candidate> {
    var seller, priorSeller := Clean(c.line.sellerCode), Clean(prior.sellerCode);
    var v := ById(c.eligible, prior.productId);
    var sameCode := seller.Some? && priorSeller.Some? && lex.codeKey(seller.value) == lex.codeKey(priorSeller.value);
    var description := lex.normalize(Text(c.line.description));
    var sameDescription := description != "" && description == lex.normalize(Text(prior.description));
    if c.line.supplierId != Some(prior.supplierId) || v.None? || !(sameCode || sameDescription)
       || IdentifierConflict(c, v.value, lex) || Conflicts(c, v.value, lex)
    then []
    else [Candidate(v.value.productId, PriorMapping, 0.9, [if sameCode then "code" else "description", prior.source])]
  }

  function PriorsOf(c: Context, priors: seq<Prior>, lex: Lexicon): seq<Candidate> {
    if priors == [] then []
    else var n := |priors| - 1; PriorsOf(c, priors[..n], lex) + PriorCandidate(c, priors[n], lex)
  }

  predicate Compared(c: Context, v: Variant, lex: Lexicon) {
    !IsVariantCatalogCandidate(c, v, lex) && lex.shared(Text(c.line.description), v.name) != []
  }

  predicate Discriminated(c: Context, v: Variant, lex: Lexicon) {
    IdentifierConflict(c, v, lex) || Conflicts(c, v, lex)
  }

  function SimilarOf(c: Context, eligible: seq<Variant>, lex: Lexicon): seq<Candidate> {
    if eligible == [] then []
    else
      var n := |eligible| - 1;
      var v, description := eligible[n], Text(c.line.description);
      var score := lex.similarity(description, v.name);
      SimilarOf(c, eligible[..n], lex)
      + (if Compared(c, v, lex) && !Discriminated(c, v, lex) && score >= c.policy.threshold
         then [Candidate(v.productId, NameSimilarity, score, lex.shared(description, v.name))] else [])
  }

  function RejectedCount(c: Context, eligible: seq<Variant>, lex: Lexicon): nat {
    if eligible == [] then 0
    else
      var n := |eligible| - 1;
      RejectedCount(c, eligible[..n], lex) + (if Compared(c, eligible[n], lex) && Discriminated(c, eligible[n], lex)
                                              then 1
                                              else 0)
  }

  predicate SimilarityRuns(c: Context, lex: Lexicon) {
    NonEmpty(c.line.description) && !IsVariantCatalogLine(c, lex) && lex.meaningful(c.line.description.value)
  }

  function SimilarityNotes(c: Context, lex: Lexicon): seq<Note> {
    if NonEmpty(c.line.description) && IsVariantCatalogLine(c, lex) then [VariantCatalog]
    else if SimilarityRuns(c, lex) && RejectedCount(c, c.eligible, lex) > 0
    then [Rejected(RejectedCount(c, c.eligible, lex))]
    else []
  }

  // ----- the engine

  /** Everything after the catalog has been turned into a context. */
  function SuggestIn(c: Context, fingerprint: string, priors: seq<Prior>, lex: Lexicon): Result {
    var line := c.line;
    match StaleSupplierinfoOf(c, lex)
    case Names(productId, reasons) =>
      Result(line.reviewId, line.lineNumber, line.version, fingerprint,
             [Ranked(1, Candidate(productId, StaleSupplierinfo, 1.0, reasons), false)], true, false, [])
    case NoRow(notes) =>
      var exact := ExactOf(Identifiers(line, lex), c.eligible, lex);
      var prior := if line.supplierId.None? then [] else PriorsOf(c, SortBy(priors, PriorLe), lex);
      var similar := if SimilarityRuns(c, lex) then SimilarOf(c, c.eligible, lex) else [];
      var short := Shortlisted(exact + prior + similar, c.policy.tieMargin, c.policy.maxSuggestions);
      Result(line.reviewId, line.lineNumber, line.version, fingerprint, short.suggestions, false, short.ambiguous,
             notes + CspNotes(c, exact, lex) + SimilarityNotes(c, lex)
             + (if short.total > c.policy.maxSuggestions then [Truncated(short.total)] else []))
  }

  function SuggestProducts(line: SuggestionLine, catalog: Catalog, fingerprint: string, priors: seq<Prior>,
                           policy: Policy,
                           lex: Lexicon): Result {
    SuggestIn(ContextOf(line, catalog, policy), fingerprint, priors, lex)
  }

  // ----- permutation invariance

  predicate UniqueIds(catalog: Catalog) {
    && (forall i, j :: 0 <= i < j < |catalog.variants| ==>
          catalog.variants[i].productId != catalog.variants[j].productId)
    && (forall i, j :: 0 <= i < j < |catalog.categories| ==> catalog.categories[i].0 != catalog.categories[j].0)
  }

  /** The same rows in any order. */
  ghost predicate Permuted(a: Catalog, b: Catalog) {
    && multiset(a.variants) == multiset(b.variants)
    && multiset(a.mappings) == multiset(b.mappings)
    && multiset(a.categories) == multiset(b.categories)
  }

  lemma IdOrder()
    ensures TotalPreorder(IdLe)
  {
  }

  lemma SameIdSameVariant(xs: seq<Variant>, ys: seq<Variant>)
    requires forall i, j :: 0 <= i < j < |xs| ==> xs[i].productId != xs[j].productId
    requires forall y :: y in ys ==> y in xs
    ensures Antisymmetric(ys, IdLe)
  {
    forall i, j | 0 <= i < |ys| && 0 <= j < |ys| && IdLe(ys[i], ys[j]) && IdLe(ys[j], ys[i])
      ensures ys[i] == ys[j]
    {
      assert ys[i] in ys && ys[j] in ys;
      var k :| 0 <= k < |xs| && xs[k] == ys[i];
      var l :| 0 <= l < |xs| && xs[l] == ys[j];
      assert k == l;
    }
  }

  lemma PermutedEligible(a: Catalog, b: Catalog, companyId: int)
    requires UniqueIds(a) && Permuted(a, b)
    ensures EligibleVariants(a, companyId) == EligibleVariants(b, companyId)
  {
    var p := (v: Variant) => Eligible(v, companyId);
    FilterPermutation(p, a.variants, b.variants);
    IdOrder();
    SameIdSameVariant(a.variants, Filter(p, a.variants));
    SortByForgetsOrder(Filter(p, a.variants), Filter(p, b.variants), IdLe);
  }

  lemma {:induction false} PathsMeaning(categories: seq<(int, string)>)
    requires forall i, j :: 0 <= i < j < |categories| ==> categories[i].0 != categories[j].0
    ensures forall id, path :: (id, path) in categories <==>
      id in PathsOf(categories) && PathsOf(categories)[id] == path
  {
    if categories != [] {
      var n := |categories| - 1;
      PathsMeaning(categories[..n]);
      assert categories == categories[..n] + [categories[n]];
    }
  }

  lemma PermutedPaths(a: seq<(int, string)>, b: seq<(int, string)>)
    requires forall i, j :: 0 <= i < j < |a| ==> a[i].0 != a[j].0
    requires forall i, j :: 0 <= i < j < |b| ==> b[i].0 != b[j].0
    requires multiset(a) == multiset(b)
    ensures PathsOf(a) == PathsOf(b)
  {
    PathsMeaning(a);
    PathsMeaning(b);
    forall id, path
      ensures (id, path) in a <==> (id, path) in b
    {
      assert (id, path) in a <==> (id, path) in multiset(a);
      assert (id, path) in b <==> (id, path) in multiset(b);
    }
    var p, q := PathsOf(a), PathsOf(b);
    forall id | id in p
      ensures id in q && q[id] == p[id]
    {
      assert (id, p[id]) in a;
    }
    forall id | id in q
      ensures id in p
    {
      assert (id, q[id]) in b;
    }
  }

  lemma SameSingle<T(!new)>(xs: seq<T>, ys: seq<T>)
    requires multiset(xs) == multiset(ys)
    ensures |xs| == |ys| && (|xs| == 1 ==> xs == ys)
  {
    assert |xs| == |multiset(xs)| == |multiset(ys)| == |ys|;
    if |xs| == 1 {
      assert xs[0] in multiset(ys);
    }
  }

  /** The supplier rows reach the result only through how many match and, when exactly one does, which it is. */
  lemma PermutedStale(c: Context, rows: seq<SupplierRow>, lex: Lexicon)
    requires multiset(c.rows) == multiset(rows)
    ensures StaleSupplierinfoOf(c.(rows := rows), lex) == StaleSupplierinfoOf(c, lex)
  {
    var seller := Clean(c.line.sellerCode);
    if seller.Some? {
      FilterPermutation((row: SupplierRow) => ExactRowFor(row, c.line, seller.value), c.rows, rows);
      FilterPermutation((row: SupplierRow) => NearRowFor(row, c.line, seller.value, lex), c.rows, rows);
      SameSingle(ExactRows(c.rows, c.line, seller.value), ExactRows(rows, c.line, seller.value));
      SameSingle(NearRows(c.rows, c.line, seller.value, lex), NearRows(rows, c.line, seller.value, lex));
    }
    hide ExactRows, NearRows, ById, OfTemplate;
  }

  /** The engine never depends on the order in which Odoo returned variants, supplier rows or categories. */
  lemma EngineIsPermutationInvariant(line: SuggestionLine, a: Catalog, b: Catalog, fingerprint: string,
                                     priors: seq<Prior>,
                                     policy: Policy, lex: Lexicon)
    requires UniqueIds(a) && UniqueIds(b) && Permuted(a, b)
    ensures SuggestProducts(line, a, fingerprint, priors, policy, lex)
         == SuggestProducts(line, b, fingerprint, priors, policy, lex)
  {
    hide EligibleVariants, PathsOf, StaleSupplierinfoOf, ExactOf, PriorsOf, SimilarOf, Shortlisted, SimilarityRuns,
      CspNotes, SimilarityNotes;
    PermutedEligible(a, b, line.companyId);
    PermutedPaths(a.categories, b.categories);
    var c := ContextOf(line, a, policy);
    assert ContextOf(line, b, policy) == c.(rows := b.mappings);
    PermutedStale(c, b.mappings, lex);
    RowsOnlyMatterToStale(c, b.mappings, fingerprint, priors, lex);
  }

  lemma RowsOnlyMatterToStale(c: Context, rows: seq<SupplierRow>, fingerprint: string, priors: seq<Prior>, lex: Lexicon)
    requires StaleSupplierinfoOf(c.(rows := rows), lex) == StaleSupplierinfoOf(c, lex)
    ensures SuggestIn(c.(rows := rows), fingerprint, priors, lex) == SuggestIn(c, fingerprint, priors, lex)
  {
    hide StaleSupplierinfoOf, ExactOf, PriorsOf, SimilarOf, Shortlisted, RejectedCount, IsVariantCatalogLine;
    var d := c.(rows := rows);
    IgnoresRows(c, rows, c.eligible, SortBy(priors, PriorLe), lex);
    assert IsVariantCatalogLine(d, lex) == IsVariantCatalogLine(c, lex) by { LineIgnoresRows(c, rows, lex); }
    assert SimilarityRuns(d, lex) == SimilarityRuns(c, lex);
    assert SimilarityNotes(d, lex) == SimilarityNotes(c, lex);
  }

  lemma LineIgnoresRows(c: Context, rows: seq<SupplierRow>, lex: Lexicon)
    ensures IsVariantCatalogLine(c.(rows := rows), lex) == IsVariantCatalogLine(c, lex)
  {
  }

  lemma IgnoresRows(c: Context, rows: seq<SupplierRow>, eligible: seq<Variant>, priors: seq<Prior>, lex: Lexicon)
    ensures SimilarOf(c.(rows := rows), eligible, lex) == SimilarOf(c, eligible, lex)
    ensures RejectedCount(c.(rows := rows), eligible, lex) == RejectedCount(c, eligible, lex)
    ensures PriorsOf(c.(rows := rows), priors, lex) == PriorsOf(c, priors, lex)
  {
    SimilarIgnoresRows(c, rows, eligible, lex);
    PriorsIgnoreRows(c, rows, priors, lex);
  }

  lemma {:induction false} SimilarIgnoresRows(c: Context, rows: seq<SupplierRow>, eligible: seq<Variant>, lex: Lexicon)
    ensures SimilarOf(c.(rows := rows), eligible, lex) == SimilarOf(c, eligible, lex)
    ensures RejectedCount(c.(rows := rows), eligible, lex) == RejectedCount(c, eligible, lex)
  {
    if eligible != [] {
      var v := eligible[|eligible| - 1];
      assert Compared(c.(rows := rows), v, lex) == Compared(c, v, lex);
      assert Discriminated(c.(rows := rows), v, lex) == Discriminated(c, v, lex);
      hide Compared, Discriminated;
      SimilarIgnoresRows(c, rows, eligible[..|eligible| - 1], lex);
    }
  }

  lemma {:induction false} PriorsIgnoreRows(c: Context, rows: seq<SupplierRow>, priors: seq<Prior>, lex: Lexicon)
    ensures PriorsOf(c.(rows := rows), priors, lex) == PriorsOf(c, priors, lex)
  {
    if priors != [] {
      var prior := priors[|priors| - 1];
      assert PriorCandidate(c.(rows := rows), prior, lex) == PriorCandidate(c, prior, lex);
      hide PriorCandidate;
      PriorsIgnoreRows(c, rows, priors[..|priors| - 1], lex);
    }
  }
}
