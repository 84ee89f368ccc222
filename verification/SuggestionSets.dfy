/** Lifecycle and display rules of persisted suggestion sets (`app/advisory/suggestion_sets.py`), the row transitions
    of their repository (`app/persistence/product_line_suggestion_repository.py`), and what the cache guarantees. */
module SuggestionSets {
  import opened Core
  import opened Sorting
  import opened SuggestionEngine

  /** Instants and durations in microseconds. */
  type Time = int

  const SECOND := 1000000
  const DISPLAY_VALIDITY: Time := 20 * 60 * SECOND
  const DISPLAY_SWEEP_INTERVAL: Time := 60 * SECOND
  const PROJECTION_CUTOFF: Time := DISPLAY_VALIDITY - DISPLAY_SWEEP_INTERVAL
  const ENGINE_VERSION := "f1.3"

  datatype SetStatus = Current | Superseded | Invalidated

  datatype Reason =
    ReviewVersionChanged | LineResolved | ReviewNotPending | InputChanged | CatalogChanged | SupplierinfoChanged
    | EngineChanged

  datatype AdvisoryLine = AdvisoryLine(
    companyId: int,
    reviewId: string,
    reviewVersion: int,
    lineNumber: string,
    lineKey: string,
    supplierId: int,
    sellerCode: Option<string>,
    description: Option<string>,
    manufacturerCode: Option<string>)

  datatype StoredSet = StoredSet(
    companyId: int,
    reviewId: string,
    reviewVersion: int,
    lineNumber: string,
    lineKey: string,
    supplierId: Option<int>,
    sellerCode: Option<string>,
    inputDigest: string,
    catalogFingerprint: string,
    supplierinfoFingerprint: string,
    engineVersion: string,
    status: SetStatus,
    validatedAt: Time,
    syncedAt: Option<Time>,
    result: Result)

  datatype DisplayedLine = DisplayedLine(
    reviewPending: bool,
    reviewVersion: int,
    lineKey: string,
    lineNumber: string,
    productNotFound: bool,
    supplierId: Option<int>,
    sellerCode: Option<string>)

  datatype DisplayBlock =
    | NotPendingBlock | VersionMismatch | LineNotProductNotFound | SetNotCurrent | LineIdentityMismatch
    | SupplierMismatch | SellerCodeMismatch | ValidationExpired | NothingToShow

  // ----- lifecycle

  /** Why a current set must be regenerated; `None` keeps it. The digests are parameters. */
  function ReplacementReason(stored: StoredSet, inputDigest: string, catalogFingerprint: string,
                             supplierinfoFingerprint: string): Option<Reason> {
    if stored.engineVersion != ENGINE_VERSION then Some(EngineChanged)
    else if stored.inputDigest != inputDigest then Some(InputChanged)
    else if stored.catalogFingerprint != catalogFingerprint then Some(CatalogChanged)
    else if stored.supplierinfoFingerprint != supplierinfoFingerprint then Some(SupplierinfoChanged)
    else None
  }

  /** Where a set goes that no longer matches a wanted line. */
  function Retirement(stored: StoredSet, pendingVersions: map<string, int>): (r: (SetStatus, Reason))
    ensures r.0 != Current
    ensures r.0 == Superseded <==> r.1 == ReviewVersionChanged
    ensures r.1 == ReviewNotPending <==> stored.reviewId !in pendingVersions
    ensures r.1 == LineResolved <==> (stored.reviewId, stored.reviewVersion) in pendingVersions.Items
  {
    if stored.reviewId !in pendingVersions then (Invalidated, ReviewNotPending)
    else if pendingVersions[stored.reviewId] != stored.reviewVersion then (Superseded, ReviewVersionChanged)
    else (Invalidated, LineResolved)
  }

  // ----- display rules

  predicate IsProjectable(stored: StoredSet, now: Time) {
    now - stored.validatedAt <= PROJECTION_CUTOFF
  }

  predicate IsDisplayable(stored: StoredSet, now: Time) {
    stored.status == Current && now - stored.validatedAt <= DISPLAY_VALIDITY
  }

  /** The projection keeps exactly one sweep interval of margin. */
  lemma ProjectionMargin(stored: StoredSet, now: Time)
    requires stored.status == Current
    ensures IsProjectable(stored, now) <==>
      forall later :: now <= later <= now + DISPLAY_SWEEP_INTERVAL ==> IsDisplayable(stored, later)
  {
    assert IsDisplayable(stored, now + DISPLAY_SWEEP_INTERVAL) ==> IsProjectable(stored, now);
  }

  predicate HasDisplayContent(result: Result) {
    result.suggestions != [] || result.notes != []
  }

  function BlockOf(stored: StoredSet, line: DisplayedLine, now: Time): Option<DisplayBlock> {
    if !line.reviewPending then Some(NotPendingBlock)
    else if stored.reviewVersion != line.reviewVersion then Some(VersionMismatch)
    else if !line.productNotFound then Some(LineNotProductNotFound)
    else if stored.status != Current then Some(SetNotCurrent)
    else if stored.lineKey != line.lineKey || stored.lineNumber != line.lineNumber then Some(LineIdentityMismatch)
    else if line.supplierId.None? || stored.supplierId != line.supplierId then Some(SupplierMismatch)
    else if stored.sellerCode != line.sellerCode then Some(SellerCodeMismatch)
    else if !IsProjectable(stored, now) then Some(ValidationExpired)
    else if !HasDisplayContent(stored.result) then Some(NothingToShow)
    else None
  }

  predicate DisplayCleared(validatedAt: Time, syncedAt: Option<Time>) {
    syncedAt.Some? && syncedAt.value >= validatedAt + PROJECTION_CUTOFF
  }

  predicate NeedsDisplayRefresh(stored: StoredSet, now: Time) {
    stored.syncedAt.None?
    || (stored.status == Current && !IsProjectable(stored, now) && !DisplayCleared(stored.validatedAt, stored.syncedAt))
  }

  // ----- row transitions

  /** `retire`: a compare-and-swap on `current`; a set that may still be shown loses its marker. */
  function Retire(row: StoredSet, status: SetStatus): StoredSet {
    if row.status != Current then row
    else
      var cleared := DisplayCleared(row.validatedAt, row.syncedAt);
      row.(status := status, syncedAt := if cleared then row.syncedAt else None)
  }

  /** `revalidate`: a set already cleared from the display becomes showable again and loses its marker. */
  function Revalidate(row: StoredSet, now: Time): StoredSet {
    if row.status != Current then row
    else
      var cleared := DisplayCleared(row.validatedAt, row.syncedAt);
      row.(validatedAt := now, syncedAt := if cleared then None else row.syncedAt)
  }

  /** The compare of the compare-and-set. */
  predicate SameVersion(row: StoredSet, read: StoredSet) {
    row.status == read.status && row.validatedAt == read.validatedAt
  }

  /** `mark_display_synced`: compare-and-set on the status and validation the sweep read. */
  function Mark(row: StoredSet, read: StoredSet, syncedAt: Time): StoredSet {
    if SameVersion(row, read) then row.(syncedAt := Some(syncedAt)) else row
  }

  function ResetMarker(row: StoredSet): StoredSet {
    if row.status == Current then row.(syncedAt := None) else row
  }

  /** `<=` in the projection gate and `>=` in the cleared rule overlap at exactly one instant: a refresh that starts
      and projects at the moment a set reaches the cutoff both shows the set and records it as cleared. */
  lemma OverlapInstant(row: StoredSet, started: Time, projected: Time)
    requires started <= projected
    ensures IsProjectable(row, projected) && DisplayCleared(row.validatedAt, Some(started))
       <==> started == projected == row.validatedAt + PROJECTION_CUTOFF
  {
  }

  // ----- the cache

  /** JSON encodings and SHA-256, assumed collision free. */
  datatype Digests = Digests(
    variant: Variant -> string,
    category: ((int, string)) -> string,
    supplierRow: SupplierRow -> string,
    rows: (string, seq<seq<string>>) -> string,
    inputs: (int, Option<string>, Option<string>, Option<string>) -> string)

  ghost predicate CollisionFree(d: Digests) {
    && Injective(d.variant) && Injective(d.category) && Injective(d.supplierRow)
    && (forall k, xs, l, ys :: d.rows(k, xs) == d.rows(l, ys) ==> k == l && xs == ys)
    && (forall a, b, c, e, w, x, y, z :: d.inputs(a, b, c, e) == d.inputs(w, x, y, z) ==>
          a == w && b == x && c == y && e == z)
  }

  /** `sorted(json.dumps(row) ...)`. */
  function SortedRows<T>(encode: T -> string, rows: seq<T>): seq<string> {
    SortBy(Map(encode, rows), StringLe)
  }

  function VariantFingerprint(catalog: Catalog, d: Digests): string {
    d.rows("variants", [SortedRows(d.variant, catalog.variants), SortedRows(d.category, catalog.categories)])
  }

  function SupplierinfoFingerprint(catalog: Catalog, d: Digests): string {
    d.rows("supplierinfo", [SortedRows(d.supplierRow, catalog.mappings)])
  }

  function CatalogFingerprint(catalog: Catalog, d: Digests): string {
    d.rows("catalog", [[VariantFingerprint(catalog, d), SupplierinfoFingerprint(catalog, d)]])
  }

  function InputDigest(line: AdvisoryLine, d: Digests): string {
    d.inputs(line.supplierId, line.sellerCode, line.manufacturerCode, line.description)
  }

  function AsSuggestionLine(line: AdvisoryLine): SuggestionLine {
    SuggestionLine(line.reviewId, line.companyId, line.reviewVersion, line.lineNumber, Some(line.supplierId),
                   line.sellerCode, line.description, line.manufacturerCode)
  }

  function EngineResult(line: AdvisoryLine, catalog: Catalog, priors: seq<Prior>, policy: Policy, lex: Lexicon,
                        d: Digests): Result {
    SuggestProducts(AsSuggestionLine(line), catalog, CatalogFingerprint(catalog, d), priors, policy, lex)
  }

  /** The set the advisory tick inserts for a line from one catalog read. */
  function Generate(line: AdvisoryLine, catalog: Catalog, priors: seq<Prior>, policy: Policy, lex: Lexicon, d: Digests,
                    now: Time): StoredSet {
    StoredSet(line.companyId, line.reviewId, line.reviewVersion, line.lineNumber, line.lineKey, Some(line.supplierId),
              line.sellerCode, InputDigest(line, d), VariantFingerprint(catalog, d),
              SupplierinfoFingerprint(catalog, d), ENGINE_VERSION, Current, now, None,
              EngineResult(line, catalog, priors, policy, lex, d))
  }

  function KeptOrReplaced(stored: StoredSet, line: AdvisoryLine, catalog: Catalog, d: Digests): Option<Reason> {
    ReplacementReason(stored, InputDigest(line, d), VariantFingerprint(catalog, d), SupplierinfoFingerprint(catalog, d))
  }

  predicate SameLineVersion(a: AdvisoryLine, b: AdvisoryLine) {
    a.companyId == b.companyId && a.reviewId == b.reviewId && a.reviewVersion == b.reviewVersion
    && a.lineNumber == b.lineNumber
  }

  predicate SameInputs(a: AdvisoryLine, b: AdvisoryLine) {
    && a.supplierId == b.supplierId && a.sellerCode == b.sellerCode
    && a.manufacturerCode == b.manufacturerCode && a.description == b.description
  }

  /** Sorted encodings agree exactly when the rows are permutations. */
  lemma SortedRowsForgetOrder<T(!new)>(encode: T -> string, xs: seq<T>, ys: seq<T>)
    requires Injective(encode)
    ensures SortedRows(encode, xs) == SortedRows(encode, ys) <==> multiset(xs) == multiset(ys)
  {
    StringOrder(Map(encode, xs));
    SortByForgetsOrder(Map(encode, xs), Map(encode, ys), StringLe);
    MapReflectsPermutation(encode, xs, ys);
  }

  /** Both fingerprints agree exactly when the catalogs hold the same rows in any order. */
  lemma FingerprintsMeaning(a: Catalog, b: Catalog, d: Digests)
    requires CollisionFree(d)
    ensures (VariantFingerprint(a, d) == VariantFingerprint(b, d)
             && SupplierinfoFingerprint(a, d) == SupplierinfoFingerprint(b, d)) <==> Permuted(a, b)
  {
    hide SortedRows;
    SortedRowsForgetOrder(d.variant, a.variants, b.variants);
    SortedRowsForgetOrder(d.category, a.categories, b.categories);
    SortedRowsForgetOrder(d.supplierRow, a.mappings, b.mappings);
    var x := [SortedRows(d.variant, a.variants), SortedRows(d.category, a.categories)];
    var y := [SortedRows(d.variant, b.variants), SortedRows(d.category, b.categories)];
    var u, v := [SortedRows(d.supplierRow, a.mappings)], [SortedRows(d.supplierRow, b.mappings)];
    assert x == y <==> x[0] == y[0] && x[1] == y[1];
    assert u == v <==> u[0] == v[0];
  }

  /** A generated set is kept exactly when the line's inputs are unchanged and the catalog read now holds the rows it
      was generated from. */
  lemma KeptExactlyWhenUnchanged(line: AdvisoryLine, earlier: Catalog, now: AdvisoryLine, catalog: Catalog,
                                 priors: seq<Prior>,
                                 policy: Policy, lex: Lexicon, d: Digests, at: Time)
    requires CollisionFree(d)
    ensures KeptOrReplaced(Generate(line, earlier, priors, policy, lex, d, at), now, catalog, d) == None
       <==> SameInputs(line, now) && Permuted(earlier, catalog)
  {
    hide VariantFingerprint, SupplierinfoFingerprint, EngineResult;
    FingerprintsMeaning(earlier, catalog, d);
  }

  /** Cache agreement: whenever a set is kept, running the engine again would give the identical result. */
  lemma CacheAgreement(line: AdvisoryLine, earlier: Catalog, now: AdvisoryLine, catalog: Catalog, priors: seq<Prior>,
                       policy: Policy, lex: Lexicon, d: Digests, at: Time)
    requires CollisionFree(d) && UniqueIds(earlier) && UniqueIds(catalog) && SameLineVersion(line, now)
    requires KeptOrReplaced(Generate(line, earlier, priors, policy, lex, d, at), now, catalog, d) == None
    ensures EngineResult(now, catalog, priors, policy, lex, d)
         == Generate(line, earlier, priors, policy, lex, d, at).result
  {
    hide KeptOrReplaced, VariantFingerprint, SupplierinfoFingerprint, SuggestProducts, UniqueIds;
    KeptExactlyWhenUnchanged(line, earlier, now, catalog, priors, policy, lex, d, at);
    FingerprintsMeaning(earlier, catalog, d);
    assert AsSuggestionLine(line) == AsSuggestionLine(now);
    EngineIsPermutationInvariant(AsSuggestionLine(now), earlier, catalog, CatalogFingerprint(earlier, d), priors,
                                 policy, lex);
  }
}
