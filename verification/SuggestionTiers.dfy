/** The tier loops of the advisory engine (`app/advisory/product_suggestions.py`), each against its specification. */
module SuggestionTiers {
  import opened Core
  import opened Sorting
  import opened Ranking
  import opened SuggestionEngine

  /** The inner loop of `_exact_identifiers`: the variants whose Internal Reference equals one identifier. */
  method ExactMatches(basis: string, identifier: string, eligible: seq<Variant>, lex: Lexicon)
    returns (found: seq<Candidate>)
    ensures found == ExactFor(basis, identifier, eligible, lex)
  {
    found := [];
    for j := 0 to |eligible|
      invariant found == ExactFor(basis, identifier, eligible[..j], lex)
    {
      assert eligible[..j + 1][..j] == eligible[..j];
      var code := eligible[j].defaultCode;
      if NonEmpty(code) && lex.codeKey(code.value) == lex.codeKey(identifier) {
        found := found + [Candidate(eligible[j].productId, ExactIdentifier, 1.0, [basis, identifier])];
      }
    }
    assert eligible[..|eligible|] == eligible;
  }

  /** `_exact_identifiers`. */
  method ExactIdentifiers(c: Context, lex: Lexicon) returns (found: seq<Candidate>, notes: seq<Note>)
    ensures found == ExactOf(Identifiers(c.line, lex), c.eligible, lex)
    ensures notes == CspNotes(c, found, lex)
  {
    var ids := Identifiers(c.line, lex);
    hide Identifiers, ExactFor, CspNotes;
    found := [];
    for i := 0 to |ids|
      invariant found == ExactOf(ids[..i], c.eligible, lex)
    {
      assert ids[..i + 1][..i] == ids[..i];
      var more := ExactMatches(ids[i].0, ids[i].1, c.eligible, lex);
      found := found + more;
    }
    assert ids[..|ids|] == ids;
    notes := CspNotes(c, found, lex);
  }

  /** `_prior_mappings`. */
  method PriorMappings(c: Context, priors: seq<Prior>, lex: Lexicon) returns (found: seq<Candidate>)
    ensures found == if c.line.supplierId.None? then [] else PriorsOf(c, SortBy(priors, PriorLe), lex)
  {
    if c.line.supplierId.None? {
      return [];
    }
    var sorted := SortBy(priors, PriorLe);
    hide SortBy, IdentifierConflict, ById, Conflicts;
    found := [];
    for i := 0 to |sorted|
      invariant found == PriorsOf(c, sorted[..i], lex)
    {
      assert sorted[..i + 1][..i] == sorted[..i];
      var prior := sorted[i];
      if c.line.supplierId != Some(prior.supplierId) {
        continue;
      }
      var v := ById(c.eligible, prior.productId);
      if v.None? {
        continue;
      }
      var seller, priorSeller := Clean(c.line.sellerCode), Clean(prior.sellerCode);
      var description := lex.normalize(Text(c.line.description));
      var sameCode := seller.Some? && priorSeller.Some? && lex.codeKey(seller.value) == lex.codeKey(priorSeller.value);
      var sameDescription := description != "" && description == lex.normalize(Text(prior.description));
      if !(sameCode || sameDescription) {
        continue;
      }
      if IdentifierConflict(c, v.value, lex) || Conflicts(c, v.value, lex) {
        continue;
      }
      var basis := if sameCode then "code" else "description";
      found := found + [Candidate(v.value.productId, PriorMapping, 0.9, [basis, prior.source])];
    }
    assert sorted[..|sorted|] == sorted;
  }

  /** `_name_similarity`. */
  method NameSimilarities(c: Context, lex: Lexicon) returns (found: seq<Candidate>, notes: seq<Note>)
    ensures found == if SimilarityRuns(c, lex) then SimilarOf(c, c.eligible, lex) else []
    ensures notes == SimilarityNotes(c, lex)
  {
    hide IsVariantCatalogLine, IsVariantCatalogCandidate, IdentifierConflict, Conflicts;
    found, notes := [], [];
    if !NonEmpty(c.line.description) {
      return;
    }
    if IsVariantCatalogLine(c, lex) {
      return [], [VariantCatalog];
    }
    if !lex.meaningful(c.line.description.value) {
      return;
    }
    var eligible, description, rejected := c.eligible, Text(c.line.description), 0;
    for i := 0 to |eligible|
      invariant found == SimilarOf(c, eligible[..i], lex)
      invariant rejected == RejectedCount(c, eligible[..i], lex)
    {
      assert eligible[..i + 1][..i] == eligible[..i];
      var v := eligible[i];
      if IsVariantCatalogCandidate(c, v, lex) || lex.shared(description, v.name) == [] {
        continue;
      }
      if IdentifierConflict(c, v, lex) || Conflicts(c, v, lex) {
        rejected := rejected + 1;
        continue;
      }
      var score := lex.similarity(description, v.name);
      if score < c.policy.threshold {
        continue;
      }
      found := found + [Candidate(v.productId, NameSimilarity, score, lex.shared(description, v.name))];
    }
    assert eligible[..|eligible|] == eligible;
    if rejected > 0 {
      notes := [Rejected(rejected)];
    }
  }

  /** `suggest_products`. */
  method Suggest(line: SuggestionLine, catalog: Catalog, fingerprint: string, priors: seq<Prior>, policy: Policy,
                 lex: Lexicon)
    returns (r: Result)
    ensures r == SuggestProducts(line, catalog, fingerprint, priors, policy, lex)
  {
    var c := ContextOf(line, catalog, policy);
    var stale := StaleSupplierinfoOf(c, lex);
    hide StaleSupplierinfoOf, Shortlisted, ExactOf, PriorsOf, SimilarOf, CspNotes, SimilarityNotes, SimilarityRuns,
      Identifiers;
    if stale.Names? {
      return Result(line.reviewId, line.lineNumber, line.version, fingerprint,
                    [Ranked(1, Candidate(stale.productId, StaleSupplierinfo, 1.0, stale.reasons), false)],
                    true, false, []);
    }
    var notes := stale.notes;
    var exact, exactNotes := ExactIdentifiers(c, lex);
    var prior := PriorMappings(c, priors, lex);
    var similar, similarNotes := NameSimilarities(c, lex);
    var short := Rank(exact + prior + similar, policy.tieMargin, policy.maxSuggestions);
    notes := notes + exactNotes + similarNotes;
    if short.total > policy.maxSuggestions {
      notes := notes + [Truncated(short.total)];
    }
    return Result(line.reviewId, line.lineNumber, line.version, fingerprint, short.suggestions, false, short.ambiguous,
                  notes);
  }
}
