/** What a tick takes from the world and stores: the lines its budget reaches, the set it generates, and why a stored
    set is replaced (`app/services/advisory_product_suggestions.py` and `app/advisory/suggestion_sets.py`). */
module TickInputs {
  import opened Core
  import opened Ranking
  import opened SuggestionEngine
  import opened SuggestionSets
  import opened AdvisoryTick

  /** The loop sees the lines up to the first one whose budget check fails. */
  lemma {:induction false} BudgetExactly(w: World, n: nat, k: nat)
    ensures InBudget(w, n) == k <==>
      k <= n && (forall i :: 0 <= i < k ==> w.inTime(i)) && (k < n ==> !w.inTime(k))
  {
    if n > 0 {
      BudgetExactly(w, n - 1, InBudget(w, n - 1));
    }
  }

  /** At most `maxLines` lines are worked on, the first ones. */
  lemma WorkExactly(lines: seq<AdvisoryLine>, c: Config)
    ensures |Work(lines, c)| == (if |lines| <= c.maxLines then |lines| else c.maxLines)
    ensures forall i :: 0 <= i < |Work(lines, c)| ==> Work(lines, c)[i] == lines[i]
  {
  }

  /** What can have changed since a set was generated. */
  predicate Changed(reason: Reason, stored: StoredSet, line: AdvisoryLine, catalog: Catalog, d: Digests) {
    match reason
    case EngineChanged => stored.engineVersion != "f1.3"
    case InputChanged =>
      stored.inputDigest != d.inputs(line.supplierId, line.sellerCode, line.manufacturerCode, line.description)
    case CatalogChanged => stored.catalogFingerprint != VariantFingerprint(catalog, d)
    case SupplierinfoChanged => stored.supplierinfoFingerprint != SupplierinfoFingerprint(catalog, d)
    case _ => false
  }

  /** The engine first, then the inputs, the catalog and the supplier rows. */
  predicate Precedes(a: Reason, b: Reason) {
    match b
    case InputChanged => a == EngineChanged
    case CatalogChanged => a == EngineChanged || a == InputChanged
    case SupplierinfoChanged => a == EngineChanged || a == InputChanged || a == CatalogChanged
    case _ => false
  }

  /** A stored set is replaced for the first thing that changed, and kept exactly when nothing did. */
  lemma ReplacedExactly(stored: StoredSet, line: AdvisoryLine, catalog: Catalog, d: Digests, reason: Reason)
    ensures KeptOrReplaced(stored, line, catalog, d) == Some(reason) <==>
      && Changed(reason, stored, line, catalog, d)
      && forall earlier: Reason :: Precedes(earlier, reason) ==> !Changed(earlier, stored, line, catalog, d)
    ensures KeptOrReplaced(stored, line, catalog, d) == None <==>
      forall r: Reason :: !Changed(r, stored, line, catalog, d)
  {
    hide VariantFingerprint, SupplierinfoFingerprint;
    var r := KeptOrReplaced(stored, line, catalog, d);
    assert r.Some? ==> Changed(r.value, stored, line, catalog, d);
    assert Changed(EngineChanged, stored, line, catalog, d) || Changed(InputChanged, stored, line, catalog, d)
      || Changed(CatalogChanged, stored, line, catalog, d) || Changed(SupplierinfoChanged, stored, line, catalog, d)
      || r == None;
    if Changed(reason, stored, line, catalog, d) {
      assert Precedes(EngineChanged, reason) || reason == EngineChanged;
    }
  }

  /** A generated set is current, unsynchronized and validated now; it is the line's, and holds what the engine answers
      for the line's own supplier, codes and description from the catalog read. */
  lemma GeneratedIs(line: AdvisoryLine, catalog: Catalog, priors: seq<Prior>, policy: Policy, lex: Lexicon, d: Digests,
                    now: Time)
    ensures var row := Generate(line, catalog, priors, policy, lex, d, now);
      var asked := SuggestionLine(line.reviewId, line.companyId, line.reviewVersion, line.lineNumber,
                                  Some(line.supplierId), line.sellerCode, line.description, line.manufacturerCode);
      && row.status == Current && row.syncedAt == None && row.validatedAt == now && row.engineVersion == "f1.3"
      && row.companyId == line.companyId && row.reviewId == line.reviewId && row.reviewVersion == line.reviewVersion
      && row.lineNumber == line.lineNumber && row.lineKey == line.lineKey
      && row.supplierId == Some(line.supplierId) && row.sellerCode == line.sellerCode
      && row.result == SuggestProducts(asked, catalog, CatalogFingerprint(catalog, d), priors, policy, lex)
      && row.result.reviewId == line.reviewId && row.result.lineNumber == line.lineNumber
      && row.result.version == line.reviewVersion && row.result.fingerprint == CatalogFingerprint(catalog, d)
  {
    hide VariantFingerprint, SupplierinfoFingerprint, CatalogFingerprint, EligibleVariants, PathsOf,
      StaleSupplierinfoOf, ExactOf, PriorsOf, SimilarOf, Shortlisted, CspNotes, SimilarityNotes, SimilarityRuns,
      Identifiers;
  }
}
