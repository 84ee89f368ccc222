/** What the advisory engine may suggest, read off the line, the catalog and the earlier mappings alone: every tier's
    evidence and the discriminator guards of T2 and T3 (`app/advisory/product_suggestions.py`). */
module SuggestionGuards {
  import opened Core
  import opened Sorting
  import opened Ranking
  import opened SuggestionEngine

  /** A global identifier of the line equals the variant's Internal Reference. */
  ghost predicate ExactEvidence(c: Context, v: Variant, lex: Lexicon) {
    exists id ::
      && id in Identifiers(c.line, lex) && NonEmpty(v.defaultCode)
      && lex.codeKey(v.defaultCode.value) == lex.codeKey(id.1)
  }

  predicate SameCode(c: Context, prior: Prior, lex: Lexicon) {
    var seller, earlier := Clean(c.line.sellerCode), Clean(prior.sellerCode);
    seller.Some? && earlier.Some? && lex.codeKey(seller.value) == lex.codeKey(earlier.value)
  }

  predicate SameDescription(c: Context, prior: Prior, lex: Lexicon) {
    var description := lex.normalize(Text(c.line.description));
    description != "" && description == lex.normalize(Text(prior.description))
  }

  predicate Evidences(c: Context, prior: Prior, v: Variant, lex: Lexicon) {
    && c.line.supplierId == Some(prior.supplierId) && prior.productId == v.productId
    && (SameCode(c, prior, lex) || SameDescription(c, prior, lex))
  }

  /** The same supplier's same code or description was mapped to the variant, and nothing discriminates against it. */
  ghost predicate PriorEvidence(c: Context, priors: seq<Prior>, v: Variant, lex: Lexicon) {
    !Discriminated(c, v, lex) && exists prior :: prior in priors && Evidences(c, prior, v, lex)
  }

  /** A guarded name comparison at or above the threshold. */
  predicate NameEvidence(c: Context, v: Variant, lex: Lexicon) {
    && SimilarityRuns(c, lex) && Compared(c, v, lex) && !Discriminated(c, v, lex)
    && lex.similarity(Text(c.line.description), v.name) >= c.policy.threshold
  }

  /** The tier and score are ones the variant has evidence for. */
  ghost predicate Supports(c: Context, priors: seq<Prior>, v: Variant, tier: Tier, score: real, lex: Lexicon) {
    match tier
    case StaleSupplierinfo => false
    case ExactIdentifier => score == 1.0 && ExactEvidence(c, v, lex)
    case PriorMapping => score == 0.9 && PriorEvidence(c, priors, v, lex)
    case NameSimilarity => score == lex.similarity(Text(c.line.description), v.name) && NameEvidence(c, v, lex)
  }

  ghost predicate Justified(c: Context, priors: seq<Prior>, x: Candidate, lex: Lexicon) {
    exists v :: v in c.eligible && v.productId == x.productId && Supports(c, priors, v, x.tier, x.score, lex)
  }

  predicate SameKey(x: Candidate, y: Candidate) {
    x.productId == y.productId && x.tier == y.tier && x.score == y.score
  }

  ghost predicate Holds(xs: seq<Candidate>, x: Candidate) {
    exists y :: y in xs && SameKey(x, y)
  }

  lemma HoldsConcat(xs: seq<Candidate>, ys: seq<Candidate>, x: Candidate)
    ensures Holds(xs + ys, x) <==> Holds(xs, x) || Holds(ys, x)
  {
    if Holds(xs, x) {
      var y :| y in xs && SameKey(x, y);
      assert y in xs + ys;
    }
    if Holds(ys, x) {
      var y :| y in ys && SameKey(x, y);
      assert y in xs + ys;
    }
  }

  // ----- each tier finds exactly its evidence

  ghost predicate CodeMatch(identifier: string, eligible: seq<Variant>, x: Candidate, lex: Lexicon) {
    && x.tier == ExactIdentifier && x.score == 1.0
    && exists v ::
         && v in eligible && v.productId == x.productId && NonEmpty(v.defaultCode)
         && lex.codeKey(v.defaultCode.value) == lex.codeKey(identifier)
  }

  lemma {:induction false} ExactForMeaning(basis: string, identifier: string, eligible: seq<Variant>, x: Candidate,
                                           lex: Lexicon)
    ensures Holds(ExactFor(basis, identifier, eligible, lex), x) <==> CodeMatch(identifier, eligible, x, lex)
  {
    if eligible != [] {
      var n := |eligible| - 1;
      ExactForMeaning(basis, identifier, eligible[..n], x, lex);
      var code := eligible[n].defaultCode;
      var last := if NonEmpty(code) && lex.codeKey(code.value) == lex.codeKey(identifier)
                  then [Candidate(eligible[n].productId, ExactIdentifier, 1.0, [basis, identifier])] else [];
      HoldsConcat(ExactFor(basis, identifier, eligible[..n], lex), last, x);
      assert eligible == eligible[..n] + [eligible[n]];
      assert Holds(last, x) <==> CodeMatch(identifier, [eligible[n]], x, lex) by {
        if last != [] && SameKey(x, last[0]) {
          assert last[0] in last;
          assert eligible[n] in [eligible[n]];
        }
      }
      CodeMatchConcat(identifier, eligible[..n], eligible[n], x, lex);
    }
  }

  lemma CodeMatchConcat(identifier: string, eligible: seq<Variant>, v: Variant, x: Candidate, lex: Lexicon)
    ensures CodeMatch(identifier, eligible + [v], x, lex) <==>
      CodeMatch(identifier, eligible, x, lex) || CodeMatch(identifier, [v], x, lex)
  {
    assert forall w :: w in eligible + [v] <==> w in eligible || w in [v];
  }

  ghost predicate IdentifierMatch(identifiers: seq<(string, string)>, eligible: seq<Variant>, x: Candidate,
                                  lex: Lexicon) {
    exists i :: 0 <= i < |identifiers| && CodeMatch(identifiers[i].1, eligible, x, lex)
  }

  lemma {:induction false} ExactOfMeaning(identifiers: seq<(string, string)>, eligible: seq<Variant>, x: Candidate,
                                          lex: Lexicon)
    ensures Holds(ExactOf(identifiers, eligible, lex), x) <==> IdentifierMatch(identifiers, eligible, x, lex)
  {
    hide CodeMatch, ExactFor;
    if identifiers == [] {
      assert ExactOf(identifiers, eligible, lex) == [];
    } else {
      var n := |identifiers| - 1;
      var before := identifiers[..n];
      ExactOfMeaning(before, eligible, x, lex);
      ExactForMeaning(identifiers[n].0, identifiers[n].1, eligible, x, lex);
      HoldsConcat(ExactOf(before, eligible, lex), ExactFor(identifiers[n].0, identifiers[n].1, eligible, lex), x);
      hide Holds;
      assert forall i :: 0 <= i < n ==> before[i] == identifiers[i];
      assert IdentifierMatch(identifiers, eligible, x, lex) <==>
        IdentifierMatch(before, eligible, x, lex) || CodeMatch(identifiers[n].1, eligible, x, lex);
    }
  }

  ghost predicate PriorMatch(c: Context, priors: seq<Prior>, x: Candidate, lex: Lexicon) {
    exists i :: 0 <= i < |priors| && Holds(PriorCandidate(c, priors[i], lex), x)
  }

  lemma {:induction false} PriorsOfMeaning(c: Context, priors: seq<Prior>, x: Candidate, lex: Lexicon)
    ensures Holds(PriorsOf(c, priors, lex), x) <==> PriorMatch(c, priors, x, lex)
  {
    hide PriorCandidate;
    if priors == [] {
      assert PriorsOf(c, priors, lex) == [];
    } else {
      var n := |priors| - 1;
      var before := priors[..n];
      PriorsOfMeaning(c, before, x, lex);
      HoldsConcat(PriorsOf(c, before, lex), PriorCandidate(c, priors[n], lex), x);
      hide Holds;
      assert forall i :: 0 <= i < n ==> before[i] == priors[i];
      assert PriorMatch(c, priors, x, lex) <==>
        PriorMatch(c, before, x, lex) || Holds(PriorCandidate(c, priors[n], lex), x);
    }
  }

  ghost predicate NameMatch(c: Context, eligible: seq<Variant>, x: Candidate, lex: Lexicon) {
    exists i :: 0 <= i < |eligible| && NameCandidate(c, eligible[i], x, lex)
  }

  predicate NameCandidate(c: Context, v: Variant, x: Candidate, lex: Lexicon) {
    var score := lex.similarity(Text(c.line.description), v.name);
    && Compared(c, v, lex) && !Discriminated(c, v, lex) && score >= c.policy.threshold
    && x.productId == v.productId && x.tier == NameSimilarity && x.score == score
  }

  lemma {:induction false} SimilarOfMeaning(c: Context, eligible: seq<Variant>, x: Candidate, lex: Lexicon)
    ensures Holds(SimilarOf(c, eligible, lex), x) <==> NameMatch(c, eligible, x, lex)
  {
    hide Compared, Discriminated;
    if eligible == [] {
      assert SimilarOf(c, eligible, lex) == [];
    } else {
      var n := |eligible| - 1;
      var v, before, description := eligible[n], eligible[..n], Text(c.line.description);
      SimilarOfMeaning(c, before, x, lex);
      var score := lex.similarity(description, v.name);
      var last := if Compared(c, v, lex) && !Discriminated(c, v, lex) && score >= c.policy.threshold
                  then [Candidate(v.productId, NameSimilarity, score, lex.shared(description, v.name))] else [];
      assert SimilarOf(c, eligible, lex) == SimilarOf(c, before, lex) + last;
      HoldsConcat(SimilarOf(c, before, lex), last, x);
      assert Holds(last, x) <==> NameCandidate(c, v, x, lex) by {
        if last != [] {
          assert last[0] in last;
        }
      }
      hide Holds, SimilarOf;
      assert forall i :: 0 <= i < n ==> before[i] == eligible[i];
      assert NameMatch(c, eligible, x, lex) <==> NameMatch(c, before, x, lex) || NameCandidate(c, v, x, lex);
    }
  }

  // ----- all tiers together

  /** The candidates the engine ranks when T0 names nothing. */
  function Found(c: Context, priors: seq<Prior>, lex: Lexicon): seq<Candidate> {
    ExactOf(Identifiers(c.line, lex), c.eligible, lex)
    + (if c.line.supplierId.None? then [] else PriorsOf(c, SortBy(priors, PriorLe), lex))
    + (if SimilarityRuns(c, lex) then SimilarOf(c, c.eligible, lex) else [])
  }

  ghost predicate OnePerId(eligible: seq<Variant>) {
    forall v, w :: v in eligible && w in eligible && v.productId == w.productId ==> v == w
  }

  lemma {:induction false} ByIdFinds(eligible: seq<Variant>, id: int)
    ensures ById(eligible, id).Some? ==>
      ById(eligible, id).value in eligible && ById(eligible, id).value.productId == id
    ensures ById(eligible, id).None? ==> forall v :: v in eligible ==> v.productId != id
  {
    if eligible != [] {
      var n := |eligible| - 1;
      ByIdFinds(eligible[..n], id);
      assert eligible == eligible[..n] + [eligible[n]];
    }
  }

  lemma ExactTier(c: Context, priors: seq<Prior>, x: Candidate, lex: Lexicon)
    ensures IdentifierMatch(Identifiers(c.line, lex), c.eligible, x, lex) <==>
      x.tier == ExactIdentifier && Justified(c, priors, x, lex)
  {
    var ids := Identifiers(c.line, lex);
    hide Identifiers;
    if IdentifierMatch(ids, c.eligible, x, lex) {
      var i :| 0 <= i < |ids| && CodeMatch(ids[i].1, c.eligible, x, lex);
      var v :| v in c.eligible && v.productId == x.productId && NonEmpty(v.defaultCode)
        && lex.codeKey(v.defaultCode.value) == lex.codeKey(ids[i].1);
      assert ids[i] in ids;
      assert Supports(c, priors, v, x.tier, x.score, lex);
    }
    if x.tier == ExactIdentifier && Justified(c, priors, x, lex) {
      var v :| v in c.eligible && v.productId == x.productId && Supports(c, priors, v, x.tier, x.score, lex);
      var id :| id in ids && NonEmpty(v.defaultCode) && lex.codeKey(v.defaultCode.value) == lex.codeKey(id.1);
      var i :| 0 <= i < |ids| && ids[i] == id;
      assert CodeMatch(ids[i].1, c.eligible, x, lex);
    }
  }

  lemma PriorCandidateMeaning(c: Context, prior: Prior, v: Variant, x: Candidate, lex: Lexicon)
    requires OnePerId(c.eligible) && v in c.eligible && v.productId == x.productId
    ensures Holds(PriorCandidate(c, prior, lex), x) <==>
      x.tier == PriorMapping && x.score == 0.9 && Evidences(c, prior, v, lex) && !Discriminated(c, v, lex)
  {
    ByIdFinds(c.eligible, prior.productId);
    var found := PriorCandidate(c, prior, lex);
    hide IdentifierConflict, Clean, Conflicts;
    assert found == [] || (found == [found[0]] && found[0] in found);
  }

  lemma PriorCandidateEligible(c: Context, prior: Prior, x: Candidate, lex: Lexicon)
    requires Holds(PriorCandidate(c, prior, lex), x)
    ensures exists v :: v in c.eligible && v.productId == x.productId
  {
    ByIdFinds(c.eligible, prior.productId);
  }

  lemma PriorTier(c: Context, priors: seq<Prior>, sorted: seq<Prior>, x: Candidate, lex: Lexicon)
    requires OnePerId(c.eligible) && multiset(sorted) == multiset(priors)
    ensures PriorMatch(c, sorted, x, lex) <==> x.tier == PriorMapping && Justified(c, priors, x, lex)
  {
    hide PriorCandidate, Holds, Evidences, Discriminated;
    assert forall p :: p in sorted <==> p in multiset(sorted);
    assert forall p :: p in priors <==> p in multiset(priors);
    if PriorMatch(c, sorted, x, lex) {
      var i :| 0 <= i < |sorted| && Holds(PriorCandidate(c, sorted[i], lex), x);
      PriorCandidateEligible(c, sorted[i], x, lex);
      var v :| v in c.eligible && v.productId == x.productId;
      PriorCandidateMeaning(c, sorted[i], v, x, lex);
      assert sorted[i] in priors;
      assert Supports(c, priors, v, x.tier, x.score, lex);
    }
    if x.tier == PriorMapping && Justified(c, priors, x, lex) {
      var v :| v in c.eligible && v.productId == x.productId && Supports(c, priors, v, x.tier, x.score, lex);
      var prior :| prior in priors && Evidences(c, prior, v, lex);
      assert prior in sorted;
      var i :| 0 <= i < |sorted| && sorted[i] == prior;
      PriorCandidateMeaning(c, prior, v, x, lex);
    }
  }

  lemma NameTier(c: Context, priors: seq<Prior>, x: Candidate, lex: Lexicon)
    ensures SimilarityRuns(c, lex) && NameMatch(c, c.eligible, x, lex) <==>
      x.tier == NameSimilarity && Justified(c, priors, x, lex)
  {
    hide Compared, Discriminated, SimilarityRuns;
    if SimilarityRuns(c, lex) && NameMatch(c, c.eligible, x, lex) {
      var i :| 0 <= i < |c.eligible| && NameCandidate(c, c.eligible[i], x, lex);
      assert c.eligible[i] in c.eligible && Supports(c, priors, c.eligible[i], x.tier, x.score, lex);
    }
    if x.tier == NameSimilarity && Justified(c, priors, x, lex) {
      var v :| v in c.eligible && v.productId == x.productId && Supports(c, priors, v, x.tier, x.score, lex);
      var i :| 0 <= i < |c.eligible| && c.eligible[i] == v;
      assert NameCandidate(c, c.eligible[i], x, lex);
    }
  }

  /** The candidates are exactly the justified ones: every guard is applied and no evidence is missed. */
  lemma FoundExactly(c: Context, priors: seq<Prior>, x: Candidate, lex: Lexicon)
    requires OnePerId(c.eligible)
    ensures Holds(Found(c, priors, lex), x) <==> Justified(c, priors, x, lex)
  {
    var sorted := SortBy(priors, PriorLe);
    SortByMultiset(priors, PriorLe);
    var exact := ExactOf(Identifiers(c.line, lex), c.eligible, lex);
    var prior := if c.line.supplierId.None? then [] else PriorsOf(c, sorted, lex);
    var similar := if SimilarityRuns(c, lex) then SimilarOf(c, c.eligible, lex) else [];
    ExactOfMeaning(Identifiers(c.line, lex), c.eligible, x, lex);
    PriorsOfMeaning(c, sorted, x, lex);
    SimilarOfMeaning(c, c.eligible, x, lex);
    ExactTier(c, priors, x, lex);
    PriorTier(c, priors, sorted, x, lex);
    NameTier(c, priors, x, lex);
    if c.line.supplierId.None? && x.tier == PriorMapping {
      NoSupplierNoPrior(c, priors, x, lex);
    }
    HoldsConcat(exact + prior, similar, x);
    HoldsConcat(exact, prior, x);
    NothingHeld(x);
    SupportedTier(c, priors, x, lex);
    hide Holds, Justified, PriorMatch, NameMatch, IdentifierMatch, SimilarityRuns, ExactOf, PriorsOf, SimilarOf, SortBy;
  }

  lemma NothingHeld(x: Candidate)
    ensures !Holds([], x)
  {
  }

  lemma NoSupplierNoPrior(c: Context, priors: seq<Prior>, x: Candidate, lex: Lexicon)
    requires c.line.supplierId.None? && x.tier == PriorMapping
    ensures !Justified(c, priors, x, lex)
  {
    hide Discriminated;
  }

  lemma SupportedTier(c: Context, priors: seq<Prior>, x: Candidate, lex: Lexicon)
    ensures x.tier == StaleSupplierinfo ==> !Justified(c, priors, x, lex)
  {
  }

  // ----- the engine, explained

  /** A justified candidate is answered: its product is suggested at least as strongly, or the list is full and
      nothing on it is weaker. */
  ghost predicate Answered(shown: seq<Ranked>, max: nat, x: Candidate) {
    || (exists i :: 0 <= i < |shown| && shown[i].candidate.productId == x.productId && !Better(x, shown[i].candidate))
    || (|shown| == max && forall i :: 0 <= i < |shown| ==> !Better(x, shown[i].candidate))
  }

  lemma NotBetterThrough(x: Candidate, s: Candidate, o: Candidate)
    requires Before(s, o) && !Better(x, o)
    ensures !Better(x, s)
  {
  }

  lemma PrefixAnswers(ordered: seq<Candidate>, shown: seq<Ranked>, max: nat, x: Candidate)
    requires StrictlySorted(ordered) && Covered(ordered, x)
    requires |shown| == if max < |ordered| then max else |ordered|
    requires forall i :: 0 <= i < |shown| ==> shown[i].candidate == ordered[i]
    ensures Answered(shown, max, x)
  {
    hide Better, Before;
    var at :| 0 <= at < |ordered| && ordered[at].productId == x.productId && !Better(x, ordered[at]);
    if at < |shown| {
      assert shown[at].candidate == ordered[at];
    } else {
      forall i | 0 <= i < |shown|
        ensures !Better(x, shown[i].candidate)
      {
        NotBetterThrough(x, ordered[i], ordered[at]);
      }
    }
  }

  lemma CoveredKey(ordered: seq<Candidate>, x: Candidate, y: Candidate)
    requires SameKey(x, y) && Covered(ordered, y)
    ensures Covered(ordered, x)
  {
    var at :| 0 <= at < |ordered| && ordered[at].productId == y.productId && !Better(y, ordered[at]);
    assert !Better(x, ordered[at]);
  }

  lemma ShortlistAnswers(found: seq<Candidate>, margin: real, max: nat, x: Candidate)
    requires Holds(found, x)
    ensures Answered(Shortlisted(found, margin, max).suggestions, max, x)
  {
    ShortlistMeaning(found, margin, max);
    hide Sort, BestOf, Shortlisted, StrictlySorted, Covered, Answered, Ranks, Shares;
    var y :| y in found && SameKey(x, y);
    var j :| 0 <= j < |found| && found[j] == y;
    CoveredKey(Sort(BestOf(found)), x, found[j]);
    PrefixAnswers(Sort(BestOf(found)), Shortlisted(found, margin, max).suggestions, max, x);
  }

  lemma ShortlistHeld(found: seq<Candidate>, margin: real, max: nat, i: nat)
    requires i < |Shortlisted(found, margin, max).suggestions|
    ensures Holds(found, Shortlisted(found, margin, max).suggestions[i].candidate)
  {
    ShortlistMeaning(found, margin, max);
    hide Sort, BestOf;
    var ordered := Sort(BestOf(found));
    assert ordered[i] in found && SameKey(ordered[i], ordered[i]);
  }

  lemma ContextOnePerId(line: SuggestionLine, catalog: Catalog, policy: Policy)
    requires UniqueIds(catalog)
    ensures OnePerId(ContextOf(line, catalog, policy).eligible)
  {
    var eligible := EligibleVariants(catalog, line.companyId);
    SortByMultiset(Filter((v: Variant) => Eligible(v, line.companyId), catalog.variants), IdLe);
    forall v | v in eligible
      ensures v in catalog.variants
    {
      assert v in multiset(eligible);
    }
  }

  /** T0 alone when the current supplierinfo names a product; otherwise every suggestion is justified by its tier's
      evidence and guards, and every justified candidate is answered. */
  lemma SuggestionsExplained(line: SuggestionLine, catalog: Catalog, fingerprint: string, priors: seq<Prior>,
                             policy: Policy, lex: Lexicon)
    requires UniqueIds(catalog)
    ensures var c := ContextOf(line, catalog, policy);
      var r := SuggestProducts(line, catalog, fingerprint, priors, policy, lex);
      match StaleSupplierinfoOf(c, lex)
      case Names(id, reasons) =>
        r.reclassify && r.suggestions == [Ranked(1, Candidate(id, StaleSupplierinfo, 1.0, reasons), false)]
      case NoRow(_) =>
        && !r.reclassify
        && (forall i :: 0 <= i < |r.suggestions| ==> Justified(c, priors, r.suggestions[i].candidate, lex))
        && (forall x :: Justified(c, priors, x, lex) ==> Answered(r.suggestions, policy.maxSuggestions, x))
  {
    var c, r := ContextOf(line, catalog, policy), SuggestProducts(line, catalog, fingerprint, priors, policy, lex);
    ContextOnePerId(line, catalog, policy);
    if StaleSupplierinfoOf(c, lex).NoRow? {
      var found := Found(c, priors, lex);
      var shown := Shortlisted(found, policy.tieMargin, policy.maxSuggestions).suggestions;
      assert r.suggestions == shown;
      hide Justified, Answered, Shortlisted, Found, OnePerId, SuggestProducts, StaleSupplierinfoOf;
      forall i | 0 <= i < |shown|
        ensures Justified(c, priors, shown[i].candidate, lex)
      {
        ShortlistHeld(found, policy.tieMargin, policy.maxSuggestions, i);
        FoundExactly(c, priors, shown[i].candidate, lex);
      }
      forall x | Justified(c, priors, x, lex)
        ensures Answered(shown, policy.maxSuggestions, x)
      {
        FoundExactly(c, priors, x, lex);
        ShortlistAnswers(found, policy.tieMargin, policy.maxSuggestions, x);
      }
    }
  }
}
