/** What the order of a shortlist means, with the four tiers and the tie margin written out
    (`SuggestionTier` and `_rank` in `app/advisory/product_suggestions.py`). */
module TierPrecedence {
  import opened Core
  import opened Ranking
  import opened SuggestionEngine
  import opened SuggestionGuards

  /** The tiers in their declared order: T0, T1, T2, T3. */
  predicate Earlier(a: Tier, b: Tier) {
    match a
    case StaleSupplierinfo => b == ExactIdentifier || b == PriorMapping || b == NameSimilarity
    case ExactIdentifier => b == PriorMapping || b == NameSimilarity
    case PriorMapping => b == NameSimilarity
    case NameSimilarity => false
  }

  /** `x` has neither an earlier tier than `s` nor the same tier and a higher score. */
  predicate Outdone(x: Candidate, s: Candidate) {
    !Earlier(x.tier, s.tier) && (x.tier == s.tier ==> x.score <= s.score)
  }

  /** The first may stand before the second: no later tier, and within a tier a higher score or, at the same score,
      the smaller product id. */
  predicate MayPrecede(a: Candidate, b: Candidate) {
    && !Earlier(b.tier, a.tier)
    && (a.tier == b.tier ==> a.score > b.score || (a.score == b.score && a.productId < b.productId))
  }

  predicate WithinMargin(head: Candidate, c: Candidate, margin: real) {
    head.tier == c.tier && head.score - c.score <= margin
  }

  lemma BetterMeaning(a: Candidate, b: Candidate)
    ensures Better(a, b) <==> !Outdone(a, b)
    ensures Before(a, b) <==> MayPrecede(a, b) && a != b.(reasons := a.reasons)
  {
  }

  predicate InOrder(shown: seq<Ranked>) {
    forall i, j :: 0 <= i < j < |shown| ==> MayPrecede(shown[i].candidate, shown[j].candidate)
  }

  /** The shown candidate of a product, if any, outdoes `x`; otherwise the list is full of candidates that do. */
  ghost predicate Settled(shown: seq<Ranked>, max: nat, x: Candidate) {
    || (exists i :: 0 <= i < |shown| && shown[i].candidate.productId == x.productId && Outdone(x, shown[i].candidate))
    || (|shown| == max && forall i :: 0 <= i < |shown| ==> Outdone(x, shown[i].candidate))
  }

  predicate OneEach(shown: seq<Ranked>) {
    forall i, j :: 0 <= i < j < |shown| ==> shown[i].candidate.productId != shown[j].candidate.productId
  }

  lemma SettledMeaning(shown: seq<Ranked>, max: nat, x: Candidate)
    ensures Answered(shown, max, x) <==> Settled(shown, max, x)
  {
    forall s: Candidate
      ensures Better(x, s) <==> !Outdone(x, s)
    {
      BetterMeaning(x, s);
    }
    hide Better, Outdone;
  }

  lemma ShortlistInOrder(candidates: seq<Candidate>, margin: real, max: nat)
    ensures InOrder(Shortlisted(candidates, margin, max).suggestions)
    ensures OneEach(Shortlisted(candidates, margin, max).suggestions)
  {
    ShortlistMeaning(candidates, margin, max);
    hide Sort, BestOf, Shortlisted, MayPrecede, Before, Ranks, Shares, AllIn, Covered;
    var ordered, shown := Sort(BestOf(candidates)), Shortlisted(candidates, margin, max).suggestions;
    forall i, j | 0 <= i < j < |shown|
      ensures MayPrecede(shown[i].candidate, shown[j].candidate)
    {
      assert Before(ordered[i], ordered[j]);
      BetterMeaning(ordered[i], ordered[j]);
    }
  }

  // ----- ranks

  /** The shortlist without a cut: every shortlist of the candidates is a prefix of it. */
  function Everything(candidates: seq<Candidate>, margin: real): seq<Ranked> {
    Shortlisted(candidates, margin, |candidates|).suggestions
  }

  lemma {:induction false} BestIsFewer(candidates: seq<Candidate>)
    ensures |BestOf(candidates)| <= |candidates|
  {
    if candidates != [] {
      BestIsFewer(candidates[..|candidates| - 1]);
    }
  }

  lemma EverythingMeaning(candidates: seq<Candidate>, margin: real)
    ensures var ordered, full := Sort(BestOf(candidates)), Everything(candidates, margin);
      var r := Ranks(ordered, margin, |ordered|);
      && StrictlySorted(ordered) && |full| == |ordered|
      && forall i :: 0 <= i < |full| ==> full[i] == Ranked(r[i], ordered[i], Shares(r, i)) && 1 <= r[i] <= i + 1
  {
    ShortlistMeaning(candidates, margin, |candidates|);
    BestIsFewer(candidates);
    SortMeaning(BestOf(candidates)) by { BestMeaning(candidates); }
    var ordered := Sort(BestOf(candidates));
    assert |ordered| == |multiset(ordered)| == |multiset(BestOf(candidates))|;
    hide Sort, BestOf, Shortlisted, StrictlySorted, IsBest, Ranks, Shares;
  }

  /** Every shortlist is a prefix of the one without a cut, which lists one entry per product in order; the second of
      its entries decides whether the line is ambiguous, shown or not. */
  lemma ShortlistIsPrefix(candidates: seq<Candidate>, margin: real, max: nat)
    ensures var full, s := Everything(candidates, margin), Shortlisted(candidates, margin, max);
      && InOrder(full) && OneEach(full)
      && s.suggestions == full[..if max < |full| then max else |full|] && s.total == |full|
      && (s.ambiguous <==> |full| > 1 && WithinMargin(full[0].candidate, full[1].candidate, margin))
  {
    ShortlistInOrder(candidates, margin, |candidates|);
    BestIsFewer(candidates);
    OrderedMeaning(candidates);
    SortMeaning(BestOf(candidates)) by { BestMeaning(candidates); }
    var ordered := Sort(BestOf(candidates));
    assert |ordered| == |multiset(ordered)| == |multiset(BestOf(candidates))|;
    AmbiguousMeaning(ordered, margin);
    var r := Ranks(ordered, margin, |ordered|);
    hide Sort, BestOf, Ranks, StrictlySorted, IsBest, InOrder, OneEach, Tied, CountOf, Shown, WithinMargin;
    ShownPrefix(ordered, r, |candidates|, max);
    if |ordered| > 1 {
      TiedMeaning(ordered[0], ordered[1], margin);
    }
  }

  lemma ShownPrefix(ordered: seq<Candidate>, ranks: seq<nat>, all: nat, max: nat)
    requires |ranks| == |ordered| <= all
    ensures |Shown(ordered, ranks, all)| == |ordered|
    ensures Shown(ordered, ranks, max) == Shown(ordered, ranks, all)[..if max < |ordered| then max else |ordered|]
    ensures forall i :: 0 <= i < |ordered| ==> Shown(ordered, ranks, all)[i].candidate == ordered[i]
  {
    hide CountOf;
  }

  lemma TiedMeaning(head: Candidate, c: Candidate, margin: real)
    ensures Tied(head, c, margin) <==> WithinMargin(head, c, margin)
  {
  }

  /** Two entries share a rank exactly when the later one has the tier and, within the margin, the score of the entry
      at the rank's position; an entry is marked tied exactly when some other entry shares its rank. */
  lemma RanksWritten(candidates: seq<Candidate>, margin: real, i: nat, j: nat)
    requires i < j < |Everything(candidates, margin)|
    ensures var full := Everything(candidates, margin);
      && 1 <= full[i].rank <= i + 1
      && (full[i].rank == full[j].rank <==> WithinMargin(full[full[i].rank - 1].candidate, full[j].candidate, margin))
      && (full[i].rank == full[j].rank ==> full[i].tied && full[j].tied)
  {
    hide Sort, BestOf, Everything, StrictlySorted, Ranks, Shares, Tied, WithinMargin;
    EverythingMeaning(candidates, margin);
    var ordered := Sort(BestOf(candidates));
    var r := Ranks(ordered, margin, |ordered|);
    SharedRank(ordered, margin, i, j);
    TiedMeaning(ordered[r[i] - 1], ordered[j], margin);
    if r[i] == r[j] {
      TiedPair(r, i, j);
    }
  }

  lemma TiedPair(ranks: seq<nat>, i: nat, j: nat)
    requires i < |ranks| && j < |ranks| && i != j && ranks[i] == ranks[j]
    ensures Shares(ranks, i) && Shares(ranks, j)
  {
  }

  lemma TiedWritten(candidates: seq<Candidate>, margin: real, i: nat)
    requires i < |Everything(candidates, margin)| && Everything(candidates, margin)[i].tied
    ensures var full := Everything(candidates, margin);
      exists j :: 0 <= j < |full| && j != i && full[j].rank == full[i].rank
  {
    EverythingMeaning(candidates, margin);
    var ordered, full := Sort(BestOf(candidates)), Everything(candidates, margin);
    var r := Ranks(ordered, margin, |ordered|);
    hide Sort, BestOf, Everything, StrictlySorted, Ranks;
    var j :| 0 <= j < |r| && j != i && r[j] == r[i];
    assert full[j].rank == full[i].rank;
  }

  // ----- the candidate of a product

  /** Among the candidates of its product the kept one is the first that none outdoes. */
  predicate FirstBest(candidates: seq<Candidate>, c: Candidate) {
    exists k :: 0 <= k < |candidates| && candidates[k] == c && FirstAt(candidates, k)
  }

  predicate FirstAt(candidates: seq<Candidate>, k: nat)
    requires k < |candidates|
  {
    && (forall j :: 0 <= j < |candidates| && candidates[j].productId == candidates[k].productId ==>
          Outdone(candidates[j], candidates[k]))
    && (forall j :: 0 <= j < k && candidates[j].productId == candidates[k].productId ==>
          !Outdone(candidates[k], candidates[j]))
  }

  lemma {:induction false} BestIsFirst(candidates: seq<Candidate>, b: Candidate)
    requires b in BestOf(candidates)
    ensures FirstBest(candidates, b)
  {
    BestStep(candidates);
    hide BestOf, Keep, Outdone, FirstAt, AllIn, Covered;
    var n := |candidates| - 1;
    var before, c := candidates[..n], candidates[n];
    var best := BestOf(before);
    BestMeaning(before);
    KeepOrigin(best, c, b);
    if b in best && (b.productId != c.productId || Outdone(c, b)) {
      BestIsFirst(before, b);
      var k :| 0 <= k < n && before[k] == b && FirstAt(before, k);
      StaysFirst(candidates, k);
    } else {
      assert b == c;
      BecomesFirst(before, best, candidates);
    }
  }

  lemma BestStep(candidates: seq<Candidate>)
    ensures BestOf([]) == []
    ensures candidates != [] ==>
      BestOf(candidates) == Keep(BestOf(candidates[..|candidates| - 1]), candidates[|candidates| - 1])
  {
  }

  /** An entry after one more candidate is an old one that the newcomer does not outdo, or the newcomer. */
  lemma KeepOrigin(best: seq<Candidate>, c: Candidate, b: Candidate)
    requires DistinctProducts(best) && b in Keep(best, c)
    ensures (b in best && (b.productId != c.productId || Outdone(c, b))) ||
      (b == c && forall d :: d in best && d.productId == c.productId ==> !Outdone(c, d))
  {
    var at := Find(best, c.productId);
    if at < |best| {
      BetterMeaning(c, best[at]);
      hide Better, Outdone;
      forall d | d in best && d.productId == c.productId
        ensures d == best[at]
      {
        SameEntry(best, d, best[at]);
      }
    }
  }

  lemma StaysFirst(candidates: seq<Candidate>, k: nat)
    requires k < |candidates| - 1 && FirstAt(candidates[..|candidates| - 1], k)
    requires candidates[|candidates| - 1].productId != candidates[k].productId ||
             Outdone(candidates[|candidates| - 1], candidates[k])
    ensures FirstAt(candidates, k)
  {
    var before := candidates[..|candidates| - 1];
    assert forall j :: 0 <= j < |before| ==> before[j] == candidates[j];
    hide Outdone;
  }

  lemma BecomesFirst(before: seq<Candidate>, best: seq<Candidate>, candidates: seq<Candidate>)
    requires candidates != [] && before == candidates[..|candidates| - 1] && IsBest(best, before)
    requires var c := candidates[|candidates| - 1];
      forall d :: d in best && d.productId == c.productId ==> !Outdone(c, d)
    ensures FirstAt(candidates, |candidates| - 1)
  {
    var n := |candidates| - 1;
    var c := candidates[n];
    forall j | 0 <= j < n && candidates[j].productId == c.productId
      ensures Outdone(candidates[j], c) && !Outdone(c, candidates[j])
    {
      assert before[j] == candidates[j] && Covered(best, before[j]);
      var i :| 0 <= i < |best| && best[i].productId == before[j].productId && !Better(before[j], best[i]);
      assert best[i] in best;
    }
    assert Outdone(c, c);
  }

  /** A shown product keeps the first of its best candidates. */
  lemma ShownIsFirst(candidates: seq<Candidate>, margin: real, max: nat, i: nat)
    requires i < |Shortlisted(candidates, margin, max).suggestions|
    ensures FirstBest(candidates, Shortlisted(candidates, margin, max).suggestions[i].candidate)
  {
    ShortlistMeaning(candidates, margin, max);
    BestMeaning(candidates);
    SortMeaning(BestOf(candidates));
    var ordered := Sort(BestOf(candidates));
    SameElements(ordered, BestOf(candidates));
    hide Sort, BestOf, Shortlisted, StrictlySorted, IsBest, Ranks, Shares, FirstBest;
    assert ordered[i] in ordered;
    BestIsFirst(candidates, ordered[i]);
  }

  // ----- the engine

  /** Whatever the engine shows is in tier order, one candidate a product. */
  lemma SuggestionsInOrder(line: SuggestionLine, catalog: Catalog, fingerprint: string, priors: seq<Prior>,
                           policy: Policy, lex: Lexicon)
    ensures var shown := SuggestProducts(line, catalog, fingerprint, priors, policy, lex).suggestions;
      InOrder(shown) && OneEach(shown)
  {
    var c := ContextOf(line, catalog, policy);
    if StaleSupplierinfoOf(c, lex).NoRow? {
      ShortlistInOrder(Found(c, priors, lex), policy.tieMargin, policy.maxSuggestions);
      hide InOrder, OneEach, Shortlisted, ExactOf, PriorsOf, SimilarOf, SimilarityRuns, StaleSupplierinfoOf, ContextOf;
    }
  }

  lemma JustifiedIsAnswered(line: SuggestionLine, catalog: Catalog, fingerprint: string, priors: seq<Prior>,
                            policy: Policy, lex: Lexicon, x: Candidate)
    requires UniqueIds(catalog)
    requires StaleSupplierinfoOf(ContextOf(line, catalog, policy), lex).NoRow?
    requires Justified(ContextOf(line, catalog, policy), priors, x, lex)
    ensures var shown := SuggestProducts(line, catalog, fingerprint, priors, policy, lex).suggestions;
      Answered(shown, policy.maxSuggestions, x)
  {
    SuggestionsExplained(line, catalog, fingerprint, priors, policy, lex);
    hide SuggestProducts, Justified, Answered, StaleSupplierinfoOf, ContextOf, UniqueIds;
  }

  /** When T0 names nothing, a product with exact-identifier evidence is never shown as a prior mapping or a name
      similarity, one with a prior mapping never as a name similarity; and a candidate that is not shown leaves only
      candidates of no later tier on a full list: no name similarity is shown beside a missing prior mapping. */
  lemma EvidencePrecedes(line: SuggestionLine, catalog: Catalog, fingerprint: string, priors: seq<Prior>,
                         policy: Policy, lex: Lexicon, x: Candidate)
    requires UniqueIds(catalog)
    requires StaleSupplierinfoOf(ContextOf(line, catalog, policy), lex).NoRow?
    requires Justified(ContextOf(line, catalog, policy), priors, x, lex)
    ensures var shown := SuggestProducts(line, catalog, fingerprint, priors, policy, lex).suggestions;
      && Settled(shown, policy.maxSuggestions, x)
      && (forall i :: 0 <= i < |shown| && shown[i].candidate.productId == x.productId ==>
            !Earlier(x.tier, shown[i].candidate.tier))
      && (forall i :: 0 <= i < |shown| && Earlier(x.tier, shown[i].candidate.tier) ==>
            exists j :: 0 <= j < |shown| && shown[j].candidate.productId == x.productId)
  {
    JustifiedIsAnswered(line, catalog, fingerprint, priors, policy, lex, x);
    SuggestionsInOrder(line, catalog, fingerprint, priors, policy, lex);
    hide SuggestProducts, Justified, Answered, InOrder, StaleSupplierinfoOf, ContextOf, UniqueIds;
    var shown := SuggestProducts(line, catalog, fingerprint, priors, policy, lex).suggestions;
    SettledMeaning(shown, policy.maxSuggestions, x);
    SettledPrecedes(shown, policy.maxSuggestions, x);
  }

  lemma SettledPrecedes(shown: seq<Ranked>, max: nat, x: Candidate)
    requires OneEach(shown) && Settled(shown, max, x)
    ensures forall i :: 0 <= i < |shown| && shown[i].candidate.productId == x.productId ==>
      !Earlier(x.tier, shown[i].candidate.tier)
    ensures forall i :: 0 <= i < |shown| && Earlier(x.tier, shown[i].candidate.tier) ==>
      exists j :: 0 <= j < |shown| && shown[j].candidate.productId == x.productId
  {
    hide Earlier;
  }
}
