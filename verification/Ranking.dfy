/** Ranking of advisory candidates (`_rank` in `app/advisory/product_suggestions.py`). */
module Ranking {
  import opened Core
  import opened Sorting

  datatype Tier = StaleSupplierinfo | ExactIdentifier | PriorMapping | NameSimilarity

  function TierOrder(t: Tier): nat {
    match t
    case StaleSupplierinfo => 0
    case ExactIdentifier => 1
    case PriorMapping => 2
    case NameSimilarity => 3
  }

  datatype Candidate = Candidate(productId: int, tier: Tier, score: real, reasons: seq<string>)

  datatype Ranked = Ranked(rank: nat, candidate: Candidate, tied: bool)

  /** A candidate without its texts: what ranking is allowed to depend on. */
  function Key(c: Candidate): Candidate {
    c.(reasons := [])
  }

  /** `(tier order, -score)` strictly smaller. */
  predicate Better(a: Candidate, b: Candidate) {
    TierOrder(a.tier) < TierOrder(b.tier) || (a.tier == b.tier && a.score > b.score)
  }

  /** `(tier order, -score, product id)` strictly smaller. */
  predicate Before(a: Candidate, b: Candidate) {
    Better(a, b) || (a.tier == b.tier && a.score == b.score && a.productId < b.productId)
  }

  predicate Tied(head: Candidate, c: Candidate, margin: real) {
    c.tier == head.tier && head.score - c.score <= margin
  }

  // ----- the three stages

  /** Position of a product's entry in the insertion-ordered `best` dictionary, or its length. */
  function Find(best: seq<Candidate>, productId: int): (i: nat)
    ensures i <= |best|
    ensures i < |best| ==> best[i].productId == productId
    ensures forall j :: 0 <= j < i ==> best[j].productId != productId
  {
    if best == [] then 0 else if best[0].productId == productId then 0 else 1 + Find(best[1..], productId)
  }

  function Keep(best: seq<Candidate>, c: Candidate): seq<Candidate> {
    var i := Find(best, c.productId);
    if i == |best| then best + [c] else if Better(c, best[i]) then best[i := c] else best
  }

  function BestOf(candidates: seq<Candidate>): seq<Candidate> {
    if candidates == [] then []
    else Keep(BestOf(candidates[..|candidates| - 1]), candidates[|candidates| - 1])
  }

  predicate NotAfter(a: Candidate, b: Candidate) {
    !Before(b, a)
  }

  function Sort(xs: seq<Candidate>): seq<Candidate> {
    SortBy(xs, NotAfter)
  }

  /** Ranks of the first `n` entries; a rank is the one-based position of its group's head. */
  function Ranks(ordered: seq<Candidate>, margin: real, n: nat): (ranks: seq<nat>)
    requires n <= |ordered|
    ensures |ranks| == n
    ensures forall i :: 0 <= i < n ==> 1 <= ranks[i] <= i + 1
  {
    if n == 0 then []
    else
      var before := Ranks(ordered, margin, n - 1);
      if n > 1 && Tied(ordered[before[n - 2] - 1], ordered[n - 1], margin) then before + [before[n - 2]]
      else before + [n]
  }

  function CountOf(ranks: seq<nat>, rank: nat): nat {
    if ranks == [] then 0 else CountOf(ranks[..|ranks| - 1], rank) + (if ranks[|ranks| - 1] == rank then 1 else 0)
  }

  function Shown(ordered: seq<Candidate>, ranks: seq<nat>, max: nat): seq<Ranked>
    requires |ranks| == |ordered|
  {
    var n := if max < |ordered| then max else |ordered|;
    seq(n, i requires 0 <= i < n => Ranked(ranks[i], ordered[i], CountOf(ranks, ranks[i]) > 1))
  }

  /** `total` is how many distinct products qualified before the cut. */
  datatype Shortlist = Shortlist(suggestions: seq<Ranked>, ambiguous: bool, total: nat)

  function Shortlisted(candidates: seq<Candidate>, margin: real, max: nat): Shortlist {
    var ordered := Sort(BestOf(candidates));
    var ranks := Ranks(ordered, margin, |ordered|);
    Shortlist(Shown(ordered, ranks, max), CountOf(ranks, 1) > 1, |ordered|)
  }

  /** `_rank` with its two loops. */
  method Rank(candidates: seq<Candidate>, margin: real, max: nat) returns (r: Shortlist)
    ensures r == Shortlisted(candidates, margin, max)
  {
    var best: seq<Candidate> := [];
    for i := 0 to |candidates|
      invariant best == BestOf(candidates[..i])
    {
      assert candidates[..i + 1][..i] == candidates[..i];
      var c := candidates[i];
      var at := Find(best, c.productId);
      if at == |best| {
        best := best + [c];
      } else if Better(c, best[at]) {
        best := best[at := c];
      }
    }
    assert candidates[..|candidates|] == candidates;
    var ordered := Sort(best);
    var ranks: seq<nat> := [];
    var head := 0;
    for i := 0 to |ordered|
      invariant ranks == Ranks(ordered, margin, i)
      invariant i > 0 ==> head == ranks[i - 1] - 1
    {
      if i > 0 && Tied(ordered[head], ordered[i], margin) {
        ranks := ranks + [ranks[i - 1]];
      } else {
        head := i;
        ranks := ranks + [i + 1];
      }
    }
    r := Shortlist(Shown(ordered, ranks, max), CountOf(ranks, 1) > 1, |ordered|);
  }

  // ----- what `best` is

  predicate DistinctProducts(xs: seq<Candidate>) {
    forall i, j :: 0 <= i < j < |xs| ==> xs[i].productId != xs[j].productId
  }

  predicate AllIn(xs: seq<Candidate>, ys: seq<Candidate>) {
    forall i :: 0 <= i < |xs| ==> xs[i] in ys
  }

  /** Some entry of the same product is at least as good. */
  predicate Covered(best: seq<Candidate>, c: Candidate) {
    exists i :: 0 <= i < |best| && best[i].productId == c.productId && !Better(c, best[i])
  }

  /** One entry per product, taken from the candidates, each at least as good as every candidate of its product. */
  predicate IsBest(best: seq<Candidate>, candidates: seq<Candidate>) {
    && DistinctProducts(best)
    && AllIn(best, candidates)
    && forall j :: 0 <= j < |candidates| ==> Covered(best, candidates[j])
  }

  lemma KeepCovers(best: seq<Candidate>, c: Candidate, d: Candidate)
    requires Covered(best, d) || d == c
    ensures Covered(Keep(best, c), d)
  {
    var next, at := Keep(best, c), Find(best, c.productId);
    if Covered(best, d) {
      var i :| 0 <= i < |best| && best[i].productId == d.productId && !Better(d, best[i]);
      assert next[i].productId == d.productId && !Better(d, next[i]);
    } else {
      assert next[at].productId == d.productId && !Better(d, next[at]);
    }
  }

  lemma KeepIsBest(best: seq<Candidate>, seen: seq<Candidate>, c: Candidate)
    requires IsBest(best, seen)
    ensures IsBest(Keep(best, c), seen + [c])
  {
    hide Better, Covered;
    var next := Keep(best, c);
    assert AllIn(next, seen + [c]);
    forall j | 0 <= j < |seen + [c]|
      ensures Covered(next, (seen + [c])[j])
    {
      KeepCovers(best, c, (seen + [c])[j]);
    }
  }

  lemma {:induction false} BestMeaning(candidates: seq<Candidate>)
    ensures IsBest(BestOf(candidates), candidates)
  {
    if candidates == [] {
      assert BestOf(candidates) == [];
    } else {
      hide IsBest, Keep;
      var n := |candidates| - 1;
      var seen, best := candidates[..n], BestOf(candidates[..n]);
      BestMeaning(seen);
      KeepIsBest(best, seen, candidates[n]);
      assert seen + [candidates[n]] == candidates;
      assert BestOf(candidates) == Keep(best, candidates[n]);
      hide BestOf;
    }
  }

  // ----- sorting

  predicate StrictlySorted(xs: seq<Candidate>) {
    forall i, j :: 0 <= i < j < |xs| ==> Before(xs[i], xs[j])
  }

  lemma {:induction false} Once(xs: seq<Candidate>, c: Candidate)
    requires DistinctProducts(xs)
    ensures multiset(xs)[c] <= 1
  {
    if xs != [] {
      var n := |xs| - 1;
      Once(xs[..n], c);
      assert xs == xs[..n] + [xs[n]];
      assert c == xs[n] ==> c !in xs[..n];
    }
  }

  lemma Twice(xs: seq<Candidate>, i: nat, j: nat)
    requires i < j < |xs| && xs[i] == xs[j]
    ensures multiset(xs)[xs[i]] >= 2
  {
    assert xs == xs[..i] + [xs[i]] + xs[i + 1..j] + [xs[j]] + xs[j + 1..];
  }

  /** Sorting distinct products permutes them into strict order. */
  lemma SortMeaning(xs: seq<Candidate>)
    requires DistinctProducts(xs)
    ensures StrictlySorted(Sort(xs))
    ensures multiset(Sort(xs)) == multiset(xs)
  {
    var ordered := Sort(xs);
    SortByMultiset(xs, NotAfter);
    SortBySorted(xs, NotAfter);
    SameElements(ordered, xs);
    forall i, j | 0 <= i < j < |ordered|
      ensures Before(ordered[i], ordered[j])
    {
      assert ordered[i] in ordered && ordered[j] in ordered;
      SameEntry(xs, ordered[i], ordered[j]);
      Once(xs, ordered[i]);
      if ordered[i] == ordered[j] {
        Twice(ordered, i, j);
      }
      assert NotAfter(ordered[i], ordered[j]);
    }
  }

  lemma SameElements(xs: seq<Candidate>, ys: seq<Candidate>)
    requires multiset(xs) == multiset(ys)
    ensures forall c :: c in xs <==> c in ys
  {
    forall c
      ensures c in xs <==> c in ys
    {
      assert c in xs <==> c in multiset(xs);
    }
  }

  lemma CoveredBySame(best: seq<Candidate>, ordered: seq<Candidate>, c: Candidate)
    requires Covered(best, c) && forall d :: d in ordered <==> d in best
    ensures Covered(ordered, c)
  {
    hide Better;
    var i :| 0 <= i < |best| && best[i].productId == c.productId && !Better(c, best[i]);
    assert best[i] in ordered;
    var k :| 0 <= k < |ordered| && ordered[k] == best[i];
  }

  lemma SortedDistinct(best: seq<Candidate>, ordered: seq<Candidate>)
    requires DistinctProducts(best) && StrictlySorted(ordered) && forall d :: d in ordered <==> d in best
    ensures DistinctProducts(ordered)
  {
    hide Better;
    forall i, j | 0 <= i < j < |ordered|
      ensures ordered[i].productId != ordered[j].productId
    {
      assert Before(ordered[i], ordered[j]);
      BeforeIrreflexive(ordered[i]);
      assert ordered[i] in ordered && ordered[j] in ordered;
      SameEntry(best, ordered[i], ordered[j]);
    }
  }

  lemma ReorderKeepsBest(best: seq<Candidate>, ordered: seq<Candidate>, candidates: seq<Candidate>)
    requires IsBest(best, candidates) && StrictlySorted(ordered) && forall d :: d in ordered <==> d in best
    ensures IsBest(ordered, candidates)
  {
    SortedDistinct(best, ordered);
    hide Covered, DistinctProducts, StrictlySorted;
    forall i | 0 <= i < |ordered|
      ensures ordered[i] in candidates
    {
      assert ordered[i] in ordered;
      assert ordered[i] in best;
    }
    forall j | 0 <= j < |candidates|
      ensures Covered(ordered, candidates[j])
    {
      CoveredBySame(best, ordered, candidates[j]);
    }
  }

  lemma BeforeIrreflexive(c: Candidate)
    ensures !Before(c, c)
  {
  }

  lemma SameEntry(best: seq<Candidate>, b: Candidate, d: Candidate)
    requires DistinctProducts(best) && b in best && d in best
    ensures b == d <==> b.productId == d.productId
  {
  }

  /** The ordered list keeps every product's best candidate once, stronger tiers first. */
  lemma OrderedMeaning(candidates: seq<Candidate>)
    ensures IsBest(Sort(BestOf(candidates)), candidates) && StrictlySorted(Sort(BestOf(candidates)))
  {
    BestMeaning(candidates);
    hide Covered, AllIn, StrictlySorted, Sort, BestOf;
    SortMeaning(BestOf(candidates));
    SameElements(Sort(BestOf(candidates)), BestOf(candidates));
    ReorderKeepsBest(BestOf(candidates), Sort(BestOf(candidates)), candidates);
  }

  // ----- ranks

  lemma {:induction false} RanksPrefix(ordered: seq<Candidate>, margin: real, m: nat, n: nat)
    requires m <= n <= |ordered|
    ensures Ranks(ordered, margin, n)[..m] == Ranks(ordered, margin, m)
  {
    if m < n {
      RanksPrefix(ordered, margin, m, n - 1);
    }
  }

  /** How one more entry is ranked. */
  lemma RankStep(ordered: seq<Candidate>, margin: real, n: nat, i: nat)
    requires i < n <= |ordered|
    ensures var r := Ranks(ordered, margin, n);
      r[i] == if i > 0 && Tied(ordered[r[i - 1] - 1], ordered[i], margin) then r[i - 1] else i + 1
  {
  }

  /** Every entry of a group after its head is tied to the head, and a head heads itself. */
  lemma {:induction false} HeadOf(ordered: seq<Candidate>, margin: real, n: nat, i: nat)
    requires i < n <= |ordered|
    ensures var r := Ranks(ordered, margin, n);
      && r[r[i] - 1] == r[i]
      && (r[i] - 1 < i ==> Tied(ordered[r[i] - 1], ordered[i], margin))
  {
    RankStep(ordered, margin, n, i);
    if i > 0 {
      HeadOf(ordered, margin, n, i - 1);
    }
  }

  /** Everything sorted between a head and an entry tied to it joins the head's group. */
  lemma {:induction false} GroupReaches(ordered: seq<Candidate>, margin: real, n: nat, head: nat, j: nat)
    requires head <= j < n <= |ordered| && StrictlySorted(ordered)
    requires Ranks(ordered, margin, n)[head] == head + 1
    requires head < j ==> Tied(ordered[head], ordered[j], margin)
    ensures Ranks(ordered, margin, n)[j] == head + 1
  {
    if head < j {
      assert Before(ordered[head], ordered[j]);
      if head < j - 1 {
        assert Before(ordered[head], ordered[j - 1]) && Before(ordered[j - 1], ordered[j]);
      }
      GroupReaches(ordered, margin, n, head, j - 1);
      RankStep(ordered, margin, n, j);
    }
  }

  /** Two candidates share a rank exactly when the later one has the tier of the group's head and lies within the
      tie margin of it. */
  lemma SharedRank(ordered: seq<Candidate>, margin: real, i: nat, j: nat)
    requires i < j < |ordered| && StrictlySorted(ordered)
    ensures var r := Ranks(ordered, margin, |ordered|);
      r[i] == r[j] <==> Tied(ordered[r[i] - 1], ordered[j], margin)
  {
    hide Ranks, Tied;
    var n := |ordered|;
    var r := Ranks(ordered, margin, n);
    HeadOf(ordered, margin, n, i);
    HeadOf(ordered, margin, n, j);
    if Tied(ordered[r[i] - 1], ordered[j], margin) {
      GroupReaches(ordered, margin, n, r[i] - 1, j);
    }
  }

  lemma {:induction false} CountMeaning(ranks: seq<nat>, rank: nat)
    ensures CountOf(ranks, rank) > 1 <==> exists i, j :: 0 <= i < j < |ranks| && ranks[i] == rank == ranks[j]
    ensures CountOf(ranks, rank) > 0 <==> rank in ranks
  {
    if ranks != [] {
      var n := |ranks| - 1;
      CountMeaning(ranks[..n], rank);
      assert forall i :: 0 <= i < n ==> ranks[..n][i] == ranks[i];
      if ranks[n] == rank && rank in ranks[..n] {
        var i :| 0 <= i < n && ranks[..n][i] == rank;
        assert ranks[i] == rank == ranks[n];
      }
    }
  }

  /** Some other entry has the rank of entry `i`. */
  predicate Shares(ranks: seq<nat>, i: nat)
    requires i < |ranks|
  {
    exists j :: 0 <= j < |ranks| && j != i && ranks[j] == ranks[i]
  }

  lemma SharesMeaning(ranks: seq<nat>, i: nat)
    requires i < |ranks|
    ensures CountOf(ranks, ranks[i]) > 1 <==> Shares(ranks, i)
  {
    CountMeaning(ranks, ranks[i]);
    if Shares(ranks, i) {
      var j :| 0 <= j < |ranks| && j != i && ranks[j] == ranks[i];
      var a, b := if i < j then i else j, if i < j then j else i;
      assert ranks[a] == ranks[i] == ranks[b];
    }
    if CountOf(ranks, ranks[i]) > 1 {
      var a, b :| 0 <= a < b < |ranks| && ranks[a] == ranks[i] == ranks[b];
      assert a != i || b != i;
    }
  }

  /** The shortlist, specified: a prefix of the strictly sorted best candidates, ranks that satisfy the persisted
      check and uniqueness constraints, a tie warning exactly when some other candidate shares the rank, and
      `ambiguous` exactly when two candidates share the top rank. */
  lemma ShortlistMeaning(candidates: seq<Candidate>, margin: real, max: nat)
    ensures var ordered, s := Sort(BestOf(candidates)), Shortlisted(candidates, margin, max);
      && IsBest(ordered, candidates) && StrictlySorted(ordered)
      && |s.suggestions| == (if max < |ordered| then max else |ordered|)
      && s.total == |ordered|
      && var r := Ranks(ordered, margin, |ordered|);
      && (forall i :: 0 <= i < |s.suggestions| ==> s.suggestions[i] == Ranked(r[i], ordered[i], Shares(r, i)))
      && (forall i :: 0 <= i < |s.suggestions| ==> 1 <= s.suggestions[i].rank <= i + 1 <= max)
      && (s.ambiguous <==> |ordered| > 1 && Tied(ordered[0], ordered[1], margin))
  {
    OrderedMeaning(candidates);
    hide IsBest, StrictlySorted, BestOf, Sort, Shares, CountOf, Ranks, Tied;
    var ordered, s := Sort(BestOf(candidates)), Shortlisted(candidates, margin, max);
    var r := Ranks(ordered, margin, |ordered|);
    forall i | 0 <= i < |s.suggestions|
      ensures s.suggestions[i] == Ranked(r[i], ordered[i], Shares(r, i))
    {
      SharesMeaning(r, i);
    }
    AmbiguousMeaning(ordered, margin);
  }

  lemma AmbiguousMeaning(ordered: seq<Candidate>, margin: real)
    requires StrictlySorted(ordered)
    ensures CountOf(Ranks(ordered, margin, |ordered|), 1) > 1 <==> |ordered| > 1 && Tied(ordered[0], ordered[1], margin)
  {
    var r := Ranks(ordered, margin, |ordered|);
    CountMeaning(r, 1);
    if |ordered| > 1 {
      RankStep(ordered, margin, |ordered|, 0);
      SharedRank(ordered, margin, 0, 1);
      if Tied(ordered[0], ordered[1], margin) {
        assert r[0] == 1 == r[1];
      }
      if i, j :| 0 <= i < j < |r| && r[i] == 1 == r[j] {
        SharedRank(ordered, margin, 0, j);
        assert Before(ordered[0], ordered[1]) && (j > 1 ==> Before(ordered[1], ordered[j]));
      }
    }
  }

  // ----- order independence

  function Keys(xs: seq<Candidate>): set<Candidate> {
    set c | c in xs :: Key(c)
  }

  /** The best keys, from the set of keys alone. */
  function BestKeys(keys: set<Candidate>): set<Candidate> {
    set k | k in keys && Unbeaten(k, keys)
  }

  /** No key of the same product is better. */
  predicate Unbeaten(k: Candidate, keys: set<Candidate>) {
    forall l :: l in keys && l.productId == k.productId ==> !Better(l, k)
  }

  lemma BestKeysOf(best: seq<Candidate>, candidates: seq<Candidate>)
    requires IsBest(best, candidates)
    ensures Keys(best) == BestKeys(Keys(candidates))
  {
  }

  lemma SameFirst(xs: seq<Candidate>, ys: seq<Candidate>)
    requires xs != [] && ys != [] && StrictlySorted(xs) && StrictlySorted(ys)
    requires xs[0] in ys && ys[0] in xs
    ensures xs[0] == ys[0]
  {
  }

  /** A strictly sorted sequence is determined by its elements. */
  lemma {:induction false} SortedUnique(xs: seq<Candidate>, ys: seq<Candidate>)
    requires StrictlySorted(xs) && StrictlySorted(ys)
    requires forall c :: c in xs <==> c in ys
    ensures xs == ys
  {
    if xs == [] {
      assert forall i :: 0 <= i < |ys| ==> ys[i] in xs;
    } else {
      assert xs[0] in ys && ys[0] in xs;
      SameFirst(xs, ys);
      TailElements(xs);
      TailElements(ys);
      SortedUnique(xs[1..], ys[1..]);
    }
  }

  lemma TailElements(xs: seq<Candidate>)
    requires xs != [] && StrictlySorted(xs)
    ensures StrictlySorted(xs[1..])
    ensures forall c :: c in xs[1..] <==> c in xs && c != xs[0]
  {
  }

  lemma {:induction false} RanksOfKeys(xs: seq<Candidate>, ys: seq<Candidate>, margin: real, n: nat)
    requires n <= |xs| == |ys| && Map(Key, xs) == Map(Key, ys)
    ensures Ranks(xs, margin, n) == Ranks(ys, margin, n)
  {
    if n != 0 {
      RanksOfKeys(xs, ys, margin, n - 1);
      var r := Ranks(xs, margin, n - 1);
      assert Map(Key, xs)[n - 1] == Key(xs[n - 1]) && Map(Key, ys)[n - 1] == Key(ys[n - 1]);
      if n > 1 {
        assert Map(Key, xs)[r[n - 2] - 1] == Key(xs[r[n - 2] - 1])
          && Map(Key, ys)[r[n - 2] - 1] == Key(ys[r[n - 2] - 1]);
      }
    }
  }

  /** A ranked suggestion without its texts. */
  function Bare(s: Ranked): Ranked {
    s.(candidate := Key(s.candidate))
  }

  lemma SameOrderedKeys(a: seq<Candidate>, b: seq<Candidate>)
    requires Keys(a) == Keys(b)
    ensures Map(Key, Sort(BestOf(a))) == Map(Key, Sort(BestOf(b)))
  {
    hide Before, BestKeys, IsBest, BestOf, Sort, Keys;
    OrderedMeaning(a);
    OrderedMeaning(b);
    var x, y := Sort(BestOf(a)), Sort(BestOf(b));
    BestKeysOf(x, a);
    BestKeysOf(y, b);
    KeysOfMap(x);
    KeysOfMap(y);
    SortedUnique(Map(Key, x), Map(Key, y));
  }

  /** Ranking never depends on the order, or the multiplicity, in which candidates were found: product, tier, score,
      rank, tie warnings and ambiguity are functions of the set of (product, tier, score) triples. */
  lemma RankingIsOrderIndependent(a: seq<Candidate>, b: seq<Candidate>, margin: real, max: nat)
    requires Keys(a) == Keys(b)
    ensures var s, t := Shortlisted(a, margin, max), Shortlisted(b, margin, max);
      Map(Bare, s.suggestions) == Map(Bare, t.suggestions) && s.ambiguous == t.ambiguous && s.total == t.total
  {
    hide BestOf, Sort, Keys, Ranks, CountOf;
    SameOrderedKeys(a, b);
    var x, y := Sort(BestOf(a)), Sort(BestOf(b));
    assert |x| == |Map(Key, x)| == |Map(Key, y)| == |y|;
    RanksOfKeys(x, y, margin, |x|);
    var s, t := Shortlisted(a, margin, max), Shortlisted(b, margin, max);
    forall i | 0 <= i < |s.suggestions|
      ensures Bare(s.suggestions[i]) == Bare(t.suggestions[i])
    {
      assert Map(Key, x)[i] == Map(Key, y)[i];
    }
  }

  lemma KeysOfMap(xs: seq<Candidate>)
    requires StrictlySorted(xs)
    ensures StrictlySorted(Map(Key, xs))
    ensures forall k :: k in Map(Key, xs) <==> k in Keys(xs)
  {
  }
}
