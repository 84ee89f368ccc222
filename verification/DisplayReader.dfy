/** The gated read of one projection (`AdvisorySuggestionDisplayReader` in `app/composition/advisory_display.py`). */
module DisplayReader {
  import opened Core
  import opened SuggestionSets
  import opened DisplayProtocol

  /** The set passes the gate for this line. */
  predicate Passes(row: StoredSet, line: DisplayedLine, now: Time) {
    row.lineNumber == line.lineNumber && BlockOf(row, line, now) == None
  }

  /** Exactly one of the stored sets passes for this line. */
  predicate OnlyPassing(stored: seq<(SetId, StoredSet)>, line: DisplayedLine, now: Time, at: nat) {
    && at < |stored| && Passes(stored[at].1, line, now)
    && forall i :: 0 <= i < |stored| && i != at ==> !Passes(stored[i].1, line, now)
  }

  /** The views of one projection: one per line that has exactly one passing set. `lines` are the projected
      PRODUCT_NOT_FOUND lines of the review and `stored` its current sets. */
  method ReadViews(pending: bool, lines: seq<DisplayedLine>, stored: seq<(SetId, StoredSet)>, now: Time)
    returns (views: seq<(nat, nat)>)
    ensures !pending ==> views == []
    ensures forall v :: v in views ==> v.0 < |lines| && OnlyPassing(stored, lines[v.0], now, v.1)
    ensures pending ==>
      forall l: nat, at: nat :: l < |lines| && OnlyPassing(stored, lines[l], now, at) ==> (l, at) in views
    ensures forall i, j :: 0 <= i < j < |views| ==> views[i].0 < views[j].0
  {
    hide BlockOf;
    if !pending || lines == [] {
      return [];
    }
    views := [];
    for l := 0 to |lines|
      invariant forall v :: v in views ==> v.0 < l && OnlyPassing(stored, lines[v.0], now, v.1)
      invariant forall k: nat, at: nat :: k < l && OnlyPassing(stored, lines[k], now, at) ==> (k, at) in views
      invariant forall i, j :: 0 <= i < j < |views| ==> views[i].0 < views[j].0
    {
      var passing: seq<nat> := [];
      for i := 0 to |stored|
        invariant forall a :: 0 <= a < |passing| ==> passing[a] < i
        invariant forall a, b :: 0 <= a < b < |passing| ==> passing[a] < passing[b]
        invariant forall k: nat :: k in passing <==> k < i && Passes(stored[k].1, lines[l], now)
      {
        if Passes(stored[i].1, lines[l], now) {
          passing := passing + [i];
        }
      }
      if |passing| == 1 {
        assert passing[0] in passing;
        forall i: nat | i < |stored| && i != passing[0]
          ensures !Passes(stored[i].1, lines[l], now)
        {
          assert i !in passing;
        }
        assert OnlyPassing(stored, lines[l], now, passing[0]);
        views := views + [(l, passing[0])];
        assert (l, passing[0]) in views;
      } else if |passing| > 1 {
        assert passing[0] in passing && passing[1] in passing;
      }
    }
  }

  /** What the reader returns is what the step system lets a projection publish. */
  lemma ReaderPublishes(s: State, review: string, lines: seq<DisplayedLine>, stored: seq<(SetId, StoredSet)>,
                        views: seq<(nat, nat)>)
    requires forall i :: 0 <= i < |stored| ==>
      stored[i].0 in s.table && s.table[stored[i].0] == stored[i].1 && stored[i].1.reviewId == review
    requires forall v :: v in views ==> v.0 < |lines| && OnlyPassing(stored, lines[v.0], s.now, v.1)
    ensures forall v :: v in views ==> v.1 < |stored|
    ensures Publishable(s, review, set i | 0 <= i < |views| && views[i].1 < |stored| :: stored[views[i].1].0)
  {
  }
}
