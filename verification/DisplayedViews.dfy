/** What a displayed view guarantees about its line, with every condition and duration written out
    (`display_block` and `needs_display_refresh` in `app/advisory/suggestion_sets.py`). */
module DisplayedViews {
  import opened Core
  import opened SuggestionEngine
  import opened SuggestionSets
  import opened DisplayProtocol
  import opened DisplayReader

  const MINUTE: Time := 60000000

  /** The condition each block stands for. */
  predicate Fails(block: DisplayBlock, stored: StoredSet, line: DisplayedLine, now: Time) {
    match block
    case NotPendingBlock => !line.reviewPending
    case VersionMismatch => stored.reviewVersion != line.reviewVersion
    case LineNotProductNotFound => !line.productNotFound
    case SetNotCurrent => stored.status == Superseded || stored.status == Invalidated
    case LineIdentityMismatch => stored.lineKey != line.lineKey || stored.lineNumber != line.lineNumber
    case SupplierMismatch => line.supplierId == None || stored.supplierId != line.supplierId
    case SellerCodeMismatch => stored.sellerCode != line.sellerCode
    case ValidationExpired => now - stored.validatedAt > 19 * MINUTE
    case NothingToShow => |stored.result.suggestions| == 0 && |stored.result.notes| == 0
  }

  /** The order in which the conditions are reported. */
  function Position(block: DisplayBlock): nat {
    match block
    case NotPendingBlock => 0
    case VersionMismatch => 1
    case LineNotProductNotFound => 2
    case SetNotCurrent => 3
    case LineIdentityMismatch => 4
    case SupplierMismatch => 5
    case SellerCodeMismatch => 6
    case ValidationExpired => 7
    case NothingToShow => 8
  }

  lemma Cutoff()
    ensures PROJECTION_CUTOFF == 19 * MINUTE && DISPLAY_VALIDITY == 20 * MINUTE && DISPLAY_SWEEP_INTERVAL == MINUTE
  {
  }

  /** A set is blocked for a line by the first condition that fails, and by nothing else. */
  lemma BlockedExactly(stored: StoredSet, line: DisplayedLine, now: Time, block: DisplayBlock)
    ensures BlockOf(stored, line, now) == Some(block) <==>
      && Fails(block, stored, line, now)
      && forall earlier: DisplayBlock :: Position(earlier) < Position(block) ==> !Fails(earlier, stored, line, now)
    ensures BlockOf(stored, line, now) == None <==> forall b: DisplayBlock :: !Fails(b, stored, line, now)
  {
    Cutoff();
    var shown := BlockOf(stored, line, now);
    assert shown.Some? ==> Fails(shown.value, stored, line, now);
    forall earlier: DisplayBlock | shown.None? || Position(earlier) < Position(shown.value)
      ensures !Fails(earlier, stored, line, now)
    {
    }
    SamePosition();
  }

  lemma SamePosition()
    ensures forall a: DisplayBlock, b: DisplayBlock :: Position(a) == Position(b) ==> a == b
  {
  }

  /** The set is this pending line's: the same version, key, number, supplier and seller code, current, validated within
      the last nineteen minutes, and with something to say. */
  predicate Describes(stored: StoredSet, line: DisplayedLine, now: Time) {
    && line.reviewPending && line.productNotFound
    && stored.status == Current && stored.reviewVersion == line.reviewVersion
    && stored.lineKey == line.lineKey && stored.lineNumber == line.lineNumber
    && line.supplierId.Some? && stored.supplierId == line.supplierId && stored.sellerCode == line.sellerCode
    && now - stored.validatedAt <= 19 * MINUTE
    && (|stored.result.suggestions| > 0 || |stored.result.notes| > 0)
  }

  lemma PassesExactly(stored: StoredSet, line: DisplayedLine, now: Time)
    ensures Passes(stored, line, now) <==> Describes(stored, line, now)
  {
    Cutoff();
  }

  /** The view of a line shows the one stored set that describes it. */
  lemma ViewExactly(stored: seq<(SetId, StoredSet)>, line: DisplayedLine, now: Time, at: nat)
    ensures OnlyPassing(stored, line, now, at) <==>
      && at < |stored| && Describes(stored[at].1, line, now)
      && forall i :: 0 <= i < |stored| && i != at ==> !Describes(stored[i].1, line, now)
  {
    forall row: StoredSet
      ensures Passes(row, line, now) <==> Describes(row, line, now)
    {
      PassesExactly(row, line, now);
    }
    hide Passes, Describes;
  }

  /** A set is due while nothing is known of its display, or when it is current, older than nineteen minutes, and was
      last refreshed before it became so. */
  lemma DueExactly(stored: StoredSet, now: Time)
    ensures NeedsDisplayRefresh(stored, now) <==>
      || stored.syncedAt == None
      || (stored.status == Current && now - stored.validatedAt > 19 * MINUTE
          && stored.syncedAt.value - stored.validatedAt < 19 * MINUTE)
  {
    Cutoff();
  }
}
