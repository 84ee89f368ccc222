/** The display staleness contract as a step system: advisory ticks, projections of every flow and the display sweep
    interleave freely; only each projection, each row update and each clock reading is atomic.
    (`app/advisory/suggestion_sets.py`, `app/composition/advisory_display.py`.) */
module DisplayProtocol {
  import opened Core
  import opened SuggestionSets

  type SetId = int

  /** The due sets of one review, as the sweep read them. */
  datatype Group = Group(review: string, read: map<SetId, StoredSet>)

  /** Where the sweep is with its first pending review. */
  datatype Phase = Between | Started(at: Time) | Synced(at: Time)

  datatype Sweep = Idle | Sweeping(begun: Time, pending: seq<Group>, phase: Phase)

  /** `shown` is what Odoo displays; `lastSweep` is when the last completely successful sweep began. */
  datatype State = State(
    now: Time,
    table: map<SetId, StoredSet>,
    retiredAt: map<SetId, Time>,
    shown: set<SetId>,
    sweep: Sweep,
    lastSweep: Time)

  datatype Event =
    | Advance(duration: Time)
    | Insert(id: SetId, row: StoredSet)
    | RevalidateSet(id: SetId, validatedAt: Time)
    | RetireSet(id: SetId, status: SetStatus)
    | ResetMarkers
    | Project(review: string, kept: set<SetId>, displayed: set<SetId>)
    | BeginSweep(groups: seq<Group>)
    | StartReview
    | SyncReview(displayed: set<SetId>)
    | MarkReview
    | CompleteSweep
    | AbortSweep

  // ----- guards and effects

  /** Some projected line would pass the display gate for this set. */
  ghost predicate MayShow(row: StoredSet, now: Time) {
    exists line :: BlockOf(row, line, now) == None
  }

  function SetsOf(table: map<SetId, StoredSet>, review: string): set<SetId> {
    set id | id in table && table[id].reviewId == review
  }

  /** A projection of `review` may publish any of its sets that pass the gate now, and nothing else. */
  ghost predicate Publishable(s: State, review: string, displayed: set<SetId>) {
    forall id :: id in displayed ==> id in s.table && s.table[id].reviewId == review && MayShow(s.table[id], s.now)
  }

  /** A projection replaces what the review showed; one that fails midway leaves `kept` as it was. */
  function Published(s: State, review: string, kept: set<SetId>, displayed: set<SetId>): set<SetId> {
    (s.shown - (SetsOf(s.table, review) - kept)) + displayed
  }

  predicate Pending(groups: seq<Group>, review: string) {
    exists i :: 0 <= i < |groups| && groups[i].review == review
  }

  /** `display_refresh_due`, grouped by review: exactly the due sets, each with the row that was read. */
  ghost predicate DueGroups(s: State, groups: seq<Group>) {
    && (forall id :: id in s.table && NeedsDisplayRefresh(s.table[id], s.now) ==>
          exists i :: 0 <= i < |groups| && groups[i].review == s.table[id].reviewId && id in groups[i].read)
    && (forall i, id :: 0 <= i < |groups| && id in groups[i].read ==>
          && id in s.table && groups[i].read[id] == s.table[id] && s.table[id].reviewId == groups[i].review
          && NeedsDisplayRefresh(s.table[id], s.now))
  }

  function MarkAll(table: map<SetId, StoredSet>, read: map<SetId, StoredSet>, at: Time): map<SetId, StoredSet> {
    map id | id in table :: if id in read then Mark(table[id], read[id], at) else table[id]
  }

  /** `budget` bounds the time since the last completely successful sweep began. The scheduler starts a sweep
      `DISPLAY_SWEEP_INTERVAL` after the previous start, so the budget is that interval plus what sweeps take. */
  ghost predicate Enabled(s: State, e: Event, budget: Time) {
    match e
    case Advance(d) => d >= 0 && s.now + d - s.lastSweep <= budget
    case Insert(id, row) => id !in s.table && row.status == Current && row.syncedAt.None? && row.validatedAt <= s.now
    case RevalidateSet(id, at) =>
      id in s.table && s.table[id].status == Current && s.table[id].validatedAt <= at <= s.now
    case RetireSet(id, status) => id in s.table && s.table[id].status == Current && status != Current
    case ResetMarkers => true
    case Project(review, _, displayed) => Publishable(s, review, displayed)
    case BeginSweep(groups) => s.sweep.Idle? && DueGroups(s, groups)
    case StartReview => s.sweep.Sweeping? && s.sweep.phase.Between? && s.sweep.pending != []
    case SyncReview(displayed) =>
      && s.sweep.Sweeping? && s.sweep.phase.Started? && s.sweep.pending != []
      && Publishable(s, s.sweep.pending[0].review, displayed)
    case MarkReview => s.sweep.Sweeping? && s.sweep.phase.Synced? && s.sweep.pending != []
    case CompleteSweep => s.sweep.Sweeping? && s.sweep.phase.Between? && s.sweep.pending == []
    case AbortSweep => s.sweep.Sweeping?
  }

  /** The compare-and-set of this group's mark will succeed on the set. */
  predicate WillMark(s: State, g: Group, id: SetId) {
    id in g.read && id in s.table && SameVersion(s.table[id], g.read[id])
  }

  /** A refresh of the set carries the current instant as its start mark: it is recorded already, or the running
      refresh will record it after this projection because its compare-and-set will succeed. */
  predicate StartMarkedNow(s: State, id: SetId, bySweep: bool)
    requires id in s.table
  {
    || s.table[id].syncedAt == Some(s.now)
    || (&& s.sweep.Sweeping? && s.sweep.pending != [] && WillMark(s, s.sweep.pending[0], id)
        && (if bySweep then s.sweep.phase == Started(s.now) else s.sweep.phase == Synced(s.now)))
  }

  /** Start mark, projection and the end of projectability of a published set fall on the same instant. */
  predicate CoincidesFor(s: State, id: SetId, bySweep: bool) {
    id in s.table && s.now == s.table[id].validatedAt + PROJECTION_CUTOFF && StartMarkedNow(s, id, bySweep)
  }

  /** The running refresh has synchronized its review and will mark the set next. */
  predicate AboutToMark(s: State, id: SetId, synced: bool) {
    synced && s.sweep.Sweeping? && s.sweep.pending != [] && WillMark(s, s.sweep.pending[0], id)
  }

  predicate InSync(s: State) {
    s.sweep.Sweeping? && s.sweep.phase.Synced?
  }

  /** An unmarked set makes the next complete sweep synchronize its review. */
  predicate Rescues(s: State, review: string, id: SetId, synced: bool) {
    id in s.table && s.table[id].reviewId == review && s.table[id].syncedAt.None? && !AboutToMark(s, id, synced)
  }

  predicate Rescued(s: State, review: string, synced: bool) {
    exists id :: id in s.table && Rescues(s, review, id, synced)
  }

  predicate Coincides(s: State, displayed: set<SetId>, bySweep: bool) {
    exists id :: id in displayed && CoincidesFor(s, id, bySweep)
      && !Rescued(s, s.table[id].reviewId, bySweep || InSync(s))
  }

  /** The one coincidence the contract cannot take: the set is shown and recorded as cleared, and no unmarked set of
      its review will make a sweep take it off the display. */
  predicate Overlaps(s: State, e: Event) {
    match e
    case Project(_, _, displayed) => Coincides(s, displayed, false)
    case SyncReview(displayed) => Coincides(s, displayed, true)
    case _ => false
  }

  function Apply(s: State, e: Event, budget: Time): State
    requires Enabled(s, e, budget)
  {
    match e
    case Advance(d) => s.(now := s.now + d)
    case Insert(id, row) => s.(table := s.table[id := row])
    case RevalidateSet(id, at) => s.(table := s.table[id := Revalidate(s.table[id], at)])
    case RetireSet(id, status) =>
      s.(table := s.table[id := Retire(s.table[id], status)], retiredAt := s.retiredAt[id := s.now])
    case ResetMarkers => s.(table := map id | id in s.table :: ResetMarker(s.table[id]))
    case Project(review, kept, displayed) => s.(shown := Published(s, review, kept, displayed))
    case BeginSweep(groups) => s.(sweep := Sweeping(s.now, groups, Between))
    case StartReview => s.(sweep := s.sweep.(phase := Started(s.now)))
    case SyncReview(displayed) =>
      s.(shown := Published(s, s.sweep.pending[0].review, {}, displayed),
         sweep := s.sweep.(phase := Synced(s.sweep.phase.at)))
    case MarkReview =>
      s.(table := MarkAll(s.table, s.sweep.pending[0].read, s.sweep.phase.at),
         sweep := s.sweep.(pending := s.sweep.pending[1..], phase := Between))
    case CompleteSweep => s.(sweep := Idle, lastSweep := s.sweep.begun)
    case AbortSweep => s.(sweep := Idle)
  }

  predicate Init(s: State) {
    s.table == map[] && s.retiredAt == map[] && s.shown == {} && s.sweep == Idle && s.lastSweep == s.now
  }

  /** A run: every event enabled when it happens; a guarded run has no overlap. */
  ghost predicate Reaches(s: State, events: seq<Event>, budget: Time, guarded: bool, t: State)
    decreases |events|
  {
    if events == [] then t == s
    else
      && Enabled(s, events[0], budget) && (guarded ==> !Overlaps(s, events[0]))
      && Reaches(Apply(s, events[0], budget), events[1..], budget, guarded, t)
  }

  // ----- the invariant

  /** Out of date when a sweep begins at `t`: past the cutoff, or retired before. */
  predicate OutOfDate(s: State, id: SetId, t: Time)
    requires id in s.table
  {
    || t - s.table[id].validatedAt > PROJECTION_CUTOFF
    || (s.table[id].status != Current && (id !in s.retiredAt || s.retiredAt[id] < t))
  }

  /** Not recorded as cleared, and still due if retired. */
  predicate StillDue(row: StoredSet) {
    !DisplayCleared(row.validatedAt, row.syncedAt) && (row.status != Current ==> row.syncedAt.None?)
  }

  /** The reviews the running sweep has yet to refresh. */
  function Remaining(sweep: Sweep): seq<Group>
    requires sweep.Sweeping?
  {
    if sweep.phase.Synced? && sweep.pending != [] then sweep.pending[1..] else sweep.pending
  }

  predicate RowsOk(s: State) {
    && s.shown <= s.table.Keys && s.retiredAt.Keys <= s.table.Keys
    && forall id :: id in s.table ==>
         && s.table[id].validatedAt <= s.now
         && (s.table[id].syncedAt.Some? ==> s.table[id].syncedAt.value <= s.now)
         && (id in s.retiredAt ==> s.retiredAt[id] <= s.now)
  }

  /** Every shown set is up to date, and it or a set of its review is still due. */
  predicate ShownOk(s: State) {
    && s.shown <= s.table.Keys
    && forall id :: id in s.shown ==>
         !OutOfDate(s, id, s.lastSweep) && (StillDue(s.table[id]) || Rescued(s, s.table[id].reviewId, InSync(s)))
  }

  predicate ClockOk(s: State, budget: Time) {
    s.lastSweep <= s.now && s.now - s.lastSweep <= budget
  }

  /** A row only moves on from what a group read of it: retirement is final, and validations never go back. */
  predicate GroupOk(s: State, g: Group) {
    forall id :: id in g.read ==>
      id in s.table && s.table[id].reviewId == g.review
      && (g.read[id].status != Current ==> s.table[id].status == g.read[id].status)
      && g.read[id].validatedAt <= s.table[id].validatedAt
  }

  /** After a review was synchronized from `at` on, a shown set that the mark will reach was read as current and is
      not cleared by it, or another set of the review stays due. */
  predicate SyncedOk(s: State, g: Group, at: Time) {
    && s.shown <= s.table.Keys
    && forall id :: id in s.shown && WillMark(s, g, id) ==>
         || (g.read[id].status == Current && s.table[id].validatedAt + PROJECTION_CUTOFF > at)
         || Rescued(s, s.table[id].reviewId, true)
  }

  predicate MarkedBy(table: map<SetId, StoredSet>, at: Time) {
    forall id :: id in table && table[id].syncedAt.Some? ==> table[id].syncedAt.value <= at
  }

  predicate SweepOk(s: State) {
    s.sweep.Sweeping? ==>
      && s.shown <= s.table.Keys
      && s.lastSweep <= s.sweep.begun <= s.now
      && (forall i :: 0 <= i < |s.sweep.pending| ==> GroupOk(s, s.sweep.pending[i]))
      && (forall id :: id in s.shown && OutOfDate(s, id, s.sweep.begun) ==>
            Pending(Remaining(s.sweep), s.table[id].reviewId))
      && (!s.sweep.phase.Between? ==> s.sweep.begun <= s.sweep.phase.at <= s.now && MarkedBy(s.table, s.sweep.phase.at))
      && (s.sweep.phase.Synced? ==> s.sweep.pending != [] && SyncedOk(s, s.sweep.pending[0], s.sweep.phase.at))
  }

  predicate Inv(s: State, budget: Time) {
    RowsOk(s) && ShownOk(s) && ClockOk(s, budget) && SweepOk(s)
  }

  /** What Odoo shows was validated at most `age` ago, and a retired set is gone within `lag`. */
  predicate Fresh(s: State, age: Time, lag: Time) {
    && s.shown <= s.table.Keys
    && forall id :: id in s.shown ==>
         && s.now - s.table[id].validatedAt <= age
         && (s.table[id].status != Current ==> id in s.retiredAt && s.now - s.retiredAt[id] <= lag)
  }

  lemma InvImpliesFresh(s: State, budget: Time)
    requires Inv(s, budget)
    ensures Fresh(s, PROJECTION_CUTOFF + budget, budget)
  {
  }

  // ----- each step keeps it

  /** What an accepted projection adds to the display. */
  lemma DisplayedSets(s: State, budget: Time, review: string, displayed: set<SetId>, bySweep: bool, id: SetId)
    requires Inv(s, budget) && Publishable(s, review, displayed) && !Coincides(s, displayed, bySweep)
    requires id in displayed
    ensures id in s.table && s.table[id].reviewId == review && s.table[id].status == Current
    ensures IsProjectable(s.table[id], s.now) && !OutOfDate(s, id, s.lastSweep)
    ensures s.sweep.Sweeping? ==> !OutOfDate(s, id, s.sweep.begun)
    ensures StillDue(s.table[id]) || Rescued(s, review, bySweep || InSync(s))
    ensures s.now == s.table[id].validatedAt + PROJECTION_CUTOFF && StartMarkedNow(s, id, bySweep) ==>
      Rescued(s, review, bySweep || InSync(s))
  {
    hide Rescued;
  }

  lemma ProjectKeeps(s: State, budget: Time, review: string, kept: set<SetId>, displayed: set<SetId>)
    requires Inv(s, budget) && Publishable(s, review, displayed) && !Coincides(s, displayed, false)
    ensures Inv(s.(shown := Published(s, review, kept, displayed)), budget)
  {
    var t := s.(shown := Published(s, review, kept, displayed));
    assert forall r, synced :: Rescued(t, r, synced) == Rescued(s, r, synced);
    hide Rescued, Coincides;
    forall id | id in t.shown && id !in s.shown
      ensures id in s.table && !OutOfDate(t, id, t.lastSweep)
      ensures StillDue(t.table[id]) || Rescued(s, s.table[id].reviewId, InSync(s))
      ensures s.sweep.Sweeping? ==> !OutOfDate(t, id, s.sweep.begun)
      ensures InSync(s) && WillMark(t, s.sweep.pending[0], id) ==>
        || (s.sweep.pending[0].read[id].status == Current
            && t.table[id].validatedAt + PROJECTION_CUTOFF > s.sweep.phase.at)
        || Rescued(s, s.table[id].reviewId, true)
    {
      DisplayedSets(s, budget, review, displayed, false, id);
    }
    assert forall id :: id in t.shown ==> id in t.table.Keys;
  }

  lemma SyncKeeps(s: State, budget: Time, displayed: set<SetId>)
    requires Inv(s, budget) && Enabled(s, SyncReview(displayed), budget) && !Coincides(s, displayed, true)
    ensures Inv(Apply(s, SyncReview(displayed), budget), budget)
  {
    var g, rest := s.sweep.pending[0], s.sweep.pending[1..];
    var t := Apply(s, SyncReview(displayed), budget);
    assert forall r :: Rescued(t, r, true) == Rescued(s, r, true);
    forall id | id in t.shown
      ensures id in s.table && !OutOfDate(t, id, t.lastSweep)
      ensures StillDue(t.table[id]) || Rescued(t, t.table[id].reviewId, true)
      ensures OutOfDate(t, id, s.sweep.begun) ==> Pending(rest, t.table[id].reviewId)
      ensures WillMark(t, g, id) ==>
        || (g.read[id].status == Current && t.table[id].validatedAt + PROJECTION_CUTOFF > s.sweep.phase.at)
        || Rescued(t, t.table[id].reviewId, true)
    {
      assert GroupOk(s, g);
      if id in displayed {
        DisplayedSets(s, budget, g.review, displayed, true, id);
      } else {
        RescuedElsewhere(s, g, s.table[id].reviewId);
        if OutOfDate(s, id, s.sweep.begun) {
          PendingAfter(s.sweep.pending, s.table[id].reviewId);
        }
      }
    }
    assert forall id :: id in t.shown ==> id in t.table.Keys;
    assert forall i :: 0 <= i < |t.sweep.pending| ==> GroupOk(s, s.sweep.pending[i]) && GroupOk(t, t.sweep.pending[i]);
  }

  /** The running refresh marks no set of another review. */
  lemma RescuedElsewhere(s: State, g: Group, review: string)
    requires s.sweep.Sweeping? && s.sweep.pending != [] && s.sweep.pending[0] == g
    requires GroupOk(s, g) && review != g.review
    ensures Rescued(s, review, false) ==> Rescued(s, review, true)
  {
    if Rescued(s, review, false) {
      var id :| id in s.table && Rescues(s, review, id, false);
      assert Rescues(s, review, id, true);
    }
  }

  lemma PendingAfter(groups: seq<Group>, review: string)
    requires groups != [] && Pending(groups, review) && groups[0].review != review
    ensures Pending(groups[1..], review)
  {
  }

  lemma MarkShows(s: State, budget: Time, id: SetId)
    requires Inv(s, budget) && Enabled(s, MarkReview, budget) && id in s.shown
    ensures var t := Apply(s, MarkReview, budget);
      StillDue(t.table[id]) || Rescued(t, t.table[id].reviewId, false)
  {
    var g, t := s.sweep.pending[0], Apply(s, MarkReview, budget);
    if Rescued(s, s.table[id].reviewId, true) {
      var other :| other in s.table && Rescues(s, s.table[id].reviewId, other, true);
      assert Rescues(t, t.table[id].reviewId, other, false);
    } else {
      assert WillMark(s, g, id) ==> g.read[id].status == Current;
    }
  }

  lemma MarkKeeps(s: State, budget: Time)
    requires Inv(s, budget) && Enabled(s, MarkReview, budget)
    ensures Inv(Apply(s, MarkReview, budget), budget)
  {
    var t := Apply(s, MarkReview, budget);
    forall id | id in s.shown
      ensures StillDue(t.table[id]) || Rescued(t, t.table[id].reviewId, false)
    {
      MarkShows(s, budget, id);
    }
    hide Rescued, StillDue, SyncedOk;
    forall i | 0 <= i < |t.sweep.pending|
      ensures GroupOk(t, t.sweep.pending[i])
    {
      assert GroupOk(s, s.sweep.pending[i + 1]);
    }
  }

  lemma BeginKeeps(s: State, budget: Time, groups: seq<Group>)
    requires Inv(s, budget) && Enabled(s, BeginSweep(groups), budget)
    ensures Inv(Apply(s, BeginSweep(groups), budget), budget)
  {
  }

  /** A later version of a row: its review stays, validation and retirement never go back, no marker appears, and a
      set that was still due stays due. */
  predicate Later(before: StoredSet, after: StoredSet, now: Time) {
    && after.reviewId == before.reviewId && before.validatedAt <= after.validatedAt <= now
    && (before.status != Current ==> after.status == before.status)
    && (after.syncedAt.Some? ==> after.syncedAt == before.syncedAt)
    && (StillDue(before) ==> StillDue(after))
  }

  /** The table moved on: later versions of its rows and new unmarked ones, and what was retired was retired now. */
  predicate MovedOn(s: State, t: State) {
    && t == s.(table := t.table, retiredAt := t.retiredAt)
    && s.table.Keys <= t.table.Keys && t.retiredAt.Keys <= t.table.Keys
    && (forall id :: id in s.table ==> Later(s.table[id], t.table[id], s.now))
    && (forall id :: id in s.table ==>
          && (s.table[id].status == t.table[id].status ==> SameRetirement(s, t, id))
          && (s.table[id].status != t.table[id].status ==> id in t.retiredAt && t.retiredAt[id] == s.now))
    && (forall id :: id in t.table && id !in s.table ==>
          t.table[id].validatedAt <= s.now && t.table[id].syncedAt.None? && id !in t.retiredAt)
  }

  predicate SameRetirement(s: State, t: State, id: SetId) {
    (id in t.retiredAt <==> id in s.retiredAt) && (id in s.retiredAt ==> t.retiredAt[id] == s.retiredAt[id])
  }

  /** No mark will reach a set that it would not have reached before. */
  lemma MarksLess(s: State, t: State, budget: Time, id: SetId)
    requires Inv(s, budget) && MovedOn(s, t) && id in s.table
    ensures forall i :: s.sweep.Sweeping? && 0 <= i < |s.sweep.pending| && WillMark(t, s.sweep.pending[i], id) ==>
      WillMark(s, s.sweep.pending[i], id) && t.table[id].validatedAt == s.table[id].validatedAt
  {
    hide RowsOk, ShownOk, SyncedOk, StillDue;
    forall i | s.sweep.Sweeping? && 0 <= i < |s.sweep.pending| && WillMark(t, s.sweep.pending[i], id)
      ensures WillMark(s, s.sweep.pending[i], id) && t.table[id].validatedAt == s.table[id].validatedAt
    {
      assert GroupOk(s, s.sweep.pending[i]) && Later(s.table[id], t.table[id], s.now);
    }
  }

  lemma RescuedOn(s: State, t: State, budget: Time, review: string, synced: bool)
    requires Inv(s, budget) && MovedOn(s, t) && Rescued(s, review, synced)
    ensures Rescued(t, review, synced)
  {
    var id :| id in s.table && Rescues(s, review, id, synced);
    MarksLess(s, t, budget, id);
    hide Inv, SameVersion, StillDue;
    assert Later(s.table[id], t.table[id], s.now);
    assert Rescues(t, review, id, synced);
  }

  lemma OutOfDateBefore(s: State, t: State, id: SetId, moment: Time)
    requires MovedOn(s, t) && id in s.table && moment <= s.now && OutOfDate(t, id, moment)
    ensures OutOfDate(s, id, moment)
  {
    assert Later(s.table[id], t.table[id], s.now);
    hide StillDue;
  }

  lemma MovingOnShows(s: State, t: State, budget: Time, id: SetId)
    requires Inv(s, budget) && MovedOn(s, t) && id in s.shown
    ensures id in t.table && !OutOfDate(t, id, t.lastSweep)
    ensures StillDue(t.table[id]) || Rescued(t, t.table[id].reviewId, InSync(t))
    ensures s.sweep.Sweeping? && OutOfDate(t, id, s.sweep.begun) ==>
      Pending(Remaining(s.sweep), t.table[id].reviewId)
    ensures InSync(s) && WillMark(t, s.sweep.pending[0], id) ==>
      || (s.sweep.pending[0].read[id].status == Current
          && t.table[id].validatedAt + PROJECTION_CUTOFF > s.sweep.phase.at)
      || Rescued(t, t.table[id].reviewId, true)
  {
    assert Later(s.table[id], t.table[id], s.now);
    MarksLess(s, t, budget, id);
    if OutOfDate(t, id, t.lastSweep) {
      OutOfDateBefore(s, t, id, t.lastSweep);
    }
    if s.sweep.Sweeping? && OutOfDate(t, id, s.sweep.begun) {
      OutOfDateBefore(s, t, id, s.sweep.begun);
    }
    if Rescued(s, s.table[id].reviewId, InSync(s)) {
      RescuedOn(s, t, budget, s.table[id].reviewId, InSync(s));
    }
    hide Rescued, OutOfDate, StillDue, Pending, MovedOn;
  }

  lemma MovingOnKeeps(s: State, t: State, budget: Time)
    requires Inv(s, budget) && MovedOn(s, t)
    ensures Inv(t, budget)
  {
    forall id | id in s.table
      ensures Later(s.table[id], t.table[id], s.now)
    {
    }
    forall id | id in s.shown
      ensures id in t.table && !OutOfDate(t, id, t.lastSweep)
      ensures StillDue(t.table[id]) || Rescued(t, t.table[id].reviewId, InSync(t))
      ensures s.sweep.Sweeping? && OutOfDate(t, id, s.sweep.begun) ==>
        Pending(Remaining(s.sweep), t.table[id].reviewId)
      ensures InSync(s) && WillMark(t, s.sweep.pending[0], id) ==>
        || (s.sweep.pending[0].read[id].status == Current
            && t.table[id].validatedAt + PROJECTION_CUTOFF > s.sweep.phase.at)
        || Rescued(t, t.table[id].reviewId, true)
    {
      MovingOnShows(s, t, budget, id);
    }
    hide Rescued, OutOfDate, StillDue, Pending, WillMark;
    if s.sweep.Sweeping? {
      forall i | 0 <= i < |s.sweep.pending|
        ensures GroupOk(t, s.sweep.pending[i])
      {
        assert GroupOk(s, s.sweep.pending[i]);
      }
    }
  }

  lemma AdvanceKeeps(s: State, budget: Time, d: Time)
    requires Inv(s, budget) && Enabled(s, Advance(d), budget)
    ensures Inv(Apply(s, Advance(d), budget), budget)
  {
  }

  predicate TableEvent(e: Event) {
    e.Insert? || e.RevalidateSet? || e.RetireSet? || e.ResetMarkers?
  }

  lemma TableEventMovesOn(s: State, budget: Time, e: Event)
    requires RowsOk(s) && Enabled(s, e, budget) && TableEvent(e)
    ensures MovedOn(s, Apply(s, e, budget))
  {
  }

  lemma StepKeeps(s: State, budget: Time, e: Event)
    requires Inv(s, budget) && Enabled(s, e, budget) && !Overlaps(s, e)
    ensures Inv(Apply(s, e, budget), budget)
  {
    if TableEvent(e) {
      hide RowsOk, ShownOk, SweepOk, MovedOn;
      TableEventMovesOn(s, budget, e);
      MovingOnKeeps(s, Apply(s, e, budget), budget);
    } else {
      match e
      case Advance(d) => AdvanceKeeps(s, budget, d);
      case Project(review, kept, displayed) => ProjectKeeps(s, budget, review, kept, displayed);
      case BeginSweep(groups) => BeginKeeps(s, budget, groups);
      case SyncReview(displayed) => SyncKeeps(s, budget, displayed);
      case MarkReview => MarkKeeps(s, budget);
      case _ =>
    }
  }

  /** And it is the only one: an overlapping projection breaks the invariant at once. */
  lemma OverlapBreaks(s: State, budget: Time, e: Event)
    requires Inv(s, budget) && Enabled(s, e, budget) && Overlaps(s, e)
    ensures !Inv(Apply(s, e, budget), budget)
  {
    var bySweep := e.SyncReview?;
    var id :| id in e.displayed && CoincidesFor(s, id, bySweep);
    var t := Apply(s, e, budget);
    assert id in t.shown && t.table[id] == s.table[id];
    if s.table[id].syncedAt == Some(s.now) {
      assert !StillDue(t.table[id]);
    } else {
      assert !SyncedOk(t, t.sweep.pending[0], t.sweep.phase.at);
    }
  }

  /** A step keeps the invariant if and only if it is not an overlap. */
  lemma StepKeepsExactly(s: State, budget: Time, e: Event)
    requires Inv(s, budget) && Enabled(s, e, budget)
    ensures Inv(Apply(s, e, budget), budget) <==> !Overlaps(s, e)
  {
    hide Inv, Enabled, Overlaps;
    if Overlaps(s, e) {
      OverlapBreaks(s, budget, e);
    } else {
      StepKeeps(s, budget, e);
    }
  }

  lemma {:induction false} RunKeeps(s: State, events: seq<Event>, budget: Time, t: State)
    requires Inv(s, budget) && Reaches(s, events, budget, true, t)
    ensures Inv(t, budget)
    decreases |events|
  {
    if events != [] {
      StepKeeps(s, budget, events[0]);
      RunKeeps(Apply(s, events[0], budget), events[1..], budget, t);
    }
  }

  /** Over every run without the overlap, whatever the budget: what Odoo shows was validated at most
      `PROJECTION_CUTOFF` plus the budget ago, and a retired set is gone within the budget. */
  lemma DisplayNeverStale(s: State, events: seq<Event>, budget: Time, t: State)
    requires budget >= 0 && Init(s) && Reaches(s, events, budget, true, t)
    ensures Fresh(t, PROJECTION_CUTOFF + budget, budget)
  {
    RunKeeps(s, events, budget, t);
    InvImpliesFresh(t, budget);
  }

  // ----- example runs

  /** A set that would be shown, validated at time 0. */
  function ExampleRow(synced: Option<Time>): StoredSet {
    StoredSet(1, "review", 1, "1", "key", Some(7), None, "", "", "", ENGINE_VERSION, Current, 0, synced,
              SuggestionEngine.Result("review", "1", 1, "", [], false, false, [SuggestionEngine.NearMiss]))
  }

  function ExampleStart(): State {
    State(0, map[], map[], {}, Idle, 0)
  }

  /** Between two sweeps of an example run; the last one began at `last`. */
  function Example(now: Time, synced: Option<Time>, shown: set<SetId>, last: Time): State {
    State(now, map[1 := ExampleRow(synced)], map[], shown, Idle, last)
  }

  function ExampleGroup(synced: Option<Time>): Group {
    Group("review", map[1 := ExampleRow(synced)])
  }

  lemma ExampleMayShow(now: Time)
    requires now <= PROJECTION_CUTOFF
    ensures MayShow(ExampleRow(None), now)
  {
    var line := DisplayedLine(true, 1, "key", "1", true, Some(7), None);
    assert BlockOf(ExampleRow(None), line, now) == None;
  }

  lemma {:induction false} RunAppend(s: State, events: seq<Event>, budget: Time, guarded: bool, t: State, e: Event)
    requires Reaches(s, events, budget, guarded, t) && Enabled(t, e, budget) && (guarded ==> !Overlaps(t, e))
    ensures Reaches(s, events + [e], budget, guarded, Apply(t, e, budget))
    decreases |events|
  {
    if events == [] {
      assert [e][1..] == [];
    } else {
      RunAppend(Apply(s, events[0], budget), events[1..], budget, guarded, t, e);
      assert (events + [e])[1..] == events[1..] + [e];
    }
  }

  lemma {:induction false} RunConcat(s: State, first: seq<Event>, budget: Time, guarded: bool, t: State,
                                     second: seq<Event>, u: State)
    requires Reaches(s, first, budget, guarded, t) && Reaches(t, second, budget, guarded, u)
    ensures Reaches(s, first + second, budget, guarded, u)
    decreases |first|
  {
    if first == [] {
      assert first + second == second;
    } else {
      RunConcat(Apply(s, first[0], budget), first[1..], budget, guarded, t, second, u);
      assert (first + second)[1..] == first[1..] + second;
    }
  }

  lemma ExampleInsert(budget: Time, guarded: bool) returns (events: seq<Event>)
    ensures Reaches(ExampleStart(), events, budget, guarded, Example(0, None, {}, 0))
  {
    var s := ExampleStart();
    assert Reaches(s, [], budget, guarded, s);
    RunAppend(s, [], budget, guarded, s, Insert(1, ExampleRow(None)));
    events := [] + [Insert(1, ExampleRow(None))];
  }

  lemma ExampleDue(t: State, synced: Option<Time>)
    requires t.table == map[1 := ExampleRow(synced)] && NeedsDisplayRefresh(ExampleRow(synced), t.now)
    ensures DueGroups(t, [ExampleGroup(synced)])
  {
    var g := ExampleGroup(synced);
    assert [g][0].review == t.table[1].reviewId && 1 in [g][0].read;
  }

  function ExampleSweeping(now: Time, shown: set<SetId>, last: Time, begun: Time, phase: Phase): State {
    Example(now, None, shown, last).(sweep := Sweeping(begun, [ExampleGroup(None)], phase))
  }

  /** A sweep begins at `now` and reads the unmarked set as due. */
  lemma ExampleBegin(before: seq<Event>, budget: Time, guarded: bool, now: Time, shown: set<SetId>, last: Time)
    returns (events: seq<Event>)
    requires Reaches(ExampleStart(), before, budget, guarded, Example(now, None, shown, last))
    ensures before <= events
    ensures Reaches(ExampleStart(), events, budget, guarded, ExampleSweeping(now, shown, last, now, Started(now)))
  {
    var s, s1, g := ExampleStart(), Example(now, None, shown, last), ExampleGroup(None);
    ExampleDue(s1, None);
    hide DueGroups, Reaches;
    RunAppend(s, before, budget, guarded, s1, BeginSweep([g]));
    events := before + [BeginSweep([g])];
    RunAppend(s, events, budget, guarded, ExampleSweeping(now, shown, last, now, Between), StartReview);
    events := events + [StartReview];
  }

  /** It synchronizes the set's review `took` later. */
  lemma ExampleSync(before: seq<Event>, budget: Time, guarded: bool, now: Time, shown: set<SetId>, last: Time,
                    took: Time)
    returns (events: seq<Event>)
    requires Reaches(ExampleStart(), before, budget, guarded, Example(now, None, shown, last)) && shown <= {1}
    requires 0 <= took && now + took <= PROJECTION_CUTOFF && now + took - last <= budget
    requires guarded ==> took > 0 || now < PROJECTION_CUTOFF
    ensures before <= events
    ensures Reaches(ExampleStart(), events, budget, guarded, ExampleSweeping(now + took, {1}, last, now, Synced(now)))
  {
    events := ExampleBegin(before, budget, guarded, now, shown, last);
    ExampleMayShow(now + took);
    hide MayShow, Reaches;
    var s, s3 := ExampleStart(), ExampleSweeping(now, shown, last, now, Started(now));
    RunAppend(s, events, budget, guarded, s3, Advance(took));
    events := events + [Advance(took)];
    var s4 := ExampleSweeping(now + took, shown, last, now, Started(now));
    RunAppend(s, events, budget, guarded, s4, SyncReview({1}));
    events := events + [SyncReview({1})];
    assert Published(s4, "review", {}, {1}) == {1};
  }

  /** Then it marks the set with its start and completes. */
  lemma ExampleSweep(before: seq<Event>, budget: Time, guarded: bool, now: Time, shown: set<SetId>, last: Time,
                     took: Time)
    returns (events: seq<Event>)
    requires Reaches(ExampleStart(), before, budget, guarded, Example(now, None, shown, last)) && shown <= {1}
    requires 0 <= took && now + took <= PROJECTION_CUTOFF && now + took - last <= budget
    requires guarded ==> took > 0 || now < PROJECTION_CUTOFF
    ensures before <= events
    ensures Reaches(ExampleStart(), events, budget, guarded, Example(now + took, Some(now), {1}, now))
  {
    var s, g := ExampleStart(), ExampleGroup(None);
    events := ExampleSync(before, budget, guarded, now, shown, last, took);
    var s4 := ExampleSweeping(now + took, {1}, last, now, Synced(now));
    hide Reaches;
    RunAppend(s, events, budget, guarded, s4, MarkReview);
    events := events + [MarkReview];
    var s5 := Example(now + took, Some(now), {1}, last).(sweep := Sweeping(now, [], Between));
    assert Apply(s4, MarkReview, budget) == s5 by {
      assert MarkAll(s4.table, g.read, now) == map[1 := ExampleRow(Some(now))];
      assert [g][1..] == [];
    }
    RunAppend(s, events, budget, guarded, s5, CompleteSweep);
    events := events + [CompleteSweep];
  }

  /** The next sweep begins one interval after the last one, finds nothing due and takes as long. */
  lemma QuietSweep(before: seq<Event>, budget: Time, guarded: bool, start: Time, synced: Time, took: Time)
    returns (events: seq<Event>)
    requires Reaches(ExampleStart(), before, budget, guarded, Example(start + took, Some(synced), {1}, start))
    requires 0 <= took <= DISPLAY_SWEEP_INTERVAL && DISPLAY_SWEEP_INTERVAL + took <= budget
    requires !NeedsDisplayRefresh(ExampleRow(Some(synced)), start + DISPLAY_SWEEP_INTERVAL)
    ensures before <= events
    ensures var next := start + DISPLAY_SWEEP_INTERVAL;
      Reaches(ExampleStart(), events, budget, guarded, Example(next + took, Some(synced), {1}, next))
  {
    var s, t0, next := ExampleStart(), Example(start + took, Some(synced), {1}, start), start + DISPLAY_SWEEP_INTERVAL;
    hide Reaches, NeedsDisplayRefresh;
    RunAppend(s, before, budget, guarded, t0, Advance(DISPLAY_SWEEP_INTERVAL - took));
    events := before + [Advance(DISPLAY_SWEEP_INTERVAL - took)];
    var t1 := t0.(now := next);
    assert DueGroups(t1, []);
    RunAppend(s, events, budget, guarded, t1, BeginSweep([]));
    events := events + [BeginSweep([])];
    var t2 := t1.(sweep := Sweeping(next, [], Between));
    RunAppend(s, events, budget, guarded, t2, Advance(took));
    events := events + [Advance(took)];
    var t3 := t2.(now := next + took);
    RunAppend(s, events, budget, guarded, t3, CompleteSweep);
    events := events + [CompleteSweep];
  }

  /** The set is published by the first sweep and stays on display while sweep after sweep, one per interval and each
      taking `took`, finds nothing to do. */
  lemma {:induction false} ExampleWaits(budget: Time, guarded: bool, intervals: nat, took: Time)
    returns (events: seq<Event>)
    requires intervals * DISPLAY_SWEEP_INTERVAL <= PROJECTION_CUTOFF
    requires 0 <= took <= DISPLAY_SWEEP_INTERVAL && DISPLAY_SWEEP_INTERVAL + took <= budget
    ensures var last := intervals * DISPLAY_SWEEP_INTERVAL;
      Reaches(ExampleStart(), events, budget, guarded, Example(last + took, Some(0), {1}, last))
    decreases intervals
  {
    hide Reaches, Example;
    if intervals == 0 {
      events := ExampleInsert(budget, guarded);
      events := ExampleSweep(events, budget, guarded, 0, {}, 0, took);
    } else {
      events := ExampleWaits(budget, guarded, intervals - 1, took);
      events := QuietSweep(events, budget, guarded, (intervals - 1) * DISPLAY_SWEEP_INTERVAL, 0, took);
    }
  }

  // ----- how much time a sweep may take

  /** The display contract over every guarded run with this budget. */
  ghost predicate ContractHolds(budget: Time) {
    forall s: State, events: seq<Event>, t: State ::
      Init(s) && Reaches(s, events, budget, true, t) ==> Fresh(t, DISPLAY_VALIDITY, budget)
  }

  /** Sweeps begin every `DISPLAY_SWEEP_INTERVAL`, all succeed and take `took`: while the sweep that would clear the
      expired set is running, Odoo still shows it, `took` past `DISPLAY_VALIDITY`. No smaller age bound holds. */
  lemma SlowSweepsBreakTheContract(budget: Time, took: Time) returns (events: seq<Event>, t: State)
    requires 0 < took <= DISPLAY_SWEEP_INTERVAL && DISPLAY_SWEEP_INTERVAL + took <= budget
    ensures Init(ExampleStart()) && Reaches(ExampleStart(), events, budget, true, t)
    ensures t.sweep.Sweeping? && t.sweep.begun == t.lastSweep + DISPLAY_SWEEP_INTERVAL && t.now == t.sweep.begun + took
    ensures forall age :: age < DISPLAY_VALIDITY + took ==> !Fresh(t, age, budget)
  {
    var s, g := ExampleStart(), ExampleGroup(Some(0));
    events := ExampleWaits(budget, true, PROJECTION_CUTOFF / DISPLAY_SWEEP_INTERVAL, took);
    var t0 := Example(PROJECTION_CUTOFF + took, Some(0), {1}, PROJECTION_CUTOFF);
    var t1 := t0.(now := DISPLAY_VALIDITY);
    ExampleDue(t1, Some(0));
    hide Reaches, DueGroups;
    RunAppend(s, events, budget, true, t0, Advance(DISPLAY_SWEEP_INTERVAL - took));
    events := events + [Advance(DISPLAY_SWEEP_INTERVAL - took)];
    RunAppend(s, events, budget, true, t1, BeginSweep([g]));
    events := events + [BeginSweep([g])];
    var t2 := t1.(sweep := Sweeping(DISPLAY_VALIDITY, [g], Between));
    RunAppend(s, events, budget, true, t2, Advance(took));
    events := events + [Advance(took)];
    t := t2.(now := DISPLAY_VALIDITY + took);
    assert 1 in t.shown && t.now - t.table[1].validatedAt == DISPLAY_VALIDITY + took;
  }

  /** The documented validity holds on every run if and only if a complete sweep always began at most one sweep
      interval ago, that is, only when sweeps take no time. */
  lemma BudgetExact(budget: Time)
    requires budget >= 0
    ensures ContractHolds(budget) <==> budget <= DISPLAY_SWEEP_INTERVAL
  {
    if budget <= DISPLAY_SWEEP_INTERVAL {
      forall s: State, events: seq<Event>, t: State | Init(s) && Reaches(s, events, budget, true, t)
        ensures Fresh(t, DISPLAY_VALIDITY, budget)
      {
        DisplayNeverStale(s, events, budget, t);
      }
    } else {
      var events, t := SlowSweepsBreakTheContract(budget, 1);
    }
  }

  // ----- why the overlap is excluded

  /** A set is published and left alone; exactly when it is `PROJECTION_CUTOFF` old, a display rollback empties Odoo
      and resets the markers, and the sweep of that instant both publishes the set and records it as cleared. Every
      sweep succeeds on time, and the set is still shown past `DISPLAY_VALIDITY`. */
  lemma SameInstantBreaksTheContract() returns (prefix: seq<Event>, cleared: State, events: seq<Event>, t: State)
    ensures Reaches(ExampleStart(), prefix, DISPLAY_SWEEP_INTERVAL, false, cleared) && cleared.shown == {}
    ensures prefix + [ResetMarkers] <= events
    ensures Init(ExampleStart()) && Reaches(ExampleStart(), events, DISPLAY_SWEEP_INTERVAL, false, t)
    ensures !Fresh(t, DISPLAY_VALIDITY, DISPLAY_SWEEP_INTERVAL)
  {
    var s, budget := ExampleStart(), DISPLAY_SWEEP_INTERVAL;
    prefix := ExampleWaits(budget, false, PROJECTION_CUTOFF / DISPLAY_SWEEP_INTERVAL, 0);
    var t0 := Example(PROJECTION_CUTOFF, Some(0), {1}, PROJECTION_CUTOFF);
    hide Reaches;
    RunAppend(s, prefix, budget, false, t0, Project("review", {}, {}));
    prefix := prefix + [Project("review", {}, {})];
    cleared := Example(PROJECTION_CUTOFF, Some(0), {}, PROJECTION_CUTOFF);
    assert Published(t0, "review", {}, {}) == {};
    RunAppend(s, prefix, budget, false, cleared, ResetMarkers);
    events := prefix + [ResetMarkers];
    assert Apply(cleared, ResetMarkers, budget) == Example(PROJECTION_CUTOFF, None, {}, PROJECTION_CUTOFF) by {
      assert Apply(cleared, ResetMarkers, budget).table == map[1 := ExampleRow(None)];
    }
    events := ExampleSweep(events, budget, false, PROJECTION_CUTOFF, {}, PROJECTION_CUTOFF, 0);
    events := QuietSweep(events, budget, false, PROJECTION_CUTOFF, PROJECTION_CUTOFF, 0);
    var t1 := Example(DISPLAY_VALIDITY, Some(PROJECTION_CUTOFF), {1}, DISPLAY_VALIDITY);
    RunAppend(s, events, budget, false, t1, Advance(1));
    events := events + [Advance(1)];
    t := t1.(now := DISPLAY_VALIDITY + 1);
    assert 1 in t.shown && t.now - t.table[1].validatedAt == DISPLAY_VALIDITY + 1;
  }
}
