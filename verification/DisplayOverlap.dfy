/** What follows an overlap: the guard of the display contract is exact. From any state that keeps the invariant, a step
    can be followed by a run without overlap that shows a set beyond the contract's bound if and only if the step is an
    overlap, and then it can show one of any age. */
module DisplayOverlap {
  import opened Core
  import opened SuggestionSets
  import opened DisplayProtocol

  lemma RunPrepend(s: State, e: Event, rest: seq<Event>, budget: Time, t: State)
    requires Enabled(s, e, budget) && !Overlaps(s, e) && Reaches(Apply(s, e, budget), rest, budget, true, t)
    ensures Reaches(s, [e] + rest, budget, true, t)
  {
    assert ([e] + rest)[1..] == rest;
  }

  // ----- the set that is shown and recorded as cleared

  /** Between two sweeps a shown set is recorded as cleared, and no set of its review is unmarked: whatever happens at
      this instant, no sweep needs to synchronize the review. */
  predicate Stuck(s: State, id: SetId, budget: Time) {
    && s.sweep.Idle? && ClockOk(s, budget) && RowsOk(s)
    && id in s.shown && s.table[id].status == Current && DisplayCleared(s.table[id].validatedAt, s.table[id].syncedAt)
    && forall other :: other in s.table && s.table[other].reviewId == s.table[id].reviewId ==>
         s.table[other].syncedAt.Some?
  }

  /** Right after an overlap a set is shown at the end of its projectability, its start mark recorded or about to be,
      and nothing rescues it. */
  predicate JustOverlapped(s: State, id: SetId, budget: Time) {
    && ClockOk(s, budget) && RowsOk(s) && id in s.shown && s.table[id].status == Current
    && s.now == s.table[id].validatedAt + PROJECTION_CUTOFF
    && !Rescued(s, s.table[id].reviewId, InSync(s))
    && (s.table[id].syncedAt == Some(s.now) || AboutToMark(s, id, InSync(s)))
    && (InSync(s) ==> s.sweep.phase.at == s.now && s.sweep.pending != [])
  }

  lemma ShownIsCurrent(row: StoredSet, now: Time)
    requires MayShow(row, now)
    ensures row.status == Current
  {
  }

  lemma OverlapLeaves(s: State, budget: Time, e: Event) returns (id: SetId)
    requires Inv(s, budget) && Enabled(s, e, budget) && Overlaps(s, e)
    ensures JustOverlapped(Apply(s, e, budget), id, budget)
  {
    hide ShownOk, SyncedOk, MayShow, GroupOk, OutOfDate;
    var bySweep, t := e.SyncReview?, Apply(s, e, budget);
    id :| id in e.displayed && CoincidesFor(s, id, bySweep)
      && !Rescued(s, s.table[id].reviewId, bySweep || InSync(s));
    var row := s.table[id];
    assert MayShow(row, s.now) && id in t.shown;
    ShownIsCurrent(row, s.now);
    assert Rescued(t, row.reviewId, InSync(t)) == Rescued(s, row.reviewId, bySweep || InSync(s));
    assert forall other :: other in t.shown ==> other in t.table.Keys;
    hide Rescued;
    assert s.sweep.Sweeping? && !s.sweep.phase.Between? && row.syncedAt == Some(s.now) ==> s.sweep.phase.at == s.now;
    assert InSync(t) ==> t.sweep.phase.at == t.now && t.sweep.pending != [];
    assert t.table[id].syncedAt == Some(t.now) || AboutToMark(t, id, InSync(t));
  }

  /** Marked, or already unmarked before: what one mark does to the sets of the overlapping review. */
  lemma MarkSticks(s: State, id: SetId, budget: Time)
    requires JustOverlapped(s, id, budget) && InSync(s)
    ensures Enabled(s, MarkReview, budget)
    ensures Stuck(Apply(s, MarkReview, budget).(sweep := Idle), id, budget)
    ensures Apply(s, MarkReview, budget).table[id].validatedAt == s.table[id].validatedAt
  {
    var t := Apply(s, MarkReview, budget);
    forall other | other in s.table && s.table[other].reviewId == s.table[id].reviewId
      ensures t.table[other].syncedAt.Some?
    {
      assert !Rescues(s, s.table[id].reviewId, other, true);
    }
  }

  /** The running refresh records its marks, and the sweep fails. */
  lemma OverlapSticks(s: State, id: SetId, budget: Time) returns (events: seq<Event>, t: State)
    requires JustOverlapped(s, id, budget)
    ensures Reaches(s, events, budget, true, t) && Stuck(t, id, budget)
    ensures t.table[id].validatedAt == s.table[id].validatedAt && t.now == s.now
  {
    assert Reaches(s, [], budget, true, s);
    events, t := [], s;
    if InSync(s) {
      MarkSticks(s, id, budget);
      hide Reaches, MarkAll;
      RunAppend(s, [], budget, true, s, MarkReview);
      events, t := [] + [MarkReview], Apply(s, MarkReview, budget);
    } else {
      forall other | other in s.table && s.table[other].reviewId == s.table[id].reviewId
        ensures s.table[other].syncedAt.Some?
      {
        assert !Rescues(s, s.table[id].reviewId, other, false);
      }
    }
    if s.sweep.Sweeping? {
      hide Reaches;
      RunAppend(s, events, budget, true, t, AbortSweep);
      events, t := events + [AbortSweep], t.(sweep := Idle);
    }
  }

  // ----- at any instant the other sets can be settled

  /** The current sets that would be due now or later: those of other reviews, and those of the review that are not
      recorded as cleared and not validated now. */
  function Unsettled(s: State, review: string): set<SetId> {
    set other |
      && other in s.table && s.table[other].status == Current
      && (s.table[other].reviewId != review
          || (!DisplayCleared(s.table[other].validatedAt, s.table[other].syncedAt)
              && s.table[other].validatedAt != s.now))
  }

  /** A tick retires the sets of other reviews and revalidates the others. */
  lemma SettleOne(s: State, id: SetId, budget: Time, other: SetId) returns (e: Event)
    requires Stuck(s, id, budget) && other in Unsettled(s, s.table[id].reviewId)
    ensures Enabled(s, e, budget) && !Overlaps(s, e)
    ensures var t := Apply(s, e, budget);
      && Stuck(t, id, budget) && t.now == s.now && t.table[id] == s.table[id]
      && Unsettled(t, t.table[id].reviewId) == Unsettled(s, s.table[id].reviewId) - {other}
  {
    e := if s.table[other].reviewId == s.table[id].reviewId then RevalidateSet(other, s.now)
         else RetireSet(other, Invalidated);
    var t := Apply(s, e, budget);
    assert t.table == s.table[other := t.table[other]];
    assert s.table[other].reviewId == s.table[id].reviewId ==> t.table[other].syncedAt == s.table[other].syncedAt;
    assert other !in Unsettled(t, t.table[id].reviewId);
  }

  lemma {:induction false} SettleAll(s: State, id: SetId, budget: Time) returns (events: seq<Event>, t: State)
    requires Stuck(s, id, budget)
    ensures Reaches(s, events, budget, true, t) && Stuck(t, id, budget) && t.now == s.now && t.table[id] == s.table[id]
    ensures forall other :: other !in Unsettled(t, t.table[id].reviewId)
    decreases Unsettled(s, s.table[id].reviewId)
  {
    var todo := Unsettled(s, s.table[id].reviewId);
    if other: SetId :| other in todo {
      hide Stuck, Unsettled, Reaches;
      var e := SettleOne(s, id, budget, other);
      var rest;
      rest, t := SettleAll(Apply(s, e, budget), id, budget);
      RunPrepend(s, e, rest, budget, t);
      events := [e] + rest;
    } else {
      events, t := [], s;
    }
  }

  // ----- and one sweep marks what is due, all of it of other reviews

  function Unmarked(table: map<SetId, StoredSet>): set<SetId> {
    set id | id in table && table[id].syncedAt.None?
  }

  /** The group was read from the table as it is, and belongs to another review. */
  predicate ReadElsewhere(table: map<SetId, StoredSet>, g: Group, review: string) {
    && g.review != review
    && forall id :: id in g.read ==> id in table && table[id].reviewId == g.review && SameVersion(table[id], g.read[id])
  }

  predicate Covers(groups: seq<Group>, id: SetId) {
    exists i :: 0 <= i < |groups| && id in groups[i].read
  }

  /** The groups will mark every unmarked set. */
  predicate WillMarkAll(table: map<SetId, StoredSet>, groups: seq<Group>, review: string) {
    && (forall i :: 0 <= i < |groups| ==> ReadElsewhere(table, groups[i], review))
    && forall id :: id in Unmarked(table) ==> Covers(groups, id)
  }

  predicate OwnGroup(table: map<SetId, StoredSet>, g: Group, review: string) {
    && g.review != review
    && forall id :: id in g.read ==>
         id in table && table[id].syncedAt.None? && g.review == table[id].reviewId && g.read[id] == table[id]
  }

  /** One group for each of these unmarked sets. */
  lemma {:induction false} GroupEach(table: map<SetId, StoredSet>, ids: set<SetId>, review: string)
    returns (groups: seq<Group>)
    requires forall id :: id in ids ==> id in table && table[id].syncedAt.None? && table[id].reviewId != review
    ensures forall i :: 0 <= i < |groups| ==> OwnGroup(table, groups[i], review)
    ensures forall id :: id in ids ==> Covers(groups, id)
    decreases ids
  {
    groups := [];
    if id: SetId :| id in ids {
      var rest := GroupEach(table, ids - {id}, review);
      groups := [Group(table[id].reviewId, map[id := table[id]])] + rest;
      assert id in groups[0].read;
      hide OwnGroup;
      forall other: SetId | other in ids && other != id
        ensures Covers(groups, other)
      {
        assert other in ids - {id};
        var i :| 0 <= i < |rest| && other in rest[i].read;
        assert groups[i + 1] == rest[i];
      }
    }
  }

  /** The sweep of this instant. */
  predicate Clearing(s: State, id: SetId, budget: Time) {
    && s.sweep.Sweeping? && s.sweep.begun == s.now && s.sweep.phase.Between?
    && Stuck(s.(sweep := Idle), id, budget) && WillMarkAll(s.table, s.sweep.pending, s.table[id].reviewId)
  }

  lemma BeginClearing(s: State, id: SetId, budget: Time) returns (groups: seq<Group>)
    requires Stuck(s, id, budget) && forall other :: other !in Unsettled(s, s.table[id].reviewId)
    ensures Enabled(s, BeginSweep(groups), budget) && Clearing(Apply(s, BeginSweep(groups), budget), id, budget)
  {
    var ids, review := Unmarked(s.table), s.table[id].reviewId;
    groups := GroupEach(s.table, ids, review);
    forall i | 0 <= i < |groups|
      ensures ReadElsewhere(s.table, groups[i], review)
    {
      assert OwnGroup(s.table, groups[i], review);
    }
    forall other | other in s.table && NeedsDisplayRefresh(s.table[other], s.now)
      ensures exists i :: 0 <= i < |groups| && groups[i].review == s.table[other].reviewId && other in groups[i].read
    {
      assert other !in Unsettled(s, review);
      assert other in ids && Covers(groups, other);
      var i :| 0 <= i < |groups| && other in groups[i].read;
      assert OwnGroup(s.table, groups[i], review);
    }
    hide Stuck, Unsettled, Covers;
    assert DueGroups(s, groups) by {
      forall i, other | 0 <= i < |groups| && other in groups[i].read
        ensures other in s.table && groups[i].read[other] == s.table[other]
        ensures s.table[other].reviewId == groups[i].review && NeedsDisplayRefresh(s.table[other], s.now)
      {
        assert OwnGroup(s.table, groups[i], review);
      }
    }
  }

  /** Marking the first group leaves the others to do. */
  lemma MarkClears(table: map<SetId, StoredSet>, groups: seq<Group>, review: string, at: Time)
    requires groups != [] && WillMarkAll(table, groups, review)
    ensures WillMarkAll(MarkAll(table, groups[0].read, at), groups[1..], review)
  {
    var after, rest := MarkAll(table, groups[0].read, at), groups[1..];
    assert ReadElsewhere(table, groups[0], review);
    assert forall id :: id in table ==> SameVersion(after[id], table[id]) && after[id].reviewId == table[id].reviewId;
    forall i | 0 <= i < |rest|
      ensures ReadElsewhere(after, rest[i], review)
    {
      assert rest[i] == groups[i + 1] && ReadElsewhere(table, groups[i + 1], review);
    }
    forall id | id in Unmarked(after)
      ensures Covers(rest, id)
    {
      assert id in Unmarked(table) && id !in groups[0].read;
      var i :| 0 <= i < |groups| && id in groups[i].read;
      assert rest[i - 1] == groups[i];
    }
  }

  /** A review other than the set's own is synchronized with nothing to display, and marked. */
  lemma ClearReview(s: State, id: SetId, budget: Time) returns (events: seq<Event>, t: State)
    requires Clearing(s, id, budget) && s.sweep.pending != []
    ensures Reaches(s, events, budget, true, t) && Clearing(t, id, budget)
    ensures t.sweep.pending == s.sweep.pending[1..] && t.now == s.now && t.table[id] == s.table[id]
  {
    var g, review := s.sweep.pending[0], s.table[id].reviewId;
    var s1 := s.(sweep := s.sweep.(phase := Started(s.now)));
    var s2 := Apply(s1, SyncReview({}), budget);
    MarkClears(s.table, s.sweep.pending, review, s.now);
    t := Apply(s2, MarkReview, budget);
    assert ReadElsewhere(s.table, g, review);
    assert Stuck(t.(sweep := Idle), id, budget);
    assert Reaches(t, [], budget, true, t);
    hide Reaches, Stuck, MarkAll, WillMarkAll, Published;
    RunPrepend(s2, MarkReview, [], budget, t);
    RunPrepend(s1, SyncReview({}), [MarkReview] + [], budget, t);
    RunPrepend(s, StartReview, [SyncReview({})] + ([MarkReview] + []), budget, t);
    events := [StartReview] + ([SyncReview({})] + ([MarkReview] + []));
  }

  lemma {:induction false} ClearAll(s: State, id: SetId, budget: Time) returns (events: seq<Event>, t: State)
    requires Clearing(s, id, budget)
    ensures Reaches(s, events, budget, true, t) && Clearing(t, id, budget)
    ensures id in s.table && t.sweep.pending == [] && t.now == s.now && t.table[id] == s.table[id]
    decreases |s.sweep.pending|
  {
    if s.sweep.pending == [] {
      events, t := [], s;
    } else {
      var first, u := ClearReview(s, id, budget);
      hide Reaches, Clearing;
      var rest;
      rest, t := ClearAll(u, id, budget);
      RunConcat(s, first, budget, true, u, rest, t);
      events := first + rest;
    }
  }

  // ----- so time passes, sweep after sweep completes, and the set stays

  /** At any instant a complete sweep leaves the set where it is. */
  lemma SweepPasses(s: State, id: SetId, budget: Time) returns (events: seq<Event>, t: State)
    requires Stuck(s, id, budget)
    ensures Reaches(s, events, budget, true, t) && Stuck(t, id, budget)
    ensures t.now == s.now == t.lastSweep && t.table[id] == s.table[id]
  {
    var first, s1 := SettleAll(s, id, budget);
    var groups := BeginClearing(s1, id, budget);
    var s2 := Apply(s1, BeginSweep(groups), budget);
    var middle, s3 := ClearAll(s2, id, budget);
    t := Apply(s3, CompleteSweep, budget);
    assert Stuck(t, id, budget);
    assert Reaches(t, [], budget, true, t);
    hide Reaches, Stuck, Unsettled, DueGroups;
    RunPrepend(s3, CompleteSweep, [], budget, t);
    RunConcat(s2, middle, budget, true, s3, [CompleteSweep] + [], t);
    RunPrepend(s1, BeginSweep(groups), middle + ([CompleteSweep] + []), budget, t);
    events := first + ([BeginSweep(groups)] + (middle + ([CompleteSweep] + [])));
    RunConcat(s, first, budget, true, s1, [BeginSweep(groups)] + (middle + ([CompleteSweep] + [])), t);
  }

  lemma {:induction false} Lingers(s: State, id: SetId, budget: Time, n: nat) returns (events: seq<Event>, t: State)
    requires Stuck(s, id, budget) && budget >= 1
    ensures Reaches(s, events, budget, true, t) && Stuck(t, id, budget)
    ensures t.now == s.now + n && t.table[id] == s.table[id]
    decreases n
  {
    if n == 0 {
      events, t := [], s;
    } else {
      var first, u := SweepPasses(s, id, budget);
      var v := u.(now := u.now + 1);
      assert Stuck(v, id, budget);
      hide Reaches, Stuck;
      var rest;
      rest, t := Lingers(v, id, budget, n - 1);
      RunPrepend(u, Advance(1), rest, budget, t);
      RunConcat(s, first, budget, true, u, [Advance(1)] + rest, t);
      events := first + ([Advance(1)] + rest);
    }
  }

  // ----- the theorems

  /** An overlap is fatal: whatever age is allowed, a continuation without any overlap ends with an older set on
      display. In it the running sweep, if any, fails, and from then on a complete sweep begins at every tick. */
  lemma OverlapIsFatal(s: State, budget: Time, e: Event, age: Time) returns (events: seq<Event>, t: State)
    requires budget >= 1 && Inv(s, budget) && Enabled(s, e, budget) && Overlaps(s, e)
    ensures Reaches(Apply(s, e, budget), events, budget, true, t)
    ensures forall lag :: !Fresh(t, age, lag)
  {
    var id := OverlapLeaves(s, budget, e);
    var u := Apply(s, e, budget);
    var first, v := OverlapSticks(u, id, budget);
    var n := if age < PROJECTION_CUTOFF then 0 else age - PROJECTION_CUTOFF + 1;
    var second;
    second, t := Lingers(v, id, budget, n);
    hide Reaches, Enabled, Overlaps, Inv;
    RunConcat(u, first, budget, true, v, second, t);
    events := first + second;
    assert id in t.shown && t.now - t.table[id].validatedAt > age;
  }

  /** Some continuation without overlap breaks the contract's bound. */
  ghost predicate MayGoStale(s: State, budget: Time) {
    exists events, t :: Reaches(s, events, budget, true, t) && !Fresh(t, PROJECTION_CUTOFF + budget, budget)
  }

  /** The guard is exact: a step leads to a state from which the contract can be broken without a further overlap if
      and only if it is itself an overlap. */
  lemma FatalExactly(s: State, budget: Time, e: Event)
    requires budget >= 1 && Inv(s, budget) && Enabled(s, e, budget)
    ensures MayGoStale(Apply(s, e, budget), budget) <==> Overlaps(s, e)
  {
    var u := Apply(s, e, budget);
    if Overlaps(s, e) {
      var events, t := OverlapIsFatal(s, budget, e, PROJECTION_CUTOFF + budget);
    } else {
      StepKeeps(s, budget, e);
      hide Inv, Enabled, Overlaps, Fresh;
      forall events, t | Reaches(u, events, budget, true, t)
        ensures Fresh(t, PROJECTION_CUTOFF + budget, budget)
      {
        RunKeeps(u, events, budget, t);
        InvImpliesFresh(t, budget);
      }
    }
  }

  /** The run passes through the invariant only. */
  ghost predicate AlwaysInv(s: State, events: seq<Event>, budget: Time, t: State)
    requires Reaches(s, events, budget, false, t)
    decreases |events|
  {
    Inv(s, budget) && (events != [] ==> AlwaysInv(Apply(s, events[0], budget), events[1..], budget, t))
  }

  /** A run is without overlap if and only if it keeps the invariant throughout. */
  lemma {:induction false} GuardedExactly(s: State, events: seq<Event>, budget: Time, t: State)
    requires Inv(s, budget) && Reaches(s, events, budget, false, t)
    ensures Reaches(s, events, budget, true, t) <==> AlwaysInv(s, events, budget, t)
    decreases |events|
  {
    if events != [] {
      StepKeepsExactly(s, budget, events[0]);
      var u := Apply(s, events[0], budget);
      hide Inv, Overlaps;
      if Inv(u, budget) {
        GuardedExactly(u, events[1..], budget, t);
      }
    }
  }

  /** A run with overlaps is, up to its first one, a run without; and that first overlap alone is enough: what follows
      it can show a set of any age without another. */
  lemma {:induction false} FirstOverlapIsFatal(s: State, events: seq<Event>, budget: Time, t: State, age: Time)
    returns (k: nat, u: State, more: seq<Event>, v: State)
    requires budget >= 1 && Inv(s, budget)
    requires Reaches(s, events, budget, false, t) && !Reaches(s, events, budget, true, t)
    ensures k < |events| && Reaches(s, events[..k], budget, true, u)
    ensures Enabled(u, events[k], budget) && Overlaps(u, events[k])
    ensures Reaches(Apply(u, events[k], budget), more, budget, true, v) && forall lag :: !Fresh(v, age, lag)
    decreases |events|
  {
    var e := events[0];
    if Overlaps(s, e) {
      k, u := 0, s;
      more, v := OverlapIsFatal(s, budget, e, age);
    } else {
      StepKeeps(s, budget, e);
      var next := Apply(s, e, budget);
      k, u, more, v := FirstOverlapIsFatal(next, events[1..], budget, t, age);
      hide Inv, Overlaps, Fresh;
      RunPrepend(s, e, events[1..][..k], budget, u);
      assert events[..k + 1] == [e] + events[1..][..k];
      k := k + 1;
    }
  }
}
