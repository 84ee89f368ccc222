/** The repository's table and the refresher's sweep are guarded runs of the display protocol, so the display contract
    holds after them. */
module SweepRefinement {
  import opened Core
  import opened SuggestionSets
  import opened SuggestionTable
  import opened DisplayProtocol
  import R = DisplayRefresher

  function AsTable(rows: seq<StoredSet>): map<SetId, StoredSet> {
    map id: SetId | 0 <= id < |rows| :: rows[id]
  }

  // ----- the repository's updates

  /** Inserting, retiring and resetting are the protocol's events on the same table. */
  lemma TableStepsAreEvents(s: State, budget: Time, rows: seq<StoredSet>, row: StoredSet, id: nat, status: SetStatus)
    requires s.table == AsTable(rows)
    ensures row.status == Current && row.syncedAt.None? && row.validatedAt <= s.now ==>
      && Enabled(s, Insert(|rows|, row), budget)
      && Apply(s, Insert(|rows|, row), budget).table == AsTable(rows + [row])
    ensures id < |rows| && rows[id].status == Current && status != Current ==>
      && Enabled(s, RetireSet(id, status), budget)
      && Apply(s, RetireSet(id, status), budget).table == AsTable(rows[id := Retire(rows[id], status)])
    ensures Apply(s, ResetMarkers, budget).table == AsTable(Map(ResetMarker, rows))
  {
  }

  function RevalidatedRows(rows: seq<StoredSet>, ids: set<nat>, n: nat, at: Time): seq<StoredSet>
    requires n <= |rows|
  {
    seq(|rows|, i requires 0 <= i < |rows| => if i < n && i in ids then Revalidate(rows[i], at) else rows[i])
  }

  lemma RevalidatedNext(rows: seq<StoredSet>, ids: set<nat>, n: nat, at: Time)
    requires n < |rows|
    ensures var before, after := RevalidatedRows(rows, ids, n, at), RevalidatedRows(rows, ids, n + 1, at);
      && n in AsTable(before) && AsTable(before)[n] == rows[n]
      && (if n in ids && rows[n].status == Current
          then AsTable(before)[n := Revalidate(rows[n], at)] == AsTable(after) else before == after)
  {
  }

  /** A batch revalidation is a run of single revalidations. */
  lemma {:induction false} RevalidationIsRun(s: State, budget: Time, rows: seq<StoredSet>, ids: set<nat>, n: nat,
                                             at: Time)
    returns (events: seq<Event>)
    requires n <= |rows| && s.table == AsTable(rows) && at <= s.now
    requires forall i :: 0 <= i < |rows| && i in ids ==> rows[i].validatedAt <= at
    ensures Reaches(s, events, budget, true, s.(table := AsTable(RevalidatedRows(rows, ids, n, at))))
  {
    hide RevalidatedRows, Revalidate, AsTable;
    if n == 0 {
      NothingRevalidated(rows, ids, at);
      events := [];
    } else {
      hide Reaches;
      events := RevalidationIsRun(s, budget, rows, ids, n - 1, at);
      events := RevalidateNext(s, events, budget, rows, ids, n - 1, at);
    }
  }

  lemma NothingRevalidated(rows: seq<StoredSet>, ids: set<nat>, at: Time)
    ensures RevalidatedRows(rows, ids, 0, at) == rows
  {
  }

  lemma RevalidateNext(s: State, before: seq<Event>, budget: Time, rows: seq<StoredSet>, ids: set<nat>, n: nat,
                       at: Time)
    returns (events: seq<Event>)
    requires n < |rows| && at <= s.now && (n in ids ==> rows[n].validatedAt <= at)
    requires Reaches(s, before, budget, true, s.(table := AsTable(RevalidatedRows(rows, ids, n, at))))
    ensures Reaches(s, events, budget, true, s.(table := AsTable(RevalidatedRows(rows, ids, n + 1, at))))
  {
    RevalidatedNext(rows, ids, n, at);
    hide Reaches, RevalidatedRows, Revalidate, AsTable;
    events := before;
    if n in ids && rows[n].status == Current {
      RunAppend(s, before, budget, true, s.(table := AsTable(RevalidatedRows(rows, ids, n, at))), RevalidateSet(n, at));
      events := before + [RevalidateSet(n, at)];
    }
  }

  // ----- the sweep

  /** The table after a sweep that called `calls`. */
  function SweptRows(rows: seq<StoredSet>, due: seq<nat>, calls: seq<string>, w: R.World): seq<StoredSet> {
    seq(|rows|, id requires 0 <= id < |rows| => R.RowAfter(rows[id], id in due, calls, w))
  }

  function GroupOf(rows: seq<StoredSet>, due: seq<nat>, review: string): Group
    requires forall i :: 0 <= i < |due| ==> due[i] < |rows|
  {
    var ids := R.SetsOf(rows, due, review);
    Group(review, map id: SetId | 0 <= id < |rows| && id in ids :: rows[id])
  }

  function GroupsOf(rows: seq<StoredSet>, due: seq<nat>, reviews: seq<string>): (groups: seq<Group>)
    requires forall i :: 0 <= i < |due| ==> due[i] < |rows|
    ensures |groups| == |reviews|
  {
    seq(|reviews|, i requires 0 <= i < |reviews| => GroupOf(rows, due, reviews[i]))
  }

  ghost predicate DueNow(due: seq<nat>, rows: seq<StoredSet>, now: Time) {
    ListsExactly(due, rows, |rows|, row => NeedsDisplayRefresh(row, now))
  }

  /** The sweep reads exactly the protocol's due groups, in whatever order it visits them. */
  lemma GroupsAreDue(s: State, rows: seq<StoredSet>, due: seq<nat>, order: seq<string>)
    requires s.table == AsTable(rows) && DueNow(due, rows, s.now)
    requires forall review :: review in order <==> R.Mentions(rows, due, review)
    ensures DueGroups(s, GroupsOf(rows, due, order))
  {
    var groups := GroupsOf(rows, due, order);
    hide NeedsDisplayRefresh;
    forall id | id in s.table && NeedsDisplayRefresh(s.table[id], s.now)
      ensures exists i :: 0 <= i < |groups| && groups[i].review == s.table[id].reviewId && id in groups[i].read
    {
      assert id in due;
      var k :| 0 <= k < |due| && due[k] == id;
      assert R.Mentions(rows, due, rows[id].reviewId);
      var i :| 0 <= i < |order| && order[i] == rows[id].reviewId;
      assert groups[i] == GroupOf(rows, due, order[i]);
    }
    forall i, id | 0 <= i < |groups| && id in groups[i].read
      ensures id in s.table && groups[i].read[id] == s.table[id] && s.table[id].reviewId == groups[i].review
      ensures NeedsDisplayRefresh(s.table[id], s.now)
    {
      assert groups[i] == GroupOf(rows, due, order[i]);
      assert id in due;
    }
  }

  // ----- one call of the synchronizer

  /** What the synchronizer does for each review it is called for: when its projection reads the clock, which sets it
      then displays, and which shown sets a failed one leaves as they were. A call that fails before it writes keeps
      everything and displays nothing. */
  datatype Projections = Projections(at: string -> Time, displayed: string -> set<SetId>, kept: string -> set<SetId>)

  /** What a projection displays passes the gate at its instant. */
  ghost predicate Gated(table: map<SetId, StoredSet>, displayed: set<SetId>, review: string, at: Time) {
    forall id :: id in displayed ==> id in table && table[id].reviewId == review && MayShow(table[id], at)
  }

  /** A projection outside a successful refresh is the overlap: it displays a set at the end of its projectability with
      this very instant recorded as its start mark, and no set of the review is unmarked. */
  predicate WriteOverlaps(rows: seq<StoredSet>, review: string, displayed: set<SetId>, at: Time) {
    && AllMarked(rows, review)
    && exists id :: 0 <= id < |rows| && id in displayed && EndsAt(rows[id], at) && rows[id].syncedAt == Some(at)
  }

  /** A successful refresh is the overlap also when it will record that instant; it leaves no set of its review
      unmarked. */
  predicate CallOverlaps(rows: seq<StoredSet>, due: seq<nat>, review: string, w: R.World, p: Projections) {
    if w.refresh(review) then
      exists id :: 0 <= id < |rows| && id in p.displayed(review) && EndsAt(rows[id], p.at(review))
        && (rows[id].syncedAt == Some(p.at(review)) || (w.started(review) == p.at(review) && id in due))
    else WriteOverlaps(rows, review, p.displayed(review), p.at(review))
  }

  predicate EndsAt(row: StoredSet, at: Time) {
    at == row.validatedAt + PROJECTION_CUTOFF
  }

  predicate AllMarked(rows: seq<StoredSet>, review: string) {
    forall id :: 0 <= id < |rows| && rows[id].reviewId == review ==> rows[id].syncedAt.Some?
  }

  predicate AtNextReview(s: State) {
    s.sweep.Sweeping? && s.sweep.phase.Between?
  }

  /** The state after a successful call. */
  function Refreshed(s: State, started: Time, at: Time, displayed: set<SetId>): State
    requires AtNextReview(s) && s.sweep.pending != []
  {
    var g := s.sweep.pending[0];
    s.(now := at, table := MarkAll(s.table, g.read, started), shown := Published(s, g.review, {}, displayed),
       sweep := s.sweep.(pending := s.sweep.pending[1..]))
  }

  /** The state in which its projection reads the clock. */
  function Projecting(s: State, started: Time, at: Time): State
    requires AtNextReview(s)
  {
    s.(now := at, sweep := s.sweep.(phase := Started(started)))
  }

  /** Wait for the start, synchronize, mark. */
  lemma SuccessIsSteps(s: State, budget: Time, started: Time, at: Time, displayed: set<SetId>)
    returns (events: seq<Event>)
    requires AtNextReview(s) && s.sweep.pending != [] && s.now <= started <= at <= s.lastSweep + budget
    requires Gated(s.table, displayed, s.sweep.pending[0].review, at)
    requires !Overlaps(Projecting(s, started, at), SyncReview(displayed))
    ensures Reaches(s, events, budget, true, Refreshed(s, started, at, displayed))
  {
    var review := s.sweep.pending[0].review;
    var s1 := s.(now := started);
    var s2 := s1.(sweep := s.sweep.(phase := Started(started)));
    var s3 := Projecting(s, started, at);
    var s4 := s3.(shown := Published(s, review, {}, displayed), sweep := s.sweep.(phase := Synced(started)));
    assert Published(s3, review, {}, displayed) == Published(s, review, {}, displayed);
    assert Reaches(s, [], budget, true, s);
    hide Reaches, MayShow, Coincides, MarkAll, Published;
    RunAppend(s, [], budget, true, s, Advance(started - s.now));
    events := [] + [Advance(started - s.now)];
    RunAppend(s, events, budget, true, s1, StartReview);
    events := events + [StartReview];
    RunAppend(s, events, budget, true, s2, Advance(at - started));
    events := events + [Advance(at - started)];
    RunAppend(s, events, budget, true, s3, SyncReview(displayed));
    events := events + [SyncReview(displayed)];
    RunAppend(s, events, budget, true, s4, MarkReview);
    events := events + [MarkReview];
  }

  /** A failed call marks nothing; what it wrote before it failed is shown. */
  lemma FailureIsSteps(s: State, budget: Time, review: string, at: Time, kept: set<SetId>, displayed: set<SetId>)
    returns (events: seq<Event>)
    requires AtNextReview(s) && s.now <= at <= s.lastSweep + budget && Gated(s.table, displayed, review, at)
    requires !Overlaps(s.(now := at), Project(review, kept, displayed))
    ensures Reaches(s, events, budget, true, s.(now := at, shown := Published(s, review, kept, displayed)))
  {
    var s1 := s.(now := at);
    assert Published(s1, review, kept, displayed) == Published(s, review, kept, displayed);
    assert Reaches(s, [], budget, true, s);
    hide Reaches, MayShow, Coincides, Published;
    RunAppend(s, [], budget, true, s, Advance(at - s.now));
    events := [] + [Advance(at - s.now)];
    RunAppend(s, events, budget, true, s1, Project(review, kept, displayed));
    events := events + [Project(review, kept, displayed)];
  }

  // ----- the whole sweep

  function ClockAfter(calls: seq<string>, p: Projections, begun: Time): Time {
    if calls == [] then begun else p.at(calls[|calls| - 1])
  }

  /** What the synchronizer displays for a review passes the gate, and not in the overlap. */
  ghost predicate MayCall(rows: seq<StoredSet>, due: seq<nat>, review: string, w: R.World, p: Projections) {
    Gated(AsTable(rows), p.displayed(review), review, p.at(review)) && !CallOverlaps(rows, due, review, w, p)
  }

  /** What is shown after one more call: its display replaces the review's, up to what a failed one left. */
  function ShownNext(shown: set<SetId>, rows: seq<StoredSet>, review: string, w: R.World, p: Projections): set<SetId> {
    var left := if w.refresh(review) then {} else p.kept(review);
    (shown - (SetsOf(AsTable(rows), review) - left)) + p.displayed(review)
  }

  function ShownAfter(shown: set<SetId>, rows: seq<StoredSet>, calls: seq<string>, w: R.World, p: Projections)
    : set<SetId>
  {
    if calls == [] then shown
    else
      var n := |calls| - 1;
      ShownNext(ShownAfter(shown, rows, calls[..n], w, p), rows, calls[n], w, p)
  }

  /** Every call starts no earlier than the one before it ended, its projection reads the clock no earlier than its
      start, and it is over within the budget. */
  ghost predicate Timely(calls: seq<string>, w: R.World, p: Projections, begun: Time, latest: Time) {
    forall i :: 0 <= i < |calls| ==>
      ClockAfter(calls[..i], p, begun) <= w.started(calls[i]) <= p.at(calls[i]) <= latest
  }

  /** The reviews in the order the protocol takes them: the successful calls, then all that stay due. */
  function Order(reviews: seq<string>, calls: seq<string>, w: R.World): seq<string> {
    Filter(w.refresh, calls) + Filter(review => !(review in calls && w.refresh(review)), reviews)
  }

  /** After the first `i` calls. */
  function Midway(s: State, rows: seq<StoredSet>, due: seq<nat>, calls: seq<string>, i: nat, w: R.World,
                  p: Projections, order: seq<string>, shown: set<SetId>): State
    requires i <= |calls| && forall k :: 0 <= k < |due| ==> due[k] < |rows|
    requires R.Refreshed(calls[..i], w) <= |order|
  {
    State(ClockAfter(calls[..i], p, s.now), AsTable(SweptRows(rows, due, calls[..i], w)), s.retiredAt, shown,
          Sweeping(s.now, GroupsOf(rows, due, order)[R.Refreshed(calls[..i], w)..], Between), s.lastSweep)
  }

  /** Marking one review is the step from one prefix of the calls to the next. */
  lemma MarkIsPrefixStep(rows: seq<StoredSet>, due: seq<nat>, calls: seq<string>, i: nat, w: R.World)
    requires i < |calls| && Distinct(calls) && forall k :: 0 <= k < |due| ==> due[k] < |rows|
    ensures var before, after := SweptRows(rows, due, calls[..i], w), SweptRows(rows, due, calls[..i + 1], w);
      if w.refresh(calls[i])
      then MarkAll(AsTable(before), GroupOf(rows, due, calls[i]).read, w.started(calls[i])) == AsTable(after)
      else before == after
  {
    var review := calls[i];
    var before, after := SweptRows(rows, due, calls[..i], w), SweptRows(rows, due, calls[..i + 1], w);
    assert calls[..i + 1] == calls[..i] + [review] && review !in calls[..i];
    var read := GroupOf(rows, due, review).read;
    forall id | 0 <= id < |rows|
      ensures w.refresh(review) ==>
        (if id in read then Mark(before[id], read[id], w.started(review)) else before[id]) == after[id]
      ensures !w.refresh(review) ==> before[id] == after[id]
    {
      assert id in read <==> id in due && rows[id].reviewId == review;
    }
  }

  /** The next successful call is the next review in the protocol's order. */
  lemma NextInOrder(reviews: seq<string>, calls: seq<string>, i: nat, w: R.World)
    requires i < |calls|
    ensures var k := R.Refreshed(calls[..i], w);
      && R.Refreshed(calls[..i + 1], w) == (if w.refresh(calls[i]) then k + 1 else k) <= |Order(reviews, calls, w)|
      && (w.refresh(calls[i]) ==> Order(reviews, calls, w)[k] == calls[i])
  {
    var done, next := calls[..i], [calls[i]];
    assert calls[..i + 1] == done + next && calls == (done + next) + calls[i + 1..];
    FilterConcat(w.refresh, done, next);
    FilterConcat(w.refresh, done + next, calls[i + 1..]);
  }

  predicate UnmarkedAreDue(rows: seq<StoredSet>, due: seq<nat>) {
    forall id: nat :: id < |rows| && rows[id].syncedAt.None? ==> id in due
  }

  /** The table between two calls, as far as one review is concerned. */
  ghost predicate AsRead(t: State, rows: seq<StoredSet>, review: string) {
    && (forall id :: id in t.table <==> 0 <= id < |rows|)
    && (forall id :: id in t.table ==> t.table[id].reviewId == rows[id].reviewId)
    && (forall id :: id in t.table && rows[id].reviewId == review ==> t.table[id] == rows[id])
  }

  /** A successful call is the overlap on the rows the sweep read exactly when it is the overlap of the protocol. */
  lemma SuccessOverlapsExactly(t: State, rows: seq<StoredSet>, due: seq<nat>, review: string, w: R.World,
                               p: Projections)
    requires w.refresh(review) && AtNextReview(t) && AsRead(t, rows, review) && UnmarkedAreDue(rows, due)
    requires forall k :: 0 <= k < |due| ==> due[k] < |rows|
    requires t.sweep.pending != [] && t.sweep.pending[0] == GroupOf(rows, due, review)
    requires Gated(t.table, p.displayed(review), review, p.at(review))
    ensures CallOverlaps(rows, due, review, w, p)
       <==> Overlaps(Projecting(t, w.started(review), p.at(review)), SyncReview(p.displayed(review)))
  {
    hide MayShow;
    var at, displayed := p.at(review), p.displayed(review);
    var u, g := Projecting(t, w.started(review), at), t.sweep.pending[0];
    assert !Rescued(u, review, true) by {
      assert forall id :: id in t.table && rows[id].reviewId == review && id in due ==> WillMark(u, g, id);
    }
    hide Rescued;
    forall id | id in displayed
      ensures CoincidesFor(u, id, true) <==>
        EndsAt(rows[id], at) && (rows[id].syncedAt == Some(at) || (w.started(review) == at && id in due))
    {
      assert WillMark(u, g, id) <==> id in due;
    }
    hide CoincidesFor;
  }

  /** And so is any other projection, between the refreshes of a sweep or between sweeps. */
  lemma WriteOverlapsExactly(t: State, rows: seq<StoredSet>, review: string, kept: set<SetId>, displayed: set<SetId>,
                             at: Time)
    requires AsRead(t, rows, review) && (t.sweep.Sweeping? ==> t.sweep.phase.Between?)
    requires Gated(t.table, displayed, review, at)
    ensures WriteOverlaps(rows, review, displayed, at) <==> Overlaps(t.(now := at), Project(review, kept, displayed))
  {
    hide MayShow;
    var u := t.(now := at);
    assert Rescued(u, review, InSync(u)) <==> !AllMarked(rows, review) by {
      assert forall id :: id in t.table && rows[id].reviewId == review ==>
        (Rescues(u, review, id, InSync(u)) <==> rows[id].syncedAt.None?);
    }
    hide Rescued, AllMarked;
    forall id | id in displayed
      ensures CoincidesFor(u, id, false) <==> EndsAt(rows[id], at) && rows[id].syncedAt == Some(at)
    {
    }
    hide CoincidesFor;
  }

  /** Earlier calls do not touch the sets of a later one. */
  lemma MidwayAsRead(s: State, rows: seq<StoredSet>, due: seq<nat>, calls: seq<string>, i: nat, w: R.World,
                     p: Projections, order: seq<string>, shown: set<SetId>)
    requires i < |calls| && Distinct(calls) && forall k :: 0 <= k < |due| ==> due[k] < |rows|
    requires R.Refreshed(calls[..i], w) <= |order|
    ensures var t := Midway(s, rows, due, calls, i, w, p, order, shown);
      && AtNextReview(t) && AsRead(t, rows, calls[i])
      && t.now == ClockAfter(calls[..i], p, s.now) && t.lastSweep == s.lastSweep
      && t.shown == shown && SetsOf(t.table, calls[i]) == SetsOf(AsTable(rows), calls[i])
  {
    hide R.Refreshed;
    assert calls[i] !in calls[..i];
  }

  /** What one call does to the state between two calls. */
  lemma MidwayNext(s: State, rows: seq<StoredSet>, due: seq<nat>, calls: seq<string>, i: nat, w: R.World,
                   p: Projections, reviews: seq<string>, shown: set<SetId>, next: set<SetId>)
    requires forall k :: 0 <= k < |due| ==> due[k] < |rows|
    requires i < |calls| && Distinct(calls) && R.Refreshed(calls[..i], w) <= |Order(reviews, calls, w)|
    ensures R.Refreshed(calls[..i + 1], w) <= |Order(reviews, calls, w)|
    ensures var order, review := Order(reviews, calls, w), calls[i];
      var t0 := Midway(s, rows, due, calls, i, w, p, order, shown);
      var t1 := Midway(s, rows, due, calls, i + 1, w, p, order, next);
      if w.refresh(review) then
        && t0.sweep.pending != [] && t0.sweep.pending[0] == GroupOf(rows, due, review)
        && t1 == t0.(now := p.at(review), table := MarkAll(t0.table, t0.sweep.pending[0].read, w.started(review)),
                     shown := next, sweep := t0.sweep.(pending := t0.sweep.pending[1..]))
      else t1 == t0.(now := p.at(review), shown := next)
  {
    var review, groups := calls[i], GroupsOf(rows, due, Order(reviews, calls, w));
    var k := R.Refreshed(calls[..i], w);
    NextInOrder(reviews, calls, i, w);
    MarkIsPrefixStep(rows, due, calls, i, w);
    assert calls[..i + 1][i] == review;
    hide Order, R.Refreshed, SweptRows, MarkAll, Distinct, AsTable, R.SetsOf;
    if w.refresh(review) {
      assert groups[k..][0] == GroupOf(rows, due, review) && groups[k..][1..] == groups[k + 1..];
    }
  }

  /** One call of the sweep. */
  lemma CallIsSteps(s: State, budget: Time, rows: seq<StoredSet>, due: seq<nat>, calls: seq<string>, i: nat, w: R.World,
                    p: Projections, reviews: seq<string>, shown: set<SetId>)
    returns (events: seq<Event>)
    requires forall k :: 0 <= k < |due| ==> due[k] < |rows|
    requires i < |calls| && Distinct(calls) && Timely(calls, w, p, s.now, s.lastSweep + budget)
    requires MayCall(rows, due, calls[i], w, p) && UnmarkedAreDue(rows, due)
    requires R.Refreshed(calls[..i], w) <= |Order(reviews, calls, w)|
    ensures R.Refreshed(calls[..i + 1], w) <= |Order(reviews, calls, w)|
    ensures var order := Order(reviews, calls, w);
      Reaches(Midway(s, rows, due, calls, i, w, p, order, shown), events, budget, true,
              Midway(s, rows, due, calls, i + 1, w, p, order, ShownNext(shown, rows, calls[i], w, p)))
  {
    var review, order := calls[i], Order(reviews, calls, w);
    var t0 := Midway(s, rows, due, calls, i, w, p, order, shown);
    var started, at, displayed := w.started(review), p.at(review), p.displayed(review);
    var next := ShownNext(shown, rows, review, w, p);
    hide Order, Reaches, R.Refreshed, Distinct, Midway, MarkAll, WriteOverlaps, Overlaps, SweptRows, MayShow, GroupsOf;
    MidwayAsRead(s, rows, due, calls, i, w, p, order, shown);
    MidwayNext(s, rows, due, calls, i, w, p, reviews, shown, next);
    assert Gated(t0.table, displayed, review, at);
    hide Gated, AsTable;
    if w.refresh(review) {
      SuccessOverlapsExactly(t0, rows, due, review, w, p);
      events := SuccessIsSteps(t0, budget, started, at, displayed);
    } else {
      WriteOverlapsExactly(t0, rows, review, p.kept(review), displayed, at);
      events := FailureIsSteps(t0, budget, review, at, p.kept(review), displayed);
    }
  }

  lemma BeginIsStep(s: State, budget: Time, rows: seq<StoredSet>, due: seq<nat>, calls: seq<string>, w: R.World,
                    p: Projections, order: seq<string>)
    returns (events: seq<Event>)
    requires s.table == AsTable(rows) && s.sweep.Idle?
    requires forall k :: 0 <= k < |due| ==> due[k] < |rows|
    requires DueGroups(s, GroupsOf(rows, due, order))
    ensures R.Refreshed(calls[..0], w) == 0
    ensures var t := Midway(s, rows, due, calls, 0, w, p, order, s.shown);
      Reaches(s, events, budget, true, t)
  {
    var groups := GroupsOf(rows, due, order);
    assert SweptRows(rows, due, calls[..0], w) == rows;
    assert calls[..0] == [] && groups[0..] == groups;
    assert Reaches(s, [], budget, true, s);
    hide DueGroups, GroupsOf, SweptRows, AsTable, Reaches;
    RunAppend(s, [], budget, true, s, BeginSweep(groups));
    events := [] + [BeginSweep(groups)];
  }

  lemma {:induction false} CallsAreSteps(s: State, budget: Time, rows: seq<StoredSet>, due: seq<nat>,
                                         calls: seq<string>, i: nat, w: R.World, p: Projections, reviews: seq<string>)
    returns (events: seq<Event>)
    requires s.table == AsTable(rows) && s.sweep.Idle?
    requires forall k :: 0 <= k < |due| ==> due[k] < |rows|
    requires DueGroups(s, GroupsOf(rows, due, Order(reviews, calls, w)))
    requires i <= |calls| && Distinct(calls) && Timely(calls, w, p, s.now, s.lastSweep + budget)
    requires UnmarkedAreDue(rows, due)
    requires forall review :: review in calls ==> MayCall(rows, due, review, w, p)
    ensures R.Refreshed(calls[..i], w) <= |Order(reviews, calls, w)|
    ensures var shown := ShownAfter(s.shown, rows, calls[..i], w, p);
      Reaches(s, events, budget, true, Midway(s, rows, due, calls, i, w, p, Order(reviews, calls, w), shown))
    decreases i
  {
    hide Reaches, Midway, Order, R.Refreshed, DueGroups, GroupsOf, SweptRows, AsTable, Timely, MayCall,
      Distinct;
    var order := Order(reviews, calls, w);
    if i == 0 {
      events := BeginIsStep(s, budget, rows, due, calls, w, p, order);
    } else {
      var first := CallsAreSteps(s, budget, rows, due, calls, i - 1, w, p, reviews);
      assert calls[i - 1] in calls && calls[..i][..i - 1] == calls[..i - 1];
      var before, shown := ShownAfter(s.shown, rows, calls[..i - 1], w, p), ShownAfter(s.shown, rows, calls[..i], w, p);
      assert shown == ShownNext(before, rows, calls[i - 1], w, p);
      hide ShownAfter, ShownNext;
      var more := CallIsSteps(s, budget, rows, due, calls, i - 1, w, p, reviews, before);
      RunConcat(s, first, budget, true, Midway(s, rows, due, calls, i - 1, w, p, order, before), more,
                Midway(s, rows, due, calls, i, w, p, order, shown));
      events := first + more;
    }
  }

  lemma {:induction false} AllCalled(reviews: seq<string>, retry: map<string, (nat, Time)>, w: R.World, max: nat)
    ensures |R.Called(reviews, retry, w, max)| <= |reviews|
    ensures |R.Called(reviews, retry, w, max)| == |reviews| ==> R.Called(reviews, retry, w, max) == reviews
  {
    if reviews != [] {
      var n := |reviews| - 1;
      AllCalled(reviews[..n], retry, w, max);
      assert reviews == reviews[..n] + [reviews[n]];
    }
  }

  lemma {:induction false} AllRefreshed(calls: seq<string>, w: R.World)
    ensures R.Refreshed(calls, w) <= |calls|
    ensures R.Refreshed(calls, w) == |calls| ==> forall review :: review in calls ==> w.refresh(review)
  {
    if calls != [] {
      var n := |calls| - 1;
      assert calls == calls[..n] + [calls[n]];
      FilterConcat(w.refresh, calls[..n], [calls[n]]);
      AllRefreshed(calls[..n], w);
    }
  }

  /** No review failed, was deferred or backed off. */
  predicate Complete(rows: seq<StoredSet>, due: seq<nat>, calls: seq<string>, w: R.World)
    requires forall k :: 0 <= k < |due| ==> due[k] < |rows|
  {
    R.Refreshed(calls, w) == |R.Reviews(rows, due)|
  }

  lemma HeadIn(xs: seq<string>)
    ensures xs != [] ==> xs[0] in xs
  {
  }

  /** The protocol's order lists the due reviews, and after a complete sweep none is left in it. */
  lemma OrderMeaning(rows: seq<StoredSet>, due: seq<nat>, calls: seq<string>, retry: map<string, (nat, Time)>, max: nat,
                     w: R.World)
    requires forall k :: 0 <= k < |due| ==> due[k] < |rows|
    requires calls == R.Called(R.Reviews(rows, due), retry, w, max)
    ensures Distinct(calls)
    ensures forall review :: review in Order(R.Reviews(rows, due), calls, w) <==> R.Mentions(rows, due, review)
    ensures Complete(rows, due, calls, w) ==> |Order(R.Reviews(rows, due), calls, w)| == R.Refreshed(calls, w)
  {
    var reviews := R.Reviews(rows, due);
    R.ReviewsMeaning(rows, due);
    R.CalledMeaning(reviews, retry, w, max);
    AllCalled(reviews, retry, w, max);
    AllRefreshed(calls, w);
    hide R.Reviews, R.Called, R.Mentions;
    var rest := Filter(review => !(review in calls && w.refresh(review)), reviews);
    HeadIn(rest);
    assert Complete(rows, due, calls, w) ==> forall review :: review !in rest;
  }

  /** After the last call the sweep completes or fails. */
  lemma FinishSweep(s: State, budget: Time, rows: seq<StoredSet>, due: seq<nat>, calls: seq<string>, w: R.World,
                    p: Projections, order: seq<string>, shown: set<SetId>)
    returns (last: Event, t: State)
    requires forall k :: 0 <= k < |due| ==> due[k] < |rows|
    requires R.Refreshed(calls, w) <= |order|
    requires Complete(rows, due, calls, w) ==> |order| == R.Refreshed(calls, w)
    ensures calls[..|calls|] == calls
    ensures var t0 := Midway(s, rows, due, calls, |calls|, w, p, order, shown);
      Enabled(t0, last, budget) && !Overlaps(t0, last) && t == Apply(t0, last, budget)
    ensures t == State(ClockAfter(calls, p, s.now), AsTable(SweptRows(rows, due, calls, w)), s.retiredAt, shown, Idle,
                       if Complete(rows, due, calls, w) then s.now else s.lastSweep)
  {
    assert calls[..|calls|] == calls;
    hide SweptRows, AsTable, R.Refreshed, ClockAfter, GroupOf;
    last := if Complete(rows, due, calls, w) then CompleteSweep else AbortSweep;
    t := Apply(Midway(s, rows, due, calls, |calls|, w, p, order, shown), last, budget);
  }

  /** A sweep, whatever its outcome, is a guarded run of the protocol that ends in the table the refresher leaves and in
      the display its calls wrote; only a complete one counts as the last sweep. */
  lemma SweepIsRun(s: State, budget: Time, rows: seq<StoredSet>, after: seq<StoredSet>, due: seq<nat>,
                   calls: seq<string>, retry: map<string, (nat, Time)>, max: nat, w: R.World, p: Projections)
    returns (events: seq<Event>, t: State)
    requires s.table == AsTable(rows) && s.sweep.Idle? && DueNow(due, rows, s.now)
    requires calls == R.Called(R.Reviews(rows, due), retry, w, max) && R.RowsAfter(rows, after, due, calls, w)
    requires Timely(calls, w, p, s.now, s.lastSweep + budget)
    requires forall review :: review in calls ==> MayCall(rows, due, review, w, p)
    ensures Reaches(s, events, budget, true, t)
    ensures t.table == AsTable(after) && t.sweep.Idle? && t.retiredAt == s.retiredAt
    ensures t.shown == ShownAfter(s.shown, rows, calls, w, p) && t.now == ClockAfter(calls, p, s.now)
    ensures t.lastSweep == if Complete(rows, due, calls, w) then s.now else s.lastSweep
  {
    var reviews := R.Reviews(rows, due);
    OrderMeaning(rows, due, calls, retry, max, w);
    var order := Order(reviews, calls, w);
    GroupsAreDue(s, rows, due, order);
    hide R.Called, R.Reviews, R.Refreshed, Reaches, DueNow, Order, DueGroups, MayCall, Timely, R.Mentions, Midway;
    events := CallsAreSteps(s, budget, rows, due, calls, |calls|, w, p, reviews);
    assert calls[..|calls|] == calls;
    var shown := ShownAfter(s.shown, rows, calls, w, p);
    var last;
    last, t := FinishSweep(s, budget, rows, due, calls, w, p, order, shown);
    RunAppend(s, events, budget, true, Midway(s, rows, due, calls, |calls|, w, p, order, shown), last);
    events := events + [last];
    assert SweptRows(rows, due, calls, w) == after;
  }

  /** After any sweep of the refresher, as after any guarded run before it, what Odoo shows is fresh. */
  lemma SweepStaysFresh(start: State, before: seq<Event>, s: State, budget: Time, rows: seq<StoredSet>,
                        after: seq<StoredSet>, due: seq<nat>, calls: seq<string>, retry: map<string, (nat, Time)>,
                        max: nat, w: R.World, p: Projections)
    returns (events: seq<Event>, t: State)
    requires budget >= 0 && Init(start) && Reaches(start, before, budget, true, s)
    requires s.table == AsTable(rows) && s.sweep.Idle? && DueNow(due, rows, s.now)
    requires calls == R.Called(R.Reviews(rows, due), retry, w, max) && R.RowsAfter(rows, after, due, calls, w)
    requires Timely(calls, w, p, s.now, s.lastSweep + budget)
    requires forall review :: review in calls ==> MayCall(rows, due, review, w, p)
    ensures before <= events && Reaches(start, events, budget, true, t)
    ensures t.table == AsTable(after) && t.retiredAt == s.retiredAt && t.now == ClockAfter(calls, p, s.now)
    ensures t.shown == ShownAfter(s.shown, rows, calls, w, p) && Fresh(t, PROJECTION_CUTOFF + budget, budget)
  {
    hide R.Called, R.Reviews, Reaches, DueNow, MayCall, Timely, R.RowsAfter, Fresh;
    var more;
    more, t := SweepIsRun(s, budget, rows, after, due, calls, retry, max, w, p);
    RunConcat(start, before, budget, true, s, more, t);
    events := before + more;
    DisplayNeverStale(start, events, budget, t);
  }
}
