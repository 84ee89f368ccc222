/** The advisory worker over time (`AdvisoryTick` and `AdvisoryDisplaySweep` in `app/composition/advisory.py`): ticks
    and sweeps hold one lock and so run one after another; marker resets and the flows that project a review come in
    between. */
module AdvisoryWorker {
  import opened Core
  import opened SuggestionEngine
  import opened SuggestionSets
  import opened SuggestionTable
  import opened DisplayProtocol
  import opened SweepRefinement
  import opened TickRefinement
  import T = AdvisoryTick
  import M = TickMeaning
  import R = DisplayRefresher

  /** What one worker is configured with. */
  datatype Setup = Setup(company: int, config: T.Config, maxReviews: nat, budget: Time)

  datatype Job =
    | Tick(now: Time, snapshot: T.Snapshot, tickWorld: T.World)
    | Sweep(now: Time, due: seq<nat>, retry: map<string, (nat, Time)>, world: R.World, projections: Projections)
    | Reset(now: Time)
    | Flow(now: Time, review: string, kept: set<SetId>, displayed: set<SetId>)

  /** The table, what Odoo shows, when sets were retired, the last clock reading and when the last complete sweep
      began. */
  datatype Hub = Hub(rows: seq<StoredSet>, shown: set<SetId>, retiredAt: map<SetId, Time>, clock: Time,
                     lastSweep: Time)

  predicate Listed(due: seq<nat>, rows: seq<StoredSet>) {
    forall i :: 0 <= i < |due| ==> due[i] < |rows|
  }

  function CallsOf(h: Hub, job: Job, setup: Setup): seq<string>
    requires job.Sweep? && Listed(job.due, h.rows)
  {
    R.Called(R.Reviews(h.rows, job.due), job.retry, job.world, setup.maxReviews)
  }

  /** Every job begins after the one before it ended, within the budget. A tick reads a catalog with unique ids for the
      company's lines; a sweep takes the sets that are due; nothing is published that does not pass the gate, or
      in the overlap. */
  ghost predicate Possible(h: Hub, job: Job, setup: Setup) {
    && h.clock <= job.now <= h.lastSweep + setup.budget
    && match job
       case Tick(now, snapshot, w) =>
         M.LinesOf(setup.company, snapshot.lines) && (w.catalog.Some? ==> UniqueIds(w.catalog.value))
       case Sweep(now, due, retry, w, p) =>
         && Listed(due, h.rows) && DueNow(due, h.rows, now)
         && Timely(CallsOf(h, job, setup), w, p, now, h.lastSweep + setup.budget)
         && (forall review :: review in CallsOf(h, job, setup) ==> MayCall(h.rows, due, review, w, p))
       case Reset(_) => true
       case Flow(now, review, _, displayed) =>
         Gated(AsTable(h.rows), displayed, review, now) && !WriteOverlaps(h.rows, review, displayed, now)
  }

  function After(h: Hub, job: Job, setup: Setup): Hub
    requires Possible(h, job, setup)
  {
    match job
    case Tick(now, snapshot, w) =>
      var rows := T.TickRows(h.rows, setup.company, snapshot, w, setup.config, now);
      h.(rows := rows, retiredAt := RetiredTimes(h.retiredAt, h.rows, rows, now), clock := now)
    case Sweep(now, due, _, w, p) =>
      var calls := CallsOf(h, job, setup);
      Hub(SweptRows(h.rows, due, calls, w), ShownAfter(h.shown, h.rows, calls, w, p), h.retiredAt,
          ClockAfter(calls, p, now), if Complete(h.rows, due, calls, w) then now else h.lastSweep)
    case Reset(now) => h.(rows := Map(ResetMarker, h.rows), clock := now)
    case Flow(now, review, kept, displayed) =>
      h.(shown := (h.shown - (SetsOf(AsTable(h.rows), review) - kept)) + displayed, clock := now)
  }

  /** Any sequence of jobs. */
  ghost predicate Works(h: Hub, jobs: seq<Job>, setup: Setup, final: Hub)
    decreases |jobs|
  {
    if jobs == [] then final == h
    else Possible(h, jobs[0], setup) && Works(After(h, jobs[0], setup), jobs[1..], setup, final)
  }

  // ----- one job is a run

  /** The protocol between two jobs. */
  predicate Mirrors(s: State, h: Hub) {
    s == State(h.clock, AsTable(h.rows), h.retiredAt, h.shown, Idle, h.lastSweep)
  }

  lemma WaitIsRun(s: State, h: Hub, now: Time, budget: Time) returns (events: seq<Event>)
    requires Mirrors(s, h) && h.clock <= now <= h.lastSweep + budget
    ensures Reaches(s, events, budget, true, s.(now := now))
  {
    assert Reaches(s, [], budget, true, s);
    hide Reaches;
    RunAppend(s, [], budget, true, s, Advance(now - s.now));
    events := [] + [Advance(now - s.now)];
  }

  lemma TickJob(s: State, h: Hub, job: Job, setup: Setup) returns (events: seq<Event>, t: State)
    requires job.Tick? && Possible(h, job, setup) && Mirrors(s, h) && Inv(s, setup.budget)
    ensures Reaches(s, events, setup.budget, true, t) && Mirrors(t, After(h, job, setup))
  {
    var s1 := s.(now := job.now);
    events := WaitIsRun(s, h, job.now, setup.budget);
    assert ValidatedBy(h.rows, job.now) by {
      assert forall id :: 0 <= id < |h.rows| ==> id in s.table && s.table[id] == h.rows[id];
    }
    hide Reaches, T.TickRows, AsTable, Inv;
    var more;
    more, t := TickIsRun(s1, setup.budget, h.rows, setup.company, job.snapshot, job.tickWorld, setup.config, job.now);
    RunConcat(s, events, setup.budget, true, s1, more, t);
    events := events + more;
  }

  lemma SweepJob(s: State, h: Hub, job: Job, setup: Setup) returns (events: seq<Event>, t: State)
    requires job.Sweep? && Possible(h, job, setup) && Mirrors(s, h)
    ensures Reaches(s, events, setup.budget, true, t) && Mirrors(t, After(h, job, setup))
  {
    var s1, calls := s.(now := job.now), CallsOf(h, job, setup);
    var after := SweptRows(h.rows, job.due, calls, job.world);
    events := WaitIsRun(s, h, job.now, setup.budget);
    assert R.RowsAfter(h.rows, after, job.due, calls, job.world);
    hide Reaches, AsTable, R.Called, R.Reviews, DueNow, SweptRows, Timely, MayCall, R.RowsAfter, Complete, ClockAfter;
    var more;
    more, t := SweepIsRun(s1, setup.budget, h.rows, after, job.due, calls, job.retry, setup.maxReviews, job.world,
                          job.projections);
    RunConcat(s, events, setup.budget, true, s1, more, t);
    events := events + more;
  }

  lemma ResetJob(s: State, h: Hub, job: Job, setup: Setup) returns (events: seq<Event>, t: State)
    requires job.Reset? && Possible(h, job, setup) && Mirrors(s, h)
    ensures Reaches(s, events, setup.budget, true, t) && Mirrors(t, After(h, job, setup))
  {
    var s1 := s.(now := job.now);
    events := WaitIsRun(s, h, job.now, setup.budget);
    assert Apply(s1, ResetMarkers, setup.budget).table == AsTable(Map(ResetMarker, h.rows));
    hide Reaches, AsTable;
    RunAppend(s, events, setup.budget, true, s1, ResetMarkers);
    events, t := events + [ResetMarkers], Apply(s1, ResetMarkers, setup.budget);
  }

  lemma FlowJob(s: State, h: Hub, job: Job, setup: Setup) returns (events: seq<Event>, t: State)
    requires job.Flow? && Possible(h, job, setup) && Mirrors(s, h)
    ensures Reaches(s, events, setup.budget, true, t) && Mirrors(t, After(h, job, setup))
  {
    var s1, e := s.(now := job.now), Project(job.review, job.kept, job.displayed);
    events := WaitIsRun(s, h, job.now, setup.budget);
    assert AsRead(s, h.rows, job.review);
    WriteOverlapsExactly(s, h.rows, job.review, job.kept, job.displayed, job.now);
    hide Reaches, MayShow, Overlaps, WriteOverlaps;
    RunAppend(s, events, setup.budget, true, s1, e);
    events, t := events + [e], Apply(s1, e, setup.budget);
  }

  // ----- every sequence of jobs

  /** What every job keeps of the table: one current set per line, and each set the engine's answer of its time. */
  ghost predicate Sound(rows: seq<StoredSet>, setup: Setup) {
    UniqueCurrent(rows) && M.AllGrounded(rows, setup.config)
  }

  lemma SweepKeepsSound(rows: seq<StoredSet>, due: seq<nat>, calls: seq<string>, w: R.World, setup: Setup)
    requires Sound(rows, setup)
    ensures Sound(SweptRows(rows, due, calls, w), setup)
  {
    hide UniqueCurrent, M.AllGrounded;
    M.SameSetsUnique(rows, SweptRows(rows, due, calls, w));
    M.RowsGround(rows, SweptRows(rows, due, calls, w), setup.config);
  }

  lemma ResetKeepsSound(rows: seq<StoredSet>, setup: Setup)
    requires Sound(rows, setup)
    ensures Sound(Map(ResetMarker, rows), setup)
  {
    hide UniqueCurrent, M.AllGrounded;
    M.SameSetsUnique(rows, Map(ResetMarker, rows));
    M.RowsGround(rows, Map(ResetMarker, rows), setup.config);
  }

  lemma JobKeepsSound(h: Hub, job: Job, setup: Setup)
    requires Possible(h, job, setup) && Sound(h.rows, setup)
    ensures Sound(After(h, job, setup).rows, setup)
  {
    hide UniqueCurrent, M.AllGrounded, T.TickRows, SweptRows;
    match job
    case Tick(now, snapshot, w) =>
      M.TickIsTidy(h.rows, setup.company, snapshot, w, setup.config, now);
      M.TickGrounds(h.rows, setup.company, snapshot, w, setup.config, now);
    case Sweep(_, due, _, w, _) => SweepKeepsSound(h.rows, due, CallsOf(h, job, setup), w, setup);
    case Reset(_) => ResetKeepsSound(h.rows, setup);
    case Flow(_, _, _, _) =>
  }

  lemma {:induction false} JobsAreRun(start: State, before: seq<Event>, s: State, h: Hub, jobs: seq<Job>, setup: Setup,
                                      final: Hub)
    returns (events: seq<Event>, t: State)
    requires setup.budget >= 0 && Init(start) && Reaches(start, before, setup.budget, true, s) && Mirrors(s, h)
    requires Works(h, jobs, setup, final) && Sound(h.rows, setup)
    ensures Reaches(start, events, setup.budget, true, t) && Mirrors(t, final) && Sound(final.rows, setup)
    decreases |jobs|
  {
    if jobs == [] {
      events, t := before, s;
    } else {
      RunKeeps(start, before, setup.budget, s);
      JobKeepsSound(h, jobs[0], setup);
      hide Reaches, Inv, Possible, Mirrors, Sound, After;
      var more, u;
      match jobs[0] {
        case Tick(_, _, _) => more, u := TickJob(s, h, jobs[0], setup);
        case Sweep(_, _, _, _, _) => more, u := SweepJob(s, h, jobs[0], setup);
        case Reset(_) => more, u := ResetJob(s, h, jobs[0], setup);
        case Flow(_, _, _, _) => more, u := FlowJob(s, h, jobs[0], setup);
      }
      RunConcat(start, before, setup.budget, true, s, more, u);
      events, t := JobsAreRun(start, before + more, u, After(h, jobs[0], setup), jobs[1..], setup, final);
    }
  }

  /** What Odoo shows was validated at most `age` ago, and a retired set is gone within `lag`. */
  predicate HubFresh(h: Hub, age: Time, lag: Time) {
    forall id :: id in h.shown ==>
      && 0 <= id < |h.rows| && h.clock - h.rows[id].validatedAt <= age
      && (h.rows[id].status != Current ==> id in h.retiredAt && h.clock - h.retiredAt[id] <= lag)
  }

  /** Whatever the worker and the flows do from an empty table on, as long as a complete sweep began at most `budget`
      ago: what they left on display was validated at most `PROJECTION_CUTOFF` plus the budget ago, a retired set is
      gone within the budget, no line has two current sets, and every stored set is the engine's answer from the catalog
      it was generated from. */
  lemma WorkerStaysFresh(jobs: seq<Job>, setup: Setup, begun: Time, final: Hub)
    requires setup.budget >= 0 && Works(Hub([], {}, map[], begun, begun), jobs, setup, final)
    ensures HubFresh(final, PROJECTION_CUTOFF + setup.budget, setup.budget)
    ensures Sound(final.rows, setup)
  {
    var start := State(begun, map[], map[], {}, Idle, begun);
    assert AsTable([]) == map[];
    assert Reaches(start, [], setup.budget, true, start);
    hide Works, Reaches;
    var events, t := JobsAreRun(start, [], start, Hub([], {}, map[], begun, begun), jobs, setup, final);
    DisplayNeverStale(start, events, setup.budget, t);
  }
}
