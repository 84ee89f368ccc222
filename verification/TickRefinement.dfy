/** An advisory tick is a guarded run of the display protocol, so the display contract holds after it as after every
    sweep. */
module TickRefinement {
  import opened Core
  import opened SuggestionSets
  import opened SuggestionTable
  import opened DisplayProtocol
  import opened SweepRefinement
  import opened AdvisoryTick

  predicate RetiredIn(before: seq<StoredSet>, after: seq<StoredSet>, id: SetId) {
    0 <= id < |after| && after[id].status != Current && (id >= |before| || before[id].status == Current)
  }

  /** The retirement times once `before` became `after` at `now`. */
  function RetiredTimes(retiredAt: map<SetId, Time>, before: seq<StoredSet>, after: seq<StoredSet>, now: Time)
    : map<SetId, Time>
  {
    retiredAt + (map id: SetId | 0 <= id < |after| && RetiredIn(before, after, id) :: now)
  }

  /** Rows are only added, and retirement is final. */
  predicate Grown(before: seq<StoredSet>, after: seq<StoredSet>) {
    && |before| <= |after|
    && forall id :: 0 <= id < |before| && before[id].status != Current ==> after[id].status != Current
  }

  /** Only the table moved, and what it retired is on record as retired now. */
  predicate TableMoved(s: State, t: State, before: seq<StoredSet>, after: seq<StoredSet>) {
    && Grown(before, after)
    && t == s.(table := AsTable(after), retiredAt := RetiredTimes(s.retiredAt, before, after, s.now))
  }

  lemma NothingRetired(retiredAt: map<SetId, Time>, before: seq<StoredSet>, after: seq<StoredSet>, now: Time)
    requires |before| <= |after|
    requires forall id :: 0 <= id < |before| ==> after[id].status == before[id].status
    requires forall id :: |before| <= id < |after| ==> after[id].status == Current
    ensures RetiredTimes(retiredAt, before, after, now) == retiredAt && Grown(before, after)
  {
  }

  lemma RetiredInTwice(a: seq<StoredSet>, b: seq<StoredSet>, c: seq<StoredSet>, id: SetId)
    requires Grown(a, b) && Grown(b, c)
    ensures Grown(a, c)
    ensures RetiredIn(a, c, id) <==> RetiredIn(a, b, id) || RetiredIn(b, c, id)
  {
  }

  lemma RetiredTwice(retiredAt: map<SetId, Time>, a: seq<StoredSet>, b: seq<StoredSet>, c: seq<StoredSet>, now: Time)
    requires Grown(a, b) && Grown(b, c)
    ensures Grown(a, c)
    ensures RetiredTimes(RetiredTimes(retiredAt, a, b, now), b, c, now) == RetiredTimes(retiredAt, a, c, now)
  {
    RetiredInTwice(a, b, c, 0);
    assert |a| <= |b| <= |c|;
    hide RetiredIn, Grown;
    forall id: SetId
      ensures RetiredIn(a, c, id) <==> RetiredIn(a, b, id) || RetiredIn(b, c, id)
    {
      RetiredInTwice(a, b, c, id);
    }
    RetiredRange(a, b);
    RetiredRange(b, c);
    RetiredRange(a, c);
  }

  lemma RetiredRange(before: seq<StoredSet>, after: seq<StoredSet>)
    ensures forall id :: RetiredIn(before, after, id) ==> 0 <= id < |after|
  {
  }

  predicate ValidatedBy(rows: seq<StoredSet>, now: Time) {
    forall id :: 0 <= id < |rows| ==> rows[id].validatedAt <= now
  }

  /** Retiring a set that may no longer be current. */
  lemma RetireIsRun(s: State, budget: Time, rows: seq<StoredSet>, id: nat, status: SetStatus)
    returns (events: seq<Event>, t: State)
    requires s.table == AsTable(rows) && id < |rows| && status != Current
    ensures Reaches(s, events, budget, true, t) && TableMoved(s, t, rows, rows[id := Retire(rows[id], status)])
  {
    var after := rows[id := Retire(rows[id], status)];
    assert Reaches(s, [], budget, true, s);
    if rows[id].status == Current {
      assert s.table[id := Retire(rows[id], status)] == AsTable(after);
      assert s.retiredAt[id := s.now] == RetiredTimes(s.retiredAt, rows, after, s.now);
      hide Reaches, Retire;
      RunAppend(s, [], budget, true, s, RetireSet(id, status));
      events, t := [] + [RetireSet(id, status)], Apply(s, RetireSet(id, status), budget);
    } else {
      assert after == rows;
      NothingRetired(s.retiredAt, rows, rows, s.now);
      events, t := [], s;
    }
  }

  lemma InsertIsRun(s: State, budget: Time, rows: seq<StoredSet>, row: StoredSet) returns (events: seq<Event>, t: State)
    requires s.table == AsTable(rows) && row.status == Current && row.syncedAt.None? && row.validatedAt <= s.now
    ensures Reaches(s, events, budget, true, t) && TableMoved(s, t, rows, rows + [row])
  {
    assert s.table[|rows| := row] == AsTable(rows + [row]);
    NothingRetired(s.retiredAt, rows, rows + [row], s.now);
    assert Reaches(s, [], budget, true, s);
    hide Reaches;
    RunAppend(s, [], budget, true, s, Insert(|rows|, row));
    events, t := [] + [Insert(|rows|, row)], Apply(s, Insert(|rows|, row), budget);
  }

  lemma StayPut(s: State, budget: Time, rows: seq<StoredSet>)
    requires s.table == AsTable(rows)
    ensures Reaches(s, [], budget, true, s) && TableMoved(s, s, rows, rows)
  {
    NothingRetired(s.retiredAt, rows, rows, s.now);
  }

  lemma MovedTable(s: State, t: State, before: seq<StoredSet>, after: seq<StoredSet>)
    requires TableMoved(s, t, before, after)
    ensures t.table == AsTable(after) && t.now == s.now
  {
  }

  /** Two stretches of a run that only move the table. */
  lemma MovedTwice(s: State, first: seq<Event>, t: State, second: seq<Event>, u: State, budget: Time,
                   a: seq<StoredSet>, b: seq<StoredSet>, c: seq<StoredSet>)
    requires Reaches(s, first, budget, true, t) && TableMoved(s, t, a, b)
    requires Reaches(t, second, budget, true, u) && TableMoved(t, u, b, c)
    ensures Reaches(s, first + second, budget, true, u) && TableMoved(s, u, a, c)
  {
    hide Reaches, AsTable;
    RunConcat(s, first, budget, true, t, second, u);
    RetiredTwice(s.retiredAt, a, b, c, s.now);
    hide RetiredTimes, Grown;
  }

  // ----- the retirements

  function RetiredTo(rows: seq<StoredSet>, company: int, snapshot: Snapshot, n: nat): (after: seq<StoredSet>)
    requires n <= |rows|
    ensures |after| == |rows|
  {
    seq(|rows|, id requires 0 <= id < |rows| => if id < n then RetiredRow(rows[id], company, snapshot) else rows[id])
  }

  lemma {:induction false} RetirementsAreRun(s: State, budget: Time, rows: seq<StoredSet>, company: int,
                                             snapshot: Snapshot, n: nat)
    returns (events: seq<Event>, t: State)
    requires s.table == AsTable(rows) && n <= |rows|
    ensures Reaches(s, events, budget, true, t) && TableMoved(s, t, rows, RetiredTo(rows, company, snapshot, n))
  {
    if n == 0 {
      assert RetiredTo(rows, company, snapshot, 0) == rows;
      NothingRetired(s.retiredAt, rows, rows, s.now);
      events, t := [], s;
    } else {
      var before, after := RetiredTo(rows, company, snapshot, n - 1), RetiredTo(rows, company, snapshot, n);
      var orphaned := Orphaned(rows[n - 1], company, snapshot.lines);
      var status := Retirement(rows[n - 1], snapshot.pending).0;
      assert after == if orphaned then before[n - 1 := Retire(before[n - 1], status)] else before;
      hide Reaches, RetiredTo, AsTable, Retire, Orphaned, Retirement, RetiredTimes, Grown;
      events, t := RetirementsAreRun(s, budget, rows, company, snapshot, n - 1);
      if orphaned {
        var more, u := RetireIsRun(t, budget, before, n - 1, status);
        MovedTwice(s, events, t, more, u, budget, rows, before, after);
        events, t := events + more, u;
      }
    }
  }

  // ----- the line loop

  lemma RoundIsRun(s: State, budget: Time, loop: Loop, p: Progress, i: nat) returns (events: seq<Event>, t: State)
    requires |loop.listed| <= |p.rows| && i < |loop.lines| && s.table == AsTable(p.rows) && loop.now <= s.now
    ensures Reaches(s, events, budget, true, t) && TableMoved(s, t, p.rows, Round(loop, p, i).rows)
  {
    var line := loop.lines[i];
    var existing := Existing(loop.listed, loop.company, line);
    var row, superseded := NewRow(loop, line), SupersededRows(p.rows, existing);
    assert Reaches(s, [], budget, true, s);
    NothingRetired(s.retiredAt, p.rows, p.rows, s.now);
    hide Reaches, AsTable, Existing, UpToDate, NewRow, Occupied, Retire, RetiredTimes, Grown;
    events, t := [], s;
    if Round(loop, p, i).rows != p.rows {
      assert Round(loop, p, i).rows == superseded + [row];
      if existing.Some? {
        events, t := RetireIsRun(s, budget, p.rows, existing.value, Superseded);
      }
      var more, u := InsertIsRun(t, budget, superseded, row);
      MovedTwice(s, events, t, more, u, budget, p.rows, superseded, superseded + [row]);
      events, t := events + more, u;
    }
  }

  lemma {:induction false} RoundsAreRun(s: State, budget: Time, loop: Loop, start: seq<StoredSet>, n: nat)
    returns (events: seq<Event>, t: State)
    requires |start| == |loop.listed| && n <= |loop.lines| && s.table == AsTable(start) && loop.now <= s.now
    ensures Reaches(s, events, budget, true, t) && TableMoved(s, t, start, Rounds(loop, start, n).rows)
  {
    hide Reaches, AsTable, Round, Rounds, TableMoved;
    RoundsUnfold(loop, start, n);
    if n == 0 {
      StayPut(s, budget, start);
      events, t := [], s;
    } else {
      var first, u := RoundsAreRun(s, budget, loop, start, n - 1);
      var p := Rounds(loop, start, n - 1);
      MovedTable(s, u, start, p.rows);
      var second;
      second, t := RoundIsRun(u, budget, loop, p, n - 1);
      MovedTwice(s, first, u, second, t, budget, start, p.rows, Round(loop, p, n - 1).rows);
      events := first + second;
    }
  }

  lemma {:induction false} RoundsValidated(loop: Loop, start: seq<StoredSet>, n: nat)
    requires |start| == |loop.listed| && n <= |loop.lines| && ValidatedBy(start, loop.now)
    ensures ValidatedBy(Rounds(loop, start, n).rows, loop.now)
  {
    hide Existing, UpToDate, NewRow, Occupied, Rounds;
    RoundsUnfold(loop, start, n);
    if n != 0 {
      RoundsValidated(loop, start, n - 1);
    }
  }

  // ----- the whole tick

  lemma RevalidatedAllIsRun(s: State, budget: Time, rows: seq<StoredSet>, ids: set<nat>, now: Time)
    returns (events: seq<Event>, t: State)
    requires s.table == AsTable(rows) && now <= s.now && ValidatedBy(rows, now)
    ensures Reaches(s, events, budget, true, t) && TableMoved(s, t, rows, RevalidatedAll(rows, ids, now))
  {
    assert RevalidatedRows(rows, ids, |rows|, now) == RevalidatedAll(rows, ids, now);
    NothingRetired(s.retiredAt, rows, RevalidatedAll(rows, ids, now), s.now);
    hide Reaches, AsTable, RevalidatedRows, RevalidatedAll;
    events := RevalidationIsRun(s, budget, rows, ids, |rows|, now);
    t := s.(table := AsTable(RevalidatedAll(rows, ids, now)));
  }

  /** A tick, whatever its outcome, is a guarded run of the protocol that ends in the table the worker leaves. */
  lemma TickIsRun(s: State, budget: Time, rows: seq<StoredSet>, company: int, snapshot: Snapshot, w: World, c: Config,
                  now: Time)
    returns (events: seq<Event>, t: State)
    requires s.table == AsTable(rows) && now <= s.now && ValidatedBy(rows, now)
    ensures Reaches(s, events, budget, true, t)
    ensures TableMoved(s, t, rows, TickRows(rows, company, snapshot, w, c, now))
  {
    var start := RetiredRows(rows, company, snapshot);
    assert RetiredTo(rows, company, snapshot, |rows|) == start;
    assert ValidatedBy(start, now);
    hide Reaches, AsTable, RetiredTo, RetiredRow, Rounds, RevalidatedAll, RetiredTimes, Grown;
    events, t := RetirementsAreRun(s, budget, rows, company, snapshot, |rows|);
    if snapshot.lines != [] && w.catalog.Some? {
      var loop := LoopOf(rows, company, snapshot, w, c, now);
      var n := InBudget(w, |loop.lines|);
      var p := Rounds(loop, start, n);
      var second, u := RoundsAreRun(t, budget, loop, start, n);
      MovedTwice(s, events, t, second, u, budget, rows, start, p.rows);
      RoundsValidated(loop, start, n);
      var third, v := RevalidatedAllIsRun(u, budget, p.rows, p.kept, now);
      MovedTwice(s, events + second, u, third, v, budget, rows, p.rows, RevalidatedAll(p.rows, p.kept, now));
      events, t := events + second + third, v;
    }
  }

  /** After a tick, as after any guarded run before it, what Odoo shows is fresh. */
  lemma TickStaysFresh(start: State, before: seq<Event>, s: State, budget: Time, rows: seq<StoredSet>, company: int,
                       snapshot: Snapshot, w: World, c: Config, now: Time)
    returns (events: seq<Event>, t: State)
    requires budget >= 0 && Init(start) && Reaches(start, before, budget, true, s)
    requires s.table == AsTable(rows) && now <= s.now && ValidatedBy(rows, now)
    ensures before <= events && Reaches(start, events, budget, true, t)
    ensures TableMoved(s, t, rows, TickRows(rows, company, snapshot, w, c, now))
    ensures Fresh(t, PROJECTION_CUTOFF + budget, budget)
  {
    hide Reaches, Fresh, TickRows, AsTable;
    var more;
    more, t := TickIsRun(s, budget, rows, company, snapshot, w, c, now);
    RunConcat(start, before, budget, true, s, more, t);
    events := before + more;
    DisplayNeverStale(start, events, budget, t);
  }
}
