/** The explicit display rollback (`AdvisoryDisplayCleaner` in `app/composition/advisory.py`): clear, verify, reset
    the markers, settle outside the lock, confirm. Everything outside the cleaner is a `World` it cannot control. */
module DisplayCleaner {
  import opened Core
  import opened SuggestionSets
  import opened SuggestionTable

  /** What other processes do while the cleaner does not hold the lock. A display sweep or an advisory tick needs the
      lock; a projection of any other flow does not. */
  datatype Event =
    | OdooChanges(populated: seq<int>)
    | SweepRefresh(review: string, now: Time, startedAt: Time)
    | TickInsert(row: StoredSet)
    | TickRetire(id: nat, status: SetStatus)
    | TickRevalidate(id: nat, at: Time)

  /** The answers of the outside world, by interaction number: whether the lock is free, whether an Odoo call succeeds,
      what unlocked flows write to Odoo just before it, and what happens during each wait outside the lock. */
  datatype World = World(
    lockFree: nat -> bool,
    callOk: nat -> bool,
    unlockedWrites: nat -> Option<seq<int>>,
    outside: nat -> seq<Event>)

  datatype Outcome = Cleared | LockBusy | ReadFailed | Incomplete | Repopulated

  datatype Report = Report(
    outcome: Outcome, discovered: seq<int>, cleared: seq<int>, failed: seq<int>, remaining: seq<int>,
    markersReset: nat, markersAfterSettle: nat)

  /** A display sweep of another worker refreshed one review: its due sets are marked. */
  function SweptRow(row: StoredSet, review: string, now: Time, startedAt: Time): StoredSet {
    if row.reviewId == review && NeedsDisplayRefresh(row, now) then row.(syncedAt := Some(startedAt)) else row
  }

  function Played(rows: seq<StoredSet>, e: Event): seq<StoredSet> {
    match e
    case OdooChanges(_) => rows
    case SweepRefresh(review, now, startedAt) => Map((row: StoredSet) => SweptRow(row, review, now, startedAt), rows)
    case TickInsert(row) => rows + [row.(status := Current, syncedAt := None)]
    case TickRetire(id, status) => if id < |rows| && status != Current then rows[id := Retire(rows[id], status)]
                                   else rows
    case TickRevalidate(id, at) => if id < |rows| then rows[id := Revalidate(rows[id], at)] else rows
  }

  function Play(rows: seq<StoredSet>, events: seq<Event>): seq<StoredSet> {
    if events == [] then rows else Played(Play(rows, events[..|events| - 1]), events[|events| - 1])
  }

  predicate NoMarkedCurrent(rows: seq<StoredSet>) {
    forall id :: 0 <= id < |rows| ==> !MarkedCurrent(rows[id])
  }

  /** What is left of `before` after clearing the rows `done`. */
  predicate Left(now: seq<int>, before: seq<int>, done: seq<int>) {
    forall row :: row in now ==> row in before && row !in done
  }

  lemma NothingLeft(now: seq<int>, rows: seq<int>)
    ensures Left(now, rows, rows) ==> now == []
  {
    if now != [] {
      var row := now[0];
      assert row in now && !(row in rows && row !in rows);
    }
  }

  /** What the cleaner saw when it reset the markers. */
  datatype ResetFact = ResetFact(populated: seq<int>, failed: seq<int>)

  class Cleaner {
    const table: Table
    const world: World
    const attempts: nat
    const lockAttempts: nat
    /** The Odoo rows with a populated suggestion field. */
    var populated: seq<int>
    var tick: nat
    ghost var resets: seq<ResetFact>
    /** The rows right after the last reset, and everything other processes did since. */
    ghost var afterReset: seq<StoredSet>
    ghost var since: seq<Event>

    ghost predicate Valid()
      reads this, table
    {
      attempts >= 1 && lockAttempts >= 1 && table.rows == Play(afterReset, since)
    }

    /** Every Odoo call of the interval failed. */
    ghost predicate AllFailed(from: nat, until: nat) {
      forall t: nat :: from <= t < until ==> !world.callOk(t)
    }

    /** One operation with retries: it succeeds on its last call, and gives up only after `attempts` failures. */
    ghost predicate BoundedCalls(from: nat, until: nat, ok: bool) {
      && from <= until <= from + attempts
      && (if ok then from < until && AllFailed(from, until - 1) && world.callOk(until - 1)
          else until == from + attempts && AllFailed(from, until))
    }

    /** The lock was busy at the first `k` attempts; a wait separates two attempts. */
    ghost predicate BusyUntil(from: nat, k: nat) {
      forall j: nat :: j < k ==> !world.lockFree(from + 2 * j)
    }

    /** Nothing outside the cleaner stirs: the lock is free, every Odoo call succeeds, nobody else writes. */
    ghost predicate Quiet() {
      forall t: nat :: world.lockFree(t) && world.callOk(t) && world.unlockedWrites(t) == None && world.outside(t) == []
    }

    constructor (table: Table, world: World, attempts: nat, lockAttempts: nat, populated: seq<int>)
      requires attempts >= 1 && lockAttempts >= 1
      ensures Valid() && this.table == table && this.world == world && resets == []
    {
      this.table, this.world, this.populated := table, world, populated;
      this.attempts, this.lockAttempts := attempts, lockAttempts;
      tick, resets, since := 0, [], [];
      afterReset := table.rows;
    }

    /** One Odoo interaction inside the lock: flows that need no lock may have written just before it. */
    method Interact() returns (ok: bool)
      modifies this`populated, this`tick
      ensures tick == old(tick) + 1 && ok == world.callOk(old(tick))
      ensures populated == (if world.unlockedWrites(old(tick)).Some? then world.unlockedWrites(old(tick)).value
                            else old(populated))
    {
      var writes := world.unlockedWrites(tick);
      if writes.Some? {
        populated := writes.value;
      }
      ok := world.callOk(tick);
      tick := tick + 1;
    }

    /** A wait outside the lock. */
    method Wait()
      requires Valid()
      modifies this`populated, this`tick, this`since, table
      ensures Valid() && old(since) <= since && tick == old(tick) + 1
      ensures Quiet() ==> since == old(since) && populated == old(populated) && table.rows == old(table.rows)
    {
      var events := world.outside(tick);
      tick := tick + 1;
      ghost var before := since;
      for i := 0 to |events|
        invariant Valid() && since == before + events[..i] && tick == old(tick) + 1
        invariant i == 0 ==> populated == old(populated) && table.rows == old(table.rows)
      {
        assert (since + [events[i]])[..|since|] == since;
        assert events[..i] + [events[i]] == events[..i + 1];
        table.rows := Played(table.rows, events[i]);
        if events[i].OdooChanges? {
          populated := events[i].populated;
        }
        since := since + [events[i]];
      }
    }

    /** `_read`: bounded retries; a successful read returns what Odoo holds at that moment. */
    method Read() returns (rows: Option<seq<int>>)
      modifies this`populated, this`tick
      ensures rows.Some? ==> rows.value == populated
      ensures BoundedCalls(old(tick), tick, rows.Some?)
      ensures Quiet() ==> populated == old(populated) && (attempts >= 1 ==> rows.Some?)
    {
      for attempt := 0 to attempts
        invariant AllFailed(old(tick), tick) && tick == old(tick) + attempt
        invariant Quiet() ==> populated == old(populated)
      {
        var ok := Interact();
        if ok {
          return Some(populated);
        }
      }
      assert attempts >= 1 ==> !world.callOk(old(tick));
      return None;
    }

    /** `_clear_row`: bounded retries; success means the row was emptied. */
    method ClearRow(row: int) returns (ok: bool)
      modifies this`populated, this`tick
      ensures ok ==> row !in populated
      ensures BoundedCalls(old(tick), tick, ok)
      ensures Quiet() ==> (attempts >= 1 ==> ok) && forall r :: r in populated ==> r in old(populated)
    {
      for attempt := 0 to attempts
        invariant AllFailed(old(tick), tick) && tick == old(tick) + attempt
        invariant Quiet() ==> populated == old(populated)
      {
        ok := Interact();
        if ok {
          populated := Filter((r: int) => r != row, populated);
          return true;
        }
      }
      assert attempts >= 1 ==> !world.callOk(old(tick));
      return false;
    }

    /** The clearing loop: every discovered row ends up in exactly one of the two lists. */
    method ClearRows(rows: seq<int>) returns (cleared: seq<int>, failed: seq<int>)
      requires attempts >= 1
      modifies this`populated, this`tick
      ensures |cleared| + |failed| == |rows|
      ensures forall row :: row in rows <==> row in cleared || row in failed
      ensures Quiet() ==> failed == []
      ensures Quiet() && rows == old(populated) ==> populated == []
    {
      cleared, failed := [], [];
      for i := 0 to |rows|
        invariant |cleared| + |failed| == i
        invariant forall row :: row in rows[..i] <==> row in cleared || row in failed
        invariant Quiet() ==> failed == [] && Left(populated, old(populated), rows[..i])
      {
        assert rows[..i + 1] == rows[..i] + [rows[i]];
        var ok := ClearRow(rows[i]);
        if ok {
          cleared := cleared + [rows[i]];
        } else {
          failed := failed + [rows[i]];
        }
      }
      assert rows[..|rows|] == rows;
      NothingLeft(populated, rows);
    }

    /** The first locked step: clear every row, verify, and only then re-arm the sweep. */
    method ClearAndReset() returns (r: Report)
      requires Valid()
      modifies this`populated, this`tick, this`resets, this`afterReset, this`since, table
      ensures Valid()
      ensures r.outcome == Cleared || r.outcome == ReadFailed || r.outcome == Incomplete
      ensures r.outcome == Cleared ==>
        && resets == old(resets) + [ResetFact([], [])] && since == [] && afterReset == table.rows
        && populated == [] && r.failed == [] && r.remaining == []
        && |table.rows| == |old(table.rows)|
        && forall id :: 0 <= id < |table.rows| ==> table.rows[id] == ResetMarker(old(table.rows)[id])
      ensures r.outcome != Cleared ==>
        && resets == old(resets) && table.rows == old(table.rows)
        && since == old(since) && afterReset == old(afterReset)
      ensures Quiet() ==> r.outcome == Cleared
      ensures r.markersReset == if r.outcome == Cleared then MarkedCount(old(table.rows)) else 0
      ensures |r.cleared| + |r.failed| == |r.discovered|
      ensures forall row :: row in r.discovered <==> row in r.cleared || row in r.failed
    {
      var discovered := Read();
      if discovered.None? {
        return Report(ReadFailed, [], [], [], [], 0, 0);
      }
      var rows := discovered.value;
      var cleared, failed := ClearRows(rows);
      r := Report(Incomplete, rows, cleared, failed, [], 0, 0);
      var remaining := Read();
      if remaining.None? {
        return;
      }
      if remaining.value != [] || failed != [] {
        r := r.(remaining := remaining.value);
        return;
      }
      resets := resets + [ResetFact(populated, failed)];
      var count := table.ResetDisplayMarkers();
      afterReset, since := table.rows, [];
      r := r.(outcome := Cleared, markersReset := count);
    }

    /** The second locked step: nothing re-marked, nothing shown. */
    method Confirm(first: Report) returns (r: Report)
      requires Valid() && first.outcome == Cleared
      modifies this`populated, this`tick
      ensures Valid() && table.rows == old(table.rows)
      ensures r.outcome == Cleared ==> r == first && populated == [] && NoMarkedCurrent(table.rows)
      ensures Quiet() && old(populated) == [] && NoMarkedCurrent(table.rows) ==> r.outcome == Cleared
      ensures r.outcome == Incomplete <==> tick == old(tick) + attempts && AllFailed(old(tick), tick)
      ensures r.outcome != Incomplete ==> (r.outcome == Cleared <==> populated == [] && NoMarkedCurrent(table.rows))
      ensures r.outcome == Repopulated ==> r.markersAfterSettle == MarkedCount(table.rows)
      ensures r.outcome == Cleared || r.outcome == Incomplete || r.outcome == Repopulated
    {
      var marked := table.CountDisplayMarkedCurrent();
      var remaining := Read();
      if remaining.None? {
        return first.(outcome := Incomplete);
      }
      if marked != 0 || remaining.value != [] {
        return first.(outcome := Repopulated, remaining := remaining.value, markersAfterSettle := marked);
      }
      return first;
    }

    /** `_locked`: wait for the lock a bounded number of times. */
    method Acquire() returns (acquired: bool)
      requires Valid()
      modifies this`populated, this`tick, this`since, table
      ensures Valid() && old(since) <= since
      ensures acquired ==>
        exists k: nat :: k < lockAttempts && BusyUntil(old(tick), k) && world.lockFree(old(tick) + 2 * k)
      ensures !acquired ==> BusyUntil(old(tick), lockAttempts)
      ensures Quiet() ==>
        acquired && since == old(since) && populated == old(populated) && table.rows == old(table.rows)
    {
      for attempt := 0 to lockAttempts
        invariant Valid() && old(since) <= since
        invariant attempt < lockAttempts ==> tick == old(tick) + 2 * attempt
        invariant BusyUntil(old(tick), attempt)
        invariant Quiet() ==>
          attempt == 0 && since == old(since) && populated == old(populated) && table.rows == old(table.rows)
      {
        var free := world.lockFree(tick);
        if free {
          assert world.lockFree(old(tick) + 2 * attempt);
        }
        tick := tick + 1;
        if free {
          return true;
        }
        if attempt + 1 < lockAttempts {
          Wait();
        }
      }
      return false;
    }

    /** The whole rollback. */
    method Apply() returns (r: Report)
      requires Valid()
      modifies this`populated, this`tick, this`resets, this`afterReset, this`since, table
      ensures Valid()
      ensures resets == old(resets) || resets == old(resets) + [ResetFact([], [])]
      ensures r.outcome == Cleared ==>
        && populated == [] && NoMarkedCurrent(table.rows)
        && resets == old(resets) + [ResetFact([], [])]
        && NoMarkedCurrent(afterReset) && table.rows == Play(afterReset, since)
        && (forall i: nat, id: nat :: !Lasts(afterReset, since, i, id))
      ensures Quiet() ==> r.outcome == Cleared
      ensures resets == old(resets) ==> r.markersReset == 0 && r.outcome != Cleared && r.outcome != Repopulated
    {
      var acquired := Acquire();
      if !acquired {
        return Report(LockBusy, [], [], [], [], 0, 0);
      }
      var first := ClearAndReset();
      if first.outcome != Cleared {
        return first;
      }
      assert NoMarkedCurrent(afterReset);
      Wait();
      acquired := Acquire();
      if !acquired {
        return first.(outcome := LockBusy);
      }
      r := Confirm(first);
      if r.outcome == Cleared {
        NoMarkExactly(afterReset, since);
      }
    }
  }

  // ----- what a complete report excludes

  /** The event takes the marker off the marked current set `id`: it retires the set, or revalidates it after the
      display recorded it as cleared. */
  predicate Undoes(row: StoredSet, e: Event, id: nat) {
    || (e.TickRetire? && e.id == id && e.status != Current)
    || (e.TickRevalidate? && e.id == id && DisplayCleared(row.validatedAt, row.syncedAt))
  }

  /** Nothing else does. */
  lemma UndoesExactly(rows: seq<StoredSet>, e: Event, id: nat)
    requires id < |rows| && MarkedCurrent(rows[id])
    ensures id < |Played(rows, e)|
    ensures MarkedCurrent(Played(rows, e)[id]) <==> !Undoes(rows[id], e, id)
  {
  }

  lemma {:induction false} PlayGrows(rows: seq<StoredSet>, events: seq<Event>)
    ensures |rows| <= |Play(rows, events)|
  {
    if events != [] {
      PlayGrows(rows, events[..|events| - 1]);
    }
  }

  /** Some event of the sequence takes the marker off the set. */
  ghost predicate Undone(rows: seq<StoredSet>, events: seq<Event>, id: nat) {
    exists j ::
      && 0 <= j < |events| && id < |Play(rows, events[..j])| && Undoes(Play(rows, events[..j])[id], events[j], id)
  }

  lemma {:induction false} PlayKeepsMark(rows: seq<StoredSet>, events: seq<Event>, id: nat)
    requires id < |rows| && MarkedCurrent(rows[id])
    ensures id < |Play(rows, events)|
    ensures MarkedCurrent(Play(rows, events)[id]) || Undone(rows, events, id)
  {
    PlayGrows(rows, events);
    if events != [] {
      var n := |events| - 1;
      PlayKeepsMark(rows, events[..n], id);
      if Undone(rows, events[..n], id) {
        var j :| 0 <= j < n && id < |Play(rows, events[..n][..j])|
          && Undoes(Play(rows, events[..n][..j])[id], events[..n][j], id);
        assert events[..n][..j] == events[..j];
        assert Undone(rows, events, id);
      } else {
        UndoesExactly(Play(rows, events[..n]), events[n], id);
      }
    }
  }

  lemma {:induction false} PlayConcat(rows: seq<StoredSet>, a: seq<Event>, b: seq<Event>)
    ensures Play(rows, a + b) == Play(Play(rows, a), b)
  {
    if b == [] {
      assert a + b == a;
    } else {
      var n := |b| - 1;
      assert (a + b)[..|a + b| - 1] == a + b[..n];
      PlayConcat(rows, a, b[..n]);
    }
  }

  /** A reset leaves every current set due, whatever the time. */
  lemma ResetMakesDue(row: StoredSet, now: Time)
    requires row.status == Current
    ensures NeedsDisplayRefresh(ResetMarker(row), now)
  {
  }

  /** Event `i` is a sweep that refreshed the review of set `id` while the set was current. */
  ghost predicate Refreshes(rows: seq<StoredSet>, events: seq<Event>, i: nat, id: nat) {
    && i < |events| && events[i].SweepRefresh? && id < |Play(rows, events[..i])|
    && Play(rows, events[..i])[id].status == Current && Play(rows, events[..i])[id].reviewId == events[i].review
  }

  /** Such a sweep, and nothing later took the marker off the set. */
  ghost predicate Lasts(rows: seq<StoredSet>, events: seq<Event>, i: nat, id: nat) {
    Refreshes(rows, events, i, id) && !Undone(Play(rows, events[..i + 1]), events[i + 1..], id)
  }

  /** A display-enabled worker cannot hide: if any sweep since the reset refreshed a review that then had a current
      set, the confirming count finds that set marked unless a later event retired it, or revalidated it after the
      display had recorded it as cleared. Ordinary revalidations do not matter. */
  lemma SweepIsDetected(rows: seq<StoredSet>, events: seq<Event>, i: nat, id: nat)
    requires Lasts(rows, events, i, id)
    ensures id < |Play(rows, events)| && MarkedCurrent(Play(rows, events)[id])
  {
    var before, rest := Play(rows, events[..i]), events[i + 1..];
    var swept := Played(before, events[i]);
    assert MarkedCurrent(swept[id]);
    assert events == events[..i + 1] + rest;
    assert events[..i + 1][..i] == events[..i];
    PlayConcat(rows, events[..i + 1], rest);
    PlayKeepsMark(swept, rest, id);
    assert Play(rows, events) == Play(swept, rest);
  }

  lemma NotUndoneBy(rows: seq<StoredSet>, events: seq<Event>, e: Event, id: nat)
    requires !Undone(rows, events, id) && id < |Play(rows, events)| && !Undoes(Play(rows, events)[id], e, id)
    ensures !Undone(rows, events + [e], id)
  {
    hide Undoes, Play;
    var all := events + [e];
    forall j | 0 <= j < |all|
      ensures !(id < |Play(rows, all[..j])| && Undoes(Play(rows, all[..j])[id], all[j], id))
    {
      assert all[..j] == events[..j];
      if j == |events| {
        assert events[..j] == events;
      }
    }
  }

  /** One more event that leaves the set marked leaves the sweep that marked it lasting. */
  lemma LastsOn(rows: seq<StoredSet>, events: seq<Event>, e: Event, i: nat, id: nat)
    requires Lasts(rows, events, i, id) && id < |Play(rows, events)| && !Undoes(Play(rows, events)[id], e, id)
    ensures Lasts(rows, events + [e], i, id)
  {
    var all, swept, rest := events + [e], Play(rows, events[..i + 1]), events[i + 1..];
    assert all[..i] == events[..i] && all[..i + 1] == events[..i + 1] && all[i + 1..] == rest + [e];
    assert events == events[..i + 1] + rest;
    PlayConcat(rows, events[..i + 1], rest);
    hide Undone, Play, Undoes;
    NotUndoneBy(swept, rest, e, id);
  }

  /** And nothing else leaves a mark: a set found marked was refreshed by a sweep since the reset that lasts. */
  lemma {:induction false} MarkComesFromSweep(rows: seq<StoredSet>, events: seq<Event>, id: nat) returns (i: nat)
    requires NoMarkedCurrent(rows) && id < |Play(rows, events)| && MarkedCurrent(Play(rows, events)[id])
    ensures Lasts(rows, events, i, id)
  {
    var n := |events| - 1;
    var before := Play(rows, events[..n]);
    assert events == events[..n] + [events[n]];
    if id < |before| && MarkedCurrent(before[id]) {
      UndoesExactly(before, events[n], id);
      i := MarkComesFromSweep(rows, events[..n], id);
      LastsOn(rows, events[..n], events[n], i, id);
    } else {
      i := n;
    }
  }

  /** So the confirming count is exact: it finds nothing if and only if every sweep that refreshed a current set since
      the reset was undone by a tick that retired the set, or revalidated it after it had been recorded as cleared. */
  lemma NoMarkExactly(afterReset: seq<StoredSet>, since: seq<Event>)
    requires NoMarkedCurrent(afterReset)
    ensures NoMarkedCurrent(Play(afterReset, since)) <==> forall i: nat, id: nat :: !Lasts(afterReset, since, i, id)
  {
    hide Lasts, MarkedCurrent;
    var final := Play(afterReset, since);
    forall i: nat, id: nat | Lasts(afterReset, since, i, id)
      ensures !NoMarkedCurrent(final)
    {
      SweepIsDetected(afterReset, since, i, id);
    }
    forall id: nat | id < |final| && MarkedCurrent(final[id])
      ensures exists i: nat :: Lasts(afterReset, since, i, id)
    {
      var i := MarkComesFromSweep(afterReset, since, id);
    }
  }

  function ExampleRow(validatedAt: Time, synced: Option<Time>): StoredSet {
    StoredSet(1, "review", 1, "1", "key", Some(7), None, "", "", "", ENGINE_VERSION, Current, validatedAt, synced,
              SuggestionEngine.Result("review", "1", 1, "", [], false, false, []))
  }

  /** The exception is real: a sweep marks an expired set as cleared, a tick revalidates it, and nothing is left for
      the count to find; one that revalidates a younger set is found out. */
  lemma ClearedRevalidationHides()
    ensures var late := PROJECTION_CUTOFF + 1;
      var revalidate := TickRevalidate(0, late);
      && NoMarkedCurrent(Play([ExampleRow(0, None)], [SweepRefresh("review", late, late), revalidate]))
      && !NoMarkedCurrent(Play([ExampleRow(1, None)], [SweepRefresh("review", late, late - 1), revalidate]))
  {
    var late := PROJECTION_CUTOFF + 1;
    PlayTwo([ExampleRow(0, None)], SweepRefresh("review", late, late), TickRevalidate(0, late));
    PlayTwo([ExampleRow(1, None)], SweepRefresh("review", late, late - 1), TickRevalidate(0, late));
    var young := Play([ExampleRow(1, None)], [SweepRefresh("review", late, late - 1), TickRevalidate(0, late)]);
    assert MarkedCurrent(young[0]);
  }

  lemma PlayTwo(rows: seq<StoredSet>, a: Event, b: Event)
    ensures Play(rows, [a, b]) == Played(Played(rows, a), b)
  {
    assert [a, b][..1] == [a] && [a][..0] == [];
    assert Play(rows, [a]) == Played(Play(rows, []), a);
  }
}
