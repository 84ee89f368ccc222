/** The suggestion-set table and its repository (`app/persistence/product_line_suggestion_repository.py`).
    A set's id is its position: rows are appended and never renumbered. */
module SuggestionTable {
  import opened Core
  import opened SuggestionSets

  /** The ids of a predicate, in id order, among the first `n` rows. */
  ghost predicate ListsExactly(ids: seq<nat>, rows: seq<StoredSet>, n: nat, chosen: StoredSet -> bool) {
    && n <= |rows|
    && (forall i, j :: 0 <= i < j < |ids| ==> ids[i] < ids[j])
    && (forall i :: 0 <= i < |ids| ==> ids[i] < n && chosen(rows[ids[i]]))
    && (forall id: nat :: id < n && chosen(rows[id]) ==> id in ids)
  }

  function MarkedRows(rows: seq<StoredSet>, ids: seq<nat>, read: seq<StoredSet>, at: Time): (after: seq<StoredSet>)
    requires forall i :: 0 <= i < |ids| ==> ids[i] < |rows| && ids[i] < |read|
    ensures |after| == |rows|
  {
    if ids == [] then rows
    else
      var n := |ids| - 1;
      var before := MarkedRows(rows, ids[..n], read, at);
      before[ids[n] := Mark(before[ids[n]], read[ids[n]], at)]
  }

  /** How many of the listed rows are still the ones that were read. */
  function Unchanged(rows: seq<StoredSet>, ids: seq<nat>, read: seq<StoredSet>): nat
    requires forall i :: 0 <= i < |ids| ==> ids[i] < |rows| && ids[i] < |read|
  {
    if ids == [] then 0
    else
      var n := |ids| - 1;
      Unchanged(rows, ids[..n], read) + (if SameVersion(rows[ids[n]], read[ids[n]]) then 1 else 0)
  }

  lemma {:induction false} AllUnchanged(rows: seq<StoredSet>, ids: seq<nat>, read: seq<StoredSet>)
    requires forall i :: 0 <= i < |ids| ==>
      ids[i] < |rows| && ids[i] < |read| && SameVersion(rows[ids[i]], read[ids[i]])
    ensures Unchanged(rows, ids, read) == |ids|
  {
    if ids != [] {
      AllUnchanged(rows, ids[..|ids| - 1], read);
    }
  }

  /** The current rows among `ids`, counted over the first `n` rows. */
  function CurrentIn(rows: seq<StoredSet>, ids: set<nat>, n: nat): nat
    requires n <= |rows|
  {
    if n == 0 then 0
    else CurrentIn(rows, ids, n - 1) + (if n - 1 in ids && rows[n - 1].status == Current then 1 else 0)
  }

  lemma {:induction false} CurrentInSplit(rows: seq<StoredSet>, later: seq<StoredSet>, a: set<nat>, b: set<nat>, n: nat)
    requires n <= |rows| == |later| && a !! b && forall i :: 0 <= i < |rows| ==> rows[i].status == later[i].status
    ensures CurrentIn(rows, a, n) + CurrentIn(later, b, n) == CurrentIn(rows, a + b, n)
  {
    if n != 0 {
      CurrentInSplit(rows, later, a, b, n - 1);
    }
  }

  function UpdatedRow(row: StoredSet, listed: bool, now: Time, dropMarker: bool): StoredSet {
    if listed && row.status == Current
    then row.(validatedAt := now, syncedAt := if dropMarker then None else row.syncedAt)
    else row
  }

  predicate MarkedCurrent(row: StoredSet) {
    row.status == Current && row.syncedAt.Some?
  }

  function MarkedCount(rows: seq<StoredSet>): nat {
    |Filter(MarkedCurrent, rows)|
  }

  lemma MarkedNone()
    ensures MarkedCount([]) == 0
  {
  }

  lemma MarkedNext(rows: seq<StoredSet>, n: nat)
    requires n < |rows|
    ensures MarkedCount(rows[..n + 1]) == MarkedCount(rows[..n]) + (if MarkedCurrent(rows[n]) then 1 else 0)
  {
    assert rows[..n + 1] == rows[..n] + [rows[n]];
    FilterConcat(MarkedCurrent, rows[..n], [rows[n]]);
  }

  lemma MarkedZero(rows: seq<StoredSet>)
    ensures MarkedCount(rows) == 0 <==> forall id :: 0 <= id < |rows| ==> !MarkedCurrent(rows[id])
  {
    var found := Filter(MarkedCurrent, rows);
    if found != [] {
      assert found[0] in rows;
    }
    forall id | 0 <= id < |rows| && MarkedCurrent(rows[id])
      ensures found != []
    {
      assert rows[id] in found;
    }
  }

  predicate SameLine(a: StoredSet, b: StoredSet) {
    && a.companyId == b.companyId && a.reviewId == b.reviewId && a.reviewVersion == b.reviewVersion
    && a.lineNumber == b.lineNumber
  }

  predicate Occupied(rows: seq<StoredSet>, row: StoredSet) {
    exists id :: 0 <= id < |rows| && rows[id].status == Current && SameLine(rows[id], row)
  }

  /** The partial unique index `ux_wpls_current_line`: at most one current set per company and line version. */
  predicate UniqueCurrent(rows: seq<StoredSet>) {
    forall i, j :: 0 <= i < j < |rows| && rows[i].status == Current && rows[j].status == Current ==>
      !SameLine(rows[i], rows[j])
  }

  class Table {
    var rows: seq<StoredSet>

    constructor ()
      ensures rows == []
    {
      rows := [];
    }

    /** `display_refresh_due`. */
    method DisplayRefreshDue(now: Time) returns (due: seq<nat>)
      ensures ListsExactly(due, rows, |rows|, row => NeedsDisplayRefresh(row, now))
    {
      due := [];
      for id := 0 to |rows|
        invariant ListsExactly(due, rows, id, row => NeedsDisplayRefresh(row, now))
      {
        if NeedsDisplayRefresh(rows[id], now) {
          due := due + [id];
        }
      }
    }

    /** `mark_display_synced`: compare-and-set against the rows the sweep read. */
    method MarkDisplaySynced(ids: seq<nat>, read: seq<StoredSet>, syncedAt: Time) returns (marked: nat)
      requires forall i :: 0 <= i < |ids| ==> ids[i] < |rows| && ids[i] < |read|
      modifies this
      ensures rows == MarkedRows(old(rows), ids, read, syncedAt)
      ensures marked == Unchanged(old(rows), ids, read)
    {
      marked := 0;
      for i := 0 to |ids|
        invariant rows == MarkedRows(old(rows), ids[..i], read, syncedAt)
        invariant marked == Unchanged(old(rows), ids[..i], read)
        invariant forall id :: 0 <= id < |rows| ==> SameVersion(rows[id], old(rows)[id])
      {
        assert ids[..i + 1][..i] == ids[..i];
        var row := rows[ids[i]];
        if SameVersion(row, read[ids[i]]) {
          rows := rows[ids[i] := row.(syncedAt := Some(syncedAt))];
          marked := marked + 1;
        }
      }
      assert ids[..|ids|] == ids;
    }

    /** `reset_display_markers`: every current set becomes due again; history keeps its markers. */
    method ResetDisplayMarkers() returns (reset: nat)
      modifies this
      ensures |rows| == |old(rows)|
      ensures forall id :: 0 <= id < |rows| ==> rows[id] == ResetMarker(old(rows)[id])
      ensures reset == MarkedCount(old(rows))
    {
      hide MarkedCount, NeedsDisplayRefresh, DisplayCleared;
      MarkedNone();
      reset := 0;
      for id := 0 to |rows|
        invariant |rows| == |old(rows)|
        invariant forall j :: 0 <= j < id ==> rows[j] == ResetMarker(old(rows)[j])
        invariant forall j :: id <= j < |rows| ==> rows[j] == old(rows)[j]
        invariant reset == MarkedCount(old(rows)[..id])
      {
        MarkedNext(old(rows), id);
        if MarkedCurrent(rows[id]) {
          rows := rows[id := rows[id].(syncedAt := None)];
          reset := reset + 1;
        }
      }
      assert old(rows)[..|rows|] == old(rows);
    }

    /** `count_display_marked_current`. */
    method CountDisplayMarkedCurrent() returns (count: nat)
      ensures count == MarkedCount(rows)
      ensures count == 0 <==> forall id :: 0 <= id < |rows| ==> !MarkedCurrent(rows[id])
    {
      hide MarkedCount;
      MarkedNone();
      count := 0;
      for id := 0 to |rows|
        invariant count == MarkedCount(rows[..id])
      {
        MarkedNext(rows, id);
        if MarkedCurrent(rows[id]) {
          count := count + 1;
        }
      }
      assert rows[..|rows|] == rows;
      MarkedZero(rows);
    }

    /** `insert_current`: refused by the partial unique index when the line already has a current set. */
    method InsertCurrent(row: StoredSet) returns (inserted: bool)
      requires row.status == Current && row.syncedAt.None?
      modifies this
      ensures inserted <==> !Occupied(old(rows), row)
      ensures rows == if inserted then old(rows) + [row] else old(rows)
    {
      for id := 0 to |rows|
        invariant rows == old(rows)
        invariant !Occupied(rows[..id], row)
      {
        if rows[id].status == Current && SameLine(rows[id], row) {
          return false;
        }
      }
      assert rows[..|rows|] == rows;
      rows := rows + [row];
      return true;
    }

    /** `retire`: False when the set is not current, or not there. */
    method RetireSet(id: nat, status: SetStatus) returns (retired: bool)
      requires status != Current
      modifies this
      ensures retired <==> id < |old(rows)| && old(rows)[id].status == Current
      ensures rows == if id < |old(rows)| then old(rows)[id := Retire(old(rows)[id], status)] else old(rows)
    {
      retired := id < |rows| && rows[id].status == Current;
      if retired {
        var marker := if DisplayCleared(rows[id].validatedAt, rows[id].syncedAt) then rows[id].syncedAt else None;
        rows := rows[id := rows[id].(status := status, syncedAt := marker)];
      }
    }

    /** One UPDATE of `revalidate`: the current rows of a group get the new time, and lose the marker when asked. */
    method UpdateGroup(group: set<nat>, now: Time, dropMarker: bool) returns (updated: nat)
      modifies this
      ensures |rows| == |old(rows)| && updated == CurrentIn(old(rows), group, |rows|)
      ensures forall id: nat :: id < |rows| ==> rows[id] == UpdatedRow(old(rows)[id], id in group, now, dropMarker)
    {
      updated := 0;
      for id := 0 to |rows|
        invariant |rows| == |old(rows)| && updated == CurrentIn(old(rows), group, id)
        invariant forall j :: id <= j < |rows| ==> rows[j] == old(rows)[j]
        invariant forall j: nat :: j < id ==> rows[j] == UpdatedRow(old(rows)[j], j in group, now, dropMarker)
      {
        if id in group && rows[id].status == Current {
          var marker := if dropMarker then None else rows[id].syncedAt;
          rows := rows[id := rows[id].(validatedAt := now, syncedAt := marker)];
          updated := updated + 1;
        }
      }
    }

    /** `revalidate`: every current set of the batch; unknown ids are ignored. */
    method RevalidateSets(ids: set<nat>, now: Time) returns (updated: nat)
      modifies this
      ensures |rows| == |old(rows)| && updated == CurrentIn(old(rows), ids, |rows|)
      ensures forall id: nat :: id < |rows| ==>
        rows[id] == if id in ids then Revalidate(old(rows)[id], now) else old(rows)[id]
    {
      var cleared := set id | id in ids && id < |rows| && DisplayCleared(rows[id].validatedAt, rows[id].syncedAt);
      var kept := UpdateGroup(ids - cleared, now, false);
      ghost var between := rows;
      var reset := UpdateGroup(cleared, now, true);
      CurrentInSplit(old(rows), between, ids - cleared, cleared, |rows|);
      assert (ids - cleared) + cleared == ids;
      updated := kept + reset;
    }
  }
}
