/** One tick of the advisory worker (`AdvisoryProductSuggestionService.run` in
    `app/services/advisory_product_suggestions.py`): retire what is gone, keep what is unchanged, regenerate the
    rest. */
module AdvisoryTick {
  import opened Core
  import opened SuggestionEngine
  import opened SuggestionSets
  import opened SuggestionTable

  /** The wanted lines, and every pending review with its version. */
  datatype Snapshot = Snapshot(lines: seq<AdvisoryLine>, pending: map<string, int>)

  /** What the service is built with, and the digests it uses. */
  datatype Config = Config(policy: Policy, lex: Lexicon, digests: Digests, maxLines: nat)

  /** The outside world during one tick: the catalog read (`None` when it raised), the prior mappings, whether the
      budget still lasts before line `i` and whether generating line `i` raises. */
  datatype World = World(catalog: Option<Catalog>, priors: seq<Prior>, inTime: nat -> bool, raises: nat -> bool)

  datatype TickStatus = Completed | NoLines | CatalogFailed | BudgetExhausted

  datatype TickResult = TickResult(
    status: TickStatus, linesSeen: nat, generated: nat, revalidated: nat, retired: nat, failed: nat, truncated: nat)

  // ----- the specification

  predicate IsFor(row: StoredSet, line: AdvisoryLine) {
    row.reviewId == line.reviewId && row.reviewVersion == line.reviewVersion && row.lineNumber == line.lineNumber
  }

  predicate Wanted(row: StoredSet, lines: seq<AdvisoryLine>) {
    exists i :: 0 <= i < |lines| && IsFor(row, lines[i])
  }

  predicate Orphaned(row: StoredSet, company: int, lines: seq<AdvisoryLine>) {
    row.status == Current && row.companyId == company && !Wanted(row, lines)
  }

  /** A current set whose line is gone leaves for the reason `Retirement` gives. */
  function RetiredRow(row: StoredSet, company: int, snapshot: Snapshot): StoredSet {
    if Orphaned(row, company, snapshot.lines) then Retire(row, Retirement(row, snapshot.pending).0) else row
  }

  function RetiredRows(rows: seq<StoredSet>, company: int, snapshot: Snapshot): seq<StoredSet> {
    Map((row: StoredSet) => RetiredRow(row, company, snapshot), rows)
  }

  /** `current.get(line.key)`: the last current set of the company listed for the line. */
  function Existing(rows: seq<StoredSet>, company: int, line: AdvisoryLine): (r: Option<nat>)
    ensures r.Some? ==> r.value < |rows| && rows[r.value].status == Current && rows[r.value].companyId == company
    ensures r.Some? ==> IsFor(rows[r.value], line)
    ensures r.None? ==> forall id :: 0 <= id < |rows| && rows[id].status == Current && rows[id].companyId == company ==>
      !IsFor(rows[id], line)
  {
    if rows == [] then None
    else
      var n := |rows| - 1;
      if rows[n].status == Current && rows[n].companyId == company && IsFor(rows[n], line) then Some(n)
      else Existing(rows[..n], company, line)
  }

  /** What the line loop works with: the sets listed before it, the lines it takes and one catalog read. */
  datatype Loop = Loop(listed: seq<StoredSet>, company: int, lines: seq<AdvisoryLine>, catalog: Catalog, w: World,
                       c: Config, now: Time)

  /** Where it stands: the table, the sets to revalidate, and the tallies. */
  datatype Progress = Progress(rows: seq<StoredSet>, kept: set<nat>, generated: nat, failed: nat)

  /** Nothing the digests cover has changed since the set was generated. */
  predicate UpToDate(t: Loop, row: StoredSet, line: AdvisoryLine) {
    KeptOrReplaced(row, line, t.catalog, t.c.digests) == None
  }

  function NewRow(t: Loop, line: AdvisoryLine): (row: StoredSet)
    ensures row.status == Current && row.syncedAt.None? && row.validatedAt == t.now
    ensures row.companyId == line.companyId && IsFor(row, line) && UpToDate(t, row, line)
  {
    Generate(line, t.catalog, t.w.priors, t.c.policy, t.c.lex, t.c.digests, t.now)
  }

  /** The table once the set listed for the line, if any, is superseded. */
  function SupersededRows(rows: seq<StoredSet>, existing: Option<nat>): (after: seq<StoredSet>)
    requires existing.Some? ==> existing.value < |rows|
    ensures |after| == |rows|
  {
    if existing.Some? then rows[existing.value := Retire(rows[existing.value], Superseded)] else rows
  }

  /** One round: keep the set that was listed for the line, or supersede it and insert a new one; a round that raises
      is rolled back. */
  function Round(t: Loop, p: Progress, i: nat): (after: Progress)
    requires |t.listed| <= |p.rows| && i < |t.lines|
    ensures |p.rows| <= |after.rows|
  {
    var line := t.lines[i];
    var existing := Existing(t.listed, t.company, line);
    if existing.Some? && UpToDate(t, t.listed[existing.value], line) then p.(kept := p.kept + {existing.value})
    else
      var superseded := SupersededRows(p.rows, existing);
      if t.w.raises(i) || Occupied(superseded, NewRow(t, line)) then p.(failed := p.failed + 1)
      else p.(rows := superseded + [NewRow(t, line)], generated := p.generated + 1)
  }

  function Rounds(t: Loop, start: seq<StoredSet>, n: nat): (p: Progress)
    requires |start| == |t.listed| && n <= |t.lines|
    ensures |t.listed| <= |p.rows|
  {
    if n == 0 then Progress(start, {}, 0, 0) else Round(t, Rounds(t, start, n - 1), n - 1)
  }

  lemma RoundsUnfold(t: Loop, start: seq<StoredSet>, n: nat)
    requires |start| == |t.listed| && n <= |t.lines|
    ensures Rounds(t, start, n) == if n == 0 then Progress(start, {}, 0, 0)
                                   else Round(t, Rounds(t, start, n - 1), n - 1)
  {
    hide Round;
  }

  /** How many of `n` lines the budget lets the loop see. */
  function InBudget(w: World, n: nat): (k: nat)
    ensures k <= n
  {
    if n == 0 then 0
    else
      var before := InBudget(w, n - 1);
      if before == n - 1 && w.inTime(n - 1) then n else before
  }

  function Work(lines: seq<AdvisoryLine>, c: Config): seq<AdvisoryLine> {
    if |lines| <= c.maxLines then lines else lines[..c.maxLines]
  }

  function RevalidatedAll(rows: seq<StoredSet>, ids: set<nat>, now: Time): seq<StoredSet> {
    seq(|rows|, id requires 0 <= id < |rows| => if id in ids then Revalidate(rows[id], now) else rows[id])
  }

  /** The line loop of a tick whose catalog read succeeded. */
  function LoopOf(rows: seq<StoredSet>, company: int, snapshot: Snapshot, w: World, c: Config, now: Time): Loop
    requires w.catalog.Some?
  {
    Loop(rows, company, Work(snapshot.lines, c), w.catalog.value, w, c, now)
  }

  function Looped(rows: seq<StoredSet>, company: int, snapshot: Snapshot, w: World, c: Config, now: Time): Progress
    requires w.catalog.Some?
  {
    var t := LoopOf(rows, company, snapshot, w, c, now);
    Rounds(t, RetiredRows(rows, company, snapshot), InBudget(w, |t.lines|))
  }

  /** The table after a tick. */
  function TickRows(rows: seq<StoredSet>, company: int, snapshot: Snapshot, w: World, c: Config, now: Time)
    : seq<StoredSet>
  {
    if snapshot.lines == [] || w.catalog.None? then RetiredRows(rows, company, snapshot)
    else
      var p := Looped(rows, company, snapshot, w, c, now);
      RevalidatedAll(p.rows, p.kept, now)
  }

  // ----- the tick

  function OrphanCount(rows: seq<StoredSet>, company: int, lines: seq<AdvisoryLine>): nat {
    |Filter((row: StoredSet) => Orphaned(row, company, lines), rows)|
  }

  lemma OrphanNext(rows: seq<StoredSet>, company: int, lines: seq<AdvisoryLine>, n: nat)
    requires n < |rows|
    ensures OrphanCount(rows[..n + 1], company, lines)
         == OrphanCount(rows[..n], company, lines) + (if Orphaned(rows[n], company, lines) then 1 else 0)
  {
    assert rows[..n + 1] == rows[..n] + [rows[n]];
    FilterConcat((row: StoredSet) => Orphaned(row, company, lines), rows[..n], [rows[n]]);
  }

  /** The retirements of a tick. */
  method RetireOrphans(table: Table, company: int, snapshot: Snapshot) returns (retired: nat)
    modifies table
    ensures table.rows == RetiredRows(old(table.rows), company, snapshot)
    ensures retired == OrphanCount(old(table.rows), company, snapshot.lines)
  {
    hide OrphanCount, Orphaned, Retire, Retirement;
    ghost var rows := table.rows;
    retired := 0;
    assert OrphanCount(rows[..0], company, snapshot.lines) == 0 by { NoOrphans(rows, company, snapshot.lines); }
    for id := 0 to |table.rows|
      invariant |table.rows| == |rows| && retired == OrphanCount(rows[..id], company, snapshot.lines)
      invariant forall j :: 0 <= j < id ==> table.rows[j] == RetiredRow(rows[j], company, snapshot)
      invariant forall j :: id <= j < |rows| ==> table.rows[j] == rows[j]
    {
      OrphanNext(rows, company, snapshot.lines, id);
      if Orphaned(table.rows[id], company, snapshot.lines) {
        var status := Retirement(table.rows[id], snapshot.pending).0;
        OrphanIsCurrent(rows[id], company, snapshot.lines);
        var ok := table.RetireSet(id, status);
        retired := retired + 1;
      }
    }
    assert rows[..|rows|] == rows;
  }

  lemma NoOrphans(rows: seq<StoredSet>, company: int, lines: seq<AdvisoryLine>)
    ensures OrphanCount(rows[..0], company, lines) == 0
  {
  }

  method RunRound(table: Table, t: Loop, i: nat) returns (kept: set<nat>, generated: nat, failed: nat)
    requires |t.listed| <= |table.rows| && i < |t.lines|
    modifies table
    ensures Progress(table.rows, kept, generated, failed) == Round(t, Progress(old(table.rows), {}, 0, 0), i)
  {
    hide Existing, UpToDate, NewRow, Retire, Occupied;
    kept, generated, failed := {}, 0, 0;
    var line := t.lines[i];
    var existing := Existing(t.listed, t.company, line);
    if existing.Some? && UpToDate(t, t.listed[existing.value], line) {
      return {existing.value}, 0, 0;
    }
    var before := table.rows;
    if existing.Some? {
      var ok := table.RetireSet(existing.value, Superseded);
    }
    if !t.w.raises(i) {
      var inserted := table.InsertCurrent(NewRow(t, line));
      if inserted {
        return {}, 1, 0;
      }
    }
    table.rows := before;
    return {}, 0, 1;
  }

  /** A round adds to whatever was tallied before. */
  lemma RoundAdds(t: Loop, p: Progress, i: nat)
    requires |t.listed| <= |p.rows| && i < |t.lines|
    ensures var own := Round(t, Progress(p.rows, {}, 0, 0), i);
      Round(t, p, i) == Progress(own.rows, p.kept + own.kept, p.generated + own.generated, p.failed + own.failed)
  {
    hide Existing, UpToDate, NewRow, Occupied;
  }

  /** The line loop. */
  method RunLines(table: Table, t: Loop) returns (kept: set<nat>, generated: nat, failed: nat, inTime: bool)
    requires |table.rows| == |t.listed|
    modifies table
    ensures inTime <==> InBudget(t.w, |t.lines|) == |t.lines|
    ensures Progress(table.rows, kept, generated, failed) == Rounds(t, old(table.rows), InBudget(t.w, |t.lines|))
  {
    hide Round;
    ghost var start := table.rows;
    kept, generated, failed, inTime := {}, 0, 0, true;
    for i := 0 to |t.lines|
      invariant inTime && InBudget(t.w, i) == i
      invariant Progress(table.rows, kept, generated, failed) == Rounds(t, start, i)
    {
      if !t.w.inTime(i) {
        inTime := false;
        BudgetStops(t.w, i, |t.lines|);
        break;
      }
      RoundAdds(t, Rounds(t, start, i), i);
      var k, g, f := RunRound(table, t, i);
      kept, generated, failed := kept + k, generated + g, failed + f;
    }
  }

  lemma OrphanIsCurrent(row: StoredSet, company: int, lines: seq<AdvisoryLine>)
    requires Orphaned(row, company, lines)
    ensures row.status == Current
  {
  }

  lemma {:induction false} BudgetStops(w: World, i: nat, n: nat)
    requires i < n && InBudget(w, i) == i && !w.inTime(i)
    ensures InBudget(w, n) == i
  {
    if n > i + 1 {
      BudgetStops(w, i, n - 1);
    }
  }

  /** `run`. */
  method RunTick(table: Table, company: int, snapshot: Snapshot, w: World, c: Config, now: Time)
    returns (r: TickResult)
    requires UniqueCurrent(table.rows)
    modifies table
    ensures table.rows == TickRows(old(table.rows), company, snapshot, w, c, now)
    ensures r.retired == OrphanCount(old(table.rows), company, snapshot.lines)
    ensures r.status == NoLines <==> snapshot.lines == []
    ensures r.status == CatalogFailed <==> snapshot.lines != [] && w.catalog.None?
    ensures r.status == BudgetExhausted <==>
      && snapshot.lines != [] && w.catalog.Some?
      && InBudget(w, |Work(snapshot.lines, c)|) < |Work(snapshot.lines, c)|
    ensures r.linesSeen == |snapshot.lines|
    ensures snapshot.lines != [] && w.catalog.Some? ==>
      var p := Looped(old(table.rows), company, snapshot, w, c, now);
      && r.generated == p.generated && r.failed == p.failed
      && r.revalidated == CurrentIn(p.rows, p.kept, |p.rows|)
      && r.truncated == |snapshot.lines| - |Work(snapshot.lines, c)|
  {
    hide Rounds, RetiredRow, OrphanCount, UniqueCurrent;
    var listed := table.rows;
    var retired := RetireOrphans(table, company, snapshot);
    if snapshot.lines == [] {
      return TickResult(NoLines, 0, 0, 0, retired, 0, 0);
    }
    if w.catalog.None? {
      return TickResult(CatalogFailed, |snapshot.lines|, 0, 0, retired, 0, 0);
    }
    var t := LoopOf(listed, company, snapshot, w, c, now);
    var kept, generated, failed, inTime := RunLines(table, t);
    var revalidated := table.RevalidateSets(kept, now);
    var status := if inTime then Completed else BudgetExhausted;
    r := TickResult(status, |snapshot.lines|, generated, revalidated, retired, failed, |snapshot.lines| - |t.lines|);
  }
}
