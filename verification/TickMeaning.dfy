/** What an advisory tick leaves behind: one current and up-to-date set per wanted line, and none for any other. */
module TickMeaning {
  import opened Core
  import opened SuggestionEngine
  import opened SuggestionSets
  import opened SuggestionTable
  import opened AdvisoryTick

  predicate SameLineAs(a: AdvisoryLine, b: AdvisoryLine) {
    a.reviewId == b.reviewId && a.reviewVersion == b.reviewVersion && a.lineNumber == b.lineNumber
  }

  /** The lines of one company's snapshot, each once: a review whose line numbers repeat is not projected
      (`app/application/workbench/product_line_projection.py`). */
  predicate LinesOf(company: int, lines: seq<AdvisoryLine>) {
    && (forall i :: 0 <= i < |lines| ==> lines[i].companyId == company)
    && (forall i, j :: 0 <= i < j < |lines| ==> !SameLineAs(lines[i], lines[j]))
  }

  predicate Owned(row: StoredSet, company: int) {
    row.status == Current && row.companyId == company
  }

  /** The start of the loop: the listed rows, of which only unwanted ones were retired. */
  predicate Started(t: Loop, start: seq<StoredSet>) {
    && |start| == |t.listed| && UniqueCurrent(start) && LinesOf(t.company, t.lines)
    && forall id :: 0 <= id < |start| ==>
         && (Wanted(t.listed[id], t.lines) ==> start[id] == t.listed[id])
         && (Owned(start[id], t.company) ==> start[id] == t.listed[id])
  }

  // ----- the invariant of the line loop

  /** Some of the first `n` lines is the row's. */
  predicate Seen(row: StoredSet, lines: seq<AdvisoryLine>, n: nat)
    requires n <= |lines|
  {
    exists j :: 0 <= j < n && IsFor(row, lines[j])
  }

  /** A listed row is as the loop found it, or the current set of a line the loop has seen, superseded. */
  predicate KeptOrSuperseded(t: Loop, before: StoredSet, after: StoredSet, n: nat)
    requires n <= |t.lines|
  {
    || after == before
    || (Owned(before, t.company) && Seen(before, t.lines, n) && after == Retire(before, Superseded))
  }

  /** The row is the up-to-date current set of the line: found unchanged, or just generated. */
  predicate Serves(t: Loop, p: Progress, id: nat, line: AdvisoryLine)
    requires id < |p.rows|
  {
    && Owned(p.rows[id], t.company) && IsFor(p.rows[id], line)
    && ((id in p.kept && UpToDate(t, p.rows[id], line)) || p.rows[id] == NewRow(t, line))
  }

  predicate Served(t: Loop, p: Progress, line: AdvisoryLine) {
    exists id: nat :: id < |p.rows| && Serves(t, p, id, line)
  }

  ghost predicate IsNew(t: Loop, row: StoredSet, n: nat)
    requires n <= |t.lines|
  {
    exists j :: 0 <= j < n && row == NewRow(t, t.lines[j])
  }

  ghost predicate RowsInv(t: Loop, start: seq<StoredSet>, rows: seq<StoredSet>, n: nat) {
    && |start| <= |rows| && n <= |t.lines| && UniqueCurrent(rows)
    && (forall id :: 0 <= id < |start| ==> KeptOrSuperseded(t, start[id], rows[id], n))
    && (forall id :: |start| <= id < |rows| ==> IsNew(t, rows[id], n))
  }

  predicate KeptInv(t: Loop, start: seq<StoredSet>, p: Progress, n: nat) {
    && |start| <= |p.rows| && n <= |t.lines|
    && forall id :: id in p.kept ==>
         id < |start| && p.rows[id] == start[id] && Owned(start[id], t.company) && Seen(start[id], t.lines, n)
  }

  /** Every line was served, unless generating its set raised. */
  predicate ServedInv(t: Loop, p: Progress, n: nat) {
    n <= |t.lines| && forall j :: 0 <= j < n ==> Served(t, p, t.lines[j]) || t.w.raises(j)
  }

  /** Every line was generated, failed or kept, and only a line that raised failed. */
  predicate TallyInv(t: Loop, p: Progress, n: nat) {
    && p.generated + p.failed + |p.kept| == n
    && ((forall j :: 0 <= j < n ==> !t.w.raises(j)) ==> p.failed == 0)
  }

  ghost predicate LoopInv(t: Loop, start: seq<StoredSet>, p: Progress, n: nat) {
    RowsInv(t, start, p.rows, n) && KeptInv(t, start, p, n) && ServedInv(t, p, n) && TallyInv(t, p, n)
  }

  lemma NotSeenYet(row: StoredSet, company: int, lines: seq<AdvisoryLine>, i: nat)
    requires LinesOf(company, lines) && i < |lines| && IsFor(row, lines[i])
    ensures !Seen(row, lines, i)
  {
    forall j | 0 <= j < i
      ensures !IsFor(row, lines[j])
    {
      assert !SameLineAs(lines[j], lines[i]);
    }
  }

  /** A line the loop has not come to yet finds its listed set as it was. */
  lemma ListedStands(t: Loop, start: seq<StoredSet>, p: Progress, i: nat, e: nat)
    requires Started(t, start) && i < |t.lines| && LoopInv(t, start, p, i)
    requires Existing(t.listed, t.company, t.lines[i]) == Some(e)
    ensures e < |start| <= |p.rows| && p.rows[e] == start[e] == t.listed[e] && e !in p.kept
  {
    hide UniqueCurrent, Retire, UpToDate, IsNew, ServedInv, TallyInv, Existing, Seen;
    assert Wanted(t.listed[e], t.lines);
    NotSeenYet(start[e], t.company, t.lines, i);
    assert KeptOrSuperseded(t, start[e], p.rows[e], i);
  }

  /** And once it is superseded nothing current is left for the line. */
  lemma NothingElse(t: Loop, start: seq<StoredSet>, p: Progress, i: nat, id: nat)
    requires Started(t, start) && i < |t.lines| && LoopInv(t, start, p, i) && id < |p.rows|
    ensures Owned(p.rows[id], t.company) && IsFor(p.rows[id], t.lines[i]) ==>
      Existing(t.listed, t.company, t.lines[i]) == Some(id)
  {
    hide UpToDate, NewRow, ServedInv, Existing, Seen, IsNew, TallyInv, KeptInv, UniqueCurrent, LinesOf;
    if Owned(p.rows[id], t.company) && IsFor(p.rows[id], t.lines[i]) {
      NotSeenYet(p.rows[id], t.company, t.lines, i);
      if id < |start| {
        assert KeptOrSuperseded(t, start[id], p.rows[id], i);
        OnlyExisting(t.listed, start, t.company, t.lines[i], id);
      } else {
        GeneratedIsSeen(t, p.rows[id], i);
      }
    }
  }

  lemma OnlyExisting(listed: seq<StoredSet>, start: seq<StoredSet>, company: int, line: AdvisoryLine, id: nat)
    requires |start| == |listed| && UniqueCurrent(start) && id < |start|
    requires Owned(start[id], company) && IsFor(start[id], line) && start[id] == listed[id]
    requires forall k :: 0 <= k < |start| && IsFor(listed[k], line) ==> start[k] == listed[k]
    ensures Existing(listed, company, line) == Some(id)
  {
    var existing := Existing(listed, company, line);
    hide Existing;
    assert existing.Some?;
    assert start[existing.value] == listed[existing.value];
    assert SameLine(start[id], start[existing.value]);
  }

  lemma GeneratedIsSeen(t: Loop, row: StoredSet, n: nat)
    requires n <= |t.lines| && IsNew(t, row, n)
    ensures Seen(row, t.lines, n)
  {
  }

  // ----- each round keeps it

  /** What was true of the first `i` lines stays true of the first `i + 1`. */
  lemma SeenMore(t: Loop, row: StoredSet, after: StoredSet, i: nat)
    requires i < |t.lines|
    ensures Seen(row, t.lines, i) ==> Seen(row, t.lines, i + 1)
    ensures KeptOrSuperseded(t, row, after, i) ==> KeptOrSuperseded(t, row, after, i + 1)
    ensures IsNew(t, row, i) ==> IsNew(t, row, i + 1)
  {
    hide NewRow, Retire;
  }

  lemma RowsMore(t: Loop, start: seq<StoredSet>, rows: seq<StoredSet>, i: nat)
    requires RowsInv(t, start, rows, i) && i < |t.lines|
    ensures RowsInv(t, start, rows, i + 1)
  {
    hide KeptOrSuperseded, IsNew;
    forall id | 0 <= id < |start|
      ensures KeptOrSuperseded(t, start[id], rows[id], i + 1)
    {
      SeenMore(t, start[id], rows[id], i);
    }
    forall id | |start| <= id < |rows|
      ensures IsNew(t, rows[id], i + 1)
    {
      SeenMore(t, rows[id], rows[id], i);
    }
  }

  lemma KeptMore(t: Loop, start: seq<StoredSet>, p: Progress, i: nat)
    requires KeptInv(t, start, p, i) && i < |t.lines|
    ensures KeptInv(t, start, p, i + 1)
  {
    hide Seen;
    forall id | id in p.kept
      ensures Seen(start[id], t.lines, i + 1)
    {
      SeenMore(t, start[id], start[id], i);
    }
  }

  /** A round for `line` touches no set of another line. */
  predicate OnlyTouches(p: Progress, after: Progress, line: AdvisoryLine) {
    && |p.rows| <= |after.rows| && p.kept <= after.kept
    && forall id :: 0 <= id < |p.rows| && !IsFor(p.rows[id], line) ==> after.rows[id] == p.rows[id]
  }

  lemma ServedStays(t: Loop, p: Progress, after: Progress, line: AdvisoryLine, other: AdvisoryLine)
    requires Served(t, p, other) && OnlyTouches(p, after, line) && !SameLineAs(other, line)
    ensures Served(t, after, other)
  {
    hide UpToDate, NewRow;
    var id: nat :| id < |p.rows| && Serves(t, p, id, other);
    assert Serves(t, after, id, other);
  }

  lemma ServedMore(t: Loop, p: Progress, after: Progress, i: nat)
    requires i < |t.lines| && LinesOf(t.company, t.lines) && ServedInv(t, p, i) && OnlyTouches(p, after, t.lines[i])
    requires Served(t, after, t.lines[i]) || t.w.raises(i)
    ensures ServedInv(t, after, i + 1)
  {
    hide Served, OnlyTouches;
    forall j | 0 <= j < i && Served(t, p, t.lines[j])
      ensures Served(t, after, t.lines[j])
    {
      ServedStays(t, p, after, t.lines[i], t.lines[j]);
    }
  }

  /** Keeping the set listed for line `i`. */
  lemma KeptPlus(t: Loop, start: seq<StoredSet>, p: Progress, i: nat, e: nat)
    requires i < |t.lines| && KeptInv(t, start, p, i) && e < |start| && e !in p.kept
    requires p.rows[e] == start[e] && Owned(start[e], t.company) && IsFor(start[e], t.lines[i])
    ensures KeptInv(t, start, p.(kept := p.kept + {e}), i + 1)
    ensures TallyInv(t, p, i) ==> TallyInv(t, p.(kept := p.kept + {e}), i + 1)
  {
    KeptMore(t, start, p, i);
    assert Seen(start[e], t.lines, i + 1);
    hide Seen;
  }

  lemma KeptServes(t: Loop, p: Progress, e: nat, line: AdvisoryLine)
    requires e < |p.rows| && Owned(p.rows[e], t.company) && IsFor(p.rows[e], line) && UpToDate(t, p.rows[e], line)
    ensures Served(t, p.(kept := p.kept + {e}), line) && OnlyTouches(p, p.(kept := p.kept + {e}), line)
  {
    hide UpToDate, NewRow;
    assert Serves(t, p.(kept := p.kept + {e}), e, line);
  }

  /** The listed set is unchanged: it will be revalidated. */
  lemma KeepRound(t: Loop, start: seq<StoredSet>, p: Progress, i: nat, e: nat)
    requires Started(t, start) && i < |t.lines| && LoopInv(t, start, p, i)
    requires Existing(t.listed, t.company, t.lines[i]) == Some(e) && UpToDate(t, t.listed[e], t.lines[i])
    ensures LoopInv(t, start, p.(kept := p.kept + {e}), i + 1)
  {
    ListedStands(t, start, p, i, e);
    hide RowsInv, UpToDate, NewRow, Existing, KeptInv, TallyInv, ServedInv, Seen, UniqueCurrent, Wanted, LinesOf,
      Served, OnlyTouches;
    RowsMore(t, start, p.rows, i);
    KeptPlus(t, start, p, i, e);
    KeptServes(t, p, e, t.lines[i]);
    ServedMore(t, p, p.(kept := p.kept + {e}), i);
  }

  /** The generation raised: nothing changes. */
  lemma FailedRound(t: Loop, start: seq<StoredSet>, p: Progress, i: nat)
    requires Started(t, start) && i < |t.lines| && LoopInv(t, start, p, i) && t.w.raises(i)
    ensures LoopInv(t, start, p.(failed := p.failed + 1), i + 1)
  {
    var after := p.(failed := p.failed + 1);
    RowsMore(t, start, p.rows, i);
    KeptMore(t, start, p, i);
    hide RowsInv, ServedInv, Seen, LinesOf;
    ServedMore(t, p, after, i);
  }

  /** With the listed set superseded, the partial unique index has room for the new one. */
  lemma RoomForNew(t: Loop, start: seq<StoredSet>, p: Progress, i: nat)
    requires Started(t, start) && i < |t.lines| && LoopInv(t, start, p, i)
    ensures |t.listed| <= |p.rows|
    ensures var rows := SupersededRows(p.rows, Existing(t.listed, t.company, t.lines[i]));
      UniqueCurrent(rows) && !Occupied(rows, NewRow(t, t.lines[i]))
  {
    var line := t.lines[i];
    var row, existing := NewRow(t, line), Existing(t.listed, t.company, line);
    assert IsFor(row, line) && row.companyId == t.company;
    var rows := SupersededRows(p.rows, existing);
    hide NewRow, Existing, KeptInv, ServedInv, TallyInv, KeptOrSuperseded, IsNew, Wanted, LinesOf;
    forall id: nat | id < |rows|
      ensures !(rows[id].status == Current && SameLine(rows[id], row))
    {
      NothingElse(t, start, p, i, id);
    }
  }

  lemma AppendUnique(rows: seq<StoredSet>, row: StoredSet)
    requires UniqueCurrent(rows) && !Occupied(rows, row)
    ensures UniqueCurrent(rows + [row])
  {
  }

  lemma SupersedeKeeps(t: Loop, start: seq<StoredSet>, rows: seq<StoredSet>, n: nat, existing: Option<nat>)
    requires RowsInv(t, start, rows, n)
    requires existing.Some? ==>
      && existing.value < |start| && rows[existing.value] == start[existing.value]
      && Owned(start[existing.value], t.company) && Seen(start[existing.value], t.lines, n)
    ensures var after := SupersededRows(rows, existing);
      && (forall id :: 0 <= id < |start| ==> KeptOrSuperseded(t, start[id], after[id], n))
      && (forall id :: |start| <= id < |rows| ==> IsNew(t, after[id], n))
  {
    hide UniqueCurrent, IsNew, Seen, Retire;
  }

  lemma AppendNew(t: Loop, start: seq<StoredSet>, rows: seq<StoredSet>, row: StoredSet, n: nat)
    requires |start| <= |rows| && n <= |t.lines| && UniqueCurrent(rows + [row]) && IsNew(t, row, n)
    requires forall id :: 0 <= id < |start| ==> KeptOrSuperseded(t, start[id], rows[id], n)
    requires forall id :: |start| <= id < |rows| ==> IsNew(t, rows[id], n)
    ensures RowsInv(t, start, rows + [row], n)
  {
    hide UniqueCurrent, IsNew, KeptOrSuperseded;
  }

  lemma GeneratedRows(t: Loop, start: seq<StoredSet>, p: Progress, i: nat)
    requires Started(t, start) && i < |t.lines| && LoopInv(t, start, p, i)
    ensures |t.listed| <= |p.rows|
    ensures var existing := Existing(t.listed, t.company, t.lines[i]);
      RowsInv(t, start, SupersededRows(p.rows, existing) + [NewRow(t, t.lines[i])], i + 1)
  {
    var existing, row := Existing(t.listed, t.company, t.lines[i]), NewRow(t, t.lines[i]);
    assert IsNew(t, row, i + 1);
    RoomForNew(t, start, p, i);
    hide NewRow, Existing, KeptInv, ServedInv, TallyInv, IsNew, Wanted, LinesOf, UniqueCurrent, Occupied, Retire,
      KeptOrSuperseded, SupersededRows, RowsInv, UpToDate;
    var before := SupersededRows(p.rows, existing);
    AppendUnique(before, row);
    RowsMore(t, start, p.rows, i);
    if existing.Some? {
      ListedStands(t, start, p, i, existing.value);
      assert Seen(start[existing.value], t.lines, i + 1);
    }
    SupersedeKeeps(t, start, p.rows, i + 1, existing);
    AppendNew(t, start, before, row, i + 1);
  }

  /** Superseding a set that is not kept. */
  lemma KeptStay(t: Loop, start: seq<StoredSet>, p: Progress, i: nat, existing: Option<nat>, row: StoredSet)
    requires i < |t.lines| && KeptInv(t, start, p, i)
    requires existing.Some? ==> existing.value < |p.rows| && existing.value !in p.kept
    ensures var after := p.(rows := SupersededRows(p.rows, existing) + [row], generated := p.generated + 1);
      KeptInv(t, start, after, i + 1) && (TallyInv(t, p, i) ==> TallyInv(t, after, i + 1))
  {
    KeptMore(t, start, p, i);
    hide Seen, Retire;
  }

  lemma OnlySuperseded(p: Progress, existing: Option<nat>, row: StoredSet, line: AdvisoryLine)
    requires existing.Some? ==> existing.value < |p.rows| && IsFor(p.rows[existing.value], line)
    ensures var after := p.(rows := SupersededRows(p.rows, existing) + [row], generated := p.generated + 1);
      OnlyTouches(p, after, line)
  {
    hide Retire, IsFor;
  }

  /** The listed set, if any, is superseded and a new one takes its place. */
  lemma GenerateRound(t: Loop, start: seq<StoredSet>, p: Progress, i: nat)
    requires Started(t, start) && i < |t.lines| && LoopInv(t, start, p, i)
    ensures |t.listed| <= |p.rows|
    ensures var rows := SupersededRows(p.rows, Existing(t.listed, t.company, t.lines[i])) + [NewRow(t, t.lines[i])];
      LoopInv(t, start, p.(rows := rows, generated := p.generated + 1), i + 1)
  {
    var existing, line, row := Existing(t.listed, t.company, t.lines[i]), t.lines[i], NewRow(t, t.lines[i]);
    GeneratedRows(t, start, p, i);
    assert Owned(row, t.company) && IsFor(row, line);
    hide NewRow, Existing, RowsInv, ServedInv, Seen, Retire, Wanted, UniqueCurrent, KeptInv, TallyInv, OnlyTouches,
      LinesOf, UpToDate;
    if existing.Some? {
      ListedStands(t, start, p, i, existing.value);
    }
    KeptStay(t, start, p, i, existing, row);
    OnlySuperseded(p, existing, row, line);
    var after := p.(rows := SupersededRows(p.rows, existing) + [row], generated := p.generated + 1);
    assert Serves(t, after, |p.rows|, line);
    ServedMore(t, p, after, i);
  }

  lemma RoundKeeps(t: Loop, start: seq<StoredSet>, p: Progress, i: nat)
    requires Started(t, start) && i < |t.lines| && LoopInv(t, start, p, i)
    ensures |t.listed| <= |p.rows| && LoopInv(t, start, Round(t, p, i), i + 1)
  {
    hide LoopInv, Existing, UpToDate, NewRow, SupersededRows, Occupied, UniqueCurrent, Started, IsFor;
    RoomForNew(t, start, p, i);
    var existing := Existing(t.listed, t.company, t.lines[i]);
    if existing.Some? && UpToDate(t, t.listed[existing.value], t.lines[i]) {
      KeepRound(t, start, p, i, existing.value);
    } else if t.w.raises(i) {
      FailedRound(t, start, p, i);
    } else {
      GenerateRound(t, start, p, i);
    }
  }

  lemma LoopBegins(t: Loop, start: seq<StoredSet>)
    requires Started(t, start)
    ensures LoopInv(t, start, Progress(start, {}, 0, 0), 0)
  {
    hide UniqueCurrent, Served, IsNew, LinesOf, Wanted;
  }

  lemma {:induction false} RoundsKeep(t: Loop, start: seq<StoredSet>, n: nat)
    requires Started(t, start) && |start| == |t.listed| && n <= |t.lines|
    ensures LoopInv(t, start, Rounds(t, start, n), n)
  {
    hide LoopInv, Round, Started, Rounds;
    RoundsUnfold(t, start, n);
    if n == 0 {
      LoopBegins(t, start);
    } else {
      RoundsKeep(t, start, n - 1);
      RoundKeeps(t, start, Rounds(t, start, n - 1), n - 1);
    }
  }

  lemma RetirementStarts(rows: seq<StoredSet>, company: int, snapshot: Snapshot, w: World, c: Config, now: Time)
    requires UniqueCurrent(rows) && LinesOf(company, snapshot.lines) && w.catalog.Some?
    ensures Started(LoopOf(rows, company, snapshot, w, c, now), RetiredRows(rows, company, snapshot))
  {
  }

  // ----- the table after the tick

  /** The row differs at most in its validation and its display marker. */
  predicate SameSet(a: StoredSet, b: StoredSet) {
    a == b.(validatedAt := a.validatedAt, syncedAt := a.syncedAt)
  }

  lemma RevalidationKeepsSets(rows: seq<StoredSet>, ids: set<nat>, now: Time)
    ensures var after := RevalidatedAll(rows, ids, now);
      && |after| == |rows|
      && (forall id :: 0 <= id < |rows| ==> SameSet(after[id], rows[id]))
      && (forall id :: 0 <= id < |rows| && (id !in ids || rows[id].status != Current) ==> after[id] == rows[id])
      && (forall id :: 0 <= id < |rows| && id in ids && rows[id].status == Current ==> after[id].validatedAt == now)
  {
  }

  lemma SameSetsUnique(rows: seq<StoredSet>, after: seq<StoredSet>)
    requires UniqueCurrent(rows) && |after| == |rows| && forall id :: 0 <= id < |rows| ==> SameSet(after[id], rows[id])
    ensures UniqueCurrent(after)
  {
  }

  /** The set of a wanted line that the display may rely on: current, validated by this tick, and generated from inputs
      and a catalog that nothing distinguishes from today's. */
  predicate Serving(row: StoredSet, company: int, line: AdvisoryLine, catalog: Catalog, d: Digests, now: Time) {
    && Owned(row, company) && IsFor(row, line) && row.validatedAt == now
    && KeptOrReplaced(row, line, catalog, d) == None
  }

  ghost predicate HasServing(rows: seq<StoredSet>, company: int, line: AdvisoryLine, catalog: Catalog, d: Digests,
                             now: Time) {
    exists id :: 0 <= id < |rows| && Serving(rows[id], company, line, catalog, d, now)
  }

  lemma ServedIsServing(t: Loop, p: Progress, line: AdvisoryLine)
    requires Served(t, p, line)
    ensures HasServing(RevalidatedAll(p.rows, p.kept, t.now), t.company, line, t.catalog, t.c.digests, t.now)
  {
    var id: nat :| id < |p.rows| && Serves(t, p, id, line);
    var after := RevalidatedAll(p.rows, p.kept, t.now);
    assert UpToDate(t, p.rows[id], line);
    hide NewRow, VariantFingerprint, SupplierinfoFingerprint, InputDigest;
    assert Serving(after[id], t.company, line, t.catalog, t.c.digests, t.now);
  }

  // ----- theorems

  lemma RetirementMeaning(rows: seq<StoredSet>, company: int, snapshot: Snapshot)
    requires UniqueCurrent(rows)
    ensures var after := RetiredRows(rows, company, snapshot);
      && UniqueCurrent(after)
      && forall id :: 0 <= id < |after| && Owned(after[id], company) ==> Wanted(after[id], snapshot.lines)
  {
  }

  lemma SeenIsWanted(row: StoredSet, lines: seq<AdvisoryLine>, c: Config, n: nat)
    requires n <= |Work(lines, c)| && Seen(row, Work(lines, c), n)
    ensures Wanted(row, lines)
  {
    var j :| 0 <= j < n && IsFor(row, Work(lines, c)[j]);
    assert Work(lines, c)[j] == lines[j];
  }

  /** What the loop leaves current is wanted. */
  lemma LoopMeaning(t: Loop, start: seq<StoredSet>, p: Progress, n: nat, lines: seq<AdvisoryLine>)
    requires RowsInv(t, start, p.rows, n) && t.lines == Work(lines, t.c)
    requires forall id :: 0 <= id < |start| && Owned(start[id], t.company) ==> Wanted(start[id], lines)
    ensures forall id :: 0 <= id < |p.rows| && Owned(p.rows[id], t.company) ==> Wanted(p.rows[id], lines)
  {
    hide UniqueCurrent, IsNew, Wanted, Seen, Work;
    forall id | |start| <= id < |p.rows|
      ensures Wanted(p.rows[id], lines)
    {
      GeneratedIsSeen(t, p.rows[id], n);
      SeenIsWanted(p.rows[id], lines, t.c, n);
    }
    forall id | 0 <= id < |start| && Owned(p.rows[id], t.company)
      ensures p.rows[id] == start[id]
    {
      assert KeptOrSuperseded(t, start[id], p.rows[id], n);
    }
  }

  /** A tick never leaves two current sets for one line, nor a current set for a line nobody wants. */
  lemma TickIsTidy(rows: seq<StoredSet>, company: int, snapshot: Snapshot, w: World, c: Config, now: Time)
    requires UniqueCurrent(rows) && LinesOf(company, snapshot.lines)
    ensures var after := TickRows(rows, company, snapshot, w, c, now);
      && UniqueCurrent(after)
      && forall id :: 0 <= id < |after| && Owned(after[id], company) ==> Wanted(after[id], snapshot.lines)
  {
    RetirementMeaning(rows, company, snapshot);
    if snapshot.lines != [] && w.catalog.Some? {
      var t, start := LoopOf(rows, company, snapshot, w, c, now), RetiredRows(rows, company, snapshot);
      RetirementStarts(rows, company, snapshot, w, c, now);
      var n := InBudget(w, |t.lines|);
      var p := Rounds(t, start, n);
      hide UniqueCurrent, Rounds, Started, RetiredRow, Work, Wanted, LinesOf;
      RoundsKeep(t, start, n);
      LoopMeaning(t, start, p, n, snapshot.lines);
      RevalidationKeepsSets(p.rows, p.kept, now);
      SameSetsUnique(p.rows, RevalidatedAll(p.rows, p.kept, now));
    }
  }

  /** What a tick may do to a stored set: the history and the sets of other companies stay as they are, a set nobody
      wants leaves for the reason `Retirement` gives, and a wanted one stays or is superseded. */
  predicate Transition(before: StoredSet, after: StoredSet, company: int, snapshot: Snapshot) {
    if !Owned(before, company) then after == before
    else if !Wanted(before, snapshot.lines) then after == Retire(before, Retirement(before, snapshot.pending).0)
    else SameSet(after, before) || after == Retire(before, Superseded)
  }

  lemma TickTransitions(rows: seq<StoredSet>, company: int, snapshot: Snapshot, w: World, c: Config, now: Time)
    requires UniqueCurrent(rows) && LinesOf(company, snapshot.lines)
    ensures var after := TickRows(rows, company, snapshot, w, c, now);
      |rows| <= |after| && forall id :: 0 <= id < |rows| ==> Transition(rows[id], after[id], company, snapshot)
  {
    if snapshot.lines != [] && w.catalog.Some? {
      var t, start := LoopOf(rows, company, snapshot, w, c, now), RetiredRows(rows, company, snapshot);
      RetirementStarts(rows, company, snapshot, w, c, now);
      var n := InBudget(w, |t.lines|);
      var p := Rounds(t, start, n);
      hide UniqueCurrent, Rounds, Started, Work, Wanted, LinesOf, IsNew, KeptInv, ServedInv, TallyInv, Seen, Retirement;
      RoundsKeep(t, start, n);
      RevalidationKeepsSets(p.rows, p.kept, now);
      hide RevalidatedAll;
      forall id | 0 <= id < |rows|
        ensures Transition(rows[id], RevalidatedAll(p.rows, p.kept, now)[id], company, snapshot)
      {
        assert KeptOrSuperseded(t, start[id], p.rows[id], n);
      }
    }
  }

  /** Every line the tick came to, unless generating its set raised, has a current set that this tick validated and
      that nothing distinguishes from a fresh one; by tidiness it is the only one. Generated, failed and revalidated
      sets account for every line the tick came to. */
  lemma TickServes(rows: seq<StoredSet>, company: int, snapshot: Snapshot, w: World, c: Config, now: Time)
    requires UniqueCurrent(rows) && LinesOf(company, snapshot.lines) && snapshot.lines != [] && w.catalog.Some?
    ensures var after := TickRows(rows, company, snapshot, w, c, now);
      forall j :: 0 <= j < InBudget(w, |Work(snapshot.lines, c)|) && !w.raises(j) ==>
        HasServing(after, company, snapshot.lines[j], w.catalog.value, c.digests, now)
    ensures var p := Looped(rows, company, snapshot, w, c, now);
      && p.generated + p.failed + CurrentIn(p.rows, p.kept, |p.rows|) == InBudget(w, |Work(snapshot.lines, c)|)
      && ((forall j :: 0 <= j < InBudget(w, |Work(snapshot.lines, c)|) ==> !w.raises(j)) ==> p.failed == 0)
  {
    var t, start := LoopOf(rows, company, snapshot, w, c, now), RetiredRows(rows, company, snapshot);
    var n := InBudget(w, |t.lines|);
    var p := Rounds(t, start, n);
    RetirementStarts(rows, company, snapshot, w, c, now);
    assert forall j :: 0 <= j < n ==> t.lines[j] == snapshot.lines[j];
    hide UniqueCurrent, Rounds, Started, RetiredRow, Work, LinesOf, HasServing, RowsInv, Served, Seen, CurrentIn,
      RevalidatedAll;
    RoundsKeep(t, start, n);
    KeptAreCurrent(p.rows, p.kept, |p.rows|);
    forall j | 0 <= j < n && !w.raises(j)
      ensures HasServing(RevalidatedAll(p.rows, p.kept, now), company, snapshot.lines[j], w.catalog.value, c.digests,
                         now)
    {
      ServedIsServing(t, p, t.lines[j]);
    }
  }

  lemma {:induction false} KeptAreCurrent(rows: seq<StoredSet>, ids: set<nat>, n: nat)
    requires n <= |rows| && forall id :: id in ids ==> id < n && rows[id].status == Current
    ensures CurrentIn(rows, ids, n) == |ids|
  {
    if n == 0 {
      assert ids == {};
    } else {
      var rest := ids - {n - 1};
      KeptAreCurrent(rows, rest, n - 1);
      CurrentBelow(rows, ids, rest, n - 1);
      assert n - 1 in ids ==> ids == rest + {n - 1};
      assert n - 1 !in ids ==> ids == rest;
    }
  }

  lemma {:induction false} CurrentBelow(rows: seq<StoredSet>, a: set<nat>, b: set<nat>, n: nat)
    requires n <= |rows| && forall id: nat :: id < n ==> (id in a <==> id in b)
    ensures CurrentIn(rows, a, n) == CurrentIn(rows, b, n)
  {
    if n != 0 {
      CurrentBelow(rows, a, b, n - 1);
    }
  }

  /** The loop keeps exactly the listed sets of the lines it came to that nothing distinguishes from fresh ones. */
  lemma {:induction false} KeptExactly(t: Loop, start: seq<StoredSet>, n: nat)
    requires |start| == |t.listed| && n <= |t.lines|
    ensures forall id :: id in Rounds(t, start, n).kept <==> KeptFor(t, id, n)
  {
    hide Rounds, Existing, UpToDate, NewRow, Occupied, SupersededRows;
    RoundsUnfold(t, start, n);
    if n != 0 {
      KeptExactly(t, start, n - 1);
    }
  }

  ghost predicate KeptFor(t: Loop, id: nat, n: nat)
    requires n <= |t.lines|
  {
    exists j ::
      && 0 <= j < n && Existing(t.listed, t.company, t.lines[j]) == Some(id)
      && UpToDate(t, t.listed[id], t.lines[j])
  }

  /** An unchanged set is never regenerated: the tick only revalidates it. */
  lemma UnchangedIsKept(rows: seq<StoredSet>, company: int, snapshot: Snapshot, w: World, c: Config, now: Time, j: nat,
                        id: nat)
    requires UniqueCurrent(rows) && LinesOf(company, snapshot.lines) && w.catalog.Some?
    requires j < InBudget(w, |Work(snapshot.lines, c)|) && id < |rows| && Owned(rows[id], company)
    requires IsFor(rows[id], snapshot.lines[j])
    requires KeptOrReplaced(rows[id], snapshot.lines[j], w.catalog.value, c.digests) == None
    ensures |rows| <= |TickRows(rows, company, snapshot, w, c, now)|
    ensures TickRows(rows, company, snapshot, w, c, now)[id] == Revalidate(rows[id], now)
  {
    var t, start := LoopOf(rows, company, snapshot, w, c, now), RetiredRows(rows, company, snapshot);
    var n := InBudget(w, |t.lines|);
    assert t.lines[j] == snapshot.lines[j];
    RetirementStarts(rows, company, snapshot, w, c, now);
    hide Rounds, RetiredRow, Work, ServedInv, TallyInv, RowsInv;
    OnlyExisting(rows, rows, company, t.lines[j], id);
    RoundsKeep(t, start, n);
    KeptExactly(t, start, n);
    assert KeptFor(t, id, n);
  }

  // ----- and the set holds what the engine answers now

  /** The set holds what the engine made of this line and this catalog. */
  predicate GeneratedFrom(row: StoredSet, line: AdvisoryLine, catalog: Catalog, priors: seq<Prior>, c: Config,
                          at: Time) {
    UniqueIds(catalog)
    && Generate(line, catalog, priors, c.policy, c.lex, c.digests, at)
       == row.(status := Current, validatedAt := at, syncedAt := None)
  }

  ghost predicate Grounded(row: StoredSet, c: Config) {
    exists line, catalog, priors, at :: GeneratedFrom(row, line, catalog, priors, c, at)
  }

  /** A grounded set that was kept answers what the engine would answer from today's catalog and the prior mappings of
      its generation. */
  lemma ServingIsFresh(row: StoredSet, company: int, line: AdvisoryLine, catalog: Catalog, c: Config, now: Time)
    returns (priors: seq<Prior>)
    requires CollisionFree(c.digests) && UniqueIds(catalog) && line.companyId == company && Grounded(row, c)
    requires Serving(row, company, line, catalog, c.digests, now)
    ensures row.result == EngineResult(line, catalog, priors, c.policy, c.lex, c.digests)
  {
    var earlier, read, mappings, at :| GeneratedFrom(row, earlier, read, mappings, c, at);
    priors := mappings;
    var generated := Generate(earlier, read, priors, c.policy, c.lex, c.digests, at);
    assert KeptOrReplaced(generated, line, catalog, c.digests) == KeptOrReplaced(row, line, catalog, c.digests);
    CacheAgreement(earlier, read, line, catalog, priors, c.policy, c.lex, c.digests, at);
  }

  lemma ChangedIsGrounded(before: StoredSet, after: StoredSet, c: Config)
    requires Grounded(before, c)
    requires after == before.(status := after.status, validatedAt := after.validatedAt, syncedAt := after.syncedAt)
    ensures Grounded(after, c)
  {
    var line, catalog, priors, at :| GeneratedFrom(before, line, catalog, priors, c, at);
    hide Generate, UniqueIds;
    assert GeneratedFrom(after, line, catalog, priors, c, at);
  }

  lemma NewIsGrounded(t: Loop, line: AdvisoryLine)
    requires UniqueIds(t.catalog)
    ensures Grounded(NewRow(t, line), t.c)
  {
    hide UniqueIds, UpToDate;
    assert GeneratedFrom(NewRow(t, line), line, t.catalog, t.w.priors, t.c, t.now);
  }

  ghost predicate AllGrounded(rows: seq<StoredSet>, c: Config) {
    forall id :: 0 <= id < |rows| ==> Grounded(rows[id], c)
  }

  lemma RowsGround(rows: seq<StoredSet>, after: seq<StoredSet>, c: Config)
    requires AllGrounded(rows, c) && |after| == |rows|
    requires forall id :: 0 <= id < |rows| ==>
      after[id] == rows[id].(status := after[id].status, validatedAt := after[id].validatedAt,
                             syncedAt := after[id].syncedAt)
    ensures AllGrounded(after, c)
  {
    hide Grounded;
    forall id | 0 <= id < |rows|
      ensures Grounded(after[id], c)
    {
      ChangedIsGrounded(rows[id], after[id], c);
    }
  }

  lemma ReplacedGround(rows: seq<StoredSet>, existing: Option<nat>, row: StoredSet, c: Config)
    requires AllGrounded(rows, c) && Grounded(row, c) && (existing.Some? ==> existing.value < |rows|)
    ensures AllGrounded(SupersededRows(rows, existing) + [row], c)
  {
    hide Grounded, AllGrounded;
    RowsGround(rows, SupersededRows(rows, existing), c);
    AppendGrounded(SupersededRows(rows, existing), row, c);
  }

  lemma AppendGrounded(rows: seq<StoredSet>, row: StoredSet, c: Config)
    requires AllGrounded(rows, c) && Grounded(row, c)
    ensures AllGrounded(rows + [row], c)
  {
    hide Grounded;
  }

  lemma RoundGrounds(t: Loop, p: Progress, i: nat)
    requires |t.listed| <= |p.rows| && i < |t.lines| && UniqueIds(t.catalog) && AllGrounded(p.rows, t.c)
    ensures AllGrounded(Round(t, p, i).rows, t.c)
  {
    hide Grounded, AllGrounded, NewRow, Existing, UpToDate, Occupied, UniqueIds, SupersededRows;
    NewIsGrounded(t, t.lines[i]);
    ReplacedGround(p.rows, Existing(t.listed, t.company, t.lines[i]), NewRow(t, t.lines[i]), t.c);
  }

  lemma {:induction false} RoundsGround(t: Loop, start: seq<StoredSet>, n: nat)
    requires |start| == |t.listed| && n <= |t.lines| && UniqueIds(t.catalog) && AllGrounded(start, t.c)
    ensures AllGrounded(Rounds(t, start, n).rows, t.c)
  {
    hide Round, AllGrounded, UniqueIds, Rounds;
    RoundsUnfold(t, start, n);
    if n != 0 {
      RoundsGround(t, start, n - 1);
      RoundGrounds(t, Rounds(t, start, n - 1), n - 1);
    }
  }

  /** Every tick keeps every stored set grounded, so the condition of freshness holds from the empty table on. */
  lemma TickGrounds(rows: seq<StoredSet>, company: int, snapshot: Snapshot, w: World, c: Config, now: Time)
    requires AllGrounded(rows, c) && (w.catalog.Some? ==> UniqueIds(w.catalog.value))
    ensures AllGrounded(TickRows(rows, company, snapshot, w, c, now), c)
  {
    hide AllGrounded;
    var start := RetiredRows(rows, company, snapshot);
    RowsGround(rows, start, c);
    if snapshot.lines != [] && w.catalog.Some? {
      hide AllGrounded, Rounds, RetiredRow, UniqueIds;
      var t := LoopOf(rows, company, snapshot, w, c, now);
      var n := InBudget(w, |t.lines|);
      RoundsGround(t, start, n);
      var p := Rounds(t, start, n);
      RowsGround(p.rows, RevalidatedAll(p.rows, p.kept, now), c);
    }
  }
}
