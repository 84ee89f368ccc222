/** The database-only display sweep with its retry backoff (`AdvisoryDisplayRefresher` in
    `app/composition/advisory_display.py`). */
module DisplayRefresher {
  import opened Core
  import opened SuggestionSets
  import opened SuggestionTable

  const MAX_RETRY_BACKOFF: Time := 5 * 60 * SECOND

  datatype SweepResult = SweepResult(
    dueSets: nat, dueReviews: nat, refreshed: nat, failed: nat, markedSets: nat, deferred: nat, backingOff: nat)

  /** What the outside world answers during one sweep, per review: whether the synchronizer succeeds, and the clock
      readings at the backoff check, at the start of the refresh and when a failure is recorded. Each review is
      asked each question at most once per sweep. */
  datatype World = World(refresh: string -> bool, checked: string -> Time, started: string -> Time,
                         failedAt: string -> Time)

  datatype Attempt = Attempt(ok: bool, at: Time)

  function Pow2(n: nat): nat {
    if n == 0 then 1 else 2 * Pow2(n - 1)
  }

  /** `min(interval * 2 ** (failures - 1), max_backoff)`. */
  function Delay(failures: nat, maxBackoff: Time): Time
    requires failures > 0
  {
    var doubled := DISPLAY_SWEEP_INTERVAL * Pow2(failures - 1);
    if doubled < maxBackoff then doubled else maxBackoff
  }

  /** With the default cap the delays are 60, 120, 240 and then 300 seconds for ever. */
  lemma DefaultDelays(failures: nat)
    requires failures > 0
    ensures Delay(failures, MAX_RETRY_BACKOFF) ==
      (if failures == 1 then 60 else if failures == 2 then 120 else if failures == 3 then 240 else 300) * SECOND
  {
    if failures > 3 {
      Pow2AtLeast(failures - 1);
    }
  }

  lemma {:induction false} Pow2AtLeast(n: nat)
    requires n >= 3
    ensures Pow2(n) >= 8
  {
    if n > 3 {
      Pow2AtLeast(n - 1);
    } else {
      assert Pow2(1) == 2 && Pow2(2) == 4;
    }
  }

  // ----- grouping

  function Reviews(rows: seq<StoredSet>, due: seq<nat>): seq<string>
    requires forall i :: 0 <= i < |due| ==> due[i] < |rows|
  {
    if due == [] then []
    else
      var n := |due| - 1;
      var before := Reviews(rows, due[..n]);
      if rows[due[n]].reviewId in before then before else before + [rows[due[n]].reviewId]
  }

  /** Some due set belongs to the review. */
  ghost predicate Mentions(rows: seq<StoredSet>, due: seq<nat>, review: string)
    requires forall i :: 0 <= i < |due| ==> due[i] < |rows|
  {
    exists i :: 0 <= i < |due| && rows[due[i]].reviewId == review
  }

  lemma MentionsLast(rows: seq<StoredSet>, due: seq<nat>, review: string)
    requires due != [] && forall i :: 0 <= i < |due| ==> due[i] < |rows|
    ensures var n := |due| - 1;
      Mentions(rows, due, review) <==> Mentions(rows, due[..n], review) || rows[due[n]].reviewId == review
  {
    assert forall i :: 0 <= i < |due| - 1 ==> due[..|due| - 1][i] == due[i];
  }

  lemma {:induction false} ReviewsMeaning(rows: seq<StoredSet>, due: seq<nat>)
    requires forall i :: 0 <= i < |due| ==> due[i] < |rows|
    ensures Distinct(Reviews(rows, due))
    ensures forall r :: r in Reviews(rows, due) <==> Mentions(rows, due, r)
    ensures Reviews(rows, due) == [] <==> due == []
  {
    if due != [] {
      hide Mentions;
      ReviewsMeaning(rows, due[..|due| - 1]);
      forall r
        ensures r in Reviews(rows, due) <==> Mentions(rows, due, r)
      {
        MentionsLast(rows, due, r);
      }
    }
  }

  /** The due sets of one review, in id order. */
  function SetsOf(rows: seq<StoredSet>, due: seq<nat>, review: string): (ids: seq<nat>)
    requires forall i :: 0 <= i < |due| ==> due[i] < |rows|
    ensures forall i :: 0 <= i < |ids| ==> ids[i] < |rows|
    ensures forall id :: id in ids <==> id in due && rows[id].reviewId == review
  {
    if due == [] then []
    else
      var n := |due| - 1;
      var before := SetsOf(rows, due[..n], review);
      assert due == due[..n] + [due[n]];
      if rows[due[n]].reviewId == review then before + [due[n]] else before
  }

  /** How many sets the successful calls of a sweep mark. */
  function MarkedTotal(rows: seq<StoredSet>, due: seq<nat>, calls: seq<string>, w: World): nat
    requires forall i :: 0 <= i < |due| ==> due[i] < |rows|
  {
    if calls == [] then 0
    else
      var n := |calls| - 1;
      MarkedTotal(rows, due, calls[..n], w) + (if w.refresh(calls[n]) then |SetsOf(rows, due, calls[n])| else 0)
  }

  /** How many calls of a sweep succeeded. */
  function Refreshed(calls: seq<string>, w: World): nat {
    |Filter(w.refresh, calls)|
  }

  lemma TallyStep(rows: seq<StoredSet>, due: seq<nat>, calls: seq<string>, review: string, w: World)
    requires forall i :: 0 <= i < |due| ==> due[i] < |rows|
    ensures Refreshed(calls + [review], w) == Refreshed(calls, w) + (if w.refresh(review) then 1 else 0)
    ensures MarkedTotal(rows, due, calls + [review], w)
         == MarkedTotal(rows, due, calls, w) + (if w.refresh(review) then |SetsOf(rows, due, review)| else 0)
  {
    FilterConcat(w.refresh, calls, [review]);
    assert (calls + [review])[..|calls|] == calls;
  }

  // ----- one sweep, specified

  predicate MayRetry(retry: map<string, (nat, Time)>, review: string, checked: Time) {
    review in retry ==> checked >= retry[review].1
  }

  /** The reviews a sweep synchronizes: the first `max` of the due ones whose backoff has passed. */
  function Called(reviews: seq<string>, retry: map<string, (nat, Time)>, w: World, max: nat): seq<string> {
    if reviews == [] then []
    else
      var n := |reviews| - 1;
      var before := Called(reviews[..n], retry, w, max);
      if MayRetry(retry, reviews[n], w.checked(reviews[n])) && |before| < max then before + [reviews[n]] else before
  }

  function Backing(reviews: seq<string>, retry: map<string, (nat, Time)>, w: World): nat {
    if reviews == [] then 0
    else
      var n := |reviews| - 1;
      Backing(reviews[..n], retry, w) + (if MayRetry(retry, reviews[n], w.checked(reviews[n])) then 0 else 1)
  }

  lemma CalledStep(reviews: seq<string>, i: nat, retry: map<string, (nat, Time)>, w: World, max: nat)
    requires i < |reviews|
    ensures var before, may := Called(reviews[..i], retry, w, max), MayRetry(retry, reviews[i], w.checked(reviews[i]));
      && Called(reviews[..i + 1], retry, w, max) == (if may && |before| < max then before + [reviews[i]] else before)
      && Backing(reviews[..i + 1], retry, w) == Backing(reviews[..i], retry, w) + (if may then 0 else 1)
  {
    assert reviews[..i + 1][..i] == reviews[..i];
  }

  lemma {:induction false} CalledMeaning(reviews: seq<string>, retry: map<string, (nat, Time)>, w: World, max: nat)
    requires Distinct(reviews)
    ensures Distinct(Called(reviews, retry, w, max)) && |Called(reviews, retry, w, max)| <= max
    ensures forall r :: r in Called(reviews, retry, w, max) ==> r in reviews && MayRetry(retry, r, w.checked(r))
    ensures |Called(reviews, retry, w, max)| + Backing(reviews, retry, w) <= |reviews|
    ensures |Called(reviews, retry, w, max)| + Backing(reviews, retry, w) < |reviews| ==>
      |Called(reviews, retry, w, max)| == max
  {
    if reviews != [] {
      var n := |reviews| - 1;
      assert reviews == reviews[..n] + [reviews[n]];
      assert reviews[n] !in reviews[..n];
      CalledMeaning(reviews[..n], retry, w, max);
    }
  }

  function FailuresOf(retry: map<string, (nat, Time)>, review: string): nat {
    if review in retry then retry[review].0 else 0
  }

  /** The retry entries after one more failure at `at`. */
  function Failed(retry: map<string, (nat, Time)>, review: string, at: Time, maxBackoff: Time)
    : map<string, (nat, Time)>
  {
    var k := FailuresOf(retry, review) + 1;
    retry[review := (k, at + Delay(k, maxBackoff))]
  }

  /** The retry entry of a review after one sweep. */
  ghost predicate RetryAfter(before: map<string, (nat, Time)>, after: map<string, (nat, Time)>, calls: seq<string>,
                             w: World,
                             maxBackoff: Time, review: string) {
    if review !in calls then
      (review in after <==> review in before) && (review in before ==> after[review] == before[review])
    else if w.refresh(review) then review !in after
    else
      var k := FailuresOf(before, review) + 1;
      review in after && after[review] == (k, w.failedAt(review) + Delay(k, maxBackoff))
  }

  /** A row after one sweep: only the due sets of successfully refreshed reviews are marked. */
  function RowAfter(row: StoredSet, due: bool, calls: seq<string>, w: World): StoredSet {
    if due && row.reviewId in calls && w.refresh(row.reviewId) then row.(syncedAt := Some(w.started(row.reviewId)))
    else row
  }

  // ----- history

  function Log(history: map<string, seq<Attempt>>, review: string): seq<Attempt> {
    if review in history then history[review] else []
  }

  /** What a sweep adds to a review's log: one attempt when it is called, nothing otherwise. */
  function AttemptsIn(calls: seq<string>, w: World, review: string): seq<Attempt> {
    if review !in calls then []
    else [Attempt(w.refresh(review), if w.refresh(review) then w.started(review) else w.failedAt(review))]
  }

  ghost predicate LogsAfter(before: map<string, seq<Attempt>>, after: map<string, seq<Attempt>>, calls: seq<string>,
                            w: World) {
    forall review :: Log(after, review) == Log(before, review) + AttemptsIn(calls, w, review)
  }

  /** How many attempts in a row have failed since the last success. */
  function TrailingFailures(log: seq<Attempt>): nat {
    if log == [] || log[|log| - 1].ok then 0 else 1 + TrailingFailures(log[..|log| - 1])
  }

  /** A retry entry says exactly what the attempt history says. */
  ghost predicate Agrees(retry: map<string, (nat, Time)>, log: seq<Attempt>, maxBackoff: Time, review: string) {
    var k := TrailingFailures(log);
    && (review in retry <==> k > 0)
    && (k > 0 ==> retry[review] == (k, log[|log| - 1].at + Delay(k, maxBackoff)))
  }

  class Refresher {
    const table: Table
    const maxReviews: nat
    const maxBackoff: Time
    var retry: map<string, (nat, Time)>
    /** Every refresh attempt ever made, per review. */
    ghost var history: map<string, seq<Attempt>>

    ghost predicate Valid()
      reads this
    {
      forall review :: Agrees(retry, Log(history, review), maxBackoff, review)
    }

    constructor (table: Table, maxReviews: nat, maxBackoff: Time)
      ensures Valid() && this.table == table && this.maxReviews == maxReviews && this.maxBackoff == maxBackoff
      ensures retry == map[] && history == map[]
    {
      this.table, this.maxReviews, this.maxBackoff := table, maxReviews, maxBackoff;
      retry, history := map[], map[];
    }

    method RecordSuccess(review: string, ghost at: Time)
      requires Valid()
      modifies this
      ensures Valid()
      ensures retry == old(retry) - {review}
      ensures history == old(history)[review := Log(old(history), review) + [Attempt(true, at)]]
    {
      retry := retry - {review};
      history := history[review := Log(history, review) + [Attempt(true, at)]];
      forall other
        ensures Agrees(retry, Log(history, other), maxBackoff, other)
      {
        assert Agrees(old(retry), Log(old(history), other), maxBackoff, other);
      }
    }

    method RecordFailure(review: string, at: Time)
      requires Valid()
      modifies this
      ensures Valid()
      ensures retry == Failed(old(retry), review, at, maxBackoff)
      ensures history == old(history)[review := Log(old(history), review) + [Attempt(false, at)]]
    {
      var k := FailuresOf(retry, review) + 1;
      retry := retry[review := (k, at + Delay(k, maxBackoff))];
      history := history[review := Log(history, review) + [Attempt(false, at)]];
      forall other
        ensures Agrees(retry, Log(history, other), maxBackoff, other)
      {
        assert Agrees(old(retry), Log(old(history), other), maxBackoff, other);
        if other == review {
          var log := Log(old(history), review);
          assert (log + [Attempt(false, at)])[..|log|] == log;
        }
      }
    }

    /** One refresh: synchronize, then mark the review's due sets or back off. */
    method RefreshReview(review: string, read: seq<StoredSet>, due: seq<nat>, w: World) returns (ok: bool, marked: nat)
      requires Valid() && |table.rows| == |read|
      requires forall i :: 0 <= i < |due| ==> due[i] < |read|
      modifies this, table
      ensures Valid() && ok == w.refresh(review)
      ensures marked == if ok then Unchanged(old(table.rows), SetsOf(read, due, review), read) else 0
      ensures |table.rows| == |read|
      ensures forall id :: 0 <= id < |read| ==>
        table.rows[id] == if ok && id in due && read[id].reviewId == review
                          then Mark(old(table.rows)[id], read[id], w.started(review)) else old(table.rows)[id]
      ensures ok ==> retry == old(retry) - {review}
      ensures !ok ==> retry == Failed(old(retry), review, w.failedAt(review), maxBackoff)
      ensures LogsAfter(old(history), history, [review], w)
    {
      hide Delay, Agrees;
      ok, marked := w.refresh(review), 0;
      if ok {
        var sets := SetsOf(read, due, review);
        ghost var rows1 := table.rows;
        marked := table.MarkDisplaySynced(sets, read, w.started(review));
        MarkedMeaning(rows1, sets, read, w.started(review));
        RecordSuccess(review, w.started(review));
      } else {
        RecordFailure(review, w.failedAt(review));
      }
    }

    /** One sweep. `calls` is the sequence of synchronize calls it made, `due` the due sets in id order. */
    method Sweep(now: Time, w: World) returns (r: SweepResult, calls: seq<string>, ghost due: seq<nat>)
      requires Valid()
      modifies this, table
      ensures Valid()
      ensures ListsExactly(due, old(table.rows), |old(table.rows)|, row => NeedsDisplayRefresh(row, now))
      ensures r.dueSets == |due| && r.dueReviews == |Reviews(old(table.rows), due)|
      ensures r.dueReviews == r.refreshed + r.failed + r.deferred + r.backingOff
      ensures r.refreshed + r.failed == |calls| <= maxReviews && Distinct(calls)
      ensures r.refreshed == Refreshed(calls, w)
      ensures r.deferred > 0 ==> |calls| == maxReviews
      ensures calls == Called(Reviews(old(table.rows), due), old(retry), w, maxReviews)
      ensures r.backingOff == Backing(Reviews(old(table.rows), due), old(retry), w)
      ensures r.markedSets == MarkedTotal(old(table.rows), due, calls, w)
      ensures due == [] ==> calls == [] && r == SweepResult(0, 0, 0, 0, 0, 0, 0)
      ensures RowsAfter(old(table.rows), table.rows, due, calls, w)
      ensures forall review :: RetryAfter(old(retry), retry, calls, w, maxBackoff, review)
      ensures LogsAfter(old(history), history, calls, w)
    {
      hide LogsAfter, RetryAfter, Delay, NeedsDisplayRefresh, Valid, RowsAfter, Called, Backing, MayRetry, Reviews,
        Refreshed, MarkedTotal, SetsOf;
      var dueSets := table.DisplayRefreshDue(now);
      due := dueSets;
      var read := table.rows;
      ReviewsMeaning(read, due);
      var reviews := Reviews(read, dueSets);
      NothingDone(retry, read, due, w, maxBackoff, maxReviews);
      NothingLogged(history, w);
      var refreshed, failed, marked, deferred, backingOff := 0, 0, 0, 0, 0;
      calls := [];
      for i := 0 to |reviews|
        invariant Valid()
        invariant calls == Called(reviews[..i], old(retry), w, maxReviews)
        invariant refreshed + failed == |calls| && refreshed == Refreshed(calls, w)
        invariant backingOff == Backing(reviews[..i], old(retry), w)
        invariant i == |calls| + deferred + backingOff
        invariant |calls| <= maxReviews && (deferred > 0 ==> |calls| == maxReviews)
        invariant marked == MarkedTotal(read, due, calls, w)
        invariant forall c :: c in calls ==> c in reviews[..i]
        invariant |table.rows| == |read| && RowsAfter(read, table.rows, due, calls, w)
        invariant forall review :: RetryAfter(old(retry), retry, calls, w, maxBackoff, review)
        invariant LogsAfter(old(history), history, calls, w)
      {
        var review := reviews[i];
        CalledStep(reviews, i, old(retry), w, maxReviews);
        FreshReview(old(retry), retry, calls, w, maxBackoff, reviews, i);
        if !MayRetry(retry, review, w.checked(review)) {
          backingOff := backingOff + 1;
          continue;
        }
        if |calls| >= maxReviews {
          deferred := deferred + 1;
          continue;
        }
        ghost var rows1, retry1, history1 := table.rows, retry, history;
        UntouchedRows(read, rows1, due, calls, w, review);
        AllUnchanged(rows1, SetsOf(read, due, review), read);
        var ok, count := RefreshReview(review, read, dueSets, w);
        RowsStep(read, rows1, table.rows, due, calls, review, w);
        RetryStep(old(retry), retry1, retry, calls, review, w, maxBackoff);
        LogsStep(old(history), history1, history, calls, review, w);
        TallyStep(read, due, calls, review, w);
        calls := calls + [review];
        if ok {
          refreshed, marked := refreshed + 1, marked + count;
        } else {
          failed := failed + 1;
        }
      }
      assert reviews[..|reviews|] == reviews;
      CalledMeaning(reviews, old(retry), w, maxReviews);
      r := SweepResult(|dueSets|, |reviews|, refreshed, failed, marked, deferred, backingOff);
    }
  }

  // ----- over many sweeps

  /** One sweep of a sequence: when it ran, what the world answered and whom it called. */
  datatype SweepRun = SweepRun(now: Time, world: World, calls: seq<string>)

  /** The attempts a sequence of sweeps makes for one review, in order. */
  function AttemptsOver(runs: seq<SweepRun>, review: string): seq<Attempt> {
    if runs == [] then []
    else
      var n := |runs| - 1;
      AttemptsOver(runs[..n], review) + AttemptsIn(runs[n].calls, runs[n].world, review)
  }

  /** Any number of sweeps: over everything attempted before and since, a review has a retry entry exactly when its
      last attempt failed, and the entry counts the failures since its last success. */
  method SweepRepeatedly(refresher: Refresher, times: seq<Time>, worlds: seq<World>) returns (runs: seq<SweepRun>)
    requires refresher.Valid() && |times| == |worlds|
    modifies refresher, refresher.table
    ensures refresher.Valid() && |runs| == |times|
    ensures forall i :: 0 <= i < |runs| ==>
      runs[i].now == times[i] && runs[i].world == worlds[i] && Distinct(runs[i].calls)
    ensures forall review ::
      Agrees(refresher.retry, Log(old(refresher.history), review) + AttemptsOver(runs, review), refresher.maxBackoff,
             review)
  {
    hide Agrees, LogsAfter, LogsOver, AttemptsOver, RowsAfter, RetryAfter, Called, Backing, MarkedTotal, Reviews,
      ListsExactly,
      NeedsDisplayRefresh, Refreshed;
    NoRuns(refresher.history);
    runs := [];
    for i := 0 to |times|
      invariant refresher.Valid() && |runs| == i
      invariant forall j :: 0 <= j < i ==>
        runs[j].now == times[j] && runs[j].world == worlds[j] && Distinct(runs[j].calls)
      invariant LogsOver(old(refresher.history), refresher.history, runs)
    {
      ghost var before := refresher.history;
      var r, calls, due := refresher.Sweep(times[i], worlds[i]);
      var run := SweepRun(times[i], worlds[i], calls);
      OneMoreRun(old(refresher.history), before, refresher.history, runs, run);
      runs := runs + [run];
    }
    LogsAgree(refresher, old(refresher.history), runs);
  }

  lemma NoRuns(history: map<string, seq<Attempt>>)
    ensures LogsOver(history, history, [])
  {
  }

  lemma LogsAgree(refresher: Refresher, start: map<string, seq<Attempt>>, runs: seq<SweepRun>)
    requires refresher.Valid() && LogsOver(start, refresher.history, runs)
    ensures forall review ::
      Agrees(refresher.retry, Log(start, review) + AttemptsOver(runs, review), refresher.maxBackoff, review)
  {
    hide Agrees;
  }

  ghost predicate LogsOver(before: map<string, seq<Attempt>>, after: map<string, seq<Attempt>>, runs: seq<SweepRun>) {
    forall review :: Log(after, review) == Log(before, review) + AttemptsOver(runs, review)
  }

  lemma OneMoreRun(start: map<string, seq<Attempt>>, before: map<string, seq<Attempt>>,
                   after: map<string, seq<Attempt>>,
                   runs: seq<SweepRun>, run: SweepRun)
    requires LogsOver(start, before, runs) && LogsAfter(before, after, run.calls, run.world)
    ensures LogsOver(start, after, runs + [run])
  {
    assert (runs + [run])[..|runs|] == runs;
    forall r
      ensures Log(after, r) == Log(start, r) + AttemptsOver(runs + [run], r)
    {
      hide AttemptsIn;
      Appended(Log(start, r), Log(before, r), Log(after, r), AttemptsOver(runs, r),
               AttemptsIn(run.calls, run.world, r));
    }
  }

  lemma NothingLogged(history: map<string, seq<Attempt>>, w: World)
    ensures LogsAfter(history, history, [], w)
  {
  }

  lemma AttemptsSplit(calls: seq<string>, review: string, w: World, r: string)
    requires review !in calls
    ensures AttemptsIn(calls + [review], w, r) == AttemptsIn(calls, w, r) + AttemptsIn([review], w, r)
  {
  }

  lemma Appended<T>(before: seq<T>, mid: seq<T>, after: seq<T>, a: seq<T>, b: seq<T>)
    requires mid == before + a && after == mid + b
    ensures after == before + (a + b)
  {
  }

  lemma LogsStep(before: map<string, seq<Attempt>>, mid: map<string, seq<Attempt>>, after: map<string, seq<Attempt>>,
                 calls: seq<string>, review: string, w: World)
    requires LogsAfter(before, mid, calls, w) && LogsAfter(mid, after, [review], w) && review !in calls
    ensures LogsAfter(before, after, calls + [review], w)
  {
    forall r
      ensures Log(after, r) == Log(before, r) + AttemptsIn(calls + [review], w, r)
    {
      AttemptsSplit(calls, review, w, r);
      hide AttemptsIn;
      Appended(Log(before, r), Log(mid, r), Log(after, r), AttemptsIn(calls, w, r), AttemptsIn([review], w, r));
    }
  }

  /** Every row after one sweep. */
  ghost predicate RowsAfter(before: seq<StoredSet>, after: seq<StoredSet>, due: seq<nat>, calls: seq<string>,
                            w: World) {
    |after| == |before| && forall id :: 0 <= id < |before| ==> after[id] == RowAfter(before[id], id in due, calls, w)
  }

  lemma NothingDone(retry: map<string, (nat, Time)>, rows: seq<StoredSet>, due: seq<nat>, w: World, maxBackoff: Time,
                    max: nat)
    requires forall i :: 0 <= i < |due| ==> due[i] < |rows|
    ensures Called([], retry, w, max) == [] && Backing([], retry, w) == 0
    ensures Refreshed([], w) == 0 && MarkedTotal(rows, due, [], w) == 0
    ensures RowsAfter(rows, rows, due, [], w)
    ensures forall review :: RetryAfter(retry, retry, [], w, maxBackoff, review)
  {
  }

  /** The review of round `i` has not been called, and its retry entry is the one the sweep started with. */
  lemma FreshReview(before: map<string, (nat, Time)>, retry: map<string, (nat, Time)>, calls: seq<string>, w: World,
                    maxBackoff: Time,
                    reviews: seq<string>, i: nat)
    requires Distinct(reviews) && i < |reviews| && forall c :: c in calls ==> c in reviews[..i]
    requires forall review :: RetryAfter(before, retry, calls, w, maxBackoff, review)
    ensures reviews[i] !in calls
    ensures forall checked :: MayRetry(retry, reviews[i], checked) == MayRetry(before, reviews[i], checked)
  {
    hide Delay;
    assert reviews[i] !in reviews[..i];
    assert RetryAfter(before, retry, calls, w, maxBackoff, reviews[i]);
  }

  lemma UntouchedRows(read: seq<StoredSet>, rows: seq<StoredSet>, due: seq<nat>, calls: seq<string>, w: World,
                      review: string)
    requires RowsAfter(read, rows, due, calls, w) && review !in calls
    ensures forall id :: 0 <= id < |read| && read[id].reviewId == review ==> rows[id] == read[id]
  {
  }

  lemma RowsStep(read: seq<StoredSet>, mid: seq<StoredSet>, after: seq<StoredSet>, due: seq<nat>, calls: seq<string>,
                 review: string, w: World)
    requires RowsAfter(read, mid, due, calls, w) && review !in calls && |after| == |read|
    requires forall id :: 0 <= id < |read| ==>
      after[id] == if w.refresh(review) && id in due && read[id].reviewId == review
                   then Mark(mid[id], read[id], w.started(review)) else mid[id]
    ensures RowsAfter(read, after, due, calls + [review], w)
  {
  }

  /** Marking in one pass: a listed row is compared with the row that was read, every other row stays. */
  lemma {:induction false} MarkedMeaning(rows: seq<StoredSet>, ids: seq<nat>, read: seq<StoredSet>, at: Time)
    requires forall i :: 0 <= i < |ids| ==> ids[i] < |rows| && ids[i] < |read|
    ensures forall id :: 0 <= id < |rows| ==>
      MarkedRows(rows, ids, read, at)[id] == if id in ids then Mark(rows[id], read[id], at) else rows[id]
  {
    if ids != [] {
      var n := |ids| - 1;
      MarkedMeaning(rows, ids[..n], read, at);
      assert ids == ids[..n] + [ids[n]];
    }
  }

  lemma RetryStep(before: map<string, (nat, Time)>, mid: map<string, (nat, Time)>, after: map<string, (nat, Time)>,
                  calls: seq<string>, review: string, w: World, maxBackoff: Time)
    requires forall r :: RetryAfter(before, mid, calls, w, maxBackoff, r)
    requires review !in calls
    requires w.refresh(review) ==> after == mid - {review}
    requires !w.refresh(review) ==> after == Failed(mid, review, w.failedAt(review), maxBackoff)
    ensures forall r :: RetryAfter(before, after, calls + [review], w, maxBackoff, r)
  {
    hide Delay;
    forall r
      ensures RetryAfter(before, after, calls + [review], w, maxBackoff, r)
    {
      assert RetryAfter(before, mid, calls, w, maxBackoff, r);
    }
  }
}
