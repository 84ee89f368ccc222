/** Which reviews a display sweep calls, over the log of earlier attempts (`sweep`, `_may_retry` and `_record_failure`
    in `app/composition/advisory_display.py`). */
module RetryMeaning {
  import opened Core
  import opened SuggestionSets
  import opened SuggestionTable
  import opened DisplayRefresher

  /** Exactly the last `k` attempts failed in a row. */
  predicate FailedInARow(log: seq<Attempt>, k: nat) {
    && k <= |log|
    && (forall i :: |log| - k <= i < |log| ==> !log[i].ok)
    && (k < |log| ==> log[|log| - k - 1].ok)
  }

  /** One minute after the first failure, doubled by each further one. */
  function Doubled(k: nat): Time
    requires k > 0
  {
    if k == 1 then 60000000 else 2 * Doubled(k - 1)
  }

  /** The last attempt failed, and its delay, doubled or at the cap, has not passed. */
  predicate Waits(log: seq<Attempt>, k: nat, checked: Time, maxBackoff: Time) {
    && 0 < k <= |log| && FailedInARow(log, k)
    && checked < log[|log| - 1].at + Doubled(k) && checked < log[|log| - 1].at + maxBackoff
  }

  ghost predicate Ready(log: seq<Attempt>, checked: Time, maxBackoff: Time) {
    forall k: nat :: !Waits(log, k, checked, maxBackoff)
  }

  lemma {:induction false} TrailingExactly(log: seq<Attempt>, k: nat)
    ensures TrailingFailures(log) == k <==> FailedInARow(log, k)
  {
    if log != [] && !log[|log| - 1].ok {
      if k > 0 {
        var before := log[..|log| - 1];
        TrailingExactly(before, k - 1);
        assert forall i :: 0 <= i < |before| ==> before[i] == log[i];
      }
    }
  }

  lemma {:induction false} DelayMeaning(k: nat, maxBackoff: Time)
    requires k > 0
    ensures DISPLAY_SWEEP_INTERVAL * Pow2(k - 1) == Doubled(k)
    ensures Delay(k, maxBackoff) == if Doubled(k) < maxBackoff then Doubled(k) else maxBackoff
  {
    if k > 1 {
      DelayMeaning(k - 1, maxBackoff);
    }
  }

  /** A review may be retried exactly when its last attempt succeeded, there was none, or the delay of its failures in a
      row has passed since the last one. */
  lemma RetryExactly(retry: map<string, (nat, Time)>, log: seq<Attempt>, maxBackoff: Time, review: string,
                     checked: Time)
    requires Agrees(retry, log, maxBackoff, review)
    ensures MayRetry(retry, review, checked) <==> Ready(log, checked, maxBackoff)
  {
    var k := TrailingFailures(log);
    forall j: nat
      ensures j == k <==> FailedInARow(log, j)
    {
      TrailingExactly(log, j);
    }
    if k > 0 {
      DelayMeaning(k, maxBackoff);
    }
    hide Delay, Doubled, TrailingFailures;
    if !Ready(log, checked, maxBackoff) {
      var j: nat :| Waits(log, j, checked, maxBackoff);
      assert j == k;
    }
    if !MayRetry(retry, review, checked) {
      assert k > 0;
      assert FailedInARow(log, k);
      assert checked < log[|log| - 1].at + Delay(k, maxBackoff);
      assert Waits(log, k, checked, maxBackoff);
    }
  }

  ghost predicate AllAgree(retry: map<string, (nat, Time)>, history: map<string, seq<Attempt>>, maxBackoff: Time) {
    forall review :: Agrees(retry, Log(history, review), maxBackoff, review)
  }

  /** The due reviews that may be retried, in order. */
  ghost function ReadyOnes(reviews: seq<string>, history: map<string, seq<Attempt>>, w: World, maxBackoff: Time)
    : seq<string>
  {
    if reviews == [] then []
    else
      var n := |reviews| - 1;
      ReadyOnes(reviews[..n], history, w, maxBackoff)
      + (if Ready(Log(history, reviews[n]), w.checked(reviews[n]), maxBackoff) then [reviews[n]] else [])
  }

  function Least(a: nat, b: nat): nat {
    if a < b then a else b
  }

  /** A sweep calls the first ready reviews up to its cap, and the others that are not ready are the ones backing off:
      over the log, every called review's last failure lies its delay in the past and a backing-off one's does not. */
  lemma {:induction false} CalledExactly(reviews: seq<string>, retry: map<string, (nat, Time)>,
                                         history: map<string, seq<Attempt>>, w: World, max: nat, maxBackoff: Time)
    requires AllAgree(retry, history, maxBackoff)
    ensures var ready := ReadyOnes(reviews, history, w, maxBackoff);
      && Called(reviews, retry, w, max) == ready[..Least(max, |ready|)]
      && Backing(reviews, retry, w) + |ready| == |reviews|
  {
    if reviews != [] {
      var n := |reviews| - 1;
      CalledExactly(reviews[..n], retry, history, w, max, maxBackoff);
      RetryExactly(retry, Log(history, reviews[n]), maxBackoff, reviews[n], w.checked(reviews[n]));
      hide MayRetry, Ready, AllAgree;
    }
  }

  lemma {:induction false} ReadyMeaning(reviews: seq<string>, history: map<string, seq<Attempt>>, w: World,
                                        maxBackoff: Time, review: string)
    ensures review in ReadyOnes(reviews, history, w, maxBackoff) <==>
      review in reviews && Ready(Log(history, review), w.checked(review), maxBackoff)
  {
    hide Ready;
    if reviews != [] {
      var n := |reviews| - 1;
      ReadyMeaning(reviews[..n], history, w, maxBackoff, review);
      assert reviews == reviews[..n] + [reviews[n]];
    }
  }

  // ----- the order of the reviews

  /** The first due set of the review. */
  predicate FirstDue(rows: seq<StoredSet>, due: seq<nat>, review: string, d: nat)
    requires forall i :: 0 <= i < |due| ==> due[i] < |rows|
  {
    d < |due| && rows[due[d]].reviewId == review && forall e :: 0 <= e < d ==> rows[due[e]].reviewId != review
  }

  lemma {:induction false} FirstDueExists(rows: seq<StoredSet>, due: seq<nat>, review: string) returns (d: nat)
    requires forall i :: 0 <= i < |due| ==> due[i] < |rows|
    requires review in Reviews(rows, due)
    ensures FirstDue(rows, due, review, d)
  {
    var n := |due| - 1;
    var before := due[..n];
    if review in Reviews(rows, before) {
      d := FirstDueExists(rows, before, review);
      assert forall e :: 0 <= e <= d ==> before[e] == due[e];
    } else {
      d := n;
      ReviewsMeaning(rows, before);
      assert !Mentions(rows, before, review);
      forall e | 0 <= e < n
        ensures rows[due[e]].reviewId != review
      {
        assert before[e] == due[e];
      }
    }
  }

  /** Reviews are taken in the order of their oldest due set. */
  lemma {:induction false} OldestFirst(rows: seq<StoredSet>, due: seq<nat>, i: nat, j: nat, c: nat, d: nat)
    requires forall k :: 0 <= k < |due| ==> due[k] < |rows|
    requires i < j < |Reviews(rows, due)|
    requires FirstDue(rows, due, Reviews(rows, due)[i], c) && FirstDue(rows, due, Reviews(rows, due)[j], d)
    ensures c < d
  {
    var n := |due| - 1;
    var before := due[..n];
    ReviewsMeaning(rows, before);
    ReviewsMeaning(rows, due);
    var earlier := Reviews(rows, before);
    assert forall k :: 0 <= k < n ==> before[k] == due[k];
    if j < |earlier| {
      var c1 := FirstDueExists(rows, before, earlier[i]);
      var d1 := FirstDueExists(rows, before, earlier[j]);
      OldestFirst(rows, before, i, j, c1, d1);
      assert FirstDue(rows, due, earlier[i], c1) && FirstDue(rows, due, earlier[j], d1);
      assert c == c1 && d == d1;
    } else {
      var c1 := FirstDueExists(rows, before, earlier[i]);
      assert FirstDue(rows, due, earlier[i], c1);
      assert c == c1;
      if d < n {
        assert Mentions(rows, before, Reviews(rows, due)[j]);
      }
    }
  }
}
