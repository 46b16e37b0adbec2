/** Retry with exponential backoff, as `CourseService.retryOperation`
    (src/app/services/course.service.ts) runs it. The remote operation is given
    by the outcome of each of its calls: `op(k)` is what the (k+1)-th call yields,
    a timeout counting as a failure. Sleeps are returned as the list of waits,
    console warnings as the list of warnings. */
module Retry {
  import opened Wrappers

  datatype Error = Error(message: string)

  datatype Outcome<T> = Succeeded(value: T) | Failed(error: Error)

  /** The warning "Retry {attempt}/{of} failed: {message}". */
  datatype Warning = Warning(attempt: nat, of: nat, message: string)

  /** The promise's settlement: the value returned, or the error thrown
      (`undefined` when no attempt was made). */
  datatype RetryResult<T> = Returned(value: T) | Threw(lastError: Option<Error>)

  /** What one call of the retry loop did: its settlement, how many attempts
      it made, the delays it waited (in order) and the warnings it logged. */
  datatype RetryRun<T> = RetryRun(result: RetryResult<T>, attempts: nat, waits: seq<nat>, warnings: seq<Warning>)

  datatype RetryPolicy = RetryPolicy(retryCount: nat, retryDelay: nat)

  /** `retryCount = 3`, `retryDelay = 1000` (milliseconds). */
  const CourseServicePolicy := RetryPolicy(3, 1000)

  function Pow2(i: nat): (p: nat)
    ensures p >= 1
  {
    if i == 0 then 1 else 2 * Pow2(i - 1)
  }

  /** The wait after failed attempt `i` (counted from 0): `retryDelay * 2^i`. */
  function Backoff(policy: RetryPolicy, i: nat): nat {
    policy.retryDelay * Pow2(i)
  }

  /** The loop from attempt `i` on, `lastError` being the error kept so far. What it
      does is stated by the lemmas below. */
  function RunFrom<T>(op: nat -> Outcome<T>, policy: RetryPolicy, i: nat, lastError: Option<Error>): RetryRun<T>
    decreases policy.retryCount - i
  {
    if i >= policy.retryCount then RetryRun(Threw(lastError), i, [], [])
    else match op(i)
      case Succeeded(v) => RetryRun(Returned(v), i + 1, [], [])
      case Failed(e) =>
        var rest := RunFrom(op, policy, i + 1, Some(e));
        var wait := if i < policy.retryCount - 1 then [Backoff(policy, i)] else [];
        RetryRun(rest.result, rest.attempts, wait + rest.waits, [Warning(i + 1, policy.retryCount, e.message)] + rest.warnings)
  }

  /** The whole retry loop, from its first attempt: it never makes more than
      `retryCount` attempts, a success comes after as many warnings as failures
      before it, a throw after all `retryCount` attempts failed, and with no
      attempt allowed it throws `undefined`. */
  function RetrySpec<T>(op: nat -> Outcome<T>, policy: RetryPolicy): (r: RetryRun<T>)
    ensures r.attempts <= policy.retryCount
    ensures r.result.Returned? ==> r.attempts >= 1 && |r.warnings| == r.attempts - 1 && |r.waits| == r.attempts - 1
    ensures r.result.Threw? ==> r.attempts == policy.retryCount && |r.warnings| == policy.retryCount
    ensures policy.retryCount == 0 ==> r.result == Threw(None)
  {
    RunFromCounts(op, policy, 0, None);
    RunFrom(op, policy, 0, None)
  }

  /** Attempt `k` is the first that succeeds. */
  predicate FirstSuccessAt<T>(op: nat -> Outcome<T>, k: nat) {
    op(k).Succeeded? && forall j :: 0 <= j < k ==> op(j).Failed?
  }

  /** `retryOperation`: try the operation up to `retryCount` times, return the first
      success, sleep `retryDelay * 2^i` after failed attempt i unless it was the last,
      and throw the last error when every attempt failed. */
  method RetryOperation<T>(op: nat -> Outcome<T>, policy: RetryPolicy) returns (run: RetryRun<T>)
    ensures run == RetrySpec(op, policy)
  {
    var lastError: Option<Error> := None;
    var waits: seq<nat> := [];
    var warnings: seq<Warning> := [];
    var i := 0;
    while i < policy.retryCount
      invariant 0 <= i <= policy.retryCount
      invariant i == 0 ==> lastError == None
      invariant var tail := RunFrom(op, policy, i, lastError);
        RetrySpec(op, policy) == RetryRun(tail.result, tail.attempts, waits + tail.waits, warnings + tail.warnings)
    {
      match op(i)
      case Succeeded(v) =>
        return RetryRun(Returned(v), i + 1, waits, warnings);
      case Failed(e) =>
        lastError := Some(e);
        warnings := warnings + [Warning(i + 1, policy.retryCount, e.message)];
        if i < policy.retryCount - 1 {
          waits := waits + [Backoff(policy, i)];
        }
      i := i + 1;
    }
    run := RetryRun(Threw(lastError), i, waits, warnings);
  }

  // ---------------------------------------------------------------------------
  // What the loop guarantees

  /** The run from attempt `i` makes attempts i, i+1, ... up to and including the
      first success, never reaching `retryCount`; it returns that success's value. */
  lemma {:induction false} RunFromSucceeds<T>(op: nat -> Outcome<T>, policy: RetryPolicy, i: nat, k: nat, lastError: Option<Error>)
    requires i <= k < policy.retryCount && op(k).Succeeded?
    requires forall j :: i <= j < k ==> op(j).Failed?
    ensures var run := RunFrom(op, policy, i, lastError);
      run.result == Returned(op(k).value) && run.attempts == k + 1 &&
      |run.waits| == k - i && |run.warnings| == k - i
    decreases k - i
  {
    if i < k {
      RunFromSucceeds(op, policy, i + 1, k, Some(op(i).error));
    }
  }

  /** When every attempt from `i` on fails, the run makes all of them and throws
      the error of the last one. */
  lemma {:induction false} RunFromExhausts<T>(op: nat -> Outcome<T>, policy: RetryPolicy, i: nat, lastError: Option<Error>)
    requires i < policy.retryCount
    requires forall j :: i <= j < policy.retryCount ==> op(j).Failed?
    ensures var run := RunFrom(op, policy, i, lastError);
      run.result == Threw(Some(op(policy.retryCount - 1).error)) && run.attempts == policy.retryCount &&
      |run.waits| == policy.retryCount - 1 - i && |run.warnings| == policy.retryCount - i
    decreases policy.retryCount - i
  {
    if i + 1 < policy.retryCount {
      RunFromExhausts(op, policy, i + 1, Some(op(i).error));
    }
  }

  /** The result: the first success among the first `retryCount` attempts, with no
      attempt after it; otherwise the error of attempt `retryCount`. */
  lemma RetryOutcome<T>(op: nat -> Outcome<T>, policy: RetryPolicy)
    requires policy.retryCount >= 1
    ensures forall k :: 0 <= k < policy.retryCount && FirstSuccessAt(op, k) ==>
      RetrySpec(op, policy).result == Returned(op(k).value) && RetrySpec(op, policy).attempts == k + 1
    ensures (forall j :: 0 <= j < policy.retryCount ==> op(j).Failed?) ==>
      RetrySpec(op, policy).result == Threw(Some(op(policy.retryCount - 1).error)) &&
      RetrySpec(op, policy).attempts == policy.retryCount
    ensures RetrySpec(op, policy).result.Threw? ==>
      (forall j :: 0 <= j < policy.retryCount ==> op(j).Failed?) &&
      RetrySpec(op, policy).result.lastError == Some(op(policy.retryCount - 1).error)
    ensures 1 <= RetrySpec(op, policy).attempts <= policy.retryCount
  {
    forall k | 0 <= k < policy.retryCount && FirstSuccessAt(op, k)
      ensures RetrySpec(op, policy).result == Returned(op(k).value) && RetrySpec(op, policy).attempts == k + 1
    {
      RunFromSucceeds(op, policy, 0, k, None);
    }
    if forall j :: 0 <= j < policy.retryCount ==> op(j).Failed? {
      RunFromExhausts(op, policy, 0, None);
    } else {
      var k :| 0 <= k < policy.retryCount && op(k).Succeeded?;
      var first := FirstSuccess(op, k);
      RunFromSucceeds(op, policy, 0, first, None);
    }
  }

  /** The first success at or before a known one. */
  ghost function FirstSuccess<T>(op: nat -> Outcome<T>, k: nat): (first: nat)
    requires op(k).Succeeded?
    ensures first <= k && FirstSuccessAt(op, first)
  {
    if forall j :: 0 <= j < k ==> op(j).Failed? then k
    else
      var j :| 0 <= j < k && op(j).Succeeded?;
      FirstSuccess(op, j)
  }

  /** Warning j of the run from attempt `i` is logged by failed attempt i + j
      (counted from 0): it is number i + j + 1 of `retryCount`, with that
      attempt's error message. */
  lemma {:induction false} RunFromWarning<T>(op: nat -> Outcome<T>, policy: RetryPolicy, i: nat, lastError: Option<Error>, j: nat)
    requires j < |RunFrom(op, policy, i, lastError).warnings|
    ensures i + j < policy.retryCount && op(i + j).Failed?
    ensures RunFrom(op, policy, i, lastError).warnings[j] == Warning(i + j + 1, policy.retryCount, op(i + j).error.message)
    decreases j
  {
    var run := RunFrom(op, policy, i, lastError);
    if !(i < policy.retryCount && op(i).Failed?) {
      assert false;
    } else {
      var e := op(i).error;
      var rest := RunFrom(op, policy, i + 1, Some(e));
      assert run.warnings == [Warning(i + 1, policy.retryCount, e.message)] + rest.warnings;
      if j > 0 {
        RunFromWarning(op, policy, i + 1, Some(e), j - 1);
        assert run.warnings[j] == rest.warnings[j - 1];
        assert i + 1 + (j - 1) == i + j;
      }
    }
  }

  /** Failed attempt i, unless it is attempt `retryCount`, is followed by a wait of
      `retryDelay * 2^i`. */
  lemma {:induction false} RunFromWaits<T>(op: nat -> Outcome<T>, policy: RetryPolicy, i: nat, lastError: Option<Error>)
    ensures var run := RunFrom(op, policy, i, lastError);
      forall k: nat :: i <= k < i + |run.waits| ==> run.waits[k - i] == Backoff(policy, k)
    decreases policy.retryCount - i
  {
    if i < policy.retryCount && op(i).Failed? {
      var e := op(i).error;
      var rest := RunFrom(op, policy, i + 1, Some(e));
      RunFromWaits(op, policy, i + 1, Some(e));
      var run := RunFrom(op, policy, i, lastError);
      if i < policy.retryCount - 1 {
        assert run.waits == [Backoff(policy, i)] + rest.waits;
        forall k: nat | i < k < i + |run.waits|
          ensures run.waits[k - i] == Backoff(policy, k)
        {
          assert run.waits[k - i] == rest.waits[k - (i + 1)];
        }
      } else {
        assert run.waits == rest.waits;
      }
    }
  }

  /** The run from attempt `i` logs one warning per failed attempt and waits once
      fewer than it attempts; a success comes before attempt `retryCount`, a throw
      after every attempt up to `retryCount` was made. */
  lemma {:induction false} RunFromCounts<T>(op: nat -> Outcome<T>, policy: RetryPolicy, i: nat, lastError: Option<Error>)
    ensures var run := RunFrom(op, policy, i, lastError);
      i <= run.attempts &&
      (run.result.Returned? ==> i < run.attempts <= policy.retryCount && |run.warnings| == run.attempts - i - 1) &&
      (run.result.Threw? ==>
        (run.attempts == if i >= policy.retryCount then i else policy.retryCount) &&
        |run.warnings| == run.attempts - i) &&
      (i < policy.retryCount ==> |run.waits| == run.attempts - 1 - i)
    decreases policy.retryCount - i
  {
    if i < policy.retryCount && op(i).Failed? {
      var e := op(i).error;
      var rest := RunFrom(op, policy, i + 1, Some(e));
      RunFromCounts(op, policy, i + 1, Some(e));
      var run := RunFrom(op, policy, i, lastError);
      assert run.result == rest.result && run.attempts == rest.attempts;
      assert |run.warnings| == 1 + |rest.warnings|;
      assert |run.waits| == (if i < policy.retryCount - 1 then 1 else 0) + |rest.waits|;
    }
  }

  /** Every warning and every wait of the whole loop, by position: warning k is
      attempt k's, wait k is `retryDelay * 2^k`, one wait fewer than attempts. */
  lemma RetryLog<T>(op: nat -> Outcome<T>, policy: RetryPolicy)
    requires policy.retryCount >= 1
    ensures var run := RetrySpec(op, policy);
      (forall k: nat :: k < |run.warnings| ==>
        op(k).Failed? && run.warnings[k] == Warning(k + 1, policy.retryCount, op(k).error.message)) &&
      (forall k: nat :: k < |run.waits| ==> run.waits[k] == policy.retryDelay * Pow2(k)) &&
      |run.waits| == run.attempts - 1
  {
    var run := RunFrom(op, policy, 0, None);
    RunFromCounts(op, policy, 0, None);
    forall k: nat | k < |run.warnings|
      ensures op(k).Failed? && run.warnings[k] == Warning(k + 1, policy.retryCount, op(k).error.message)
    {
      RunFromWarning(op, policy, 0, None, k);
      assert 0 + k == k;
    }
    forall k: nat | k < |run.waits|
      ensures run.waits[k] == policy.retryDelay * Pow2(k)
    {
      RunFromWaits(op, policy, 0, None);
      assert 0 <= k < 0 + |run.waits|;
      assert run.waits[k - 0] == Backoff(policy, k);
    }
  }

  /** With the service's defaults, an operation that fails twice and then succeeds
      returns its value after three attempts, two warnings and waits of 1000 then 2000. */
  lemma FailTwiceThenSucceed<T>(e1: Error, e2: Error, v: T)
    ensures var op: nat -> Outcome<T> := k => if k == 0 then Failed(e1) else if k == 1 then Failed(e2) else Succeeded(v);
      RetrySpec(op, CourseServicePolicy) ==
        RetryRun(Returned(v), 3, [1000, 2000], [Warning(1, 3, e1.message), Warning(2, 3, e2.message)])
  {
  }
}
