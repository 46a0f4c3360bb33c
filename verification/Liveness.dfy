/** Counting the results of liveness checks that do not overlap (process/process.go:149-225). */
module Liveness {

  /** How many checks at the end of a history had the given result. */
  function Trailing(history: seq<bool>, ok: bool): nat {
    if history == [] || history[|history| - 1] != ok then 0 else Trailing(history[..|history| - 1], ok) + 1
  }

  lemma TrailingPush(history: seq<bool>, result: bool, ok: bool)
    ensures Trailing(history + [result], ok) == if result == ok then Trailing(history, ok) + 1 else 0
  {
    assert (history + [result])[..|history|] == history;
  }

  /** Does the failure action follow on the last check of a history? Threshold 0 never lets it. */
  predicate FailureFires(history: seq<bool>, threshold: nat) {
    Trailing(history, false) > 0 && threshold > 0 && Remainder(Trailing(history, false), threshold) == 0
  }

  predicate SuccessFires(history: seq<bool>, threshold: nat) {
    threshold > 0 && Trailing(history, true) == threshold
  }

  function Remainder(n: nat, m: nat): (r: nat) {
    if m == 0 then 0 else n % m
  }

  lemma DivStep(n: nat, m: nat)
    requires m > 0
    ensures (n + 1) % m == if n % m + 1 == m then 0 else n % m + 1
    ensures (n + 1) / m == n / m + if (n + 1) % m == 0 then 1 else 0
  {
    var q, r := n / m, n % m;
    assert n == m * q + r;
    if r + 1 == m {
      assert n + 1 == m * (q + 1) + 0;
      DivUnique(n + 1, m, q + 1, 0);
    } else {
      assert n + 1 == m * q + (r + 1);
      DivUnique(n + 1, m, q, r + 1);
    }
  }

  lemma RemainderStep(n: nat, m: nat)
    ensures Remainder(0, m) == 0
    ensures m > 0 ==> Remainder(n, m) < m
    ensures m > 0 ==> Remainder(n + 1, m) == if Remainder(n, m) + 1 == m then 0 else Remainder(n, m) + 1
  {
    if m > 0 {
      DivStep(n, m);
      DivUnique(0, m, 0, 0);
    }
  }

  lemma {:induction false} Multiple(m: nat, k: int)
    requires m > 0
    ensures k > 0 ==> m * k >= m
    ensures k < 0 ==> m * k + m <= 0
  {
    if k > 0 {
      assert m * k == m * (k - 1) + m;
      if k > 1 {
        MultipleDown(m, k);
      }
    } else if k < 0 {
      assert m * k == -(m * -k);
      MultipleDown(m, -k);
    }
  }

  lemma {:induction false} MultipleDown(m: nat, k: nat)
    requires k > 0
    ensures m * k >= m
    decreases k
  {
    if k > 1 {
      MultipleDown(m, k - 1);
      assert m * k == m * (k - 1) + m;
    } else {
      assert m * k == m;
    }
  }

  lemma DivUnique(n: nat, m: nat, q: nat, r: nat)
    requires m > 0 && n == m * q + r && r < m
    ensures n / m == q && n % m == r
  {
    var p, s := n / m, n % m;
    Multiple(m, q - p);
    assert m * (q - p) == m * q - m * p;
    assert n == m * p + s;
  }

  class LivenessChecker {
    const successThreshold: nat
    const failureThreshold: nat
    const checkPeriod: nat
    const initialDelay: nat
    var successes: nat
    var failures: nat
    var nextCheckTime: int

    constructor (successThreshold: nat, failureThreshold: nat, checkPeriod: nat, initialDelay: nat, now: int)
      ensures this.successThreshold == successThreshold && this.failureThreshold == failureThreshold
      ensures this.checkPeriod == checkPeriod && this.initialDelay == initialDelay
      ensures Counts([]) && nextCheckTime == now + initialDelay
    {
      this.successThreshold, this.failureThreshold := successThreshold, failureThreshold;
      this.checkPeriod, this.initialDelay := checkPeriod, initialDelay;
      successes, failures, nextCheckTime := 0, 0, now + initialDelay;
    }

    /** The counters tell the end of the history, the failures since the failure action last followed. */
    predicate Counts(history: seq<bool>)
      reads this
    {
      && successes == (if Trailing(history, true) < successThreshold then Trailing(history, true) else successThreshold)
      && failures == Remainder(Trailing(history, false), failureThreshold)
    }

    method AddSuccess()
      modifies `successes, `failures
      ensures successes == (if old(successes) < successThreshold then old(successes) + 1 else old(successes)) && failures == 0
    {
      if successes < successThreshold {
        successes := successes + 1;
      }
      failures := 0;
    }

    method AddFailure()
      modifies `successes, `failures
      ensures failures == (if old(failures) < failureThreshold then old(failures) + 1 else old(failures)) && successes == 0
    {
      if failures < failureThreshold {
        failures := failures + 1;
      }
      successes := 0;
    }

    predicate IsFailed()
      reads this
    {
      failures >= failureThreshold
    }

    predicate IsSuccess()
      reads this
    {
      successes >= successThreshold
    }

    method Reset(now: int)
      modifies this
      ensures successes == 0 && failures == 0 && nextCheckTime == now + initialDelay
    {
      successes, failures := 0, 0;
      nextCheckTime := now + initialDelay;
    }

    /**
      What the manager asks for at the time `now`. If a check is due, its script ends with the given
      result at `ended`, and the actions, if any follow, at `acted`.
     */
    method DoLivenessCheck(now: int, ended: int, acted: int, result: bool, ghost history: seq<bool>)
      returns (checked: bool, success: bool, failure: bool)
      requires Counts(history) && now <= ended <= acted
      modifies this
      ensures checked <==> now > old(nextCheckTime)
      ensures checked ==> Counts(history + [result])
      ensures success <==> checked && SuccessFires(history + [result], successThreshold)
      ensures failure <==> checked && FailureFires(history + [result], failureThreshold)
      ensures checked ==> nextCheckTime == if failure then acted + initialDelay else ended + checkPeriod
      ensures !checked ==> Counts(history) && nextCheckTime == old(nextCheckTime)
    {
      if !(now > nextCheckTime) {
        return false, false, false;
      }
      checked := true;
      TrailingPush(history, result, true);
      TrailingPush(history, result, false);
      RemainderStep(Trailing(history, false), failureThreshold);
      var isSuccessBefore, isFailureBefore := IsSuccess(), IsFailed();
      if result {
        AddSuccess();
      } else {
        AddFailure();
      }
      nextCheckTime := ended + checkPeriod;
      success := !isSuccessBefore && IsSuccess();
      failure := !isFailureBefore && IsFailed();
      if failure {
        Reset(acted);
      }
    }
  }

  // ---------------------------------------------------------------- how often

  function FailureCount(history: seq<bool>, threshold: nat): nat {
    if history == [] then 0
    else FailureCount(history[..|history| - 1], threshold) + if FailureFires(history, threshold) then 1 else 0
  }

  function SuccessCount(history: seq<bool>, threshold: nat): nat {
    if history == [] then 0
    else SuccessCount(history[..|history| - 1], threshold) + if SuccessFires(history, threshold) then 1 else 0
  }

  function Repeat(ok: bool, n: nat): seq<bool> {
    seq(n, _ => ok)
  }

  lemma {:induction false} TrailingRun(history: seq<bool>, ok: bool, n: nat)
    requires Trailing(history, ok) == 0
    ensures Trailing(history + Repeat(ok, n), ok) == n
    decreases n
  {
    if n == 0 {
      assert history + Repeat(ok, 0) == history;
    } else {
      RepeatPush(history, ok, n);
      TrailingRun(history, ok, n - 1);
      TrailingPush(history + Repeat(ok, n - 1), ok, ok);
    }
  }

  lemma RepeatPush(history: seq<bool>, ok: bool, n: nat)
    requires n > 0
    ensures history + Repeat(ok, n) == history + Repeat(ok, n - 1) + [ok]
  {
  }

  /** In a run of failures that follows on no failure the action follows once per threshold failures. */
  lemma {:induction false} FailureRun(history: seq<bool>, threshold: nat, n: nat)
    requires Trailing(history, false) == 0
    ensures FailureCount(history + Repeat(false, n), threshold) ==
            FailureCount(history, threshold) + if threshold == 0 then 0 else n / threshold
    decreases n
  {
    if n == 0 {
      assert history + Repeat(false, 0) == history;
      if threshold > 0 {
        DivUnique(0, threshold, 0, 0);
      }
    } else {
      var before := history + Repeat(false, n - 1);
      RepeatPush(history, false, n);
      FailureRun(history, threshold, n - 1);
      TrailingRun(history, false, n);
      assert (before + [false])[..|before|] == before;
      if threshold > 0 {
        DivStep(n - 1, threshold);
      }
    }
  }

  /** In a run of successes that follows on no success it follows once, at the threshold, if at all. */
  lemma {:induction false} SuccessRun(history: seq<bool>, threshold: nat, n: nat)
    requires Trailing(history, true) == 0
    ensures SuccessCount(history + Repeat(true, n), threshold) ==
            SuccessCount(history, threshold) + if 0 < threshold <= n then 1 else 0
    decreases n
  {
    if n == 0 {
      assert history + Repeat(true, 0) == history;
    } else {
      var before := history + Repeat(true, n - 1);
      RepeatPush(history, true, n);
      SuccessRun(history, threshold, n - 1);
      TrailingRun(history, true, n);
      assert (before + [true])[..|before|] == before;
    }
  }
}
