/**
 * The circuit breaker: closed, open, half-open, with a failure threshold and a recovery timeout.
 * Clock readings are parameters.
 */
module Breakers {
  datatype Status = Closed | Open | HalfOpen

  datatype Breaker = Breaker(status: Status, failures: nat, openedAt: real)

  const FRESH: Breaker := Breaker(Closed, 0, 0.0)

  /** What `_before_call` decides: the state after it, and whether the call may go ahead. */
  function Before(b: Breaker, now: real, recovery: real): (Breaker, bool) {
    if !b.status.Open? then (b, true)
    else if now - b.openedAt >= recovery then (b.(status := HalfOpen), true)
    else (b, false)
  }

  function OnSuccess(b: Breaker): Breaker {
    Breaker(Closed, 0, 0.0)
  }

  function OnFailure(b: Breaker, now: real, threshold: nat): Breaker {
    if b.status.HalfOpen? || b.failures + 1 >= threshold
    then Breaker(Open, b.failures + 1, now)
    else b.(failures := b.failures + 1)
  }

  // ---------------------------------------------------------------------------
  // Every interleaving of the three locked sections
  // ---------------------------------------------------------------------------

  datatype Step = BeforeStep(now: real) | SuccessStep | FailureStep(now: real)

  function Apply(b: Breaker, step: Step, threshold: nat, recovery: real): Breaker {
    match step
    case BeforeStep(now) => Before(b, now, recovery).0
    case SuccessStep => OnSuccess(b)
    case FailureStep(now) => OnFailure(b, now, threshold)
  }

  function Run(steps: seq<Step>, threshold: nat, recovery: real): Breaker {
    if steps == [] then FRESH
    else Apply(Run(steps[..|steps| - 1], threshold, recovery), steps[|steps| - 1], threshold, recovery)
  }

  ghost predicate Consistent(b: Breaker, threshold: nat) {
    b.status.Closed? <==> b.failures < threshold
  }

  /** Closed means fewer failures than the threshold, and conversely, however calls interleave. */
  lemma {:induction false} ClosedIffBelowThreshold(steps: seq<Step>, threshold: nat, recovery: real)
    requires threshold >= 1
    ensures Consistent(Run(steps, threshold, recovery), threshold)
  {
    if steps == [] {
    } else {
      ClosedIffBelowThreshold(steps[..|steps| - 1], threshold, recovery);
    }
  }

  /** Failures since the last success, counted on the steps alone. */
  function FailuresSinceSuccess(steps: seq<Step>): nat {
    if steps == [] then 0
    else
      match steps[|steps| - 1]
      case SuccessStep => 0
      case FailureStep(_) => FailuresSinceSuccess(steps[..|steps| - 1]) + 1
      case BeforeStep(_) => FailuresSinceSuccess(steps[..|steps| - 1])
  }

  lemma {:induction false} CountsFailuresInARow(steps: seq<Step>, threshold: nat, recovery: real)
    requires threshold >= 1
    ensures Run(steps, threshold, recovery).failures == FailuresSinceSuccess(steps)
  {
    if steps == [] {
    } else {
      CountsFailuresInARow(steps[..|steps| - 1], threshold, recovery);
    }
  }

  /** The time of the last failure. */
  function LastFailureAt(steps: seq<Step>): real {
    if steps == [] then 0.0
    else
      match steps[|steps| - 1]
      case FailureStep(now) => now
      case SuccessStep => LastFailureAt(steps[..|steps| - 1])
      case BeforeStep(_) => LastFailureAt(steps[..|steps| - 1])
  }

  /** Since the last failure or success a call began at least `recovery` after the last failure. */
  predicate ProbedSince(steps: seq<Step>, recovery: real) {
    if steps == [] then false
    else
      var front := steps[..|steps| - 1];
      match steps[|steps| - 1]
      case FailureStep(_) => false
      case SuccessStep => false
      case BeforeStep(now) => ProbedSince(front, recovery) || now - LastFailureAt(front) >= recovery
  }

  /** Once enough calls failed in a row, the state shows the last failure and whether a probe is out. */
  lemma {:induction false} OpenSinceLastFailure(steps: seq<Step>, threshold: nat, recovery: real)
    requires threshold >= 1 && FailuresSinceSuccess(steps) >= threshold
    ensures var b := Run(steps, threshold, recovery);
            && !b.status.Closed? && b.openedAt == LastFailureAt(steps)
            && (b.status.HalfOpen? <==> ProbedSince(steps, recovery))
  {
    var front := steps[..|steps| - 1];
    CountsFailuresInARow(front, threshold, recovery);
    if steps[|steps| - 1].BeforeStep? {
      OpenSinceLastFailure(front, threshold, recovery);
    }
  }

  /**
   * A call is refused exactly when enough calls failed in a row, the last of them less than the recovery
   * timeout ago, and no call was let through since: all read off the steps.
   */
  lemma BlockedExactlyWhen(steps: seq<Step>, now: real, threshold: nat, recovery: real)
    requires threshold >= 1
    ensures !Before(Run(steps, threshold, recovery), now, recovery).1 <==>
              && FailuresSinceSuccess(steps) >= threshold
              && now - LastFailureAt(steps) < recovery
              && !ProbedSince(steps, recovery)
  {
    ClosedIffBelowThreshold(steps, threshold, recovery);
    CountsFailuresInARow(steps, threshold, recovery);
    if FailuresSinceSuccess(steps) >= threshold {
      OpenSinceLastFailure(steps, threshold, recovery);
    }
  }

  // ---------------------------------------------------------------------------
  // Load on a failing operation
  // ---------------------------------------------------------------------------

  /** One call: the clock at `_before_call` and, if the operation runs, at `_after_failure`. */
  datatype Call = Call(begin: real, finish: real)

  /** Sequential calls, none before `from` and none beginning after `until`. */
  ghost predicate Sequential(calls: seq<Call>, from: real, until: real) {
    calls != [] ==>
      && from <= calls[0].begin <= calls[0].finish
      && calls[0].begin <= until
      && Sequential(calls[1..], calls[0].finish, until)
  }

  /** The number of times an always-failing operation is executed by these calls. */
  function Executed(b: Breaker, calls: seq<Call>, threshold: nat, recovery: real): nat
    decreases |calls|
  {
    if calls == [] then 0
    else
      var (b', admitted) := Before(b, calls[0].begin, recovery);
      if admitted
      then 1 + Executed(OnFailure(b', calls[0].finish, threshold), calls[1..], threshold, recovery)
      else Executed(b', calls[1..], threshold, recovery)
  }

  /** The breaker after these calls. */
  function AfterCalls(b: Breaker, calls: seq<Call>, threshold: nat, recovery: real): Breaker
    decreases |calls|
  {
    if calls == [] then b
    else
      var (b', admitted) := Before(b, calls[0].begin, recovery);
      AfterCalls(if admitted then OnFailure(b', calls[0].finish, threshold) else b', calls[1..], threshold, recovery)
  }

  lemma {:induction false} ExecutedConcat(b: Breaker, a: seq<Call>, c: seq<Call>, threshold: nat, recovery: real)
    ensures Executed(b, a + c, threshold, recovery)
         == Executed(b, a, threshold, recovery)
            + Executed(AfterCalls(b, a, threshold, recovery), c, threshold, recovery)
    ensures AfterCalls(b, a + c, threshold, recovery)
         == AfterCalls(AfterCalls(b, a, threshold, recovery), c, threshold, recovery)
    decreases |a|
  {
    if a == [] {
      assert a + c == c;
    } else {
      assert (a + c)[0] == a[0] && (a + c)[1..] == a[1..] + c;
      var (b', admitted) := Before(b, a[0].begin, recovery);
      ExecutedConcat(if admitted then OnFailure(b', a[0].finish, threshold) else b', a[1..], c, threshold, recovery);
    }
  }

  /** The length of n recovery timeouts. */
  function Timeouts(n: nat, recovery: real): real {
    if n == 0 then 0.0 else recovery + Timeouts(n - 1, recovery)
  }

  lemma {:induction false} TimeoutsProduct(n: nat, recovery: real)
    ensures Timeouts(n, recovery) == n as real * recovery
  {
    if n == 0 {
    } else {
      TimeoutsProduct(n - 1, recovery);
      assert n as real == (n - 1) as real + 1.0;
      assert ((n - 1) as real + 1.0) * recovery == (n - 1) as real * recovery + recovery;
    }
  }

  lemma {:induction false} OpenLoad(b: Breaker, calls: seq<Call>, from: real, until: real, threshold: nat,
                                    recovery: real)
    requires threshold >= 1 && recovery > 0.0
    requires b.status.Open? && b.failures >= threshold && Sequential(calls, from, until)
    ensures var n := Executed(b, calls, threshold, recovery);
            n > 0 ==> b.openedAt + Timeouts(n, recovery) <= until
    decreases |calls|
  {
    if calls == [] {
    } else {
      var c := calls[0];
      var (b', admitted) := Before(b, c.begin, recovery);
      if admitted {
        OpenLoad(OnFailure(b', c.finish, threshold), calls[1..], c.finish, until, threshold, recovery);
      } else {
        OpenLoad(b', calls[1..], c.finish, until, threshold, recovery);
      }
    }
  }

  /** Executions still free before the breaker opens. */
  function Credit(b: Breaker, threshold: nat): nat {
    if b.failures < threshold then threshold - b.failures else 1
  }

  lemma {:induction false} Load(b: Breaker, calls: seq<Call>, from: real, until: real, threshold: nat, recovery: real)
    requires threshold >= 1 && recovery > 0.0
    requires Consistent(b, threshold) && Sequential(calls, from, until)
    ensures var n := Executed(b, calls, threshold, recovery);
            n > Credit(b, threshold) ==> from + Timeouts(n - Credit(b, threshold), recovery) <= until
    decreases |calls|
  {
    if calls == [] {
    } else {
      var c, rest := calls[0], calls[1..];
      var (b', admitted) := Before(b, c.begin, recovery);
      var b'' := OnFailure(b', c.finish, threshold);
      if !admitted {
        Load(b', rest, c.finish, until, threshold, recovery);
      } else if b''.status.Open? {
        assert Credit(b, threshold) == 1;
        OpenLoad(b'', rest, c.finish, until, threshold, recovery);
      } else {
        assert Credit(b, threshold) == 1 + Credit(b'', threshold);
        Load(b'', rest, c.finish, until, threshold, recovery);
      }
    }
  }

  lemma NegativeProduct(x: real, y: real)
    requires x < 0.0 < y
    ensures x * y < 0.0
  {
  }

  /** n timeouts fit in a span exactly when n is at most the floor of their quotient. */
  lemma FloorBound(n: nat, span: real, recovery: real)
    requires recovery > 0.0
    ensures Timeouts(n, recovery) <= span <==> n <= (span / recovery).Floor
  {
    TimeoutsProduct(n, recovery);
    var q := span / recovery;
    assert q * recovery == span;
    var gap := q - n as real;
    assert gap * recovery == span - n as real * recovery by {
      assert (q - n as real) * recovery == q * recovery - n as real * recovery;
    }
    if gap < 0.0 {
      NegativeProduct(gap, recovery);
    } else {
      assert gap * recovery >= 0.0;
    }
  }

  /**
   * From any state a breaker can be in, sequential calls to an operation that always fails execute it
   * at most threshold + floor(span / recovery) times within a time span.
   */
  lemma LoadBound(steps: seq<Step>, calls: seq<Call>, from: real, until: real, threshold: nat, recovery: real)
    requires threshold >= 1 && recovery > 0.0 && from <= until
    requires Sequential(calls, from, until)
    ensures Executed(Run(steps, threshold, recovery), calls, threshold, recovery)
         <= threshold + ((until - from) / recovery).Floor
  {
    var b := Run(steps, threshold, recovery);
    ClosedIffBelowThreshold(steps, threshold, recovery);
    Load(b, calls, from, until, threshold, recovery);
    var n := Executed(b, calls, threshold, recovery);
    if n > Credit(b, threshold) {
      FloorBound(n - Credit(b, threshold), until - from, recovery);
    } else {
      FloorBound(0, until - from, recovery);
    }
  }

  /** Calls at `at`, repeated: `n` at once. */
  function Burst(at: real, n: nat): seq<Call> {
    if n == 0 then [] else [Call(at, at)] + Burst(at, n - 1)
  }

  /** One probe per recovery timeout after `at`. */
  function Probes(at: real, n: nat, recovery: real): seq<Call>
    decreases n
  {
    if n == 0 then [] else [Call(at + recovery, at + recovery)] + Probes(at + recovery, n - 1, recovery)
  }

  lemma {:induction false} ProbesExecute(b: Breaker, at: real, n: nat, until: real, threshold: nat, recovery: real)
    requires threshold >= 1 && recovery > 0.0 && b.status.Open? && b.openedAt == at
    requires at + Timeouts(n, recovery) <= until
    ensures Sequential(Probes(at, n, recovery), at, until)
    ensures Executed(b, Probes(at, n, recovery), threshold, recovery) == n
    decreases n
  {
    if n == 0 {
    } else {
      var next := at + recovery;
      var calls := Probes(at, n, recovery);
      assert calls[1..] == Probes(next, n - 1, recovery);
      TimeoutsAreNotNegative(n - 1, recovery);
      ProbesExecute(OnFailure(b.(status := HalfOpen), next, threshold), next, n - 1, until, threshold, recovery);
    }
  }

  lemma {:induction false} TimeoutsAreNotNegative(n: nat, recovery: real)
    requires recovery > 0.0
    ensures Timeouts(n, recovery) >= 0.0
  {
    if n == 0 {
    } else {
      TimeoutsAreNotNegative(n - 1, recovery);
    }
  }

  lemma {:induction false} BurstExecutes(b: Breaker, at: real, n: nat, k: nat, until: real, threshold: nat,
                                         recovery: real)
    requires recovery > 0.0 && b.status.Closed? && b.failures + n == threshold && n >= 1
    requires at + Timeouts(k, recovery) <= until && at <= until
    ensures Sequential(Burst(at, n) + Probes(at, k, recovery), at, until)
    ensures Executed(b, Burst(at, n) + Probes(at, k, recovery), threshold, recovery) == n + k
    decreases n
  {
    var calls := Burst(at, n) + Probes(at, k, recovery);
    assert calls[0] == Call(at, at);
    assert calls[1..] == Burst(at, n - 1) + Probes(at, k, recovery);
    var b' := OnFailure(b, at, threshold);
    if n == 1 {
      assert calls[1..] == Probes(at, k, recovery);
      ProbesExecute(b', at, k, until, threshold, recovery);
    } else {
      BurstExecutes(b', at, n - 1, k, until, threshold, recovery);
    }
  }

  /** The bound is attained: for every span some schedule of calls executes exactly that many. */
  lemma LoadBoundIsTight(from: real, until: real, threshold: nat, recovery: real) returns (calls: seq<Call>)
    requires threshold >= 1 && recovery > 0.0 && from <= until
    ensures Sequential(calls, from, until)
    ensures Executed(FRESH, calls, threshold, recovery) == threshold + ((until - from) / recovery).Floor
  {
    FloorBound(0, until - from, recovery);
    var k := ((until - from) / recovery).Floor;
    FloorBound(k, until - from, recovery);
    calls := Burst(from, threshold) + Probes(from, k, recovery);
    BurstExecutes(FRESH, from, threshold, k, until, threshold, recovery);
  }

  // ---------------------------------------------------------------------------
  // The breaker object
  // ---------------------------------------------------------------------------

  class CircuitBreaker {
    const failureThreshold: nat
    const recoveryTimeoutSeconds: real
    var status: Status
    var failureCount: nat
    var openedAt: real

    /** Thresholds below one and timeouts below one second are raised to one. */
    constructor (failureThreshold: int, recoveryTimeoutSeconds: real)
      ensures State() == FRESH
      ensures this.failureThreshold as int == (if failureThreshold < 1 then 1 else failureThreshold)
      ensures this.recoveryTimeoutSeconds == if recoveryTimeoutSeconds < 1.0 then 1.0 else recoveryTimeoutSeconds
    {
      this.failureThreshold := if failureThreshold < 1 then 1 else failureThreshold;
      this.recoveryTimeoutSeconds := if recoveryTimeoutSeconds < 1.0 then 1.0 else recoveryTimeoutSeconds;
      status, failureCount, openedAt := Closed, 0, 0.0;
    }

    function State(): Breaker
      reads this
    {
      Breaker(status, failureCount, openedAt)
    }

    /** Returns whether the call may go ahead; otherwise the source raises CircuitBreakerOpenError. */
    method BeforeCall(now: real) returns (admitted: bool)
      modifies this
      ensures (State(), admitted) == Before(old(State()), now, recoveryTimeoutSeconds)
    {
      if status != Open {
        return true;
      }
      var elapsed := now - openedAt;
      if elapsed >= recoveryTimeoutSeconds {
        status := HalfOpen;
        return true;
      }
      return false;
    }

    method AfterSuccess()
      modifies this
      ensures State() == OnSuccess(old(State()))
    {
      status, failureCount, openedAt := Closed, 0, 0.0;
    }

    method AfterFailure(now: real)
      modifies this
      ensures State() == OnFailure(old(State()), now, failureThreshold)
    {
      failureCount := failureCount + 1;
      if status == HalfOpen || failureCount >= failureThreshold {
        status := Open;
        openedAt := now;
      }
    }
  }
}
