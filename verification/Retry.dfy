/** The loop of `retry_on_rpc_failure`: attempts, back-off and the two ways of giving up. */
module Retry {
  import opened Prelude

  datatype StatusCode =
    | CANCELLED | UNKNOWN | INVALID_ARGUMENT | DEADLINE_EXCEEDED | NOT_FOUND | ALREADY_EXISTS | PERMISSION_DENIED
    | RESOURCE_EXHAUSTED | FAILED_PRECONDITION | ABORTED | OUT_OF_RANGE | UNIMPLEMENTED | INTERNAL | UNAVAILABLE
    | DATA_LOSS | UNAUTHENTICATED

  predicate IgnoreRetry(c: StatusCode)
  {
    c.DEADLINE_EXCEEDED? || c.PERMISSION_DENIED? || c.UNAUTHENTICATED? || c.INVALID_ARGUMENT? || c.ALREADY_EXISTS?
    || c.RESOURCE_EXHAUSTED? || c.UNIMPLEMENTED?
  }

  const RATE_LIMIT := 8
  const COMPATIBLE_RATE_LIMIT := 49

  /** What one call of the wrapped function does. */
  datatype Outcome =
    | Returned(value: int)
    | RpcFailure(status: StatusCode)
    | MilvusFailure(code: int, compatibleCode: int)
    | OtherFailure

  /** What the loop does in the end: return, re-raise, or raise the "retry run out" exception. */
  datatype Verdict = Done(value: int) | ReRaised(cause: Outcome) | GaveUp(cause: Outcome)

  /** Decorator and call arguments, and the environment: the outcome of each call and the clock reading
      after it. */
  datatype Setup = Setup(
    retryTimes: int, initialBackOff: real, maxBackOff: real, multiplier: real,
    timeout: Option<real>, callRetryTimes: Option<int>, retryOnRateLimit: bool,
    outcome: nat -> Outcome, startTime: real, now: nat -> real) {

    function FinalRetryTimes(): int
    {
      if callRetryTimes.Some? then callRetryTimes.value else retryTimes
    }

    predicate TimedOut(i: nat)
    {
      if timeout.Some? then now(i) - startTime >= timeout.value else i + 1 > FinalRetryTimes()
    }

    /** Worth another call, if there is time. */
    predicate Retryable(o: Outcome)
    {
      match o
      case RpcFailure(status) => !IgnoreRetry(status)
      case MilvusFailure(code, compatible) => retryOnRateLimit && (code == RATE_LIMIT || compatible == COMPATIBLE_RATE_LIMIT)
      case _ => false
    }

    /** Call `i` is the last one. */
    predicate Stops(i: nat) { !Retryable(outcome(i)) || TimedOut(i) }

    function NextBackOff(b: real): real { MinReal(Times(b, multiplier), maxBackOff) }

    function BackOff(k: nat): real
    {
      if k == 0 then initialBackOff else NextBackOff(BackOff(k - 1))
    }

    /** The clock never goes back, and a sleep lasts at least its back-off. */
    ghost predicate ClockAdvances()
    {
      && now(0) >= startTime
      && forall i: nat :: now(i + 1) >= now(i) + BackOff(i)
    }

    /** What makes the loop finite: a retry count, or a clock and back-offs that do not shrink. */
    ghost predicate Finite()
    {
      timeout.Some? ==> ClockAdvances() && 0.0 < initialBackOff <= maxBackOff && multiplier >= 1.0
    }

    /** The largest number of calls. */
    function Bound(): nat
      requires timeout.Some? ==> initialBackOff > 0.0
    {
      if timeout.Some? then Max(0, Ceiling(timeout.value / initialBackOff)) + 1 else Max(FinalRetryTimes(), 0) + 1
    }
  }

  function MinReal(a: real, b: real): real { if a <= b then a else b }

  function Times(a: real, b: real): real { a * b }

  function Ceiling(x: real): int { -((-x).Floor) }

  function Pow(b: real, k: nat): real { if k == 0 then 1.0 else Times(Pow(b, k - 1), b) }

  const NEVER_RETRIED := {DEADLINE_EXCEEDED, PERMISSION_DENIED, UNAUTHENTICATED, INVALID_ARGUMENT, ALREADY_EXISTS,
                          RESOURCE_EXHAUSTED, UNIMPLEMENTED}

  /** The timeout has passed after `calls` calls; without one, the call's retries, or the decorator's if the
      call names none, are used up. */
  predicate Late(s: Setup, calls: nat)
    requires calls >= 1
  {
    if s.timeout.Some? then s.now(calls - 1) >= s.startTime + s.timeout.value
    else calls > if s.callRetryTimes.Some? then s.callRetryTimes.value else s.retryTimes
  }

  /** A call is the last one when time or retries are over after it, or when it returned, or when its failure
      is not one of the two kinds that are retried. */
  lemma StopsIff(s: Setup, i: nat)
    ensures s.Stops(i) <==>
            var o := s.outcome(i);
            || Late(s, i + 1) || o.Returned? || o.OtherFailure?
            || (o.RpcFailure? && o.status in NEVER_RETRIED)
            || (o.MilvusFailure? && !(s.retryOnRateLimit && (o.code == 8 || o.compatibleCode == 49)))
  {
  }

  /** The retry loop. It makes exactly the calls up to the first one that stops it, and sleeps the
      back-off sequence in between. */
  method Handler(s: Setup) returns (r: Verdict, calls: nat, sleeps: seq<real>)
    requires s.Finite()
    ensures calls >= 1 && s.Stops(calls - 1) && forall i: nat | i < calls - 1 :: !s.Stops(i)
    ensures |sleeps| == calls - 1 && forall k | 0 <= k < |sleeps| :: sleeps[k] == s.BackOff(k)
    ensures var o := s.outcome(calls - 1);
            && (if o.Returned? then r == Done(o.value) else !r.Done? && r.cause == o)
            && (r.GaveUp? <==> (o.RpcFailure? && o.status !in NEVER_RETRIED) || (o.MilvusFailure? && Late(s, calls)))
  {
    var counter := 1;
    var backOff := s.initialBackOff;
    sleeps := [];
    ghost var last := SomeCallStops(s);
    while true
      invariant 1 <= counter <= last + 1
      invariant forall i: nat | i < counter - 1 :: !s.Stops(i)
      invariant backOff == s.BackOff(counter - 1)
      invariant |sleeps| == counter - 1 && forall k | 0 <= k < |sleeps| :: sleeps[k] == s.BackOff(k)
      decreases last + 1 - counter
    {
      calls := counter;
      var o := s.outcome(counter - 1);
      var timedOut := if s.timeout.Some? then s.now(counter - 1) - s.startTime >= s.timeout.value else counter > s.FinalRetryTimes();
      match o {
        case Returned(v) =>
          return Done(v), calls, sleeps;
        case RpcFailure(status) =>
          if IgnoreRetry(status) {
            return ReRaised(o), calls, sleeps;
          }
          if timedOut {
            return GaveUp(o), calls, sleeps;
          }
        case MilvusFailure(code, compatible) =>
          if timedOut {
            return GaveUp(o), calls, sleeps;
          }
          if !(s.retryOnRateLimit && (code == RATE_LIMIT || compatible == COMPATIBLE_RATE_LIMIT)) {
            return ReRaised(o), calls, sleeps;
          }
        case OtherFailure =>
          return ReRaised(o), calls, sleeps;
      }
      sleeps := sleeps + [backOff];
      backOff := s.NextBackOff(backOff);
      counter := counter + 1;
    }
  }

  // ---- Attempt bounds.

  lemma {:induction false} BackOffAtLeastInitial(s: Setup, k: nat)
    requires 0.0 < s.initialBackOff <= s.maxBackOff && s.multiplier >= 1.0
    ensures s.BackOff(k) >= s.initialBackOff
  {
    if k > 0 {
      BackOffAtLeastInitial(s, k - 1);
      Grows(s.BackOff(k - 1), s.multiplier);
    }
  }

  lemma Grows(x: real, m: real)
    requires x >= 0.0 && m >= 1.0
    ensures Times(x, m) >= x
  {
  }

  lemma {:induction false} ElapsedAtLeast(s: Setup, k: nat)
    requires s.Finite() && s.timeout.Some?
    ensures s.now(k) - s.startTime >= Times(k as real, s.initialBackOff)
  {
    if k > 0 {
      ElapsedAtLeast(s, k - 1);
      BackOffAtLeastInitial(s, k - 1);
      var j: nat := k - 1;
      assert j + 1 == k;
      assert s.now(j + 1) >= s.now(j) + s.BackOff(j);
      OneMore(j as real, s.initialBackOff);
      assert j as real + 1.0 == k as real;
      assert Times(k as real, s.initialBackOff) == Times(j as real, s.initialBackOff) + s.initialBackOff;
    } else {
      assert Times(0.0, s.initialBackOff) == 0.0;
    }
  }

  lemma OneMore(a: real, b: real)
    ensures Times(a + 1.0, b) == Times(a, b) + b
  {
  }

  lemma CeilingCovers(t: real, step: real)
    requires step > 0.0
    ensures Times(Max(0, Ceiling(t / step)) as real, step) >= t
  {
    var q := t / step;
    var c := Max(0, Ceiling(q));
    assert c as real >= q;
    assert c as real * step >= q * step;
    assert q * step == t;
  }

  /** The loop never gets past its bound: the last admissible call times out. */
  lemma BoundStops(s: Setup)
    requires s.Finite()
    ensures s.Stops(s.Bound() - 1)
  {
    if s.timeout.Some? {
      ElapsedAtLeast(s, s.Bound() - 1);
      CeilingCovers(s.timeout.value, s.initialBackOff);
    }
  }

  lemma SomeCallStops(s: Setup) returns (last: nat)
    requires s.Finite()
    ensures s.Stops(last)
  {
    BoundStops(s);
    last := s.Bound() - 1;
  }

  /** With a retry count N there are at most max(N, 0) + 1 calls; with a timeout T, at most
      max(0, ceiling(T / initial)) + 1. */
  lemma CallsBounded(s: Setup, calls: nat)
    requires s.Finite() && calls >= 1
    requires s.Stops(calls - 1) && forall i: nat | i < calls - 1 :: !s.Stops(i)
    ensures s.timeout.None? ==> calls <= Max(s.FinalRetryTimes(), 0) + 1
    ensures s.timeout.Some? ==> calls <= Max(0, Ceiling(s.timeout.value / s.initialBackOff)) + 1
    ensures calls <= s.Bound()
  {
    BoundStops(s);
    var last := s.Bound() - 1;
    assert !(last < calls - 1);
  }

  /** Without a timeout, when every call fails retryably, the loop makes exactly max(N, 0) + 1 calls; in
      general it makes fewer exactly when some earlier call is not retryable. */
  lemma CallsExact(s: Setup, calls: nat)
    requires s.timeout.None? && calls >= 1
    requires s.Stops(calls - 1) && forall i: nat | i < calls - 1 :: !s.Stops(i)
    ensures calls <= Max(s.FinalRetryTimes(), 0) + 1
    ensures calls < Max(s.FinalRetryTimes(), 0) + 1 <==>
            exists i: nat :: i < Max(s.FinalRetryTimes(), 0) && !s.Retryable(s.outcome(i))
  {
    var last := Max(s.FinalRetryTimes(), 0);
    assert s.Stops(last);
    if calls < last + 1 {
      assert !s.Retryable(s.outcome(calls - 1));
    }
    if i: nat :| i < last && !s.Retryable(s.outcome(i)) {
      assert s.Stops(i);
    }
  }

  // ---- Back-off.

  lemma {:induction false} PowAtLeastOne(b: real, k: nat)
    requires b >= 1.0
    ensures Pow(b, k) >= 1.0
  {
    if k > 0 {
      PowAtLeastOne(b, k - 1);
      Grows(Pow(b, k - 1), b);
    }
  }

  predicate ClosedForm(s: Setup, k: nat)
  {
    s.BackOff(k) == MinReal(Times(s.initialBackOff, Pow(s.multiplier, k)), s.maxBackOff)
  }

  /** Cutting at the maximum before or after a multiplication makes no difference. */
  lemma CutOnce(x: real, m: real, most: real)
    requires x >= 0.0 && m >= 1.0 && most >= 0.0
    ensures MinReal(Times(MinReal(x, most), m), most) == MinReal(Times(x, m), most)
  {
    if x > most {
      Grows(most, m);
      Grows(x, m);
    }
  }

  lemma Associate(a: real, p: real, m: real)
    ensures Times(a, Times(p, m)) == Times(Times(a, p), m)
  {
  }

  lemma {:induction false} BackOffClosedForm(s: Setup, k: nat)
    requires 0.0 <= s.initialBackOff <= s.maxBackOff && s.multiplier >= 1.0
    ensures ClosedForm(s, k)
  {
    if k > 0 {
      BackOffClosedForm(s, k - 1);
      PowAtLeastOne(s.multiplier, k - 1);
      var p := Pow(s.multiplier, k - 1);
      Associate(s.initialBackOff, p, s.multiplier);
      Grows(s.initialBackOff, p);
      CutOnce(Times(s.initialBackOff, p), s.multiplier, s.maxBackOff);
    }
  }

  /** Sleep `k` is min(initial * multiplier^k, max) for every `k` exactly when the initial back-off is
      not above the maximum: the first sleep is never cut. */
  lemma BackOffClosedFormIff(s: Setup)
    requires 0.0 <= s.initialBackOff && s.multiplier >= 1.0 && 0.0 <= s.maxBackOff
    ensures (forall k: nat :: ClosedForm(s, k)) <==> s.initialBackOff <= s.maxBackOff
  {
    if s.initialBackOff <= s.maxBackOff {
      forall k: nat ensures ClosedForm(s, k) {
        BackOffClosedForm(s, k);
      }
    } else {
      assert !ClosedForm(s, 0);
    }
  }
}
