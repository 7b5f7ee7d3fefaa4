/** Doubling delays in 64-bit durations: the retry policy of provider events and the idle
    time of a background loop (internal/companyfund/provider_event_worker_types.go,
    internal/adaptiveschedule/loop.go). */
module Backoff {
  import opened Wrappers

  /** time.Duration: nanoseconds in an int64. Arithmetic that would leave the range does not
      verify, so every operation below is free of wrap-around. */
  newtype Duration = x: int | -0x8000_0000_0000_0000 <= x < 0x8000_0000_0000_0000

  function Pow2(n: nat): (p: nat)
    ensures p >= 1
  {
    if n == 0 then 1 else 2 * Pow2(n - 1)
  }

  function Min(a: int, b: int): int {
    if a <= b then a else b
  }

  // ---- ProviderEventRetryPolicy.Delay ----------------------------------------------------

  datatype RetryPolicy = RetryPolicy(initial: Duration, max: Duration)

  datatype PolicyError = BadInitial | BadMax | BadAttempt

  function PolicyProblem(p: RetryPolicy): Option<PolicyError> {
    if p.initial <= 0 || p.initial / 1000 <= 0 then Some(BadInitial)
    else if p.max <= 0 || p.max < p.initial then Some(BadMax)
    else None
  }

  /** The initial delay is at least a microsecond, the maximum no smaller than it. */
  lemma PoliciesExactly(p: RetryPolicy)
    ensures PolicyProblem(p) == None <==> 1000 <= p.initial <= p.max
    ensures PolicyProblem(p) == Some(BadInitial) <==> p.initial < 1000
    ensures PolicyProblem(p) == Some(BadMax) <==> 1000 <= p.initial && p.max < p.initial
  {
  }

  /** The smaller of two numbers. */
  lemma MinIsLeast(a: int, b: int)
    ensures Min(a, b) in {a, b} && Min(a, b) <= a && Min(a, b) <= b
  {
  }

  lemma DoubledPow(initial: int, n: nat)
    ensures initial * Pow2(n + 1) == 2 * (initial * Pow2(n))
  {
  }

  lemma {:induction false} PowGrows(initial: int, m: nat, n: nat)
    requires initial > 0 && m <= n
    ensures initial * Pow2(m) <= initial * Pow2(n)
  {
    if m < n {
      PowGrows(initial, m, n - 1);
      DoubledPow(initial, n - 1);
    }
  }

  /** The n-th attempt waits the initial delay doubled n-1 times, capped at the maximum. */
  method Delay(p: RetryPolicy, attempt: Duration) returns (r: Result<Duration, PolicyError>)
    ensures match PolicyProblem(p)
            case Some(e) => r == Err(e)
            case None =>
              if attempt <= 0 then r == Err(BadAttempt)
              else r.Ok? && r.value as int == Min(p.initial as int * Pow2(attempt as int - 1), p.max as int)
  {
    var problem := PolicyProblem(p);
    if problem.Some? { return Err(problem.value); }
    if attempt <= 0 { return Err(BadAttempt); }
    var delay := p.initial;
    var retry: Duration := 1;
    while retry < attempt && delay < p.max
      invariant 1 <= retry <= attempt && 0 < delay <= p.max
      invariant delay as int == p.initial as int * Pow2(retry as int - 1)
      decreases attempt as int - retry as int
    {
      DoubledPow(p.initial as int, retry as int - 1);
      if delay > p.max / 2 {
        PowGrows(p.initial as int, retry as int, attempt as int - 1);
        return Ok(p.max);
      }
      delay := delay * 2;
      retry := retry + 1;
    }
    PowGrows(p.initial as int, retry as int - 1, attempt as int - 1);
    if delay > p.max {
      return Ok(p.max);
    }
    return Ok(delay);
  }

  // ---- nextIdle --------------------------------------------------------------------------

  function NextIdle(current: Duration, minIdle: Duration, maxIdle: Duration): (next: Duration)
    requires 0 < minIdle <= maxIdle
    ensures minIdle <= next <= maxIdle
    ensures minIdle <= current ==> next as int == Min(2 * current as int, maxIdle as int)
  {
    if current < minIdle then minIdle
    else if current >= maxIdle then maxIdle
    else if current > maxIdle / 2 then maxIdle
    else
      var next := current * 2;
      if next < minIdle then minIdle else if next > maxIdle then maxIdle else next
  }

  /** The idle time after `n` empty cycles in a row, the first of which starts the backoff. */
  function IdleAfter(n: nat, minIdle: Duration, maxIdle: Duration): Duration
    requires 0 < minIdle <= maxIdle
  {
    if n == 0 then minIdle else NextIdle(IdleAfter(n - 1, minIdle, maxIdle), minIdle, maxIdle)
  }

  /** Progressive idle is MinIdle doubled once per empty cycle, capped at MaxIdle. */
  lemma {:induction false} IdleClosedForm(n: nat, minIdle: Duration, maxIdle: Duration)
    requires 0 < minIdle <= maxIdle
    ensures minIdle <= IdleAfter(n, minIdle, maxIdle) <= maxIdle
    ensures IdleAfter(n, minIdle, maxIdle) as int == Min(minIdle as int * Pow2(n), maxIdle as int)
  {
    if n > 0 {
      IdleClosedForm(n - 1, minIdle, maxIdle);
      DoubledPow(minIdle as int, n - 1);
    }
  }
}
