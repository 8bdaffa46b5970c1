// Bounded retry with doubling backoff (packages/core/src/utils/retry.ts).

module Retry {

  // What one call of the retried function did.
  datatype Attempt<+T, +E> = Ok(value: T) | Fail(error: E)

  // How the whole retry ended. Exhausted is the throw after the loop, reached
  // only when no attempt was allowed at all.
  datatype Result<+T, +E> = Success(value: T) | Thrown(error: E) | Exhausted

  function Pow2(n: nat): (p: nat)
    ensures p >= 1
  {
    if n == 0 then 1 else 2 * Pow2(n - 1)
  }

  function Sum(s: seq<int>): int {
    if s == [] then 0 else Sum(s[..|s| - 1]) + s[|s| - 1]
  }

  /** The waits before the second, third, ... call. */
  function Backoffs(base: int, n: nat): (w: seq<int>)
    ensures |w| == n
  {
    seq(n, i requires 0 <= i < n => base * Pow2(i))
  }

  /** Runs `fn` until it succeeds or the attempts are used up. `fn(k)` is the outcome of call k;
      `calls` counts the calls made and `waits` lists the delays slept between them. */
  method Retry<T, E>(fn: nat -> Attempt<T, E>, attempts: int, delay: int)
    returns (r: Result<T, E>, calls: nat, waits: seq<int>)
    ensures r.Success? <==> exists k: nat :: k < attempts && fn(k).Ok?
    ensures r.Success? ==> 0 < calls <= attempts && fn(calls - 1) == Ok(r.value)
                           && forall k: nat :: k < calls - 1 ==> fn(k).Fail?
    ensures r.Thrown? ==> calls == attempts > 0 && fn(calls - 1) == Fail(r.error)
    ensures r.Exhausted? <==> attempts <= 0
    ensures r.Exhausted? ==> calls == 0
    ensures waits == Backoffs(delay, if calls == 0 then 0 else calls - 1)
  {
    calls, waits := 0, [];
    var attempt: nat := 0;
    while attempt < attempts
      invariant calls == attempt && (0 < attempts ==> attempt < attempts) && (attempts <= 0 ==> attempt == 0)
      invariant forall k: nat :: k < attempt ==> fn(k).Fail?
      invariant waits == Backoffs(delay, attempt)
      decreases attempts - attempt
    {
      var outcome := fn(attempt);
      calls := calls + 1;
      if outcome.Ok? {
        return Success(outcome.value), calls, waits;
      }
      if attempt == attempts - 1 {
        return Thrown(outcome.error), calls, waits;
      }
      waits := waits + [delay * Pow2(attempt)];
      attempt := attempt + 1;
    }
    r := Exhausted;
  }

  lemma Double(base: int, p: int)
    ensures base * (p - 1) + base * p == base * (2 * p - 1)
  {
  }

  lemma SumSnoc(s: seq<int>, x: int)
    ensures Sum(s + [x]) == Sum(s) + x
  {
    assert (s + [x])[..|s|] == s;
  }

  /** A call that is retried n times waits base * (2^n - 1) in all. */
  lemma {:induction false} TotalBackoff(base: int, n: nat)
    ensures Sum(Backoffs(base, n)) == base * (Pow2(n) - 1)
  {
    if n > 0 {
      TotalBackoff(base, n - 1);
      assert Backoffs(base, n) == Backoffs(base, n - 1) + [base * Pow2(n - 1)];
      SumSnoc(Backoffs(base, n - 1), base * Pow2(n - 1));
      Double(base, Pow2(n - 1));
    }
  }
}
