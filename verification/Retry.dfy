/** `write_with_retry`: bounded attempts with exponential backoff (src/sink/mod.rs, src/config.rs). */
module Retry {
  import opened Wrappers

  datatype Settings = Settings(maxConcurrentWrites: nat, maxAttempts: nat, initialBackoff: nat, maxBackoff: nat)

  function AtLeastOne(n: nat): nat { if n < 1 then 1 else n }

  function Min(a: nat, b: nat): (r: nat)
    ensures r <= a && r <= b && (r == a || r == b)
  {
    if a < b then a else b
  }

  /** The configured values with both counts raised to at least one. */
  function RuntimeSettings(concurrent: nat, attempts: nat, initialMs: nat, maxMs: nat): (s: Settings)
    ensures s.maxConcurrentWrites >= 1 && s.maxAttempts >= 1
    ensures concurrent >= 1 ==> s.maxConcurrentWrites == concurrent
    ensures attempts >= 1 ==> s.maxAttempts == attempts
    ensures s.initialBackoff == initialMs && s.maxBackoff == maxMs
  {
    Settings(AtLeastOne(concurrent), AtLeastOne(attempts), initialMs, maxMs)
  }

  function Pow2(n: nat): nat {
    if n == 0 then 1 else 2 * Pow2(n - 1)
  }

  /** The wait after failed attempt `k`, in closed form. */
  function Backoff(s: Settings, k: nat): nat
    requires k >= 1
  {
    if k == 1 then s.initialBackoff else Min(s.initialBackoff * Pow2(k - 1), s.maxBackoff)
  }

  lemma BackoffDoubles(s: Settings, k: nat)
    requires k >= 1
    ensures Min(2 * Backoff(s, k), s.maxBackoff) == Backoff(s, k + 1)
  {
    var scaled := s.initialBackoff * Pow2(k - 1);
    assert s.initialBackoff * Pow2(k) == 2 * scaled;
    if k == 1 {
      assert Pow2(0) == 1 && scaled == s.initialBackoff;
    }
  }

  /** Under a validated configuration the closed form needs no special case for the first wait. */
  lemma BackoffValidated(s: Settings, k: nat)
    requires k >= 1 && s.initialBackoff <= s.maxBackoff
    ensures Backoff(s, k) == Min(s.initialBackoff * Pow2(k - 1), s.maxBackoff)
    ensures Backoff(s, k) <= s.maxBackoff
  {
    if k == 1 {
      assert s.initialBackoff * Pow2(0) == s.initialBackoff;
    }
  }

  function Sum(xs: seq<nat>): nat {
    if xs == [] then 0 else Sum(xs[..|xs| - 1]) + xs[|xs| - 1]
  }

  lemma SumPush(xs: seq<nat>, x: nat)
    ensures Sum([]) == 0 && Sum(xs + [x]) == Sum(xs) + x
  {
    assert (xs + [x])[..|xs|] == xs;
  }

  lemma {:induction false} SumBound(xs: seq<nat>, bound: nat)
    requires forall i :: 0 <= i < |xs| ==> xs[i] <= bound
    ensures Sum(xs) <= |xs| * bound
  {
    if xs == [] {
    } else {
      SumBound(xs[..|xs| - 1], bound);
      assert |xs| * bound == (|xs| - 1) * bound + bound;
    }
  }

  /**
   * `attempts(k)` is what the sink answers on attempt `k`. The first success within the limit
   * is returned; otherwise the error of the last attempt. `made` counts attempts, `waits` lists
   * the sleeps, `retries` and `writeErrors` are the counter increments.
   */
  method WriteWithRetry<T, E>(attempts: nat -> Result<T, E>, s: Settings)
    returns (r: Result<T, E>, made: nat, waits: seq<nat>, retries: nat, writeErrors: nat)
    requires s.maxAttempts >= 1
    ensures 1 <= made <= s.maxAttempts
    ensures r == attempts(made)
    ensures forall k :: 1 <= k < made ==> attempts(k).Err?
    ensures r.Err? ==> made == s.maxAttempts
    ensures retries == made - 1 && writeErrors == if r.Err? then 1 else 0
    ensures |waits| == made - 1 && forall k :: 1 <= k < made ==> waits[k - 1] == Backoff(s, k)
    ensures s.initialBackoff <= s.maxBackoff ==> Sum(waits) <= (made - 1) * s.maxBackoff
  {
    var backoff := s.initialBackoff;
    waits, retries, writeErrors := [], 0, 0;
    made := 1;
    while made <= s.maxAttempts
      invariant 1 <= made <= s.maxAttempts
      invariant forall k :: 1 <= k < made ==> attempts(k).Err?
      invariant backoff == Backoff(s, made)
      invariant retries == made - 1 && writeErrors == 0
      invariant |waits| == made - 1 && forall i :: 0 <= i < made - 1 ==> waits[i] == Backoff(s, i + 1)
      decreases s.maxAttempts - made
    {
      r := attempts(made);
      if r.Ok? || made == s.maxAttempts {
        writeErrors := if r.Err? then 1 else 0;
        if s.initialBackoff <= s.maxBackoff {
          forall i | 0 <= i < |waits| ensures waits[i] <= s.maxBackoff {
            BackoffValidated(s, i + 1);
          }
          SumBound(waits, s.maxBackoff);
        }
        return;
      }
      retries := retries + 1;
      waits := waits + [backoff];
      BackoffDoubles(s, made);
      backoff := Min(backoff * 2, s.maxBackoff);
      made := made + 1;
    }
  }
}
