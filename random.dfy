/** `Math.random()` and the exponential backoff both retry loops compute from it. */
module Random {

  /** A source of `Math.random()` draws: `rand(k)` is the k-th draw of the loop
      that uses it, a value in [0, 1). */
  ghost predicate Draws(rand: nat -> real) {
    forall k :: 0.0 <= rand(k) < 1.0
  }

  function Pow2(k: nat): (r: nat)
    ensures r >= 1
  {
    if k == 0 then 1 else 2 * Pow2(k - 1)
  }

  /** `baseMs * Math.pow(2, k)`, computed by doubling so that the proofs about
      the waits stay linear. */
  function Doubled(baseMs: nat, k: nat): (r: nat)
    ensures r >= baseMs
  {
    if k == 0 then baseMs else 2 * Doubled(baseMs, k - 1)
  }

  /** Doubling k times is multiplying by 2^k. */
  lemma {:induction false} DoubledIsPower(baseMs: nat, k: nat)
    ensures Doubled(baseMs, k) == baseMs * Pow2(k)
  {
    if k > 0 {
      DoubledIsPower(baseMs, k - 1);
      calc {
        Doubled(baseMs, k);
        2 * (baseMs * Pow2(k - 1));
        { assert 2 * (baseMs * Pow2(k - 1)) == baseMs * (2 * Pow2(k - 1)); }
        baseMs * Pow2(k);
      }
    }
  }

  /** `baseMs * Math.pow(2, attempt) + Math.random() * 500`. */
  function BackoffDelay(baseMs: nat, attempt: nat, draw: real): (d: real)
    requires 0.0 <= draw < 1.0
    ensures Doubled(baseMs, attempt) as real <= d < Doubled(baseMs, attempt) as real + 500.0
  {
    Doubled(baseMs, attempt) as real + draw * 500.0
  }

  /** The waits before retries 1..n: the k-th uses the k-th draw. */
  function Schedule(baseMs: nat, n: nat, rand: nat -> real): (r: seq<real>)
    requires Draws(rand)
    ensures |r| == n
    ensures forall k :: 0 <= k < n ==> r[k] == BackoffDelay(baseMs, k, rand(k))
  {
    if n == 0 then [] else Schedule(baseMs, n - 1, rand) + [BackoffDelay(baseMs, n - 1, rand(n - 1))]
  }

  function Sum(xs: seq<real>): real {
    if xs == [] then 0.0 else Sum(xs[..|xs| - 1]) + xs[|xs| - 1]
  }

  /** The total wait over n retries lies in [base * (2^n - 1), base * (2^n - 1) + 500n). */
  lemma {:induction false} ScheduleTotal(baseMs: nat, n: nat, rand: nat -> real)
    requires Draws(rand)
    ensures (Doubled(baseMs, n) - baseMs) as real <= Sum(Schedule(baseMs, n, rand))
    ensures n > 0 ==> Sum(Schedule(baseMs, n, rand)) < (Doubled(baseMs, n) - baseMs) as real + 500.0 * n as real
  {
    if n > 0 {
      var s := Schedule(baseMs, n, rand);
      var prev := Schedule(baseMs, n - 1, rand);
      ScheduleTotal(baseMs, n - 1, rand);
      assert s[..n - 1] == prev;
      assert Sum(s) == Sum(prev) + s[n - 1];
    }
  }
}
