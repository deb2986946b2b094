/** Reconnect delays: exponential backoff from the configured interval, capped, with jitter. */
module Backoffs {
  import opened Counters

  const CAP_SECONDS: int := 60

  function Min(a: int, b: int): int {
    if a < b then a else b
  }

  /** The delay after a failed attempt that waited d seconds. */
  function NextDelay(d: int): int {
    Min(d * 2, CAP_SECONDS)
  }

  /** The delay that attempt k of a chain is started with. */
  function DelayAt(base: int, k: nat): int {
    if k == 0 then base else NextDelay(DelayAt(base, k - 1))
  }

  /** Attempt 0 waits the base delay and attempt k the base times 2^k, at most a minute. */
  lemma {:induction false} DelayIsCappedExponential(base: int, k: nat)
    requires k >= 1
    ensures DelayAt(base, 0) == base && DelayAt(base, k) == Min(base * Pow2(k), 60)
  {
    if k > 1 {
      DelayIsCappedExponential(base, k - 1);
      DoubledPower(base, Pow2(k - 1));
    }
  }

  lemma DoubledPower(base: int, p: int)
    ensures base * (2 * p) == 2 * (base * p)
  {
  }

  lemma {:induction false} DelaysStayNonNegative(base: int, k: nat)
    requires base >= 0
    ensures DelayAt(base, k) >= 0
  {
    if k > 0 { DelaysStayNonNegative(base, k - 1); }
  }

  /** The waited milliseconds: a random product between 3/4 and 5/4 of the delay, truncated. */
  function JitteredMs(product: real): int {
    product.Floor
  }

  ghost predicate InJitterRange(ms: int, product: real) {
    ms as real * 0.75 <= product <= ms as real * 1.25
  }

  /** Truncation never takes a wait below three quarters of the delay iff the delay is a multiple of 4 ms. */
  lemma JitterSurvivesTruncation(ms: nat)
    ensures (forall p: real :: InJitterRange(ms, p) ==> 3 * ms <= 4 * JitteredMs(p)) <==> ms % 4 == 0
    ensures forall p: real :: InJitterRange(ms, p) ==> 4 * JitteredMs(p) <= 5 * ms
  {
    var low := ms as real * 0.75;
    assert InJitterRange(ms, low);
    if ms % 4 == 0 {
      forall p: real | InJitterRange(ms, p) ensures 3 * ms <= 4 * JitteredMs(p) {
        assert p >= (3 * (ms / 4)) as real;
      }
    } else {
      assert 4 * JitteredMs(low) != 3 * ms;
      assert 4.0 * low == (3 * ms) as real;
    }
  }

  /** A wait in milliseconds that the jitter allows for a delay in seconds. */
  ghost predicate Jittered(seconds: int, wait: int) {
    exists p: real :: InJitterRange(seconds * 1000, p) && wait == JitteredMs(p)
  }

  /** Delays are whole seconds, so both bounds survive the truncation. */
  lemma JitterOfSeconds(seconds: nat, wait: int)
    requires Jittered(seconds, wait)
    ensures 3 * 1000 * seconds <= 4 * wait <= 5 * 1000 * seconds
  {
    JitterSurvivesTruncation(seconds * 1000);
  }

  function Sum(waits: seq<int>): int {
    if waits == [] then 0 else Sum(waits[..|waits| - 1]) + waits[|waits| - 1]
  }

  /** Waits, in milliseconds, that the jitter allows for the delays of one chain's first attempts. */
  ghost predicate ChainWaits(base: int, waits: seq<int>) {
    forall k :: 0 <= k < |waits| ==> Jittered(DelayAt(base, k), waits[k])
  }

  /** n >= 1 attempts wait at most 5/4 of the base delay plus a minute for each attempt after the first. */
  lemma {:induction false} TotalWaitIsBounded(base: int, waits: seq<int>)
    requires base >= 0 && waits != [] && ChainWaits(base, waits)
    ensures 4 * Sum(waits) <= 5 * 1000 * (base + 60 * (|waits| - 1))
  {
    var k := |waits| - 1;
    DelaysStayNonNegative(base, k);
    JitterOfSeconds(DelayAt(base, k), waits[k]);
    if k > 0 { TotalWaitIsBounded(base, waits[..k]); }
  }
}
