/** Converting clock ticks to nanoseconds in 64-bit arithmetic. */
module Clock {
  import opened Counters

  const NANOS: int := 1_000_000_000

  predicate FitsInt64(n: int) {
    -0x8000_0000_0000_0000 <= n < 0x8000_0000_0000_0000
  }

  /** Division that truncates toward zero, and its remainder, which takes the dividend's sign. */
  function Quot(a: int, b: int): int
    requires b > 0
  {
    if a >= 0 then a / b else -(-a / b)
  }

  function Rem(a: int, b: int): int
    requires b > 0
  {
    a - Quot(a, b) * b
  }

  function TicksToNs(ticks: int, freq: int): int
    requires freq > 0
  {
    Quot(ticks, freq) * NANOS + Quot(Rem(ticks, freq) * NANOS, freq)
  }

  /** What the conversion stands for: the wide product, divided once. */
  function ExactNs(ticks: int, freq: int): int
    requires freq > 0
  {
    Quot(ticks * NANOS, freq)
  }

  /** No value that the expression computes on the way leaves the 64-bit range. */
  predicate NoOverflow(ticks: int, freq: int)
    requires freq > 0
  {
    && FitsInt64(Quot(ticks, freq)) && FitsInt64(Rem(ticks, freq))
    && FitsInt64(Quot(ticks, freq) * NANOS) && FitsInt64(Rem(ticks, freq) * NANOS)
    && FitsInt64(Quot(Rem(ticks, freq) * NANOS, freq)) && FitsInt64(TicksToNs(ticks, freq))
  }

  /** The largest frequency for which every remainder can be scaled. */
  const MAX_FREQ: int := 9_223_372_037

  lemma QuotNegates(a: int, b: int)
    requires b > 0
    ensures Quot(-a, b) == -Quot(a, b) && Rem(-a, b) == -Rem(a, b)
  {
    assert (-Quot(a, b)) * b == -(Quot(a, b) * b);
  }

  lemma SplitOfNonNegative(ticks: nat, freq: nat)
    requires freq > 0
    ensures 0 <= Rem(ticks, freq) < freq && Quot(ticks, freq) >= 0
    ensures TicksToNs(ticks, freq) == ExactNs(ticks, freq)
  {
    var q, r := ticks / freq, ticks % freq;
    assert Rem(ticks, freq) == r by { assert ticks == q * freq + r; }
    var q', r' := r * NANOS / freq, r * NANOS % freq;
    assert ticks * NANOS == (q * NANOS + q') * freq + r' by {
      assert r * NANOS == q' * freq + r';
      assert (q * NANOS + q') * freq == (q * freq) * NANOS + q' * freq;
    }
    ModuloUnique(ticks * NANOS, freq, q * NANOS + q', r');
  }

  /** Splitting off whole seconds changes nothing, for negative ticks as well. */
  lemma SplitIsExact(ticks: int, freq: int)
    requires freq > 0
    ensures TicksToNs(ticks, freq) == ExactNs(ticks, freq)
    ensures -freq < Rem(ticks, freq) < freq
  {
    if ticks >= 0 {
      SplitOfNonNegative(ticks, freq);
    } else {
      SplitOfNonNegative(-ticks, freq);
      QuotNegates(-ticks, freq);
      QuotNegates(Rem(-ticks, freq) * NANOS, freq);
      QuotNegates(-ticks * NANOS, freq);
    }
  }

  /** The quotient is truncated toward zero: what is left over is less than the divisor and has the dividend's sign. */
  lemma QuotTruncates(a: int, b: int)
    requires b > 0
    ensures a >= 0 ==> 0 <= a - Quot(a, b) * b < b
    ensures a <= 0 ==> -b < a - Quot(a, b) * b <= 0
  {
    if a >= 0 {
      assert a == a / b * b + a % b;
    } else {
      assert -a == -a / b * b + -a % b;
      assert Quot(a, b) * b == -(-a / b * b);
    }
  }

  /** The result is the exact number of nanoseconds, truncated toward zero. */
  lemma ConversionTruncates(ticks: int, freq: int)
    requires freq > 0
    ensures ticks >= 0 ==> 0 <= ticks * 1_000_000_000 - TicksToNs(ticks, freq) * freq < freq
    ensures ticks <= 0 ==> -freq < ticks * 1_000_000_000 - TicksToNs(ticks, freq) * freq <= 0
  {
    SplitIsExact(ticks, freq);
    QuotTruncates(ticks * NANOS, freq);
  }

  lemma MultiplesAreOrdered(x: int, y: int, d: int)
    requires d > 0
    ensures x < y ==> x * d + d <= y * d
  {
    if x < y { MultipleIsFar(y - x, d); }
  }

  lemma QuotBound(a: nat, b: nat, bound: nat)
    requires b > 0 && a <= bound * b
    ensures 0 <= Quot(a, b) <= bound
  {
    assert a / b * b <= a;
    MultiplesAreOrdered(bound, a / b, b);
  }

  lemma ProductIsLarger(a: nat, b: nat)
    requires b > 0
    ensures a <= a * b
  {
    assert a * b == a + a * (b - 1);
  }

  lemma PartsOfNonNegative(ticks: nat, freq: nat)
    requires freq > 0
    ensures 0 <= Quot(ticks, freq) <= ticks && 0 <= Quot(Rem(ticks, freq) * NANOS, freq) <= NANOS
  {
    SplitOfNonNegative(ticks, freq);
    ProductIsLarger(ticks, freq);
    QuotBound(ticks, freq, ticks);
    var r := Rem(ticks, freq);
    assert r * NANOS <= NANOS * freq;
    QuotBound(r * NANOS, freq, NANOS);
  }

  /** Whole seconds and remainder have the sign of the ticks, so neither exceeds their sum. */
  lemma PartsHaveOneSign(ticks: int, freq: int)
    requires freq > 0
    ensures ticks >= 0 ==> 0 <= Quot(ticks, freq) <= ticks && 0 <= Quot(Rem(ticks, freq) * NANOS, freq) <= NANOS
    ensures ticks < 0 ==> ticks <= Quot(ticks, freq) <= 0 && -NANOS <= Quot(Rem(ticks, freq) * NANOS, freq) <= 0
  {
    if ticks >= 0 {
      PartsOfNonNegative(ticks, freq);
    } else {
      PartsOfNonNegative(-ticks, freq);
      QuotNegates(-ticks, freq);
      QuotNegates(Rem(-ticks, freq) * NANOS, freq);
    }
  }

  lemma NoOverflowUpToMax(ticks: int, freq: int)
    requires 0 < freq <= MAX_FREQ && FitsInt64(ticks) && FitsInt64(ExactNs(ticks, freq))
    ensures NoOverflow(ticks, freq)
  {
    SplitIsExact(ticks, freq);
    PartsHaveOneSign(ticks, freq);
  }

  /** One tick short of a second already overflows beyond the largest frequency, although the result is small. */
  lemma OverflowBeyondMax(freq: int)
    requires freq > MAX_FREQ && FitsInt64(freq)
    ensures FitsInt64(freq - 1) && FitsInt64(ExactNs(freq - 1, freq)) && !NoOverflow(freq - 1, freq)
  {
    assert (freq - 1) / freq == 0 by { ModuloUnique(freq - 1, freq, 0, freq - 1); }
    QuotBound((freq - 1) * NANOS, freq, NANOS);
  }

  /**
   The conversion is exact for every tick count, and free of overflow whenever its result fits, for exactly the
   frequencies up to 9223372037 ticks a second.
   */
  lemma ConversionIsExact(freq: int)
    requires 0 < freq && FitsInt64(freq)
    ensures forall ticks :: TicksToNs(ticks, freq) == ExactNs(ticks, freq)
    ensures (forall ticks :: FitsInt64(ticks) && FitsInt64(ExactNs(ticks, freq)) ==> NoOverflow(ticks, freq))
       <==> freq <= 9_223_372_037
  {
    forall ticks ensures TicksToNs(ticks, freq) == ExactNs(ticks, freq) {
      SplitIsExact(ticks, freq);
    }
    if freq <= MAX_FREQ {
      forall ticks | FitsInt64(ticks) && FitsInt64(ExactNs(ticks, freq)) ensures NoOverflow(ticks, freq) {
        NoOverflowUpToMax(ticks, freq);
      }
    } else {
      OverflowBeyondMax(freq);
    }
  }

  lemma QuotOfOrdered(a: nat, b: nat, d: nat)
    requires d > 0 && a <= b
    ensures Quot(a, d) <= Quot(b, d)
  {
    assert a / d * d <= a && b < b / d * d + d;
    MultiplesAreOrdered(b / d, a / d, d);
  }

  lemma QuotMonotone(a: int, b: int, d: int)
    requires d > 0 && a <= b
    ensures Quot(a, d) <= Quot(b, d)
  {
    if 0 <= a {
      QuotOfOrdered(a, b, d);
    } else if b < 0 {
      QuotOfOrdered(-b, -a, d);
      QuotNegates(a, d);
      QuotNegates(b, d);
    } else {
      QuotOfOrdered(0, b, d);
      QuotOfOrdered(0, -a, d);
      QuotNegates(a, d);
    }
  }

  /** Later ticks never give earlier times. */
  lemma ConversionIsMonotone(earlier: int, later: int, freq: int)
    requires freq > 0 && earlier <= later
    ensures TicksToNs(earlier, freq) <= TicksToNs(later, freq)
  {
    SplitIsExact(earlier, freq);
    SplitIsExact(later, freq);
    QuotMonotone(earlier * NANOS, later * NANOS, freq);
  }
}
