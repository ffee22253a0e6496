/**
 * Arithmetic used by the compute-logging demultiplexer
 * (src/compute/src/logging/compute.rs): the coarse output bucket that every
 * changelog row is timestamped with, and the power-of-two delay buckets of
 * the frontier-delay and peek-duration histograms.
 */
module LogMath {

  const NANOS_PER_MILLI: nat := 1_000_000
  const U64_MAX: nat := 0xFFFF_FFFF_FFFF_FFFF
  const I64_MAX: int := 0x7FFF_FFFF_FFFF_FFFF
  const I64_MIN: int := -0x8000_0000_0000_0000

  /** `interval_ms = max(1, interval_ns / 1_000_000)`: the bucket width in milliseconds. */
  function IntervalMs(intervalNs: nat): (r: nat)
    ensures r >= 1
    ensures intervalNs < NANOS_PER_MILLI ==> r == 1
    ensures intervalNs >= NANOS_PER_MILLI ==>
              r * NANOS_PER_MILLI <= intervalNs < (r + 1) * NANOS_PER_MILLI
  {
    if intervalNs / NANOS_PER_MILLI < 1 then 1 else intervalNs / NANOS_PER_MILLI
  }

  /** `Duration::as_millis`: whole milliseconds, truncating. */
  function Millis(ns: nat): nat
  {
    ns / NANOS_PER_MILLI
  }

  /**
   * The bucket time of an event that arrived `arrivalNs` nanoseconds after
   * the epoch: `((ms / interval_ms) + 1) * interval_ms`. It is a multiple of
   * the interval strictly after the arrival millisecond, and at most one
   * interval after it.
   */
  function BucketTime(arrivalNs: nat, intervalMs: nat): (r: nat)
    requires intervalMs >= 1
    ensures r % intervalMs == 0
    ensures Millis(arrivalNs) < r <= Millis(arrivalNs) + intervalMs
  {
    var ms := Millis(arrivalNs);
    DivMulBounds(ms, intervalMs);
    ((ms / intervalMs) + 1) * intervalMs
  }

  lemma DivMulBounds(ms: nat, k: nat)
    requires k >= 1
    ensures ((ms / k) + 1) * k % k == 0
    ensures ms < ((ms / k) + 1) * k <= ms + k
  {
    var q := ms / k;
    assert ms == q * k + ms % k;
    assert (q + 1) * k == q * k + k;
    MulMod(q + 1, k);
  }

  lemma MulMod(a: nat, k: nat)
    requires k >= 1
    ensures a * k % k == 0
  {
    var x := a * k;
    assert x == (x / k) * k + x % k;
    var d := a - x / k;
    assert d * k == x % k;
    OnlyZeroBelow(d, k);
  }

  lemma OnlyZeroBelow(d: int, k: nat)
    requires k >= 1 && 0 <= d * k < k
    ensures d == 0
  {
    if d >= 1 {
      MulMono(1, d, k);
    } else if d <= -1 {
      assert d * k == -((-d) * k);
      MulMono(1, -d, k);
    }
  }

  /** The bucket time is the LEAST multiple of the interval after the arrival millisecond. */
  lemma {:induction false} BucketTimeIsLeast(arrivalNs: nat, intervalMs: nat, m: nat)
    requires intervalMs >= 1
    requires m % intervalMs == 0 && m > Millis(arrivalNs)
    ensures BucketTime(arrivalNs, intervalMs) <= m
  {
    var ms := Millis(arrivalNs);
    var q := ms / intervalMs;
    var j := m / intervalMs;
    assert m == j * intervalMs;
    assert ms == q * intervalMs + ms % intervalMs;
    assert q < j;
    MulMono(q + 1, j, intervalMs);
  }

  lemma MulMono(a: nat, b: nat, k: nat)
    requires a <= b
    ensures a * k <= b * k
  {
  }

  /** Powers of two: 1, 2, 4, ... */
  predicate IsPowerOfTwo(p: nat)
    decreases p
  {
    p == 1 || (p >= 2 && p % 2 == 0 && IsPowerOfTwo(p / 2))
  }

  /**
   * `u128::next_power_of_two`: the smallest power of two that is at least
   * `n` (1 for 0 and 1). Values are unbounded here; see README.
   */
  function NextPowerOfTwo(n: nat): (r: nat)
    ensures IsPowerOfTwo(r) && r >= n && r >= 1
    ensures r == 1 || r / 2 < n
  {
    NextPowerOfTwoFrom(n, 1)
  }

  function NextPowerOfTwoFrom(n: nat, p: nat): (r: nat)
    requires IsPowerOfTwo(p)
    requires p == 1 || p / 2 < n
    ensures IsPowerOfTwo(r) && r >= n && r >= p
    ensures r == 1 || r / 2 < n
    decreases n - p
  {
    if p >= n then p else NextPowerOfTwoFrom(n, 2 * p)
  }

  /** Every power of two at least `n` is at least `NextPowerOfTwo(n)`. */
  lemma {:induction false} NextPowerOfTwoIsLeast(n: nat, p: nat)
    requires IsPowerOfTwo(p) && p >= n
    ensures NextPowerOfTwo(n) <= p
  {
    var r := NextPowerOfTwo(n);
    if r > p {
      PowersOfTwoBetween(p, r);
    }
  }

  /** Two powers of two with p < r satisfy p <= r / 2. */
  lemma {:induction false} PowersOfTwoBetween(p: nat, r: nat)
    requires IsPowerOfTwo(p) && IsPowerOfTwo(r) && p < r
    ensures p <= r / 2
    decreases r
  {
    if p == 1 {
    } else {
      PowersOfTwoBetween(p / 2, r / 2);
    }
  }

  /** `u64 as i64`: two's-complement reinterpretation of an unsigned 64-bit value. */
  function AsI64(x: nat): (r: int)
    requires x <= U64_MAX
    ensures I64_MIN <= r <= I64_MAX
    ensures r == x || r == x - (U64_MAX + 1)
    ensures r >= 0 <==> x <= I64_MAX
  {
    if x <= I64_MAX then x else x - (U64_MAX + 1)
  }
}
