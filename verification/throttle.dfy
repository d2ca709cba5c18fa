/** How long the producer waits between two page fetches. A request's
    `ThrottleDurationMs` is three-valued: the `NoThrottle` sentinel (-1)
    means no wait, a positive value is a wait in milliseconds, and anything
    else (0, the unset value, or another negative) means the 150 ms default.
    Durations are Go `time.Duration`s: int64 nanoseconds. */
module Throttle {
  import opened Ints

  /** `time.Millisecond`, in nanoseconds. */
  const Millisecond: int := 1_000_000
  const NoThrottle: int64 := -1
  const DefaultThrottle: int := 150 * Millisecond
  /** The largest millisecond count whose duration fits in an int64. */
  const MaxExactMs: int := INT64_MAX / Millisecond

  /** How long `time.After(d)` makes the producer wait: a duration that is
      zero or negative fires at once. */
  function Wait(d: int64): (w: nat)
    ensures w <= INT64_MAX
    ensures d > 0 <==> w > 0
    ensures d > 0 ==> w == d
  {
    if d <= 0 then 0 else d
  }

  /** The resolution as the client writes it: the product
      `time.Duration(ms) * time.Millisecond` is int64 arithmetic and wraps. */
  function ThrottleAsWritten(ms: int64): (d: int64)
    ensures ms > 0 ==> (ms * Millisecond - d) % TWO_TO_THE_64 == 0
  {
    if ms == NoThrottle then 0
    else if ms > 0 then WrapInt64(ms * Millisecond)
    else DefaultThrottle
  }

  /** The resolution as intended: a positive millisecond count too large
      for a Duration saturates at the largest Duration instead of wrapping.
      This is the definition the rest of the model uses. */
  function Throttle(ms: int64): (d: nat)
    ensures d <= INT64_MAX
    ensures ms > 0 ==> d >= Millisecond
  {
    if ms == NoThrottle then 0
    else if ms > 0 then (if ms <= MaxExactMs then ms * Millisecond else INT64_MAX)
    else DefaultThrottle
  }

  /** The three-valued rule: no wait exactly for the sentinel, `ms`
      milliseconds for a positive value (saturated at the largest Duration),
      and the 150 ms default for zero and every other negative value. */
  lemma ThrottleRule(ms: int64)
    ensures Throttle(ms) == 0 <==> ms == NoThrottle
    ensures 0 < ms <= MaxExactMs ==> Throttle(ms) == ms * Millisecond
    ensures ms > MaxExactMs ==> Throttle(ms) == INT64_MAX
    ensures ms != NoThrottle && ms <= 0 ==> Throttle(ms) == DefaultThrottle
  {
  }

  /** A longer requested throttle never waits less. */
  lemma ThrottleMonotone(a: int64, b: int64)
    requires 0 < a <= b
    ensures Throttle(a) <= Throttle(b)
  {
  }

  /** Wherever the product does not overflow, the source's resolution and
      the saturating one make the producer wait exactly as long. */
  lemma AsWrittenAgreesWithoutOverflow(ms: int64)
    requires ms <= MaxExactMs
    ensures Wait(ThrottleAsWritten(ms)) == Throttle(ms)
  {
  }

  /** The overflow: asking for 9223372036855 ms (about 292 years) yields a
      negative Duration, and 2^58 ms yields exactly 0, so `time.After` fires
      at once and the stream is not throttled at all, while a smaller
      positive request does wait. */
  lemma ThrottleOverflowSkipsWait()
    ensures ThrottleAsWritten(0x400_0000_0000_0000) == 0
    ensures ThrottleAsWritten(9_223_372_036_855) < 0
    ensures Wait(ThrottleAsWritten(9_223_372_036_855)) == 0
    ensures Wait(ThrottleAsWritten(1)) == Millisecond
    ensures Throttle(9_223_372_036_855) == INT64_MAX
  {
    var x := 9_223_372_036_855 * Millisecond;
    assert x == 9_223_372_036_855_000_000;
    assert WrapInt64(x) == x - TWO_TO_THE_64;
    var y := 0x400_0000_0000_0000 * Millisecond;
    assert y == 15625 * TWO_TO_THE_64;
    assert WrapInt64(y) == y - 15625 * TWO_TO_THE_64;
  }
}
