/** sip/timer.go: a timer with its duration in seconds and a timeout
    counter. The Go timer underneath is represented by the duration, in
    nanoseconds, it was last armed with; its firing is not part of this
    model. */
module SipTimer {
  import Numbers

  const NanosPerSecond: int := 1_000_000_000

  /** `time.Duration(n) * time.Second`: int64 nanoseconds, wrapping on
      overflow. */
  function Seconds(n: int): int {
    Numbers.WrapInt64(n * NanosPerSecond)
  }

  /** Up to about 292 years the duration is exact. */
  lemma SecondsExact(n: int)
    requires -9_223_372_036 <= n <= 9_223_372_036
    ensures Seconds(n) == n * NanosPerSecond
  {
  }

  /** One second more and the product wraps to a negative duration. */
  lemma SecondsWraps()
    ensures Seconds(9_223_372_037) == 9_223_372_037 * NanosPerSecond - 0x1_0000_0000_0000_0000
    ensures Seconds(9_223_372_037) < 0
  {
    var x := 9_223_372_037 * NanosPerSecond;
    assert x - 0x1_0000_0000_0000_0000 - Numbers.MinInt64 == (x - Numbers.MinInt64) - 0x1_0000_0000_0000_0000;
  }

  class Timer {
    /** The nanoseconds the Go timer was last armed with. */
    var armed: int
    var duration: int
    var timeoutCnt: int
    var maxTimeoutCnt: int

    /** NewTimer: armed for `duration` seconds, no timeouts counted yet. */
    constructor (duration: int, maxTimeoutCnt: int)
      ensures this.armed == Seconds(duration)
      ensures this.duration == duration && this.timeoutCnt == 0 && this.maxTimeoutCnt == maxTimeoutCnt
    {
      armed := Seconds(duration);
      this.duration := duration;
      timeoutCnt := 0;
      this.maxTimeoutCnt := maxTimeoutCnt;
    }

    /** Reset re-arms for `nSecond` seconds and clears the counter; the
        limit stays. */
    method Reset(nSecond: int)
      modifies this
      ensures armed == Seconds(nSecond)
      ensures timeoutCnt == 0 && duration == nSecond && maxTimeoutCnt == old(maxTimeoutCnt)
    {
      armed := Seconds(nSecond);
      timeoutCnt := 0;
      duration := nSecond;
    }
  }
}
