/** Conversion of the server's 64-bit NTP timestamp into a `struct timeval`
    (seconds since 1970, microseconds), as fetchtime computes it. */
module NtpTime {
  import opened NtpWire

  /** Seconds from 1900-01-01 (the NTP era 0 origin) to 1970-01-01. */
  const JAN_1970: int := 2208988800
  /** The divisor fetchtime uses for the fraction: `UINT_MAX`, one less than 2^32. */
  const UINT_MAX: int := 0xFFFF_FFFF
  const USEC_PER_SEC: int := 1000000

  datatype TimeVal = TimeVal(sec: int, usec: int)

  /** The microseconds fetchtime derives from a 32-bit binary fraction:
      `1.0e6 * frac / UINT_MAX`, truncated.  The product is exact in a double
      and no quotient lies within half a unit in the last place of an integer
      without being one, so the integer quotient is the same number.  Because
      the divisor is 2^32 - 1 and not 2^32, a full second can come out. */
  function Micros(frac: u32): (us: int)
    ensures 0 <= us <= USEC_PER_SEC
    ensures us == USEC_PER_SEC <==> frac == UINT_MAX
  {
    var us := frac * USEC_PER_SEC / UINT_MAX;
    if frac < UINT_MAX then
      MulMonotone(frac, UINT_MAX - 1, USEC_PER_SEC);
      DivBelow(frac * USEC_PER_SEC, UINT_MAX, USEC_PER_SEC);
      us
    else
      us
  }

  /** `extract_time_from_ntp_response`: the transmit timestamp of a response
      as a Unix time.  The seconds are exact (negative before 1970); for a
      timestamp in NTP era 0 from 1970 on they fit the 32-bit seconds range. */
  function Extract(response: NtpMsg): (t: TimeVal)
    ensures t.sec + JAN_1970 == response.xmttime.seconds
    ensures response.xmttime.seconds >= JAN_1970 ==> 0 <= t.sec <= UINT_MAX - JAN_1970
    ensures 0 <= t.usec <= USEC_PER_SEC
    ensures t.usec == USEC_PER_SEC <==> response.xmttime.fraction == UINT_MAX
  {
    TimeVal(response.xmttime.seconds - JAN_1970, Micros(response.xmttime.fraction))
  }

  /** A later fraction never gives fewer microseconds. */
  lemma {:induction false} MicrosMonotone(a: u32, b: u32)
    requires a <= b
    ensures Micros(a) <= Micros(b)
  {
    MulMonotone(a, b, USEC_PER_SEC);
    DivMonotone(a * USEC_PER_SEC, b * USEC_PER_SEC, UINT_MAX);
  }

  /** The fixed-point reading of a fraction with divisor 2^32, truncated. */
  function FixedPointMicros(frac: u32): int
  {
    frac * USEC_PER_SEC / 0x1_0000_0000
  }

  /** fetchtime's microseconds never fall below the 2^32 fixed-point value of
      the fraction and exceed it by at most one. */
  lemma {:induction false} MicrosNearFixedPoint(frac: u32)
    ensures FixedPointMicros(frac) <= Micros(frac) <= FixedPointMicros(frac) + 1
  {
    var n := frac * USEC_PER_SEC;
    var p, q := n / 0x1_0000_0000, n / UINT_MAX;
    assert q == Micros(frac);
    // p * (2^32 - 1) <= p * 2^32 <= n
    DivAtLeast(n, UINT_MAX, p);
    // (q - 1) * 2^32 == q * (2^32 - 1) + q - 2^32 <= n, as q <= 10^6
    if q > 0 {
      DivAtLeast(n, 0x1_0000_0000, q - 1);
    }
  }

  /** A fraction that fetchtime reads back as the given microseconds: the
      smallest one, `ceil(usec * (2^32 - 1) / 10^6)`. */
  function FractionFor(usec: int): (frac: u32)
    requires 0 <= usec <= USEC_PER_SEC
  {
    var n := usec * UINT_MAX + USEC_PER_SEC - 1;
    MulMonotone(usec, USEC_PER_SEC, UINT_MAX);
    DivBelow(n, USEC_PER_SEC, UINT_MAX + 1);
    n / USEC_PER_SEC
  }

  /** Every microsecond count from 0 to 10^6 is produced by some fraction. */
  lemma {:induction false} MicrosFractionFor(usec: int)
    requires 0 <= usec <= USEC_PER_SEC
    ensures Micros(FractionFor(usec)) == usec
  {
    var n := FractionFor(usec) * USEC_PER_SEC;
    // usec * (2^32 - 1) <= n < usec * (2^32 - 1) + 10^6 <= (usec + 1) * (2^32 - 1)
    DivAtLeast(n, UINT_MAX, usec);
    DivBelow(n, UINT_MAX, usec + 1);
  }

  /** The timestamp fetchtime converts back into the given time: the inverse
      of `Extract` for times NTP era 0 can hold. */
  function Encode(t: TimeVal): (ts: Timestamp)
    requires -JAN_1970 <= t.sec <= UINT_MAX - JAN_1970
    requires 0 <= t.usec <= USEC_PER_SEC
  {
    Timestamp(t.sec + JAN_1970, FractionFor(t.usec))
  }

  /** A response carrying `Encode(t)` as its transmit timestamp reads as `t`. */
  lemma {:induction false} ExtractEncode(response: NtpMsg, t: TimeVal)
    requires -JAN_1970 <= t.sec <= UINT_MAX - JAN_1970
    requires 0 <= t.usec <= USEC_PER_SEC
    requires response.xmttime == Encode(t)
    ensures Extract(response) == t
  {
    MicrosFractionFor(t.usec);
  }

  lemma MulMonotone(a: int, b: int, c: nat)
    requires a <= b
    ensures a * c <= b * c
  {
  }

  lemma MulCancel(a: int, b: int, c: int)
    requires c > 0 && a * c < b * c
    ensures a < b
  {
  }

  /** A quotient stays below `k` when the dividend stays below `k * d`. */
  lemma DivBelow(n: nat, d: int, k: int)
    requires 0 < d && n < k * d
    ensures n / d < k
  {
    MulCancel(n / d, k, d);
  }

  /** A quotient reaches `k` when the dividend reaches `k * d`. */
  lemma DivAtLeast(n: nat, d: int, k: int)
    requires 0 < d && k * d <= n
    ensures k <= n / d
  {
    assert (n / d + 1) * d == n / d * d + d;
    MulCancel(k, n / d + 1, d);
  }

  lemma DivMonotone(x: nat, y: nat, d: int)
    requires x <= y && 0 < d
    ensures x / d <= y / d
  {
    DivAtLeast(y, d, x / d);
  }

  /** The seconds landmarks: the Unix epoch, and 2024-01-01 00:00:00 UTC. */
  lemma {:induction false} ExtractSeconds(response: NtpMsg)
    ensures response.xmttime.seconds == JAN_1970 ==> Extract(response).sec == 0
    ensures response.xmttime.seconds == 3913056000 ==> Extract(response).sec == 1704067200
  {
  }

  /** The landmark fractions: none, half a second, and the largest. */
  lemma MicrosLandmarks()
    ensures Micros(0) == 0
    ensures Micros(0x8000_0000) == 500000
    ensures Micros(0xFFFF_FFFF) == USEC_PER_SEC
  {
  }
}
