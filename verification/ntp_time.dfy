/**
 * Conversions between host time (seconds since the Unix epoch) and NTP time
 * (seconds since 1900-01-01), over exact reals.
 */
module NtpTime {
  import opened Wire

  /**
   * NTP_DELTA: the days from 1900-01-01 to the Unix epoch 1970-01-01
   * (70 years, of which the 17 from 1904 to 1968 are leap years) in seconds.
   */
  const NTP_DELTA: int := 25567 * 24 * 60 * 60

  lemma NtpDeltaValue()
    ensures NTP_DELTA == (70 * 365 + 17) * 86400 == 2208988800
  {
  }

  /** system_to_ntp_time: shift a host timestamp to the 1900 era origin. */
  function SystemToNtpTime(timestamp: real): (ntp: real)
    ensures NtpToSystemTime(ntp) == timestamp
    ensures ntp - timestamp == 2208988800.0
  {
    timestamp + NTP_DELTA as real
  }

  /** The inverse shift, back to host time. */
  function NtpToSystemTime(ntp: real): (timestamp: real)
  {
    ntp - NTP_DELTA as real
  }

  lemma NtpToSystemTimeInverse(ntp: real)
    ensures SystemToNtpTime(NtpToSystemTime(ntp)) == ntp
  {
  }

  /** The conversion keeps the order of instants in both directions. */
  lemma SystemToNtpTimeMonotonic(a: real, b: real)
    ensures a < b <==> SystemToNtpTime(a) < SystemToNtpTime(b)
    ensures a <= b <==> SystemToNtpTime(a) <= SystemToNtpTime(b)
  {
  }

  /** _to_time: a seconds count plus an n-bit binary fraction, `integ + frac / 2**n`. */
  function ToTime(integ: int, frac: int, n: nat := 32): (t: real)
    ensures 0 <= frac < Pow2(n) ==> integ as real <= t < integ as real + 1.0
    ensures 0 <= frac < Pow2(n) ==> t.Floor == integ
  {
    ProperFraction(frac as real, Pow2(n) as real);
    integ as real + frac as real / Pow2(n) as real
  }

  lemma ProperFraction(x: real, scale: real)
    ensures 0.0 <= x < scale ==> 0.0 <= x / scale < 1.0
  {
    if 0.0 <= x < scale {
      assert scale / scale == 1.0;
      assert x / scale < scale / scale;
    }
  }

  /** The fraction field counts units of 2^-n seconds. */
  lemma ToTimeFraction(integ: int, frac: int, n: nat)
    ensures (ToTime(integ, frac, n) - integ as real) * Pow2(n) as real == frac as real
  {
  }
}
