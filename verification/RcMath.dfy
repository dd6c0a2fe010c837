/** Set-points and control outputs as channel values, over exact reals. */
module RcMath {
  import opened RcCommand

  const AXIS_RANGE_US := 300.0
  const MAX_YAW_RATE_DPS := 180.0

  function Clamp(x: real, low: real, high: real): (r: real)
    requires low <= high
    ensures low <= r <= high
    ensures x < low ==> r == low
    ensures low <= x <= high ==> r == x
    ensures x > high ==> r == high
  {
    if x < low then low else if x > high then high else x
  }

  /** `static_cast<uint16_t>` of a non-negative real. */
  function Truncate(x: real): (u: Us)
    requires 0.0 <= x < 65536.0
    ensures u as real <= x < u as real + 1.0
  {
    x.Floor
  }

  /** `lround` of a non-negative real. */
  function Round(x: real): (u: Us)
    requires 0.0 <= x < 65535.0
    ensures u as real - 0.5 <= x < u as real + 0.5
  {
    (x + 0.5).Floor
  }

  function ClampToChannel(x: real): (u: Us)
    ensures DRONE_MIN <= u <= DRONE_MAX
  {
    Round(Clamp(x, DRONE_MIN as real, DRONE_MAX as real))
  }

  function NormalizedAxisToPwm(x: real): (u: Us)
    ensures 1200 <= u <= 1800
  {
    ClampToChannel(DRONE_MID as real + Clamp(x, -1.0, 1.0) * AXIS_RANGE_US)
  }

  function YawRateToPwm(dps: real): (u: Us)
    ensures 1200 <= u <= 1800
  {
    NormalizedAxisToPwm(Clamp(dps, -MAX_YAW_RATE_DPS, MAX_YAW_RATE_DPS) / MAX_YAW_RATE_DPS)
  }

  /** Between 0 and 1 a fraction of the range, otherwise already in microseconds. */
  function ThrottleToPwm(x: real): (u: Us)
    ensures DRONE_MIN <= u <= DRONE_MAX
  {
    if 0.0 <= x <= 1.0 then ClampToChannel(DRONE_MIN as real + x * (DRONE_MAX - DRONE_MIN) as real)
    else ClampToChannel(x)
  }

  // ------------------------------------------------------------------ the maps

  /** The stick maps hit their ends and their centre, and hold them beyond the range. */
  lemma AxisMarks(x: real)
    ensures NormalizedAxisToPwm(0.0) == YawRateToPwm(0.0) == DRONE_MID
    ensures x <= -1.0 ==> NormalizedAxisToPwm(x) == 1200
    ensures x >= 1.0 ==> NormalizedAxisToPwm(x) == 1800
    ensures x <= -MAX_YAW_RATE_DPS ==> YawRateToPwm(x) == 1200
    ensures x >= MAX_YAW_RATE_DPS ==> YawRateToPwm(x) == 1800
  {
  }

  /** Between their ends the stick maps give the microsecond nearest to the straight line. */
  lemma AxisIsStraight(x: real)
    ensures -1.0 <= x <= 1.0 ==> -0.5 <= NormalizedAxisToPwm(x) as real - (1500.0 + 300.0 * x) <= 0.5
    ensures -180.0 <= x <= 180.0 ==> -0.5 <= YawRateToPwm(x) as real - (1500.0 + 300.0 * x / 180.0) <= 0.5
  {
    if -180.0 <= x <= 180.0 {
      YawLine(x);
    }
  }

  lemma YawLine(x: real)
    requires -180.0 <= x <= 180.0
    ensures -1.0 <= x / 180.0 <= 1.0 && 300.0 * (x / 180.0) == 300.0 * x / 180.0
    ensures YawRateToPwm(x) == NormalizedAxisToPwm(x / 180.0)
  {
  }

  /** The throttle map gives the microsecond nearest to what either reading says. */
  lemma ThrottleIsNearest(x: real)
    ensures 0.0 <= x <= 1.0 ==> -0.5 <= ThrottleToPwm(x) as real - (1000.0 + 1000.0 * x) <= 0.5
    ensures 1000.0 <= x <= 2000.0 ==> -0.5 <= ThrottleToPwm(x) as real - x <= 0.5
  {
  }

  lemma AxisMonotone(a: real, b: real)
    requires a <= b
    ensures NormalizedAxisToPwm(a) <= NormalizedAxisToPwm(b) && YawRateToPwm(a) <= YawRateToPwm(b)
  {
  }

  /**
   The throttle map falls exactly from a fraction to microseconds below the fraction's own: when `a`
   is a fraction that gives more than the minimum and `b` a number of microseconds that rounds to
   fewer than `a` gives. Everywhere else it is monotone.
   */
  lemma ThrottleFallsIff(a: real, b: real)
    requires a <= b
    ensures ThrottleToPwm(a) > ThrottleToPwm(b)
       <==> 0.0005 <= a <= 1.0 < b && b + 0.5 < 1000.0 + (1000.0 * a + 0.5).Floor as real
  {
    if 0.0 <= a <= 1.0 < b {
      assert ThrottleToPwm(a) == 1000 + (1000.0 * a + 0.5).Floor;
      RoundBelow(Clamp(b, 1000.0, 2000.0), ThrottleToPwm(a));
    }
  }

  lemma RoundBelow(x: real, u: nat)
    requires 0.0 <= x < 65535.0
    ensures Round(x) < u <==> x + 0.5 < u as real
  {
  }

  /** The throttle map starts at the minimum and ends at the maximum in either reading. */
  lemma ThrottleMarks(x: real)
    ensures ThrottleToPwm(0.0) == DRONE_MIN && ThrottleToPwm(1.0) == DRONE_MAX
    ensures x < 0.0 || 1.0 < x <= 1000.0 ==> ThrottleToPwm(x) == DRONE_MIN
    ensures x >= 2000.0 ==> ThrottleToPwm(x) == DRONE_MAX
  {
  }
}
