/**
 * Wall-clock time to hand angles (tilt_clock_3D..js, inside `animate`).
 *
 * The frame reads the local hours, minutes, seconds and milliseconds, builds
 * fractional seconds, minutes and (12-hour) hours from them, and turns each
 * into a clockwise angle in degrees from 12 o'clock.  Angles are kept in
 * degrees: the conversion to radians belongs to the graphics library.
 */
module ClockTime {

  /** One reading of the local clock, as the getters of a JavaScript Date give it. */
  datatype Now = Now(year: int, month: nat, day: nat, hours: nat, minutes: nat, seconds: nat, millis: nat)
  {
    /** The ranges the Date getters guarantee (the month counts from 0). */
    predicate Valid() {
      month < 12 && 1 <= day <= 31 && hours < 24 && minutes < 60 && seconds < 60 && millis < 1000
    }
  }

  // The three fractional values of the frame.
  function Seconds(t: Now): real { t.seconds as real + t.millis as real / 1000.0 }
  function Minutes(t: Now): real { t.minutes as real + Seconds(t) / 60.0 }
  function Hours(t: Now): real { (t.hours % 12) as real + Minutes(t) / 60.0 }

  // Clockwise angles in degrees from 12 o'clock.
  function SecondAngle(t: Now): real { Seconds(t) / 60.0 * 360.0 }
  function MinuteAngle(t: Now): real { Minutes(t) / 60.0 * 360.0 }
  function HourAngle(t: Now): real { Hours(t) / 12.0 * 360.0 }

  // Reference definitions: whole milliseconds elapsed since the hand last stood at 12.
  function MillisOfMinute(t: Now): nat { t.seconds * 1000 + t.millis }
  function MillisOfHour(t: Now): nat { t.minutes * 60000 + MillisOfMinute(t) }
  function MillisOfHalfDay(t: Now): nat { (t.hours % 12) * 3600000 + MillisOfHour(t) }

  /** Each hand turns at a constant rate: its angle is proportional to the time
      elapsed since it last stood at 12 (360 degrees per minute, hour and half-day). */
  lemma AnglesAreElapsedTime(t: Now)
    ensures SecondAngle(t) == MillisOfMinute(t) as real * 360.0 / 60000.0
    ensures MinuteAngle(t) == MillisOfHour(t) as real * 360.0 / 3600000.0
    ensures HourAngle(t) == MillisOfHalfDay(t) as real * 360.0 / 43200000.0
  {
  }

  /** The second hand is at (s + ms/1000) * 6 degrees, and every hand angle lies in [0, 360);
      the minute hand stays within its minute's 6-degree sector and the hour hand within its hour's 30 degrees. */
  lemma AngleRanges(t: Now)
    requires t.Valid()
    ensures SecondAngle(t) == (t.seconds as real + t.millis as real / 1000.0) * 6.0
    ensures 0.0 <= SecondAngle(t) < 360.0
    ensures 6.0 * t.minutes as real <= MinuteAngle(t) < 6.0 * t.minutes as real + 6.0
    ensures 0.0 <= MinuteAngle(t) < 360.0
    ensures 30.0 * (t.hours % 12) as real <= HourAngle(t) < 30.0 * (t.hours % 12) as real + 30.0
    ensures 0.0 <= HourAngle(t) < 360.0
  {
    assert Seconds(t) < 60.0;
    assert Minutes(t) < t.minutes as real + 1.0;
  }

  /** Hours are taken modulo 12: an afternoon time shows the same hour angle as the morning one. */
  lemma HoursWrapAtTwelve(t: Now)
    requires 12 <= t.hours
    ensures HourAngle(t) == HourAngle(t.(hours := t.hours - 12))
  {
    assert t.hours % 12 == (t.hours - 12) % 12;
  }

  /** Within one minute the second hand never turns back; within one hour the minute hand
      never turns back; within one half-day the hour hand never turns back. */
  lemma AnglesMonotone(t1: Now, t2: Now)
    ensures MillisOfMinute(t1) <= MillisOfMinute(t2) ==> SecondAngle(t1) <= SecondAngle(t2)
    ensures MillisOfHour(t1) <= MillisOfHour(t2) ==> MinuteAngle(t1) <= MinuteAngle(t2)
    ensures MillisOfHalfDay(t1) <= MillisOfHalfDay(t2) ==> HourAngle(t1) <= HourAngle(t2)
  {
    AnglesAreElapsedTime(t1);
    AnglesAreElapsedTime(t2);
  }

  /** The clock reading `ms` milliseconds after local midnight. */
  function AtMillisOfDay(ms: nat): (t: Now)
    requires ms < 86400000
    ensures t.Valid()
  {
    Now(0, 0, 1, ms / 3600000, (ms / 60000) % 60, (ms / 1000) % 60, ms % 1000)
  }

  lemma ElapsedOfMillisOfDay(ms: nat)
    requires ms < 86400000
    ensures MillisOfMinute(AtMillisOfDay(ms)) == ms % 60000
    ensures MillisOfHour(AtMillisOfDay(ms)) == ms % 3600000
    ensures MillisOfHalfDay(AtMillisOfDay(ms)) == ms % 43200000
  {
    var q1, r1 := ms / 1000, ms % 1000;
    assert ms == q1 * 1000 + r1;
    var q2, r2 := q1 / 60, q1 % 60;
    assert q1 == q2 * 60 + r2;
    assert ms == q2 * 60000 + (r2 * 1000 + r1);
    assert ms / 60000 == q2 && ms % 60000 == r2 * 1000 + r1;
    var q3, r3 := q2 / 60, q2 % 60;
    assert q2 == q3 * 60 + r3;
    assert ms == q3 * 3600000 + (r3 * 60000 + r2 * 1000 + r1);
    assert ms / 3600000 == q3 && ms % 3600000 == r3 * 60000 + r2 * 1000 + r1;
    var q4, r4 := q3 / 12, q3 % 12;
    assert q3 == q4 * 12 + r4;
    assert ms == q4 * 43200000 + (r4 * 3600000 + r3 * 60000 + r2 * 1000 + r1);
    assert ms % 43200000 == r4 * 3600000 + r3 * 60000 + r2 * 1000 + r1;
  }

  /** No hand jumps: from one millisecond of the day to the next, each angle advances by its
      hand's constant rate, wrapping once from just under 360 back to 0 when the hand passes 12. */
  lemma AnglesAdvanceSmoothly(ms: nat)
    requires ms + 1 < 86400000
    ensures var d := SecondAngle(AtMillisOfDay(ms + 1)) - SecondAngle(AtMillisOfDay(ms));
            d == 360.0 / 60000.0 || d == 360.0 / 60000.0 - 360.0
    ensures var d := MinuteAngle(AtMillisOfDay(ms + 1)) - MinuteAngle(AtMillisOfDay(ms));
            d == 360.0 / 3600000.0 || d == 360.0 / 3600000.0 - 360.0
    ensures var d := HourAngle(AtMillisOfDay(ms + 1)) - HourAngle(AtMillisOfDay(ms));
            d == 360.0 / 43200000.0 || d == 360.0 / 43200000.0 - 360.0
  {
    ElapsedOfMillisOfDay(ms);
    ElapsedOfMillisOfDay(ms + 1);
    AnglesAreElapsedTime(AtMillisOfDay(ms));
    AnglesAreElapsedTime(AtMillisOfDay(ms + 1));
    ModSuccessor(ms, 60000);
    ModSuccessor(ms, 3600000);
    ModSuccessor(ms, 43200000);
  }

  lemma ModSuccessor(x: nat, m: nat)
    requires 0 < m
    ensures (x + 1) % m == x % m + 1 || ((x + 1) % m == 0 && x % m == m - 1)
  {
    var q, r := x / m, x % m;
    assert x == q * m + r;
    if r + 1 < m {
      assert x + 1 == q * m + (r + 1);
      DivModUnique(x + 1, m, q, r + 1);
    } else {
      assert x + 1 == (q + 1) * m + 0;
      DivModUnique(x + 1, m, q + 1, 0);
    }
  }

  lemma DivModUnique(x: int, m: int, q: int, r: int)
    requires 0 < m && 0 <= r < m && x == q * m + r
    ensures x / m == q && x % m == r
  {
    var q', r' := x / m, x % m;
    assert x == q' * m + r';
    assert (q - q') * m == r' - r;
    if q > q' {
      AtLeastOneMultiple(q - q', m);
    } else if q < q' {
      AtLeastOneMultiple(q' - q, m);
    }
  }

  lemma AtLeastOneMultiple(k: int, m: int)
    requires 1 <= k && 0 < m
    ensures k * m >= m
    decreases k
  {
    if k > 1 {
      AtLeastOneMultiple(k - 1, m);
      assert k * m == (k - 1) * m + m;
    }
  }

  /** Three o'clock, in the morning or the afternoon, puts the hour hand at 90 degrees
      and the other two hands at 12. */
  lemma ThreeOClock()
    ensures HourAngle(Now(2025, 7, 1, 3, 0, 0, 0)) == 90.0
    ensures HourAngle(Now(2025, 7, 1, 15, 0, 0, 0)) == 90.0
    ensures MinuteAngle(Now(2025, 7, 1, 3, 0, 0, 0)) == 0.0
    ensures SecondAngle(Now(2025, 7, 1, 3, 0, 0, 0)) == 0.0
  {
  }

  /** Half past six puts the hour hand at 195 degrees and the minute hand at 180. */
  lemma HalfPastSix()
    ensures HourAngle(Now(2025, 7, 1, 6, 30, 0, 0)) == 195.0
    ensures MinuteAngle(Now(2025, 7, 1, 6, 30, 0, 0)) == 180.0
  {
  }
}
