/** The test clock of `library/clock.py`: `MockClock` holds one datetime,
  * answers `now` from it, and is moved by `set_time` and `advance_seconds`.
  *
  * A datetime is its wall-clock reading in seconds, with or without a zone;
  * a zone is a fixed offset from UTC in seconds. */
module MockClockModel {
  import opened Common

  datatype Zone = Zone(offset: int)

  datatype DateTime = DateTime(wall: int, tz: Option<Zone>)

  /** The UTC instant of an aware datetime. */
  function Instant(t: DateTime): int
    requires t.tz.Some?
  {
    t.wall - t.tz.value.offset
  }

  /** `astimezone(z)`: the same instant read in zone `z`. */
  function AsTimezone(t: DateTime, z: Zone): (r: DateTime)
    requires t.tz.Some?
    ensures r.tz == Some(z) && Instant(r) == Instant(t)
  {
    DateTime(Instant(t) + z.offset, Some(z))
  }

  /** `t + timedelta(seconds=n)`: wall clock and zone move together. */
  function Plus(t: DateTime, n: int): (r: DateTime)
    ensures r.tz == t.tz && r.wall - t.wall == n
    ensures t.tz.Some? ==> Instant(r) == Instant(t) + n
  {
    DateTime(t.wall + n, t.tz)
  }

  /** The hour of the wall-clock reading. */
  function Hour(t: DateTime): (h: int)
    ensures 0 <= h < 24
  {
    (t.wall % 86400) / 3600
  }

  class MockClock {
    var time: DateTime

    constructor (fixedTime: DateTime)
      ensures time == fixedTime
    {
      time := fixedTime;
    }

    /** `now(tz)`: the stored time (no zone asked), the stored wall clock
      * tagged with the zone (naive stored time), or the stored instant read in
      * the zone. The clock itself never changes. */
    method Now(tz: Option<Zone>) returns (t: DateTime)
      ensures tz.None? ==> t == time
      ensures tz.Some? ==> t.tz == tz
      ensures tz.Some? && time.tz.None? ==> t.wall == time.wall
      ensures tz.Some? && time.tz.Some? ==> Instant(t) == Instant(time)
    {
      if tz.Some? {
        if time.tz.None? {
          return DateTime(time.wall, tz);
        }
        return AsTimezone(time, tz.value);
      }
      return time;
    }

    method SetTime(newTime: DateTime)
      modifies this
      ensures time == newTime
    {
      time := newTime;
    }

    method AdvanceSeconds(seconds: int)
      modifies this
      ensures time == Plus(old(time), seconds)
    {
      time := Plus(time, seconds);
    }
  }

  /** Advancing twice is advancing by the sum, and advancing by zero is nothing. */
  lemma AdvanceComposes(t: DateTime, a: int, b: int)
    ensures Plus(Plus(t, a), b) == Plus(t, a + b)
    ensures Plus(t, 0) == t
  {
  }

  /** Reading an aware time in another zone and back gives it back. */
  lemma AsTimezoneRoundTrip(t: DateTime, z: Zone)
    requires t.tz.Some?
    ensures AsTimezone(AsTimezone(t, z), t.tz.value) == t
  {
  }

  /** Noon UTC on a day read at UTC-5 is 07:00: the winter offset of New York. */
  lemma NoonUtcInNewYork(day: int)
    ensures Hour(AsTimezone(DateTime(day * 86400 + 12 * 3600, Some(Zone(0))), Zone(-5 * 3600))) == 7
  {
    var t := AsTimezone(DateTime(day * 86400 + 12 * 3600, Some(Zone(0))), Zone(-5 * 3600));
    assert t.wall == day * 86400 + 7 * 3600;
    assert t.wall % 86400 == 7 * 3600;
  }
}
