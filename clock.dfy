/**
 * Local wall-clock instants as the reminder code computes them with
 * `Date.setHours(h, 0, 0, 0)` and `setDate(getDate() + 1)`: an instant is a
 * count of milliseconds on the local time line, and a calendar day is always
 * 24 hours long (no daylight-saving shifts).
 */
module LocalClock {

  const HourMs: int := 3_600_000
  const DayMs: int := 86_400_000

  /** Midnight of the local day that contains `t`. */
  function DayStart(t: int): (r: int)
    ensures r <= t < r + DayMs
    ensures r % DayMs == 0
  {
    t - t % DayMs
  }

  /** `t` is a whole hour `hour`:00:00.000 of some local day. */
  predicate AtHour(t: int, hour: nat)
  {
    t % DayMs == hour * HourMs
  }

  /**
   * The instant a reminder for local hour `hour` next fires: today at
   * `hour`:00 unless that is not after `now`, in which case tomorrow at
   * `hour`:00.
   */
  function NextAt(now: int, hour: nat): (r: int)
    requires hour < 24
    ensures now < r <= now + DayMs
    ensures AtHour(r, hour)
  {
    var today := DayStart(now) + hour * HourMs;
    if today <= now then today + DayMs else today
  }

  /** Two instants at the same hour of the day lie a whole number of days apart. */
  lemma SameHourDaysApart(s: int, t: int, hour: nat)
    requires hour < 24 && AtHour(s, hour) && AtHour(t, hour) && s < t
    ensures s + DayMs <= t
  {
    var k := (t - s) / DayMs;
    assert t - s == k * DayMs by {
      assert (t - s) % DayMs == 0;
    }
  }

  /** A whole number of days that is more than minus one day is not negative. */
  lemma WholeDaysAboveMinusOne(x: int)
    requires x % DayMs == 0 && x > -DayMs
    ensures x >= 0
  {
  }

  /** `NextAt` is the FIRST `hour`:00 instant after `now`: no earlier one exists. */
  lemma NextAtFirst(now: int, hour: nat, t: int)
    requires hour < 24 && now < t && AtHour(t, hour)
    ensures NextAt(now, hour) <= t
  {
    var today := DayStart(now) + hour * HourMs;
    TodayAtHour(now, hour);
    if today <= now {
      SameHourDaysApart(today, t, hour);
    } else {
      assert today - now < DayMs;
      SameResidueWholeDays(t, today);
      WholeDaysAboveMinusOne(t - today);
    }
  }

  /** Today's `hour`:00 is at that hour. */
  lemma TodayAtHour(now: int, hour: nat)
    requires hour < 24
    ensures AtHour(DayStart(now) + hour * HourMs, hour)
  {
  }

  /** Instants with the same time of day differ by whole days. */
  lemma SameResidueWholeDays(a: int, b: int)
    requires a % DayMs == b % DayMs
    ensures (a - b) % DayMs == 0
  {
    var qa := a / DayMs;
    var qb := b / DayMs;
    assert a - b == (qa - qb) * DayMs;
  }
}
