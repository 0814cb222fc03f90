/**
 * Time as the code sees it: a `Date` is a millisecond timestamp, and
 * `d.setHours(0, 0, 0, 0)` truncates it to the start of its day. Local time
 * zones and daylight-saving shifts are abstracted away: every day is `DayMs`
 * long and days start at multiples of `DayMs`.
 */
module Dates {

  /** Length of a day in milliseconds; `d.setDate(d.getDate() + 1)` adds it. */
  const DayMs: int := 86_400_000

  /** `setHours(0, 0, 0, 0)`: midnight at the start of the day that contains `t`. */
  function Day(t: int): (d: int)
    ensures d <= t < d + DayMs
    ensures d % DayMs == 0
  {
    (t / DayMs) * DayMs
  }

  /** Two midnights that are not equal are at least a day apart. */
  lemma MidnightsApart(a: int, b: int)
    requires a % DayMs == 0 && b % DayMs == 0 && a < b
    ensures a + DayMs <= b
  {
    assert a == (a / DayMs) * DayMs;
    assert b == (b / DayMs) * DayMs;
    assert a / DayMs < b / DayMs;
  }

  /** Day truncation is monotone: a later instant never falls on an earlier day. */
  lemma DayMonotone(a: int, b: int)
    requires a <= b
    ensures Day(a) <= Day(b)
  {
    if Day(b) < Day(a) {
      MidnightsApart(Day(b), Day(a));
    }
  }

  /** An instant on an earlier day is earlier: `Day(a) < Day(b)` implies `a < b`. */
  lemma EarlierDay(a: int, b: int)
    requires Day(a) < Day(b)
    ensures a < b
  {
    MidnightsApart(Day(a), Day(b));
  }

  /** A midnight is its own day, so truncating twice changes nothing. */
  lemma DayOfMidnight(t: int)
    requires t % DayMs == 0
    ensures Day(t) == t
  {
    if Day(t) < t {
      MidnightsApart(Day(t), t);
    }
  }

  /** An instant lies within a midnight's day exactly when that midnight is its day. */
  lemma WithinDayOf(m: int, t: int)
    requires m % DayMs == 0
    ensures m <= t < m + DayMs <==> Day(t) == m
  {
    if m <= t < m + DayMs {
      if Day(t) < m {
        MidnightsApart(Day(t), m);
      } else if m < Day(t) {
        MidnightsApart(m, Day(t));
      }
    }
  }

  /** An instant's day has come by `now` exactly when the instant is before the next midnight after `now`. */
  lemma DayReachedBefore(t: int, now: int)
    ensures Day(t) <= Day(now) <==> t < Day(now) + DayMs
  {
    if Day(now) < Day(t) {
      MidnightsApart(Day(now), Day(t));
    }
  }

  /** Adding a day moves to the next day at the same time of day. */
  lemma DayNext(t: int)
    ensures Day(t + DayMs) == Day(t) + DayMs
  {
    var d := Day(t) + DayMs;
    assert d % DayMs == 0;
    if Day(t + DayMs) < d {
      MidnightsApart(Day(t + DayMs), d);
    } else if d < Day(t + DayMs) {
      MidnightsApart(d, Day(t + DayMs));
    }
  }
}
