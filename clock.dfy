/**
 * Wall-clock values as the Python `datetime` module has them: a time of day
 * (hour, minute, second, microsecond) and a calendar instant (year, month,
 * day, time of day). Both are ordered lexicographically, field by field,
 * which is how Python compares `time` and `datetime` objects.
 */
module Clock {

  type Hour = h: int | 0 <= h < 24
  type Minute = m: int | 0 <= m < 60
  type Second = s: int | 0 <= s < 60
  type Micro = u: int | 0 <= u < 1000000
  type Month = m: int | 1 <= m <= 12 witness 1
  type Day = d: int | 1 <= d <= 31 witness 1

  datatype Time = Time(hour: Hour, minute: Minute, second: Second, micro: Micro)

  const Midnight: Time := Time(0, 0, 0, 0)

  /** A time with no seconds and no microseconds, as `strptime('%H:%M')` produces. */
  predicate WholeMinute(t: Time) {
    t.second == 0 && t.micro == 0
  }

  /** Strict order on times of day: Python's `a < b` on `datetime.time`. */
  predicate Before(a: Time, b: Time) {
    a.hour < b.hour ||
    (a.hour == b.hour && (a.minute < b.minute ||
    (a.minute == b.minute && (a.second < b.second ||
    (a.second == b.second && a.micro < b.micro)))))
  }

  lemma BeforeIsStrictTotalOrder(a: Time, b: Time, c: Time)
    ensures !Before(a, a)
    ensures Before(a, b) && Before(b, c) ==> Before(a, c)
    ensures a == b || Before(a, b) || Before(b, a)
    ensures !(Before(a, b) && Before(b, a))
  {
  }

  datatype DateTime = DateTime(year: int, month: Month, day: Day, time: Time)

  /** Non-strict order on instants: Python's `a <= b` on `datetime`. */
  predicate AtOrBefore(a: DateTime, b: DateTime) {
    a.year < b.year ||
    (a.year == b.year && (a.month < b.month ||
    (a.month == b.month && (a.day < b.day ||
    (a.day == b.day && (a.time == b.time || Before(a.time, b.time)))))))
  }

  lemma AtOrBeforeIsTotalOrder(a: DateTime, b: DateTime, c: DateTime)
    ensures AtOrBefore(a, a)
    ensures AtOrBefore(a, b) && AtOrBefore(b, c) ==> AtOrBefore(a, c)
    ensures AtOrBefore(a, b) && AtOrBefore(b, a) ==> a == b
    ensures AtOrBefore(a, b) || AtOrBefore(b, a)
  {
    BeforeIsStrictTotalOrder(a.time, b.time, c.time);
  }

  predicate SameDate(a: DateTime, b: DateTime) {
    a.year == b.year && a.month == b.month && a.day == b.day
  }

  predicate SameMonth(a: DateTime, b: DateTime) {
    a.year == b.year && a.month == b.month
  }

  /** `now.replace(hour=0, minute=0, second=0, microsecond=0)`. */
  function DayStart(now: DateTime): (r: DateTime)
    ensures SameDate(r, now) && AtOrBefore(r, now)
    ensures forall ts :: SameDate(ts, now) ==> AtOrBefore(r, ts)
  {
    now.(time := Midnight)
  }

  /** `day.replace(day=1)`. */
  function MonthStart(day: DateTime): (r: DateTime)
    ensures SameMonth(r, day) && AtOrBefore(r, day)
    ensures r.time == day.time
    ensures day.time == Midnight ==> forall ts :: SameMonth(ts, day) ==> AtOrBefore(r, ts)
  {
    day.(day := 1)
  }

  /** The two window starts are ordered: the month window contains the day window. */
  lemma WindowStartsOrdered(now: DateTime)
    ensures AtOrBefore(MonthStart(DayStart(now)), DayStart(now))
    ensures AtOrBefore(DayStart(now), now)
    ensures AtOrBefore(MonthStart(DayStart(now)), now)
  {
    AtOrBeforeIsTotalOrder(MonthStart(DayStart(now)), DayStart(now), now);
  }

  /** An instant lies in `[day_start, now]` exactly when it is on the same date and not after `now`. */
  lemma DayWindowIsCalendarDay(now: DateTime, ts: DateTime)
    ensures AtOrBefore(DayStart(now), ts) && AtOrBefore(ts, now)
        <==> SameDate(ts, now) && AtOrBefore(ts, now)
  {
  }

  /** An instant lies in `[month_start, now]` exactly when it is in the same month and not after `now`. */
  lemma MonthWindowIsCalendarMonth(now: DateTime, ts: DateTime)
    ensures AtOrBefore(MonthStart(DayStart(now)), ts) && AtOrBefore(ts, now)
        <==> SameMonth(ts, now) && AtOrBefore(ts, now)
  {
  }

  /** Every instant after the day start is after the month start. */
  lemma DayWindowInsideMonthWindow(now: DateTime, ts: DateTime)
    requires AtOrBefore(DayStart(now), ts)
    ensures AtOrBefore(MonthStart(DayStart(now)), ts)
  {
    WindowStartsOrdered(now);
    AtOrBeforeIsTotalOrder(MonthStart(DayStart(now)), DayStart(now), ts);
  }
}
