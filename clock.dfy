/**
 * Timestamps of the scraper: wall-clock readings to the second, all in the channel's
 * one time zone, ordered the way Go's `time.Time.Before` orders them there.
 */
module Clock {

  datatype DateTime = DateTime(year: int, month: int, day: int, hour: int, minute: int, second: int)

  /** Go's zero `time.Time{}`: January 1 of year 1, 00:00:00. */
  const Zero := DateTime(1, 1, 1, 0, 0, 0)

  /** `a.Before(b)`: `a` is strictly earlier than `b`. */
  predicate Before(a: DateTime, b: DateTime) {
    if a.year != b.year then a.year < b.year
    else if a.month != b.month then a.month < b.month
    else if a.day != b.day then a.day < b.day
    else if a.hour != b.hour then a.hour < b.hour
    else if a.minute != b.minute then a.minute < b.minute
    else a.second < b.second
  }

  /** The later of two timestamps. */
  function Latest(a: DateTime, b: DateTime): (r: DateTime)
    ensures r == a || r == b
    ensures !Before(r, a) && !Before(r, b)
  {
    if Before(a, b) then b else a
  }

  /** The later of `t` and every timestamp in `ts`. */
  function LatestOf(t: DateTime, ts: seq<DateTime>): DateTime
    decreases |ts|
  {
    if ts == [] then t else LatestOf(Latest(t, ts[0]), ts[1..])
  }

  /** `Before` is a strict total order. */
  lemma BeforeIsStrictTotalOrder(a: DateTime, b: DateTime, c: DateTime)
    ensures !Before(a, a)
    ensures Before(a, b) && Before(b, c) ==> Before(a, c)
    ensures a != b ==> Before(a, b) || Before(b, a)
    ensures Before(a, b) ==> !Before(b, a)
  {
  }

  /** `LatestOf` is the maximum of `t` and `ts`: an upper bound that is one of them. */
  lemma {:induction false} LatestOfIsMaximum(t: DateTime, ts: seq<DateTime>)
    ensures var m := LatestOf(t, ts);
      && !Before(m, t)
      && (forall i :: 0 <= i < |ts| ==> !Before(m, ts[i]))
      && (m == t || m in ts)
    decreases |ts|
  {
    if ts != [] {
      var l := Latest(t, ts[0]);
      LatestOfIsMaximum(l, ts[1..]);
      var m := LatestOf(t, ts);
      forall i | 0 <= i < |ts|
        ensures !Before(m, ts[i])
      {
        if i == 0 {
          BeforeIsStrictTotalOrder(m, l, ts[0]);
        } else {
          assert ts[i] == ts[1..][i - 1];
        }
      }
      BeforeIsStrictTotalOrder(m, l, t);
    }
  }

  /** Two maxima of the same values are the same timestamp, whatever order the values came in. */
  lemma LatestOfIgnoresOrder(t: DateTime, ts: seq<DateTime>, us: seq<DateTime>)
    requires forall x :: x in ts <==> x in us
    ensures LatestOf(t, ts) == LatestOf(t, us)
  {
    LatestOfIsMaximum(t, ts);
    LatestOfIsMaximum(t, us);
    var a, b := LatestOf(t, ts), LatestOf(t, us);
    assert !Before(a, b) by {
      if b != t { var i :| 0 <= i < |ts| && ts[i] == b; }
    }
    assert !Before(b, a) by {
      if a != t { var i :| 0 <= i < |us| && us[i] == a; }
    }
    BeforeIsStrictTotalOrder(a, b, a);
  }

  /** Leap years of the Gregorian calendar. */
  predicate IsLeapYear(year: int) {
    year % 4 == 0 && (year % 100 != 0 || year % 400 == 0)
  }

  /** The number of days of a month (1 to 12) of the Gregorian calendar. */
  function DaysIn(year: int, month: int): (n: int)
    ensures 28 <= n <= 31
  {
    if month == 2 then (if IsLeapYear(year) then 29 else 28)
    else if month == 4 || month == 6 || month == 9 || month == 11 then 30
    else 31
  }

  /** A date of the Gregorian calendar with a time of day. */
  predicate IsValid(t: DateTime) {
    && 1 <= t.month <= 12 && 1 <= t.day <= DaysIn(t.year, t.month)
    && 0 <= t.hour <= 23 && 0 <= t.minute <= 59 && 0 <= t.second <= 59
  }

  /** Whether two timestamps fall on the same calendar day. */
  predicate SameDate(a: DateTime, b: DateTime) {
    a.year == b.year && a.month == b.month && a.day == b.day
  }

  /** The same time of day on the calendar day before. */
  function DayBefore(t: DateTime): (r: DateTime)
    ensures Before(r, t)
    ensures r.hour == t.hour && r.minute == t.minute && r.second == t.second
    ensures IsValid(t) ==> IsValid(r)
  {
    if t.day > 1 then t.(day := t.day - 1)
    else if t.month > 1 then t.(month := t.month - 1, day := DaysIn(t.year, t.month - 1))
    else t.(year := t.year - 1, month := 12, day := 31)
  }

  /** The same time of day on the calendar day after. */
  function DayAfter(t: DateTime): DateTime {
    if t.day < DaysIn(t.year, t.month) then t.(day := t.day + 1)
    else if t.month < 12 then t.(month := t.month + 1, day := 1)
    else t.(year := t.year + 1, month := 1, day := 1)
  }

  /** On valid dates, stepping a day back and then a day forward returns the same date. */
  lemma DayAfterDayBefore(t: DateTime)
    requires IsValid(t)
    ensures DayAfter(DayBefore(t)) == t
  {
  }
}
