/**
 * Local calendar arithmetic as a JavaScript `Date` performs it, at one-second
 * resolution and without time zones: the constructor `new Date(y, m, d)` with
 * month and day overflow, `setSeconds` with second overflow, and the two
 * day-boundary helpers of the agenda module built from them.
 */
module CivilTime {

  /** A calendar date as the getters of a Date report it: the full year, the
      month index 0 (January) to 11 (December) and the day of the month from 1. */
  datatype CivilDate = CivilDate(year: int, month: int, day: int)

  /** A local wall-clock instant. */
  datatype Timestamp = Timestamp(date: CivilDate, hour: int, minute: int, second: int)

  const SecondsPerDay := 86400

  predicate IsLeapYear(y: int) {
    y % 4 == 0 && (y % 100 != 0 || y % 400 == 0)
  }

  /** The length of month `m` of year `y` (month indices outside 0..11 are never valid dates). */
  function DaysInMonth(y: int, m: int): int {
    if m == 1 then (if IsLeapYear(y) then 29 else 28)
    else if m == 3 || m == 5 || m == 8 || m == 10 then 30
    else 31
  }

  predicate ValidDate(d: CivilDate) {
    0 <= d.month < 12 && 1 <= d.day <= DaysInMonth(d.year, d.month)
  }

  predicate ValidTimestamp(t: Timestamp) {
    ValidDate(t.date) && 0 <= t.hour < 24 && 0 <= t.minute < 60 && 0 <= t.second < 60
  }

  /** Strict chronological order of dates. */
  predicate DateBefore(a: CivilDate, b: CivilDate) {
    a.year < b.year
    || (a.year == b.year && (a.month < b.month || (a.month == b.month && a.day < b.day)))
  }

  function SecondOfDay(t: Timestamp): int {
    t.hour * 3600 + t.minute * 60 + t.second
  }

  /** Strict chronological order of timestamps: `a.getTime() < b.getTime()`. */
  predicate Before(a: Timestamp, b: Timestamp) {
    DateBefore(a.date, b.date) || (a.date == b.date && SecondOfDay(a) < SecondOfDay(b))
  }

  /** The calendar day after `x`, rolling over month and year ends. */
  function NextDay(x: CivilDate): CivilDate {
    if x.day < DaysInMonth(x.year, x.month) then CivilDate(x.year, x.month, x.day + 1)
    else if x.month < 11 then CivilDate(x.year, x.month + 1, 1)
    else CivilDate(x.year + 1, 0, 1)
  }

  /** The calendar day before `x`, rolling back over month and year starts. */
  function PrevDay(x: CivilDate): CivilDate {
    if x.day > 1 then CivilDate(x.year, x.month, x.day - 1)
    else if x.month > 0 then CivilDate(x.year, x.month - 1, DaysInMonth(x.year, x.month - 1))
    else CivilDate(x.year - 1, 11, 31)
  }

  /** Stepping a valid date forward or back gives a valid date, later or earlier. */
  lemma StepValid(x: CivilDate)
    requires ValidDate(x)
    ensures ValidDate(NextDay(x)) && DateBefore(x, NextDay(x))
    ensures ValidDate(PrevDay(x)) && DateBefore(PrevDay(x), x)
  {
  }

  lemma NextPrevInverse(x: CivilDate)
    requires ValidDate(x)
    ensures PrevDay(NextDay(x)) == x
    ensures NextDay(PrevDay(x)) == x
  {
  }

  /** No valid date lies strictly between a date and the next one. */
  lemma NextDayIsSuccessor(x: CivilDate, y: CivilDate)
    requires ValidDate(x) && ValidDate(y) && DateBefore(x, y)
    ensures y == NextDay(x) || DateBefore(NextDay(x), y)
  {
  }

  /** The date `n` calendar days after (or, for negative `n`, before) `x`. */
  function AddDays(x: CivilDate, n: int): CivilDate
    decreases if n < 0 then -n else n
  {
    if n == 0 then x
    else if n > 0 then NextDay(AddDays(x, n - 1))
    else PrevDay(AddDays(x, n + 1))
  }

  /** Day arithmetic stays on valid dates and moves in the direction of `n`. */
  lemma {:induction false} AddDaysValid(x: CivilDate, n: int)
    requires ValidDate(x)
    ensures ValidDate(AddDays(x, n))
    ensures n > 0 ==> DateBefore(x, AddDays(x, n))
    ensures n < 0 ==> DateBefore(AddDays(x, n), x)
    decreases if n < 0 then -n else n
  {
    if n > 0 {
      AddDaysValid(x, n - 1);
      StepValid(AddDays(x, n - 1));
    } else if n < 0 {
      AddDaysValid(x, n + 1);
      StepValid(AddDays(x, n + 1));
    }
  }

  /** One more day is one more step forward, whatever the sign of `n`. */
  lemma AddDaysSucc(x: CivilDate, n: int)
    requires ValidDate(x)
    ensures AddDays(x, n + 1) == NextDay(AddDays(x, n))
  {
    if n < 0 {
      AddDaysValid(x, n + 1);
      NextPrevInverse(AddDays(x, n + 1));
    }
  }

  /** One fewer day is one step back, whatever the sign of `n`. */
  lemma AddDaysPred(x: CivilDate, n: int)
    requires ValidDate(x)
    ensures AddDays(x, n - 1) == PrevDay(AddDays(x, n))
  {
    if n > 0 {
      AddDaysValid(x, n - 1);
      NextPrevInverse(AddDays(x, n - 1));
    }
  }

  /** Adding days is additive: a days and then b days is a + b days. */
  lemma {:induction false} AddDaysAdditive(x: CivilDate, a: int, b: int)
    requires ValidDate(x)
    ensures AddDays(AddDays(x, a), b) == AddDays(x, a + b)
    decreases if b < 0 then -b else b
  {
    if b > 0 {
      AddDaysAdditive(x, a, b - 1);
      AddDaysSucc(x, a + b - 1);
    } else if b < 0 {
      AddDaysAdditive(x, a, b + 1);
      AddDaysPred(x, a + b + 1);
    }
  }

  /** Counting from the first of the month reaches every day of that month. */
  lemma {:induction false} AddDaysFromFirst(x: CivilDate)
    requires ValidDate(x)
    ensures AddDays(CivilDate(x.year, x.month, 1), x.day - 1) == x
    decreases x.day
  {
    if x.day > 1 {
      AddDaysFromFirst(CivilDate(x.year, x.month, x.day - 1));
    }
  }

  /** The year the Date constructor gives to a year argument: 0 to 99 stand for 1900 to 1999. */
  function ConstructorYear(y: int): int {
    if 0 <= y <= 99 then 1900 + y else y
  }

  /** The first day of the month `new Date(y, m, ...)` counts from. */
  function ConstructorMonth(y: int, m: int): CivilDate {
    CivilDate(ConstructorYear(y) + m / 12, m % 12, 1)
  }

  /** `new Date(y, m, day)`: local midnight, with a month index outside 0..11
      carried into the year and a day outside the month carried into the
      neighbouring months. */
  function LocalMidnight(y: int, m: int, day: int): Timestamp {
    Timestamp(AddDays(ConstructorMonth(y, m), day - 1), 0, 0, 0)
  }

  /** The constructor always yields a valid midnight. */
  lemma LocalMidnightValid(y: int, m: int, day: int)
    ensures ValidTimestamp(LocalMidnight(y, m, day)) && SecondOfDay(LocalMidnight(y, m, day)) == 0
  {
    AddDaysValid(ConstructorMonth(y, m), day - 1);
  }

  /** The constructor is day arithmetic: `new Date(y, m, d + k)` is midnight of
      `k` days after the date (y, m, d), across month and year ends. */
  lemma LocalMidnightShift(x: CivilDate, k: int)
    requires ValidDate(x) && ConstructorYear(x.year) == x.year
    ensures LocalMidnight(x.year, x.month, x.day + k) == Timestamp(AddDays(x, k), 0, 0, 0)
  {
    var first := CivilDate(x.year, x.month, 1);
    assert ConstructorMonth(x.year, x.month) == first by {
      assert x.month / 12 == 0 && x.month % 12 == x.month;
    }
    calc {
      LocalMidnight(x.year, x.month, x.day + k);
      Timestamp(AddDays(first, (x.day - 1) + k), 0, 0, 0);
      { AddDaysAdditive(first, x.day - 1, k); }
      Timestamp(AddDays(AddDays(first, x.day - 1), k), 0, 0, 0);
      { AddDaysFromFirst(x); }
      Timestamp(AddDays(x, k), 0, 0, 0);
    }
  }

  /** A day argument one larger is the next calendar day, for any arguments. */
  lemma LocalMidnightNext(y: int, m: int, day: int)
    ensures LocalMidnight(y, m, day + 1).date == NextDay(LocalMidnight(y, m, day).date)
  {
    AddDaysSucc(ConstructorMonth(y, m), day - 1);
  }

  /** `t.setSeconds(sec)`: the seconds field is replaced by `sec`, and a value
      outside 0..59 carries into the minutes, hours and days. */
  function SetSeconds(t: Timestamp, sec: int): Timestamp {
    var total := t.hour * 3600 + t.minute * 60 + sec;
    var s := total % SecondsPerDay;
    Timestamp(AddDays(t.date, total / SecondsPerDay), s / 3600, s % 3600 / 60, s % 60)
  }

  /** One second before a midnight is 23:59:59 of the day before. */
  lemma SecondBeforeMidnight(x: CivilDate)
    requires ValidDate(x)
    ensures SetSeconds(Timestamp(NextDay(x), 0, 0, 0), -1) == Timestamp(x, 23, 59, 59)
  {
  }

  /** getDayStartTime: local midnight at the start of the day of `now`. */
  function DayStartTime(now: Timestamp): (r: Timestamp)
    ensures ValidTimestamp(r) && SecondOfDay(r) == 0
    ensures ValidDate(now.date) && ConstructorYear(now.date.year) == now.date.year ==> r.date == now.date
  {
    var d := now.date;
    LocalMidnightValid(d.year, d.month, d.day);
    if ValidDate(d) && ConstructorYear(d.year) == d.year then
      LocalMidnightShift(d, 0);
      LocalMidnight(d.year, d.month, d.day)
    else
      LocalMidnight(d.year, d.month, d.day)
  }

  /** getDayEndTime: one second before the next local midnight. */
  function DayEndTime(now: Timestamp): (r: Timestamp)
    ensures r == Timestamp(DayStartTime(now).date, 23, 59, 59)
    ensures ValidDate(now.date) && ConstructorYear(now.date.year) == now.date.year ==> r == Timestamp(now.date, 23, 59, 59)
  {
    var d := now.date;
    LocalMidnightNext(d.year, d.month, d.day);
    LocalMidnightValid(d.year, d.month, d.day);
    SecondBeforeMidnight(DayStartTime(now).date);
    SetSeconds(LocalMidnight(d.year, d.month, d.day + 1), -1)
  }

  /** For one clock reading, the start of its day is strictly before the end of its day. */
  lemma DefaultWindowOrdered(now: Timestamp)
    ensures Before(DayStartTime(now), DayEndTime(now))
  {
  }

  /** The constructor reads years 0 to 99 as 1900 to 1999, so the start of a
      day in the year 50 falls in 1950. */
  lemma TwoDigitYearStart()
    ensures DayStartTime(Timestamp(CivilDate(50, 0, 1), 12, 0, 0)).date == CivilDate(1950, 0, 1)
  {
    var first := ConstructorMonth(50, 0);
    assert first == CivilDate(1950, 0, 1);
    assert LocalMidnight(50, 0, 1) == Timestamp(AddDays(first, 0), 0, 0, 0);
  }
}
