/**
 * getBusyTime: for seven consecutive calendar days, the hours covered by
 * the appointments of each day, each appointment counted by the difference
 * of its end and start times of day, rounded to hundredths of an hour.
 *
 * Totals are exact integers of hundredths of an hour; a total into which an
 * Invalid Date has entered is NaN, as `getHours()` of an Invalid Date is.
 */
module BusyTime {
  import opened Wrappers
  import opened CivilTime
  import opened Agenda

  const TotalDays := 7

  datatype Hours = Hundredths(n: int) | NaN

  /** `a + b` on numbers, NaN absorbing. */
  function Plus(a: Hours, b: Hours): Hours {
    if a.NaN? || b.NaN? then NaN else Hundredths(a.n + b.n)
  }

  /** `parseFloat((delta / 60).toFixed(2))` for a whole number of minutes,
      in hundredths of an hour: 100 * delta / 60 rounded to the nearest
      integer (its fraction is 0, 1/3 or 2/3, so there is never a tie). */
  function RoundedHours(delta: int): (h: int)
    ensures -1 <= 3 * h - 5 * delta <= 1
  {
    (5 * delta + 1) / 3
  }

  /** No other whole number of hundredths is as close to delta / 60 hours. */
  lemma RoundedHoursNearest(delta: int, k: int)
    requires k != RoundedHours(delta)
    ensures var d := 3 * RoundedHours(delta) - 5 * delta;
            var e := 3 * k - 5 * delta;
            (if d < 0 then -d else d) < (if e < 0 then -e else e)
  {
  }

  /** `getHours() * 60 + getMinutes()`. */
  function MinuteOfDay(t: Timestamp): int {
    t.hour * 60 + t.minute
  }

  /** Both times of an appointment are real dates. */
  predicate Dated(a: Appointment) {
    a.start.At? && a.end.At?
  }

  /** The exact minutes between the times of day of an appointment's start and end. */
  function Delta(a: Appointment): int
    requires Dated(a)
  {
    MinuteOfDay(a.end.t) - MinuteOfDay(a.start.t)
  }

  /** What one appointment adds to the total of its day. */
  function Contribution(a: Appointment): Hours {
    if Dated(a) then Hundredths(RoundedHours(Delta(a))) else NaN
  }

  /** The running total of a day after adding its appointments in order, from 0. */
  function DayTotal(apps: seq<Appointment>): Hours {
    if apps == [] then Hundredths(0)
    else Plus(DayTotal(apps[..|apps| - 1]), Contribution(apps[|apps| - 1]))
  }

  /** Adding the next appointment to a running total. */
  lemma DayTotalPrefix(apps: seq<Appointment>, i: nat)
    requires i < |apps|
    ensures DayTotal(apps[..i + 1]) == Plus(DayTotal(apps[..i]), Contribution(apps[i]))
  {
    assert apps[..i + 1][..i] == apps[..i];
  }

  /** `this.getAppointments(startDate, endDate)` as getBusyTime calls it. */
  type AppointmentQuery = (Timestamp, Timestamp) -> Fetched<seq<Appointment>>

  /** The agenda's own query, for a configured calendar, a clock reading and
      a provider. Both bounds are given, so the clock readings of the
      defaults are never used. */
  function AgendaQuery(calendarId: Option<string>, now: Timestamp, gw: Gateway): AppointmentQuery {
    (s: Timestamp, e: Timestamp) => GetAppointments(calendarId, Some(s), Some(e), now, now, gw)
  }

  /** `new Date(y, m, d + n)` for the start's y, m and d: the midnight opening day n. */
  function WindowStart(base: Timestamp, n: int): Timestamp {
    LocalMidnight(base.date.year, base.date.month, base.date.day + n)
  }

  /** `new Date(y, m, d + 1 + n)`: the midnight closing day n. */
  function WindowEnd(base: Timestamp, n: int): Timestamp {
    LocalMidnight(base.date.year, base.date.month, base.date.day + 1 + n)
  }

  /** The query result of day n. */
  function Day(query: AppointmentQuery, base: Timestamp, n: int): Fetched<seq<Appointment>> {
    query(WindowStart(base, n), WindowEnd(base, n))
  }

  /** The report after days 0 .. k - 1; the first failed day ends it. */
  function BusyDays(query: AppointmentQuery, base: Timestamp, k: nat): Fetched<seq<Hours>> {
    if k == 0 then Fetched(Success([]), [])
    else
      var prev := BusyDays(query, base, k - 1);
      if prev.result.Failure? then prev
      else
        var day := Day(query, base, k - 1);
        Fetched(if day.result.Failure? then Failure(day.result.error)
                else Success(prev.result.value + [DayTotal(day.result.value)]),
                prev.requests + day.requests)
  }

  /** The requests of days 0 .. k - 1, in order. */
  function RequestsOf(query: AppointmentQuery, base: Timestamp, k: nat): seq<Request> {
    if k == 0 then [] else RequestsOf(query, base, k - 1) + Day(query, base, k - 1).requests
  }

  /** getBusyTime: the seven day totals from `start` (default: the start of
      today), querying the days one after another and stopping at the first
      failed query. */
  method GetBusyTime(query: AppointmentQuery, start: Option<Timestamp>, now: Timestamp)
    returns (out: Fetched<seq<Hours>>)
    ensures out == BusyDays(query, start.GetOr(DayStartTime(now)), TotalDays)
    ensures out.result.Success? ==> |out.result.value| == TotalDays
  {
    var base := start.GetOr(DayStartTime(now));
    var ret: seq<Hours> := [];
    var requests: seq<Request> := [];
    var dayN := 0;
    while dayN < TotalDays
      invariant 0 <= dayN <= TotalDays
      invariant BusyDays(query, base, dayN) == Fetched(Success(ret), requests)
      invariant |ret| == dayN
    {
      var startDate := WindowStart(base, dayN);
      var endDate := WindowEnd(base, dayN);
      ghost var done := ret;
      ret := ret + [Hundredths(0)];
      var fetched := query(startDate, endDate);
      BusyDaysStep(query, base, dayN);
      requests := requests + fetched.requests;
      if fetched.result.Failure? {
        assert BusyDays(query, base, dayN + 1) == Fetched(Failure(fetched.result.error), requests);
        out := Fetched(Failure(fetched.result.error), requests);
        BusyDaysFailureStays(query, base, dayN + 1, TotalDays);
        return;
      }
      var appointments := fetched.result.value;
      var i := 0;
      while i < |appointments|
        invariant 0 <= i <= |appointments|
        invariant ret == done + [DayTotal(appointments[..i])]
      {
        DayTotalPrefix(appointments, i);
        ret := ret[dayN := Plus(ret[dayN], Contribution(appointments[i]))];
        i := i + 1;
      }
      assert appointments[..i] == appointments;
      assert BusyDays(query, base, dayN + 1) == Fetched(Success(ret), requests);
      dayN := dayN + 1;
    }
    out := Fetched(Success(ret), requests);
  }

  /** One more day of the report, once the days before it have succeeded. */
  lemma BusyDaysStep(query: AppointmentQuery, base: Timestamp, k: nat)
    requires BusyDays(query, base, k).result.Success?
    ensures var day := Day(query, base, k);
            BusyDays(query, base, k + 1)
              == Fetched(if day.result.Failure? then Failure(day.result.error)
                         else Success(BusyDays(query, base, k).result.value + [DayTotal(day.result.value)]),
                         BusyDays(query, base, k).requests + day.requests)
  {
  }

  /** Once a day has failed, later days change nothing. */
  lemma {:induction false} BusyDaysFailureStays(query: AppointmentQuery, base: Timestamp, k: nat, k': nat)
    requires k <= k' && BusyDays(query, base, k).result.Failure?
    ensures BusyDays(query, base, k') == BusyDays(query, base, k)
    decreases k'
  {
    if k < k' {
      BusyDaysFailureStays(query, base, k, k' - 1);
    }
  }

  /** The report succeeds exactly when every queried day succeeds. */
  lemma {:induction false} BusyDaysSucceeds(query: AppointmentQuery, base: Timestamp, k: nat)
    ensures BusyDays(query, base, k).result.Success? <==> forall n | 0 <= n < k :: Day(query, base, n).result.Success?
  {
    if k > 0 {
      BusyDaysSucceeds(query, base, k - 1);
      if BusyDays(query, base, k - 1).result.Failure? {
        var n :| 0 <= n < k - 1 && !Day(query, base, n).result.Success?;
      } else {
        BusyDaysStep(query, base, k - 1);
      }
    }
  }

  /** A successful report holds one total per day, in day order, each the
      total of that day's appointments. */
  lemma {:induction false} BusyDaysTotals(query: AppointmentQuery, base: Timestamp, k: nat)
    requires BusyDays(query, base, k).result.Success?
    ensures var totals := BusyDays(query, base, k).result.value;
            && |totals| == k
            && forall n | 0 <= n < k ::
                 Day(query, base, n).result.Success? && totals[n] == DayTotal(Day(query, base, n).result.value)
  {
    if k > 0 {
      assert BusyDays(query, base, k - 1).result.Success?;
      BusyDaysTotals(query, base, k - 1);
      BusyDaysStep(query, base, k - 1);
      var prev := BusyDays(query, base, k - 1).result.value;
      var totals := BusyDays(query, base, k).result.value;
      assert totals == prev + [DayTotal(Day(query, base, k - 1).result.value)];
      forall n | 0 <= n < k
        ensures Day(query, base, n).result.Success? && totals[n] == DayTotal(Day(query, base, n).result.value)
      {
        if n < k - 1 {
          assert totals[n] == prev[n];
        }
      }
    }
  }

  /** A successful report carries the requests of all days, in day order. */
  lemma {:induction false} BusyDaysRequests(query: AppointmentQuery, base: Timestamp, k: nat)
    requires BusyDays(query, base, k).result.Success?
    ensures BusyDays(query, base, k).requests == RequestsOf(query, base, k)
  {
    if k > 0 {
      assert BusyDays(query, base, k - 1).result.Success?;
      BusyDaysRequests(query, base, k - 1);
      BusyDaysStep(query, base, k - 1);
    }
  }

  /** When days 0 .. n - 1 succeed and day n fails, the report fails with
      day n's error, after the requests of days 0 .. n and no later day's. */
  lemma BusyDaysFirstFailure(query: AppointmentQuery, base: Timestamp, k: nat, n: nat)
    requires n < k
    requires forall m | 0 <= m < n :: Day(query, base, m).result.Success?
    requires Day(query, base, n).result.Failure?
    ensures BusyDays(query, base, k)
              == Fetched(Failure(Day(query, base, n).result.error), RequestsOf(query, base, n + 1))
  {
    BusyDaysSucceeds(query, base, n);
    BusyDaysRequests(query, base, n);
    BusyDaysStep(query, base, n);
    BusyDaysFailureStays(query, base, n + 1, k);
  }

  /** A day whose query returns no appointment reports 0 hours. */
  lemma QuietDayIsZero(query: AppointmentQuery, base: Timestamp, n: nat)
    requires n < TotalDays
    requires BusyDays(query, base, TotalDays).result.Success?
    requires Day(query, base, n).result == Success([])
    ensures var totals := BusyDays(query, base, TotalDays).result.value;
            |totals| == TotalDays && totals[n] == Hundredths(0)
  {
    BusyDaysTotals(query, base, TotalDays);
  }

  /** Consecutive windows meet: day n ends at the midnight where day n + 1
      starts, which is the next calendar day, across month and year ends;
      every window is a non-empty range starting at a valid midnight. */
  lemma WindowsContiguous(base: Timestamp, n: int)
    ensures WindowEnd(base, n) == WindowStart(base, n + 1)
    ensures WindowEnd(base, n).date == NextDay(WindowStart(base, n).date)
    ensures ValidTimestamp(WindowStart(base, n)) && SecondOfDay(WindowStart(base, n)) == 0
    ensures Before(WindowStart(base, n), WindowEnd(base, n))
  {
    var d := base.date;
    LocalMidnightNext(d.year, d.month, d.day + n);
    LocalMidnightValid(d.year, d.month, d.day + n);
    StepValid(WindowStart(base, n).date);
  }

  /** Later days have later windows. */
  lemma WindowsIncreasing(base: Timestamp, a: int, b: int)
    requires a < b
    ensures DateBefore(WindowStart(base, a).date, WindowStart(base, b).date)
  {
    var d := base.date;
    var first := ConstructorMonth(d.year, d.month);
    AddDaysValid(first, d.day - 1 + a);
    AddDaysAdditive(first, d.day - 1 + a, b - a);
    AddDaysValid(AddDays(first, d.day - 1 + a), b - a);
  }

  /** For a start on a valid date of a year the constructor keeps, day n's
      window runs from midnight n days after the start's date to midnight
      n + 1 days after it. */
  lemma WindowDays(base: Timestamp, n: int)
    requires ValidDate(base.date) && ConstructorYear(base.date.year) == base.date.year
    ensures WindowStart(base, n) == Timestamp(AddDays(base.date, n), 0, 0, 0)
    ensures WindowEnd(base, n) == Timestamp(AddDays(base.date, n + 1), 0, 0, 0)
  {
    LocalMidnightShift(base.date, n);
    LocalMidnightShift(base.date, n + 1);
  }

  /** The requests the agenda query sends for days 0 .. k - 1 once the
      palette is available: the palette, then the events of the day's window. */
  function SentRequests(calendarId: Option<string>, base: Timestamp, k: nat): seq<Request> {
    if k == 0 then []
    else SentRequests(calendarId, base, k - 1)
         + [GetColors, ListEvents(EventQuery(CalendarName(calendarId), WindowStart(base, k - 1), WindowEnd(base, k - 1)))]
  }

  /** The agenda query never rejects a day window as out of order: it always
      asks for the palette, and then for the events of exactly that window. */
  lemma AgendaDayRequests(calendarId: Option<string>, now: Timestamp, gw: Gateway, base: Timestamp, n: int)
    ensures var day := Day(AgendaQuery(calendarId, now, gw), base, n);
            && day.requests != [] && day.requests[0] == GetColors
            && (gw.getColors().Failure? ==> day == Fetched(Failure(gw.getColors().error), [GetColors]))
            && (gw.getColors().Success? ==>
                  day.requests == [GetColors, ListEvents(EventQuery(CalendarName(calendarId), WindowStart(base, n), WindowEnd(base, n)))])
  {
  }

  /** With the palette available, every day sends two requests, in day order. */
  lemma {:induction false} AgendaRequests(calendarId: Option<string>, now: Timestamp, gw: Gateway, base: Timestamp, k: nat)
    requires gw.getColors().Success?
    ensures RequestsOf(AgendaQuery(calendarId, now, gw), base, k) == SentRequests(calendarId, base, k)
    ensures |RequestsOf(AgendaQuery(calendarId, now, gw), base, k)| == 2 * k
  {
    if k > 0 {
      AgendaRequests(calendarId, now, gw, base, k - 1);
      AgendaDayRequests(calendarId, now, gw, base, k - 1);
    }
  }

  /** A successful busy-time report over the agenda sent fourteen requests:
      for each of the seven days in order, the palette and that day's events. */
  lemma AgendaReportRequests(calendarId: Option<string>, now: Timestamp, gw: Gateway, base: Timestamp)
    requires BusyDays(AgendaQuery(calendarId, now, gw), base, TotalDays).result.Success?
    ensures BusyDays(AgendaQuery(calendarId, now, gw), base, TotalDays).requests == SentRequests(calendarId, base, TotalDays)
    ensures |BusyDays(AgendaQuery(calendarId, now, gw), base, TotalDays).requests| == 2 * TotalDays
  {
    var query := AgendaQuery(calendarId, now, gw);
    BusyDaysTotals(query, base, TotalDays);
    BusyDaysRequests(query, base, TotalDays);
    AgendaDayRequests(calendarId, now, gw, base, 0);
    AgendaRequests(calendarId, now, gw, base, TotalDays);
  }

  /** When the palette cannot be fetched the report fails on the first day,
      after that single request. */
  lemma AgendaPaletteFailure(calendarId: Option<string>, now: Timestamp, gw: Gateway, base: Timestamp)
    requires gw.getColors().Failure?
    ensures BusyDays(AgendaQuery(calendarId, now, gw), base, TotalDays)
              == Fetched(Failure(gw.getColors().error), [GetColors])
  {
    var query := AgendaQuery(calendarId, now, gw);
    AgendaDayRequests(calendarId, now, gw, base, 0);
    BusyDaysFirstFailure(query, base, TotalDays, 0);
  }

  /** The exact sum of the minute differences of a day's appointments. */
  function MinutesSum(apps: seq<Appointment>): int
    requires forall i | 0 <= i < |apps| :: Dated(apps[i])
  {
    if apps == [] then 0 else MinutesSum(apps[..|apps| - 1]) + Delta(apps[|apps| - 1])
  }

  /** A day's total is NaN exactly when one of its appointments has an Invalid Date. */
  lemma {:induction false} DayTotalNaN(apps: seq<Appointment>)
    ensures DayTotal(apps).NaN? <==> exists i | 0 <= i < |apps| :: !Dated(apps[i])
  {
    if apps != [] {
      var prefix := apps[..|apps| - 1];
      DayTotalNaN(prefix);
      if exists i | 0 <= i < |prefix| :: !Dated(prefix[i]) {
        var i :| 0 <= i < |prefix| && !Dated(prefix[i]);
        assert apps[i] == prefix[i];
      }
      if exists i | 0 <= i < |apps| :: !Dated(apps[i]) {
        var i :| 0 <= i < |apps| && !Dated(apps[i]);
        if i < |prefix| {
          assert prefix[i] == apps[i];
        }
      }
    }
  }

  /** Rounding each appointment separately keeps a day's total within a third
      of a hundredth per appointment of the exact number of hours. */
  lemma {:induction false} DayTotalApprox(apps: seq<Appointment>)
    requires forall i | 0 <= i < |apps| :: Dated(apps[i])
    ensures DayTotal(apps).Hundredths?
    ensures -|apps| <= 3 * DayTotal(apps).n - 5 * MinutesSum(apps) <= |apps|
  {
    if apps != [] {
      var prefix := apps[..|apps| - 1];
      assert forall i | 0 <= i < |prefix| :: prefix[i] == apps[i];
      DayTotalApprox(prefix);
    }
  }

  /** When no appointment ends at an earlier time of day than it starts, the total is not negative. */
  lemma {:induction false} DayTotalNonNegative(apps: seq<Appointment>)
    requires forall i | 0 <= i < |apps| :: Dated(apps[i]) && Delta(apps[i]) >= 0
    ensures DayTotal(apps).Hundredths? && DayTotal(apps).n >= 0
  {
    if apps != [] {
      var prefix := apps[..|apps| - 1];
      assert forall i | 0 <= i < |prefix| :: prefix[i] == apps[i];
      DayTotalNonNegative(prefix);
    }
  }

  /** The total of a day split in two parts is the sum of the parts' totals. */
  lemma {:induction false} DayTotalAppend(a: seq<Appointment>, b: seq<Appointment>)
    ensures DayTotal(a + b) == Plus(DayTotal(a), DayTotal(b))
    decreases |b|
  {
    if b == [] {
      assert a + b == a;
    } else {
      var prefix := b[..|b| - 1];
      assert (a + b)[..|a + b| - 1] == a + prefix;
      DayTotalAppend(a, prefix);
    }
  }

  /** Only the times of day count: an appointment from 23:00 to 01:00 the
      next day subtracts 22 hours from its day. */
  lemma CrossMidnightNegative(x: CivilDate)
    ensures Contribution(Appointment("", "", None, None, None,
                                     At(Timestamp(x, 23, 0, 0)), At(Timestamp(NextDay(x), 1, 0, 0))))
            == Hundredths(-2200)
  {
  }

  /** 09:00 to 10:30 and 14:00 to 14:45 make 2.25 hours; ten minutes count as 0.17. */
  lemma ExampleDay(x: CivilDate)
    ensures var first := Appointment("a", "", None, None, None, At(Timestamp(x, 9, 0, 0)), At(Timestamp(x, 10, 30, 0)));
            var second := Appointment("b", "", None, None, None, At(Timestamp(x, 14, 0, 0)), At(Timestamp(x, 14, 45, 0)));
            DayTotal([first]) == Hundredths(150) && DayTotal([first, second]) == Hundredths(225)
    ensures RoundedHours(10) == 17
  {
  }
}
