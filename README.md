# Agenda: day windows, record mapping and busy time

This project models the agenda component of a Google Calendar integration
(`api/Google/Agenda/index.js`) in Dafny, and proves what it computes:

- **Day windows.** `getDayStartTime` is local midnight at the start of today.
  `getDayEndTime` is one second before the next midnight. Both are built with
  `new Date(y, m, d)` and `setSeconds(-1)`, which carry day and second
  overflow across month and year ends (module `CivilTime`).
- **Record mapping.** `getCalendars` lists every calendar, hidden ones
  included, and turns each provider record into a calendar whose `hidden` flag
  is the negation of `selected`. `getAppointments` first checks that the range
  is in order. It then fetches the event colour palette and the events of the
  range, and maps each event to an appointment. The colour is looked up by the
  event's colour id, or by `1` when the event has none. Each time is taken from
  `dateTime`, or else from `date` (module `Agenda`).
- **Busy time.** `getBusyTime` walks seven consecutive calendar days from a
  start date. It queries each day's appointments between that day's midnight
  and the next one. Each appointment adds the difference of its end and start
  times of day, in hours rounded to two decimals. The first failed query
  aborts the whole report (module `BusyTime`).

The calendar provider is a `Gateway` value of three functions: list calendars,
get the colour palette, list events. Each can answer or fail. Every operation
returns a `Fetched` value: its outcome together with the requests it sent, in
order. "Rejected before any request" therefore reads `requests == []`. The
clock readings and the configured calendar id are parameters.
`getDayStartTime` and `getDayEndTime` each read the clock themselves, so
`getAppointments` takes two readings: `nowStart` for the default start and
`nowEnd`, taken later, for the default end. When the two readings fall on
either side of midnight, the default range covers two days.
`getBusyTime` reads the clock once, through `getDayStartTime`.

Dates are civil dates with a month index (0 = January) and hour, minute and
second fields. Second resolution is enough here: every instant the module
builds is a whole second. A JavaScript `Date` built from a missing value is
the Invalid Date (`JsDate.InvalidDate`), whose `getHours()` is NaN. A busy
total into which it enters is `Hours.NaN`. Hours are exact integers of
hundredths of an hour. `parseFloat((delta / 60).toFixed(2))` for a whole
number of minutes `delta` is the integer nearest to `5 * delta / 3`. Its
fraction is 0, 1/3 or 2/3, so there is never a tie.

## Model

| member | source | states |
|---|---|---|
| CivilTime.DayStartTime | api/Google/Agenda/index.js:11-14 | the result is a valid timestamp at 00:00:00; for a valid date of a year outside 0..99 it is on the same calendar date as `now` |
| CivilTime.DayEndTime | api/Google/Agenda/index.js:22-26 | the result is 23:59:59 on the date of the start of the day; for a valid date of a year outside 0..99, 23:59:59 of `now`'s own date |
| CivilTime.DefaultWindowOrdered | api/Google/Agenda/index.js:11-26 | for one clock reading, the start of its day is strictly before the end of its day; the default range of `getAppointments`, which reads the clock twice, is covered by `Agenda.DefaultRangeAccepted` |
| CivilTime.TwoDigitYearStart | api/Google/Agenda/index.js:11-14 | a clock in the year 50 gives a day start in 1950, because the Date constructor reads years 0..99 as 1900..1999 |
| CivilTime.LocalMidnightValid | api/Google/Agenda/index.js:163-164 | `new Date(y, m, d)` is a valid midnight for any integer arguments, overflowing ones included |
| CivilTime.LocalMidnightShift | api/Google/Agenda/index.js:163-164 | for a valid date, `new Date(y, m, d + k)` is midnight of the date k days later, across month and year ends |
| CivilTime.LocalMidnightNext | api/Google/Agenda/index.js:163-164 | raising the day argument by one gives the next calendar day, for any arguments |
| CivilTime.NextDayIsSuccessor | api/Google/Agenda/index.js:163-164 | no valid date lies strictly between a date and the next day, so consecutive windows skip no day |
| CivilTime.AddDaysAdditive | api/Google/Agenda/index.js:163-164 | moving a days and then b days is moving a + b days, for any signs |
| CivilTime.AddDaysValid | api/Google/Agenda/index.js:163-164 | day arithmetic on a valid date gives a valid date, later for positive and earlier for negative counts |
| CivilTime.SecondBeforeMidnight | api/Google/Agenda/index.js:24-25 | `setSeconds(-1)` on the midnight after a date is 23:59:59 of that date, across month and year ends |
| Agenda.GetCalendars | api/Google/Agenda/index.js:50-82 | exactly one request, the calendar list with hidden calendars included; a failure is passed on; on success, one calendar per record in the same order, with id, summary, time zone and both colours copied, and hidden exactly when `selected` is not true |
| Agenda.MapEvents | api/Google/Agenda/index.js:117-141 | one appointment per event in the same order, with id, title, description and location copied; the colour is the palette entry of a truthy colour id, or of `1` without one, is always a palette entry, and is absent exactly when that key is not in the palette; each time is `dateTime` when present, else `date`, and the Invalid Date when both are absent |
| Agenda.GetAppointments | api/Google/Agenda/index.js:92-147 | the range (defaults: the start of the day of the first clock reading and the end of the day of the second) is rejected with "the start time should be before the end time" and no request exactly when start is not before end; otherwise the palette is requested first, a palette failure stops there, and the event query names the configured calendar (or `primary`) and the range; its failure is passed on and its success is mapped by `MapEvents` |
| Agenda.DefaultRangeAccepted | api/Google/Agenda/index.js:94-99 | with both bounds left to their defaults the query reaches the provider exactly when the date of the second reading's day start is not before the date of the first reading's day start |
| Agenda.DefaultRangeAcrossMidnight | api/Google/Agenda/index.js:94-114 | when the two clock readings straddle midnight, the default query asks for the events from midnight of the first day to 23:59:59 of the next day |
| BusyTime.RoundedHours | api/Google/Agenda/index.js:176 | the contribution in hundredths is within a third of a hundredth of the exact `delta / 60` hours |
| BusyTime.RoundedHoursNearest | api/Google/Agenda/index.js:176 | every other whole number of hundredths is strictly farther from `delta / 60` hours |
| BusyTime.GetBusyTime | api/Google/Agenda/index.js:155-185 | the outcome and the requests equal the day-by-day report `BusyDays` over seven days from the start (default: start of today); a success holds exactly seven totals |
| BusyTime.BusyDaysFailureStays | api/Google/Agenda/index.js:181-183 | once a day has failed, later days change neither the error nor the requests |
| BusyTime.BusyDaysSucceeds | api/Google/Agenda/index.js:161-183 | the report succeeds exactly when every day's query succeeds |
| BusyTime.BusyDaysTotals | api/Google/Agenda/index.js:162-177 | a successful report holds one total per day, in day order, each the total of that day's appointments |
| BusyTime.BusyDaysRequests | api/Google/Agenda/index.js:162-167 | a successful report sent the requests of every day, in day order |
| BusyTime.BusyDaysFirstFailure | api/Google/Agenda/index.js:161-183 | when day n is the first to fail, the report fails with day n's error after the requests of days 0..n only |
| BusyTime.QuietDayIsZero | api/Google/Agenda/index.js:165 | a day whose query returns no appointment reports 0 |
| BusyTime.WindowsContiguous | api/Google/Agenda/index.js:163-164 | day n's window ends at the midnight where day n + 1's starts, which is the next calendar day; every window starts at a valid midnight and is non-empty |
| BusyTime.WindowsIncreasing | api/Google/Agenda/index.js:162-164 | a later day has a strictly later window |
| BusyTime.WindowDays | api/Google/Agenda/index.js:163-164 | for a start on a valid date of a year outside 0..99, day n's window runs from midnight n days after the start's date to midnight n + 1 days after it |
| BusyTime.AgendaDayRequests | api/Google/Agenda/index.js:97-114 | the agenda query never rejects a day window: it asks for the palette first, fails with the palette's error when that fails, and otherwise asks for the events of exactly that window |
| BusyTime.AgendaRequests | api/Google/Agenda/index.js:162-167 | with the palette available, every day sends two requests, the palette and that day's events, in day order |
| BusyTime.AgendaReportRequests | api/Google/Agenda/index.js:162-167 | a successful report over the agenda sent 14 requests, the palette and the events of each of the seven windows in order |
| BusyTime.AgendaPaletteFailure | api/Google/Agenda/index.js:101-104 | when the palette cannot be fetched, the report fails on the first day after that single request |
| BusyTime.DayTotalNaN | api/Google/Agenda/index.js:170-176 | a day's total is NaN exactly when one of its appointments has an Invalid Date |
| BusyTime.DayTotalApprox | api/Google/Agenda/index.js:169-177 | with real dates, the total is a number within a third of a hundredth per appointment of the exact sum of minute differences divided by 60 |
| BusyTime.DayTotalNonNegative | api/Google/Agenda/index.js:169-177 | when no appointment ends at an earlier time of day than it starts, the total is not negative |
| BusyTime.DayTotalAppend | api/Google/Agenda/index.js:169-177 | the total of a day split in two parts is the sum of the two parts' totals |
| BusyTime.CrossMidnightNegative | api/Google/Agenda/index.js:172-174 | only times of day count: 23:00 to 01:00 the next day contributes -22 hours |
| BusyTime.ExampleDay | api/Google/Agenda/index.js:169-176 | 09:00-10:30 counts 1.50 hours, adding 14:00-14:45 makes 2.25, and ten minutes count 0.17 |

## Left out

- The `Google` base class, the OAuth client and the construction of the SDK client (api/Google/Agenda/index.js:1-2, 35-44). The configured calendar id is a parameter.
- The network calls. They are the three functions of `Gateway`, which always give the same answer to the same query. A provider that answers differently on successive calls is not modelled.
- The query flags `prettyPrint`, `showDeleted`, `singleEvents` and `orderBy`. They are provider semantics; the event query keeps the calendar, `timeMin` and `timeMax`.
- Promises, `async`/`await` and `.then`/`.catch` chaining. Only the order of requests and the passing on of the first error are kept.
- `getBusyTime` calls `this.getAppointments` through an injected `AppointmentQuery`; `BusyTime.AgendaQuery` is the agenda's own query, and the `Agenda*` lemmas are about it.
- Milliseconds, the range limit of JavaScript dates, time zones and daylight saving time. Dates are unbounded civil dates at one-second resolution in one local zone.
- The parsing of the provider's date strings by `new Date(string)`. Event times arrive as already parsed local timestamps, and the model uses the hour and minute they carry. A date-only string such as `2019-01-01` is parsed as UTC midnight, so outside UTC its `getHours()` is another hour, possibly on the day before. That shift is not modelled.
- Floating-point accumulation of `ret[dayN] += ...`. Totals are exact sums of hundredths; the float sum may differ in its last bits.
- Arguments that are not Dates: a start or end given as a string, a number or an Invalid Date. `start` and `end` are optional `Timestamp` values with no further requirement. Only valid ones, with every field in range, stand for a Date. On those, `Before` is the order of `getTime()`. A value with out-of-range fields is compared field by field; it is not first normalised as `new Date(start)` would do.
- Raw records without a `start` or `end` object, and responses without `items`. In the source these throw; here the fields are always present.
- The `Appointment` and `Calendar` classes. Their source is not part of this model, so they are plain records of the fields passed to their constructors.
- CivilTime.DayStartTime: the same-date guarantee is stated only for years outside 0..99, because the Date constructor maps those years to 1900..1999 (see `CivilTime.TwoDigitYearStart`).
- CivilTime.DayEndTime: the same-date guarantee is likewise stated only for years outside 0..99.
