/**
 * The agenda component: provider records mapped to calendars and
 * appointments, and the appointment query with its range guard.
 *
 * The calendar provider is an injected `Gateway` of three functions. Every
 * operation returns, beside its outcome, the requests it sent to the
 * gateway in the order it sent them.
 */
module Agenda {
  import opened Wrappers
  import opened CivilTime

  /** One entry of the provider's event colour palette. */
  datatype ColorDef = ColorDef(background: string, foreground: string)

  /** The event palette, keyed by colour id. */
  type ColorTable = map<string, ColorDef>

  /** One record of the provider's calendar list; `selected` may be absent. */
  datatype RawCalendar = RawCalendar(
    id: string,
    summary: string,
    timeZone: string,
    foregroundColor: string,
    backgroundColor: string,
    selected: Option<bool>)

  datatype CalendarColor = CalendarColor(foreground: string, background: string)

  datatype Calendar = Calendar(
    id: string,
    summary: string,
    timezone: string,
    color: CalendarColor,
    hidden: bool)

  /** The start or end of a provider event: a precise instant, a whole day, or either missing. */
  datatype EventTime = EventTime(dateTime: Option<Timestamp>, date: Option<Timestamp>)

  datatype RawEvent = RawEvent(
    id: string,
    summary: string,
    description: Option<string>,
    location: Option<string>,
    colorId: Option<string>,
    start: EventTime,
    end: EventTime)

  /** A Date object: an instant, or the Invalid Date of `new Date(undefined)`. */
  datatype JsDate = At(t: Timestamp) | InvalidDate

  datatype Appointment = Appointment(
    id: string,
    title: string,
    description: Option<string>,
    location: Option<string>,
    color: Option<ColorDef>,
    start: JsDate,
    end: JsDate)

  datatype Error = RangeError(message: string) | ProviderError(cause: string)

  const RangeMessage := "the start time should be before the end time"
  const PrimaryCalendar := "primary"
  const DefaultColorId := "1"

  datatype CalendarListQuery = CalendarListQuery(showHidden: bool)

  datatype EventQuery = EventQuery(calendarId: string, timeMin: Timestamp, timeMax: Timestamp)

  datatype Request = ListCalendars(listQuery: CalendarListQuery) | GetColors | ListEvents(eventQuery: EventQuery)

  /** The calendar provider, seen as three functions that answer or fail. */
  datatype Gateway = Gateway(
    listCalendars: CalendarListQuery -> Result<seq<RawCalendar>, Error>,
    getColors: () -> Result<ColorTable, Error>,
    listEvents: EventQuery -> Result<seq<RawEvent>, Error>)

  /** An outcome together with the gateway requests that produced it. */
  datatype Fetched<T> = Fetched(result: Result<T, Error>, requests: seq<Request>)

  /** JavaScript truthiness of an optional string: absent and "" are falsy. */
  predicate Truthy(s: Option<string>) {
    s.Some? && s.value != ""
  }

  function ToCalendar(raw: RawCalendar): Calendar {
    Calendar(raw.id, raw.summary, raw.timeZone,
             CalendarColor(raw.foregroundColor, raw.backgroundColor),
             !(raw.selected == Some(true)))
  }

  /** getCalendars: list every calendar, hidden ones included, and map each
      record in provider order. */
  method GetCalendars(gw: Gateway) returns (out: Fetched<seq<Calendar>>)
    ensures out.requests == [ListCalendars(CalendarListQuery(true))]
    ensures gw.listCalendars(CalendarListQuery(true)).Failure? ==>
              out.result == Failure(gw.listCalendars(CalendarListQuery(true)).error)
    ensures gw.listCalendars(CalendarListQuery(true)).Success? ==>
              var raws := gw.listCalendars(CalendarListQuery(true)).value;
              && out.result.Success?
              && |out.result.value| == |raws|
              && forall i | 0 <= i < |raws| ::
                   var c := out.result.value[i];
                   && c.id == raws[i].id
                   && c.summary == raws[i].summary
                   && c.timezone == raws[i].timeZone
                   && c.color.foreground == raws[i].foregroundColor
                   && c.color.background == raws[i].backgroundColor
                   && (c.hidden <==> raws[i].selected != Some(true))
  {
    var query := CalendarListQuery(true);
    var response := gw.listCalendars(query);
    if response.Failure? {
      return Fetched(Failure(response.error), [ListCalendars(query)]);
    }
    var res := response.value;
    var ret: seq<Calendar> := [];
    var i := 0;
    while i < |res|
      invariant 0 <= i <= |res|
      invariant |ret| == i
      invariant forall j | 0 <= j < i :: ret[j] == ToCalendar(res[j])
    {
      ret := ret + [ToCalendar(res[i])];
      i := i + 1;
    }
    out := Fetched(Success(ret), [ListCalendars(query)]);
  }

  /** The palette key of an event: its colour id, or "1" when it has none. */
  function ColorKey(colorId: Option<string>): string {
    if Truthy(colorId) then colorId.value else DefaultColorId
  }

  /** `new Date(t.dateTime || t.date)`. */
  function ResolveTime(t: EventTime): JsDate {
    if t.dateTime.Some? then At(t.dateTime.value)
    else if t.date.Some? then At(t.date.value)
    else InvalidDate
  }

  function ToAppointment(event: RawEvent, colors: ColorTable): Appointment {
    var key := ColorKey(event.colorId);
    Appointment(event.id, event.summary, event.description, event.location,
                if key in colors then Some(colors[key]) else None,
                ResolveTime(event.start), ResolveTime(event.end))
  }

  /** The event mapping of getAppointments: one appointment per event, in
      provider order, with the colour looked up in the palette (key "1" for
      an event without a colour id) and each time taken from `dateTime` when
      present, else from `date`, and the Invalid Date when both are absent. */
  function MapEvents(events: seq<RawEvent>, colors: ColorTable): (apps: seq<Appointment>)
    ensures |apps| == |events|
    ensures forall i | 0 <= i < |events| ::
              && apps[i].id == events[i].id
              && apps[i].title == events[i].summary
              && apps[i].description == events[i].description
              && apps[i].location == events[i].location
    ensures forall i | 0 <= i < |events| ::
              && (Truthy(events[i].colorId) && events[i].colorId.value in colors ==>
                    apps[i].color == Some(colors[events[i].colorId.value]))
              && (!Truthy(events[i].colorId) && DefaultColorId in colors ==>
                    apps[i].color == Some(colors[DefaultColorId]))
              && (apps[i].color.Some? ==> apps[i].color.value in colors.Values)
              && (apps[i].color.None? <==> ColorKey(events[i].colorId) !in colors)
    ensures forall i | 0 <= i < |events| ::
              && (events[i].start.dateTime.Some? ==> apps[i].start == At(events[i].start.dateTime.value))
              && (events[i].start.dateTime.None? && events[i].start.date.Some? ==>
                    apps[i].start == At(events[i].start.date.value))
              && (events[i].end.dateTime.Some? ==> apps[i].end == At(events[i].end.dateTime.value))
              && (events[i].end.dateTime.None? && events[i].end.date.Some? ==>
                    apps[i].end == At(events[i].end.date.value))
              && (events[i].start.dateTime.None? && events[i].start.date.None? ==> apps[i].start == InvalidDate)
              && (events[i].end.dateTime.None? && events[i].end.date.None? ==> apps[i].end == InvalidDate)
  {
    seq(|events|, i requires 0 <= i < |events| => ToAppointment(events[i], colors))
  }

  /** The calendar an event query is addressed to: the configured one, or "primary". */
  function CalendarName(calendarId: Option<string>): string {
    if Truthy(calendarId) then calendarId.value else PrimaryCalendar
  }

  /** getAppointments: the appointments between `start` (default: the start
      of today) and `end` (default: the end of today). The two defaults read
      the clock separately: `nowStart` is the reading of getDayStartTime and
      `nowEnd` the later one of getDayEndTime. The range is checked before
      anything is sent; then the palette is fetched, and then the events of
      the range. */
  function GetAppointments(calendarId: Option<string>, start: Option<Timestamp>, end: Option<Timestamp>,
                           nowStart: Timestamp, nowEnd: Timestamp, gw: Gateway): (out: Fetched<seq<Appointment>>)
    ensures var s := start.GetOr(DayStartTime(nowStart));
            var e := end.GetOr(DayEndTime(nowEnd));
            && (!Before(s, e) <==> out.result == Failure(RangeError(RangeMessage)) && out.requests == [])
            && (Before(s, e) ==> 1 <= |out.requests| <= 2 && out.requests[0] == GetColors)
            && (Before(s, e) && gw.getColors().Failure? ==>
                  out == Fetched(Failure(gw.getColors().error), [GetColors]))
            && (Before(s, e) && gw.getColors().Success? ==>
                  var query := EventQuery(CalendarName(calendarId), s, e);
                  && out.requests == [GetColors, ListEvents(query)]
                  && (gw.listEvents(query).Failure? ==> out.result == Failure(gw.listEvents(query).error))
                  && (gw.listEvents(query).Success? ==>
                        out.result == Success(MapEvents(gw.listEvents(query).value, gw.getColors().value))))
  {
    var s := start.GetOr(DayStartTime(nowStart));
    var e := end.GetOr(DayEndTime(nowEnd));
    if !Before(s, e) then
      Fetched(Failure(RangeError(RangeMessage)), [])
    else
      match gw.getColors()
      case Failure(err) => Fetched(Failure(err), [GetColors])
      case Success(colors) =>
        var query := EventQuery(CalendarName(calendarId), s, e);
        var requests := [GetColors, ListEvents(query)];
        match gw.listEvents(query)
        case Failure(err) => Fetched(Failure(err), requests)
        case Success(events) => Fetched(Success(MapEvents(events, colors)), requests)
  }

  /** With both bounds left to their defaults the query reaches the provider
      exactly when the second clock reading is not on an earlier day than the
      first; in particular whenever both readings fall on the same day. */
  lemma DefaultRangeAccepted(calendarId: Option<string>, nowStart: Timestamp, nowEnd: Timestamp, gw: Gateway)
    ensures (GetAppointments(calendarId, None, None, nowStart, nowEnd, gw).requests != [])
            <==> !DateBefore(DayStartTime(nowEnd).date, DayStartTime(nowStart).date)
  {
  }

  /** A call whose two clock readings straddle midnight asks for two days:
      from the midnight opening the first reading's day to 23:59:59 of the
      next day. */
  lemma DefaultRangeAcrossMidnight(calendarId: Option<string>, nowStart: Timestamp, nowEnd: Timestamp, gw: Gateway)
    requires ValidDate(nowStart.date) && ConstructorYear(nowStart.date.year) == nowStart.date.year
    requires nowEnd.date == NextDay(nowStart.date) && ConstructorYear(nowEnd.date.year) == nowEnd.date.year
    requires gw.getColors().Success?
    ensures GetAppointments(calendarId, None, None, nowStart, nowEnd, gw).requests
              == [GetColors, ListEvents(EventQuery(CalendarName(calendarId),
                                                   Timestamp(nowStart.date, 0, 0, 0),
                                                   Timestamp(NextDay(nowStart.date), 23, 59, 59)))]
  {
  }
}
