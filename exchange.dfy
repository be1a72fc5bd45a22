/** The decision and translation logic of the Exchange calendar adapter: which of a
    room's calendars to use, how backend events become the platform's events, how a
    platform event becomes a backend event request, the window of today's query, and
    how each backend reply is judged. The backend's replies are inputs and the requests
    the adapter would send are outputs; nothing here performs I/O. */
module Exchange {
  import opened Wrappers
  import opened CivilCalendar
  import opened DateTimeLayout

  // ---------------------------------------------------------------------------
  // Records

  /** The adapter's configuration: the room name matched against calendar names and the
      backend resource (mailbox) addressed by every call. */
  datatype Config = Config(roomId: string, roomResource: string)

  /** A calendar as the calendar-list endpoint describes it. */
  datatype CalendarEntry = CalendarEntry(id: string, name: string)

  /** A backend date: a zone-less date-time text and a zone label. */
  datatype ExchangeDate = ExchangeDate(dateTime: string, timeZone: string)

  datatype EventBody = EventBody(contentType: string, content: string)

  /** An event as the calendar-view endpoint returns it (the fields the adapter reads). */
  datatype ExchangeEvent = ExchangeEvent(subject: string, start: ExchangeDate, end: ExchangeDate)

  datatype Attendee = Attendee(address: string, name: string, kind: string)

  /** The body of an event-creation request. */
  datatype EventRequest = EventRequest(
    subject: string, body: EventBody, start: ExchangeDate, end: ExchangeDate, attendees: seq<Attendee>)

  /** The platform's generic event. */
  datatype Event = Event(title: string, startTime: Time, endTime: Time)

  /** The calendar-view request: resource, calendar and the query's two date-times. */
  datatype ViewRequest = ViewRequest(resource: string, calendarId: string, startDateTime: string, endDateTime: string)

  /** The event-creation request: resource, calendar and body. */
  datatype CreateRequest = CreateRequest(resource: string, calendarId: string, body: EventRequest)

  // ---------------------------------------------------------------------------
  // Replies and errors

  /** What can go wrong, without the message text. */
  datatype Cause =
    | Transport         // the request could not be sent or no reply came
    | UnreadableBody    // the reply body could not be read
    | BadStatus(code: int)
    | BadJson           // the body did not decode
    | NoCalendars
    | BadStartTime
    | BadEndTime

  /** The step of an operation that failed. */
  datatype Stage = TokenStage | CalendarStage | ViewStage | CreateStage

  datatype Error = Error(stage: Stage, cause: Cause)

  /** A reply body: unreadable, not decodable, or decoded. */
  datatype Body<T> = Unreadable | Malformed | Decoded(value: T)

  /** The outcome of one HTTP round trip. */
  datatype Response<T> = Unreachable | Answered(status: int, body: Body<T>)

  /** Go's `/` on integers: the quotient truncated toward zero. */
  function GoQuotient(a: int, b: int): int
    requires b > 0
  {
    if a >= 0 then a / b else -((-a) / b)
  }

  /** The status test `resp.StatusCode/100 != 2`, negated. */
  function Is2xx(status: int): (ok: bool)
    ensures ok <==> 200 <= status <= 299
  {
    GoQuotient(status, 100) == 2
  }

  /** The checks made of a reply whose body is read before its status is tested: the
      reply came, its body was read, its status is 2xx, its body decodes. */
  function Decode<T>(reply: Response<T>): (r: Result<T, Cause>)
    ensures r.Ok? <==> reply.Answered? && Is2xx(reply.status) && reply.body.Decoded?
    ensures r.Ok? ==> r.value == reply.body.value
    ensures reply.Answered? && !reply.body.Unreadable? && !Is2xx(reply.status) ==> r == Err(BadStatus(reply.status))
  {
    match reply
    case Unreachable => Err(Transport)
    case Answered(status, body) =>
      if body.Unreadable? then Err(UnreadableBody)
      else if !Is2xx(status) then Err(BadStatus(status))
      else if body.Malformed? then Err(BadJson)
      else Ok(body.value)
  }

  /** The checks made of the creation reply: its body is read only when the status is not 2xx. */
  function PostOutcome(reply: Response<()>): (r: Result<(), Cause>)
    ensures r.Ok? <==> reply.Answered? && Is2xx(reply.status)
    ensures r.Err? && reply.Answered? ==> r.error == (if reply.body.Unreadable? then UnreadableBody else BadStatus(reply.status))
  {
    match reply
    case Unreachable => Err(Transport)
    case Answered(status, body) =>
      if Is2xx(status) then Ok(())
      else if body.Unreadable? then Err(UnreadableBody)
      else Err(BadStatus(status))
  }

  // ---------------------------------------------------------------------------
  // Calendar selection

  /** `k` is the first calendar named `roomId`. */
  predicate FirstNamed(calendars: seq<CalendarEntry>, roomId: string, k: int) {
    0 <= k < |calendars| && calendars[k].name == roomId
    && forall j :: 0 <= j < k ==> calendars[j].name != roomId
  }

  /** Index of the first calendar named `roomId`, or the length when none is. */
  function FirstNamedIndex(calendars: seq<CalendarEntry>, roomId: string): (k: nat)
    ensures k <= |calendars|
    ensures k < |calendars| ==> FirstNamed(calendars, roomId, k)
    ensures k == |calendars| ==> forall j :: 0 <= j < |calendars| ==> calendars[j].name != roomId
  {
    if |calendars| == 0 then 0
    else if calendars[0].name == roomId then 0
    else 1 + FirstNamedIndex(calendars[1..], roomId)
  }

  /** The selection rule, as a definition: no calendar is an error, a single calendar is
      taken whatever its name, and among several the first named `roomId` is taken, or the
      first of all when none is. */
  function Selection(calendars: seq<CalendarEntry>, roomId: string): Result<string, Cause> {
    if |calendars| == 0 then Err(NoCalendars)
    else if |calendars| > 1 && FirstNamedIndex(calendars, roomId) < |calendars| then
      Ok(calendars[FirstNamedIndex(calendars, roomId)].id)
    else Ok(calendars[0].id)
  }

  /** The scan of `GetCalendarID` over the decoded calendar list. */
  method SelectCalendar(calendars: seq<CalendarEntry>, roomId: string) returns (r: Result<string, Cause>)
    ensures r == Selection(calendars, roomId)
    ensures r.Err? <==> |calendars| == 0
    ensures r.Err? ==> r.error == NoCalendars
    ensures |calendars| == 1 ==> r == Ok(calendars[0].id)
    ensures |calendars| > 1 ==> forall k :: FirstNamed(calendars, roomId, k) ==> r == Ok(calendars[k].id)
    ensures |calendars| > 1 && (forall j :: 0 <= j < |calendars| ==> calendars[j].name != roomId)
            ==> r == Ok(calendars[0].id)
    ensures r.Ok? ==> exists k :: 0 <= k < |calendars| && calendars[k].id == r.value
  {
    if |calendars| == 0 {
      return Err(NoCalendars);
    }
    if |calendars| > 1 {
      var i := 0;
      while i < |calendars|
        invariant 0 <= i <= |calendars|
        invariant forall j :: 0 <= j < i ==> calendars[j].name != roomId
      {
        if roomId == calendars[i].name {
          assert FirstNamed(calendars, roomId, i);
          return Ok(calendars[i].id);
        }
        i := i + 1;
      }
    }
    return Ok(calendars[0].id);
  }

  /** The calendar an operation resolves from the calendar-list reply. */
  function Resolved(config: Config, reply: Response<seq<CalendarEntry>>): Result<string, Cause> {
    match Decode(reply)
    case Err(cause) => Err(cause)
    case Ok(calendars) => Selection(calendars, config.roomId)
  }

  /** `GetCalendarID` after its request: the reply checks, then the selection. */
  method GetCalendarId(config: Config, reply: Response<seq<CalendarEntry>>) returns (r: Result<string, Cause>)
    ensures r == Resolved(config, reply)
  {
    var calendars := Decode(reply);
    if calendars.Err? {
      return Err(calendars.error);
    }
    r := SelectCalendar(calendars.value, config.roomId);
  }

  // ---------------------------------------------------------------------------
  // Reading events

  /** One backend event read as the platform's event: start and end are parsed as UTC
      and then displayed in the local zone; the start is parsed first. */
  function ReadEvent(e: ExchangeEvent, zone: int): Result<Event, Cause> {
    match Parse(e.start.dateTime)
    case None => Err(BadStartTime)
    case Some(start) =>
      match Parse(e.end.dateTime)
      case None => Err(BadEndTime)
      case Some(end) => Ok(Event(e.subject, In(start, zone), In(end, zone)))
  }

  /** An event reads exactly when both of its texts parse; the start is judged first. */
  lemma ReadEventOutcome(e: ExchangeEvent, zone: int)
    ensures ReadEvent(e, zone).Ok? <==> Parse(e.start.dateTime).Some? && Parse(e.end.dateTime).Some?
    ensures ReadEvent(e, zone) == Err(BadStartTime) <==> Parse(e.start.dateTime).None?
    ensures ReadEvent(e, zone) == Err(BadEndTime) <==> Parse(e.start.dateTime).Some? && Parse(e.end.dateTime).None?
  {
  }

  /** The outcome of reading events one by one: the first error, or else every value in
      order. */
  function Collect(outcomes: seq<Result<Event, Cause>>): Result<seq<Event>, Cause>
    decreases |outcomes|
  {
    if outcomes == [] then Ok([])
    else
      var init :- Collect(outcomes[..|outcomes| - 1]);
      var last :- outcomes[|outcomes| - 1];
      Ok(init + [last])
  }

  /** Collecting succeeds exactly when every read does, and then keeps every value in
      order. */
  lemma {:induction false} CollectOk(outcomes: seq<Result<Event, Cause>>)
    ensures Collect(outcomes).Ok? <==> forall i :: 0 <= i < |outcomes| ==> outcomes[i].Ok?
    ensures Collect(outcomes).Ok? ==> |Collect(outcomes).value| == |outcomes|
    ensures Collect(outcomes).Ok? ==> forall i :: 0 <= i < |outcomes| ==> Collect(outcomes).value[i] == outcomes[i].value
    decreases |outcomes|
  {
    if outcomes != [] {
      var n := |outcomes| - 1;
      CollectOk(outcomes[..n]);
      assert forall i :: 0 <= i < n ==> outcomes[..n][i] == outcomes[i];
    }
  }

  /** A failed collection reports the error of the first read that failed. */
  lemma {:induction false} CollectFirstError(outcomes: seq<Result<Event, Cause>>)
    ensures Collect(outcomes).Err? ==>
              exists k :: 0 <= k < |outcomes| && outcomes[k] == Err(Collect(outcomes).error)
                          && forall j :: 0 <= j < k ==> outcomes[j].Ok?
    decreases |outcomes|
  {
    if outcomes != [] {
      var n := |outcomes| - 1;
      var init := outcomes[..n];
      assert forall i :: 0 <= i < n ==> init[i] == outcomes[i];
      if Collect(init).Err? {
        CollectFirstError(init);
        var k :| 0 <= k < n && init[k] == Err(Collect(init).error) && forall j :: 0 <= j < k ==> init[j].Ok?;
        assert outcomes[k] == Err(Collect(outcomes).error);
      } else {
        CollectOk(init);
      }
    }
  }

  /** Once a prefix has been collected, a failing next read decides the whole result. */
  lemma {:induction false} CollectStops(outcomes: seq<Result<Event, Cause>>, i: int)
    requires 0 <= i < |outcomes|
    requires Collect(outcomes[..i]).Ok? && outcomes[i].Err?
    ensures Collect(outcomes) == Err(outcomes[i].error)
    decreases |outcomes|
  {
    var n := |outcomes| - 1;
    if i < n {
      assert outcomes[..n][..i] == outcomes[..i];
      assert outcomes[..n][i] == outcomes[i];
      CollectStops(outcomes[..n], i);
    } else {
      assert outcomes[..n] == outcomes[..i];
    }
  }

  /** Each backend event read on its own. */
  function Reads(events: seq<ExchangeEvent>, zone: int): (outcomes: seq<Result<Event, Cause>>)
    ensures |outcomes| == |events|
    ensures forall i :: 0 <= i < |events| ==> outcomes[i] == ReadEvent(events[i], zone)
  {
    seq(|events|, i requires 0 <= i < |events| => ReadEvent(events[i], zone))
  }

  /** The events read in order, stopping at the first one that does not parse: the
      specification of the loop in `GetEvents`. */
  function ReadAll(events: seq<ExchangeEvent>, zone: int): Result<seq<Event>, Cause> {
    Collect(Reads(events, zone))
  }

  /** Reading succeeds exactly when every backend event reads, and then gives one event
      per backend event, in the same order. */
  lemma ReadAllOk(events: seq<ExchangeEvent>, zone: int)
    ensures ReadAll(events, zone).Ok? <==> forall i :: 0 <= i < |events| ==> ReadEvent(events[i], zone).Ok?
    ensures ReadAll(events, zone).Ok? ==> |ReadAll(events, zone).value| == |events|
    ensures ReadAll(events, zone).Ok? ==>
              forall i :: 0 <= i < |events| ==> ReadAll(events, zone).value[i] == ReadEvent(events[i], zone).value
  {
    CollectOk(Reads(events, zone));
  }

  /** A failed read reports the error of the first backend event that does not read. */
  lemma ReadAllFirstError(events: seq<ExchangeEvent>, zone: int)
    ensures ReadAll(events, zone).Err? ==>
              exists k :: 0 <= k < |events| && ReadEvent(events[k], zone) == Err(ReadAll(events, zone).error)
                          && forall j :: 0 <= j < k ==> ReadEvent(events[j], zone).Ok?
  {
    CollectFirstError(Reads(events, zone));
  }

  /** The loop of `GetEvents`: every backend event is read, in order; the first one that
      does not parse fails the whole call. */
  method ReadEvents(events: seq<ExchangeEvent>, zone: int) returns (r: Result<seq<Event>, Cause>)
    ensures r == ReadAll(events, zone)
  {
    ghost var outcomes := Reads(events, zone);
    var out: seq<Event> := [];
    for i := 0 to |events|
      invariant Collect(outcomes[..i]) == Ok(out)
    {
      var event := ReadEvent(events[i], zone);
      assert event == outcomes[i];
      assert outcomes[..i + 1][..i] == outcomes[..i];
      if event.Err? {
        CollectStops(outcomes, i);
        return Err(event.error);
      }
      out := out + [event.value];
    }
    assert outcomes[..|events|] == outcomes;
    return Ok(out);
  }

  /** A read event carries the backend subject, the local zone, and the instants the
      backend texts name when read as UTC, in whichever form `time.Parse` accepted them. */
  lemma ReadEventInstants(e: ExchangeEvent, zone: int)
    requires ReadEvent(e, zone).Ok?
    ensures ReadEvent(e, zone).value.title == e.subject
    ensures SameInstant(ReadEvent(e, zone).value.startTime, Parse(e.start.dateTime).value)
    ensures SameInstant(ReadEvent(e, zone).value.endTime, Parse(e.end.dateTime).value)
    ensures ReadEvent(e, zone).value.startTime.offset == zone && ReadEvent(e, zone).value.endTime.offset == zone
  {
  }

  /** For backend texts of the layout's shape, the read instants rendered in UTC give the
      texts back. */
  lemma ReadEventKeepsInstants(e: ExchangeEvent, zone: int)
    requires LayoutShape(e.start.dateTime) && LayoutShape(e.end.dateTime)
    requires ReadEvent(e, zone).Ok?
    ensures Format(In(ReadEvent(e, zone).value.startTime, 0)) == e.start.dateTime
    ensures Format(In(ReadEvent(e, zone).value.endTime, 0)) == e.end.dateTime
  {
    FormatParse(e.start.dateTime);
    FormatParse(e.end.dateTime);
  }

  /** The wall clock of a read event in the local zone is the backend's text only when the
      local zone is UTC: the instant is kept, not the wall clock. */
  lemma ReadEventWallClock(e: ExchangeEvent, zone: int)
    requires LayoutShape(e.start.dateTime) && ReadEvent(e, zone).Ok?
    requires FourDigitYear(ReadEvent(e, zone).value.startTime)
    ensures Format(ReadEvent(e, zone).value.startTime) == e.start.dateTime <==> zone == 0
  {
    var t := ReadEvent(e, zone).value.startTime;
    FormatParse(e.start.dateTime);
    ParseFormat(t);
  }

  // ---------------------------------------------------------------------------
  // Writing an event

  /** The request body `CreateEvent` builds: start and end shown in UTC and formatted
      without zone, the zone label "Etc/GMT", an empty HTML body and no attendees. */
  function NewEventRequest(e: Event): EventRequest {
    var start := In(e.startTime, 0);
    var end := In(e.endTime, 0);
    EventRequest(
      e.title,
      EventBody("HTML", ""),
      ExchangeDate(Format(start), "Etc/GMT"),
      ExchangeDate(Format(end), "Etc/GMT"),
      [])
  }

  /** The request keeps the title and uses the fixed body, zone labels and attendee list. */
  lemma EventRequestFields(e: Event)
    ensures NewEventRequest(e).subject == e.title
    ensures NewEventRequest(e).body == EventBody("HTML", "")
    ensures NewEventRequest(e).start.timeZone == "Etc/GMT" && NewEventRequest(e).end.timeZone == "Etc/GMT"
    ensures NewEventRequest(e).attendees == []
  {
  }

  /** The request's two date-times have the layout's shape and are the UTC wall clocks of
      the event's instants, to the second. */
  lemma EventRequestFaithful(e: Event)
    requires FourDigitYear(In(e.startTime, 0)) && FourDigitYear(In(e.endTime, 0))
    ensures LayoutShape(NewEventRequest(e).start.dateTime) && LayoutShape(NewEventRequest(e).end.dateTime)
    ensures Parse(NewEventRequest(e).start.dateTime) == Some(Time(e.startTime.sec, 0, 0))
    ensures Parse(NewEventRequest(e).end.dateTime) == Some(Time(e.endTime.sec, 0, 0))
  {
    var req := NewEventRequest(e);
    var start, end := In(e.startTime, 0), In(e.endTime, 0);
    assert req.start.dateTime == Format(start) && req.end.dateTime == Format(end);
    FormatShape(start);
    FormatShape(end);
    ParseFormat(start);
    ParseFormat(end);
  }

  /** The request's start text sorts no later than its end text exactly when the event
      starts no later than it ends, to the second. */
  lemma EventRequestOrder(e: Event)
    requires FourDigitYear(In(e.startTime, 0)) && FourDigitYear(In(e.endTime, 0))
    ensures e.startTime.sec <= e.endTime.sec
            <==> LexLe(NewEventRequest(e).start.dateTime, NewEventRequest(e).end.dateTime)
  {
    FormatOrder(In(e.startTime, 0), In(e.endTime, 0));
  }

  /** An event written and read back keeps its title and instants, truncated to the second. */
  lemma WriteThenRead(e: Event, zone: int)
    requires FourDigitYear(In(e.startTime, 0)) && FourDigitYear(In(e.endTime, 0))
    ensures ReadEvent(ExchangeEvent(NewEventRequest(e).subject, NewEventRequest(e).start, NewEventRequest(e).end), zone)
            == Ok(Event(e.title, Time(e.startTime.sec, 0, zone), Time(e.endTime.sec, 0, zone)))
  {
    EventRequestFaithful(e);
  }

  // ---------------------------------------------------------------------------
  // Today's query window

  /** The first and last second of the local day of `now`, shown in UTC. */
  datatype Window = Window(first: Time, last: Time)

  /** The window of `GetEvents`: midnight and 23:59:59 of the local day of `now` in its
      zone, converted to UTC. */
  function TodayWindow(now: Time): Window {
    var today := ClockOf(WallSeconds(now)).date;
    var beginning := DateIn(Clock(today, 0, 0, 0), now.offset);
    var ending := DateIn(Clock(today, 23, 59, 59), now.offset);
    Window(In(beginning, 0), In(ending, 0))
  }

  /** The window starts at local midnight of the day of `now`, lasts 86399 seconds and
      holds the second of `now`; both ends are shown in UTC. */
  lemma TodayWindowBounds(now: Time)
    ensures TodayWindow(now).first.offset == 0 && TodayWindow(now).last.offset == 0
    ensures TodayWindow(now).first.nsec == 0 && TodayWindow(now).last.nsec == 0
    ensures TodayWindow(now).last.sec - TodayWindow(now).first.sec == 86399
    ensures TodayWindow(now).first.sec <= now.sec <= TodayWindow(now).last.sec
    ensures (TodayWindow(now).first.sec + now.offset) % 86400 == 0
    ensures ClockOf(WallSeconds(In(TodayWindow(now).first, now.offset)))
            == Clock(ClockOf(WallSeconds(now)).date, 0, 0, 0)
  {
    var w := WallSeconds(now);
    var day := w / 86400;
    var today := ClockOf(w).date;
    assert today == CivilFromDays(day);
    assert DaysFromCivil(today) == day by {
      DaysFromCivilOfCivil(day);
    }
    assert TodayWindow(now).first.sec == day * 86400 - now.offset;
    assert TodayWindow(now).last.sec == day * 86400 + 86399 - now.offset;
    assert day * 86400 <= w < day * 86400 + 86400;
    ClockOfClockSeconds(Clock(today, 0, 0, 0));
  }

  /** The two query texts have the layout's shape, name the window's instants when read as
      UTC, and sort in order. */
  lemma TodayWindowQuery(now: Time)
    requires FourDigitYear(TodayWindow(now).first) && FourDigitYear(TodayWindow(now).last)
    ensures LayoutShape(Format(TodayWindow(now).first)) && LayoutShape(Format(TodayWindow(now).last))
    ensures Parse(Format(TodayWindow(now).first)) == Some(TodayWindow(now).first)
    ensures Parse(Format(TodayWindow(now).last)) == Some(TodayWindow(now).last)
    ensures LexLe(Format(TodayWindow(now).first), Format(TodayWindow(now).last))
  {
    var w := TodayWindow(now);
    TodayWindowBounds(now);
    FormatShape(w.first);
    FormatShape(w.last);
    ParseFormat(w.first);
    ParseFormat(w.last);
    FormatOrder(w.first, w.last);
  }

  // ---------------------------------------------------------------------------
  // The two operations

  /** `GetEvents`: token, calendar, then the calendar view of today's window, each reply
      judged before the next step; the events are read in the zone of `now`. */
  method GetEvents(
    config: Config, now: Time, token: Result<string, Cause>,
    calendars: Response<seq<CalendarEntry>>, view: Response<seq<ExchangeEvent>>)
    returns (sent: Option<ViewRequest>, r: Result<seq<Event>, Error>)
    ensures token.Err? ==> sent == None && r == Err(Error(TokenStage, token.error))
    ensures token.Ok? && Resolved(config, calendars).Err?
            ==> sent == None && r == Err(Error(CalendarStage, Resolved(config, calendars).error))
    ensures token.Ok? && Resolved(config, calendars).Ok?
            ==> sent == Some(ViewRequest(config.roomResource, Resolved(config, calendars).value,
                                         Format(TodayWindow(now).first), Format(TodayWindow(now).last)))
    ensures token.Ok? && Resolved(config, calendars).Ok? && Decode(view).Err?
            ==> r == Err(Error(ViewStage, Decode(view).error))
    ensures token.Ok? && Resolved(config, calendars).Ok? && Decode(view).Ok?
            ==> r == (match ReadAll(Decode(view).value, now.offset)
                      case Ok(events) => Ok(events)
                      case Err(c) => Err(Error(ViewStage, c)))
    ensures (calendars.Answered? && !Is2xx(calendars.status)) || (view.Answered? && !Is2xx(view.status)) ==> r.Err?
  {
    if token.Err? {
      return None, Err(Error(TokenStage, token.error));
    }
    var calendarId := GetCalendarId(config, calendars);
    if calendarId.Err? {
      return None, Err(Error(CalendarStage, calendarId.error));
    }
    var window := TodayWindow(now);
    sent := Some(ViewRequest(config.roomResource, calendarId.value, Format(window.first), Format(window.last)));
    var events := Decode(view);
    if events.Err? {
      return sent, Err(Error(ViewStage, events.error));
    }
    var read := ReadEvents(events.value, now.offset);
    if read.Err? {
      return sent, Err(Error(ViewStage, read.error));
    }
    r := Ok(read.value);
  }

  /** `CreateEvent`: token, calendar, then the creation request; only its status decides. */
  method CreateEvent(
    config: Config, e: Event, token: Result<string, Cause>,
    calendars: Response<seq<CalendarEntry>>, post: Response<()>)
    returns (sent: Option<CreateRequest>, r: Result<(), Error>)
    ensures token.Err? ==> sent == None && r == Err(Error(TokenStage, token.error))
    ensures token.Ok? && Resolved(config, calendars).Err?
            ==> sent == None && r == Err(Error(CalendarStage, Resolved(config, calendars).error))
    ensures token.Ok? && Resolved(config, calendars).Ok?
            ==> (&& sent == Some(CreateRequest(config.roomResource, Resolved(config, calendars).value, NewEventRequest(e)))
                 && r == (match PostOutcome(post) case Ok(_) => Ok(()) case Err(c) => Err(Error(CreateStage, c))))
    ensures r.Ok? <==> token.Ok? && Resolved(config, calendars).Ok? && post.Answered? && Is2xx(post.status)
  {
    if token.Err? {
      return None, Err(Error(TokenStage, token.error));
    }
    var calendarId := GetCalendarId(config, calendars);
    if calendarId.Err? {
      return None, Err(Error(CalendarStage, calendarId.error));
    }
    sent := Some(CreateRequest(config.roomResource, calendarId.value, NewEventRequest(e)));
    var outcome := PostOutcome(post);
    if outcome.Err? {
      return sent, Err(Error(CreateStage, outcome.error));
    }
    r := Ok(());
  }
}
