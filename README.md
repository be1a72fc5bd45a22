# Exchange calendar adapter, modelled in Dafny

This project models the decision and translation logic of the Exchange calendar
adapter (`byuoitav/exchange-calendar`, package `exchange`). The adapter lets a room
scheduler list today's events of a room's calendar and create new events there, over
Microsoft's Outlook REST API. The model covers:

- **Choosing the calendar** (`GetCalendarID`). The room's calendar-list reply is checked: transport, body, 2xx status, JSON. Then a calendar is chosen. No calendars is an error. A single calendar is taken whatever its name. Among several, the first whose name equals the room ID is taken, or else the first calendar.
- **Today's query window** (`GetEvents`). The window runs from local midnight to 23:59:59 on the day of "now" in its zone. Both ends are converted to UTC and formatted with the layout `2006-01-02T15:04:05`.
- **Reading events** (`GetEvents`). Each backend event's start and end text is parsed as UTC with Go's `time.Parse`, then shown in the local zone. The first text that does not parse fails the whole call.
- **Writing an event** (`CreateEvent`). Start and end are shown in UTC and formatted without a zone. The fixed parts of the request are the label `Etc/GMT`, an empty HTML body and no attendees. Only the creation reply's status decides success.
- **The status test** `resp.StatusCode/100 != 2`, with Go's truncating division.

Go's `time` package is modelled as far as this layout needs it:

- A time is an instant (Unix seconds plus nanoseconds) and a fixed zone offset. `In` changes only the offset.
- Civil dates use the proleptic Gregorian calendar, through day numbers.
- `Format` writes the wall clock with `appendInt`'s zero padding.
- `Parse` follows Go's field rules:
  - a four-digit year;
  - two-digit month, day, minute and second;
  - a one- or two-digit hour;
  - range and day-of-month checks;
  - an optional `.`/`,` fraction that the layout does not mention;
  - no trailing text.

Modules:

- `Wrappers`: `Option` and `Result`.
- `CivilCalendar`: days and dates.
- `DateTimeLayout`: times, `Format`, `Parse`, and their round trips and order.
- `Exchange`: the adapter's records, reply checks, the calendar selection, the read and write translations, the window, and the two operations `GetEvents` and `CreateEvent`.

The backend is never called. Each reply is an input (`Response`: unreachable, or a status plus a body that is unreadable, malformed or decoded). Each request the adapter would send is an output (`ViewRequest`, `CreateRequest`). The token is an input outcome.

Reading keeps the instant, not the backend's wall-clock text. calendar.go:83 and :87 parse the text as UTC, and calendar.go:94-95 only change the display zone. `ReadEventWallClock` proves, for 19-character texts of the layout's shape whose local year has four digits, that the local wall clock equals the backend text exactly when the local offset is zero.

## Model

| member | source | states |
|---|---|---|
| Exchange.Is2xx | calendar.go:71 | `status/100 == 2` under truncating division holds exactly for statuses 200..299 (negative statuses included) |
| Exchange.GoQuotient | calendar.go:71 | Go's integer `/`, which truncates toward zero. Its meaning for the status test is stated by `Is2xx`. |
| Exchange.Decode | calendar.go:184-202 | A reply decodes exactly when it came, has a 2xx status and a decodable body, and then yields that body. A readable non-2xx reply fails with its status, whatever its body. `GetEvents` makes the same checks at calendar.go:59-78. |
| Exchange.PostOutcome | calendar.go:156-171 | Creation succeeds exactly on a 2xx reply. A non-2xx reply fails with its status, or with an unreadable-body error when its body cannot be read. |
| Exchange.FirstNamedIndex | calendar.go:208-214 | The index returned is the first calendar named after the room, or the list length when no calendar has that name |
| Exchange.SelectCalendar | calendar.go:204-216 | The scan equals the selection rule: error exactly on an empty list; a single calendar taken whatever its name; among several, the first named after the room, else the first calendar; the ID always comes from the list |
| Exchange.Selection | calendar.go:204-216 | The selection rule as a definition; `SelectCalendar` is proved to compute it and states its cases |
| Exchange.Resolved | calendar.go:184-216 | The reply checks, then the selection, as a definition; `GetCalendarId` is proved to compute it |
| Exchange.GetCalendarId | calendar.go:175-217 | The reply checks come first, then the selection; the result is the reply's error or the selected ID |
| Exchange.ReadEvent | calendar.go:83-100 | One event read: parse the start, then the end, as UTC, and show both in the local zone. Its behaviour is stated by `ReadEventOutcome`, `ReadEventInstants`, `ReadEventKeepsInstants` and `ReadEventWallClock`. |
| Exchange.ReadEventOutcome | calendar.go:83-90 | An event reads exactly when both texts parse. A bad start is reported first; a bad end only after a good start. |
| Exchange.Collect | calendar.go:82-103 | The loop's outcome over per-event results: the first error, else every value in order. Its behaviour is stated by `CollectOk`, `CollectFirstError` and `CollectStops`. |
| Exchange.CollectOk | calendar.go:82-103 | The loop's outcome succeeds exactly when every event reads, and then holds one value per event, in order |
| Exchange.CollectFirstError | calendar.go:82-90 | A failed loop returns the error of the first event that failed; every earlier event read |
| Exchange.CollectStops | calendar.go:84-90 | Once a prefix has been read, a failing next event fixes the outcome of the whole loop |
| Exchange.Reads | calendar.go:82-100 | The per-event outcomes, one per backend event, in order |
| Exchange.ReadAll | calendar.go:82-103 | The specification of the read loop; its behaviour is stated by `ReadAllOk` and `ReadAllFirstError`, and `ReadEvents` is proved to compute it |
| Exchange.ReadAllOk | calendar.go:82-103 | Reading succeeds exactly when every backend event reads; the result has the same length, and element i is event i read |
| Exchange.ReadAllFirstError | calendar.go:82-90 | A failed read returns the error of the first backend event that fails to read |
| Exchange.ReadEvents | calendar.go:80-103 | The loop computes the specified read: the first failure, or every event read in order |
| Exchange.ReadEventInstants | calendar.go:83-101 | For every event that reads, in any form `time.Parse` accepts, the title is the subject, both times carry the local offset, and they are the instants the backend texts name as UTC |
| Exchange.ReadEventKeepsInstants | calendar.go:83-95 | For backend texts of the layout's shape, the read instants rendered in UTC give the texts back |
| Exchange.ReadEventWallClock | calendar.go:92-95 | For a start text of the layout's shape whose local year has four digits, the local wall clock of the read start equals the backend text exactly when the local offset is zero |
| Exchange.NewEventRequest | calendar.go:119-141 | The creation request built from an event. Its behaviour is stated by `EventRequestFields`, `EventRequestFaithful`, `EventRequestOrder` and `WriteThenRead`. |
| Exchange.EventRequestFields | calendar.go:126-141 | For every event, the request keeps the title and uses the fixed HTML body, the `Etc/GMT` zone labels and the empty attendee list |
| Exchange.EventRequestFaithful | calendar.go:119-141 | The request's date-times have the layout's shape and parse back to the event's instants, truncated to the second |
| Exchange.EventRequestOrder | calendar.go:122-138 | The start text sorts no later than the end text exactly when the event starts no later than it ends (to the second) |
| Exchange.WriteThenRead | calendar.go:119-141 | Writing an event and reading the request's dates back gives the same title and instants, truncated to whole seconds |
| Exchange.TodayWindow | calendar.go:47-52 | The window of the query: local midnight and 23:59:59 of `now`'s day, shown in UTC. Its behaviour is stated by `TodayWindowBounds` and `TodayWindowQuery`. |
| Exchange.TodayWindowBounds | calendar.go:47-52 | Both ends are in UTC with zero nanoseconds and lie 86399 s apart. The window holds `now`'s second. The start is a local midnight of `now`'s own day. |
| Exchange.TodayWindowQuery | calendar.go:47-56 | When both window ends fall in four-digit UTC years, the two query texts have the layout's shape, parse back to the window's ends, and sort in order |
| Exchange.GetEvents | calendar.go:27-104 | Stages run in order: token, calendar, view reply, event reading. Each failure is reported with its stage, and the view request is not sent before the calendar is known. The view request names the resource, the calendar and today's window. Success is exactly the read of the decoded events. A non-2xx reply always fails. |
| Exchange.CreateEvent | calendar.go:107-172 | Stages run in order: token, calendar, post. The request names the resource, the calendar and the translated event. Success holds exactly when the token and calendar resolve and the post reply is 2xx. |
| DateTimeLayout.In | calendar.go:51-52 | Changing the zone keeps the instant and sets the offset |
| DateTimeLayout.ClockOf | calendar.go:49-50 | Every count of wall seconds has a valid clock reading that gives the count back |
| DateTimeLayout.DateIn | calendar.go:49-50 | `time.Date` in a fixed-offset zone gives the instant whose local wall clock is the given reading, with zero nanoseconds |
| DateTimeLayout.ClockOfClockSeconds | calendar.go:49-50 | A valid clock reading is recovered from its wall seconds |
| DateTimeLayout.Format | calendar.go:55-56 | Go's `Format` with this layout: the wall clock in the time's own zone, zero-padded. Its behaviour is stated by `FormatShape`, `ParseFormat`, `FormatParse` and `FormatOrder`. |
| DateTimeLayout.PaddedInt | calendar.go:133 | Go's `appendInt`: a sign, then the digits zero-padded to the width. `PaddedInt2` and `PaddedInt4` state its value on two- and four-digit fields. |
| DateTimeLayout.PaddedInt2 | calendar.go:133 | A number below 100 padded to width 2 is its two digits |
| DateTimeLayout.PaddedInt4 | calendar.go:133 | A number below 10000 padded to width 4 is its four digits |
| DateTimeLayout.GetNum | calendar.go:83 | Go's `getnum`: one digit, or two when a second digit follows, and `fixed` demands two. `GetNumDigits2` states how it reads two written digits. |
| DateTimeLayout.GetNumDigits2 | calendar.go:83 | Two digits followed by a non-digit read back as their number, fixed or not |
| DateTimeLayout.LongYear | calendar.go:83 | The layout's year element: exactly four digits. `LongYearDigits4` states how it reads them. |
| DateTimeLayout.LongYearDigits4 | calendar.go:83 | Four written digits read back as their number, with the rest of the text untouched |
| DateTimeLayout.Skip | calendar.go:83 | A literal character of the layout must come next; `SkipLiteral` states it |
| DateTimeLayout.Fraction | calendar.go:83 | Go's unlisted fraction after the seconds. `FractionWhole` and `ParseFraction` state what it reads. |
| DateTimeLayout.FractionWhole | calendar.go:83 | A `.` or `,` followed only by digits is read whole, with value `FractionValue` of the digits |
| DateTimeLayout.ParseFields | calendar.go:83 | The layout's elements in Go's order, with no text left over. `ParseFieldsTail`, `ParseFieldsCanonical` and `FormatParse` state what it reads. |
| DateTimeLayout.ParseFieldsTail | calendar.go:83 | Canonical text parses back to its fields, and whatever follows is read as the fraction, which must use up the text |
| DateTimeLayout.Parse | calendar.go:83 | A parsed time is always in UTC |
| DateTimeLayout.FormatShape | calendar.go:55-56 | A time whose year has four digits formats to 19 characters of the layout's shape |
| DateTimeLayout.ParseFormat | calendar.go:133-137 | Parsing a formatted time gives its wall clock read as UTC, to the second |
| DateTimeLayout.FormatParse | calendar.go:83-87 | Text of the layout's shape parses exactly when its fields are in range, with no fraction, and then formats back to itself |
| DateTimeLayout.ParseFraction | calendar.go:83-87 | Shaped text followed by a `.`/`,` fraction parses exactly when the text alone does, to the same second, with the fraction's nanoseconds |
| DateTimeLayout.FormatOrder | calendar.go:55-56 | Formatted texts compare lexicographically as the wall clocks compare |
| DateTimeLayout.ClockOfOrder | calendar.go:55-56 | Later wall seconds give later clock readings, and conversely |
| DateTimeLayout.LexCanonical | calendar.go:55-56 | The layout's text of two clock readings sorts as the readings do |
| DateTimeLayout.FractionValue | calendar.go:83 | A fraction's value is below ten times its first digit's weight, and digits beyond nanoseconds are worth nothing |
| CivilCalendar.DaysInMonth | calendar.go:83 | Months have 28 to 31 days, and February has 29 exactly in leap years (the day-of-month check of `time.Parse`) |
| CivilCalendar.DaysFromCivil | calendar.go:49-50 | Day number of a date, carrying out-of-range fields as `time.Date` does. `DaysFromCivilOfCivil`, `CivilFromDaysOfCivil` and `CivilFromDaysMonotone` state it. |
| CivilCalendar.CivilFromDays | calendar.go:49 | The date of a day number. `CivilFromDaysValid` and the two round trips state it. |
| CivilCalendar.CivilFromDaysValid | calendar.go:49 | Every day number names a valid date |
| CivilCalendar.DaysFromCivilOfCivil | calendar.go:49 | A day number converted to a date and back is unchanged |
| CivilCalendar.CivilFromDaysOfCivil | calendar.go:49-50 | A valid date converted to a day number and back is unchanged |
| CivilCalendar.CivilFromDaysMonotone | calendar.go:55-56 | One day number is below another exactly when its date comes earlier |
| CivilCalendar.EpochIsDayZero | calendar.go:49 | 1970-01-01 is day 0, in both directions |

## Left out

- `GetToken` (calendar.go:220-256) is modelled in neither operation: the OAuth token, fetched at calendar.go:28 and :108, is an input outcome.
- The HTTP requests, URLs and headers are not modelled. Building a request (`http.NewRequestWithContext`, calendar.go:41-43, 148-151, 177-180) is not modelled either; it fails only on IDs that are not valid URL text.
- JSON encoding and decoding are not modelled. A body is given already decoded or malformed, and `json.Marshal` of the creation request cannot fail.
- Logging and the text of error messages are left out: an error is a stage plus a cause.
- `time.Now` becomes the parameter `now`.
- `time.LoadLocation` and time-zone databases are left out. A zone is one fixed offset: DST transitions and historical offsets are not modelled. A failing `LoadLocation` (calendar.go:93) is not modelled either: it returns nil and `Time.In(nil)` at calendar.go:94 panics.
- Exchange.GetEvents: reads every event in the one offset of `now`. The source calls `time.Now().Zone()` again on every iteration, so a DST change mid-loop is not modelled.
- Exchange.TodayWindowBounds: places `now`'s whole second in the window, not its nanoseconds. During 23:59:59 local time, an instant up to one second past the window's end counts as inside.
- DateTimeLayout.Parse: accepts `,` as well as `.` before a fraction that is not in the layout. This is the behaviour of recent Go releases; older releases accept only `.`.
- DateTimeLayout.FormatShape, DateTimeLayout.ParseFormat, DateTimeLayout.FormatOrder: hold only for years 0..9999. Outside that range Go writes more digits or a sign, which `Parse` does not read back.
- Exchange.ReadEventKeepsInstants: holds only for 19-character texts of the layout's shape. A one-digit hour or a fraction parses (`ReadEventInstants`, `ParseFraction`) but does not format back to the same text.
- Exchange.EventRequestFaithful, Exchange.EventRequestOrder, Exchange.WriteThenRead, Exchange.TodayWindowQuery: likewise hold only for four-digit UTC years, and to the second, since the layout drops nanoseconds.
- Exchange.ReadEventWallClock: holds only for start texts of the layout's shape whose local year has four digits. A one-digit hour or a fraction parses but formats to a different text even at offset 0.
- Only the fields the adapter reads or writes are modelled. These are left out:
  - the other fields of `exchangeEvent` (events.go:22-51), which pass through untouched;
  - the unused `calendarEvent` and `token` shapes in events.go;
  - the credential fields of `Calendar` (`ClientId`, `ClientSecret`, `TennantId`).
- `time.Date`'s normalisation of out-of-range fields is modelled (`DaysFromCivil` carries over). Only in-range fields are ever passed to it here.
