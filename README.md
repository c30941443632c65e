# Resource scheduling engine, modelled in Dafny

The system is an appointment and task scheduler for resources (workers,
machines, rooms). Each resource has a weekly calendar: working days, and for
each weekday a list of working windows such as 09:00-12:00 and 13:00-17:00.
Bookings ("services") are rows of a service table. Each row is assigned to
one resource and has a start, an end, a duration, a deadline and a priority.
The engine has three operations:

- **scheduleLongService** splits a long task into chunks of at most 480
  minutes. It places them in successive working windows, day after day,
  starting from the current time, until the whole duration is placed. It
  labels each chunk with a part number. When the work runs past the end of
  the deadline's day, it reports a revised deadline.
- **/check-availability** sweeps a date range day by day and window by
  window. It moves a cursor over the bookings that start inside each window
  and reports candidate free slots of the requested duration.
- **/book-appointment** admits or rejects one appointment. The appointment
  must lie inside a single working window, and no booking of the resource may
  overlap it. When admitted, it produces exactly one new row.

Time is modelled as whole minutes counted from 1970-01-01 00:00 in the
resource's local time. `Calendar.Day` is the day index, and day 0 was a
Thursday. A window is a pair of minutes of the day. `SlotStart`/`SlotEnd`
anchor a window on the date of an instant. This is the conversion the three
operations share.

The current time, the resource lookup and the service table are parameters:
`now`, `Option<Resource>` and `seq<Service>`. Results are `Result` values
instead of HTTP replies or exceptions.

The module structure follows the source:

- `Calendar` (calendar.dfy): time, calendar and slot arithmetic, and the
  row types of the store (`Resource`, `Service`) that all three operations read.
- `ChunkScheduler` (chunk_scheduler.dfy): the scheduler.
- `AvailabilitySearch` (availability.dfy): the availability sweep.
- `BookingValidator` (booking.dfy): the admission check.
- `Outcomes` (outcomes.dfy): `Option` and `Result`.

The two loop-based operations are methods, with loops over the same
variables as the source:

- `ScheduleLongService` with `PlaceInWindows`;
- `CheckAvailability` with `SweepDay` and `SweepBookings`.

Each is proved equal to a reference function: `Schedule` for the scheduler,
`Availability` for the sweep. The promised properties are proved as lemmas
about those functions. The admission check has no state to update, so it is a
pure function. Its `isValidSlot` flag loop is an existential over the day's
windows.

The model keeps these behaviours of the code on purpose, although a reader
might expect otherwise:

- **Part labels.** The label is `ceil((minutes placed before + 1) / 480)`,
  a count of 480-minute blocks, not an ordinal. In the ten-hour example all
  three chunks are "Part 1" (`TenHourTaskOverTwoDays`).
- **Reported slots.** moment's `add` changes the cursor in place. So the
  slot reported for a gap is `[cursor + d, cursor + 2d)`, not
  `[cursor, cursor + d)`. For a 09:00-12:00 window with a 10:00-10:30
  booking and 60 minutes, the code reports only 11:30-12:30, not 09:00-10:00
  and 10:30-11:30, which are the two free hours
  (`OnlySlotRunsPastWindow`). The corrected sweep under "## Findings"
  reports both (`IntendedSweepReportsBothGaps`).
- **Revised deadline.** No revised deadline is reported when the task fits
  on its first day. This holds even when that day is already past the
  deadline (`PastDeadlineNotRevisedOnFirstDay`).

The model departs from the code in one place, deliberately. The scheduler's
`while` has no bound and never ends when no placement exists. The model
takes a `horizon` (a number of day passes) and fails with `HorizonExhausted`
when the horizon runs out.

## Model

| member | source | states |
|---|---|---|
| Calendar.Day | index.js:108-117 | the day of an instant is the day whose 1440 minutes contain it (floor, also for instants before 1970) |
| Calendar.NextDayStart | index.js:154 | `add(1, "day").startOf("day")` lands on the first minute of the following day, strictly later |
| Calendar.EndOfDay | index.js:91 | `endOf("day")` stays on the same day |
| Calendar.AfterEndOfDay | index.js:155 | an instant is after the end of a day exactly when it falls on a later day |
| Calendar.AnchoredWindow | index.js:108-117 | a window anchored on an instant's date stays on that date; the instant lies in it exactly when its time of day lies in the window |
| ChunkScheduler.PartNumber | index.js:129-131 | the part label `ceil((consumed + 1) / 480)` is the 480-minute block in which minute `consumed + 1` falls |
| ChunkScheduler.ScheduleLongService | index.js:82-167 | the loop over days and windows, with the clock as `now` and at most `horizon` day passes, returns exactly `Schedule`: ResourceNotFound, HorizonExhausted, or the chunks and revised deadline |
| ChunkScheduler.PlaceInWindows | index.js:107-150 | the loop over one day's windows, left when nothing remains, yields the state `PlaceInDay` describes |
| ChunkScheduler.ScheduleCoversDuration | index.js:100-165 | on success the chunk durations add up to the task's duration, so the error after the loop cannot occur; every chunk has the task's resource and priority, the end of day of the deadline as its deadline, a duration in 1..480 and end = start + duration; a non-positive duration gives no chunks and no revised deadline |
| ChunkScheduler.ScheduleChunksOrdered | index.js:119-154 | chunks start no earlier than `now`, and each ends no later than every later chunk starts (time order, no overlap) |
| ChunkScheduler.ScheduleChunksInWindows | index.js:102-127 | every chunk falls on a working day and lies in one window of its weekday, anchored on its date |
| ChunkScheduler.ScheduleChunksMaximal | index.js:121-125 | every chunk but the last stops at the 480-minute cap or at its window's end |
| ChunkScheduler.SchedulePartLabels | index.js:128-131 | chunk i is named after the task with part `PartNumber(minutes placed before it)`; the first chunk is part 1; parts never decrease |
| ChunkScheduler.PartLabelsNondecreasing | index.js:128-131 | as chunks are appended, the minutes placed before them grow, so their part numbers never decrease |
| ChunkScheduler.ScheduleRevisedDeadline | index.js:152-156 | the revised deadline is the start of the last chunk's day, reported exactly when that day is later than both the first day and the deadline's day; when reported it lies after the original end of day and no later than the last chunk's start |
| ChunkScheduler.PlaceInDayAdvances | index.js:107-150 | a day's window loop never moves the cursor back, only appends chunks, and appends at most one per window |
| ChunkScheduler.DayPassAdvances | index.js:100-157 | one pass of the outer loop never moves the cursor back, only appends, places at most one chunk per window, and ends on a later day when work remains |
| ChunkScheduler.NoWorkingTimeExhaustsHorizon | index.js:100-157 | a resource with no working window on any weekday makes every horizon run out, for any positive duration |
| ChunkScheduler.ScheduleHorizonMonotone | index.js:100-157 | once a horizon suffices, every longer horizon gives the same plan |
| ChunkScheduler.TenHourTaskOverTwoDays | index.js:82-167 | 600 minutes from Monday 09:00: 09:00-12:00 and 13:00-17:00 on Monday and 09:00-12:00 on Tuesday, all "Part 1", with Tuesday 00:00 as revised deadline |
| ChunkScheduler.PastDeadlineNotRevisedOnFirstDay | index.js:152-156 | a task placed wholly on its first day reports no revised deadline even when that day is after the deadline |
| AvailabilitySearch.CheckAvailability | index.js:174-248 | the day loop, from `startDay` or `now` to the end of `endDay` or a week after `now`, returns exactly `Availability`: ResourceNotFound, NoAvailableSlots when nothing was found, or the slots |
| AvailabilitySearch.SweepDay | index.js:186-239 | one pass of the day loop reports nothing on a day the resource does not work, otherwise each window's sweep in window order |
| AvailabilitySearch.SweepBookings | index.js:214-237 | the sweep of one window, with the cursor moved in place by `add`, reports exactly `SweepWindow` |
| AvailabilitySearch.BookingsStartingIn | index.js:204-212 | the window query returns exactly the rows of the resource whose start lies in `[slotStart, slotEnd)` |
| AvailabilitySearch.SweepWindowCount | index.js:214-237 | a window yields at most one slot per booking plus one after the last |
| AvailabilitySearch.SweepWindowExact | index.js:214-237 | a slot is reported exactly when, at some step, the probe (cursor + duration) is strictly before the booking's start or, after the last booking, the window's end; the slot is `[probe, probe + duration)`; the cursor is the window's start, then the previous booking's end whether or not it produced a slot |
| AvailabilitySearch.SweepWindowBounds | index.js:214-237 | with bookings that start inside the window and end no earlier than they start, every slot starts at least `duration` after the window opens and before it closes, and has length `duration` |
| AvailabilitySearch.SweepDaysSlotsInWindows | index.js:185-242 | for rows that end no earlier than they start, every reported slot has length `duration` and comes from a window of a working day in the searched range |
| AvailabilitySearch.NoWorkingTimeNoSlots | index.js:188-191 | a resource with no working window reports NoAvailableSlots |
| AvailabilitySearch.OnlySlotRunsPastWindow | index.js:214-237 | window 09:00-12:00, booking 10:00-10:30, 60 minutes: the only slot is 11:30-12:30, which ends after the window |
| AvailabilitySearch.ReportedSlotOverlapsBooking | index.js:219-228 | window 09:00-12:00, booking 10:30-11:00, 60 minutes: the reported slot 10:00-11:00 overlaps the booking; the corrected sweep gives 09:00-10:00 and 11:00-12:00 |
| AvailabilitySearch.IntendedSweepWindowFree | index.js:214-237 | corrected sweep, given bookings ordered by start that start before the window closes (they may start before it opens, overlap or nest): every slot has length `duration`, lies inside the window (it may end exactly when the window closes) and overlaps none of those bookings |
| AvailabilitySearch.IntendedSweepSkipsNestedBooking | index.js:214-237 | window 09:00-12:00, bookings 10:00-11:00 and 10:15-10:30, 60 minutes: the corrected sweep reports 09:00-10:00 and 11:00-12:00; the nested booking does not move the cursor back |
| AvailabilitySearch.IntendedSweepSkipsEarlierBooking | index.js:214-237 | window 09:00-12:00, a booking 08:30-09:30 given to the corrected sweep, 60 minutes: it reports 09:30-10:30 only |
| AvailabilitySearch.IntendedSweepReportsBothGaps | index.js:214-237 | window 09:00-12:00, booking 10:00-10:30, 60 minutes: the corrected sweep reports 09:00-10:00 and 10:30-11:30, gaps of exactly the requested length included |
| BookingValidator.BookAppointment | index.js:259-330 | the handler's outcome: ResourceNotFound exactly when the resource is missing; NotAWorkingDay exactly when it exists and the start's weekday has no windows; OutsideWorkingHours exactly when the weekday has windows but none holds both endpoints; SlotConflict exactly when one does and a row of the resource overlaps; an admitted row fits one window of that weekday, overlaps no row of the resource, and is the one created row: the request's name, resource, duration, priority and start, end = start + duration, deadline = end (what admission means in calendar terms: `BookingAdmitted`) |
| BookingValidator.FitsWindowMeans | index.js:277-295 | both endpoints lie in the window anchored on the start's date exactly when they fall on the same day at times of day inside the window |
| BookingValidator.BookingAdmitted | index.js:259-330 | admitted exactly when the resource exists, a single window of the start's weekday holds both endpoints on that day, and no row of the resource overlaps; the created row has the request's fields, end = start + duration and deadline = end |
| BookingValidator.BookingRejectedEarly | index.js:259-273 | a missing resource is rejected first; then a weekday with missing or empty working hours |
| BookingValidator.WorkingDaysIgnored | index.js:266-273 | the outcome does not depend on `workingDays` |
| BookingValidator.EndOutsideStartWindowRejected | index.js:275-302 | with disjoint windows, an appointment whose end is not in the window holding its start is rejected as outside working hours, even if the end lies in another window |
| BookingValidator.EndingAtCloseRejected | index.js:289-302 | with disjoint windows, an appointment ending exactly when its window closes is rejected |
| BookingValidator.AdmissionKeepsNoDoubleBooking | index.js:304-322 | adding the admitted row to a table with no double bookings leaves none |
| BookingValidator.SplitDayBookings | index.js:264-302 | 11:00 for 60 minutes (ending at 12:00) is rejected; 11:00 for 59 minutes is admitted; 11:30 for 120 minutes over the lunch gap is rejected |
| BookingValidator.OverlappingBookingConflicts | index.js:304-320 | a 10:15-10:45 row of the same resource conflicts with 10:00-10:30; a row of another resource does not |

## Left out

- HTTP routing, request parsing, status codes and the server start are not modelled. Outcomes are `Result` values.
- The Sequelize connection, models and CRUD endpoints are not modelled. The resource lookup is an `Option<Resource>`. The service table is a sequence of rows.
- Persisting rows is not modelled. `bulkCreate` is the plan returned on success, and `create` is the `Ok` row of `BookAppointment`.
- moment parsing of "HH:mm" and dates, time zones and DST are not modelled. Times are whole minutes, and sub-minute precision is dropped.
- The race between the conflict query and `create` is a property of the store, not of the algorithm. `AdmissionKeepsNoDoubleBooking` assumes requests are served one at a time.
- `serviceTypes` is carried on the resource but never checked, as in the source.
- Chunk names are not formatted as strings. The source names a chunk `` `${name} (Part ${n})` ``. The model keeps the two parts as `NamedPart(task, part)`, so the formatting is not modelled.
- ChunkScheduler.ScheduleLongService: the source loops forever when no placement exists. The model stops after `horizon` day passes with `HorizonExhausted`.
- ChunkScheduler.ScheduleLongService: existing bookings of the resource are not consulted when placing chunks, as in the source.
- AvailabilitySearch.BookingsStartingIn: the store query has no ordering clause. The model keeps the rows in table order. The no-overlap lemma for the corrected sweep assumes the rows arrive ordered by start.
- AvailabilitySearch.CheckAvailability: a booking that starts before a window and runs into it is not returned by the window query. The model reproduces this as written.
- AvailabilitySearch.IntendedSweepWindowFree: no overlap is proved for the rows the corrected sweep is given. Rows that start before the window and run into it are covered only when the query fetches them, which the query as written does not do. A corrected query (every row of the resource that starts before the window closes, ordered by start) is not modelled.
- Calling `/check-availability` twice with no booking in between gives the same result. This holds trivially here, because the sweep is a function of its inputs.

## Findings

| source | as written | input that shows it | evidently intended | confidence | as-written member | corrected member |
|---|---|---|---|---|---|---|
| index.js:219-228 | `availableStart.add(duration, "minutes")` moves the cursor before the slot is pushed, so the reported slot is `[cursor + d, cursor + 2d)`, which can overlap the next booking or run past the window | window 09:00-12:00 on a Monday, booking 10:30-11:00, duration 60: reports 10:00-11:00, which overlaps the booking | report `[cursor, cursor + d)` without moving the cursor, accept a gap of exactly `d` minutes (`cursor + d` at or before the booking's start or the window's end), and after a booking move the cursor to the later of itself and the booking's end; given the resource's rows that start before the window closes, ordered by start (overlapping and nested rows included), the slot then overlaps none of them and stays inside the window. The query as written fetches only rows that start inside the window, so a row running in from before is seen only with a corrected query | high (not executed) | AvailabilitySearch.ReportedSlotOverlapsBooking | AvailabilitySearch.IntendedSweepWindowFree |
