/**
 * The free-slot search of `/check-availability`.
 *
 * For each day from the search start up to the search end, and for each
 * window of a working day, the bookings of the resource that start inside
 * the window are swept in the order the store returns them. The cursor
 * starts at the window's start. moment's `add` changes its receiver, so the
 * cursor is advanced by `duration` before it is compared with the booking's
 * start and before it is pushed: the slot reported for a gap is
 * `[cursor + duration, cursor + 2 * duration)`. After each booking the cursor
 * jumps to that booking's end; after the last one the same probe is made
 * against the window's end.
 */
module AvailabilitySearch {
  import opened Outcomes
  import opened Calendar

  /** A reported free slot. */
  datatype Slot = Slot(startTime: int, endTime: int)

  datatype Failure =
    | ResourceNotFound   // `findByPk` found no row
    | NoAvailableSlots   // the sweep reported nothing

  /**
   * The store query of one window: the services assigned to the resource
   * whose start lies in `[slotStart, slotEnd)`, in store order.
   */
  function BookingsStartingIn(store: seq<Service>, resourceId: int, slotStart: int, slotEnd: int): (bs: seq<Service>)
    ensures |bs| <= |store|
    ensures forall b :: b in bs <==>
              b in store && b.assignedTo == resourceId && InSlot(b.startTime, slotStart, slotEnd)
  {
    if store == [] then []
    else
      var rest := BookingsStartingIn(store[1..], resourceId, slotStart, slotEnd);
      if store[0].assignedTo == resourceId && InSlot(store[0].startTime, slotStart, slotEnd)
      then [store[0]] + rest
      else rest
  }

  /** The sweep of one window from `cursor` over the window's bookings `bs`, as written. */
  function SweepWindow(bs: seq<Service>, cursor: int, slotEnd: int, duration: int): seq<Slot>
    decreases |bs|
  {
    var probe := cursor + duration;
    if bs == [] then
      if probe < slotEnd then [Slot(probe, probe + duration)] else []
    else
      (if probe < bs[0].startTime then [Slot(probe, probe + duration)] else [])
      + SweepWindow(bs[1..], bs[0].endTime, slotEnd, duration)
  }

  /** The windows `ws` of one day, anchored on the date of `day`, swept in order. */
  function SweepWindows(store: seq<Service>, resourceId: int, ws: seq<Window>, day: int, duration: int)
    : seq<Slot>
    decreases |ws|
  {
    if ws == [] then []
    else
      var slotStart := SlotStart(ws[0], day);
      var slotEnd := SlotEnd(ws[0], day);
      SweepWindow(BookingsStartingIn(store, resourceId, slotStart, slotEnd), slotStart, slotEnd, duration)
      + SweepWindows(store, resourceId, ws[1..], day, duration)
  }

  /** The day loop: from `cursor` while it is before `searchEnd`, one day at a time. */
  function SweepDays(r: Resource, store: seq<Service>, resourceId: int, cursor: int, searchEnd: int, duration: int)
    : seq<Slot>
    decreases searchEnd - cursor
  {
    if cursor < searchEnd then
      DaySlots(r, store, resourceId, cursor, duration)
      + SweepDays(r, store, resourceId, NextDayStart(cursor), searchEnd, duration)
    else
      []
  }

  /** One pass of the day loop appends the day's slots to what was found before. */
  lemma SweepDaysStep(r: Resource, store: seq<Service>, resourceId: int, cursor: int, searchEnd: int, duration: int,
                      found: seq<Slot>)
    requires cursor < searchEnd
    ensures found + SweepDays(r, store, resourceId, cursor, searchEnd, duration)
         == (found + DaySlots(r, store, resourceId, cursor, duration))
            + SweepDays(r, store, resourceId, NextDayStart(cursor), searchEnd, duration)
  {
  }

  /** The slots of the day of `cursor`: its windows swept when the resource works that weekday, nothing otherwise. */
  function DaySlots(r: Resource, store: seq<Service>, resourceId: int, cursor: int, duration: int): seq<Slot>
  {
    var wd := WeekdayOf(Day(cursor));
    if WorksOn(r, wd) then SweepWindows(store, resourceId, HoursOn(r, wd), cursor, duration) else []
  }

  /** `startDay ? moment(startDay) : moment()`. */
  function SearchStart(startDay: Option<int>, now: int): int
  {
    if startDay.Some? then startDay.value else now
  }

  /**
   * `endDay ? moment(endDay).endOf("day") : moment().add(7, "days")`, as an
   * exclusive bound on whole-minute cursors: a minute is before 23:59:59.999
   * of a day exactly when it is before the next day's start.
   */
  function SearchEnd(endDay: Option<int>, now: int): int
  {
    if endDay.Some? then NextDayStart(endDay.value) else now + 7 * MinutesPerDay
  }

  /** The handler's outcome, as a function of the looked-up resource, the store and the clock. */
  function Availability(resource: Option<Resource>, store: seq<Service>, resourceId: int, duration: int,
                        startDay: Option<int>, endDay: Option<int>, now: int): Result<seq<Slot>, Failure>
  {
    if resource.None? then Err(ResourceNotFound)
    else
      var slots := SweepDays(resource.value, store, resourceId, SearchStart(startDay, now), SearchEnd(endDay, now), duration);
      if slots == [] then Err(NoAvailableSlots) else Ok(slots)
  }

  /**
   * The body of `/check-availability`, with the clock read as `now`, the
   * resource lookup as `resource` and the service table as `store`.
   */
  method CheckAvailability(resource: Option<Resource>, store: seq<Service>, resourceId: int, duration: int,
                           startDay: Option<int>, endDay: Option<int>, now: int)
    returns (result: Result<seq<Slot>, Failure>)
    ensures result == Availability(resource, store, resourceId, duration, startDay, endDay, now)
  {
    if resource.None? {
      return Err(ResourceNotFound);
    }
    var r := resource.value;
    var currentStartTime := SearchStart(startDay, now);
    var endSearchTime := SearchEnd(endDay, now);
    var availableSlots: seq<Slot> := [];
    ghost var all := SweepDays(r, store, resourceId, currentStartTime, endSearchTime, duration);
    while currentStartTime < endSearchTime
      invariant availableSlots + SweepDays(r, store, resourceId, currentStartTime, endSearchTime, duration) == all
      decreases endSearchTime - currentStartTime
    {
      var today := SweepDay(r, store, resourceId, currentStartTime, duration);
      var next := NextDayStart(currentStartTime);
      SweepDaysStep(r, store, resourceId, currentStartTime, endSearchTime, duration, availableSlots);
      availableSlots := availableSlots + today;
      currentStartTime := next;
    }
    assert SweepDays(r, store, resourceId, currentStartTime, endSearchTime, duration) == [];
    assert availableSlots == all;
    if |availableSlots| == 0 {
      return Err(NoAvailableSlots);
    }
    return Ok(availableSlots);
  }

  /**
   * One pass of the day loop: nothing on a day the resource does not work,
   * otherwise the `for (const slot of ...)` loop over the weekday's windows
   * anchored on the date of `day`.
   */
  method SweepDay(r: Resource, store: seq<Service>, resourceId: int, day: int, duration: int)
    returns (found: seq<Slot>)
    ensures found == DaySlots(r, store, resourceId, day, duration)
  {
    found := [];
    var dayOfWeek := WeekdayOf(Day(day));
    if !WorksOn(r, dayOfWeek) {
      return;
    }
    var ws := HoursOn(r, dayOfWeek);
    for i := 0 to |ws|
      invariant found + SweepWindows(store, resourceId, ws[i..], day, duration)
             == SweepWindows(store, resourceId, ws, day, duration)
    {
      assert ws[i..][1..] == ws[i + 1..];
      var slotStart := SlotStart(ws[i], day);
      var slotEnd := SlotEnd(ws[i], day);
      var existingServices := BookingsStartingIn(store, resourceId, slotStart, slotEnd);
      var inWindow := SweepBookings(existingServices, slotStart, slotEnd, duration);
      found := found + inWindow;
    }
  }

  /**
   * The sweep of one window over its bookings, moving `availableStart` in
   * place as moment's `add` does.
   */
  method SweepBookings(existingServices: seq<Service>, slotStart: int, slotEnd: int, duration: int)
    returns (found: seq<Slot>)
    ensures found == SweepWindow(existingServices, slotStart, slotEnd, duration)
  {
    found := [];
    var availableStart := slotStart;
    ghost var all := SweepWindow(existingServices, slotStart, slotEnd, duration);
    for j := 0 to |existingServices|
      invariant found + SweepWindow(existingServices[j..], availableStart, slotEnd, duration) == all
    {
      SweepWindowStep(existingServices, j, availableStart, slotEnd, duration, found);
      availableStart := availableStart + duration;
      if availableStart < existingServices[j].startTime {
        found := found + [Slot(availableStart, availableStart + duration)];
      }
      availableStart := existingServices[j].endTime;
    }
    availableStart := availableStart + duration;
    if availableStart < slotEnd {
      found := found + [Slot(availableStart, availableStart + duration)];
    }
  }

  /** One booking of the sweep: its candidate, if any, goes after what was found before. */
  lemma SweepWindowStep(bs: seq<Service>, j: int, cursor: int, slotEnd: int, duration: int, found: seq<Slot>)
    requires 0 <= j < |bs|
    ensures found + SweepWindow(bs[j..], cursor, slotEnd, duration)
         == (found + (if cursor + duration < bs[j].startTime
                      then [Slot(cursor + duration, cursor + duration + duration)] else []))
            + SweepWindow(bs[j + 1..], bs[j].endTime, slotEnd, duration)
  {
    assert bs[j..][1..] == bs[j + 1..];
  }

  // ---------------------------------------------------------------------
  // What the sweep of one window reports

  /** At most one slot per booking, plus one after the last booking. */
  lemma {:induction false} SweepWindowCount(bs: seq<Service>, cursor: int, slotEnd: int, duration: int)
    ensures |SweepWindow(bs, cursor, slotEnd, duration)| <= |bs| + 1
    decreases |bs|
  {
    if bs != [] {
      SweepWindowCount(bs[1..], bs[0].endTime, slotEnd, duration);
    }
  }

  /** The cursor when the sweep reaches booking `i`: the window's start, then the previous booking's end. */
  function CursorAt(bs: seq<Service>, windowStart: int, i: int): int
    requires 0 <= i <= |bs|
  {
    if i == 0 then windowStart else bs[i - 1].endTime
  }

  /** What the probe at step `i` must be before: booking `i`'s start, or the window's end after the last booking. */
  function LimitAt(bs: seq<Service>, slotEnd: int, i: int): int
    requires 0 <= i <= |bs|
  {
    if i < |bs| then bs[i].startTime else slotEnd
  }

  /** Step `i` of the sweep reports slot `s`. */
  ghost predicate EmittedAt(bs: seq<Service>, windowStart: int, slotEnd: int, duration: int, i: int, s: Slot)
    requires 0 <= i <= |bs|
  {
    var probe := CursorAt(bs, windowStart, i) + duration;
    probe < LimitAt(bs, slotEnd, i) && s == Slot(probe, probe + duration)
  }

  /**
   * The sweep of a window reports exactly one candidate per step: at booking
   * `i` (or after the last booking) the cursor is the window's start or the
   * previous booking's end, whether or not that booking produced a slot; the
   * probe is that cursor plus `duration`; and the slot
   * `[probe, probe + duration)` is reported exactly when the probe is
   * strictly before the booking's start (or the window's end).
   */
  lemma {:induction false} SweepWindowExact(bs: seq<Service>, windowStart: int, slotEnd: int, duration: int)
    ensures forall s :: s in SweepWindow(bs, windowStart, slotEnd, duration) <==>
              exists i :: 0 <= i <= |bs| && EmittedAt(bs, windowStart, slotEnd, duration, i, s)
    decreases |bs|
  {
    var probe := windowStart + duration;
    var head := if probe < LimitAt(bs, slotEnd, 0) then [Slot(probe, probe + duration)] else [];
    if bs == [] {
      assert SweepWindow(bs, windowStart, slotEnd, duration) == head;
      forall s
        ensures s in SweepWindow(bs, windowStart, slotEnd, duration) <==>
                exists i :: 0 <= i <= |bs| && EmittedAt(bs, windowStart, slotEnd, duration, i, s)
      {
        if s in head {
          assert EmittedAt(bs, windowStart, slotEnd, duration, 0, s);
        }
      }
    } else {
      var rest := bs[1..];
      var c' := bs[0].endTime;
      var tail := SweepWindow(rest, c', slotEnd, duration);
      assert SweepWindow(bs, windowStart, slotEnd, duration) == head + tail;
      SweepWindowExact(rest, c', slotEnd, duration);
      forall s
        ensures s in SweepWindow(bs, windowStart, slotEnd, duration) <==>
                exists i :: 0 <= i <= |bs| && EmittedAt(bs, windowStart, slotEnd, duration, i, s)
      {
        if s in head {
          assert EmittedAt(bs, windowStart, slotEnd, duration, 0, s);
        }
        if s in tail {
          var i :| 0 <= i <= |rest| && EmittedAt(rest, c', slotEnd, duration, i, s);
          assert EmittedAt(bs, windowStart, slotEnd, duration, i + 1, s);
        }
        if exists i :: 0 <= i <= |bs| && EmittedAt(bs, windowStart, slotEnd, duration, i, s) {
          var i :| 0 <= i <= |bs| && EmittedAt(bs, windowStart, slotEnd, duration, i, s);
          if i > 0 {
            assert EmittedAt(rest, c', slotEnd, duration, i - 1, s);
            assert s in tail;
          } else {
            assert s in head;
          }
        }
      }
    }
  }

  /**
   * With bookings that start inside the window and end no earlier than they
   * start, every slot of the window's sweep starts at least `duration` after
   * the window opens and before it closes; so it may end up to `duration`
   * minutes after the window closes.
   */
  lemma {:induction false} SweepWindowBounds(bs: seq<Service>, cursor: int, slotStart: int, slotEnd: int, duration: int)
    requires slotStart <= cursor
    requires forall b :: b in bs ==> slotStart <= b.startTime <= b.endTime && b.startTime < slotEnd
    ensures forall s :: s in SweepWindow(bs, cursor, slotEnd, duration) ==>
              slotStart + duration <= s.startTime < slotEnd && s.endTime == s.startTime + duration
    decreases |bs|
  {
    if bs != [] {
      assert bs[0] in bs;
      SweepWindowBounds(bs[1..], bs[0].endTime, slotStart, slotEnd, duration);
    }
  }

  /** Slot `s` comes from window `w` of working day `d`: it starts at least `duration` after `w` opens and before it closes. */
  ghost predicate FromWindow(r: Resource, duration: int, s: Slot, d: int, w: Window)
  {
    && WorksOn(r, WeekdayOf(d))
    && w in HoursOn(r, WeekdayOf(d))
    && DayStart(d) + w.start + duration <= s.startTime < DayStart(d) + w.end
  }

  lemma {:induction false} SweepWindowsBounds(r: Resource, store: seq<Service>, resourceId: int, ws: seq<Window>,
                                              day: int, duration: int)
    requires forall b :: b in store ==> b.startTime <= b.endTime
    requires WorksOn(r, WeekdayOf(Day(day)))
    requires forall w :: w in ws ==> w in HoursOn(r, WeekdayOf(Day(day)))
    ensures forall s :: s in SweepWindows(store, resourceId, ws, day, duration) ==>
              s.endTime == s.startTime + duration && exists w :: FromWindow(r, duration, s, Day(day), w)
    decreases |ws|
  {
    if ws != [] {
      var slotStart := SlotStart(ws[0], day);
      var slotEnd := SlotEnd(ws[0], day);
      var bs := BookingsStartingIn(store, resourceId, slotStart, slotEnd);
      SweepWindowBounds(bs, slotStart, slotStart, slotEnd, duration);
      SweepWindowsBounds(r, store, resourceId, ws[1..], day, duration);
      forall s | s in SweepWindow(bs, slotStart, slotEnd, duration)
        ensures FromWindow(r, duration, s, Day(day), ws[0])
      {
      }
    }
  }

  /**
   * Every slot the day loop reports has length `duration` and comes from a
   * window of a working day in the searched range: it starts at least
   * `duration` after the window opens and before the window closes.
   */
  lemma {:induction false} SweepDaysSlotsInWindows(r: Resource, store: seq<Service>, resourceId: int,
                                                   cursor: int, searchEnd: int, duration: int)
    requires forall b :: b in store ==> b.startTime <= b.endTime
    ensures forall s :: s in SweepDays(r, store, resourceId, cursor, searchEnd, duration) ==>
              && s.endTime == s.startTime + duration
              && exists d, w :: Day(cursor) <= d && DayStart(d) < searchEnd && FromWindow(r, duration, s, d, w)
    decreases searchEnd - cursor
  {
    if cursor < searchEnd {
      var wd := WeekdayOf(Day(cursor));
      var next := NextDayStart(cursor);
      SweepDaysSlotsInWindows(r, store, resourceId, next, searchEnd, duration);
      if WorksOn(r, wd) {
        SweepWindowsBounds(r, store, resourceId, HoursOn(r, wd), cursor, duration);
      }
      forall s | s in SweepDays(r, store, resourceId, cursor, searchEnd, duration)
        ensures exists d, w :: Day(cursor) <= d && DayStart(d) < searchEnd && FromWindow(r, duration, s, d, w)
      {
        if WorksOn(r, wd) && s in SweepWindows(store, resourceId, HoursOn(r, wd), cursor, duration) {
          var w :| FromWindow(r, duration, s, Day(cursor), w);
          assert DayStart(Day(cursor)) < searchEnd;
        } else {
          assert s in SweepDays(r, store, resourceId, next, searchEnd, duration);
          var d, w :| Day(next) <= d && DayStart(d) < searchEnd && FromWindow(r, duration, s, d, w);
          assert Day(cursor) <= d;
        }
      }
    }
  }

  lemma {:induction false} SweepDaysWithoutWorkingTime(r: Resource, store: seq<Service>, resourceId: int,
                                                       cursor: int, searchEnd: int, duration: int)
    requires forall wd :: !WorksOn(r, wd)
    ensures SweepDays(r, store, resourceId, cursor, searchEnd, duration) == []
    decreases searchEnd - cursor
  {
    if cursor < searchEnd {
      SweepDaysWithoutWorkingTime(r, store, resourceId, NextDayStart(cursor), searchEnd, duration);
    }
  }

  /** Days that are not working days contribute nothing: a resource with no working window has no slots. */
  lemma NoWorkingTimeNoSlots(r: Resource, store: seq<Service>, resourceId: int, duration: int,
                             startDay: Option<int>, endDay: Option<int>, now: int)
    requires forall wd :: !WorksOn(r, wd)
    ensures Availability(Some(r), store, resourceId, duration, startDay, endDay, now) == Err(NoAvailableSlots)
  {
    SweepDaysWithoutWorkingTime(r, store, resourceId, SearchStart(startDay, now), SearchEnd(endDay, now), duration);
  }

  // ---------------------------------------------------------------------
  // Worked examples. Day 4 (1970-01-05) is a Monday starting at minute 5760.

  /** A resource working Mondays 09:00-12:00. */
  function MondayMorningResource(): Resource
  {
    Resource(1, "desk", {Monday}, map[Monday := [Window(540, 720)]], [])
  }

  /**
   * Window 09:00-12:00, one booking 10:00-10:30, 60 minutes asked: the probe
   * 10:00 is not before the booking's start, the cursor moves to 10:30, and
   * the trailing probe 11:30 is before 12:00, so the only slot reported is
   * 11:30-12:30, which runs past the window's end.
   */
  lemma OnlySlotRunsPastWindow()
    ensures Availability(Some(MondayMorningResource()),
                         [Service(Named("fitting"), 1, 30, 6390, 0, 6360, 6390)],
                         1, 60, Some(5760), Some(5760), 0)
         == Ok([Slot(6450, 6510)])
    ensures 6510 > SlotEnd(Window(540, 720), 5760)
  {
    var r := MondayMorningResource();
    var b := Service(Named("fitting"), 1, 30, 6390, 0, 6360, 6390);
    assert Day(5760) == 4 && WeekdayOf(4) == Monday;
    assert NextDayStart(5760) == 7200;
    assert BookingsStartingIn([b], 1, 6300, 6480) == [b];
    assert SweepWindow([b], 6300, 6480, 60) == [Slot(6450, 6510)] by {
      assert [b][1..] == [];
    }
    assert SweepWindows([b], 1, [Window(540, 720)], 5760, 60) == [Slot(6450, 6510)];
    assert SweepDays(r, [b], 1, 5760, 7200, 60) == [Slot(6450, 6510)];
  }

  /**
   * Window 09:00-12:00, one booking 10:30-11:00, 60 minutes asked: the probe
   * 10:00 is before the booking's start, so the slot 10:00-11:00 is
   * reported, and it overlaps the booking. The sweep as evidently intended
   * reports the two free hours 09:00-10:00 and 11:00-12:00 instead.
   */
  lemma ReportedSlotOverlapsBooking()
    ensures Availability(Some(MondayMorningResource()),
                         [Service(Named("fitting"), 1, 30, 6420, 0, 6390, 6420)],
                         1, 60, Some(5760), Some(5760), 0)
         == Ok([Slot(6360, 6420)])
    ensures Overlaps(6360, 6420, 6390, 6420)
    ensures IntendedSweepWindow([Service(Named("fitting"), 1, 30, 6420, 0, 6390, 6420)], 6300, 6480, 60)
         == [Slot(6300, 6360), Slot(6420, 6480)]
  {
    var r := MondayMorningResource();
    var b := Service(Named("fitting"), 1, 30, 6420, 0, 6390, 6420);
    assert Day(5760) == 4 && WeekdayOf(4) == Monday;
    assert NextDayStart(5760) == 7200;
    assert BookingsStartingIn([b], 1, 6300, 6480) == [b];
    assert [b][1..] == [];
    assert SweepWindow([b], 6300, 6480, 60) == [Slot(6360, 6420)];
    assert SweepWindows([b], 1, [Window(540, 720)], 5760, 60) == [Slot(6360, 6420)];
    assert SweepDays(r, [b], 1, 5760, 7200, 60) == [Slot(6360, 6420)];
  }

  // ---------------------------------------------------------------------
  // The sweep of one window as evidently intended

  /**
   * The candidate after a cursor is `[cursor, cursor + duration)`, the cursor
   * is not moved by the comparison, and a gap of exactly `duration` minutes
   * is reported (the candidate may end when the next booking starts or the
   * window closes). After a booking the cursor moves to the later of itself
   * and the booking's end, so a booking nested in an earlier one cannot move
   * it back. Everything else is as in `SweepWindow`.
   */
  function IntendedSweepWindow(bs: seq<Service>, cursor: int, slotEnd: int, duration: int): seq<Slot>
    decreases |bs|
  {
    if bs == [] then
      if cursor + duration <= slotEnd then [Slot(cursor, cursor + duration)] else []
    else
      (if cursor + duration <= bs[0].startTime then [Slot(cursor, cursor + duration)] else [])
      + IntendedSweepWindow(bs[1..], Later(cursor, bs[0].endTime), slotEnd, duration)
  }

  /** The later of two instants. */
  function Later(a: int, b: int): (r: int)
    ensures a <= r && b <= r && (r == a || r == b)
  {
    if a < b then b else a
  }

  /**
   * Over bookings ordered by start, each starting before the window closes
   * (they may start before it opens, overlap one another, or nest), every
   * slot of the intended sweep from a cursor at or after `lo` has length
   * `duration`, lies after `lo` and within the window's end, and overlaps
   * none of the bookings.
   */
  lemma {:induction false} IntendedSweepWindowFree(bs: seq<Service>, lo: int, cursor: int, slotEnd: int, duration: int)
    requires lo <= cursor
    requires forall i :: 0 <= i < |bs| ==> bs[i].startTime < slotEnd
    requires forall i, j :: 0 <= i < j < |bs| ==> bs[i].startTime <= bs[j].startTime
    ensures forall s :: s in IntendedSweepWindow(bs, cursor, slotEnd, duration) ==>
              lo <= s.startTime && s.endTime == s.startTime + duration && s.endTime <= slotEnd
    ensures forall s, i :: s in IntendedSweepWindow(bs, cursor, slotEnd, duration) && 0 <= i < |bs| ==>
              !Overlaps(s.startTime, s.endTime, bs[i].startTime, bs[i].endTime)
    decreases |bs|
  {
    if bs != [] {
      var rest := bs[1..];
      var next := Later(cursor, bs[0].endTime);
      var head := if cursor + duration <= bs[0].startTime then [Slot(cursor, cursor + duration)] else [];
      var tail := IntendedSweepWindow(rest, next, slotEnd, duration);
      assert IntendedSweepWindow(bs, cursor, slotEnd, duration) == head + tail;
      assert forall i :: 0 <= i < |rest| ==> rest[i] == bs[i + 1];
      IntendedSweepWindowFree(rest, next, next, slotEnd, duration);
      forall s: Slot, i | s in head + tail && 0 <= i < |bs|
        ensures !Overlaps(s.startTime, s.endTime, bs[i].startTime, bs[i].endTime)
      {
        if s in head {
          assert s.endTime <= bs[0].startTime <= bs[i].startTime;
        } else if i > 0 {
          assert rest[i - 1] == bs[i];
        }
      }
    }
  }

  /**
   * Window 09:00-12:00, a booking 10:00-11:00 and a booking 10:15-10:30
   * nested in it, 60 minutes asked: the intended sweep reports 09:00-10:00
   * and 11:00-12:00; the nested booking does not bring the cursor back to
   * 10:30.
   */
  lemma IntendedSweepSkipsNestedBooking()
    ensures IntendedSweepWindow([Service(Named("fitting"), 1, 60, 6420, 0, 6360, 6420),
                                 Service(Named("check"), 1, 15, 6390, 0, 6375, 6390)], 6300, 6480, 60)
         == [Slot(6300, 6360), Slot(6420, 6480)]
  {
    var b := Service(Named("fitting"), 1, 60, 6420, 0, 6360, 6420);
    var c := Service(Named("check"), 1, 15, 6390, 0, 6375, 6390);
    assert [b, c][1..] == [c];
    assert [c][1..] == [];
  }

  /**
   * Window 09:00-12:00, a booking 08:30-09:30 that started before the window
   * opened, 60 minutes asked: given that booking, the intended sweep reports
   * the slot 09:30-10:30 after it, and nothing that overlaps it.
   */
  lemma IntendedSweepSkipsEarlierBooking()
    ensures IntendedSweepWindow([Service(Named("fitting"), 1, 60, 6330, 0, 6270, 6330)], 6300, 6480, 60)
         == [Slot(6330, 6390)]
  {
    var b := Service(Named("fitting"), 1, 60, 6330, 0, 6270, 6330);
    assert [b][1..] == [];
  }

  /**
   * Window 09:00-12:00, one booking 10:00-10:30, 60 minutes asked: the sweep
   * as written reports only 11:30-12:30 (`OnlySlotRunsPastWindow`); the
   * sweep as evidently intended reports 09:00-10:00 and 10:30-11:30.
   */
  lemma IntendedSweepReportsBothGaps()
    ensures IntendedSweepWindow([Service(Named("fitting"), 1, 30, 6390, 0, 6360, 6390)], 6300, 6480, 60)
         == [Slot(6300, 6360), Slot(6390, 6450)]
  {
    var b := Service(Named("fitting"), 1, 30, 6390, 0, 6360, 6390);
    assert [b][1..] == [];
  }
}
