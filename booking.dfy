/**
 * The admission check of `/book-appointment`.
 *
 * The appointment `[start, start + duration)` is admitted when the resource
 * exists, has windows on the weekday of `start`, one single window anchored
 * on that date holds both `start` and the end in half-open form, and no
 * service of the resource overlaps it. The weekday is looked up in
 * `workingHours` only; `workingDays` is not consulted. On admission exactly
 * one service row is produced, whose deadline is its end.
 */
module BookingValidator {
  import opened Outcomes
  import opened Calendar

  datatype Failure =
    | ResourceNotFound      // `findByPk` found no row
    | NotAWorkingDay        // no windows configured for the weekday
    | OutsideWorkingHours   // no single window holds both endpoints
    | SlotConflict          // a service of the resource overlaps

  /** Both `start` and `end` lie in `w` anchored on the date of `start` (the body of the `isValidSlot` loop). */
  predicate FitsWindow(w: Window, start: int, end: int)
  {
    && InSlot(start, SlotStart(w, start), SlotEnd(w, start))
    && InSlot(end, SlotStart(w, start), SlotEnd(w, start))
  }

  /** The `isValidSlot` flag after the loop over the day's windows. */
  predicate FitsSomeWindow(ws: seq<Window>, start: int, end: int)
  {
    exists i :: 0 <= i < |ws| && FitsWindow(ws[i], start, end)
  }

  /** The `findOne` conflict query: a service of the resource overlapping `[start, end)`. */
  predicate HasConflict(store: seq<Service>, resourceId: int, start: int, end: int)
  {
    exists i :: 0 <= i < |store| && store[i].assignedTo == resourceId
                && Overlaps(store[i].startTime, store[i].endTime, start, end)
  }

  /**
   * The handler's outcome: the rejections in the order the handler checks
   * them, or the one service row it creates. A missing resource is rejected
   * whatever else holds; an admitted row lies in one window of the start's
   * weekday, overlaps no service of the resource, and carries the request's
   * fields with its end as its deadline. `BookingAdmitted` states when
   * admission happens in calendar terms.
   */
  function BookAppointment(resource: Option<Resource>, store: seq<Service>, resourceId: int, name: string,
                           start: int, duration: int, priority: int): (r: Result<Service, Failure>)
    ensures resource.None? <==> r == Err(ResourceNotFound)
    ensures r == Err(NotAWorkingDay) <==> resource.Some? && HoursOn(resource.value, WeekdayOf(Day(start))) == []
    ensures r == Err(OutsideWorkingHours) <==>
              && resource.Some? && HoursOn(resource.value, WeekdayOf(Day(start))) != []
              && !FitsSomeWindow(HoursOn(resource.value, WeekdayOf(Day(start))), start, start + duration)
    ensures r == Err(SlotConflict) <==>
              && resource.Some?
              && FitsSomeWindow(HoursOn(resource.value, WeekdayOf(Day(start))), start, start + duration)
              && HasConflict(store, resourceId, start, start + duration)
    ensures r.Ok? ==> resource.Some? && FitsSomeWindow(HoursOn(resource.value, WeekdayOf(Day(start))), start, start + duration)
    ensures r.Ok? ==> forall i :: 0 <= i < |store| && store[i].assignedTo == resourceId ==>
                        !Overlaps(store[i].startTime, store[i].endTime, start, start + duration)
    ensures r.Ok? ==> r.value == Service(Named(name), resourceId, duration, start + duration, priority, start, start + duration)
  {
    if resource.None? then Err(ResourceNotFound)
    else
      var end := start + duration;
      var hours := HoursOn(resource.value, WeekdayOf(Day(start)));
      if hours == [] then Err(NotAWorkingDay)
      else if !FitsSomeWindow(hours, start, end) then Err(OutsideWorkingHours)
      else if HasConflict(store, resourceId, start, end) then Err(SlotConflict)
      else Ok(Service(Named(name), resourceId, duration, end, priority, start, end))
  }

  // ---------------------------------------------------------------------
  // What admission means

  /**
   * `[start, end]` within one window in calendar terms: both endpoints fall
   * on the same day, at times of day in `[w.start, w.end)`.
   */
  ghost predicate WithinWindow(w: Window, start: int, end: int)
  {
    && Day(end) == Day(start)
    && w.start <= MinuteOf(start) < w.end
    && w.start <= MinuteOf(end) < w.end
  }

  /** The anchored containment test is the calendar one. */
  lemma FitsWindowMeans(w: Window, start: int, end: int)
    ensures FitsWindow(w, start, end) <==> WithinWindow(w, start, end)
  {
    AnchoredWindow(w, start);
    var d := Day(start);
    if InSlot(end, SlotStart(w, start), SlotEnd(w, start)) {
      DayUnique(end, d);
    }
    if Day(end) == d {
      AnchoredWindow(w, end);
    }
  }

  /**
   * An appointment is admitted exactly when the resource exists, one window
   * of the weekday of `start` holds both endpoints on that day, and no
   * service of the resource overlaps it; the row admitted carries the
   * request's fields, ends `duration` after it starts and has its end as its
   * deadline.
   */
  lemma BookingAdmitted(resource: Option<Resource>, store: seq<Service>, resourceId: int, name: string,
                        start: int, duration: int, priority: int)
    ensures BookAppointment(resource, store, resourceId, name, start, duration, priority).Ok? <==>
              && resource.Some?
              && (exists w :: w in HoursOn(resource.value, WeekdayOf(Day(start)))
                               && WithinWindow(w, start, start + duration))
              && (forall b :: b in store && b.assignedTo == resourceId ==>
                               !Overlaps(b.startTime, b.endTime, start, start + duration))
    ensures BookAppointment(resource, store, resourceId, name, start, duration, priority).Ok? ==>
              var s := BookAppointment(resource, store, resourceId, name, start, duration, priority).value;
              && s == Service(Named(name), resourceId, duration, s.endTime, priority, start, s.endTime)
              && s.endTime == start + duration
              && s.deadline == s.endTime
  {
    if resource.Some? {
      var hours := HoursOn(resource.value, WeekdayOf(Day(start)));
      var end := start + duration;
      forall i | 0 <= i < |hours|
        ensures FitsWindow(hours[i], start, end) <==> WithinWindow(hours[i], start, end)
      {
        FitsWindowMeans(hours[i], start, end);
      }
      if exists w :: w in hours && WithinWindow(w, start, end) {
        var w :| w in hours && WithinWindow(w, start, end);
        var i :| 0 <= i < |hours| && hours[i] == w;
        assert FitsWindow(hours[i], start, end);
      }
      if HasConflict(store, resourceId, start, end) {
        var i :| 0 <= i < |store| && store[i].assignedTo == resourceId
                 && Overlaps(store[i].startTime, store[i].endTime, start, end);
        assert store[i] in store;
      }
    }
  }

  /** The rejections, checked in order: a missing resource first, then a weekday without windows. */
  lemma BookingRejectedEarly(resource: Option<Resource>, store: seq<Service>, resourceId: int, name: string,
                             start: int, duration: int, priority: int)
    ensures resource.None? ==>
              BookAppointment(resource, store, resourceId, name, start, duration, priority) == Err(ResourceNotFound)
    ensures resource.Some? && HoursOn(resource.value, WeekdayOf(Day(start))) == [] ==>
              BookAppointment(resource, store, resourceId, name, start, duration, priority) == Err(NotAWorkingDay)
  {
  }

  /** Only `workingHours` decides whether the weekday is worked: `workingDays` may be anything. */
  lemma WorkingDaysIgnored(r: Resource, days: set<Weekday>, store: seq<Service>, resourceId: int, name: string,
                           start: int, duration: int, priority: int)
    ensures BookAppointment(Some(r.(workingDays := days)), store, resourceId, name, start, duration, priority)
         == BookAppointment(Some(r), store, resourceId, name, start, duration, priority)
  {
    assert HoursOn(r.(workingDays := days), WeekdayOf(Day(start))) == HoursOn(r, WeekdayOf(Day(start)));
  }

  /** The windows of a weekday do not share a minute. */
  ghost predicate DisjointWindows(ws: seq<Window>)
  {
    forall i, j :: 0 <= i < j < |ws| ==> ws[i].end <= ws[j].start || ws[j].end <= ws[i].start
  }

  /**
   * With disjoint windows, an appointment that starts in window `i` and
   * whose end is not inside that same window is rejected as outside working
   * hours, whether or not the end falls in another window: in particular
   * one that ends exactly when its window closes, or one that straddles the
   * gap between two windows.
   */
  lemma EndOutsideStartWindowRejected(r: Resource, store: seq<Service>, resourceId: int, name: string,
                                      start: int, duration: int, priority: int, i: int)
    requires DisjointWindows(HoursOn(r, WeekdayOf(Day(start))))
    requires 0 <= i < |HoursOn(r, WeekdayOf(Day(start)))|
    requires InSlot(start, SlotStart(HoursOn(r, WeekdayOf(Day(start)))[i], start),
                           SlotEnd(HoursOn(r, WeekdayOf(Day(start)))[i], start))
    requires !InSlot(start + duration, SlotStart(HoursOn(r, WeekdayOf(Day(start)))[i], start),
                                       SlotEnd(HoursOn(r, WeekdayOf(Day(start)))[i], start))
    ensures BookAppointment(Some(r), store, resourceId, name, start, duration, priority) == Err(OutsideWorkingHours)
  {
  }

  /** An appointment that ends exactly when its window closes is rejected, with disjoint windows. */
  lemma EndingAtCloseRejected(r: Resource, store: seq<Service>, resourceId: int, name: string,
                              start: int, duration: int, priority: int, i: int)
    requires DisjointWindows(HoursOn(r, WeekdayOf(Day(start))))
    requires 0 <= i < |HoursOn(r, WeekdayOf(Day(start)))|
    requires InSlot(start, SlotStart(HoursOn(r, WeekdayOf(Day(start)))[i], start),
                           SlotEnd(HoursOn(r, WeekdayOf(Day(start)))[i], start))
    requires start + duration == SlotEnd(HoursOn(r, WeekdayOf(Day(start)))[i], start)
    ensures BookAppointment(Some(r), store, resourceId, name, start, duration, priority) == Err(OutsideWorkingHours)
  {
    EndOutsideStartWindowRejected(r, store, resourceId, name, start, duration, priority, i);
  }

  // ---------------------------------------------------------------------
  // No double booking

  /** No two services of the same resource overlap. */
  ghost predicate NoDoubleBooking(store: seq<Service>)
  {
    forall i, j :: 0 <= i < j < |store| && store[i].assignedTo == store[j].assignedTo ==>
      !Overlaps(store[i].startTime, store[i].endTime, store[j].startTime, store[j].endTime)
  }

  /**
   * Adding the row an admitted appointment creates keeps the service table
   * free of double bookings (for requests served one at a time).
   */
  lemma AdmissionKeepsNoDoubleBooking(resource: Option<Resource>, store: seq<Service>, resourceId: int, name: string,
                                      start: int, duration: int, priority: int)
    requires NoDoubleBooking(store)
    requires BookAppointment(resource, store, resourceId, name, start, duration, priority).Ok?
    ensures NoDoubleBooking(store + [BookAppointment(resource, store, resourceId, name, start, duration, priority).value])
  {
    var s := BookAppointment(resource, store, resourceId, name, start, duration, priority).value;
    var store' := store + [s];
    forall i, j | 0 <= i < j < |store'| && store'[i].assignedTo == store'[j].assignedTo
      ensures !Overlaps(store'[i].startTime, store'[i].endTime, store'[j].startTime, store'[j].endTime)
    {
      if j == |store| {
        assert store'[i] == store[i] && store'[j] == s;
        assert !(store[i].assignedTo == resourceId
                 && Overlaps(store[i].startTime, store[i].endTime, start, start + duration));
      } else {
        assert store'[i] == store[i] && store'[j] == store[j];
      }
    }
  }

  // ---------------------------------------------------------------------
  // Worked examples. Day 4 (1970-01-05) is a Monday starting at minute 5760.

  /** A resource working Mondays 09:00-12:00 and 13:00-17:00. */
  function SplitDayResource(): Resource
  {
    Resource(2, "bay", {}, map[Monday := [Window(540, 720), Window(780, 1020)]], [])
  }

  /**
   * Monday 11:00 for 60 minutes ends at 12:00, the close of the morning
   * window, and is rejected; 11:00 for 59 minutes is admitted; 11:30 for
   * 120 minutes straddles the lunch gap and is rejected. The resource lists
   * no working days at all.
   */
  lemma SplitDayBookings()
    ensures BookAppointment(Some(SplitDayResource()), [], 2, "tyres", 6420, 60, 0) == Err(OutsideWorkingHours)
    ensures BookAppointment(Some(SplitDayResource()), [], 2, "tyres", 6420, 59, 0)
         == Ok(Service(Named("tyres"), 2, 59, 6479, 0, 6420, 6479))
    ensures BookAppointment(Some(SplitDayResource()), [], 2, "tyres", 6450, 120, 0) == Err(OutsideWorkingHours)
  {
    var hours := [Window(540, 720), Window(780, 1020)];
    assert Day(6420) == 4 && Day(6450) == 4 && WeekdayOf(4) == Monday;
    assert HoursOn(SplitDayResource(), Monday) == hours;
    assert !FitsWindow(hours[0], 6420, 6480) && !FitsWindow(hours[1], 6420, 6480);
    assert FitsWindow(hours[0], 6420, 6479);
    assert !FitsWindow(hours[0], 6450, 6570) && !FitsWindow(hours[1], 6450, 6570);
  }

  /** Monday 10:00 for 30 minutes against a booking 10:15-10:45 of the same resource is a conflict. */
  lemma OverlappingBookingConflicts()
    ensures BookAppointment(Some(SplitDayResource()), [Service(Named("wash"), 2, 30, 6405, 0, 6375, 6405)],
                            2, "tyres", 6360, 30, 0) == Err(SlotConflict)
    ensures BookAppointment(Some(SplitDayResource()), [Service(Named("wash"), 3, 30, 6405, 0, 6375, 6405)],
                            2, "tyres", 6360, 30, 0) == Ok(Service(Named("tyres"), 2, 30, 6390, 0, 6360, 6390))
  {
    var hours := [Window(540, 720), Window(780, 1020)];
    var store := [Service(Named("wash"), 2, 30, 6405, 0, 6375, 6405)];
    assert Day(6360) == 4 && WeekdayOf(4) == Monday;
    assert HoursOn(SplitDayResource(), Monday) == hours;
    assert FitsWindow(hours[0], 6360, 6390);
    assert store[0].assignedTo == 2 && Overlaps(store[0].startTime, store[0].endTime, 6360, 6390);
  }
}
