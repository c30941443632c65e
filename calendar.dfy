/**
 * Calendar and slot arithmetic of the scheduling engine.
 *
 * Instants are whole minutes counted from 1970-01-01 00:00 in the resource's
 * local civil time; a day is a day index, and its weekday is fixed by the
 * fact that day 0 was a Thursday. A working window is a pair of minutes of
 * the day, as parsed from "HH:mm"; anchoring it on the date of an instant
 * gives the absolute half-open interval [slotStart, slotEnd).
 */
module Calendar {

  const MinutesPerDay: int := 1440

  /** A time of day as written "HH:mm": 00:00 .. 23:59. */
  type MinuteOfDay = m: int | 0 <= m < 1440

  datatype Weekday = Sunday | Monday | Tuesday | Wednesday | Thursday | Friday | Saturday

  /** First minute of day `d`. */
  function DayStart(d: int): int
  {
    d * MinutesPerDay
  }

  /** The day an instant falls on (floor division; Dafny's `/` is Euclidean). */
  function Day(t: int): (d: int)
    ensures DayStart(d) <= t < DayStart(d) + MinutesPerDay
  {
    t / MinutesPerDay
  }

  /** Time of day of an instant. */
  function MinuteOf(t: int): (m: MinuteOfDay)
    ensures t == DayStart(Day(t)) + m
  {
    t - DayStart(Day(t))
  }

  /** Weekday name of day `d` (moment's `format("dddd")`). */
  function WeekdayOf(d: int): Weekday
  {
    [Thursday, Friday, Saturday, Sunday, Monday, Tuesday, Wednesday][d % 7]
  }

  /**
   * `add(1, "day").startOf("day")`: the first minute of the following day.
   */
  function NextDayStart(t: int): (r: int)
    ensures Day(r) == Day(t) + 1 && r == DayStart(Day(r))
    ensures t < r
  {
    DayStart(Day(t) + 1)
  }

  /**
   * `endOf("day")`, truncated to its minute (23:59). An instant is after it
   * exactly when it falls on a later day.
   */
  function EndOfDay(t: int): (r: int)
    ensures Day(r) == Day(t)
  {
    DayStart(Day(t)) + MinutesPerDay - 1
  }

  /** An instant is after the end of a day exactly when it falls on a later day. */
  lemma AfterEndOfDay(t: int, x: int)
    ensures EndOfDay(t) < x <==> Day(t) < Day(x)
  {
  }

  /** A working window "start"-"end" of some weekday. */
  datatype Window = Window(start: MinuteOfDay, end: MinuteOfDay)

  /** Window `w` anchored on the date of instant `t`: its first instant. */
  function SlotStart(w: Window, t: int): int
  {
    DayStart(Day(t)) + w.start
  }

  /** Window `w` anchored on the date of instant `t`: its end (exclusive). */
  function SlotEnd(w: Window, t: int): int
  {
    DayStart(Day(t)) + w.end
  }

  /** moment's `x.isBetween(lo, hi, null, "[)")`. */
  predicate InSlot(x: int, lo: int, hi: int)
  {
    lo <= x < hi
  }

  /** The store's overlap test between `[aStart, aEnd)` and `[bStart, bEnd)`. */
  predicate Overlaps(aStart: int, aEnd: int, bStart: int, bEnd: int)
  {
    aStart < bEnd && aEnd > bStart
  }

  /**
   * Anchoring keeps a window on the date it is anchored on, and an instant
   * lies in the window anchored on its own date exactly when its time of day
   * lies in the window's time-of-day range.
   */
  lemma AnchoredWindow(w: Window, t: int)
    ensures Day(SlotStart(w, t)) == Day(t) && Day(SlotEnd(w, t)) == Day(t)
    ensures InSlot(t, SlotStart(w, t), SlotEnd(w, t)) <==> w.start <= MinuteOf(t) < w.end
  {
    var d := Day(t);
    DayOfOffset(d, w.start);
    DayOfOffset(d, w.end);
  }

  /** An offset within a day stays on that day. */
  lemma DayOfOffset(d: int, m: MinuteOfDay)
    ensures Day(DayStart(d) + m) == d
  {
    DayUnique(DayStart(d) + m, d);
  }

  /** Every instant between the start of a day and the start of the next lies on that day. */
  lemma DayUnique(x: int, d: int)
    requires DayStart(d) <= x < DayStart(d) + MinutesPerDay
    ensures Day(x) == d
  {
  }

  /** A resource: a worker, machine or room with a weekly calendar. */
  datatype Resource = Resource(
    id: int,
    name: string,
    workingDays: set<Weekday>,
    workingHours: map<Weekday, seq<Window>>,
    serviceTypes: seq<string>)

  /** `workingHours[day]`, with a missing entry read as no windows. */
  function HoursOn(r: Resource, wd: Weekday): seq<Window>
  {
    if wd in r.workingHours then r.workingHours[wd] else []
  }

  /** `workingDays.includes(day) && workingHours[day]?.length > 0`. */
  predicate WorksOn(r: Resource, wd: Weekday)
  {
    wd in r.workingDays && |HoursOn(r, wd)| > 0
  }

  /** The name of a stored service: plain, or a part of a long task. */
  datatype ServiceName = Named(name: string) | NamedPart(task: string, part: int)

  /** A row of the service table: a booking or one chunk of a long task. */
  datatype Service = Service(
    name: ServiceName,
    assignedTo: int,
    duration: int,
    deadline: int,
    priority: int,
    startTime: int,
    endTime: int)
}
