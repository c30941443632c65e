/**
 * The long-task scheduler (`scheduleLongService`).
 *
 * A cursor starts at the current time and walks forward day by day. On a
 * working day it visits the day's windows in order and places into each one
 * at most one chunk of `min(slotEnd - cursor, remaining, 480)` minutes; when
 * the day is used up and work remains it moves to the start of the next day,
 * remembering that day as the revised deadline once it lies past the end of
 * the original deadline's day. The chunks form one batch that is committed
 * only when the whole duration has been placed.
 *
 * The source loops for ever when the resource has no working time; here the
 * number of day passes is bounded by `horizon`, and running out of it is the
 * failure `HorizonExhausted`.
 */
module ChunkScheduler {
  import opened Outcomes
  import opened Calendar

  /** Longest chunk, in minutes (8 hours). */
  const MaxChunkDuration: int := 480

  /** The request: task name, resource, total duration, deadline, priority. */
  datatype Task = Task(name: string, resourceId: int, duration: int, deadline: int, priority: int)

  datatype Failure =
    | ResourceNotFound   // `findByPk` found no row
    | HorizonExhausted   // the day passes ran out with work remaining

  /** The batch handed to `bulkCreate` and the revised deadline that is returned. */
  datatype Plan = Plan(chunks: seq<Service>, newDeadline: Option<int>)

  /** The loop's variables: `remainingDuration`, `currentStartTime`, `servicesToInsert`, `newDeadline`. */
  datatype State = State(remaining: int, cursor: int, chunks: seq<Service>, newDeadline: Option<int>)

  function Min(a: int, b: int): int
  {
    if a <= b then a else b
  }

  /** `Math.ceil((consumed + 1) / 480)`: the part label of a chunk placed after `consumed` minutes. */
  function PartNumber(consumed: int): (p: int)
    ensures MaxChunkDuration * (p - 1) < consumed + 1 <= MaxChunkDuration * p
  {
    var n := consumed + 1;
    if n % MaxChunkDuration == 0 then n / MaxChunkDuration else n / MaxChunkDuration + 1
  }

  /** One iteration of the loop over a day's windows. */
  function PlaceInWindow(t: Task, eod: int, w: Window, s: State): State
  {
    var slotStart := SlotStart(w, s.cursor);
    var slotEnd := SlotEnd(w, s.cursor);
    var cursor := if s.cursor < slotStart then slotStart else s.cursor;
    if InSlot(cursor, slotStart, slotEnd) then
      var len := Min(slotEnd - cursor, Min(s.remaining, MaxChunkDuration));
      var chunk := Service(NamedPart(t.name, PartNumber(t.duration - s.remaining)),
                           t.resourceId, len, eod, t.priority, cursor, cursor + len);
      State(s.remaining - len, cursor + len, s.chunks + [chunk], s.newDeadline)
    else
      s.(cursor := cursor)
  }

  /** The loop over a day's windows, left as soon as nothing remains. */
  function PlaceInDay(t: Task, eod: int, ws: seq<Window>, s: State): State
    decreases |ws|
  {
    if ws == [] || s.remaining <= 0 then s
    else PlaceInDay(t, eod, ws[1..], PlaceInWindow(t, eod, ws[0], s))
  }

  /** One pass of the outer loop: the cursor's day, then the move to the next day. */
  function DayPass(r: Resource, t: Task, eod: int, s: State): State
  {
    var wd := WeekdayOf(Day(s.cursor));
    var placed := if WorksOn(r, wd) then PlaceInDay(t, eod, HoursOn(r, wd), s) else s;
    if placed.remaining > 0 then
      var next := NextDayStart(placed.cursor);
      placed.(cursor := next, newDeadline := if next > eod then Some(next) else placed.newDeadline)
    else
      placed
  }

  /** The outer loop, with at most `fuel` more day passes. */
  function Run(r: Resource, t: Task, eod: int, s: State, fuel: nat): Result<State, Failure>
    decreases fuel
  {
    if s.remaining <= 0 then Ok(s)
    else if fuel == 0 then Err(HorizonExhausted)
    else Run(r, t, eod, DayPass(r, t, eod, s), fuel - 1)
  }

  /** The whole operation, as a function of the looked-up resource and the current time. */
  function Schedule(resource: Option<Resource>, t: Task, now: int, horizon: nat): Result<Plan, Failure>
  {
    if resource.None? then Err(ResourceNotFound)
    else
      match Run(resource.value, t, EndOfDay(t.deadline), State(t.duration, now, [], None), horizon)
      case Ok(s) => Ok(Plan(s.chunks, s.newDeadline))
      case Err(e) => Err(e)
  }

  /**
   * `scheduleLongService`, with the clock read as `now`, the resource lookup
   * as `resource`, and at most `horizon` day passes.
   */
  method ScheduleLongService(resource: Option<Resource>, t: Task, now: int, horizon: nat)
    returns (result: Result<Plan, Failure>)
    ensures result == Schedule(resource, t, now, horizon)
  {
    var remaining := t.duration;
    var endOfDeadline := EndOfDay(t.deadline);
    var cursor := now;
    var newDeadline: Option<int> := None;
    if resource.None? {
      return Err(ResourceNotFound);
    }
    var r := resource.value;
    var chunks: seq<Service> := [];
    var passes: nat := 0;
    while remaining > 0 && passes < horizon
      invariant passes <= horizon
      decreases horizon - passes
      invariant Run(r, t, endOfDeadline, State(remaining, cursor, chunks, newDeadline), horizon - passes)
             == Run(r, t, endOfDeadline, State(t.duration, now, [], None), horizon)
    {
      ghost var before := State(remaining, cursor, chunks, newDeadline);
      var wd := WeekdayOf(Day(cursor));
      if WorksOn(r, wd) {
        remaining, cursor, chunks := PlaceInWindows(t, endOfDeadline, HoursOn(r, wd), remaining, cursor, chunks, newDeadline);
      }
      if remaining > 0 {
        cursor := NextDayStart(cursor);
        if cursor > endOfDeadline {
          newDeadline := Some(cursor);
        }
      }
      assert State(remaining, cursor, chunks, newDeadline) == DayPass(r, t, endOfDeadline, before);
      passes := passes + 1;
    }
    if remaining > 0 {
      return Err(HorizonExhausted);
    }
    return Ok(Plan(chunks, newDeadline));
  }

  /**
   * The `for (const slot of ...)` loop of one working day: returns the new
   * `remainingDuration`, `currentStartTime` and `servicesToInsert`.
   */
  method PlaceInWindows(t: Task, eod: int, ws: seq<Window>, remaining0: int, cursor0: int,
                        chunks0: seq<Service>, ghost newDeadline: Option<int>)
    returns (remaining: int, cursor: int, chunks: seq<Service>)
    requires remaining0 > 0
    ensures State(remaining, cursor, chunks, newDeadline)
         == PlaceInDay(t, eod, ws, State(remaining0, cursor0, chunks0, newDeadline))
  {
    remaining, cursor, chunks := remaining0, cursor0, chunks0;
    var i := 0;
    while i < |ws|
      invariant 0 <= i <= |ws|
      invariant remaining > 0
      invariant PlaceInDay(t, eod, ws[i..], State(remaining, cursor, chunks, newDeadline))
             == PlaceInDay(t, eod, ws, State(remaining0, cursor0, chunks0, newDeadline))
    {
      ghost var here := State(remaining, cursor, chunks, newDeadline);
      PlaceInDayStep(t, eod, ws, i, here);
      var slotStart := SlotStart(ws[i], cursor);
      var slotEnd := SlotEnd(ws[i], cursor);
      if cursor < slotStart {
        cursor := slotStart;
      }
      if InSlot(cursor, slotStart, slotEnd) {
        var len := Min(slotEnd - cursor, Min(remaining, MaxChunkDuration));
        chunks := chunks + [Service(NamedPart(t.name, PartNumber(t.duration - remaining)),
                                    t.resourceId, len, eod, t.priority, cursor, cursor + len)];
        remaining := remaining - len;
        cursor := cursor + len;
      }
      assert State(remaining, cursor, chunks, newDeadline) == PlaceInWindow(t, eod, ws[i], here);
      if remaining <= 0 {
        PlaceInDayFinished(t, eod, ws[i + 1..], State(remaining, cursor, chunks, newDeadline));
        return;
      }
      i := i + 1;
    }
  }

  lemma PlaceInDayStep(t: Task, eod: int, ws: seq<Window>, i: nat, s: State)
    requires i < |ws| && s.remaining > 0
    ensures PlaceInDay(t, eod, ws[i..], s) == PlaceInDay(t, eod, ws[i + 1..], PlaceInWindow(t, eod, ws[i], s))
  {
    assert ws[i..][1..] == ws[i + 1..];
  }

  lemma PlaceInDayFinished(t: Task, eod: int, ws: seq<Window>, s: State)
    requires s.remaining <= 0
    ensures PlaceInDay(t, eod, ws, s) == s
  {
  }

  // ---------------------------------------------------------------------
  // What a successful schedule promises

  /** Total minutes of a batch of chunks. */
  function SumDurations(cs: seq<Service>): int
  {
    if cs == [] then 0 else SumDurations(cs[..|cs| - 1]) + cs[|cs| - 1].duration
  }

  /** `w` is a window of the weekday of `c` and, anchored on `c`'s date, holds `[c.startTime, c.endTime)`. */
  predicate PlacedIn(r: Resource, c: Service, w: Window)
  {
    && w in HoursOn(r, WeekdayOf(Day(c.startTime)))
    && SlotStart(w, c.startTime) <= c.startTime
    && c.endTime <= SlotEnd(w, c.startTime)
  }

  /**
   * `c` lies in one working window of a working day and stops only at the
   * 480-minute cap, at the window's end, or (when `last`) at the end of the task.
   */
  ghost predicate ChunkFitsWindow(r: Resource, c: Service, last: bool)
  {
    && WorksOn(r, WeekdayOf(Day(c.startTime)))
    && exists w :: PlacedIn(r, c, w) && (c.duration == MaxChunkDuration || c.endTime == SlotEnd(w, c.startTime) || last)
  }

  /** The fields every chunk of task `t` carries. */
  predicate ChunkShape(t: Task, c: Service)
  {
    && c.assignedTo == t.resourceId
    && c.priority == t.priority
    && c.deadline == EndOfDay(t.deadline)
    && 0 < c.duration <= MaxChunkDuration
    && c.endTime == c.startTime + c.duration
  }

  /**
   * The revised deadline reported when the last day-advance landed on day
   * `d`: the start of that day, when it is past both the first day and the
   * deadline's day.
   */
  function RevisedDeadline(t: Task, now: int, d: int): Option<int>
  {
    if Day(now) < d && Day(t.deadline) < d then Some(DayStart(d)) else None
  }

  ghost predicate ChunkOK(r: Resource, t: Task, now: int, cs: seq<Service>, i: int)
    requires 0 <= i < |cs|
  {
    && ChunkShape(t, cs[i])
    && now <= cs[i].startTime
    && cs[i].name == NamedPart(t.name, PartNumber(SumDurations(cs[..i])))
    && ChunkFitsWindow(r, cs[i], SumDurations(cs[..i + 1]) == t.duration)
  }

  /** The loop invariant of `scheduleLongService`, between two windows or two days. */
  ghost predicate Inv(r: Resource, t: Task, now: int, s: State)
  {
    InvProgress(t, now, s) && InvChunks(r, t, now, s)
  }

  /** The counters and the cursor: what is left, what was placed, the revised deadline. */
  ghost predicate InvProgress(t: Task, now: int, s: State)
  {
    && 0 <= s.remaining <= t.duration
    && SumDurations(s.chunks) == t.duration - s.remaining
    && now <= s.cursor && Day(now) <= Day(s.cursor)
    && s.newDeadline == RevisedDeadline(t, now, Day(s.cursor))
    && (s.remaining == 0 ==> |s.chunks| > 0 && Day(s.chunks[|s.chunks| - 1].startTime) == Day(s.cursor))
  }

  /** The chunks placed so far: each well placed, all before the cursor and in time order. */
  ghost predicate InvChunks(r: Resource, t: Task, now: int, s: State)
  {
    && (forall i :: 0 <= i < |s.chunks| ==> ChunkOK(r, t, now, s.chunks, i))
    && (forall i :: 0 <= i < |s.chunks| ==> s.chunks[i].endTime <= s.cursor)
    && (forall i, j :: 0 <= i < j < |s.chunks| ==> s.chunks[i].endTime <= s.chunks[j].startTime)
  }

  lemma SumDurationsAppend(cs: seq<Service>, c: Service)
    ensures SumDurations(cs + [c]) == SumDurations(cs) + c.duration
  {
    assert (cs + [c])[..|cs|] == cs;
  }

  lemma PlaceInWindowKeeps(r: Resource, t: Task, now: int, w: Window, s: State)
    requires Inv(r, t, now, s) && s.remaining > 0
    requires WorksOn(r, WeekdayOf(Day(s.cursor))) && w in HoursOn(r, WeekdayOf(Day(s.cursor)))
    ensures Inv(r, t, now, PlaceInWindow(t, EndOfDay(t.deadline), w, s))
    ensures Day(PlaceInWindow(t, EndOfDay(t.deadline), w, s).cursor) == Day(s.cursor)
  {
    var slotStart := SlotStart(w, s.cursor);
    var slotEnd := SlotEnd(w, s.cursor);
    AnchoredWindow(w, s.cursor);
    var cursor := if s.cursor < slotStart then slotStart else s.cursor;
    assert Day(cursor) == Day(s.cursor);
    var moved := s.(cursor := cursor);
    MoveCursorKeeps(r, t, now, s, cursor);
    if InSlot(cursor, slotStart, slotEnd) {
      assert SlotStart(w, cursor) == slotStart && SlotEnd(w, cursor) == slotEnd;
      assert PlaceInWindow(t, EndOfDay(t.deadline), w, s) == PlaceInWindow(t, EndOfDay(t.deadline), w, moved);
      AppendChunkKeeps(r, t, now, w, moved);
    } else {
      assert PlaceInWindow(t, EndOfDay(t.deadline), w, s) == moved;
    }
  }

  /** Moving the cursor forward within its day, with work left, keeps the invariant. */
  lemma MoveCursorKeeps(r: Resource, t: Task, now: int, s: State, cursor: int)
    requires Inv(r, t, now, s) && s.remaining > 0
    requires s.cursor <= cursor && Day(cursor) == Day(s.cursor)
    ensures Inv(r, t, now, s.(cursor := cursor))
  {
    assert InvProgress(t, now, s.(cursor := cursor));
    assert InvChunks(r, t, now, s.(cursor := cursor));
  }

  /** Placing a chunk at a cursor that lies inside window `w` keeps the invariant. */
  lemma AppendChunkKeeps(r: Resource, t: Task, now: int, w: Window, s: State)
    requires Inv(r, t, now, s) && s.remaining > 0
    requires WorksOn(r, WeekdayOf(Day(s.cursor))) && w in HoursOn(r, WeekdayOf(Day(s.cursor)))
    requires InSlot(s.cursor, SlotStart(w, s.cursor), SlotEnd(w, s.cursor))
    ensures Inv(r, t, now, PlaceInWindow(t, EndOfDay(t.deadline), w, s))
    ensures Day(PlaceInWindow(t, EndOfDay(t.deadline), w, s).cursor) == Day(s.cursor)
  {
    var eod := EndOfDay(t.deadline);
    var d := Day(s.cursor);
    var slotEnd := SlotEnd(w, s.cursor);
    AnchoredWindow(w, s.cursor);
    var len := Min(slotEnd - s.cursor, Min(s.remaining, MaxChunkDuration));
    var c := Service(NamedPart(t.name, PartNumber(t.duration - s.remaining)),
                     t.resourceId, len, eod, t.priority, s.cursor, s.cursor + len);
    var cs := s.chunks;
    var s' := State(s.remaining - len, s.cursor + len, cs + [c], s.newDeadline);
    assert PlaceInWindow(t, eod, w, s) == s';
    DayUnique(s.cursor + len, d);
    NewChunkOK(r, t, now, w, cs, c, s.remaining);
    ChunksOKAppend(r, t, now, cs, c);
    OrderedAppend(cs, c, s.cursor);
    SumDurationsAppend(cs, c);
    assert Day(s'.cursor) == d && (cs + [c])[|cs|] == c;
    assert InvProgress(t, now, s');
    assert InvChunks(r, t, now, s');
  }

  /** The chunk placed at a cursor inside window `w` satisfies `ChunkOK` at the end of the batch. */
  lemma NewChunkOK(r: Resource, t: Task, now: int, w: Window, cs: seq<Service>, c: Service, remaining: int)
    requires 0 < remaining <= t.duration && SumDurations(cs) == t.duration - remaining
    requires now <= c.startTime
    requires WorksOn(r, WeekdayOf(Day(c.startTime))) && w in HoursOn(r, WeekdayOf(Day(c.startTime)))
    requires InSlot(c.startTime, SlotStart(w, c.startTime), SlotEnd(w, c.startTime))
    requires c == Service(NamedPart(t.name, PartNumber(t.duration - remaining)), t.resourceId,
                          Min(SlotEnd(w, c.startTime) - c.startTime, Min(remaining, MaxChunkDuration)),
                          EndOfDay(t.deadline), t.priority, c.startTime, c.startTime + c.duration)
    ensures ChunkOK(r, t, now, cs + [c], |cs|)
  {
    var cs' := cs + [c];
    SumDurationsAppend(cs, c);
    assert cs'[..|cs|] == cs && cs'[..|cs| + 1] == cs';
    assert PlacedIn(r, c, w);
  }

  /** Appending a chunk that starts at or after the cursor keeps the batch in time order. */
  lemma OrderedAppend(cs: seq<Service>, c: Service, cursor: int)
    requires forall i :: 0 <= i < |cs| ==> cs[i].endTime <= cursor
    requires forall i, j :: 0 <= i < j < |cs| ==> cs[i].endTime <= cs[j].startTime
    requires cursor <= c.startTime
    ensures forall i, j :: 0 <= i < j < |cs + [c]| ==> (cs + [c])[i].endTime <= (cs + [c])[j].startTime
  {
  }

  lemma ChunksOKAppend(r: Resource, t: Task, now: int, cs: seq<Service>, c: Service)
    requires forall i :: 0 <= i < |cs| ==> ChunkOK(r, t, now, cs, i)
    requires ChunkOK(r, t, now, cs + [c], |cs|)
    ensures forall i :: 0 <= i < |cs + [c]| ==> ChunkOK(r, t, now, cs + [c], i)
  {
    var cs' := cs + [c];
    forall i | 0 <= i < |cs'|
      ensures ChunkOK(r, t, now, cs', i)
    {
      if i < |cs| {
        assert cs'[..i] == cs[..i] && cs'[..i + 1] == cs[..i + 1];
        assert ChunkOK(r, t, now, cs, i);
      }
    }
  }

  lemma {:induction false} PlaceInDayKeeps(r: Resource, t: Task, now: int, ws: seq<Window>, s: State)
    requires Inv(r, t, now, s)
    requires WorksOn(r, WeekdayOf(Day(s.cursor)))
    requires forall w :: w in ws ==> w in HoursOn(r, WeekdayOf(Day(s.cursor)))
    ensures Inv(r, t, now, PlaceInDay(t, EndOfDay(t.deadline), ws, s))
    ensures Day(PlaceInDay(t, EndOfDay(t.deadline), ws, s).cursor) == Day(s.cursor)
    decreases |ws|
  {
    if ws != [] && s.remaining > 0 {
      var eod := EndOfDay(t.deadline);
      PlaceInWindowKeeps(r, t, now, ws[0], s);
      PlaceInDayKeeps(r, t, now, ws[1..], PlaceInWindow(t, eod, ws[0], s));
    }
  }

  lemma DayPassKeeps(r: Resource, t: Task, now: int, s: State)
    requires Inv(r, t, now, s) && s.remaining > 0
    ensures Inv(r, t, now, DayPass(r, t, EndOfDay(t.deadline), s))
  {
    var eod := EndOfDay(t.deadline);
    var wd := WeekdayOf(Day(s.cursor));
    if WorksOn(r, wd) {
      PlaceInDayKeeps(r, t, now, HoursOn(r, wd), s);
    }
    var placed := if WorksOn(r, wd) then PlaceInDay(t, eod, HoursOn(r, wd), s) else s;
    assert Inv(r, t, now, placed) && Day(placed.cursor) == Day(s.cursor);
    if placed.remaining > 0 {
      var next := NextDayStart(placed.cursor);
      assert next > eod <==> Day(t.deadline) < Day(next);
    }
  }

  lemma {:induction false} RunKeeps(r: Resource, t: Task, now: int, s: State, fuel: nat)
    requires Inv(r, t, now, s)
    ensures Run(r, t, EndOfDay(t.deadline), s, fuel).Ok? ==>
              Inv(r, t, now, Run(r, t, EndOfDay(t.deadline), s, fuel).value)
              && Run(r, t, EndOfDay(t.deadline), s, fuel).value.remaining == 0
    decreases fuel
  {
    if s.remaining > 0 && fuel > 0 {
      DayPassKeeps(r, t, now, s);
      RunKeeps(r, t, now, DayPass(r, t, EndOfDay(t.deadline), s), fuel - 1);
    }
  }

  /** What the final loop state of a successful schedule satisfies. */
  lemma ScheduleInv(resource: Option<Resource>, t: Task, now: int, horizon: nat)
    returns (s: State)
    requires Schedule(resource, t, now, horizon).Ok? && t.duration > 0
    ensures resource.Some? && Inv(resource.value, t, now, s) && s.remaining == 0
    ensures Schedule(resource, t, now, horizon).value == Plan(s.chunks, s.newDeadline)
  {
    var r := resource.value;
    var s0 := State(t.duration, now, [], None);
    RunKeeps(r, t, now, s0, horizon);
    s := Run(r, t, EndOfDay(t.deadline), s0, horizon).value;
  }

  lemma {:induction false} PrefixSumBelow(cs: seq<Service>, k: nat)
    requires k < |cs|
    requires forall i :: 0 <= i < |cs| ==> cs[i].duration > 0
    ensures SumDurations(cs[..k]) < SumDurations(cs)
    decreases |cs|
  {
    var init := cs[..|cs| - 1];
    if k < |cs| - 1 {
      assert cs[..k] == init[..k];
      PrefixSumBelow(init, k);
    } else {
      assert cs[..k] == init;
    }
  }

  /**
   * A successful schedule places exactly the requested duration, in chunks of
   * 1 to 480 minutes that carry the task's resource, its priority and the end
   * of the deadline's day, each ending `duration` minutes after it starts. A
   * non-positive duration places nothing and reports no revised deadline.
   */
  lemma ScheduleCoversDuration(resource: Option<Resource>, t: Task, now: int, horizon: nat)
    requires Schedule(resource, t, now, horizon).Ok?
    ensures var p := Schedule(resource, t, now, horizon).value;
      && (t.duration > 0 ==> SumDurations(p.chunks) == t.duration)
      && (t.duration <= 0 ==> p == Plan([], None))
      && forall i :: 0 <= i < |p.chunks| ==> ChunkShape(t, p.chunks[i])
  {
    if t.duration > 0 {
      var s := ScheduleInv(resource, t, now, horizon);
      forall i | 0 <= i < |s.chunks|
        ensures ChunkShape(t, s.chunks[i])
      {
        assert ChunkOK(resource.value, t, now, s.chunks, i);
      }
    }
  }

  /**
   * The chunks of a successful schedule start no earlier than the current
   * time, and each one ends no later than any later chunk starts: they are in
   * time order and no two overlap.
   */
  lemma ScheduleChunksOrdered(resource: Option<Resource>, t: Task, now: int, horizon: nat)
    requires Schedule(resource, t, now, horizon).Ok?
    ensures var cs := Schedule(resource, t, now, horizon).value.chunks;
      && (forall i :: 0 <= i < |cs| ==> now <= cs[i].startTime)
      && (forall i, j :: 0 <= i < j < |cs| ==> cs[i].endTime <= cs[j].startTime)
  {
    if t.duration > 0 {
      var s := ScheduleInv(resource, t, now, horizon);
      forall i | 0 <= i < |s.chunks|
        ensures now <= s.chunks[i].startTime
      {
        assert ChunkOK(resource.value, t, now, s.chunks, i);
      }
    }
  }

  /** The chunks of a successful schedule with a positive duration, and what each one satisfies. */
  lemma ScheduledChunks(resource: Option<Resource>, t: Task, now: int, horizon: nat)
    returns (cs: seq<Service>)
    requires Schedule(resource, t, now, horizon).Ok? && t.duration > 0
    ensures resource.Some? && cs == Schedule(resource, t, now, horizon).value.chunks
    ensures SumDurations(cs) == t.duration
    ensures forall i :: 0 <= i < |cs| ==> ChunkOK(resource.value, t, now, cs, i)
  {
    var s := ScheduleInv(resource, t, now, horizon);
    cs := s.chunks;
  }

  /**
   * Every chunk of a successful schedule lies inside one working window of a
   * working day of the resource, anchored on the chunk's date.
   */
  lemma ScheduleChunksInWindows(resource: Option<Resource>, t: Task, now: int, horizon: nat)
    requires Schedule(resource, t, now, horizon).Ok?
    ensures var cs := Schedule(resource, t, now, horizon).value.chunks;
      && (cs != [] ==> resource.Some?)
      && (forall i :: 0 <= i < |cs| ==>
            WorksOn(resource.value, WeekdayOf(Day(cs[i].startTime))) && exists w :: PlacedIn(resource.value, cs[i], w))
  {
    if t.duration > 0 {
      var cs := ScheduledChunks(resource, t, now, horizon);
      forall i | 0 <= i < |cs|
        ensures WorksOn(resource.value, WeekdayOf(Day(cs[i].startTime))) && exists w :: PlacedIn(resource.value, cs[i], w)
      {
        assert ChunkOK(resource.value, t, now, cs, i);
      }
    } else {
      assert Schedule(resource, t, now, horizon).value.chunks == [];
    }
  }

  /**
   * Every chunk of a successful schedule but the last is as long as it can
   * be: it stops either at the 480-minute cap or at the end of its window.
   */
  lemma ScheduleChunksMaximal(resource: Option<Resource>, t: Task, now: int, horizon: nat)
    requires Schedule(resource, t, now, horizon).Ok?
    ensures var cs := Schedule(resource, t, now, horizon).value.chunks;
      && (cs != [] ==> resource.Some?)
      && (forall i :: 0 <= i < |cs| - 1 ==> StopsAtCapOrWindowEnd(resource.value, cs[i]))
  {
    if t.duration > 0 {
      var cs := ScheduledChunks(resource, t, now, horizon);
      var r := resource.value;
      assert forall k :: 0 <= k < |cs| ==> cs[k].duration > 0 by {
        forall k | 0 <= k < |cs| ensures cs[k].duration > 0 {
          assert ChunkOK(r, t, now, cs, k);
        }
      }
      forall i | 0 <= i < |cs| - 1
        ensures StopsAtCapOrWindowEnd(r, cs[i])
      {
        assert ChunkOK(r, t, now, cs, i);
        PrefixSumBelow(cs, i + 1);
        NotLastIsMaximal(r, cs[i], SumDurations(cs[..i + 1]) == t.duration);
      }
    } else {
      assert Schedule(resource, t, now, horizon).value.chunks == [];
    }
  }

  /** `c` lies in a window of its weekday and ends at the 480-minute cap or at that window's end. */
  ghost predicate StopsAtCapOrWindowEnd(r: Resource, c: Service)
  {
    exists w :: PlacedIn(r, c, w) && (c.duration == MaxChunkDuration || c.endTime == SlotEnd(w, c.startTime))
  }

  lemma NotLastIsMaximal(r: Resource, c: Service, last: bool)
    requires ChunkFitsWindow(r, c, last) && !last
    ensures StopsAtCapOrWindowEnd(r, c)
  {
  }

  /**
   * Part labels: chunk `i` of a successful schedule is named after the task
   * with part `ceil((minutes placed before it + 1) / 480)`. The first chunk is
   * part 1 and the parts never decrease.
   */
  lemma SchedulePartLabels(resource: Option<Resource>, t: Task, now: int, horizon: nat)
    requires Schedule(resource, t, now, horizon).Ok? && t.duration > 0
    ensures var cs := Schedule(resource, t, now, horizon).value.chunks;
      && |cs| > 0 && cs[0].name == NamedPart(t.name, 1)
      && (forall i :: 0 <= i < |cs| ==> cs[i].name == NamedPart(t.name, PartNumber(SumDurations(cs[..i]))))
      && (forall i :: 0 < i < |cs| ==> cs[i - 1].name.part <= cs[i].name.part)
  {
    var cs := ScheduledChunks(resource, t, now, horizon);
    var r := resource.value;
    forall i | 0 <= i < |cs|
      ensures cs[i].name == NamedPart(t.name, PartNumber(SumDurations(cs[..i])))
    {
      assert ChunkOK(r, t, now, cs, i);
    }
    assert cs[..0] == [];
    PartLabelsNondecreasing(r, t, now, cs);
  }

  /** Part labels follow the minutes consumed before each chunk, which only grow. */
  lemma PartLabelsNondecreasing(r: Resource, t: Task, now: int, cs: seq<Service>)
    requires forall i :: 0 <= i < |cs| ==> ChunkOK(r, t, now, cs, i)
    ensures forall i :: 0 < i < |cs| ==> PartNumber(SumDurations(cs[..i - 1])) <= PartNumber(SumDurations(cs[..i]))
  {
    forall i | 0 < i < |cs|
      ensures PartNumber(SumDurations(cs[..i - 1])) <= PartNumber(SumDurations(cs[..i]))
    {
      assert ChunkOK(r, t, now, cs, i - 1);
      assert ChunkOK(r, t, now, cs, i);
      assert cs[..i][..i - 1] == cs[..i - 1];
      var a := SumDurations(cs[..i - 1]);
      var b := SumDurations(cs[..i]);
      assert a < b;
      var pa := PartNumber(a);
      var pb := PartNumber(b);
      assert MaxChunkDuration * (pa - 1) < a + 1 <= b + 1 <= MaxChunkDuration * pb;
    }
  }

  /**
   * The revised deadline: the start of the day the task ends on, reported
   * exactly when that day is later than both the first day and the
   * deadline's day. So a reported deadline lies after the original end of
   * day and no later than the last chunk's start; and a task that fits on
   * its first day reports none, even when that day is already past the
   * deadline.
   */
  lemma ScheduleRevisedDeadline(resource: Option<Resource>, t: Task, now: int, horizon: nat)
    requires Schedule(resource, t, now, horizon).Ok? && t.duration > 0
    ensures var p := Schedule(resource, t, now, horizon).value;
      && |p.chunks| > 0
      && p.newDeadline == RevisedDeadline(t, now, Day(p.chunks[|p.chunks| - 1].startTime))
      && (p.newDeadline.Some? ==>
            EndOfDay(t.deadline) < p.newDeadline.value <= p.chunks[|p.chunks| - 1].startTime)
  {
    var s := ScheduleInv(resource, t, now, horizon);
    var d := Day(s.chunks[|s.chunks| - 1].startTime);
    DayOfOffset(d, 0);
    assert d > Day(t.deadline) ==> EndOfDay(t.deadline) < DayStart(d);
  }

  lemma {:induction false} PlaceInDayAdvances(t: Task, eod: int, ws: seq<Window>, s: State)
    ensures var s' := PlaceInDay(t, eod, ws, s);
      && s.cursor <= s'.cursor
      && |s.chunks| <= |s'.chunks| <= |s.chunks| + |ws|
      && s'.chunks[..|s.chunks|] == s.chunks
    decreases |ws|
  {
    if ws != [] && s.remaining > 0 {
      var s1 := PlaceInWindow(t, eod, ws[0], s);
      assert s1.chunks[..|s.chunks|] == s.chunks;
      PlaceInDayAdvances(t, eod, ws[1..], s1);
      var s' := PlaceInDay(t, eod, ws[1..], s1);
      assert s'.chunks[..|s.chunks|] == s'.chunks[..|s1.chunks|][..|s.chunks|];
    }
  }

  /**
   * One pass of the outer loop never moves the cursor backwards, only
   * appends to the batch, appends at most one chunk per window of the day,
   * and, when work remains, ends on a later day than it started.
   */
  lemma DayPassAdvances(r: Resource, t: Task, eod: int, s: State)
    ensures var s' := DayPass(r, t, eod, s);
      && s.cursor <= s'.cursor
      && |s.chunks| <= |s'.chunks| <= |s.chunks| + |HoursOn(r, WeekdayOf(Day(s.cursor)))|
      && s'.chunks[..|s.chunks|] == s.chunks
      && (s'.remaining > 0 ==> Day(s.cursor) < Day(s'.cursor))
  {
    var wd := WeekdayOf(Day(s.cursor));
    PlaceInDayAdvances(t, eod, HoursOn(r, wd), s);
    var placed := if WorksOn(r, wd) then PlaceInDay(t, eod, HoursOn(r, wd), s) else s;
    assert s.cursor <= placed.cursor;
    assert Day(s.cursor) <= Day(placed.cursor);
  }

  lemma {:induction false} RunWithoutWorkingTime(r: Resource, t: Task, eod: int, s: State, fuel: nat)
    requires forall wd :: !WorksOn(r, wd)
    requires s.remaining > 0
    ensures Run(r, t, eod, s, fuel) == Err(HorizonExhausted)
    decreases fuel
  {
    if fuel > 0 {
      RunWithoutWorkingTime(r, t, eod, DayPass(r, t, eod, s), fuel - 1);
    }
  }

  /**
   * A resource with no working window on any weekday makes every horizon run
   * out for a positive duration: the scheduler fails instead of looping.
   */
  lemma NoWorkingTimeExhaustsHorizon(r: Resource, t: Task, now: int, horizon: nat)
    requires forall wd :: !WorksOn(r, wd)
    requires t.duration > 0
    ensures Schedule(Some(r), t, now, horizon) == Err(HorizonExhausted)
  {
    RunWithoutWorkingTime(r, t, EndOfDay(t.deadline), State(t.duration, now, [], None), horizon);
  }

  lemma {:induction false} RunHorizonMonotone(r: Resource, t: Task, eod: int, s: State, fuel: nat, more: nat)
    requires Run(r, t, eod, s, fuel).Ok? && fuel <= more
    ensures Run(r, t, eod, s, more) == Run(r, t, eod, s, fuel)
    decreases fuel
  {
    if s.remaining > 0 {
      RunHorizonMonotone(r, t, eod, DayPass(r, t, eod, s), fuel - 1, more - 1);
    }
  }

  /**
   * The horizon only cuts the search off: once a horizon is long enough to
   * place the task, every longer one yields the same chunks and deadline.
   */
  lemma ScheduleHorizonMonotone(resource: Option<Resource>, t: Task, now: int, horizon: nat, longer: nat)
    requires Schedule(resource, t, now, horizon).Ok? && horizon <= longer
    ensures Schedule(resource, t, now, longer) == Schedule(resource, t, now, horizon)
  {
    RunHorizonMonotone(resource.value, t, EndOfDay(t.deadline), State(t.duration, now, [], None), horizon, longer);
  }

  // ---------------------------------------------------------------------
  // Worked examples. Day 4 (1970-01-05) is a Monday; 09:00 on it is minute 6300.

  /** A resource working Monday to Friday, 09:00-12:00 and 13:00-17:00. */
  function OfficeResource(): Resource
  {
    var hours := [Window(540, 720), Window(780, 1020)];
    Resource(1, "fitter", {Monday, Tuesday, Wednesday, Thursday, Friday},
             map[Monday := hours, Tuesday := hours, Wednesday := hours, Thursday := hours, Friday := hours],
             [])
  }

  /**
   * A 10-hour task started on Monday at 09:00 with a Monday deadline: Monday
   * gives 09:00-12:00 and 13:00-17:00, Tuesday the last 180 minutes from
   * 09:00, all three labelled part 1 (the label counts 480-minute blocks,
   * not chunks), and Tuesday's start is reported as the revised deadline.
   */
  lemma TenHourTaskOverTwoDays()
    ensures Schedule(Some(OfficeResource()), Task("overhaul", 1, 600, 6780, 0), 6300, 7)
         == Ok(Plan([Service(NamedPart("overhaul", 1), 1, 180, 7199, 0, 6300, 6480),
                     Service(NamedPart("overhaul", 1), 1, 240, 7199, 0, 6540, 6780),
                     Service(NamedPart("overhaul", 1), 1, 180, 7199, 0, 7740, 7920)],
                    Some(7200)))
  {
    var r := OfficeResource();
    var t := Task("overhaul", 1, 600, 6780, 0);
    var eod := EndOfDay(6780);
    assert eod == 7199;
    var ws := HoursOn(r, Monday);
    assert ws == [Window(540, 720), Window(780, 1020)];
    var c1 := Service(NamedPart("overhaul", 1), 1, 180, 7199, 0, 6300, 6480);
    var c2 := Service(NamedPart("overhaul", 1), 1, 240, 7199, 0, 6540, 6780);
    var c3 := Service(NamedPart("overhaul", 1), 1, 180, 7199, 0, 7740, 7920);
    var s0 := State(600, 6300, [], None);
    assert Day(6300) == 4 && WeekdayOf(4) == Monday;
    var s1 := PlaceInWindow(t, eod, ws[0], s0);
    assert s1 == State(420, 6480, [c1], None);
    var s2 := PlaceInWindow(t, eod, ws[1], s1);
    assert s2 == State(180, 6780, [c1, c2], None);
    assert PlaceInDay(t, eod, ws, s0) == s2 by {
      assert ws[1..][1..] == [];
    }
    var s3 := DayPass(r, t, eod, s0);
    assert NextDayStart(6780) == 7200;
    assert s3 == State(180, 7200, [c1, c2], Some(7200));
    assert Day(7200) == 5 && WeekdayOf(5) == Tuesday;
    assert HoursOn(r, Tuesday) == ws;
    var s4 := PlaceInWindow(t, eod, ws[0], s3);
    assert s4 == State(0, 7920, [c1, c2, c3], Some(7200));
    assert DayPass(r, t, eod, s3) == s4;
  }

  /**
   * A deadline already past is not revised when the task fits on its first
   * day: a 60-minute task started on Monday at 09:00 with a deadline on the
   * Friday before gets one chunk and no revised deadline.
   */
  lemma PastDeadlineNotRevisedOnFirstDay()
    ensures Schedule(Some(OfficeResource()), Task("check", 1, 60, 2160, 0), 6300, 1)
         == Ok(Plan([Service(NamedPart("check", 1), 1, 60, 2879, 0, 6300, 6360)], None))
  {
    var r := OfficeResource();
    var t := Task("check", 1, 60, 2160, 0);
    var eod := EndOfDay(2160);
    assert eod == 2879;
    var ws := HoursOn(r, Monday);
    assert ws == [Window(540, 720), Window(780, 1020)];
    var s0 := State(60, 6300, [], None);
    assert Day(6300) == 4 && WeekdayOf(4) == Monday;
    var s1 := PlaceInWindow(t, eod, ws[0], s0);
    assert s1 == State(0, 6360, [Service(NamedPart("check", 1), 1, 60, 2879, 0, 6300, 6360)], None);
    assert PlaceInDay(t, eod, ws, s0) == s1;
    assert DayPass(r, t, eod, s0) == s1;
  }
}
