/** Week-grid selection and layout arithmetic (src/components/CalendarGrid.tsx).
    Instants are local wall-clock milliseconds since 1 January 1970 00:00, days
    are day numbers counted from that date, and pixel offsets are exact reals. */
module CalendarGrid {
  import opened Wrappers
  import Seqs
  import opened CalendarStore

  const MsPerMinute: int := 60_000
  const MsPerHour: int := 3_600_000
  const MsPerDay: int := 86_400_000
  const PxPerHour: int := 48
  /** Twenty-four rows of 48 px. */
  const GridHeightPx: real := 1152.0

  /** The local day an instant falls on; `isSameDay(a, b)` is equality of day numbers. */
  function DayNumber(t: int): int {
    t / MsPerDay
  }

  /** Day of the week, Sunday = 0; day 0 (1 January 1970) was a Thursday. */
  function Weekday(day: int): (w: int)
    ensures 0 <= w < 7
  {
    (day + 4) % 7
  }

  /** `startOfWeek(currentDate)` with weeks starting on Sunday. */
  function StartOfWeek(day: int): (s: int)
    ensures Weekday(s) == 0
    ensures s <= day < s + 7
  {
    day - Weekday(day)
  }

  /** `weekDays`: seven consecutive days from the Sunday that starts the week
      containing `currentDay`. */
  function WeekDays(currentDay: int): (r: seq<int>)
    ensures |r| == 7
    ensures forall i :: 0 <= i < 7 ==> r[i] == r[0] + i
    ensures Weekday(r[0]) == 0
    ensures currentDay in r
  {
    var s := StartOfWeek(currentDay);
    var r := seq(7, i => s + i);
    assert r[currentDay - s] == currentDay;
    r
  }

  /** Navigating to any day shown in the week shows the same week again. */
  lemma WeekDaysStable(currentDay: int, i: int)
    requires 0 <= i < 7
    ensures WeekDays(WeekDays(currentDay)[i]) == WeekDays(currentDay)
  {
    var s := StartOfWeek(currentDay);
    var d := WeekDays(currentDay)[i];
    assert d == s + i;
    assert Weekday(d) == i;
    assert StartOfWeek(d) == s;
  }

  /** `hours`: the row index of every hour of the day, 0 to 23 in order. */
  function Hours(): (r: seq<int>)
    ensures |r| == 24
    ensures forall i :: 0 <= i < 24 ==> r[i] == i
  {
    seq(24, i => i)
  }

  /** The start of `e` parses to an instant on `day`. `parse` stands for `parseISO`
      on the optional `start` field; `None` is an invalid date. */
  predicate StartsOn(e: Event, day: int, parse: Option<string> -> Option<int>) {
    parse(e.start).Some? && DayNumber(parse(e.start).value) == day
  }

  predicate IsAllDay(e: Event) {
    e.isAllDay == Some(true)
  }

  /** The filter callback of `getEventsForDay(day, allDay)`. */
  function DaySelector(day: int, allDay: bool, parse: Option<string> -> Option<int>): Event -> bool {
    e => StartsOn(e, day, parse) && (if allDay then IsAllDay(e) else !IsAllDay(e))
  }

  function StartingOn(day: int, parse: Option<string> -> Option<int>): Event -> bool {
    e => StartsOn(e, day, parse)
  }

  /** `getEventsForDay(day, allDay)`: the events starting on `day` whose all-day
      flag is `allDay`. */
  function GetEventsForDay(events: seq<Event>, day: int, allDay: bool,
                           parse: Option<string> -> Option<int>): (r: seq<Event>)
    ensures forall i :: 0 <= i < |r| ==>
              r[i] in events && StartsOn(r[i], day, parse) && IsAllDay(r[i]) == allDay
    ensures forall i :: 0 <= i < |events| ==>
              (StartsOn(events[i], day, parse) && IsAllDay(events[i]) == allDay ==> events[i] in r)
  {
    Seqs.Filter(events, DaySelector(day, allDay, parse))
  }

  /** The all-day and the timed selections are disjoint and together are
      exactly the events starting on `day`. */
  lemma DayPartition(events: seq<Event>, day: int, parse: Option<string> -> Option<int>)
    ensures multiset(GetEventsForDay(events, day, true, parse))
          + multiset(GetEventsForDay(events, day, false, parse))
         == multiset(Seqs.Filter(events, StartingOn(day, parse)))
    ensures |GetEventsForDay(events, day, true, parse)| + |GetEventsForDay(events, day, false, parse)|
         == |Seqs.Filter(events, StartingOn(day, parse))|
  {
    Seqs.FilterPartition(events, StartingOn(day, parse), DaySelector(day, true, parse),
                         DaySelector(day, false, parse));
  }

  /** Both selections keep the order of the event list. */
  lemma DayKeepsOrder(a: seq<Event>, b: seq<Event>, day: int, allDay: bool,
                      parse: Option<string> -> Option<int>)
    ensures GetEventsForDay(a + b, day, allDay, parse)
         == GetEventsForDay(a, day, allDay, parse) + GetEventsForDay(b, day, allDay, parse)
  {
    Seqs.FilterConcat(a, b, DaySelector(day, allDay, parse));
  }

  /** Milliseconds since local midnight. */
  function TimeOfDay(t: int): (ms: int)
    ensures 0 <= ms < MsPerDay
  {
    t % MsPerDay
  }

  /** Whole minutes since local midnight. */
  function MinuteOfDay(t: int): (m: int)
    ensures 0 <= m < 1440
  {
    TimeOfDay(t) / MsPerMinute
  }

  /** `start.getHours()`. */
  function GetHours(t: int): int {
    TimeOfDay(t) / MsPerHour
  }

  /** `start.getMinutes()`. */
  function GetMinutes(t: int): int {
    (TimeOfDay(t) % MsPerHour) / MsPerMinute
  }

  lemma HoursAndMinutes(t: int)
    ensures MinuteOfDay(t) == 60 * GetHours(t) + GetMinutes(t)
    ensures 0 <= GetHours(t) < 24 && 0 <= GetMinutes(t) < 60
  {
    var x := TimeOfDay(t);
    var h := x / MsPerHour;
    var rest := x % MsPerHour;
    var m := rest / MsPerMinute;
    assert x == h * MsPerHour + rest;
    assert rest == m * MsPerMinute + rest % MsPerMinute;
    assert x == (60 * h + m) * MsPerMinute + rest % MsPerMinute;
  }

  /** The top offset of a timed event: 48 px per hour of its start time of day,
      that is 0.8 px per whole minute, inside the 1152 px column. */
  function Top(start: int): (px: real)
    ensures px == 0.8 * MinuteOfDay(start) as real
    ensures 0.0 <= px < GridHeightPx
  {
    HoursAndMinutes(start);
    (GetHours(start) * PxPerHour) as real + GetMinutes(start) as real / 60.0 * (PxPerHour as real)
  }

  /** The minute of the day is the count of whole minutes modulo a day's 1440. */
  lemma MinuteOfDayFromMinutes(t: int)
    ensures MinuteOfDay(t) == (t / MsPerMinute) % 1440
    ensures TimeOfDay(t) == MinuteOfDay(t) * MsPerMinute + t % MsPerMinute
  {
    var q := t / MsPerMinute;
    var r := t % MsPerMinute;
    var m := q % 1440;
    assert t == q * MsPerMinute + r;
    assert q == (q / 1440) * 1440 + m;
    assert t == (q / 1440) * MsPerDay + (m * MsPerMinute + r);
    assert 0 <= m * MsPerMinute + r < MsPerDay;
    assert TimeOfDay(t) == m * MsPerMinute + r;
  }

  /** Seconds and milliseconds of the start do not move the event. */
  lemma TopIgnoresSeconds(start: int)
    ensures Top(start) == Top(start - start % MsPerMinute)
  {
    var t := start - start % MsPerMinute;
    MinuteOfDayFromMinutes(start);
    MinuteOfDayFromMinutes(t);
    assert t / MsPerMinute == start / MsPerMinute;
  }

  /** The height of a timed event: 48 px per hour of duration. */
  function Height(start: int, end: int): (px: real)
    ensures px >= 0.0 <==> end >= start
    ensures end - start == MsPerHour ==> px == PxPerHour as real
  {
    (end - start) as real / (MsPerHour as real) * (PxPerHour as real)
  }

  /** Heights of consecutive intervals add up. */
  lemma HeightAdditive(a: int, b: int, c: int)
    ensures Height(a, b) + Height(b, c) == Height(a, c)
  {
  }

  /** A whole number of minutes is 0.8 px per minute high. */
  lemma HeightOfMinutes(start: int, minutes: int)
    ensures Height(start, start + minutes * MsPerMinute) == 0.8 * minutes as real
  {
    assert (minutes * MsPerMinute) as real == minutes as real * 60000.0;
  }

  /** On a whole minute, the time of day is a whole number of minutes. */
  lemma MinuteAligned(t: int)
    requires t % MsPerMinute == 0
    ensures TimeOfDay(t) == MinuteOfDay(t) * MsPerMinute
  {
    MinuteOfDayFromMinutes(t);
  }

  /** Two instants on the same day are as far apart as their times of day. */
  lemma SameDayOffset(a: int, b: int)
    requires DayNumber(a) == DayNumber(b)
    ensures b - a == TimeOfDay(b) - TimeOfDay(a)
  {
    assert a == DayNumber(a) * MsPerDay + TimeOfDay(a);
    assert b == DayNumber(b) * MsPerDay + TimeOfDay(b);
  }

  /** For an event that starts and ends on the same day on whole minutes, its
      box ends exactly where an event starting at its end time would begin. */
  lemma BoxEndsAtEndTime(start: int, end: int)
    requires DayNumber(start) == DayNumber(end)
    requires start % MsPerMinute == 0 && end % MsPerMinute == 0
    ensures Top(start) + Height(start, end) == Top(end)
  {
    var a := MinuteOfDay(start);
    var b := MinuteOfDay(end);
    MinuteAligned(start);
    MinuteAligned(end);
    assert end - start == TimeOfDay(end) - TimeOfDay(start) by {
      SameDayOffset(start, end);
    }
    assert end == start + (b - a) * MsPerMinute;
    HeightOfMinutes(start, b - a);
  }
}
