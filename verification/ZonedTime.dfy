/**
 The calendar day of a time zone: packages/display/src/time.ts. A zone is how far its wall clock is ahead of UTC at each
 instant, and a date is a number of days since 1970, as `Date.UTC` counts them.
 */
module ZonedTime {
  import opened Wrappers
  import opened Instants

  type Zone = int -> int

  /** The wall clock reads days and milliseconds since 1970 as UTC would. */
  function LocalDay(time: int, zone: Zone): int {
    (time + zone(time)) / DAY
  }

  /** `zonedDayStart`: of the two candidates, the earlier that falls on the date, and the later when none does. */
  function ZonedDayStart(date: int, zone: Zone): int {
    var wall := date * DAY;
    var first := wall - zone(wall);
    var second := wall - zone(first);
    if LocalDay(first, zone) == date && LocalDay(second, zone) == date then Min(first, second)
    else if LocalDay(first, zone) == date then first
    else if LocalDay(second, zone) == date then second
    else Max(first, second)
  }

  function ZonedDayStartAfter(time: int, days: int, zone: Zone): int {
    ZonedDayStart(LocalDay(time, zone) + days, zone)
  }

  const UTC: Zone := (t: int) => 0

  // ---------- A zone near a date ----------

  /**
   Within two days of a date's midnight in UTC the clock changes at most once, at `change`, from `before` to `after`;
   and nowhere is the clock a day or more from UTC, nor does this change move it a day.
   */
  ghost predicate OneChange(zone: Zone, date: int, change: int, before: int, after: int) {
    && (forall t :: -DAY < zone(t) < DAY)
    && (forall t ::
          date * DAY - 2 * DAY <= t <= date * DAY + 2 * DAY ==> zone(t) == if t < change then before else after)
    && -DAY < before < DAY && -DAY < after < DAY && -DAY < after - before < DAY
  }

  /** The date's midnight lies strictly inside a stretch the clock skips. */
  predicate MidnightSkipped(date: int, change: int, before: int, after: int) {
    change + before < date * DAY < change + after
  }

  /** The clock shows the date's midnight twice. */
  predicate MidnightTwice(date: int, change: int, before: int, after: int) {
    change + after <= date * DAY < change + before
  }

  /** The first instant of a date: on it, and no instant before is. */
  ghost predicate IsFirstInstant(time: int, date: int, zone: Zone) {
    LocalDay(time, zone) == date && forall t :: t < time ==> LocalDay(t, zone) != date
  }

  /** What the wall clock reads on one side of the date's midnight. */
  lemma OnDate(time: int, date: int, zone: Zone)
    requires forall t :: -DAY < zone(t) < DAY
    ensures LocalDay(time, zone) == date <==> date * DAY <= time + zone(time) < date * DAY + DAY
    ensures LocalDay(time, zone) >= date <==> time + zone(time) >= date * DAY
  {
  }

  /** The two candidates. */
  lemma Candidates(date: int, zone: Zone, change: int, before: int, after: int)
    requires OneChange(zone, date, change, before, after)
    ensures var wall := date * DAY;
            && zone(wall) == (if wall < change then before else after)
            && zone(wall - zone(wall)) == if wall - zone(wall) < change then before else after
  {
  }

  /**
   The first instant of a date with at most one change near it: midnight by the clock before the change when that comes
   before it, otherwise midnight by the clock after it, or the change itself when it skips midnight.
   */
  function FirstInstant(date: int, change: int, before: int, after: int): int {
    var wall := date * DAY;
    if wall - before < change then wall - before else if wall - after >= change then wall - after else change
  }

  lemma FirstInstantIs(date: int, zone: Zone, change: int, before: int, after: int)
    requires OneChange(zone, date, change, before, after)
    ensures IsFirstInstant(FirstInstant(date, change, before, after), date, zone)
  {
    var wall, first := date * DAY, FirstInstant(date, change, before, after);
    OnDate(first, date, zone);
    forall t | t < first ensures LocalDay(t, zone) != date {
      OnDate(t, date, zone);
    }
  }

  lemma FirstInstantUnique(s: int, t: int, date: int, zone: Zone)
    requires IsFirstInstant(s, date, zone) && IsFirstInstant(t, date, zone)
    ensures s == t
  {
  }

  /** What `zonedDayStart` computes, by where the change is. */
  lemma DayStartIs(date: int, zone: Zone, change: int, before: int, after: int)
    requires OneChange(zone, date, change, before, after)
    ensures ZonedDayStart(date, zone) == FirstInstant(date, change, before, after)
            <==> !MidnightSkipped(date, change, before, after)
                 && !(MidnightTwice(date, change, before, after) && change <= date * DAY)
  {
    var wall := date * DAY;
    Candidates(date, zone, change, before, after);
    var first := wall - zone(wall);
    var second := wall - zone(first);
    OnDate(first, date, zone);
    OnDate(second, date, zone);
  }

  /**
   `zonedDayStart` gives the first instant of the date exactly when the change does not skip over its midnight, and when
   it shows midnight twice does so at an instant after that midnight in UTC. A skip that begins at midnight is no harm.
   */
  lemma DayStartFirstIff(date: int, zone: Zone, change: int, before: int, after: int)
    requires OneChange(zone, date, change, before, after)
    ensures IsFirstInstant(ZonedDayStart(date, zone), date, zone)
            <==> !MidnightSkipped(date, change, before, after)
                 && !(MidnightTwice(date, change, before, after) && change <= date * DAY)
  {
    FirstInstantIs(date, zone, change, before, after);
    DayStartIs(date, zone, change, before, after);
    if IsFirstInstant(ZonedDayStart(date, zone), date, zone) {
      FirstInstantUnique(ZonedDayStart(date, zone), FirstInstant(date, change, before, after), date, zone);
    }
  }

  /** An hour forward, half an hour before the first midnight of 1970. */
  const SPRING: Zone := (t: int) => if t < -30 * MINUTE then 0 else 60 * MINUTE

  /** An hour back, half an hour after its clock first showed that midnight. */
  const AUTUMN: Zone := (t: int) => if t < -30 * MINUTE then 60 * MINUTE else 0

  /** Midnight skipped: the day begins at the change, and is told to begin half an hour later. */
  lemma SkippedMidnightMissed()
    ensures OneChange(SPRING, 0, -30 * MINUTE, 0, 60 * MINUTE) && MidnightSkipped(0, -30 * MINUTE, 0, 60 * MINUTE)
    ensures IsFirstInstant(-30 * MINUTE, 0, SPRING) && ZonedDayStart(0, SPRING) == 0
  {
    FirstInstantIs(0, SPRING, -30 * MINUTE, 0, 60 * MINUTE);
    SpringStart();
  }

  lemma SpringStart()
    ensures ZonedDayStart(0, SPRING) == 0
  {
  }

  /** Midnight shown twice: the day begins at the first, and is told to begin an hour later, at the second. */
  lemma SecondMidnightTaken()
    ensures OneChange(AUTUMN, 0, -30 * MINUTE, 60 * MINUTE, 0) && MidnightTwice(0, -30 * MINUTE, 60 * MINUTE, 0)
    ensures IsFirstInstant(-60 * MINUTE, 0, AUTUMN) && ZonedDayStart(0, AUTUMN) == 0
  {
    FirstInstantIs(0, AUTUMN, -30 * MINUTE, 60 * MINUTE, 0);
    AutumnStart();
  }

  lemma AutumnStart()
    ensures ZonedDayStart(0, AUTUMN) == 0
  {
  }

  // ---------- Days one after another ----------

  /** A date whose midnight a change near it neither skips nor shows twice. */
  ghost predicate PlainMidnight(zone: Zone, date: int, change: int, before: int, after: int) {
    OneChange(zone, date, change, before, after) && !MidnightSkipped(date, change, before, after)
    && !MidnightTwice(date, change, before, after)
  }

  /** From the start of a date with a plain midnight on, and only from then on, the calendar has reached it. */
  lemma ReachedFromStart(date: int, zone: Zone, change: int, before: int, after: int, time: int)
    requires PlainMidnight(zone, date, change, before, after)
    ensures LocalDay(time, zone) >= date <==> time >= ZonedDayStart(date, zone)
  {
    DayStartIs(date, zone, change, before, after);
    OnDate(time, date, zone);
  }

  lemma DatesContiguous(date: int, zone: Zone, change: int, before: int, after: int, t: int)
    requires PlainMidnight(zone, date, change, before, after) && PlainMidnight(zone, date + 1, change, before, after)
    ensures LocalDay(t, zone) == date <==> ZonedDayStart(date, zone) <= t < ZonedDayStart(date + 1, zone)
  {
    hide OneChange, ZonedDayStart;
    ReachedFromStart(date, zone, change, before, after, t);
    ReachedFromStart(date + 1, zone, change, before, after, t);
  }

  lemma DateLength(date: int, zone: Zone, change: int, before: int, after: int)
    requires PlainMidnight(zone, date, change, before, after) && PlainMidnight(zone, date + 1, change, before, after)
    ensures ZonedDayStart(date + 1, zone) - ZonedDayStart(date, zone) in {DAY, DAY - (after - before)}
  {
    hide OneChange, ZonedDayStart;
    DayStartIs(date, zone, change, before, after);
    DayStartIs(date + 1, zone, change, before, after);
  }

  /**
   Consecutive days are contiguous: the instants from the start of one to the start of the next are exactly those on it,
   the day of `time` being the one that holds `time`. Each is a day long but for what the clock changes by in it.
   */
  lemma DaysContiguous(time: int, days: int, zone: Zone, change: int, before: int, after: int)
    requires PlainMidnight(zone, LocalDay(time, zone) + days, change, before, after)
    requires PlainMidnight(zone, LocalDay(time, zone) + days + 1, change, before, after)
    ensures forall t :: LocalDay(t, zone) == LocalDay(time, zone) + days
                        <==> ZonedDayStartAfter(time, days, zone) <= t < ZonedDayStartAfter(time, days + 1, zone)
    ensures ZonedDayStartAfter(time, days + 1, zone) - ZonedDayStartAfter(time, days, zone)
            in {DAY, DAY - (after - before)}
  {
    hide PlainMidnight, ZonedDayStart;
    var date := LocalDay(time, zone) + days;
    forall t ensures LocalDay(t, zone) == date <==> ZonedDayStart(date, zone) <= t < ZonedDayStart(date + 1, zone) {
      DatesContiguous(date, zone, change, before, after, t);
    }
    DateLength(date, zone, change, before, after);
  }

  /** With a change of at most an hour a day is 23 to 25 hours long. */
  lemma DayLength(time: int, days: int, zone: Zone, change: int, before: int, after: int)
    requires PlainMidnight(zone, LocalDay(time, zone) + days, change, before, after)
    requires PlainMidnight(zone, LocalDay(time, zone) + days + 1, change, before, after)
    requires -60 * MINUTE <= after - before <= 60 * MINUTE
    ensures 23 * 60 * MINUTE <= ZonedDayStartAfter(time, days + 1, zone) - ZonedDayStartAfter(time, days, zone)
            <= 25 * 60 * MINUTE
  {
    hide PlainMidnight, ZonedDayStartAfter, LocalDay;
    DaysContiguous(time, days, zone, change, before, after);
  }

  lemma StartInUtc(days: int)
    ensures ZonedDayStartAfter(0, days, UTC) == days * DAY
  {
    assert LocalDay(0, UTC) == 0;
    DayInUtc(days);
  }

  lemma DayInUtc(date: int)
    ensures ZonedDayStart(date, UTC) == date * DAY
  {
  }
}
