/** What an availability slide says of each resource and day: `availability` of packages/display/src/slides.ts. */
module AvailabilityRows {
  import opened Wrappers
  import opened Texts
  import opened Instants
  import opened Busy
  import C = Contract
  import P = Parse
  import R = Rotation
  import Z = ZonedTime

  /**
   A calendar day [dayStart, dayEnd), told from `from` to `end`; `whole` when that is all of it, or on today the rest.
   */
  datatype Day = Day(dayStart: int, dayEnd: int, from: int, end: int, whole: bool, today: bool)

  /** An interval a row tells; one to the day's end is told to 24:00. */
  datatype Told = Told(start: int, end: int, toMidnight: bool)

  datatype Row = FreeRestOfDay | FreeAllDay | FreeBetween(from: int, end: int) | BusyAllDay | BusyAt(told: seq<Told>)

  /**
   The instants the slide is drawn from: now, the document's window, and the starts of today and the two days after.
   */
  datatype Frame = Frame(now: int, documentFrom: int, to: int, todayStart: int, tomorrowStart: int, dayAfterStart: int)

  ghost predicate InOrder(f: Frame) {
    f.todayStart <= f.now < f.tomorrowStart < f.dayAfterStart
  }

  function DayOf(dayStart: int, dayEnd: int, today: bool, f: Frame): seq<Day> {
    var wanted := if today then Max(dayStart, f.now) else dayStart;
    var known := Max(wanted, f.documentFrom);
    var end := Min(dayEnd, f.to);
    if end > known then [Day(dayStart, dayEnd, known, end, known == wanted && end == dayEnd, today)] else []
  }

  function DaysOf(f: Frame): seq<Day> {
    DayOf(f.todayStart, f.tomorrowStart, true, f) + DayOf(f.tomorrowStart, f.dayAfterStart, false, f)
  }

  predicate Meets(i: Interval, day: Day) {
    i.end > day.from && i.start < day.end
  }

  function Meeting(busy: seq<Interval>, day: Day): seq<Interval> {
    if busy == [] then []
    else
      var front, last := Meeting(busy[..|busy| - 1], day), busy[|busy| - 1];
      if Meets(last, day) then front + [last] else front
  }

  function Tell(i: Interval, day: Day): Told {
    var end := Min(i.end, day.dayEnd);
    Told(Max(i.start, day.dayStart), end, end == day.dayEnd)
  }

  function RowOf(busy: seq<Interval>, day: Day): Row {
    var met := Meeting(busy, day);
    if met == [] then
      if day.whole then (if day.today then FreeRestOfDay else FreeAllDay) else FreeBetween(day.from, day.end)
    else if day.whole && |met| == 1 && met[0].start <= day.from && met[0].end >= day.end then BusyAllDay
    else BusyAt(seq(|met|, i requires 0 <= i < |met| => Tell(met[i], day)))
  }

  function Times(busy: seq<C.BusyInterval>): seq<Interval> {
    seq(|busy|, i requires 0 <= i < |busy| => Interval(TimeOf(busy[i].start), TimeOf(busy[i].end)))
  }

  function RowsOf(r: C.Resource, days: seq<Day>): seq<Row> {
    seq(|days|, i requires 0 <= i < |days| => RowOf(Times(r.busy), days[i]))
  }

  function AllRows(resources: seq<C.Resource>, f: Frame): seq<seq<Row>> {
    seq(|resources|, i requires 0 <= i < |resources| => RowsOf(resources[i], DaysOf(f)))
  }

  // ---------- The days told ----------

  predicate Telling(day: Day, x: int) {
    day.from <= x < day.end
  }

  /**
   A day told is today or tomorrow. It is told only where the document knows it, from now on, and within itself; and is
   whole exactly when none of it, of today from now on, is unknown.
   */
  lemma DaysKnown(f: Frame, day: Day)
    requires InOrder(f) && day in DaysOf(f)
    ensures f.documentFrom <= day.from < day.end <= f.to && f.now <= day.from
    ensures day.dayStart <= day.from && day.end <= day.dayEnd
    ensures day.dayStart == (if day.today then f.todayStart else f.tomorrowStart)
            && day.dayEnd == if day.today then f.tomorrowStart else f.dayAfterStart
    ensures day.whole <==> f.to >= day.dayEnd && f.documentFrom <= if day.today then f.now else day.dayStart
    ensures day.whole ==> day.end == day.dayEnd && day.from == if day.today then f.now else day.dayStart
  {
  }

  /** Every instant from now to the end of tomorrow that the document knows is told, by one day. */
  lemma DaysCoverWindow(f: Frame, x: int)
    requires InOrder(f)
    ensures (exists i :: 0 <= i < |DaysOf(f)| && Telling(DaysOf(f)[i], x))
            <==> f.now <= x < f.dayAfterStart && f.documentFrom <= x < f.to
    ensures forall i, j :: 0 <= i < j < |DaysOf(f)| ==> !(Telling(DaysOf(f)[i], x) && Telling(DaysOf(f)[j], x))
  {
    var today := DayOf(f.todayStart, f.tomorrowStart, true, f);
    var tomorrow := DayOf(f.tomorrowStart, f.dayAfterStart, false, f);
    var days := DaysOf(f);
    if f.now <= x < f.dayAfterStart && f.documentFrom <= x < f.to {
      if x < f.tomorrowStart {
        assert days[0] == today[0] && Telling(days[0], x);
      } else {
        assert days[|today|] == tomorrow[0] && Telling(days[|today|], x);
      }
    }
  }

  // ---------- The slide tells the truth ----------

  /** Whether a row says the resource is busy at an instant of its stretch. */
  ghost predicate SaysBusy(row: Row, x: int) {
    match row
    case BusyAllDay => true
    case BusyAt(told) => exists i :: 0 <= i < |told| && told[i].start <= x < told[i].end
    case _ => false
  }

  /**
   The starts of today, tomorrow and the day after, as `zonedDayStartAfter` gives them where their midnights are plain.
   */
  lemma FrameInOrder(now: int, documentFrom: int, to: int, zone: Z.Zone, change: int, before: int, after: int)
    requires Z.PlainMidnight(zone, Z.LocalDay(now, zone), change, before, after)
    requires Z.PlainMidnight(zone, Z.LocalDay(now, zone) + 1, change, before, after)
    requires Z.PlainMidnight(zone, Z.LocalDay(now, zone) + 2, change, before, after)
    ensures InOrder(Frame(now, documentFrom, to, Z.ZonedDayStartAfter(now, 0, zone), Z.ZonedDayStartAfter(now, 1, zone),
                          Z.ZonedDayStartAfter(now, 2, zone)))
  {
    hide Z.ZonedDayStartAfter, Z.LocalDay;
    Z.DaysContiguous(now, 0, zone, change, before, after);
    Z.DaysContiguous(now, 1, zone, change, before, after);
  }

  lemma {:induction false} MeetingMeaning(busy: seq<Interval>, day: Day)
    ensures forall i :: i in Meeting(busy, day) <==> i in busy && Meets(i, day)
  {
    if busy != [] {
      MeetingMeaning(busy[..|busy| - 1], day);
      assert busy == busy[..|busy| - 1] + [busy[|busy| - 1]];
    }
  }

  ghost predicate WellPlaced(day: Day) {
    day.dayStart <= day.from < day.end <= day.dayEnd
  }

  /** A row says busy at an instant of its stretch exactly when an interval covers it. */
  lemma RowTellsTruth(busy: seq<Interval>, day: Day, x: int)
    requires WellPlaced(day) && Telling(day, x)
    ensures SaysBusy(RowOf(busy, day), x) <==> Covers(busy, x)
  {
    var met := Meeting(busy, day);
    MeetingMeaning(busy, day);
    var row := RowOf(busy, day);
    if Covers(busy, x) {
      var i :| 0 <= i < |busy| && busy[i].start <= x < busy[i].end;
      assert busy[i] in met;
      var k :| 0 <= k < |met| && met[k] == busy[i];
      assert row.BusyAt? ==> row.told[k] == Tell(met[k], day);
    }
    if SaysBusy(row, x) {
      var k :| 0 <= k < |met| && met[k].start <= x < met[k].end;
      assert met[k] in busy;
      var i :| 0 <= i < |busy| && busy[i] == met[k];
    }
  }

  ghost predicate FreeThroughout(busy: seq<Interval>, day: Day) {
    forall x :: Telling(day, x) ==> !Covers(busy, x)
  }

  ghost predicate BusyThroughout(busy: seq<Interval>, day: Day) {
    forall x :: Telling(day, x) ==> Covers(busy, x)
  }

  /** Two intervals or more meet the day. */
  predicate Several(busy: seq<Interval>, day: Day) {
    |Meeting(busy, day)| > 1
  }

  /**
   What is said of a whole day, of whatever intervals the parser lets through: free exactly when the whole stretch is
   known and no instant of it is taken, and busy only when it is known and every instant is.
   */
  lemma WholeDayClaims(busy: seq<Interval>, day: Day)
    requires WellPlaced(day) && NoneEmpty(busy)
    ensures RowOf(busy, day).FreeAllDay? <==> day.whole && !day.today && FreeThroughout(busy, day)
    ensures RowOf(busy, day).FreeRestOfDay? <==> day.whole && day.today && FreeThroughout(busy, day)
    ensures RowOf(busy, day).BusyAllDay? ==> day.whole && BusyThroughout(busy, day)
  {
    var met, row := Meeting(busy, day), RowOf(busy, day);
    if met == [] {
      forall x | Telling(day, x) ensures !Covers(busy, x) {
        RowTellsTruth(busy, day, x);
      }
    } else {
      TakenSomewhere(busy, day);
      if row.BusyAllDay? {
        forall x | Telling(day, x) ensures Covers(busy, x) {
          RowTellsTruth(busy, day, x);
        }
      }
    }
  }

  /** A day known and taken throughout is said to be busy all day exactly when one interval alone meets it. */
  lemma BusyAllDayIff(busy: seq<Interval>, day: Day)
    requires WellPlaced(day) && NoneEmpty(busy)
    ensures RowOf(busy, day).BusyAllDay? <==> day.whole && BusyThroughout(busy, day) && !Several(busy, day)
    ensures (RowOf(busy, day).BusyAllDay? <==> day.whole && BusyThroughout(busy, day))
            <==> !(day.whole && BusyThroughout(busy, day) && Several(busy, day))
  {
    WholeDayClaims(busy, day);
    var met := Meeting(busy, day);
    if BusyThroughout(busy, day) && !Several(busy, day) {
      OneCovers(busy, day);
    }
  }

  /** When one interval alone meets a stretch taken throughout, it covers both its ends. */
  lemma OneCovers(busy: seq<Interval>, day: Day)
    requires WellPlaced(day) && BusyThroughout(busy, day) && !Several(busy, day)
    ensures |Meeting(busy, day)| == 1 && Meeting(busy, day)[0].start <= day.from && Meeting(busy, day)[0].end >= day.end
  {
    var met := Meeting(busy, day);
    MetCovers(busy, day, day.from);
    MetCovers(busy, day, day.end - 1);
  }

  lemma MetCovers(busy: seq<Interval>, day: Day, x: int)
    requires BusyThroughout(busy, day) && Telling(day, x)
    ensures exists k :: 0 <= k < |Meeting(busy, day)| && Meeting(busy, day)[k].start <= x < Meeting(busy, day)[k].end
  {
    MeetingMeaning(busy, day);
    assert Covers(busy, x);
    var i :| 0 <= i < |busy| && busy[i].start <= x < busy[i].end;
    assert busy[i] in Meeting(busy, day);
  }

  /** With merged intervals, such as the builder's, it is said exactly when it is so. */
  lemma MergedBusyAllDay(busy: seq<Interval>, day: Day)
    requires WellPlaced(day) && Separated(busy)
    ensures RowOf(busy, day).BusyAllDay? <==> day.whole && BusyThroughout(busy, day)
  {
    BusyAllDayIff(busy, day);
    if BusyThroughout(busy, day) {
      CoveredByOne(busy, day);
    }
  }

  lemma TakenSomewhere(busy: seq<Interval>, day: Day)
    requires WellPlaced(day) && NoneEmpty(busy) && Meeting(busy, day) != []
    ensures !FreeThroughout(busy, day)
  {
    MeetingMeaning(busy, day);
    var i := Meeting(busy, day)[0];
    assert i in Meeting(busy, day);
    var k :| 0 <= k < |busy| && busy[k] == i;
    var x := Max(i.start, day.from);
    assert Telling(day, x) && Covers(busy, x);
  }

  /**
   Merged intervals that cover a stretch throughout cover it with one of them, which is the only one that meets it.
   */
  lemma CoveredByOne(busy: seq<Interval>, day: Day)
    requires WellPlaced(day) && Separated(busy) && BusyThroughout(busy, day)
    ensures |Meeting(busy, day)| == 1 && Meeting(busy, day)[0].start <= day.from && Meeting(busy, day)[0].end >= day.end
  {
    assert Telling(day, day.from);
    var k :| 0 <= k < |busy| && busy[k].start <= day.from < busy[k].end;
    EndUncovered(busy, k);
    assert !Telling(day, busy[k].end);
    OnlyOneMeets(busy, day, k);
  }

  lemma {:induction false} OnlyOneMeets(busy: seq<Interval>, day: Day, k: nat)
    requires Separated(busy) && k < |busy| && busy[k].start <= day.from && busy[k].end >= day.end && day.from < day.end
    ensures Meeting(busy, day) == [busy[k]]
  {
    var front := busy[..|busy| - 1];
    if k == |busy| - 1 {
      NoneMeet(front, day, busy[k].start);
    } else {
      OnlyOneMeets(front, day, k);
      assert busy[k].end < busy[|busy| - 1].start;
    }
  }

  lemma {:induction false} NoneMeet(busy: seq<Interval>, day: Day, start: int)
    requires start <= day.from && forall i :: 0 <= i < |busy| ==> busy[i].end < start
    ensures Meeting(busy, day) == []
  {
    if busy != [] {
      NoneMeet(busy[..|busy| - 1], day, start);
    }
  }

  // ---------- What a row says, interval by interval ----------

  /** The indexes of the intervals that take some of the stretch told, in order. */
  ghost predicate TakingSome(busy: seq<Interval>, day: Day, ks: seq<nat>) {
    && (forall i, j :: 0 <= i < j < |ks| ==> ks[i] < ks[j])
    && (forall i :: 0 <= i < |ks| ==> ks[i] < |busy|)
    && forall k: nat :: k < |busy| ==> (k in ks <==> TakesSome(busy[k], day))
  }

  ghost predicate TakesSome(i: Interval, day: Day) {
    exists x :: Telling(day, x) && Taken(i, x)
  }

  predicate Taken(i: Interval, x: int) {
    i.start <= x < i.end
  }

  predicate OnDay(day: Day, x: int) {
    day.dayStart <= x < day.dayEnd
  }

  /**
   A stretch told for an interval: within the day, of exactly the instants of the day the interval covers, and to 24:00
   exactly when the interval reaches the day's end.
   */
  ghost predicate TellsInterval(told: Told, i: Interval, day: Day) {
    && day.dayStart <= told.start < told.end <= day.dayEnd
    && (forall x :: OnDay(day, x) ==> (told.start <= x < told.end <==> Taken(i, x)))
    && (told.toMidnight <==> i.end >= day.dayEnd)
  }

  /**
   A row that tells when the resource is busy has, in order, one stretch for each interval that takes some of the day's
   stretch, and for no other.
   */
  lemma RowTellsIntervals(busy: seq<Interval>, day: Day) returns (ks: seq<nat>)
    requires WellPlaced(day) && NoneEmpty(busy)
    ensures TakingSome(busy, day, ks)
    ensures RowOf(busy, day).BusyAt? ==>
              var told := RowOf(busy, day).told;
              |told| == |ks| && forall i :: 0 <= i < |told| ==> TellsInterval(told[i], busy[ks[i]], day)
    ensures RowOf(busy, day).BusyAt? <==> ks != [] && !RowOf(busy, day).BusyAllDay?
  {
    ks := MetAt(busy, day);
    var met := Meeting(busy, day);
    forall i | 0 <= i < |met| ensures TellsInterval(Tell(met[i], day), busy[ks[i]], day) {
      MeetsIffTakes(busy[ks[i]], day);
    }
  }

  lemma MeetsIffTakes(i: Interval, day: Day)
    requires WellPlaced(day) && i.start < i.end
    ensures Meets(i, day) <==> TakesSome(i, day)
  {
    if Meets(i, day) {
      assert Telling(day, Max(i.start, day.from)) && Taken(i, Max(i.start, day.from));
    }
  }

  /** The intervals that meet a day are those at such indexes. */
  lemma {:induction false} MetAt(busy: seq<Interval>, day: Day) returns (ks: seq<nat>)
    requires WellPlaced(day) && NoneEmpty(busy)
    ensures TakingSome(busy, day, ks) && |ks| == |Meeting(busy, day)|
    ensures forall i :: 0 <= i < |ks| ==> Meeting(busy, day)[i] == busy[ks[i]]
  {
    hide TakesSome, Meets, TakingSome;
    if busy == [] {
      ks := [];
      assert TakingSome(busy, day, ks) by { NoneTakes(day); }
    } else {
      var n := |busy| - 1;
      var front := MetAt(busy[..n], day);
      MeetsIffTakes(busy[n], day);
      TakingOneMore(busy, day, front);
      TakingBelow(busy[..n], day, front);
      ks := if Meets(busy[n], day) then front + [n] else front;
    }
  }

  lemma NoneTakes(day: Day)
    ensures TakingSome([], day, [])
  {
  }

  lemma TakingBelow(busy: seq<Interval>, day: Day, ks: seq<nat>)
    requires TakingSome(busy, day, ks)
    ensures forall i :: 0 <= i < |ks| ==> ks[i] < |busy|
  {
  }

  lemma TakingOneMore(busy: seq<Interval>, day: Day, front: seq<nat>)
    requires busy != [] && TakingSome(busy[..|busy| - 1], day, front)
    ensures TakingSome(busy, day, if TakesSome(busy[|busy| - 1], day) then front + [|busy| - 1] else front)
  {
    hide TakesSome;
    var n := |busy| - 1;
    var ks := if TakesSome(busy[n], day) then front + [n] else front;
    forall k: nat | k < |busy| ensures k in ks <==> TakesSome(busy[k], day) {
      assert k < n ==> busy[..n][k] == busy[k];
      assert k in ks <==> k in front || (k == n && TakesSome(busy[n], day));
    }
  }

  /** "Free from … to …" is said exactly of a stretch that is not the whole and not taken anywhere, with its ends. */
  lemma FreeBetweenIff(busy: seq<Interval>, day: Day)
    requires WellPlaced(day) && NoneEmpty(busy)
    ensures RowOf(busy, day).FreeBetween? <==> !day.whole && FreeThroughout(busy, day)
    ensures RowOf(busy, day).FreeBetween? ==>
              forall x :: Telling(day, x) <==> RowOf(busy, day).from <= x < RowOf(busy, day).end
  {
    var row := RowOf(busy, day);
    if Meeting(busy, day) == [] {
      forall x | Telling(day, x) ensures !Covers(busy, x) {
        RowTellsTruth(busy, day, x);
      }
    } else {
      TakenSomewhere(busy, day);
    }
  }

  const NOON := DAY / 2

  /** A resource busy until noon and from noon on, the first of January 1970. */
  function TwoHalves(): C.Resource {
    C.Resource([], C.WholeDay, None, None, None,
               [C.BusyInterval(ToInstant(0), ToInstant(NOON)), C.BusyInterval(ToInstant(NOON), ToInstant(DAY))])
  }

  /** The slide drawn at that day's midnight in UTC, of a document that knows the day. */
  function ThatMidnight(): Frame {
    Frame(0, 0, DAY, Z.ZonedDayStartAfter(0, 0, Z.UTC), Z.ZonedDayStartAfter(0, 1, Z.UTC),
          Z.ZonedDayStartAfter(0, 2, Z.UTC))
  }

  /** The parser accepts two intervals that meet at noon; they cover the day, which is not said to be busy all day. */
  lemma UnmergedNotAllDay()
    ensures var body := C.Availability(ToInstant(0), ToInstant(DAY), [TwoHalves()]);
            C.ValidBody(body) && P.ParseBody(P.BodyJson(body)) == Some(body)
    ensures InOrder(ThatMidnight()) && |DaysOf(ThatMidnight())| == 1
    ensures var busy, day := Times(TwoHalves().busy), DaysOf(ThatMidnight())[0];
            day.whole && BusyThroughout(busy, day) && Several(busy, day) && !RowOf(busy, day).BusyAllDay?
  {
    hide C.ValidBody, P.ParseBody, P.BodyJson, ToInstant, Times, Several, BusyThroughout, RowOf, ThatMidnight,
         TwoHalves;
    HalvesRead();
    P.BodyRoundTrip(C.Availability(ToInstant(0), ToInstant(DAY), [TwoHalves()]));
    MidnightFrame();
    var busy, day := Times(TwoHalves().busy), DaysOf(ThatMidnight())[0];
    HalvesMeet(busy, day);
    BusyAllDayIff(busy, day);
  }

  lemma MidnightFrame()
    ensures InOrder(ThatMidnight()) && DaysOf(ThatMidnight()) == [Day(0, DAY, 0, DAY, true, true)]
  {
    hide Z.ZonedDayStartAfter;
    Z.StartInUtc(0);
    Z.StartInUtc(1);
    Z.StartInUtc(2);
  }

  lemma HalvesRead()
    ensures C.ValidBody(C.Availability(ToInstant(0), ToInstant(DAY), [TwoHalves()]))
    ensures Times(TwoHalves().busy) == [Interval(0, NOON), Interval(NOON, DAY)]
  {
    hide ToInstant, InstantTime;
    WrittenAt(0);
    WrittenAt(NOON);
    WrittenAt(DAY);
  }

  lemma WrittenAt(time: int)
    requires 0 <= time <= DAY && time % SECOND == 0
    ensures IsInstant(ToInstant(time)) && TimeOf(ToInstant(time)) == time
  {
    hide ToInstant, InstantTime;
    ToInstantRead(time);
  }

  lemma HalvesMeet(busy: seq<Interval>, day: Day)
    requires busy == [Interval(0, NOON), Interval(NOON, DAY)] && day == Day(0, DAY, 0, DAY, true, true)
    ensures Several(busy, day) && BusyThroughout(busy, day)
  {
    assert busy[..1][..0] == [] && busy[..1] == busy[..|busy| - 1];
    assert Meeting(busy[..1], day) == [busy[0]];
    assert Meeting(busy, day) == [busy[0], busy[1]];
    forall x | Telling(day, x) ensures Covers(busy, x) {
      assert busy[if x < NOON then 0 else 1].start <= x < busy[if x < NOON then 0 else 1].end;
    }
  }

  // ---------- From the bookings to the row ----------

  /**
   A slide the builder made, read by the parser and drawn later: at an instant the row of a resource and day tells, it
   says busy exactly when a booking of the resource takes it; and "busy all day" exactly when that is so throughout.
   */
  lemma BuiltRowTellsBookings(a: R.AvailabilityInput, builtAt: int, index: nat, f: Frame, d: nat, x: int)
    requires R.AvailabilitySlide(a, builtAt).Some? && R.SpanInYears(R.WindowOf(a, builtAt).value)
    requires index < |R.ShownResources(a.resources)|
    requires InOrder(f) && d < |DaysOf(f)| && Telling(DaysOf(f)[d], x)
    ensures var span := R.WindowOf(a, builtAt).value;
            var read := P.ParseSlide(P.SlideJson(R.AvailabilitySlide(a, builtAt).value));
            && read.Some? && read.value.body.Availability?
            && |read.value.body.resources| == |R.ShownResources(a.resources)|
            && var busy := Times(read.value.body.resources[index].busy);
               var rows, day := AllRows(read.value.body.resources, f), DaysOf(f)[d];
               && |rows| == |read.value.body.resources| && |rows[index]| == |DaysOf(f)|
               && (SaysBusy(rows[index][d], x)
                   <==> Booked(a.busy, R.ShownResources(a.resources)[index].id, span.from, span.to, builtAt, x))
               && (rows[index][d].BusyAllDay? <==> day.whole && BusyThroughout(busy, day))
  {
    hide RowOf, R.AvailabilitySlide, R.WindowOf, R.ShownResources, P.ParseSlide, P.SlideJson, C.ValidSlide, InYears,
         R.ResourceOf;
    R.AvailabilitySlideValidIff(a, builtAt);
    P.SlideRoundTrip(R.AvailabilitySlide(a, builtAt).value);
    BuiltBusy(a, builtAt, index);
    var busy := Times(R.AvailabilitySlide(a, builtAt).value.body.resources[index].busy);
    var day := DaysOf(f)[d];
    DaysKnown(f, day);
    RowTellsTruth(busy, day, x);
    MergedBusyAllDay(busy, day);
  }

  lemma BuiltBusy(a: R.AvailabilityInput, builtAt: int, index: nat)
    requires R.AvailabilitySlide(a, builtAt).Some? && R.SpanInYears(R.WindowOf(a, builtAt).value)
    requires index < |R.ShownResources(a.resources)|
    ensures var body := R.AvailabilitySlide(a, builtAt).value.body;
            && body.Availability? && |body.resources| == |R.ShownResources(a.resources)|
            && var busy := Times(body.resources[index].busy);
               && Separated(busy)
               && forall x :: Covers(busy, x)
                              <==> Booked(a.busy, R.ShownResources(a.resources)[index].id,
                                          R.WindowOf(a, builtAt).value.from, R.WindowOf(a, builtAt).value.to, builtAt,
                                          x)
  {
    hide BusyOf, ToInstant, TimeOf, IsInstant, ShortenText, R.WindowOf, R.ShownResources, R.MinutesOrNull, InYears;
    var span := R.WindowOf(a, builtAt).value;
    var r := R.ShownResources(a.resources)[index];
    var busy := BusyOf(r.id, a.busy, span.from, span.to, builtAt);
    R.WindowShape(a, builtAt);
    BusyOfMeaning(r.id, a.busy, span.from, span.to, builtAt);
    R.BusyWholeSeconds(r.id, a.busy, span.from, span.to, builtAt);
    R.IntervalsWritten(busy, span.from, span.to);
    assert Times(R.IntervalsText(busy)) == busy;
    assert R.AvailabilitySlide(a, builtAt).value.body.resources[index] == R.ResourceOf(r, a.busy, span, builtAt);
  }

  // ---------- The loops ----------

  /** The days pushed, and a row for each resource and day. */
  method Rows(resources: seq<C.Resource>, f: Frame) returns (rows: seq<seq<Row>>)
    ensures rows == AllRows(resources, f)
  {
    hide RowOf, Times, DayOf;
    var days: seq<Day> := [];
    days := AddDay(days, f.todayStart, f.tomorrowStart, true, f);
    days := AddDay(days, f.tomorrowStart, f.dayAfterStart, false, f);
    rows := [];
    for i := 0 to |resources|
      invariant |rows| == i && forall k :: 0 <= k < i ==> rows[k] == RowsOf(resources[k], days)
    {
      var item: seq<Row> := [];
      for d := 0 to |days|
        invariant |item| == d && forall k :: 0 <= k < d ==> item[k] == RowOf(Times(resources[i].busy), days[k])
      {
        item := item + [RowOf(Times(resources[i].busy), days[d])];
      }
      rows := rows + [item];
    }
    assert days == DaysOf(f);
  }

  method AddDay(days: seq<Day>, dayStart: int, dayEnd: int, today: bool, f: Frame) returns (more: seq<Day>)
    ensures more == days + DayOf(dayStart, dayEnd, today, f)
  {
    var wanted := if today then Max(dayStart, f.now) else dayStart;
    var known := Max(wanted, f.documentFrom);
    var end := Min(dayEnd, f.to);
    more := days;
    if end > known {
      more := more + [Day(dayStart, dayEnd, known, end, known == wanted && end == dayEnd, today)];
    }
  }
}
