/** When a bookable resource is busy: `busyOf` of packages/display/src/rotation.ts. */
module Busy {
  import opened Wrappers
  import opened Texts
  import opened Instants
  import opened Sorting

  /** A booking, its times as `Date.parse` reads them. */
  datatype Booking = Booking(resourceId: Text, start: Option<int>, end: Option<int>)

  datatype Interval = Interval(start: int, end: int)

  function CeilToSecond(time: int): int {
    (time + SECOND - 1) / SECOND * SECOND
  }

  /** A booking of the resource clipped to [from, to), in whole seconds, taken from `from` when it is under way. */
  function Clip(b: Booking, resourceId: Text, from: int, to: int, now: int): Option<Interval> {
    if b.resourceId != resourceId || b.start.None? || b.end.None? || b.start.value >= to then None
    else
      var start := if b.start.value <= now || b.start.value < from + MINUTE then from
                   else Max(FloorToSecond(b.start.value), from);
      var end := Min(CeilToSecond(b.end.value), to);
      if start < end then Some(Interval(start, end)) else None
  }

  function Clipped(bookings: seq<Booking>, resourceId: Text, from: int, to: int, now: int): seq<Interval> {
    if bookings == [] then []
    else
      var front := Clipped(bookings[..|bookings| - 1], resourceId, from, to, now);
      var last := Clip(bookings[|bookings| - 1], resourceId, from, to, now);
      if last.Some? then front + [last.value] else front
  }

  predicate Earlier(a: Interval, b: Interval) {
    a.start < b.start || (a.start == b.start && a.end <= b.end)
  }

  /** An interval joined to the last one when they overlap or meet. */
  function Join(merged: seq<Interval>, x: Interval): seq<Interval> {
    if merged != [] && x.start <= merged[|merged| - 1].end then
      merged[..|merged| - 1] + [Interval(merged[|merged| - 1].start, Max(merged[|merged| - 1].end, x.end))]
    else merged + [x]
  }

  function Merged(s: seq<Interval>): seq<Interval> {
    if s == [] then [] else Join(Merged(s[..|s| - 1]), s[|s| - 1])
  }

  function BusyOf(resourceId: Text, bookings: seq<Booking>, from: int, to: int, now: int): seq<Interval> {
    Merged(Sort(Clipped(bookings, resourceId, from, to, now), Earlier))
  }

  // ---------- The canonical form ----------

  ghost predicate Covers(s: seq<Interval>, x: int) {
    exists i :: 0 <= i < |s| && s[i].start <= x < s[i].end
  }

  /** In order, none empty, and with a gap between any two. */
  ghost predicate Separated(s: seq<Interval>) {
    && (forall i :: 0 <= i < |s| ==> s[i].start < s[i].end)
    && (forall i, j :: 0 <= i < j < |s| ==> s[i].end < s[j].start)
  }

  ghost predicate Inside(s: seq<Interval>, from: int, to: int) {
    forall i :: 0 <= i < |s| ==> from <= s[i].start && s[i].end <= to
  }

  ghost predicate NoneEmpty(s: seq<Interval>) {
    forall i :: 0 <= i < |s| ==> s[i].start < s[i].end
  }

  lemma EarlierIsOrder()
    ensures IsOrder(Earlier)
  {
  }

  lemma CoversAppend(s: seq<Interval>, y: Interval, x: int)
    ensures Covers(s + [y], x) <==> Covers(s, x) || y.start <= x < y.end
  {
    var t := s + [y];
    assert t[|s|] == y;
    if Covers(s, x) {
      var i :| 0 <= i < |s| && s[i].start <= x < s[i].end;
      assert t[i] == s[i];
    }
  }

  lemma JoinSeparated(m: seq<Interval>, x: Interval, from: int, to: int)
    requires Separated(m) && Inside(m, from, to) && from <= x.start < x.end <= to
    requires m != [] ==> m[|m| - 1].start <= x.start
    ensures Separated(Join(m, x)) && Inside(Join(m, x), from, to)
    ensures Join(m, x) != [] && Join(m, x)[|Join(m, x)| - 1].start <= x.start
  {
    if m != [] && x.start <= m[|m| - 1].end {
      var front, last := m[..|m| - 1], m[|m| - 1];
      AppendSeparated(front, Interval(last.start, Max(last.end, x.end)), from, to);
    } else {
      AppendSeparated(m, x, from, to);
    }
  }

  lemma AppendSeparated(m: seq<Interval>, x: Interval, from: int, to: int)
    requires Separated(m) && Inside(m, from, to) && from <= x.start < x.end <= to
    requires m != [] ==> m[|m| - 1].end < x.start
    ensures Separated(m + [x]) && Inside(m + [x], from, to)
  {
    var r := m + [x];
    forall i, j | 0 <= i < j < |r| ensures r[i].end < r[j].start {
      if j == |m| && i < |m| - 1 {
        assert m[i].end < m[|m| - 1].start < m[|m| - 1].end;
      }
    }
  }

  lemma JoinCovers(m: seq<Interval>, last: Interval, x: int)
    requires m != [] ==> m[|m| - 1].start <= last.start
    ensures Covers(Join(m, last), x) <==> Covers(m, x) || last.start <= x < last.end
  {
    if m != [] && last.start <= m[|m| - 1].end {
      assert m == m[..|m| - 1] + [m[|m| - 1]];
      CoversAppend(m[..|m| - 1], m[|m| - 1], x);
      CoversAppend(m[..|m| - 1], Interval(m[|m| - 1].start, Max(m[|m| - 1].end, last.end)), x);
    } else {
      CoversAppend(m, last, x);
    }
  }

  lemma {:induction false} MergedMeaning(s: seq<Interval>, from: int, to: int)
    requires Sorted(s, Earlier) && NoneEmpty(s) && Inside(s, from, to)
    ensures Separated(Merged(s)) && Inside(Merged(s), from, to)
    ensures Merged(s) == [] <==> s == []
    ensures s != [] ==> Merged(s)[|Merged(s)| - 1].start <= s[|s| - 1].start
    ensures forall x :: Covers(Merged(s), x) <==> Covers(s, x)
  {
    hide Join;
    if s != [] {
      var front, last := s[..|s| - 1], s[|s| - 1];
      MergedMeaning(front, from, to);
      if front != [] {
        assert Earlier(front[|front| - 1], last);
      }
      JoinSeparated(Merged(front), last, from, to);
      assert s == front + [last];
      forall x ensures Covers(Merged(s), x) <==> Covers(s, x) {
        CoversAppend(front, last, x);
        JoinCovers(Merged(front), last, x);
      }
    }
  }

  lemma {:induction false} ClippedMeaning(bookings: seq<Booking>, resourceId: Text, from: int, to: int, now: int)
    ensures NoneEmpty(Clipped(bookings, resourceId, from, to, now))
            && Inside(Clipped(bookings, resourceId, from, to, now), from, to)
    ensures forall y :: y in Clipped(bookings, resourceId, from, to, now)
                        <==> exists i :: 0 <= i < |bookings| && Clip(bookings[i], resourceId, from, to, now) == Some(y)
  {
    var c := Clipped(bookings, resourceId, from, to, now);
    if bookings != [] {
      var front := bookings[..|bookings| - 1];
      ClippedMeaning(front, resourceId, from, to, now);
      forall y
        ensures y in c <==> exists i :: 0 <= i < |bookings| && Clip(bookings[i], resourceId, from, to, now) == Some(y)
      {
        if i :| 0 <= i < |front| && Clip(front[i], resourceId, from, to, now) == Some(y) {
          assert bookings[i] == front[i];
        }
        if i :| 0 <= i < |bookings| && Clip(bookings[i], resourceId, from, to, now) == Some(y) {
          if i < |front| {
            assert front[i] == bookings[i];
          }
        }
      }
    }
  }

  /**
   A booking of the resource takes an instant of the window: it begins before the window ends; it is under way,
   beginning by now or within a minute of the window's start, or begins in that instant's second or before; and it ends
   after that second begins.
   */
  predicate Occupies(b: Booking, resourceId: Text, from: int, to: int, now: int, x: int) {
    && b.resourceId == resourceId && b.start.Some? && b.end.Some? && from <= x < to && b.start.value < to
    && (b.start.value <= now || b.start.value < from + MINUTE || b.start.value < x / SECOND * SECOND + SECOND)
    && x / SECOND * SECOND < b.end.value
  }

  /** Some booking takes the instant. */
  ghost predicate Booked(bookings: seq<Booking>, resourceId: Text, from: int, to: int, now: int, x: int) {
    exists i :: 0 <= i < |bookings| && Occupies(bookings[i], resourceId, from, to, now, x)
  }

  lemma ClipOccupies(b: Booking, resourceId: Text, from: int, to: int, now: int, x: int)
    ensures var y := Clip(b, resourceId, from, to, now);
            Occupies(b, resourceId, from, to, now, x) <==> y.Some? && y.value.start <= x < y.value.end
  {
    if b.start.Some? && b.end.Some? {
      SecondsRound(b.start.value, x);
      SecondsRound(b.end.value, x);
    }
    hide FloorToSecond, CeilToSecond;
  }

  lemma SecondsRound(t: int, x: int)
    ensures FloorToSecond(t) <= x <==> t < x / SECOND * SECOND + SECOND
    ensures x < CeilToSecond(t) <==> x / SECOND * SECOND < t
  {
    SecondsApart(t / SECOND, x / SECOND);
    SecondsApart((t + SECOND - 1) / SECOND, x / SECOND);
  }

  lemma SecondsApart(m: int, n: int)
    ensures m > n ==> m * SECOND >= n * SECOND + SECOND
    ensures m <= n ==> m * SECOND <= n * SECOND
  {
  }

  /** The intervals are separated, in order and inside [from, to), and cover exactly what the bookings take. */
  lemma BusyOfMeaning(resourceId: Text, bookings: seq<Booking>, from: int, to: int, now: int)
    ensures Separated(BusyOf(resourceId, bookings, from, to, now))
            && Inside(BusyOf(resourceId, bookings, from, to, now), from, to)
    ensures forall x ::
              Covers(BusyOf(resourceId, bookings, from, to, now), x) <==> Booked(bookings, resourceId, from, to, now, x)
  {
    hide Clip;
    var c := Clipped(bookings, resourceId, from, to, now);
    var s := Sort(c, Earlier);
    ClippedMeaning(bookings, resourceId, from, to, now);
    EarlierIsOrder();
    SortMeaning(c, Earlier);
    forall i | 0 <= i < |s| ensures s[i].start < s[i].end && from <= s[i].start && s[i].end <= to {
      assert s[i] in c;
    }
    MergedMeaning(s, from, to);
    hide Merged, Sort, Clipped, Separated;
    forall x ensures Covers(s, x) <==> Booked(bookings, resourceId, from, to, now, x) {
      SameMembers(s, c, x);
      ClippedCovers(bookings, resourceId, from, to, now, x);
    }
  }

  lemma SameMembers(s: seq<Interval>, t: seq<Interval>, x: int)
    requires forall y :: y in s <==> y in t
    ensures Covers(s, x) <==> Covers(t, x)
  {
    if i :| 0 <= i < |s| && s[i].start <= x < s[i].end {
      assert s[i] in t;
      var j :| 0 <= j < |t| && t[j] == s[i];
    }
    if i :| 0 <= i < |t| && t[i].start <= x < t[i].end {
      assert t[i] in s;
      var j :| 0 <= j < |s| && s[j] == t[i];
    }
  }

  lemma ClippedCovers(bookings: seq<Booking>, resourceId: Text, from: int, to: int, now: int, x: int)
    ensures Covers(Clipped(bookings, resourceId, from, to, now), x) <==> Booked(bookings, resourceId, from, to, now, x)
  {
    hide Clip, Occupies;
    ClippedMeaning(bookings, resourceId, from, to, now);
    var c := Clipped(bookings, resourceId, from, to, now);
    hide Clipped;
    if Covers(c, x) {
      var i :| 0 <= i < |c| && c[i].start <= x < c[i].end;
      assert c[i] in c;
      var k :| 0 <= k < |bookings| && Clip(bookings[k], resourceId, from, to, now) == Some(c[i]);
      ClipOccupies(bookings[k], resourceId, from, to, now, x);
    }
    if Booked(bookings, resourceId, from, to, now, x) {
      var k :| 0 <= k < |bookings| && Occupies(bookings[k], resourceId, from, to, now, x);
      ClipOccupies(bookings[k], resourceId, from, to, now, x);
      var y := Clip(bookings[k], resourceId, from, to, now).value;
      assert y in c;
      var i :| 0 <= i < |c| && c[i] == y;
    }
  }

  /** Separated intervals are determined by what they cover. */
  lemma {:induction false} SeparatedUnique(s: seq<Interval>, t: seq<Interval>)
    requires Separated(s) && Separated(t) && forall x :: Covers(s, x) <==> Covers(t, x)
    ensures s == t
  {
    hide Separated, Covers;
    if s == [] || t == [] {
      if s != [] {
        NothingCovered(s, t);
      } else if t != [] {
        NothingCovered(t, s);
      }
    } else {
      FirstSame(s, t);
      FirstSame(t, s);
      TailSeparated(s);
      TailSeparated(t);
      assert s[0] == t[0];
      forall x ensures Covers(s[1..], x) <==> Covers(t[1..], x) {
        CoversTail(s, x);
        CoversTail(t, x);
      }
      SeparatedUnique(s[1..], t[1..]);
      assert s == [s[0]] + s[1..] && t == [t[0]] + t[1..];
    }
  }

  lemma NothingCovered(s: seq<Interval>, t: seq<Interval>)
    requires Separated(s) && s != [] && t == []
    ensures Covers(s, s[0].start) && !Covers(t, s[0].start)
  {
  }

  lemma TailSeparated(s: seq<Interval>)
    requires Separated(s) && s != []
    ensures Separated(s[1..])
  {
  }

  lemma CoversTail(s: seq<Interval>, x: int)
    requires Separated(s) && s != []
    ensures Covers(s[1..], x) <==> Covers(s, x) && x >= s[0].end
  {
    if Covers(s[1..], x) {
      var i :| 0 <= i < |s[1..]| && s[1..][i].start <= x < s[1..][i].end;
      assert s[i + 1] == s[1..][i];
    }
    if Covers(s, x) && x >= s[0].end {
      var i :| 0 <= i < |s| && s[i].start <= x < s[i].end;
      assert s[1..][i - 1] == s[i];
    }
  }

  lemma EndUncovered(s: seq<Interval>, k: nat)
    requires Separated(s) && k < |s|
    ensures !Covers(s, s[k].end)
  {
    forall i | 0 <= i < |s| ensures !(s[i].start <= s[k].end < s[i].end) {
      assert i < k ==> s[i].end < s[k].start;
    }
  }

  /** The first interval of `s` is not before that of `t`, nor, beginning with it, ends before it. */
  lemma FirstSame(s: seq<Interval>, t: seq<Interval>)
    requires Separated(s) && Separated(t) && s != [] && t != [] && forall x :: Covers(s, x) <==> Covers(t, x)
    ensures t[0].start <= s[0].start
    ensures s[0].start == t[0].start ==> t[0].end <= s[0].end
  {
    assert Covers(s, s[0].start);
    assert Covers(t, s[0].start);
    EndUncovered(s, 0);
    assert !Covers(t, s[0].end);
    assert !(t[0].start <= s[0].end < t[0].end);
  }

  /** Bookings that take the same instants give the same list, in whatever order and however split. */
  lemma BusyOfCanonical(resourceId: Text, one: seq<Booking>, other: seq<Booking>, from: int, to: int, now: int,
                        otherNow: int)
    requires forall x :: Booked(one, resourceId, from, to, now, x) <==> Booked(other, resourceId, from, to, otherNow, x)
    ensures BusyOf(resourceId, one, from, to, now) == BusyOf(resourceId, other, from, to, otherNow)
  {
    BusyOfMeaning(resourceId, one, from, to, now);
    BusyOfMeaning(resourceId, other, from, to, otherNow);
    SeparatedUnique(BusyOf(resourceId, one, from, to, now), BusyOf(resourceId, other, from, to, otherNow));
  }

  // ---------- Two reads within a minute ----------

  /** A booking as the register has it. */
  datatype Kept = Kept(resourceId: Text, start: int, end: int)

  /** The busy read at `at`: what has not ended, from the moment of the call on. */
  function Read(bookings: seq<Kept>, at: int): seq<Booking> {
    if bookings == [] then []
    else
      var front, b := Read(bookings[..|bookings| - 1], at), bookings[|bookings| - 1];
      if b.end > at then front + [Booking(b.resourceId, Some(Max(b.start, at)), Some(b.end))] else front
  }

  /** The list made by a fetch at `now`, of a read at `at` for a window from `windowFrom` to `to`. */
  function SeenAt(bookings: seq<Kept>, resourceId: Text, now: int, at: int, windowFrom: int, to: int): seq<Interval> {
    BusyOf(resourceId, Read(bookings, at), FloorToMinute(Max(windowFrom, now)), to, now)
  }

  /** The fetch and the read fall in the minute from `minute`, and the window, in whole seconds, is not empty. */
  predicate WithinMinute(minute: int, now: int, at: int, windowFrom: int, to: int) {
    FloorToMinute(now) == minute && minute <= at < minute + MINUTE && FloorToMinute(Max(windowFrom, now)) < to
    && to % SECOND == 0
  }

  predicate NoneEndsIn(bookings: seq<Kept>, minute: int) {
    forall i ::
      0 <= i < |bookings| ==> bookings[i].start < bookings[i].end && !(minute < bookings[i].end < minute + MINUTE)
  }

  /** A booking of the resource that reaches past the minute begins before the window ends. */
  predicate UnderWay(bookings: seq<Kept>, resourceId: Text, minute: int, to: int) {
    exists i ::
      0 <= i < |bookings| && bookings[i].resourceId == resourceId && bookings[i].start < to
      && bookings[i].end >= minute + MINUTE
  }

  function SeenBooking(b: Kept, resourceId: Text, from: int, at: int, to: int, now: int): Option<Interval> {
    if b.end > at then Clip(Booking(b.resourceId, Some(Max(b.start, at)), Some(b.end)), resourceId, from, to, now)
    else None
  }

  lemma {:induction false} ReadSame(bookings: seq<Kept>, resourceId: Text, from: int, to: int, now: int, at: int,
                                    otherNow: int, otherAt: int)
    requires forall i :: 0 <= i < |bookings| ==>
                           SeenBooking(bookings[i], resourceId, from, at, to, now)
                           == SeenBooking(bookings[i], resourceId, from, otherAt, to, otherNow)
    ensures Clipped(Read(bookings, at), resourceId, from, to, now)
            == Clipped(Read(bookings, otherAt), resourceId, from, to, otherNow)
  {
    hide Clip;
    if bookings != [] {
      var front, b := bookings[..|bookings| - 1], bookings[|bookings| - 1];
      ReadSame(front, resourceId, from, to, now, at, otherNow, otherAt);
      if b.end > at {
        var r := Read(bookings, at);
        assert r[..|r| - 1] == Read(front, at);
      }
      if b.end > otherAt {
        var r := Read(bookings, otherAt);
        assert r[..|r| - 1] == Read(front, otherAt);
      }
    }
  }

  /** What one booking comes to in a read within the minute: nothing says which moment of the minute it was read at. */
  function Seen(b: Kept, resourceId: Text, from: int, at: int, to: int): Option<Interval> {
    if b.resourceId != resourceId || b.end <= from || b.start >= to || at >= to then None
    else Some(Interval(if b.start < from + MINUTE then from else FloorToSecond(b.start), Min(CeilToSecond(b.end), to)))
  }

  lemma SeenBookingIs(b: Kept, resourceId: Text, minute: int, at: int, windowFrom: int, to: int, now: int)
    requires WithinMinute(minute, now, at, windowFrom, to) && b.start < b.end && !(minute < b.end < minute + MINUTE)
    ensures var from := FloorToMinute(Max(windowFrom, now));
            && (from == minute || from >= minute + MINUTE)
            && SeenBooking(b, resourceId, from, at, to, now) == Seen(b, resourceId, from, at, to)
  {
    var from := FloorToMinute(Max(windowFrom, now));
    MinuteOf(now, Max(windowFrom, now));
    SecondsOf(b.start, from);
    EndSeconds(b.end, from);
    hide FloorToMinute, FloorToSecond, CeilToSecond;
  }

  lemma MinuteOf(now: int, x: int)
    requires now <= x
    ensures FloorToMinute(now) <= now < FloorToMinute(now) + MINUTE
    ensures FloorToMinute(x) == FloorToMinute(now) || FloorToMinute(x) >= FloorToMinute(now) + MINUTE
    ensures FloorToMinute(x) <= x && FloorToMinute(x) % SECOND == 0
  {
    MinuteShape(now);
    MinuteShape(x);
    MinutesApart(x / MINUTE, now / MINUTE);
  }

  lemma MinutesApart(m: int, n: int)
    ensures m > n ==> m * MINUTE >= n * MINUTE + MINUTE
    ensures m < n ==> m * MINUTE + MINUTE <= n * MINUTE
  {
  }

  lemma SecondsOf(x: int, from: int)
    requires from % SECOND == 0
    ensures FloorToSecond(x) <= x && (x >= from + MINUTE ==> FloorToSecond(x) >= from + MINUTE)
  {
  }

  lemma EndSeconds(x: int, from: int)
    requires from % SECOND == 0
    ensures CeilToSecond(x) >= x && (x <= from ==> CeilToSecond(x) <= from)
  {
  }

  /**
   Two reads for fetches within one minute, none of the bookings ending in it, give the same list exactly when the
   window's end does not fall between the two reads, or no booking that reaches past the minute begins before that end.
   A window that reaches past the minute always qualifies.
   */
  lemma MinuteStableIff(bookings: seq<Kept>, resourceId: Text, minute: int, windowFrom: int, to: int, now: int, at: int,
                        otherNow: int, otherAt: int)
    requires WithinMinute(minute, now, at, windowFrom, to) && WithinMinute(minute, otherNow, otherAt, windowFrom, to)
             && at <= otherAt
    requires NoneEndsIn(bookings, minute)
    ensures SeenAt(bookings, resourceId, now, at, windowFrom, to)
            == SeenAt(bookings, resourceId, otherNow, otherAt, windowFrom, to)
            <==> !(at < to <= otherAt) || !UnderWay(bookings, resourceId, minute, to)
  {
    hide Clip, FloorToSecond, CeilToSecond, Merged, Sort;
    var from := FloorToMinute(Max(windowFrom, now));
    SameWindow(minute, windowFrom, now, otherNow);
    hide FloorToMinute;
    forall i | 0 <= i < |bookings|
      ensures SeenBooking(bookings[i], resourceId, from, at, to, now) == Seen(bookings[i], resourceId, from, at, to)
      ensures SeenBooking(bookings[i], resourceId, from, otherAt, to, otherNow)
              == Seen(bookings[i], resourceId, from, otherAt, to)
    {
      SeenBookingIs(bookings[i], resourceId, minute, at, windowFrom, to, now);
      SeenBookingIs(bookings[i], resourceId, minute, otherAt, windowFrom, to, otherNow);
    }
    hide SeenBooking;
    if at < to <= otherAt && UnderWay(bookings, resourceId, minute, to) {
      var i :| 0 <= i < |bookings| && bookings[i].resourceId == resourceId && bookings[i].start < to
               && bookings[i].end >= minute + MINUTE;
      SomeSeen(bookings, i, resourceId, from, at, to, now);
      NoneSeen(bookings, resourceId, from, otherAt, to, otherNow);
    } else {
      ReadSame(bookings, resourceId, from, to, now, at, otherNow, otherAt);
    }
  }

  lemma SameWindow(minute: int, windowFrom: int, now: int, otherNow: int)
    requires FloorToMinute(now) == minute && FloorToMinute(otherNow) == minute
    ensures FloorToMinute(Max(windowFrom, now)) == FloorToMinute(Max(windowFrom, otherNow))
    ensures FloorToMinute(Max(windowFrom, now)) == minute || FloorToMinute(Max(windowFrom, now)) >= minute + MINUTE
  {
    MinuteOf(now, Max(windowFrom, now));
    MinuteOf(otherNow, Max(windowFrom, otherNow));
  }

  /**
   A window that ends half a minute into the fetch's own: a booking under way is on the list of a read before that end,
   and not on the list of a read 40 seconds into the minute.
   */
  lemma ShortWindowNotStable(resourceId: Text)
    ensures var bookings := [Kept(resourceId, 0, 2 * MINUTE)];
            && NoneEndsIn(bookings, 0)
            && SeenAt(bookings, resourceId, 0, 0, 0, 30 * SECOND)
               != SeenAt(bookings, resourceId, 0, 40 * SECOND, 0, 30 * SECOND)
  {
    hide BusyOf;
    var bookings := [Kept(resourceId, 0, 2 * MINUTE)];
    assert UnderWay(bookings, resourceId, 0, 30 * SECOND) by {
      assert bookings[0].start < 30 * SECOND && bookings[0].end >= MINUTE;
    }
    MinuteStableIff(bookings, resourceId, 0, 0, 30 * SECOND, 0, 0, 0, 40 * SECOND);
  }

  lemma {:induction false} SomeSeen(bookings: seq<Kept>, i: nat, resourceId: Text, from: int, at: int, to: int,
                                    now: int)
    requires i < |bookings| && SeenBooking(bookings[i], resourceId, from, at, to, now).Some?
    ensures BusyOf(resourceId, Read(bookings, at), from, to, now) != []
  {
    var c := Clipped(Read(bookings, at), resourceId, from, to, now);
    ReadHas(bookings, i, at);
    ClippedMeaning(Read(bookings, at), resourceId, from, to, now);
    var y := SeenBooking(bookings[i], resourceId, from, at, to, now).value;
    assert y in c;
    BusyOfMeaning(resourceId, Read(bookings, at), from, to, now);
    var k :| 0 <= k < |Read(bookings, at)| && Clip(Read(bookings, at)[k], resourceId, from, to, now) == Some(y);
    ClipOccupies(Read(bookings, at)[k], resourceId, from, to, now, y.start);
    assert Booked(Read(bookings, at), resourceId, from, to, now, y.start);
  }

  lemma {:induction false} ReadHas(bookings: seq<Kept>, i: nat, at: int)
    requires i < |bookings| && bookings[i].end > at
    ensures Booking(bookings[i].resourceId, Some(Max(bookings[i].start, at)), Some(bookings[i].end))
            in Read(bookings, at)
  {
    if i < |bookings| - 1 {
      ReadHas(bookings[..|bookings| - 1], i, at);
    }
  }

  lemma {:induction false} NoneSeen(bookings: seq<Kept>, resourceId: Text, from: int, at: int, to: int, now: int)
    requires forall i :: 0 <= i < |bookings| ==> SeenBooking(bookings[i], resourceId, from, at, to, now).None?
    ensures Clipped(Read(bookings, at), resourceId, from, to, now) == []
    ensures BusyOf(resourceId, Read(bookings, at), from, to, now) == []
  {
    hide Clip;
    if bookings != [] {
      var front := bookings[..|bookings| - 1];
      NoneSeen(front, resourceId, from, at, to, now);
      if bookings[|bookings| - 1].end > at {
        var r := Read(bookings, at);
        assert r[..|r| - 1] == Read(front, at);
      }
    }
  }

  // ---------- The loops ----------

  lemma ClippedStep(bookings: seq<Booking>, i: nat, resourceId: Text, from: int, to: int, now: int)
    requires i < |bookings|
    ensures var y := Clip(bookings[i], resourceId, from, to, now);
            Clipped(bookings[..i + 1], resourceId, from, to, now)
            == Clipped(bookings[..i], resourceId, from, to, now) + (if y.Some? then [y.value] else [])
  {
    hide Clip;
    assert bookings[..i + 1][..i] == bookings[..i];
  }

  lemma MergedStep(s: seq<Interval>, i: nat)
    requires i < |s|
    ensures Merged(s[..i + 1]) == Join(Merged(s[..i]), s[i])
  {
    assert s[..i + 1][..i] == s[..i];
  }

  /** `busyOf`: clip, sort, and merge in place. */
  method BusyOfLoop(resourceId: Text, bookings: seq<Booking>, from: int, to: int, now: int)
    returns (merged: seq<Interval>)
    ensures merged == BusyOf(resourceId, bookings, from, to, now)
  {
    hide Clipped, Merged, Sort, FloorToSecond, CeilToSecond;
    var clipped: seq<Interval> := [];
    NothingYet(resourceId, from, to, now);
    for i := 0 to |bookings|
      invariant clipped == Clipped(bookings[..i], resourceId, from, to, now)
    {
      ClippedStep(bookings, i, resourceId, from, to, now);
      var b := bookings[i];
      if b.resourceId != resourceId || b.start.None? || b.end.None? || b.start.value >= to {
        continue;
      }
      var start := if b.start.value <= now || b.start.value < from + MINUTE then from
                   else Max(FloorToSecond(b.start.value), from);
      var end := Min(CeilToSecond(b.end.value), to);
      if start < end {
        clipped := clipped + [Interval(start, end)];
      }
    }
    assert bookings[..|bookings|] == bookings;
    var sorted := Sort(clipped, Earlier);
    merged := [];
    for i := 0 to |sorted|
      invariant merged == Merged(sorted[..i])
    {
      MergedStep(sorted, i);
      var x := sorted[i];
      if merged != [] && x.start <= merged[|merged| - 1].end {
        merged := merged[|merged| - 1 := Interval(merged[|merged| - 1].start, Max(merged[|merged| - 1].end, x.end))];
      } else {
        merged := merged + [x];
      }
    }
    assert sorted[..|sorted|] == sorted;
  }

  lemma NothingYet(resourceId: Text, from: int, to: int, now: int)
    ensures Clipped([], resourceId, from, to, now) == [] && Merged([]) == []
  {
  }
}
