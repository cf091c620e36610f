/**
 Instants as the contract writes them, "2026-12-01T09:00:00Z": `toInstant` of packages/display/src/time.ts, and
 `isInstant` of packages/display/src/parse.ts. An instant's value is its milliseconds since 1970.
 */
module Instants {
  import opened Wrappers
  import opened Texts

  const SECOND := 1000
  const MINUTE := 60 * SECOND
  const DAY := 24 * 60 * MINUTE

  /** The days from year 0 to 1970. */
  const EPOCH_DAY := 719528

  const CYCLE_DAYS := 146097

  // ---------- The calendar ----------

  predicate IsLeap(year: int) {
    year % 4 == 0 && (year % 100 != 0 || year % 400 == 0)
  }

  /** The days from the first of year 0 to the first of `year`, in the proleptic Gregorian calendar. */
  function DaysBefore(year: int): int {
    365 * year + (year + 3) / 4 - (year + 99) / 100 + (year + 399) / 400
  }

  function MonthStart(leap: bool, month: int): int
    requires 1 <= month <= 13
  {
    var extra := if leap && month > 2 then 1 else 0;
    extra + (if month == 1 then 0 else if month == 2 then 31 else if month == 3 then 59 else if month == 4 then 90
             else if month == 5 then 120
                  else if month == 6 then 151 else if month == 7 then 181 else if month == 8 then 212
             else if month == 9 then 243
             else if month == 10 then 273 else if month == 11 then 304 else if month == 12 then 334
             else 365)
  }

  function MonthOf(leap: bool, dayOfYear: int, month: int): (m: int)
    requires 1 <= month <= 12 && MonthStart(leap, month) <= dayOfYear < MonthStart(leap, 13)
    ensures 1 <= m <= 12 && MonthStart(leap, m) <= dayOfYear < MonthStart(leap, m + 1)
    decreases 12 - month
  {
    if month == 12 || dayOfYear < MonthStart(leap, month + 1) then month else MonthOf(leap, dayOfYear, month + 1)
  }

  function YearOfCycle(day: int, year: int): (y: int)
    requires 0 <= year < 400 && DaysBefore(year) <= day < CYCLE_DAYS
    ensures 0 <= y < 400 && DaysBefore(y) <= day < DaysBefore(y + 1)
    decreases 400 - year
  {
    if day < DaysBefore(year + 1) then year else YearOfCycle(day, year + 1)
  }

  lemma YearInCycle(cycle: int, day: int, year: int)
    requires DaysBefore(year) <= day < DaysBefore(year + 1)
    ensures DaysBefore(400 * cycle + year) <= CYCLE_DAYS * cycle + day < DaysBefore(400 * cycle + year + 1)
  {
    CycleYear(cycle, year);
    CycleYear(cycle, year + 1);
  }

  datatype Date = Date(year: int, month: int, day: int)

  function YearOf(day: int): (year: int)
    ensures DaysBefore(year) <= day < DaysBefore(year + 1)
  {
    var cycle, inCycle := day / CYCLE_DAYS, YearOfCycle(day % CYCLE_DAYS, 0);
    YearInCycle(cycle, day % CYCLE_DAYS, inCycle);
    400 * cycle + inCycle
  }

  /** The date of a day, counted from the first of year 0. */
  function DateOf(day: int): (d: Date)
    ensures 1 <= d.month <= 12 && 1 <= d.day <= 31
    ensures DaysBefore(d.year) <= day < DaysBefore(d.year + 1)
    ensures DayOf(d) == day
  {
    var year := YearOf(day);
    NextYear(year);
    DateIn(year, day - DaysBefore(year))
  }

  function DateIn(year: int, dayOfYear: int): (d: Date)
    requires 0 <= dayOfYear < MonthStart(IsLeap(year), 13)
    ensures d.year == year && 1 <= d.month <= 12 && 1 <= d.day <= 31
    ensures MonthStart(IsLeap(year), d.month) + d.day - 1 == dayOfYear
  {
    var month := MonthOf(IsLeap(year), dayOfYear, 1);
    Date(year, month, dayOfYear - MonthStart(IsLeap(year), month) + 1)
  }

  function DayOf(date: Date): int
    requires 1 <= date.month <= 12
  {
    DaysBefore(date.year) + MonthStart(IsLeap(date.year), date.month) + date.day - 1
  }

  lemma WholeCycles(x: int, n: int)
    ensures (4 * n + x) / 4 == n + x / 4 && (4 * n + x) % 4 == x % 4
    ensures (100 * n + x) / 100 == n + x / 100 && (100 * n + x) % 100 == x % 100
    ensures (400 * n + x) / 400 == n + x / 400 && (400 * n + x) % 400 == x % 400
  {
  }

  /** The calendar repeats every 400 years. */
  lemma CycleYear(cycle: int, year: int)
    ensures DaysBefore(400 * cycle + year) == CYCLE_DAYS * cycle + DaysBefore(year)
  {
    WholeCycles(year + 3, 100 * cycle);
    WholeCycles(year + 99, 4 * cycle);
    WholeCycles(year + 399, cycle);
  }

  lemma NextYear(year: int)
    ensures DaysBefore(year + 1) == DaysBefore(year) + MonthStart(IsLeap(year), 13)
  {
    NextFourth(year);
    NextHundredth(year);
    NextFourHundredth(year);
  }

  lemma NextFourth(year: int)
    ensures (year + 4) / 4 == (year + 3) / 4 + (if year % 4 == 0 then 1 else 0)
  {
  }

  lemma NextHundredth(year: int)
    ensures (year + 100) / 100 == (year + 99) / 100 + (if year % 100 == 0 then 1 else 0)
    ensures year % 100 == 0 ==> year % 4 == 0
  {
    var q, r := year / 100, year % 100;
    assert year == 100 * q + r;
    if r == 0 {
      HundredsOf(q, 99);
      HundredsOf(q + 1, 0);
      FourthsOf(25 * q);
    } else {
      HundredsOf(q + 1, r - 1);
      HundredsOf(q + 1, r);
    }
  }

  lemma FourthsOf(q: int)
    ensures (4 * q) % 4 == 0
  {
  }

  lemma HundredsOf(q: int, r: int)
    requires 0 <= r < 100
    ensures (100 * q + r) / 100 == q && (100 * q + r) % 100 == r
  {
  }

  lemma FourHundredsOf(q: int, r: int)
    requires 0 <= r < 400
    ensures (400 * q + r) / 400 == q
  {
  }

  lemma NextFourHundredth(year: int)
    ensures (year + 400) / 400 == (year + 399) / 400 + (if year % 400 == 0 then 1 else 0)
    ensures year % 400 == 0 ==> year % 100 == 0
  {
    var q, r := year / 400, year % 400;
    assert year == 400 * q + r;
    if r == 0 {
      FourHundredsOf(q, 399);
      FourHundredsOf(q + 1, 0);
      HundredsOf(4 * q, 0);
    } else {
      FourHundredsOf(q + 1, r - 1);
      FourHundredsOf(q + 1, r);
    }
  }

  lemma YearsGrow(a: int, b: int)
    ensures a <= b <==> DaysBefore(a) <= DaysBefore(b)
  {
  }

  // ---------- The calendar is the Gregorian one ----------

  /** The days of a month. */
  function DaysIn(year: int, month: int): int {
    if month == 2 then (if year % 4 == 0 && (year % 100 != 0 || year % 400 == 0) then 29 else 28)
    else if month == 4 || month == 6 || month == 9 || month == 11 then 30 else 31
  }

  lemma MonthLength(year: int, month: int)
    requires 1 <= month <= 12
    ensures MonthStart(IsLeap(year), month + 1) - MonthStart(IsLeap(year), month) == DaysIn(year, month)
    ensures 0 <= MonthStart(IsLeap(year), month) && MonthStart(IsLeap(year), month + 1) <= MonthStart(IsLeap(year), 13)
  {
  }

  lemma MonthsGrow(leap: bool, m: int, n: int)
    requires 1 <= m <= 13 && 1 <= n <= 13
    ensures m < n ==> MonthStart(leap, m) < MonthStart(leap, n)
  {
  }

  /** A date of the calendar is the only one of its day. */
  lemma DateUnique(date: Date)
    requires 1 <= date.month <= 12 && 1 <= date.day <= DaysIn(date.year, date.month)
    ensures DateOf(DayOf(date)) == date
  {
    hide DaysIn, MonthStart, IsLeap, DateIn, YearOf, DaysBefore;
    var day, leap := DayOf(date), IsLeap(date.year);
    var d := DateOf(day);
    MonthLength(date.year, date.month);
    NextYear(date.year);
    YearsGrow(date.year + 1, d.year);
    YearsGrow(d.year + 1, date.year);
    assert d.year == date.year;
    DateInMonth(d.year, day - DaysBefore(d.year));
    MonthsGrow(leap, date.month + 1, d.month);
    MonthsGrow(leap, d.month + 1, date.month);
    DateParts(day);
  }

  lemma DateParts(day: int)
    ensures var d := DateOf(day); d == DateIn(d.year, day - DaysBefore(d.year))
  {
    hide DaysBefore, IsLeap, MonthStart, MonthOf;
    NextYear(YearOf(day));
  }

  lemma DateInMonth(year: int, dayOfYear: int)
    requires 0 <= dayOfYear < MonthStart(IsLeap(year), 13)
    ensures var d := DateIn(year, dayOfYear);
            MonthStart(IsLeap(year), d.month) <= dayOfYear < MonthStart(IsLeap(year), d.month + 1)
  {
    hide MonthStart, IsLeap;
  }

  /** The day after a date has the next date of the calendar. */
  lemma NextDate(day: int)
    ensures var d := DateOf(day);
            DateOf(day + 1) == if d.day < DaysIn(d.year, d.month) then Date(d.year, d.month, d.day + 1)
                               else if d.month < 12 then Date(d.year, d.month + 1, 1) else Date(d.year + 1, 1, 1)
  {
    hide DateOf, MonthStart, IsLeap, DaysBefore;
    var d := DateOf(day);
    DayInMonth(day);
    var next := if d.day < DaysIn(d.year, d.month) then Date(d.year, d.month, d.day + 1)
                else if d.month < 12 then Date(d.year, d.month + 1, 1) else Date(d.year + 1, 1, 1);
    MonthLength(d.year, d.month);
    NextYear(d.year);
    YearStart(d.year + 1);
    DateUnique(next);
  }

  lemma YearStart(year: int)
    ensures MonthStart(IsLeap(year), 1) == 0
  {
  }

  lemma DayInMonth(day: int)
    ensures var d := DateOf(day); 1 <= d.month <= 12 && 1 <= d.day <= DaysIn(d.year, d.month) && DayOf(d) == day
  {
    hide DaysIn, IsLeap, MonthStart, DaysBefore, YearOf;
    var d := DateOf(day);
    NextYear(d.year);
    DateParts(day);
    DateInMonth(d.year, day - DaysBefore(d.year));
    MonthLength(d.year, d.month);
  }

  /** Days are counted from the first of January 1970. */
  lemma EpochIs1970()
    ensures DateOf(EPOCH_DAY) == Date(1970, 1, 1)
  {
    assert DayOf(Date(1970, 1, 1)) == EPOCH_DAY;
    DateUnique(Date(1970, 1, 1));
  }

  // ---------- Writing ----------

  const ZERO: CodeUnit := 48
  const DASH: CodeUnit := 45
  const PLUS: CodeUnit := 43
  const COLON: CodeUnit := 58
  const CAPITAL_T: CodeUnit := 84
  const CAPITAL_Z: CodeUnit := 90

  function Digit(n: int): CodeUnit {
    ZERO + n % 10
  }

  function Two(n: int): Text {
    [Digit(n / 10), Digit(n)]
  }

  function Four(n: int): Text {
    [Digit(n / 1000), Digit(n / 100), Digit(n / 10), Digit(n)]
  }

  /** Whether a time lies in the years 0 to 9999. */
  predicate InYears(time: int) {
    -EPOCH_DAY * DAY <= time < (DaysBefore(10000) - EPOCH_DAY) * DAY
  }

  function FloorToMinute(time: int): int {
    time / MINUTE * MINUTE
  }

  lemma MinuteShape(x: int)
    ensures FloorToMinute(x) % SECOND == 0 && FloorToMinute(x) % MINUTE == 0
            && FloorToMinute(x) <= x < FloorToMinute(x) + MINUTE
  {
    assert FloorToMinute(x) == x / MINUTE * 60 * SECOND;
  }

  function FloorToSecond(time: int): int {
    time / SECOND * SECOND
  }

  function TimeText(date: Date, seconds: int): Text {
    [DASH] + Two(date.month) + [DASH] + Two(date.day) + [CAPITAL_T]
    + Two(seconds / 3600) + [COLON] + Two(seconds / 60 % 60) + [COLON] + Two(seconds % 60)
  }

  /**
   `toInstant`: the first 19 characters of the ISO form, and "Z". The ISO form has a sign and six digits for a year
   before 0 or after 9999.
   */
  function ToInstant(time: int): Text {
    var seconds := time / SECOND;
    var date := DateOf(DayNumber(time));
    var timeText := TimeText(date, seconds % 86400);
    if 0 <= date.year <= 9999 then Written(date, seconds % 86400)
    else
      var years := if date.year < 0 then -date.year else date.year;
      var iso := [if date.year < 0 then DASH else PLUS] + Two(years / 10000) + Four(years) + timeText;
      iso[..19] + [CAPITAL_Z]
  }

  // ---------- Reading ----------

  predicate IsDigit(u: CodeUnit) {
    ZERO <= u <= ZERO + 9
  }

  /** The pattern `^\d{4}-\d{2}-\d{2}T\d{2}:\d{2}:\d{2}Z$`. */
  predicate InstantShape(t: Text) {
    && |t| == 20
    && (forall i :: i in {0, 1, 2, 3, 5, 6, 8, 9, 11, 12, 14, 15, 17, 18} ==> IsDigit(t[i]))
    && t[4] == t[7] == DASH && t[10] == CAPITAL_T && t[13] == t[16] == COLON && t[19] == CAPITAL_Z
  }

  function Number2(t: Text, i: nat): int
    requires i + 1 < |t|
  {
    (t[i] - ZERO) * 10 + (t[i + 1] - ZERO)
  }

  /** `Date.parse` of a text of that shape: none when a month, day, hour, minute or second is out of its range. */
  function DateParse(t: Text): Option<int>
    requires InstantShape(t)
  {
    var year := Number2(t, 0) * 100 + Number2(t, 2);
    var month, day := Number2(t, 5), Number2(t, 8);
    var hour, minute, second := Number2(t, 11), Number2(t, 14), Number2(t, 17);
    if 1 <= month <= 12 && 1 <= day <= 31 && minute <= 59 && second <= 59
       && (hour <= 23 || (hour == 24 && minute == 0 && second == 0)) then
      Some(((DayOf(Date(year, month, day)) - EPOCH_DAY) * 86400 + hour * 3600 + minute * 60 + second) * SECOND)
    else None
  }

  /** `isInstant`, with the instant: a text of the shape that its own time is written as. */
  function InstantTime(t: Text): Option<int> {
    if InstantShape(t) && DateParse(t).Some? && ToInstant(DateParse(t).value) == t then DateParse(t) else None
  }

  predicate IsInstant(t: Text) {
    InstantTime(t).Some?
  }

  /** The instant a text is, and 0 for one that is none. */
  function TimeOf(t: Text): int {
    if IsInstant(t) then InstantTime(t).value else 0
  }

  // ---------- What was written is read ----------

  lemma TwoRead(n: int)
    requires 0 <= n < 100
    ensures (Two(n)[0] - ZERO) * 10 + (Two(n)[1] - ZERO) == n
  {
  }

  lemma FourRead(n: int)
    requires 0 <= n < 10000
    ensures ((Four(n)[0] - ZERO) * 10 + (Four(n)[1] - ZERO)) * 100 + ((Four(n)[2] - ZERO) * 10 + (Four(n)[3] - ZERO))
            == n
  {
    assert n / 100 == n / 1000 * 10 + n / 100 % 10;
    assert n % 100 == n / 10 % 10 * 10 + n % 10;
  }

  lemma DayInYears(day: int, year: int)
    requires DaysBefore(year) <= day < DaysBefore(year + 1)
    ensures 0 <= day < DaysBefore(10000) <==> 0 <= year <= 9999
  {
    YearsGrow(year + 1, 0);
    YearsGrow(0, year);
    YearsGrow(10000, year);
    YearsGrow(year + 1, 10000);
  }

  function DayNumber(time: int): int {
    time / SECOND / 86400 + EPOCH_DAY
  }

  /** Exactly a time in the years 0 to 9999 has one of those years. */
  lemma YearsOfTime(time: int)
    ensures InYears(time) <==> 0 <= DateOf(DayNumber(time)).year <= 9999
  {
    var day := DayNumber(time);
    DayInYears(day, DateOf(day).year);
    DayOfTime(time);
  }

  lemma DayOfTime(time: int)
    ensures DayNumber(time) == time / DAY + EPOCH_DAY
    ensures InYears(time) <==> 0 <= DayNumber(time) < DaysBefore(10000)
  {
  }

  /** A time in the years 0 to 9999 is written as an instant, which is the time floored to its second. */
  lemma ToInstantRead(time: int)
    requires InYears(time)
    ensures InstantTime(ToInstant(time)) == Some(FloorToSecond(time))
  {
    YearsOfTime(time);
    var date := DateOf(DayNumber(time));
    assert DayOf(date) == DayNumber(time);
    WrittenRead(date, time);
    SameSecond(time);
    assert ToInstant(time) == Written(date, time / SECOND % 86400);
  }

  lemma SameSecond(time: int)
    ensures ToInstant(FloorToSecond(time)) == ToInstant(time)
  {
    hide DateOf, TimeText, Written, Two, Four;
    assert FloorToSecond(time) / SECOND == time / SECOND;
  }

  function Written(date: Date, s: int): Text {
    Four(date.year) + TimeText(date, s) + [CAPITAL_Z]
  }

  lemma WrittenRead(date: Date, time: int)
    requires 0 <= date.year <= 9999 && 1 <= date.month <= 12 && 1 <= date.day <= 31
    requires DayOf(date) == DayNumber(time)
    ensures InstantShape(Written(date, time / SECOND % 86400))
    ensures DateParse(Written(date, time / SECOND % 86400)) == Some(FloorToSecond(time))
  {
    var seconds := time / SECOND;
    var s := seconds % 86400;
    WrittenShape(date, s);
    Clock(s);
    assert seconds == seconds / 86400 * 86400 + s;
  }

  lemma Clock(s: int)
    requires 0 <= s < 86400
    ensures s / 3600 * 3600 + s / 60 % 60 * 60 + s % 60 == s
    ensures 0 <= s / 3600 <= 23
  {
    assert s / 60 / 60 == s / 3600;
  }

  lemma WrittenShape(date: Date, s: int)
    requires 0 <= date.year <= 9999 && 1 <= date.month <= 12 && 1 <= date.day <= 31 && 0 <= s < 86400
    ensures var t := Written(date, s);
            && InstantShape(t)
            && Number2(t, 0) * 100 + Number2(t, 2) == date.year && Number2(t, 5) == date.month
            && Number2(t, 8) == date.day
            && Number2(t, 11) == s / 3600 && Number2(t, 14) == s / 60 % 60 && Number2(t, 17) == s % 60
  {
    var t := Written(date, s);
    Clock(s);
    Pieces(date.year, date.month, date.day, s / 3600, s / 60 % 60, s % 60);
  }

  lemma Pieces(year: int, month: int, day: int, hour: int, minute: int, second: int)
    requires 0 <= year <= 9999 && 0 <= month < 100 && 0 <= day < 100 && 0 <= hour < 100 && 0 <= minute < 100
             && 0 <= second < 100
    ensures var t := Four(year) + ([DASH] + Two(month) + [DASH] + Two(day) + [CAPITAL_T]
                                   + Two(hour) + [COLON] + Two(minute) + [COLON] + Two(second)) + [CAPITAL_Z];
            && InstantShape(t)
            && Number2(t, 0) * 100 + Number2(t, 2) == year && Number2(t, 5) == month && Number2(t, 8) == day
            && Number2(t, 11) == hour && Number2(t, 14) == minute && Number2(t, 17) == second
  {
    FourRead(year);
    TwoRead(month);
    TwoRead(day);
    TwoRead(hour);
    TwoRead(minute);
    TwoRead(second);
  }

  /** The instants are exactly what times in the years 0 to 9999 are written as. */
  lemma InstantIff(t: Text)
    ensures IsInstant(t) <==> exists time :: InYears(time) && ToInstant(time) == t
  {
    hide ToInstant, InYears, DateParse, InstantShape;
    if IsInstant(t) {
      var time := InstantTime(t).value;
      if !InYears(time) {
        ToInstantRefused(time);
      }
      assert ToInstant(time) == t;
    }
    if time :| InYears(time) && ToInstant(time) == t {
      ToInstantRead(time);
    }
  }

  /** A time outside the years 0 to 9999 is not written as an instant. */
  lemma ToInstantRefused(time: int)
    requires !InYears(time)
    ensures !IsInstant(ToInstant(time))
  {
    YearsOfTime(time);
    var t := ToInstant(time);
    assert t[0] == DASH || t[0] == PLUS;
    assert 0 in {0, 1, 2, 3, 5, 6, 8, 9, 11, 12, 14, 15, 17, 18};
    assert !IsDigit(t[0]);
  }
}
