/**
 * Local calendar dates as JavaScript's `Date` handles them when it is built
 * from a year, a month index and a day: the proleptic Gregorian calendar,
 * months counted from 0, days out of range carried into the neighbouring
 * months, and the day of the week counted from Sunday = 0.
 */
module Calendar {
  import opened Common

  /** A day of the local calendar; `month` counts from 0 (January) to 11. */
  datatype Date = Date(year: int, month: int, day: int)

  predicate IsLeapYear(y: int)
  {
    y % 4 == 0 && (y % 100 != 0 || y % 400 == 0)
  }

  function DaysInMonth(y: int, m: int): (n: int)
    requires 0 <= m < 12
    ensures 28 <= n <= 31
    ensures m == 1 ==> (n == 29 <==> IsLeapYear(y))
  {
    if m == 1 then (if IsLeapYear(y) then 29 else 28)
    else if m == 3 || m == 5 || m == 8 || m == 10 then 30
    else 31
  }

  /** A date that names an existing day. */
  predicate Valid(d: Date)
  {
    0 <= d.month < 12 && 1 <= d.day <= DaysInMonth(d.year, d.month)
  }

  function PrevMonth(y: int, m: int): (r: (int, int))
    requires 0 <= m < 12
    ensures 0 <= r.1 < 12
  {
    if m == 0 then (y - 1, 11) else (y, m - 1)
  }

  function NextMonth(y: int, m: int): (r: (int, int))
    requires 0 <= m < 12
    ensures 0 <= r.1 < 12
    ensures PrevMonth(r.0, r.1) == (y, m)
  {
    if m == 11 then (y + 1, 0) else (y, m + 1)
  }

  /**
   * The day `new Date(y, m, d)` (and `setDate(d)` on a day of month m of
   * year y) stands for: a day below 1 counts back into the previous months,
   * a day past the month's end on into the next ones.
   */
  function Normalize(y: int, m: int, d: int): (r: Date)
    requires 0 <= m < 12
    ensures Valid(r)
    ensures 1 <= d <= DaysInMonth(y, m) ==> r == Date(y, m, d)
    decreases if d < 1 then 1 else 0, if d < 1 then -d else d
  {
    if d < 1 then
      var (py, pm) := PrevMonth(y, m);
      Normalize(py, pm, d + DaysInMonth(py, pm))
    else if d > DaysInMonth(y, m) then
      var (ny, nm) := NextMonth(y, m);
      Normalize(ny, nm, d - DaysInMonth(y, m))
    else
      Date(y, m, d)
  }

  /** `new Date(year, monthIndex, day)`: a year of 0..99 stands for 1900..1999. */
  function MakeDate(year: int, monthIndex: int, day: int): (r: Date)
    requires 0 <= monthIndex < 12
    ensures Valid(r)
    ensures var y := if 0 <= year <= 99 then 1900 + year else year;
      1 <= day <= DaysInMonth(y, monthIndex) ==> r == Date(y, monthIndex, day)
  {
    Normalize(if 0 <= year <= 99 then 1900 + year else year, monthIndex, day)
  }

  /** Days of a common year before month m. */
  function DaysBeforeMonthCommon(m: int): (n: int)
    requires 0 <= m < 12
  {
    if m == 0 then 0 else if m == 1 then 31 else if m == 2 then 59 else if m == 3 then 90
    else if m == 4 then 120 else if m == 5 then 151 else if m == 6 then 181 else if m == 7 then 212
    else if m == 8 then 243 else if m == 9 then 273 else if m == 10 then 304 else 334
  }

  /** Days of year y before month m: February's 29th counts in a leap year. */
  function DaysBeforeMonth(y: int, m: int): int
    requires 0 <= m < 12
  {
    DaysBeforeMonthCommon(m) + (if m >= 2 && IsLeapYear(y) then 1 else 0)
  }

  /** Days of the years before year y, counted from year 1 (negative before it). */
  function DaysBeforeYear(y: int): int
  {
    365 * (y - 1) + (y - 1) / 4 - (y - 1) / 100 + (y - 1) / 400
  }

  /** The number of a day, 1 January of year 1 being day 1. */
  function DayNumber(d: Date): int
    requires 0 <= d.month < 12
  {
    DaysBeforeYear(d.year) + DaysBeforeMonth(d.year, d.month) + d.day
  }

  /** The number of 1 January 1970, the day from which a time value counts. */
  const EpochDay: int := 719163

  /** A time value lies within 8.64e15 ms of the epoch: 100,000,000 days either way. */
  const MaxDaysFromEpoch: int := 100000000

  /** A day whose midnight a `Date` can hold; outside this range `new Date(...)` is an Invalid Date. */
  predicate InTimeRange(d: Date)
    requires 0 <= d.month < 12
  {
    -MaxDaysFromEpoch <= DayNumber(d) - EpochDay <= MaxDaysFromEpoch
  }

  /** The epoch is 1 January 1970; the range runs from 20 April 271822 BC (year -271821) to 13 September 275760. */
  lemma TimeRangeEnds()
    ensures DayNumber(Date(1970, 0, 1)) == EpochDay
    ensures InTimeRange(Date(275760, 8, 13)) && !InTimeRange(Date(275760, 8, 14))
    ensures InTimeRange(Date(-271821, 3, 20)) && !InTimeRange(Date(-271821, 3, 19))
  {
  }

  /** Every day of the whole years inside the range can be held by a `Date`. */
  lemma InTimeRangeOfYear(d: Date)
    requires Valid(d) && -271820 <= d.year <= 275759
    ensures InTimeRange(d)
  {
    var y := d.year;
    assert DaysBeforeYear(-271820) - EpochDay >= -MaxDaysFromEpoch - 1;
    assert DaysBeforeYear(275760) - EpochDay <= MaxDaysFromEpoch;
    assert DaysBeforeYear(-271820) <= DaysBeforeYear(y) by {
      DaysBeforeYearMonotone(-271820, y);
    }
    assert DaysBeforeYear(y + 1) <= DaysBeforeYear(275760) by {
      DaysBeforeYearMonotone(y + 1, 275760);
    }
    YearLength(y);
  }

  lemma DaysBeforeYearMonotone(a: int, b: int)
    requires a <= b
    ensures DaysBeforeYear(a) <= DaysBeforeYear(b)
  {
  }

  /** `getDay()`: 0 for Sunday up to 6 for Saturday; day 1 was a Monday. */
  function Weekday(d: Date): (w: int)
    requires 0 <= d.month < 12
    ensures 0 <= w < 7
  {
    DayNumber(d) % 7
  }

  /** Going from year y - 1 to year y adds one to y / k exactly when k divides y. */
  lemma DivStep(y: int, k: int)
    requires k == 4 || k == 100 || k == 400
    ensures y / k - (y - 1) / k == if y % k == 0 then 1 else 0
  {
    if k == 4 {
    } else if k == 100 {
    } else {
    }
  }

  lemma CenturyOfFourCenturies(y: int)
    requires y % 400 == 0
    ensures y % 100 == 0
  {
    var q := y / 400;
    assert y == 100 * (4 * q);
  }

  lemma FourOfCentury(y: int)
    requires y % 100 == 0
    ensures y % 4 == 0
  {
    var q := y / 100;
    assert y == 4 * (25 * q);
  }

  /** A year has 365 days, and 366 when it is a leap year. */
  lemma YearLength(y: int)
    ensures DaysBeforeYear(y + 1) - DaysBeforeYear(y) == if IsLeapYear(y) then 366 else 365
  {
    DivStep(y, 4);
    DivStep(y, 100);
    DivStep(y, 400);
    if y % 400 == 0 {
      CenturyOfFourCenturies(y);
    }
    if y % 100 == 0 {
      FourOfCentury(y);
    }
    assert DaysBeforeYear(y + 1) == 365 * y + y / 4 - y / 100 + y / 400;
  }

  /** The first of a month is the day after the last day of the month before it. */
  lemma MonthStart(y: int, m: int, py: int, pm: int)
    requires 0 <= m < 12 && (py, pm) == PrevMonth(y, m)
    ensures DayNumber(Date(y, m, 1)) == DayNumber(Date(py, pm, 1)) + DaysInMonth(py, pm)
  {
    if m == 0 {
      YearLength(y - 1);
      assert y - 1 + 1 == y;
    }
  }

  /**
   * Day e of month m of year y, carried into the neighbouring months as
   * `setDate(e)` does, is e - 1 days after the first of that month, whatever
   * e is.
   */
  lemma {:induction false} NormalizeDayNumber(y: int, m: int, e: int)
    requires 0 <= m < 12
    ensures DayNumber(Normalize(y, m, e)) == DayNumber(Date(y, m, 1)) + e - 1
    decreases if e < 1 then 1 else 0, if e < 1 then -e else e
  {
    if e < 1 {
      var (py, pm) := PrevMonth(y, m);
      NormalizeDayNumber(py, pm, e + DaysInMonth(py, pm));
      MonthStart(y, m, py, pm);
    } else if e > DaysInMonth(y, m) {
      var (ny, nm) := NextMonth(y, m);
      NormalizeDayNumber(ny, nm, e - DaysInMonth(y, m));
      MonthStart(ny, nm, y, m);
    }
  }

  /** Going k days back from a real day takes k off its day number. */
  lemma DayNumberBack(d: Date, k: int)
    requires Valid(d)
    ensures DayNumber(Normalize(d.year, d.month, d.day - k)) == DayNumber(d) - k
  {
    NormalizeDayNumber(d.year, d.month, d.day - k);
    assert d == Date(d.year, d.month, d.day);
  }

  /** Going k days on from a real day adds k to its day number. */
  lemma DayNumberForward(d: Date, k: int)
    requires Valid(d)
    ensures DayNumber(Normalize(d.year, d.month, d.day + k)) == DayNumber(d) + k
  {
    NormalizeDayNumber(d.year, d.month, d.day + k);
    assert d == Date(d.year, d.month, d.day);
  }

  /** Numbers k apart are k apart modulo 7. */
  lemma ModShift(a: int, b: int, k: int)
    requires a == b + k
    ensures a % 7 == (b % 7 + k) % 7
  {
    assert a == (b % 7 + k) + 7 * (b / 7);
  }

  /** Numbers k apart are k apart modulo 7, the other way. */
  lemma ModShiftBack(a: int, b: int, k: int)
    requires a == b - k
    ensures a % 7 == (b % 7 - k) % 7
  {
    assert a == (b % 7 - k) + 7 * (b / 7);
  }

  /** Going back k days from a real day moves the weekday back by k. */
  lemma WeekdayBack(d: Date, k: int)
    requires Valid(d)
    ensures Weekday(Normalize(d.year, d.month, d.day - k)) == (Weekday(d) - k) % 7
  {
    DayNumberBack(d, k);
    ModShiftBack(DayNumber(Normalize(d.year, d.month, d.day - k)), DayNumber(d), k);
  }

  /** Going forward k days from a real day moves the weekday on by k. */
  lemma WeekdayForward(d: Date, k: int)
    requires Valid(d)
    ensures Weekday(Normalize(d.year, d.month, d.day + k)) == (Weekday(d) + k) % 7
  {
    DayNumberForward(d, k);
    ModShift(DayNumber(Normalize(d.year, d.month, d.day + k)), DayNumber(d), k);
  }

  /** The day before has the weekday before: `(w - 1) % 7` is `(w + 6) % 7`. */
  lemma WeekdayBackOne(d: Date)
    requires Valid(d)
    ensures Weekday(Normalize(d.year, d.month, d.day - 1)) == (Weekday(d) + 6) % 7
  {
    WeekdayBack(d, 1);
    var w := Weekday(d);
    assert (w - 1) % 7 == (w + 6) % 7;
  }

  /** Going back as many days as the weekday's number lands on a Sunday. */
  lemma WeekStartIsSunday(d: Date)
    requires Valid(d)
    ensures Weekday(Normalize(d.year, d.month, d.day - Weekday(d))) == 0
  {
    var w := Weekday(d);
    WeekdayBack(d, w);
    assert (w - w) % 7 == 0;
  }

  /** The Sunday that starts the week of `d`: `setDate(getDate() - getDay())`. */
  function WeekStart(d: Date): (s: Date)
    requires Valid(d)
    ensures Valid(s) && Weekday(s) == 0
  {
    WeekStartIsSunday(d);
    Normalize(d.year, d.month, d.day - Weekday(d))
  }

  /** Six days after a date: `setDate(getDate() + 6)`. */
  function SixDaysLater(d: Date): (s: Date)
    requires Valid(d)
    ensures Valid(s) && Weekday(s) == (Weekday(d) + 6) % 7
  {
    WeekdayForward(d, 6);
    Normalize(d.year, d.month, d.day + 6)
  }

  /** The day before a date: `setDate(getDate() - 1)`. */
  function PrevDay(d: Date): (s: Date)
    requires Valid(d)
    ensures Valid(s) && Weekday(s) == (Weekday(d) + 6) % 7
  {
    WeekdayBackOne(d);
    Normalize(d.year, d.month, d.day - 1)
  }

  /** One day after the day before is the day itself: `setDate(getDate() + 1)` undoes `PrevDay`. */
  lemma NextOfPrevDay(d: Date)
    requires Valid(d)
    ensures var p := PrevDay(d); Normalize(p.year, p.month, p.day + 1) == d
  {
    var p := PrevDay(d);
    if d.day == 1 {
      var (py, pm) := PrevMonth(d.year, d.month);
      assert p == Normalize(py, pm, DaysInMonth(py, pm));
      assert p == Date(py, pm, DaysInMonth(py, pm));
      assert NextMonth(py, pm) == (d.year, d.month);
      assert Normalize(p.year, p.month, p.day + 1) == Normalize(d.year, d.month, 1);
    } else {
      assert p == Date(d.year, d.month, d.day - 1);
    }
  }

  /** Different days have different days before them. */
  lemma PrevDayInjective(a: Date, b: Date)
    requires Valid(a) && Valid(b)
    ensures PrevDay(a) == PrevDay(b) <==> a == b
  {
    NextOfPrevDay(a);
    NextOfPrevDay(b);
  }

  /** The week of a Sunday starts on that Sunday, and ends on a Saturday. */
  lemma WeekOfSunday(d: Date)
    requires Valid(d)
    ensures WeekStart(WeekStart(d)) == WeekStart(d)
    ensures Weekday(SixDaysLater(WeekStart(d))) == 6
  {
    var s := WeekStart(d);
    assert Valid(s) && Weekday(s) == 0;
    assert s == Date(s.year, s.month, s.day - 0);
    assert Normalize(s.year, s.month, s.day - 0) == s;
    assert Weekday(SixDaysLater(s)) == (0 + 6) % 7;
  }

  /** January 20, 2025 was a Monday. */
  lemma WeekdayAnchor()
    ensures Weekday(Date(2025, 0, 20)) == 1
    ensures WeekStart(Date(2025, 0, 20)) == Date(2025, 0, 19)
    ensures WeekStart(Date(2025, 0, 1)) == Date(2024, 11, 29)
  {
    assert Weekday(Date(2025, 0, 1)) == 3;
    assert Normalize(2025, 0, -2) == Normalize(2024, 11, 29);
  }

  /**
   * The first ten characters of `toISOString()` for the UTC day `d`:
   * `YYYY-MM-DD` for years 0..9999; other years have a sign and six digits.
   */
  function IsoDate(d: Date): (s: string)
    requires Valid(d)
    ensures |s| == 10
  {
    var year :=
      if 0 <= d.year <= 9999 then PadZero(d.year, 4)
      else (if d.year < 0 then "-" else "+") + PadZero(if d.year < 0 then -d.year else d.year, 6);
    var full := year + "-" + PadZero(d.month + 1, 2) + "-" + PadZero(d.day, 2);
    full[..10]
  }

  /** For years 0..9999 the ISO date reads back as the year, month and day it was made from. */
  lemma IsoDateReadsBack(d: Date)
    requires Valid(d) && 0 <= d.year <= 9999
    ensures var s := IsoDate(d);
      && AllDigits(s[..4]) && s[4] == '-' && AllDigits(s[5..7]) && s[7] == '-' && AllDigits(s[8..])
      && ParseNat(s[..4]) == d.year && ParseNat(s[5..7]) == d.month + 1 && ParseNat(s[8..]) == d.day
  {
    var y := PadZero(d.year, 4);
    var mo := PadZero(d.month + 1, 2);
    var da := PadZero(d.day, 2);
    PadZeroWidth(d.year, 4);
    PadZeroWidth(d.month + 1, 2);
    PadZeroWidth(d.day, 2);
    var full := y + "-" + mo + "-" + da;
    assert |full| == 10;
    var s := IsoDate(d);
    assert s == full;
    assert s[..4] == y && s[5..7] == mo && s[8..] == da;
  }

  /** Two days of years 0..9999 with the same ISO date are the same day. */
  lemma IsoDateInjective(a: Date, b: Date)
    requires Valid(a) && Valid(b) && 0 <= a.year <= 9999 && 0 <= b.year <= 9999
    requires IsoDate(a) == IsoDate(b)
    ensures a == b
  {
    IsoDateReadsBack(a);
    IsoDateReadsBack(b);
  }
}
