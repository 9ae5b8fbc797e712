/**
 * The conductor's activity log screen (app/activity-logs.jsx): a text search
 * over the logs, then either the matching logs themselves (Per-Trip) or
 * their amounts summed per day, week, month or year, in order of first
 * appearance.
 */
module ActivityLogs {
  import opened Common
  import opened Calendar

  /**
   * One trip in the log. The amount claimed is kept in cents; the
   * `totalClaimed` text the screen shows and searches is its two-decimal
   * rendering, `CentsText(cents)`.
   */
  datatype Log = Log(id: string, date: string, actPlateNumber: string, cents: nat)

  /** `toFixed(2)` of an amount in cents: whole units, a point, two digits. */
  function CentsText(cents: nat): string
  {
    NatToString(cents / 100) + "." + PadZero(cents % 100, 2)
  }

  /** `parseFloat` of units, a point and two digits. */
  lemma ParseFloatOfFixed(s: string, units: string, fraction: string, cents: nat)
    requires units != [] && AllDigits(units) && |fraction| == 2 && AllDigits(fraction)
    requires s == units + "." + fraction
    requires cents == ParseNat(units) * 100 + ParseNat(fraction)
    ensures ParseFloat(s) == Some(Decimal(false, cents, 2))
  {
    FixedPieces(units, fraction);
    FixedValue(units, fraction);
    ParseFloatUnsigned(s, units, fraction, cents);
  }

  /** How `parseFloat` splits units, a point and digits: integer part, then fraction. */
  lemma FixedPieces(units: string, fraction: string)
    requires units != [] && AllDigits(units) && AllDigits(fraction)
    ensures var s := units + "." + fraction;
      && IsDigit(s[0]) && TrimStart(s) == s
      && DigitRun(s) == units && |units| < |s|
      && s[|units|..] != [] && s[|units|..][0] == '.' && DigitRun(s[|units|..][1..]) == fraction
  {
    var s := units + "." + fraction;
    assert IsDigit(s[0]);
    assert s[..|units|] == units;
    DigitRunUpTo(s, |units|);
    var rest := s[|units|..];
    assert rest == "." + fraction;
    assert rest[1..] == fraction;
    DigitRunAll(fraction);
  }

  /** Units followed by two fraction digits read as hundredths. */
  lemma FixedValue(units: string, fraction: string)
    requires AllDigits(units) && |fraction| == 2 && AllDigits(fraction)
    ensures AllDigits(units + fraction)
    ensures ParseNat(units + fraction) == ParseNat(units) * 100 + ParseNat(fraction)
  {
    ParseNatAppend(units, fraction);
    assert Pow10(1) == 10;
    assert Pow10(2) == 100;
  }

  /** `parseFloat` reads a rendered amount back as the same number of cents, at scale 2. */
  lemma CentsTextRoundTrip(cents: nat)
    ensures ParseFloat(CentsText(cents)) == Some(Decimal(false, cents, 2))
  {
    CentsPieces(cents);
    ParseFloatOfFixed(CentsText(cents), NatToString(cents / 100), PadZero(cents % 100, 2), cents);
  }

  /** The units and the two-digit fraction of an amount read back as its cents. */
  lemma CentsPieces(cents: nat)
    ensures |PadZero(cents % 100, 2)| == 2
    ensures ParseNat(NatToString(cents / 100)) * 100 + ParseNat(PadZero(cents % 100, 2)) == cents
  {
    assert Pow10(2) == 100 by {
      assert Pow10(1) == 10;
    }
    PadZeroWidth(cents % 100, 2);
    ParseNatString(cents / 100);
  }

  // ---------------------------------------------------------------------
  // The search box

  /** The fields the search box looks at: the date, the plate number and the amount text. */
  function SearchFields(log: Log): seq<string>
  {
    [log.date, log.actPlateNumber, CentsText(log.cents)]
  }

  /** `filteredLogs`: exactly the logs whose date, plate number or amount contains the search text, ignoring case, in their original order. */
  function SearchLogs(logs: seq<Log>, search: string): (r: seq<Log>)
    ensures forall i :: 0 <= i < |r| ==> r[i] in logs && AnyFieldContains(SearchFields(r[i]), search)
    ensures forall i :: 0 <= i < |logs| && AnyFieldContains(SearchFields(logs[i]), search) ==> logs[i] in r
    ensures IsSubsequence(r, logs)
    ensures forall log :: Count(r, log) == if AnyFieldContains(SearchFields(log), search) then Count(logs, log) else 0
  {
    SearchBy(logs, SearchFields, search)
  }

  /** An empty search keeps every log. */
  lemma EmptySearchKeepsAll(logs: seq<Log>)
    ensures SearchLogs(logs, "") == logs
  {
    SearchByEmpty(logs, SearchFields);
  }

  /** The letter case of the search text makes no difference. */
  lemma SearchIgnoresCase(logs: seq<Log>, search: string)
    ensures SearchLogs(logs, ToUpper(search)) == SearchLogs(logs, search)
  {
    SearchByIgnoresCase(logs, SearchFields, search);
  }

  /** Typing more at the end of the search text never brings a log back. */
  lemma LongerSearchNarrows(logs: seq<Log>, search: string, more: string)
    ensures IsSubsequence(SearchLogs(logs, search + more), SearchLogs(logs, search))
  {
    SearchByLongerNarrows(logs, SearchFields, search, more);
  }

  // ---------------------------------------------------------------------
  // Dates and their labels

  const FullMonths: seq<string> :=
    ["January", "February", "March", "April", "May", "June",
     "July", "August", "September", "October", "November", "December"]

  const ShortMonths: seq<string> :=
    ["Jan", "Feb", "Mar", "Apr", "May", "Jun", "Jul", "Aug", "Sep", "Oct", "Nov", "Dec"]

  /**
   * What `parseDate` ends in: a TypeError (fewer than two words, so there is
   * no day part to `replace` in), the `new Date(dateStr)` fallback for an
   * unknown month name, an invalid date (a day or year that `parseInt`
   * cannot read, or a day outside the range a `Date` can hold), or a day of
   * the calendar.
   */
  datatype ParsedDate = Throws | Fallback | InvalidDate | Parsed(date: Date)

  /**
   * `parseDate` of "MonthName Day, Year": the words are split at spaces, the
   * first comma of the day word is dropped, and the month name is looked up
   * among the full month names.
   */
  function ParseDate(dateStr: string): (r: ParsedDate)
    ensures r.Throws? <==> |Split(dateStr, ' ')| < 2
    ensures r.Fallback? <==> |Split(dateStr, ' ')| >= 2 && Split(dateStr, ' ')[0] !in FullMonths
    ensures r.Parsed? ==> Valid(r.date) && InTimeRange(r.date)
  {
    var words := Split(dateStr, ' ');
    if |words| < 2 then Throws
    else
      var day := ParseInt(ReplaceFirst(words[1], ',', ""));
      var year := if |words| >= 3 then ParseInt(words[2]) else None;
      var monthIndex := MonthIndex(words[0]);
      if monthIndex == -1 then Fallback
      else if day.None? || year.None? then InvalidDate
      else
        var date := MakeDate(year.value, monthIndex, day.value);
        if InTimeRange(date) then Parsed(date) else InvalidDate
  }

  /** `parseInt` of a non-empty digit string is its value. */
  lemma ParseIntOfDigits(s: string)
    requires s != [] && AllDigits(s)
    ensures ParseInt(s) == Some(ParseNat(s) as int)
  {
    assert !IsWhitespace(s[0]);
    assert TrimStart(s) == s;
    DigitRunAll(s);
  }

  /** `fullMonths.indexOf(name)`: the position of a full month name, or -1. */
  function MonthIndex(name: string): (r: int)
    ensures -1 <= r < 12
    ensures r >= 0 ==> FullMonths[r] == name
    ensures r == -1 <==> name !in FullMonths
  {
    match name
    case "January" => 0
    case "February" => 1
    case "March" => 2
    case "April" => 3
    case "May" => 4
    case "June" => 5
    case "July" => 6
    case "August" => 7
    case "September" => 8
    case "October" => 9
    case "November" => 10
    case "December" => 11
    case _ => -1
  }

  /** Every month name is found at its own position, and none holds a space. */
  lemma MonthIndexOfName(m: int)
    requires 0 <= m < 12
    ensures MonthIndex(FullMonths[m]) == m
    ensures ' ' !in FullMonths[m]
  {
  }

  /** The three words of "Month Day, Year". */
  lemma LogDateWords(month: string, dayText: string, yearText: string)
    requires ' ' !in month && AllDigits(dayText) && AllDigits(yearText)
    ensures Split(month + " " + dayText + ", " + yearText, ' ') == [month, dayText + ",", yearText]
  {
    var dayWord := dayText + ",";
    var s := month + " " + dayText + ", " + yearText;
    assert ' ' !in dayWord by {
      assert forall i :: 0 <= i < |dayText| ==> IsDigit(dayWord[i]);
    }
    assert ' ' !in yearText by {
      assert forall i :: 0 <= i < |yearText| ==> IsDigit(yearText[i]);
    }
    assert s == Join([month, dayWord, yearText], ' ') by {
      assert [month, dayWord, yearText][1..] == [dayWord, yearText];
      assert [dayWord, yearText][1..] == [yearText];
      assert Join([yearText], ' ') == yearText;
      assert Join([dayWord, yearText], ' ') == dayWord + [' '] + yearText;
      assert s == month + [' '] + (dayWord + [' '] + yearText);
    }
    SplitJoin([month, dayWord, yearText], ' ');
  }

  /** `replace(',', '')` on digits and a comma leaves the digits. */
  lemma DropComma(dayText: string)
    requires AllDigits(dayText)
    ensures ReplaceFirst(dayText + ",", ',', "") == dayText
  {
    var dayWord := dayText + ",";
    assert ',' !in dayText by {
      assert forall i :: 0 <= i < |dayText| ==> IsDigit(dayText[i]);
    }
    assert dayWord[..|dayText|] == dayText;
    assert IndexOf(dayWord, ',') == |dayText|;
    assert dayWord[|dayText| + 1..] == [];
  }

  /** What `parseDate` makes of a date whose words read as a month, a day and a year. */
  lemma ParseDateOfWords(dateStr: string, m: int, day: int, year: int)
    requires 0 <= m < 12
    requires var words := Split(dateStr, ' ');
      && |words| >= 3 && MonthIndex(words[0]) == m
      && ParseInt(ReplaceFirst(words[1], ',', "")) == Some(day) && ParseInt(words[2]) == Some(year)
    ensures var date := MakeDate(year, m, day);
      ParseDate(dateStr) == if InTimeRange(date) then Parsed(date) else InvalidDate
  {
  }

  /**
   * A date written the way the logs write it, "January 09, 2025", parses as
   * that day of the calendar (for a year from 100 on, and a day the month
   * has) when a `Date` can hold it, as every day up to the year 275759 can,
   * and as an invalid date otherwise.
   */
  lemma ParseDateOfLogDate(m: int, dayText: string, year: nat)
    requires 0 <= m < 12 && year >= 100
    requires dayText != [] && AllDigits(dayText)
    requires 1 <= ParseNat(dayText) <= DaysInMonth(year, m)
    ensures var date := Date(year, m, ParseNat(dayText));
      ParseDate(FullMonths[m] + " " + dayText + ", " + NatToString(year))
      == if InTimeRange(date) then Parsed(date) else InvalidDate
    ensures year <= 275759 ==> InTimeRange(Date(year, m, ParseNat(dayText)))
  {
    var yearText := NatToString(year);
    MonthIndexOfName(m);
    LogDateWords(FullMonths[m], dayText, yearText);
    DropComma(dayText);
    ParseIntOfDigits(dayText);
    ParseIntOfDigits(yearText);
    ParseNatString(year);
    ParseDateOfWords(FullMonths[m] + " " + dayText + ", " + yearText, m, ParseNat(dayText), year);
    if year <= 275759 {
      InTimeRangeOfYear(Date(year, m, ParseNat(dayText)));
    }
  }

  /** `getMonthlyLabel`: "January 2025". */
  function MonthlyLabel(d: Date): string
    requires Valid(d)
  {
    FullMonths[d.month] + " " + IntToString(d.year)
  }

  /** `getYearlyLabel`: the year's digits. */
  function YearlyLabel(d: Date): string
  {
    IntToString(d.year)
  }

  /** The Monthly label splits at its first space into the month's name and the year. */
  lemma MonthlyLabelPieces(d: Date)
    requires Valid(d)
    ensures var l := MonthlyLabel(d); var i := IndexOf(l, ' ');
      && i == |FullMonths[d.month]|
      && l[..i] == FullMonths[d.month] && l[i + 1..] == IntToString(d.year)
  {
    var name := FullMonths[d.month];
    var l := MonthlyLabel(d);
    MonthIndexOfName(d.month);
    assert l == name + (" " + IntToString(d.year));
    IndexOfAfter(name, " " + IntToString(d.year), ' ');
    assert l[..|name|] == name;
    assert l[|name| + 1..] == IntToString(d.year);
  }

  /** Two parsed dates share a Monthly key exactly when they have the same year and month. */
  lemma MonthlyKeyIff(a: Date, b: Date)
    requires Valid(a) && Valid(b)
    ensures MonthlyLabel(a) == MonthlyLabel(b) <==> a.year == b.year && a.month == b.month
  {
    MonthlyLabelPieces(a);
    MonthlyLabelPieces(b);
    MonthIndexOfName(a.month);
    MonthIndexOfName(b.month);
    IntToStringInjective(a.year, b.year);
  }

  /** Two dates share a Yearly key exactly when they have the same year. */
  lemma YearlyKeyIff(a: Date, b: Date)
    ensures YearlyLabel(a) == YearlyLabel(b) <==> a.year == b.year
  {
    IntToStringInjective(a.year, b.year);
  }

  /** `formatShortDate`: "Feb 23, 2025". */
  function ShortDate(d: Date): string
    requires Valid(d)
  {
    ShortMonths[d.month] + " " + NatToString(d.day) + ", " + IntToString(d.year)
  }

  /** A character that first occurs at the head of `rest` is found right after a prefix that lacks it. */
  lemma {:induction false} IndexOfAfter(x: string, rest: string, c: char)
    requires c !in x && rest != [] && rest[0] == c
    ensures IndexOf(x + rest, c) == |x|
    decreases |x|
  {
    if x == [] {
      assert x + rest == rest;
    } else {
      assert (x + rest)[0] == x[0];
      assert (x + rest)[1..] == x[1..] + rest;
      IndexOfAfter(x[1..], rest, c);
    }
  }

  /** In digits followed by ", " the first comma is the one right after the digits. */
  lemma CommaAfterDigits(x: string, s: string)
    requires AllDigits(x)
    ensures IndexOf(x + ", " + s, ',') == |x|
  {
    forall i | 0 <= i < |x|
      ensures x[i] != ','
    {
      assert IsDigit(x[i]);
    }
    assert x + ", " + s == x + (", " + s);
    IndexOfAfter(x, ", " + s, ',');
  }

  /** The short month names are twelve different three-letter words. */
  lemma ShortMonthsDistinct(i: int, j: int)
    requires 0 <= i < 12 && 0 <= j < 12
    ensures |ShortMonths[i]| == 3
    ensures ShortMonths[i] == ShortMonths[j] <==> i == j
  {
  }

  /** A three-letter name, a space, digits, ", " and a tail: each piece can be cut back out. */
  lemma NameDigitsTail(m: string, t: string, y: string)
    requires |m| == 3 && AllDigits(t)
    ensures var l := m + " " + t + ", " + y; var n := |t|;
      && |l| >= n + 6 && l[..3] == m
      && IndexOf(l[4..], ',') == n && l[4..n + 4] == t && l[n + 6..] == y
  {
    var l := m + " " + t + ", " + y;
    assert l[4..] == t + ", " + y;
    CommaAfterDigits(t, y);
  }

  /** The short date is the month's short name, a space, then the day's digits up to the first comma, ", " and the year. */
  lemma ShortDatePieces(d: Date)
    requires Valid(d)
    ensures var l := ShortDate(d); var n := |NatToString(d.day)|;
      && |l| >= n + 6 && l[..3] == ShortMonths[d.month]
      && IndexOf(l[4..], ',') == n && l[4..n + 4] == NatToString(d.day) && l[n + 6..] == IntToString(d.year)
  {
    ShortMonthsDistinct(d.month, d.month);
    NameDigitsTail(ShortMonths[d.month], NatToString(d.day), IntToString(d.year));
  }

  /** Two days have the same short date exactly when they are the same day. */
  lemma ShortDateIff(a: Date, b: Date)
    requires Valid(a) && Valid(b)
    ensures ShortDate(a) == ShortDate(b) <==> a == b
  {
    if ShortDate(a) == ShortDate(b) {
      ShortDatePieces(a);
      ShortDatePieces(b);
      ShortMonthsDistinct(a.month, b.month);
      ParseNatString(a.day);
      ParseNatString(b.day);
      IntToStringInjective(a.year, b.year);
    }
  }

  /** `getSundaySaturdayRangeLabel`: the Sunday that starts the week, to six days later. */
  function WeekLabel(d: Date): string
    requires Valid(d)
  {
    var sunday := WeekStart(d);
    ShortDate(sunday) + " - " + ShortDate(SixDaysLater(sunday))
  }

  /**
   * The UTC day of local midnight on `d`: the same day where the local time
   * zone is at or behind UTC, the day before where it is ahead of UTC.
   */
  function UtcDay(d: Date, aheadOfUtc: bool): (u: Date)
    requires Valid(d)
    ensures Valid(u)
  {
    if aheadOfUtc then PrevDay(d) else d
  }

  /** The Weekly key: `toISOString().substring(0, 10)` of the week's Sunday at local midnight. */
  function WeekKey(d: Date, aheadOfUtc: bool): string
    requires Valid(d)
  {
    IsoDate(UtcDay(WeekStart(d), aheadOfUtc))
  }

  /**
   * Two days share a Weekly key exactly when they have the same Sunday, and
   * the key reads back as the UTC day of that Sunday's local midnight: the
   * Sunday itself where the zone is not ahead of UTC, the Saturday before it
   * where it is (for keys of the years 0..9999).
   */
  lemma WeekKeyIsSunday(a: Date, b: Date, aheadOfUtc: bool)
    requires Valid(a) && Valid(b)
    requires 0 <= UtcDay(WeekStart(a), aheadOfUtc).year <= 9999
    requires 0 <= UtcDay(WeekStart(b), aheadOfUtc).year <= 9999
    ensures WeekKey(a, aheadOfUtc) == WeekKey(b, aheadOfUtc) <==> WeekStart(a) == WeekStart(b)
    ensures var u := UtcDay(WeekStart(a), aheadOfUtc); var k := WeekKey(a, aheadOfUtc);
      && Weekday(u) == (if aheadOfUtc then 6 else 0)
      && (aheadOfUtc ==> u == PrevDay(WeekStart(a)))
      && AllDigits(k[..4]) && ParseNat(k[..4]) == u.year
      && AllDigits(k[5..7]) && ParseNat(k[5..7]) == u.month + 1
      && AllDigits(k[8..]) && ParseNat(k[8..]) == u.day
  {
    var sa, sb := WeekStart(a), WeekStart(b);
    UtcDayInjective(sa, sb, aheadOfUtc);
    IsoDateIff(UtcDay(sa, aheadOfUtc), UtcDay(sb, aheadOfUtc));
    WeekKeyReadsBack(a, aheadOfUtc);
  }

  /** The key of one week reads back as the UTC day of its Sunday's midnight. */
  lemma WeekKeyReadsBack(a: Date, aheadOfUtc: bool)
    requires Valid(a)
    requires 0 <= UtcDay(WeekStart(a), aheadOfUtc).year <= 9999
    ensures var u := UtcDay(WeekStart(a), aheadOfUtc); var k := WeekKey(a, aheadOfUtc);
      && Weekday(u) == (if aheadOfUtc then 6 else 0)
      && (aheadOfUtc ==> u == PrevDay(WeekStart(a)))
      && AllDigits(k[..4]) && ParseNat(k[..4]) == u.year
      && AllDigits(k[5..7]) && ParseNat(k[5..7]) == u.month + 1
      && AllDigits(k[8..]) && ParseNat(k[8..]) == u.day
  {
    var u := UtcDay(WeekStart(a), aheadOfUtc);
    IsoDateReadsBack(u);
    assert (0 + 6) % 7 == 6;
  }

  /** Different local days have different UTC days at midnight. */
  lemma UtcDayInjective(a: Date, b: Date, aheadOfUtc: bool)
    requires Valid(a) && Valid(b)
    ensures UtcDay(a, aheadOfUtc) == UtcDay(b, aheadOfUtc) <==> a == b
  {
    PrevDayInjective(a, b);
  }

  /** For days of the years 0..9999 the ISO date tells days apart. */
  lemma IsoDateIff(a: Date, b: Date)
    requires Valid(a) && Valid(b) && 0 <= a.year <= 9999 && 0 <= b.year <= 9999
    ensures IsoDate(a) == IsoDate(b) <==> a == b
  {
    if IsoDate(a) == IsoDate(b) {
      IsoDateInjective(a, b);
    }
  }

  /** The Weekly label runs from a Sunday to a Saturday. */
  lemma WeekLabelSundayToSaturday(d: Date)
    requires Valid(d)
    ensures var sunday := WeekStart(d); var saturday := SixDaysLater(sunday);
      && Weekday(sunday) == 0 && Weekday(saturday) == 6
      && WeekLabel(d) == ShortDate(sunday) + " - " + ShortDate(saturday)
  {
    WeekOfSunday(d);
  }

  // ---------------------------------------------------------------------
  // Grouping

  datatype FilterType = PerTrip | Daily | Weekly | Monthly | Yearly

  /**
   * A log reduced to what the grouping needs (its group key, the date shown
   * for the group, its cents), and an entry of `groupedMap` alike.
   */
  datatype Entry = Entry(key: string, display: string, cents: nat)

  /**
   * The `switch` on the filter type for one log; None where `parseDate` throws,
   * where it falls back to `Date`'s own parser, and (Weekly) where
   * `toISOString` throws on an invalid date. An invalid date makes the
   * Monthly label "undefined NaN" and the Yearly label "NaN".
   */
  function KeyOf(log: Log, filterType: FilterType, aheadOfUtc: bool): (r: Option<Entry>)
    ensures r.Some? ==> r.value.cents == log.cents
    ensures filterType == Daily ==>
      (r.Some? <==> |Split(log.date, ' ')| >= 2) && (r.Some? ==> r.value.key == r.value.display == log.date)
    ensures ParseDate(log.date).Parsed? && filterType != Daily && filterType != PerTrip ==> r.Some?
    ensures filterType == Monthly && r.Some? ==> r.value.key == r.value.display
    ensures filterType == Yearly && r.Some? ==> r.value.key == r.value.display
    ensures ParseDate(log.date).Parsed? && r.Some? ==>
      var d := ParseDate(log.date).date;
      && (filterType == Monthly ==> r.value.key == MonthlyLabel(d))
      && (filterType == Yearly ==> r.value.key == YearlyLabel(d))
      && (filterType == Weekly ==> r.value.key == WeekKey(d, aheadOfUtc) && r.value.display == WeekLabel(d))
  {
    var parsed := ParseDate(log.date);
    match filterType
    case Daily =>
      if parsed.Throws? then None else Some(Entry(log.date, log.date, log.cents))
    case Weekly =>
      if parsed.Parsed? then Some(Entry(WeekKey(parsed.date, aheadOfUtc), WeekLabel(parsed.date), log.cents))
      else None
    case Monthly =>
      if parsed.Parsed? then Some(Entry(MonthlyLabel(parsed.date), MonthlyLabel(parsed.date), log.cents))
      else if parsed.InvalidDate? then Some(Entry("undefined NaN", "undefined NaN", log.cents))
      else None
    case Yearly =>
      if parsed.Parsed? then Some(Entry(YearlyLabel(parsed.date), YearlyLabel(parsed.date), log.cents))
      else if parsed.InvalidDate? then Some(Entry("NaN", "NaN", log.cents))
      else None
    case PerTrip =>
      // the switch's `default` branch: key and date stay ''
      if parsed.Throws? then None else Some(Entry("", "", log.cents))
  }

  /** Two logs with parsed dates fall in the same Monthly group exactly when their months agree, in the same Yearly group exactly when their years do. */
  lemma SameMonthOrYearGroup(x: Log, y: Log, aheadOfUtc: bool)
    requires ParseDate(x.date).Parsed? && ParseDate(y.date).Parsed?
    ensures var dx, dy := ParseDate(x.date).date, ParseDate(y.date).date;
      && KeyOf(x, Monthly, aheadOfUtc).Some? && KeyOf(y, Monthly, aheadOfUtc).Some?
      && (KeyOf(x, Monthly, aheadOfUtc).value.key == KeyOf(y, Monthly, aheadOfUtc).value.key
          <==> dx.year == dy.year && dx.month == dy.month)
      && KeyOf(x, Yearly, aheadOfUtc).Some? && KeyOf(y, Yearly, aheadOfUtc).Some?
      && (KeyOf(x, Yearly, aheadOfUtc).value.key == KeyOf(y, Yearly, aheadOfUtc).value.key <==> dx.year == dy.year)
  {
    MonthlyKeyIff(ParseDate(x.date).date, ParseDate(y.date).date);
    YearlyKeyIff(ParseDate(x.date).date, ParseDate(y.date).date);
  }

  /** Two logs with parsed dates fall in the same Weekly group exactly when their weeks start on the same Sunday. */
  lemma SameWeekGroup(x: Log, y: Log, aheadOfUtc: bool)
    requires ParseDate(x.date).Parsed? && ParseDate(y.date).Parsed?
    requires 0 <= UtcDay(WeekStart(ParseDate(x.date).date), aheadOfUtc).year <= 9999
    requires 0 <= UtcDay(WeekStart(ParseDate(y.date).date), aheadOfUtc).year <= 9999
    ensures KeyOf(x, Weekly, aheadOfUtc).Some? && KeyOf(y, Weekly, aheadOfUtc).Some?
    ensures KeyOf(x, Weekly, aheadOfUtc).value.key == KeyOf(y, Weekly, aheadOfUtc).value.key
      <==> WeekStart(ParseDate(x.date).date) == WeekStart(ParseDate(y.date).date)
  {
    WeekKeyIsSunday(ParseDate(x.date).date, ParseDate(y.date).date, aheadOfUtc);
  }

  /** The entries of all the logs, or None as soon as one of them has none. */
  function KeyedAll(logs: seq<Log>, filterType: FilterType, aheadOfUtc: bool): Option<seq<Entry>>
  {
    MapAll(logs, log => KeyOf(log, filterType, aheadOfUtc))
  }

  function Keys(es: seq<Entry>): (ks: seq<string>)
    ensures |ks| == |es| && forall i :: 0 <= i < |es| ==> ks[i] == es[i].key
  {
    seq(|es|, i requires 0 <= i < |es| => es[i].key)
  }

  /** One log into `groupedMap`: a new key opens a group at the end, a known key adds to its total. */
  function Accumulate(groups: seq<Entry>, e: Entry): seq<Entry>
  {
    var i := IndexOf(Keys(groups), e.key);
    if i == -1 then groups + [e]
    else groups[i := groups[i].(cents := groups[i].cents + e.cents)]
  }

  /** The groups of a sequence of entries, in the order `groupedMap` keeps them. */
  function GroupAll(es: seq<Entry>): seq<Entry>
  {
    if es == [] then [] else Accumulate(GroupAll(es[..|es| - 1]), es[|es| - 1])
  }

  /** The cents of the entries with a given key. */
  function KeySum(es: seq<Entry>, key: string): nat
  {
    if es == [] then 0
    else KeySum(es[..|es| - 1], key) + if es[|es| - 1].key == key then es[|es| - 1].cents else 0
  }

  /** The cents of all the entries. */
  function Total(es: seq<Entry>): nat
  {
    if es == [] then 0 else Total(es[..|es| - 1]) + es[|es| - 1].cents
  }

  /** No key is the key of two groups. */
  ghost predicate DistinctKeys(groups: seq<Entry>)
  {
    forall i, j :: 0 <= i < j < |groups| ==> groups[i].key != groups[j].key
  }

  /** The groups have exactly the keys that occur among the entries. */
  ghost predicate SameKeys(groups: seq<Entry>, es: seq<Entry>)
  {
    forall k :: k in Keys(groups) <==> k in Keys(es)
  }

  /** Each group holds the cents of the entries with its key. */
  ghost predicate SumsMatch(groups: seq<Entry>, es: seq<Entry>)
  {
    forall j :: 0 <= j < |groups| ==> groups[j].cents == KeySum(es, groups[j].key)
  }

  /** Each group shows the date of the first entry with its key. */
  ghost predicate DisplaysMatch(groups: seq<Entry>, es: seq<Entry>)
  {
    forall j :: 0 <= j < |groups| ==>
      0 <= IndexOf(Keys(es), groups[j].key) && groups[j].display == es[IndexOf(Keys(es), groups[j].key)].display
  }

  /** The groups come in the order in which their keys first occur. */
  ghost predicate FirstOccurrenceOrder(groups: seq<Entry>, es: seq<Entry>)
  {
    forall i, j :: 0 <= i < j < |groups| ==>
      IndexOf(Keys(es), groups[i].key) < IndexOf(Keys(es), groups[j].key)
  }

  /**
   * `groups` is what grouping `es` must give: one group per key that occurs,
   * no key twice, each with the cents of its entries and the date shown by
   * its first entry, ordered by where each key first occurs.
   */
  ghost predicate GroupedFrom(groups: seq<Entry>, es: seq<Entry>)
  {
    DistinctKeys(groups) && SameKeys(groups, es) && SumsMatch(groups, es)
    && DisplaysMatch(groups, es) && FirstOccurrenceOrder(groups, es)
  }

  lemma KeysAppend(es: seq<Entry>, e: Entry)
    ensures Keys(es + [e]) == Keys(es) + [e.key]
  {
  }

  lemma KeySumAppend(es: seq<Entry>, e: Entry, key: string)
    ensures KeySum(es + [e], key) == KeySum(es, key) + if e.key == key then e.cents else 0
  {
    assert (es + [e])[..|es|] == es;
  }

  lemma {:induction false} KeySumAbsent(es: seq<Entry>, key: string)
    requires key !in Keys(es)
    ensures KeySum(es, key) == 0
    decreases |es|
  {
    if es != [] {
      var init := es[..|es| - 1];
      assert Keys(init) == Keys(es)[..|es| - 1];
      KeySumAbsent(init, key);
    }
  }

  lemma IndexOfAppend(ks: seq<string>, k: string, x: string)
    ensures x in ks ==> IndexOf(ks + [k], x) == IndexOf(ks, x)
    ensures x !in ks && x == k ==> IndexOf(ks + [k], x) == |ks|
  {
    var i := IndexOf(ks + [k], x);
    if x in ks {
      var j := IndexOf(ks, x);
      assert (ks + [k])[..j] == ks[..j];
      assert (ks + [k])[j] == x;
    } else if x == k {
      assert (ks + [k])[..|ks|] == ks;
    }
  }

  /** An entry appended to the entries leaves the first occurrence of every earlier key where it was. */
  lemma FirstOccurrenceKept(groups: seq<Entry>, es: seq<Entry>, e: Entry, j: int)
    requires SameKeys(groups, es) && 0 <= j < |groups|
    ensures groups[j].key in Keys(es)
    ensures IndexOf(Keys(es + [e]), groups[j].key) == IndexOf(Keys(es), groups[j].key)
    ensures (es + [e])[IndexOf(Keys(es), groups[j].key)] == es[IndexOf(Keys(es), groups[j].key)]
  {
    assert groups[j].key == Keys(groups)[j];
    KeysAppend(es, e);
    IndexOfAppend(Keys(es), e.key, groups[j].key);
  }

  /** A new key's group goes last, after groups with other keys. */
  lemma NewGroupDistinct(groups: seq<Entry>, es: seq<Entry>, e: Entry)
    requires DistinctKeys(groups) && SameKeys(groups, es) && e.key !in Keys(es)
    ensures DistinctKeys(groups + [e])
  {
    forall j | 0 <= j < |groups|
      ensures groups[j].key != e.key
    {
      assert groups[j].key == Keys(groups)[j];
    }
  }

  /** A new key first occurs after every earlier key, at the end. */
  lemma NewGroupOrder(groups: seq<Entry>, es: seq<Entry>, e: Entry)
    requires FirstOccurrenceOrder(groups, es) && SameKeys(groups, es) && e.key !in Keys(es)
    ensures FirstOccurrenceOrder(groups + [e], es + [e])
  {
    var es' := es + [e];
    var g' := groups + [e];
    forall j | 0 <= j < |groups|
      ensures IndexOf(Keys(es'), groups[j].key) == IndexOf(Keys(es), groups[j].key) < |es|
    {
      FirstOccurrenceKept(groups, es, e, j);
    }
    KeysAppend(es, e);
    IndexOfAppend(Keys(es), e.key, e.key);
    assert g'[|groups|] == e;
  }

  /** Each group still shows the date of its first entry; the new one shows its own. */
  lemma NewGroupDisplays(groups: seq<Entry>, es: seq<Entry>, e: Entry)
    requires DisplaysMatch(groups, es) && SameKeys(groups, es) && e.key !in Keys(es)
    ensures DisplaysMatch(groups + [e], es + [e])
  {
    var es' := es + [e];
    var g' := groups + [e];
    forall j | 0 <= j < |groups|
      ensures IndexOf(Keys(es'), groups[j].key) == IndexOf(Keys(es), groups[j].key)
      ensures es'[IndexOf(Keys(es), groups[j].key)] == es[IndexOf(Keys(es), groups[j].key)]
    {
      FirstOccurrenceKept(groups, es, e, j);
    }
    KeysAppend(es, e);
    IndexOfAppend(Keys(es), e.key, e.key);
    assert g'[|groups|] == e && es'[|es|] == e;
  }

  /** A new key's group holds the new entry's cents, and the other groups keep theirs. */
  lemma NewGroupSums(groups: seq<Entry>, es: seq<Entry>, e: Entry)
    requires SumsMatch(groups, es) && SameKeys(groups, es) && e.key !in Keys(es)
    ensures SumsMatch(groups + [e], es + [e])
  {
    var g' := groups + [e];
    KeySumAbsent(es, e.key);
    forall j | 0 <= j < |g'|
      ensures g'[j].cents == KeySum(es + [e], g'[j].key)
    {
      KeySumAppend(es, e, g'[j].key);
      if j < |groups| {
        assert groups[j].key == Keys(groups)[j];
      }
    }
  }

  /** Adding an entry with a new key opens a group for it at the end. */
  lemma GroupedFromNew(groups: seq<Entry>, es: seq<Entry>, e: Entry)
    requires GroupedFrom(groups, es) && e.key !in Keys(es)
    ensures GroupedFrom(groups + [e], es + [e])
  {
    KeysAppend(es, e);
    KeysAppend(groups, e);
    assert SameKeys(groups + [e], es + [e]);
    NewGroupDistinct(groups, es, e);
    NewGroupOrder(groups, es, e);
    NewGroupDisplays(groups, es, e);
    NewGroupSums(groups, es, e);
  }

  /** Adding an entry with a known key adds its cents to that key's group. */
  lemma GroupedFromKnown(groups: seq<Entry>, es: seq<Entry>, e: Entry, i: int)
    requires GroupedFrom(groups, es) && e.key in Keys(es)
    requires i == IndexOf(Keys(groups), e.key)
    ensures 0 <= i < |groups|
    ensures GroupedFrom(groups[i := groups[i].(cents := groups[i].cents + e.cents)], es + [e])
  {
    var es' := es + [e];
    var g' := groups[i := groups[i].(cents := groups[i].cents + e.cents)];
    KeysAppend(es, e);
    assert Keys(g') == Keys(groups);
    assert SameKeys(g', es');
    forall j | 0 <= j < |groups|
      ensures IndexOf(Keys(es'), groups[j].key) == IndexOf(Keys(es), groups[j].key)
      ensures es'[IndexOf(Keys(es), groups[j].key)] == es[IndexOf(Keys(es), groups[j].key)]
    {
      FirstOccurrenceKept(groups, es, e, j);
    }
    assert DistinctKeys(g');
    assert FirstOccurrenceOrder(g', es');
    assert DisplaysMatch(g', es');
    forall j | 0 <= j < |g'|
      ensures g'[j].cents == KeySum(es', g'[j].key)
    {
      KeySumAppend(es, e, g'[j].key);
      assert groups[j].key == Keys(groups)[j];
    }
  }

  /** Grouping meets its specification: keys distinct and in order of first occurrence, totals per key. */
  lemma {:induction false} GroupAllGroupedFrom(es: seq<Entry>)
    ensures GroupedFrom(GroupAll(es), es)
    decreases |es|
  {
    if es != [] {
      var init := es[..|es| - 1];
      var e := es[|es| - 1];
      assert es == init + [e];
      GroupAllGroupedFrom(init);
      AccumulateGroupedFrom(GroupAll(init), init, e);
    }
  }

  /** Taking one more entry into groups that meet the specification keeps it met. */
  lemma AccumulateGroupedFrom(g: seq<Entry>, init: seq<Entry>, e: Entry)
    requires GroupedFrom(g, init)
    ensures GroupedFrom(Accumulate(g, e), init + [e])
  {
    var i := IndexOf(Keys(g), e.key);
    assert SameKeys(g, init);
    assert e.key in Keys(g) <==> e.key in Keys(init);
    if i == -1 {
      GroupedFromNew(g, init, e);
      GroupedFromSame(g + [e], Accumulate(g, e), init + [e]);
    } else {
      GroupedFromKnown(g, init, e, i);
      GroupedFromSame(g[i := g[i].(cents := g[i].cents + e.cents)], Accumulate(g, e), init + [e]);
    }
  }

  /** Equal groups meet the specification alike. */
  lemma GroupedFromSame(a: seq<Entry>, b: seq<Entry>, es: seq<Entry>)
    requires a == b && GroupedFrom(a, es)
    ensures GroupedFrom(b, es)
  {
  }

  lemma {:induction false} TotalAdd(groups: seq<Entry>, i: int, c: nat)
    requires 0 <= i < |groups|
    ensures Total(groups[i := groups[i].(cents := groups[i].cents + c)]) == Total(groups) + c
    decreases |groups|
  {
    var g' := groups[i := groups[i].(cents := groups[i].cents + c)];
    var n := |groups|;
    if i < n - 1 {
      assert g'[..n - 1] == groups[..n - 1][i := groups[i].(cents := groups[i].cents + c)];
      TotalAdd(groups[..n - 1], i, c);
    } else {
      assert g'[..n - 1] == groups[..n - 1];
    }
  }

  /** Taking in an entry adds its cents to the total of the groups. */
  lemma AccumulateTotal(groups: seq<Entry>, e: Entry)
    ensures Total(Accumulate(groups, e)) == Total(groups) + e.cents
  {
    var i := IndexOf(Keys(groups), e.key);
    if i == -1 {
      assert (groups + [e])[..|groups|] == groups;
    } else {
      TotalAdd(groups, i, e.cents);
    }
  }

  /** The group totals add up to the total of all the entries. */
  lemma {:induction false} GroupAllTotal(es: seq<Entry>)
    ensures Total(GroupAll(es)) == Total(es)
    decreases |es|
  {
    if es != [] {
      var init := es[..|es| - 1];
      var e := es[|es| - 1];
      GroupAllTotal(init);
      assert GroupAll(es) == Accumulate(GroupAll(init), e);
      AccumulateTotal(GroupAll(init), e);
    }
  }

  // ---------------------------------------------------------------------
  // What the list shows

  datatype Row = Row(id: string, date: string, actPlateNumber: string, totalClaimed: string)

  /** A log as the Per-Trip list shows it. */
  function LogRow(log: Log): Row
  {
    Row(log.id, log.date, log.actPlateNumber, CentsText(log.cents))
  }

  /** A group as the list shows it: no plate number, the total to two decimals. */
  function GroupRow(g: Entry): Row
  {
    Row(g.key, g.display, "", CentsText(g.cents))
  }

  /** The values of `groupedMap` after the pass over `logs`, or None where the screen fails (see `KeyOf`). */
  function Grouped(logs: seq<Log>, filterType: FilterType, aheadOfUtc: bool): Option<seq<Entry>>
  {
    match KeyedAll(logs, filterType, aheadOfUtc)
    case None => None
    case Some(es) => Some(GroupAll(es))
  }

  /** `getFilteredLogs()`, or None where the screen fails. */
  function FilteredRows(logs: seq<Log>, search: string, filterType: FilterType, aheadOfUtc: bool): Option<seq<Row>>
  {
    var filtered := SearchLogs(logs, search);
    if filterType == PerTrip then
      Some(seq(|filtered|, i requires 0 <= i < |filtered| => LogRow(filtered[i])))
    else
      match Grouped(filtered, filterType, aheadOfUtc)
      case None => None
      case Some(groups) => Some(seq(|groups|, j requires 0 <= j < |groups| => GroupRow(groups[j])))
  }

  /** Per-Trip shows the matching logs themselves, in order. */
  lemma PerTripShowsLogs(logs: seq<Log>, search: string, aheadOfUtc: bool)
    ensures var rows := FilteredRows(logs, search, PerTrip, aheadOfUtc).value;
      && |rows| == |SearchLogs(logs, search)|
      && forall i :: 0 <= i < |rows| ==> rows[i] == LogRow(SearchLogs(logs, search)[i])
  {
  }

  /**
   * The grouped list: one row per key, no key twice, rows in order of the
   * key's first matching log, each showing that log's date text, no plate
   * number, each total the sum of its logs' cents, and the totals together
   * the cents of all matching logs.
   */
  lemma GroupedRows(logs: seq<Log>, search: string, filterType: FilterType, aheadOfUtc: bool)
    requires filterType != PerTrip
    requires FilteredRows(logs, search, filterType, aheadOfUtc).Some?
    ensures var es := KeyedAll(SearchLogs(logs, search), filterType, aheadOfUtc).value;
      var groups := GroupAll(es);
      var rows := FilteredRows(logs, search, filterType, aheadOfUtc).value;
      && GroupedFrom(groups, es)
      && Total(groups) == Total(es)
      && |rows| == |groups|
      && forall j :: 0 <= j < |rows| ==> rows[j] == Row(groups[j].key, groups[j].display, "", CentsText(groups[j].cents))
  {
    var es := KeyedAll(SearchLogs(logs, search), filterType, aheadOfUtc).value;
    GroupAllGroupedFrom(es);
    GroupAllTotal(es);
  }

  /** Daily entries exist for all the logs unless one of them has a date of fewer than two words. */
  lemma DailyKeyedAll(logs: seq<Log>, aheadOfUtc: bool)
    ensures KeyedAll(logs, Daily, aheadOfUtc).None? <==> exists i :: 0 <= i < |logs| && |Split(logs[i].date, ' ')| < 2
  {
    var f := log => KeyOf(log, Daily, aheadOfUtc);
    if KeyedAll(logs, Daily, aheadOfUtc).None? {
      var i :| 0 <= i < |logs| && f(logs[i]).None?;
      assert |Split(logs[i].date, ' ')| < 2;
    } else {
      forall i | 0 <= i < |logs|
        ensures |Split(logs[i].date, ' ')| >= 2
      {
        assert f(logs[i]).Some?;
      }
    }
  }

  /** A Daily list fails only on a date of fewer than two words; every other log is grouped by its own date text. */
  lemma DailyFailsOnlyOnOneWord(logs: seq<Log>, search: string, aheadOfUtc: bool)
    ensures FilteredRows(logs, search, Daily, aheadOfUtc).None?
      <==> exists i :: 0 <= i < |SearchLogs(logs, search)| && |Split(SearchLogs(logs, search)[i].date, ' ')| < 2
  {
    var filtered := SearchLogs(logs, search);
    DailyKeyedAll(filtered, aheadOfUtc);
    assert FilteredRows(logs, search, Daily, aheadOfUtc).None? <==> KeyedAll(filtered, Daily, aheadOfUtc).None?;
  }

  // ---------------------------------------------------------------------
  // The grouping as the screen runs it

  /** `groupedMap` as a key order and a map: the keys are distinct and exactly the map's keys. */
  ghost predicate MapHolds(order: seq<string>, groupedMap: map<string, Entry>)
  {
    && (forall i, j :: 0 <= i < j < |order| ==> order[i] != order[j])
    && (forall k :: k in groupedMap <==> k in order)
    && (forall k :: k in groupedMap ==> groupedMap[k].key == k)
  }

  /** `Array.from(groupedMap.values())`. */
  function MapValues(order: seq<string>, groupedMap: map<string, Entry>): (vs: seq<Entry>)
    requires MapHolds(order, groupedMap)
    ensures Keys(vs) == order
  {
    var vs := seq(|order|, j requires 0 <= j < |order| => groupedMap[order[j]]);
    assert forall j :: 0 <= j < |order| ==> Keys(vs)[j] == order[j];
    vs
  }

  /** A new key: the map's values gain the entry at the end, as `Accumulate` does. */
  lemma MapValuesNew(order: seq<string>, groupedMap: map<string, Entry>, e: Entry)
    requires MapHolds(order, groupedMap) && e.key !in groupedMap
    ensures MapHolds(order + [e.key], groupedMap[e.key := e])
    ensures MapValues(order + [e.key], groupedMap[e.key := e]) == Accumulate(MapValues(order, groupedMap), e)
  {
    var before := MapValues(order, groupedMap);
    assert IndexOf(Keys(before), e.key) == -1;
    assert MapValues(order + [e.key], groupedMap[e.key := e]) == before + [e];
  }

  /** A known key: its value gains the entry's cents, as `Accumulate` does. */
  lemma MapValuesKnown(order: seq<string>, groupedMap: map<string, Entry>, e: Entry)
    requires MapHolds(order, groupedMap) && e.key in groupedMap
    ensures var existing := groupedMap[e.key];
      var after := groupedMap[e.key := existing.(cents := existing.cents + e.cents)];
      MapHolds(order, after) && MapValues(order, after) == Accumulate(MapValues(order, groupedMap), e)
  {
    var existing := groupedMap[e.key];
    var after := groupedMap[e.key := existing.(cents := existing.cents + e.cents)];
    var before := MapValues(order, groupedMap);
    var at := IndexOf(order, e.key);
    assert Keys(before) == order;
    assert MapValues(order, after) == before[at := before[at].(cents := before[at].cents + e.cents)];
  }

  /** One more log: its entry joins the entries, and the groups take it in. */
  lemma KeyedStep(logs: seq<Log>, i: int, filterType: FilterType, aheadOfUtc: bool)
    requires 0 <= i < |logs|
    requires KeyedAll(logs[..i], filterType, aheadOfUtc).Some?
    requires KeyOf(logs[i], filterType, aheadOfUtc).Some?
    ensures KeyedAll(logs[..i + 1], filterType, aheadOfUtc).Some?
    ensures GroupAll(KeyedAll(logs[..i + 1], filterType, aheadOfUtc).value)
      == Accumulate(GroupAll(KeyedAll(logs[..i], filterType, aheadOfUtc).value), KeyOf(logs[i], filterType, aheadOfUtc).value)
  {
    var es := KeyedAll(logs[..i], filterType, aheadOfUtc).value;
    var e := KeyOf(logs[i], filterType, aheadOfUtc).value;
    MapAllSnoc(logs, i, log => KeyOf(log, filterType, aheadOfUtc));
    assert KeyedAll(logs[..i + 1], filterType, aheadOfUtc) == Some(es + [e]);
    assert (es + [e])[..|es|] == es;
  }

  /** One log without an entry leaves the whole list without one. */
  lemma KeyedFails(logs: seq<Log>, i: int, filterType: FilterType, aheadOfUtc: bool)
    requires 0 <= i < |logs| && KeyOf(logs[i], filterType, aheadOfUtc).None?
    ensures Grouped(logs, filterType, aheadOfUtc).None?
  {
    var f := log => KeyOf(log, filterType, aheadOfUtc);
    assert f(logs[i]).None?;
  }

  /** The body of the `forEach` for a log with an entry: open a group for a new key, or add to the known one. */
  method TakeEntry(order: seq<string>, groupedMap: map<string, Entry>, entry: Entry)
    returns (order': seq<string>, groupedMap': map<string, Entry>)
    requires MapHolds(order, groupedMap)
    ensures MapHolds(order', groupedMap')
    ensures MapValues(order', groupedMap') == Accumulate(MapValues(order, groupedMap), entry)
  {
    if entry.key !in groupedMap {
      MapValuesNew(order, groupedMap, entry);
      order' := order + [entry.key];
      groupedMap' := groupedMap[entry.key := entry];
    } else {
      MapValuesKnown(order, groupedMap, entry);
      var existing := groupedMap[entry.key];
      order' := order;
      groupedMap' := groupedMap[entry.key := existing.(cents := existing.cents + entry.cents)];
    }
  }

  /** The `forEach` over the matching logs that fills `groupedMap`, and the map's values. */
  method GroupLogs(filteredLogs: seq<Log>, filterType: FilterType, aheadOfUtc: bool)
    returns (groups: Option<seq<Entry>>)
    ensures groups == Grouped(filteredLogs, filterType, aheadOfUtc)
  {
    var order: seq<string> := [];
    var groupedMap: map<string, Entry> := map[];
    var i := 0;
    while i < |filteredLogs|
      invariant 0 <= i <= |filteredLogs|
      invariant KeyedAll(filteredLogs[..i], filterType, aheadOfUtc).Some?
      invariant MapHolds(order, groupedMap)
      invariant MapValues(order, groupedMap) == GroupAll(KeyedAll(filteredLogs[..i], filterType, aheadOfUtc).value)
    {
      var keyed := KeyOf(filteredLogs[i], filterType, aheadOfUtc);
      if keyed.None? {
        KeyedFails(filteredLogs, i, filterType, aheadOfUtc);
        return None;
      }
      KeyedStep(filteredLogs, i, filterType, aheadOfUtc);
      order, groupedMap := TakeEntry(order, groupedMap, keyed.value);
      i := i + 1;
    }
    assert filteredLogs[..i] == filteredLogs;
    groups := Some(MapValues(order, groupedMap));
  }

  /**
   * `getFilteredLogs`: the search, then for Per-Trip the matching logs, and
   * otherwise their groups with the totals to two decimals.
   */
  method GetFilteredLogs(logs: seq<Log>, search: string, filterType: FilterType, aheadOfUtc: bool)
    returns (rows: Option<seq<Row>>)
    ensures rows == FilteredRows(logs, search, filterType, aheadOfUtc)
  {
    var filteredLogs := SearchLogs(logs, search);
    if filterType == PerTrip {
      return Some(seq(|filteredLogs|, i requires 0 <= i < |filteredLogs| => LogRow(filteredLogs[i])));
    }
    var grouped := GroupLogs(filteredLogs, filterType, aheadOfUtc);
    if grouped.None? {
      return None;
    }
    var groups := grouped.value;
    rows := Some(seq(|groups|, j requires 0 <= j < |groups| => GroupRow(groups[j])));
  }
}
