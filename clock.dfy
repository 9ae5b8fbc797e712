/**
 * What the two home screens' `formatDatetime` helpers share
 * (app/home.jsx and mobileapp/app/home.jsx): the MySQL datetime text made
 * ISO-like by replacing its first space with 'T', and the 12-hour clock
 * text `h:mm` followed by `am` or `pm`, which reads back as the 24-hour time.
 */
module Clock {
  import opened Common

  /** The local hours and minutes of a parsed `Date`. */
  datatype LocalTime = LocalTime(hours: nat, minutes: nat)

  /** What `getHours()` and `getMinutes()` can return for a valid date. */
  predicate ValidTime(t: LocalTime)
  {
    t.hours < 24 && t.minutes < 60
  }

  /** `datetimeStr.replace(' ', 'T')`: only the first space becomes 'T'. */
  function IsoText(datetimeStr: string): (r: string)
    ensures ' ' !in datetimeStr ==> r == datetimeStr
    ensures ' ' in datetimeStr ==>
      var i := IndexOf(datetimeStr, ' ');
      && |r| == |datetimeStr| && r[i] == 'T'
      && forall j :: 0 <= j < |r| && j != i ==> r[j] == datetimeStr[j]
  {
    ReplaceFirst(datetimeStr, ' ', "T")
  }

  /** Replacing the first space leaves one space fewer, so a second space survives. */
  lemma IsoTextSpaces(datetimeStr: string)
    requires ' ' in datetimeStr
    ensures Count(IsoText(datetimeStr), ' ') + 1 == Count(datetimeStr, ' ')
  {
    var i := IndexOf(datetimeStr, ' ');
    var before, after := datetimeStr[..i], datetimeStr[i + 1..];
    assert datetimeStr == before + [' '] + after;
    assert IsoText(datetimeStr) == before + "T" + after;
    CountAppend(before + [' '], after, ' ');
    CountAppend(before, [' '], ' ');
    CountAppend(before + "T", after, ' ');
    CountAppend(before, "T", ' ');
  }

  /** The 12-hour clock's hour, as a reference: 0 and 12 read 12, 13 reads 1. */
  function TwelveHour(hours: nat): (h: nat)
    ensures 1 <= h <= 12
    ensures h % 12 == hours % 12
  {
    (hours + 11) % 12 + 1
  }

  /** `hours >= 12 ? 'pm' : 'am'`. */
  function Suffix(hours: nat): (s: string)
    ensures s == "am" <==> hours < 12
    ensures s == "am" || s == "pm"
  {
    if hours >= 12 then "pm" else "am"
  }

  /**
   * Reads `h:mmam` or `h:mmpm` back into a 24-hour time: an hour of 1..12,
   * two minute digits below 60 and the suffix; None for anything else.
   */
  function ParseClock(t: string): Option<LocalTime>
  {
    if |t| < 2 then None
    else
      var suffix := t[|t| - 2..];
      var parts := Split(t[..|t| - 2], ':');
      if (suffix == "am" || suffix == "pm") && |parts| == 2
         && parts[0] != [] && AllDigits(parts[0]) && |parts[1]| == 2 && AllDigits(parts[1])
      then
        var h := ParseNat(parts[0]);
        var m := ParseNat(parts[1]);
        if 1 <= h <= 12 && m < 60 then Some(LocalTime(h % 12 + (if suffix == "pm" then 12 else 0), m))
        else None
      else None
  }

  /**
   * The clock text both screens produce, read back, gives the time it was
   * made from: hour, minutes and the suffix together lose nothing.
   */
  lemma {:induction false} ParseClockText(t: LocalTime, hour: string, minutes: string, suffix: string)
    requires ValidTime(t)
    requires hour == NatToString(TwelveHour(t.hours))
    requires minutes == TwoDigits(t.minutes)
    requires suffix == Suffix(t.hours)
    ensures ParseClock(hour + ":" + minutes + suffix) == Some(t)
  {
    var text := hour + ":" + minutes + suffix;
    var body := hour + ":" + minutes;
    assert text[..|text| - 2] == body;
    assert text[|text| - 2..] == suffix;
    assert body == Join([hour, minutes], ':') by {
      assert [hour, minutes][1..] == [minutes];
    }
    assert ':' !in hour && ':' !in minutes by {
      assert forall i :: 0 <= i < |hour| ==> IsDigit(hour[i]);
      assert forall i :: 0 <= i < |minutes| ==> IsDigit(minutes[i]);
    }
    SplitJoin([hour, minutes], ':');
    ParseNatString(TwelveHour(t.hours));
  }

  /** The text after `<datePart> at ` in the result of `formatDatetime`. */
  predicate ShowsTime(r: string, datePart: string, t: LocalTime)
  {
    && |r| >= |datePart| + 4
    && r[..|datePart| + 4] == datePart + " at "
    && ParseClock(r[|datePart| + 4..]) == Some(t)
  }
}
