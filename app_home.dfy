/**
 * The clock part of the app home screen's `formatDatetime`
 * (app/home.jsx). Parsing the ISO-like text into a local `Date` and the
 * `Intl.DateTimeFormat` date part are inputs: `parseLocal` stands for
 * `new Date(...)` read back through `getHours`/`getMinutes`, with None for
 * an invalid date, and `datePart` for the formatted month, day and year.
 */
module AppHome {
  import opened Common
  import opened Clock

  /**
   * `formatDatetime`: the first space of the text becomes 'T' before it is
   * parsed; an invalid date makes the date formatter throw (None); otherwise
   * the result is the date part, " at ", and the 12-hour clock text that
   * reads back as the parsed hours and minutes. The hour is reduced modulo
   * 12 and then replaced by 12 when it is 0.
   */
  method FormatDatetime(datetimeStr: string, parseLocal: string -> Option<LocalTime>, datePart: string)
      returns (r: Option<string>)
    requires parseLocal(IsoText(datetimeStr)).Some? ==> ValidTime(parseLocal(IsoText(datetimeStr)).value)
    ensures r.None? <==> parseLocal(IsoText(datetimeStr)).None?
    ensures r.Some? ==> ShowsTime(r.value, datePart, parseLocal(IsoText(datetimeStr)).value)
  {
    var date := parseLocal(IsoText(datetimeStr));
    if date.None? {
      return None;
    }
    var hours := date.value.hours;
    var minutes := date.value.minutes;
    var ampm := if hours >= 12 then "pm" else "am";
    hours := hours % 12;
    if hours == 0 {
      hours := 12;
    }
    var minutesFormatted := if minutes < 10 then "0" + NatToString(minutes) else NatToString(minutes);
    assert hours == TwelveHour(date.value.hours);
    assert minutesFormatted == TwoDigits(minutes);
    var clock := NatToString(hours) + ":" + minutesFormatted + ampm;
    ParseClockText(date.value, NatToString(hours), minutesFormatted, ampm);
    var text := datePart + " at " + clock;
    assert text[|datePart| + 4..] == clock;
    r := Some(text);
  }
}
