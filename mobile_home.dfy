/**
 * The mobile home screen (mobileapp/app/home.jsx): the clock part of
 * `formatDatetime`, the ten-entry cap on the transaction history, and the
 * role shown in the greeting. Parsing and the date part are inputs, as in
 * the app screen.
 */
module MobileHome {
  import opened Common
  import opened Clock

  /** `hours % 12 || 12`: a remainder of 0 is falsy, so it shows as 12. */
  function DisplayHour(hours: nat): (h: nat)
    ensures h == TwelveHour(hours)
  {
    var rem := hours % 12;
    if rem != 0 then rem else 12
  }

  /**
   * `formatDatetime`: the first space of the text becomes 'T' before it is
   * parsed; an invalid date makes the date formatter throw (None); otherwise
   * the date part, " at ", and the 12-hour clock text that reads back as the
   * parsed hours and minutes.
   */
  function FormatDatetime(datetimeStr: string, parseLocal: string -> Option<LocalTime>, datePart: string): (r: Option<string>)
    requires parseLocal(IsoText(datetimeStr)).Some? ==> ValidTime(parseLocal(IsoText(datetimeStr)).value)
    ensures r.None? <==> parseLocal(IsoText(datetimeStr)).None?
    ensures r.Some? ==> ShowsTime(r.value, datePart, parseLocal(IsoText(datetimeStr)).value)
  {
    match parseLocal(IsoText(datetimeStr))
    case None => None
    case Some(date) =>
      var ampm := if date.hours >= 12 then "pm" else "am";
      var minutesFormatted := if date.minutes < 10 then "0" + NatToString(date.minutes) else NatToString(date.minutes);
      var clock := NatToString(DisplayHour(date.hours)) + ":" + minutesFormatted + ampm;
      ParseClockText(date, NatToString(DisplayHour(date.hours)), minutesFormatted, ampm);
      var text := datePart + " at " + clock;
      assert text[|datePart| + 4..] == clock;
      Some(text)
  }

  /** `data.slice(0, 10)`: the first ten transactions, or all of them when there are fewer, in server order. */
  function LatestTransactions<T>(data: seq<T>): (r: seq<T>)
    ensures |r| == if |data| < 10 then |data| else 10
    ensures forall i :: 0 <= i < |r| ==> r[i] == data[i]
  {
    if |data| <= 10 then data else data[..10]
  }

  /** Keeping the first ten of an already capped list changes nothing. */
  lemma LatestTransactionsIdempotent<T>(data: seq<T>)
    ensures LatestTransactions(LatestTransactions(data)) == LatestTransactions(data)
  {
  }

  /** `data.role || 'Passenger'`: a missing or empty role becomes `Passenger`. */
  function RoleOrDefault(role: Option<string>): (r: string)
    ensures r != []
    ensures role.Some? && role.value != "" ==> r == role.value
  {
    if role.Some? && role.value != "" then role.value else "Passenger"
  }

  /**
   * The greeting's role: the first character upper-cased and the rest
   * unchanged; `Passenger` for an empty role.
   */
  function GreetingRole(role: string): (r: string)
    ensures role == "" ==> r == "Passenger"
    ensures role != "" ==> |r| == |role| && r[0] == UpperChar(role[0]) && r[1..] == role[1..]
  {
    if role != "" then [UpperChar(role[0])] + role[1..] else "Passenger"
  }

  /** Greeting a role twice capitalises nothing more: the greeting is idempotent. */
  lemma GreetingRoleIdempotent(role: string)
    ensures GreetingRole(GreetingRole(role)) == GreetingRole(role)
  {
    if role != "" {
      var r := GreetingRole(role);
      assert r[1..] == role[1..];
    }
  }

  /** The roles the backend sends are greeted with a capital letter. */
  lemma GreetingExamples()
    ensures GreetingRole(RoleOrDefault(Some("admin"))) == "Admin"
    ensures GreetingRole(RoleOrDefault(Some("inspector"))) == "Inspector"
    ensures GreetingRole(RoleOrDefault(None)) == "Passenger"
    ensures GreetingRole(RoleOrDefault(Some(""))) == "Passenger"
  {
  }
}
