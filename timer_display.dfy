/**
 * The kiosk's countdown badge (web/src/config.jsx): the idle timeout setting
 * and `TimerDisplay`, which renders the seconds left as `m:ss`, marks the
 * badge `expired` at 0 and renders nothing when it is switched off.
 */
module TimerDisplay {
  import opened Common

  /** `configSettings`: the idle timeout in milliseconds, and whether timers are shown. */
  const IdleTimeoutMs: nat := 60000
  const ShowTimers: bool := true

  /** The countdown starts at `idleTimeout / 1000` seconds. */
  const IdleTimeoutSeconds: nat := IdleTimeoutMs / 1000

  const ClassPrefix: string := "timer-container-"
  const ExpiredClass: string := "expired"

  /**
   * `formatTime`: whole minutes, a colon, and the remaining seconds as two
   * digits. Read back, the two fields give minutes * 60 + seconds = timeLeft
   * with the seconds below 60.
   */
  function FormatTime(timeLeft: nat): (s: string)
    ensures |s| >= 4 && s[|s| - 3] == ':'
    ensures AllDigits(s[..|s| - 3]) && AllDigits(s[|s| - 2..])
    ensures ParseNat(s[|s| - 2..]) < 60
    ensures ParseNat(s[..|s| - 3]) * 60 + ParseNat(s[|s| - 2..]) == timeLeft
  {
    var minutes := timeLeft / 60;
    var seconds := timeLeft % 60;
    var s := NatToString(minutes) + ":" + TwoDigits(seconds);
    ParseNatString(minutes);
    assert s[..|s| - 3] == NatToString(minutes);
    assert s[|s| - 2..] == TwoDigits(seconds);
    s
  }

  /** Reads an `m:ss` string back into seconds; None for anything else. */
  function ParseTime(s: string): Option<nat>
  {
    var parts := Split(s, ':');
    if |parts| == 2 && parts[0] != [] && AllDigits(parts[0]) && |parts[1]| == 2 && AllDigits(parts[1])
       && ParseNat(parts[1]) < 60
    then Some(ParseNat(parts[0]) * 60 + ParseNat(parts[1]))
    else None
  }

  /** Round trip: the formatted countdown reads back as the number of seconds. */
  lemma ParseFormatTime(timeLeft: nat)
    ensures ParseTime(FormatTime(timeLeft)) == Some(timeLeft)
  {
    var s := FormatTime(timeLeft);
    var m := s[..|s| - 3];
    var sec := s[|s| - 2..];
    assert s == Join([m, sec], ':') by {
      assert [m, sec][1..] == [sec];
    }
    assert ':' !in m && ':' !in sec by {
      assert forall i :: 0 <= i < |m| ==> IsDigit(m[i]);
      assert forall i :: 0 <= i < |sec| ==> IsDigit(sec[i]);
    }
    SplitJoin([m, sec], ':');
  }

  lemma FormatTimeExamples()
    ensures FormatTime(0) == "0:00"
    ensures FormatTime(IdleTimeoutSeconds) == "1:00"
    ensures FormatTime(75) == "1:15"
  {
    assert NatToString(15) == "15";
  }

  /** `getTopOffset`: 0px when the badge is hidden, 10px when it is shown. */
  function TopOffset(isVisible: bool): string
  {
    if !isVisible then "0px" else "10px"
  }

  /** The class list of the badge: `timer-container-<type>` and `expired` when the time is up. */
  function ClassName(timerType: string, timeLeft: nat): string
  {
    ClassPrefix + timerType + " " + (if timeLeft == 0 then ExpiredClass else "")
  }

  /** The badge carries the `expired` class exactly when no time is left (for a timer type without spaces). */
  lemma ExpiredExactlyAtZero(timerType: string, timeLeft: nat)
    requires ' ' !in timerType
    ensures ExpiredClass in Split(ClassName(timerType, timeLeft), ' ') <==> timeLeft == 0
  {
    var first := ClassPrefix + timerType;
    var last := if timeLeft == 0 then ExpiredClass else "";
    assert ClassName(timerType, timeLeft) == Join([first, last], ' ') by {
      assert [first, last][1..] == [last];
    }
    assert ' ' !in first by {
      assert forall i :: 0 <= i < |ClassPrefix| ==> first[i] == ClassPrefix[i];
      assert forall i :: 0 <= i < |timerType| ==> first[|ClassPrefix| + i] == timerType[i];
    }
    SplitJoin([first, last], ' ');
    assert first != ExpiredClass by {
      assert first[0] == 't';
    }
  }

  /** What `TimerDisplay` renders when it renders anything. */
  datatype Badge = Badge(top: string, className: string, text: string)

  /**
   * `TimerDisplay`: nothing when not visible; otherwise the badge placed at
   * 10px, classed by its type and marked `expired` exactly when no time is
   * left, whose text is the label, ": " and a time that reads back as the
   * seconds left.
   */
  function Render(timeLeft: nat, labelText: string, isVisible: bool, timerType: string): (r: Option<Badge>)
    ensures r.Some? <==> isVisible
    ensures r.Some? ==> r.value.top == TopOffset(isVisible) == "10px"
    ensures r.Some? ==> r.value.className == ClassName(timerType, timeLeft)
    ensures r.Some? ==> r.value.text == labelText + ": " + FormatTime(timeLeft)
    ensures r.Some? ==>
      && r.value.text[..|labelText| + 2] == labelText + ": "
      && ParseTime(r.value.text[|labelText| + 2..]) == Some(timeLeft)
    ensures r.Some? && ' ' !in timerType ==> (ExpiredClass in Split(r.value.className, ' ') <==> timeLeft == 0)
  {
    if isVisible then
      var text := labelText + ": " + FormatTime(timeLeft);
      assert text[|labelText| + 2..] == FormatTime(timeLeft);
      ParseFormatTime(timeLeft);
      assert ' ' !in timerType ==> (ExpiredClass in Split(ClassName(timerType, timeLeft), ' ') <==> timeLeft == 0) by {
        if ' ' !in timerType {
          ExpiredExactlyAtZero(timerType, timeLeft);
        }
      }
      Some(Badge(TopOffset(isVisible), ClassName(timerType, timeLeft), text))
    else
      None
  }

  /** The idle badge the kiosk shows: visible, labelled "Idle Timeout", starting at 1:00, not expired. */
  lemma IdleBadgeAtStart()
    ensures Render(IdleTimeoutSeconds, "Idle Timeout", ShowTimers, "idle")
      == Some(Badge("10px", ClassName("idle", IdleTimeoutSeconds), "Idle Timeout: 1:00"))
    ensures ExpiredClass !in Split(ClassName("idle", IdleTimeoutSeconds), ' ')
  {
    FormatTimeExamples();
    var t := FormatTime(IdleTimeoutSeconds);
    assert t == "1:00";
    assert "Idle Timeout" + ": " + t == "Idle Timeout: 1:00";
    ExpiredExactlyAtZero("idle", IdleTimeoutSeconds);
  }
}
