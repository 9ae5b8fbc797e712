/**
 * The kiosk's custom-amount keypad (web/src/pages/CustomAmount.jsx): a text
 * buffer edited by twelve buttons, and the test that decides whether the
 * typed amount is passed on.
 */
module CustomAmount {
  import opened Common

  /** The twelve keypad buttons, in screen order. */
  const KeypadButtons: seq<char> := ['1', '2', '3', '4', '5', '6', '7', '8', '9', '.', '0', '<']

  const Backspace: char := '<'
  const Point: char := '.'

  /** What the keypad can produce: digits and at most one decimal point. */
  predicate KeypadBuffer(buffer: string)
  {
    && (forall i :: 0 <= i < |buffer| ==> IsDigit(buffer[i]) || buffer[i] == Point)
    && (forall i, j :: 0 <= i < |buffer| && 0 <= j < |buffer| && buffer[i] == Point && buffer[j] == Point ==> i == j)
  }

  /**
   * `handleKeypadClick(value)`: backspace drops the last character (nothing
   * on an empty buffer), the point is appended only when the buffer has
   * none, and any other button is appended.
   */
  function Pressed(buffer: string, value: char): (r: string)
    ensures value == Backspace ==> r <= buffer && |r| == if buffer == [] then 0 else |buffer| - 1
    ensures value == Point ==> r == if Point in buffer then buffer else buffer + [Point]
    ensures value != Backspace && value != Point ==> |r| == |buffer| + 1 && r[..|buffer|] == buffer && r[|buffer|] == value
  {
    if value == Backspace then
      if buffer == [] then buffer else buffer[..|buffer| - 1]
    else if value == Point then
      if Point !in buffer then buffer + [value] else buffer
    else
      buffer + [value]
  }

  /** Whatever keypad buttons are pressed, the buffer stays digits with at most one point. */
  lemma PressedKeepsKeypadBuffer(buffer: string, value: char)
    requires KeypadBuffer(buffer) && value in KeypadButtons
    ensures KeypadBuffer(Pressed(buffer, value))
  {
    var r := Pressed(buffer, value);
    if value == Point && Point !in buffer {
      assert forall i :: 0 <= i < |buffer| ==> r[i] == buffer[i];
    }
  }

  function PressAll(buffer: string, values: seq<char>): string
    decreases |values|
  {
    if values == [] then buffer else PressAll(Pressed(buffer, values[0]), values[1..])
  }

  /** Any sequence of button presses, starting from the empty buffer, yields a keypad buffer. */
  lemma {:induction false} PressAllKeepsKeypadBuffer(buffer: string, values: seq<char>)
    requires KeypadBuffer(buffer)
    requires forall k :: 0 <= k < |values| ==> values[k] in KeypadButtons
    ensures KeypadBuffer(PressAll(buffer, values))
    decreases |values|
  {
    if values != [] {
      PressedKeepsKeypadBuffer(buffer, values[0]);
      PressAllKeepsKeypadBuffer(Pressed(buffer, values[0]), values[1..]);
    }
  }

  /**
   * `handleSubmit`: the amount passed to `onNext`, or None for the alert.
   * The buffer must be non-empty and `parseFloat` of it must be above 0.
   */
  function Submit(buffer: string): (amount: Option<Decimal>)
    ensures buffer == [] ==> amount.None?
    ensures amount.Some? ==> amount.value.IsPositive() && ParseFloat(buffer) == amount
  {
    if buffer != [] && ParseFloat(buffer).Some? && ParseFloat(buffer).value.IsPositive() then
      ParseFloat(buffer)
    else
      None
  }

  /** Where the decimal point is, or the length when there is none. */
  function PointIndex(buffer: string): (p: nat)
    ensures p <= |buffer|
    ensures p < |buffer| ==> buffer[p] == Point
    ensures forall i :: 0 <= i < p ==> buffer[i] != Point
  {
    if buffer == [] || buffer[0] == Point then 0 else 1 + PointIndex(buffer[1..])
  }

  /** The digits of a keypad buffer with its point left out, in order. */
  function Digits(buffer: string): string
  {
    var p := PointIndex(buffer);
    buffer[..p] + if p < |buffer| then buffer[p + 1..] else []
  }

  /** `parseFloat` of a keypad buffer reads all its digits as one mantissa. */
  lemma ParseKeypadBuffer(buffer: string)
    requires KeypadBuffer(buffer)
    ensures AllDigits(Digits(buffer))
    ensures Digits(buffer) == [] ==> ParseFloat(buffer).None?
    ensures Digits(buffer) != [] ==>
      ParseFloat(buffer).Some? && ParseFloat(buffer).value.mantissa == ParseNat(Digits(buffer))
      && !ParseFloat(buffer).value.negative
  {
    var p := PointIndex(buffer);
    if buffer != [] {
      assert !IsWhitespace(buffer[0]);
    }
    assert TrimStart(buffer) == buffer;
    ParseFloatNoSign(buffer);
    DigitRunUpTo(buffer, p);
    if p < |buffer| {
      var fp := buffer[p + 1..];
      assert AllDigits(fp) by {
        forall i | 0 <= i < |fp| ensures IsDigit(fp[i]) {
          assert fp[i] == buffer[p + 1 + i];
        }
      }
      DigitRunAll(fp);
      assert buffer[p..][1..] == fp;
    }
  }

  /** Position k of the digits is position k of the buffer before the point, k + 1 after it. */
  lemma DigitsAt(buffer: string)
    ensures |Digits(buffer)| == if PointIndex(buffer) < |buffer| then |buffer| - 1 else |buffer|
    ensures forall k :: 0 <= k < |Digits(buffer)| ==>
      Digits(buffer)[k] == buffer[if k < PointIndex(buffer) then k else k + 1]
  {
  }

  /** A keypad buffer and its digits hold the same non-zero digits. */
  lemma DigitsNonZero(buffer: string)
    requires KeypadBuffer(buffer)
    ensures (exists i :: 0 <= i < |buffer| && '1' <= buffer[i] <= '9')
        <==> (exists k :: 0 <= k < |Digits(buffer)| && Digits(buffer)[k] != '0')
  {
    var p := PointIndex(buffer);
    var d := Digits(buffer);
    DigitsAt(buffer);
    if i :| 0 <= i < |buffer| && '1' <= buffer[i] <= '9' {
      var k := if i < p then i else i - 1;
      assert d[k] == buffer[i];
    }
    if k :| 0 <= k < |d| && d[k] != '0' {
      var i := if k < p then k else k + 1;
      assert d[k] == buffer[i];
    }
  }

  /**
   * A keypad buffer is accepted exactly when one of its digits is not 0:
   * "0", "0.", "." and "" are all refused.
   */
  lemma SubmitAcceptsIff(buffer: string)
    requires KeypadBuffer(buffer)
    ensures Submit(buffer).Some? <==> exists i :: 0 <= i < |buffer| && '1' <= buffer[i] <= '9'
  {
    ParseKeypadBuffer(buffer);
    DigitsNonZero(buffer);
    if Digits(buffer) != [] {
      ParseNatPositive(Digits(buffer));
    }
  }

  lemma ZeroAndPointRefused()
    ensures Submit("0").None? && Submit("0.").None? && Submit(".").None? && Submit("").None?
  {
    SubmitAcceptsIff("0");
    SubmitAcceptsIff("0.");
    SubmitAcceptsIff(".");
  }

  /** The component: the `customAmount` buffer edited by the keypad. */
  class AmountKeypad {
    var customAmount: string

    constructor ()
      ensures customAmount == []
    {
      customAmount := [];
    }

    /** `handleKeypadClick`: the buffer becomes `Pressed` of the old one, and stays a keypad buffer. */
    method HandleKeypadClick(value: char)
      modifies this
      ensures customAmount == Pressed(old(customAmount), value)
      ensures old(KeypadBuffer(customAmount)) && value in KeypadButtons ==> KeypadBuffer(customAmount)
    {
      if value in KeypadButtons && KeypadBuffer(customAmount) {
        PressedKeepsKeypadBuffer(customAmount, value);
      }
      if value == Backspace {
        if |customAmount| > 0 {
          customAmount := customAmount[..|customAmount| - 1];
        }
      } else if value == Point {
        if Point !in customAmount {
          customAmount := customAmount + [value];
        }
      } else {
        customAmount := customAmount + [value];
      }
    }
  }
}
