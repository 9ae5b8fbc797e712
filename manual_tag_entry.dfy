/**
 * The kiosk's manual tag entry (web/src/pages/ManualTagEntry.jsx): the typed
 * tag ID is passed on trimmed, or refused with an alert when nothing but
 * whitespace was typed.
 */
module ManualTagEntry {
  import opened Common

  /**
   * `handleSubmit`: the tag ID given to `onNext`, or None for the alert.
   * Exactly whitespace-only input is refused. What is passed on is the input
   * with its leading and trailing whitespace cut off and nothing else: a
   * non-empty infix of the input with no whitespace at either end. The text
   * in the input field is a parameter and is left as it is.
   */
  function SubmitTag(tagId: string): (r: Option<string>)
    ensures r.None? <==> AllWhitespace(tagId)
    ensures r.Some? ==> r.value != [] && !IsWhitespace(r.value[0]) && !IsWhitespace(r.value[|r.value| - 1])
    ensures r.Some? ==> r.value == Trim(tagId)
  {
    TrimEmptyIff(tagId);
    TrimBounds(tagId);
    var t := Trim(tagId);
    if t != [] then Some(t) else None
  }

  /**
   * What is passed on is the input with its leading and trailing whitespace
   * cut off and nothing else: an infix of the input, with only whitespace
   * around it.
   */
  lemma SubmitTagInfix(tagId: string)
    ensures SubmitTag(tagId).Some? ==> TrimmedInfix(tagId, SubmitTag(tagId).value)
  {
    if SubmitTag(tagId).Some? {
      TrimInfix(tagId);
    }
  }

  /** Submitting again what was passed on passes on the same tag ID. */
  lemma SubmitTagIdempotent(tagId: string)
    ensures SubmitTag(tagId).Some? ==> SubmitTag(SubmitTag(tagId).value) == SubmitTag(tagId)
  {
    TrimIdempotent(tagId);
  }

  lemma SubmitTagExamples()
    ensures SubmitTag(" 04A1B2 ") == Some("04A1B2")
    ensures SubmitTag(" \t ").None? && SubmitTag("").None?
  {
    assert AllWhitespace(" \t ");
    var s := " 04A1B2 ";
    assert IsWhitespace(s[0]) && !IsWhitespace(s[1]);
    assert LeadingWhitespace(s[1..]) == 0;
    assert TrimStart(s) == s[1..];
    var u := s[1..];
    assert IsWhitespace(u[|u| - 1]) && !IsWhitespace(u[|u| - 2]);
    assert TrailingWhitespace(u[..|u| - 1]) == 0;
    assert TrimEnd(u) == u[..|u| - 1];
    assert u[..|u| - 1] == "04A1B2";
  }
}
