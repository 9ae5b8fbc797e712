/**
 * The passenger sign-up screen (app/signup.jsx): one validator per field,
 * each giving an error message or '' for a valid value; the per-field error
 * map the input handlers keep; and the gate that decides whether the sign-up
 * request is sent.
 */
module Signup {
  import opened Common

  const UsernameTooShort: string := "Must be at least 8 characters"
  const UsernameBadChars: string := "Must contain only small letters and numbers (no special characters)"
  const UsernameTaken: string := "Username is already taken"
  const UsernameCheckFailed: string := "Error checking username, try again later"
  const NameNotCapitalized: string := "Each word should start with a capital letter"
  const MiddleInitialInvalid: string := "Must be a single capital letter"
  const AgeInvalid: string := "Must be a number between 1 and 120"
  const GenderInvalid: string := "Must be Male, Female, or Other"
  const PhoneInvalid: string := "Must be exactly 11 digits"
  const MpinInvalid: string := "Must be exactly 4 digits"

  // ---------------------------------------------------------------------
  // Username

  /** `[a-z0-9]` */
  predicate UsernameChar(c: char)
  {
    IsLower(c) || IsDigit(c)
  }

  /**
   * `validateUsernameImmediate`: no error for the empty value; otherwise the
   * length rule is reported before the character rule.
   */
  function UsernameError(value: string): (e: string)
    ensures e == "" <==> value == [] || (|value| >= 8 && forall i :: 0 <= i < |value| ==> UsernameChar(value[i]))
    ensures 0 < |value| < 8 ==> e == UsernameTooShort
    ensures e in {"", UsernameTooShort, UsernameBadChars}
  {
    if value == [] then ""
    else if |value| < 8 then UsernameTooShort
    else if !(forall i :: 0 <= i < |value| ==> UsernameChar(value[i])) then UsernameBadChars
    else ""
  }

  // ---------------------------------------------------------------------
  // Names: `capitalizeWords`

  /** `word.charAt(0).toUpperCase() + word.slice(1).toLowerCase()` */
  function CapitalizeWord(w: string): (r: string)
    ensures |r| == |w|
    ensures forall i :: 0 <= i < |w| ==> (r[i] == ' ' <==> w[i] == ' ')
  {
    if w == [] then [] else [UpperChar(w[0])] + ToLower(w[1..])
  }

  function CapitalizeAll(words: seq<string>): (rs: seq<string>)
    ensures |rs| == |words|
    ensures forall i :: 0 <= i < |words| ==> rs[i] == CapitalizeWord(words[i])
  {
    seq(|words|, i requires 0 <= i < |words| => CapitalizeWord(words[i]))
  }

  /** `capitalizeWords`: split on ' ', capitalize every word, join with ' '. */
  function CapitalizeWords(s: string): string
  {
    Join(CapitalizeAll(Split(s, ' ')), ' ')
  }

  /** A capitalized word: its first character is not a small letter, and no other character is a capital. */
  predicate WordCapitalized(w: string)
  {
    w == [] || (!IsLower(w[0]) && forall i :: 1 <= i < |w| ==> !IsUpper(w[i]))
  }

  /** A word is left as it is by `CapitalizeWord` exactly when it is capitalized. */
  lemma CapitalizeWordFixed(w: string)
    ensures WordCapitalized(CapitalizeWord(w))
    ensures CapitalizeWord(w) == w <==> WordCapitalized(w)
  {
    if w != [] {
      var r := CapitalizeWord(w);
      if WordCapitalized(w) {
        assert forall i :: 1 <= i < |w| ==> r[i] == LowerChar(w[i]) == w[i];
      }
    }
  }

  lemma CapitalizeAllFixed(words: seq<string>)
    requires forall w :: w in words ==> WordCapitalized(w)
    ensures CapitalizeAll(words) == words
  {
    forall i | 0 <= i < |words| ensures CapitalizeAll(words)[i] == words[i] {
      CapitalizeWordFixed(words[i]);
    }
  }

  lemma CapitalizedWordsHaveNoSpace(s: string)
    ensures forall w :: w in CapitalizeAll(Split(s, ' ')) ==> ' ' !in w
  {
    var ws := Split(s, ' ');
    var cs := CapitalizeAll(ws);
    forall w | w in cs ensures ' ' !in w {
      var i :| 0 <= i < |cs| && cs[i] == w;
      assert ' ' !in ws[i];
      assert forall k :: 0 <= k < |ws[i]| ==> ws[i][k] != ' ';
    }
  }

  /** Splitting the capitalized name gives back the capitalized words. */
  lemma SplitCapitalizeWords(s: string)
    ensures Split(CapitalizeWords(s), ' ') == CapitalizeAll(Split(s, ' '))
  {
    CapitalizedWordsHaveNoSpace(s);
    SplitJoin(CapitalizeAll(Split(s, ' ')), ' ');
  }

  /** `capitalizeWords` is idempotent. */
  lemma CapitalizeWordsIdempotent(s: string)
    ensures CapitalizeWords(CapitalizeWords(s)) == CapitalizeWords(s)
  {
    var cs := CapitalizeAll(Split(s, ' '));
    SplitCapitalizeWords(s);
    forall w | w in cs ensures WordCapitalized(w) {
      var i :| 0 <= i < |cs| && cs[i] == w;
      CapitalizeWordFixed(Split(s, ' ')[i]);
    }
    CapitalizeAllFixed(cs);
  }

  /** `validateSurname` and `validateFirstname`: the value must equal its own capitalization. */
  function NameError(value: string): (e: string)
    ensures e == "" <==> value == CapitalizeWords(value)
    ensures e in {"", NameNotCapitalized}
  {
    if value == CapitalizeWords(value) then "" else NameNotCapitalized
  }

  /** Whatever `capitalizeWords` produces passes the name validators. */
  lemma CapitalizedNameAccepted(s: string)
    ensures NameError(CapitalizeWords(s)) == ""
  {
    CapitalizeWordsIdempotent(s);
  }

  /** A name is accepted exactly when every space-separated word of it is capitalized. */
  lemma NameAcceptedIff(value: string)
    ensures NameError(value) == "" <==> forall w :: w in Split(value, ' ') ==> WordCapitalized(w)
  {
    var ws := Split(value, ' ');
    if forall w :: w in ws ==> WordCapitalized(w) {
      CapitalizeAllFixed(ws);
      JoinSplit(value, ' ');
    }
    if NameError(value) == "" {
      SplitCapitalizeWords(value);
      var cs := CapitalizeAll(ws);
      assert ws == cs;
      forall w | w in ws ensures WordCapitalized(w) {
        var i :| 0 <= i < |ws| && ws[i] == w;
        CapitalizeWordFixed(ws[i]);
      }
    }
  }

  // ---------------------------------------------------------------------
  // The other fields

  /** `/^[A-Z]?$/`: empty, or a single capital letter. */
  function MiddleInitialError(value: string): (e: string)
    ensures e == "" <==> |value| == 0 || (|value| == 1 && 'A' <= value[0] <= 'Z')
  {
    if value == [] || (|value| == 1 && IsUpper(value[0])) then "" else MiddleInitialInvalid
  }

  /** `/^\d*$/.test(value) && num >= 1 && num <= 120` with `num = parseInt(value, 10)`; NaN fails both comparisons. */
  function AgeError(value: string): (e: string)
    ensures e in {"", AgeInvalid}
  {
    var num := ParseInt(value);
    if AllDigits(value) && num.Some? && 1 <= num.value <= 120 then "" else AgeInvalid
  }

  /** `parseInt` of a non-empty digit string is its decimal value. */
  lemma ParseIntOfDigits(value: string)
    requires value != [] && AllDigits(value)
    ensures ParseInt(value) == Some(ParseNat(value) as int)
  {
    assert !IsWhitespace(value[0]);
    assert TrimStart(value) == value;
    DigitRunAll(value);
  }

  /**
   * The age is accepted exactly when it is a non-empty digit string whose value
   * is 1..120; leading zeros are allowed and the empty string is refused.
   */
  lemma AgeAcceptedIff(value: string)
    ensures AgeError(value) == "" <==> value != [] && AllDigits(value) && 1 <= ParseNat(value) <= 120
  {
    if value != [] && AllDigits(value) {
      ParseIntOfDigits(value);
    }
  }

  /** Leading zeros are accepted. */
  lemma AgeLeadingZeros()
    ensures AgeError("007") == ""
  {
    assert ParseNat("00") == 0 by { assert "00"[..1] == "0"; }
    assert ParseNat("007") == 7 by { assert "007"[..2] == "00"; }
    AgeAcceptedIff("007");
  }

  /** 0, 121 and the empty string are refused. */
  lemma AgeOutOfRange()
    ensures AgeError("121") == AgeInvalid
    ensures AgeError("0") == AgeInvalid
    ensures AgeError("") == AgeInvalid
  {
    assert ParseNat("12") == 12 by { assert "12"[..1] == "1"; }
    assert ParseNat("121") == 121 by { assert "121"[..2] == "12"; }
    AgeAcceptedIff("121");
    AgeAcceptedIff("0");
    AgeAcceptedIff("");
  }

  const ValidGenders: seq<string> := ["male", "female", "other"]

  /** `validGenders.includes(value.toLowerCase())` */
  function GenderError(value: string): (e: string)
    ensures e == "" <==> ToLower(value) in ValidGenders
  {
    if ToLower(value) in ValidGenders then "" else GenderInvalid
  }

  /** The gender check ignores letter case. */
  lemma GenderIgnoresCase(value: string)
    ensures GenderError(ToUpper(value)) == GenderError(value)
    ensures GenderError(ToLower(value)) == GenderError(value)
  {
    ToLowerOfUpper(value);
    ToLowerIdempotent(value);
  }

  /** `/^\d{11}$/` */
  function PhoneError(value: string): (e: string)
    ensures e == "" <==> |value| == 11 && forall i :: 0 <= i < |value| ==> '0' <= value[i] <= '9'
  {
    if |value| == 11 && AllDigits(value) then "" else PhoneInvalid
  }

  /** `/^\d{4}$/` */
  function MpinError(value: string): (e: string)
    ensures e == "" <==> |value| == 4 && forall i :: 0 <= i < |value| ==> '0' <= value[i] <= '9'
  {
    if |value| == 4 && AllDigits(value) then "" else MpinInvalid
  }

  // ---------------------------------------------------------------------
  // The form

  /** The keys of `errors`, which are also the names of the fields. */
  datatype Field = Surname | Firstname | MiddleInitial | Age | Gender | PhoneNumber | Username | Mpin

  /** The `switch` of `handleInputChange`: the field's validator; '' for a field it has no case for. */
  function FieldError(field: Field, value: string): string
  {
    match field
    case Surname => NameError(value)
    case Firstname => NameError(value)
    case MiddleInitial => MiddleInitialError(value)
    case Age => AgeError(value)
    case Gender => GenderError(value)
    case PhoneNumber => PhoneError(value)
    case Mpin => MpinError(value)
    case Username => ""
  }

  /** The answer of the duplicate-username request. */
  datatype UsernameCheck = Answered(taken: bool) | RequestFailed

  function UsernameCheckError(answer: UsernameCheck): (e: string)
    ensures e == "" <==> answer == Answered(false)
  {
    match answer
    case Answered(taken) => if taken then UsernameTaken else ""
    case RequestFailed => UsernameCheckFailed
  }

  /** What `handleSignup` posts; the MPIN travels as `password` and `confirmPassword`. */
  datatype SignupBody = SignupBody(
    surname: string, firstname: string, middleinitial: string, age: string, gender: string,
    phonenumber: string, username: string, password: string, confirmPassword: string)

  /** The screen's state: the field values, the confirmation MPIN and the error map. */
  class SignupForm {
    var values: map<Field, string>
    var confirmMpin: string
    var errors: map<Field, string>

    /** A field's value; every field starts as ''. */
    function Value(f: Field): string
      reads this
    {
      if f in values then values[f] else ""
    }

    /** `errors[f]`; a missing entry is `undefined`, which counts as no error. */
    function ErrorOf(f: Field): string
      reads this
    {
      if f in errors then errors[f] else ""
    }

    /**
     * The error map agrees with the values: every field other than the
     * username that holds an error entry holds its validator's verdict on the
     * current value, and a field that has been typed into has an entry.
     */
    ghost predicate Tracked()
      reads this
    {
      forall f :: f != Username ==>
        (f in errors ==> errors[f] == FieldError(f, Value(f))) && (Value(f) != "" ==> f in errors)
    }

    constructor ()
      ensures forall f :: Value(f) == "" && ErrorOf(f) == ""
      ensures confirmMpin == ""
      ensures Tracked()
    {
      values := map[];
      confirmMpin := "";
      errors := map[];
    }

    /** `handleInputChange(field, value, setter)` */
    method HandleInputChange(field: Field, value: string)
      modifies this
      ensures values == old(values)[field := value] && confirmMpin == old(confirmMpin)
      ensures errors == old(errors)[field := FieldError(field, value)]
      ensures forall f :: f != field ==> ErrorOf(f) == old(ErrorOf(f))
      ensures old(Tracked()) ==> Tracked()
    {
      values := values[field := value];
      var error := "";
      match field {
        case Surname => error := NameError(value);
        case Firstname => error := NameError(value);
        case MiddleInitial => error := MiddleInitialError(value);
        case Age => error := AgeError(value);
        case Gender => error := GenderError(value);
        case PhoneNumber => error := PhoneError(value);
        case Mpin => error := MpinError(value);
        case Username =>
      }
      errors := errors[field := error];
    }

    /** `handleUsernameChange(value)` */
    method HandleUsernameChange(value: string)
      modifies this
      ensures values == old(values)[Username := value] && confirmMpin == old(confirmMpin)
      ensures errors == old(errors)[Username := UsernameError(value)]
      ensures old(Tracked()) ==> Tracked()
    {
      values := values[Username := value];
      errors := errors[Username := UsernameError(value)];
    }

    /** `setConfirmMpin(value)`: the confirmation has no validator. */
    method SetConfirmMpin(value: string)
      modifies this
      ensures values == old(values) && errors == old(errors) && confirmMpin == value
      ensures old(Tracked()) ==> Tracked()
    {
      confirmMpin := value;
    }

    /**
     * `handleUsernameBlur`: the duplicate check is requested exactly for a
     * username of at least 8 small letters and digits.
     */
    function NeedsUsernameCheck(): (b: bool)
      reads this
      ensures b <==> |Value(Username)| >= 8 && forall i :: 0 <= i < |Value(Username)| ==> UsernameChar(Value(Username)[i])
    {
      Value(Username) != "" && UsernameError(Value(Username)) == ""
    }

    /** The answer of the duplicate check replaces the username's error entry and nothing else. */
    method OnUsernameChecked(answer: UsernameCheck)
      modifies this
      ensures values == old(values) && confirmMpin == old(confirmMpin)
      ensures errors == old(errors)[Username := UsernameCheckError(answer)]
      ensures old(Tracked()) ==> Tracked()
    {
      errors := errors[Username := UsernameCheckError(answer)];
    }

    /** `isFormValid`: no error entry, every field filled in, and the MPIN confirmed. */
    predicate IsFormValid()
      reads this
    {
      (forall f :: ErrorOf(f) == "" && Value(f) != "") && Value(Mpin) == confirmMpin
    }

    /** `handleSignup`: the request body, or None for the alert. */
    method HandleSignup() returns (body: Option<SignupBody>)
      ensures body.Some? <==> IsFormValid()
      ensures body.Some? ==> body.value.password == body.value.confirmPassword == Value(Mpin)
      ensures body.Some? ==> body.value == SignupBody(Value(Surname), Value(Firstname), Value(MiddleInitial),
        Value(Age), Value(Gender), Value(PhoneNumber), Value(Username), Value(Mpin), confirmMpin)
    {
      if !IsFormValid() {
        return None;
      }
      body := Some(SignupBody(Value(Surname), Value(Firstname), Value(MiddleInitial),
        Value(Age), Value(Gender), Value(PhoneNumber), Value(Username), Value(Mpin), confirmMpin));
    }
  }

  /**
   * When the error map agrees with the values, a form that passes
   * `isFormValid` holds values that pass their validators: capitalized names,
   * an age of 1..120, 11 phone digits and a confirmed 4-digit MPIN.
   */
  lemma ValidFormPassesValidators(form: SignupForm)
    requires form.Tracked() && form.IsFormValid()
    ensures forall f :: f != Username ==> FieldError(f, form.Value(f)) == ""
    ensures form.Value(Surname) == CapitalizeWords(form.Value(Surname))
    ensures form.Value(Firstname) == CapitalizeWords(form.Value(Firstname))
    ensures 1 <= ParseNat(form.Value(Age)) <= 120 && AllDigits(form.Value(Age))
    ensures |form.confirmMpin| == 4 && AllDigits(form.confirmMpin)
    ensures |form.Value(PhoneNumber)| == 11 && AllDigits(form.Value(PhoneNumber))
  {
    forall f | f != Username ensures FieldError(f, form.Value(f)) == "" {
      assert form.ErrorOf(f) == "" && form.Value(f) != "";
    }
    assert FieldError(Surname, form.Value(Surname)) == "";
    assert FieldError(Firstname, form.Value(Firstname)) == "";
    assert FieldError(PhoneNumber, form.Value(PhoneNumber)) == "";
    assert FieldError(Mpin, form.Value(Mpin)) == "";
    assert FieldError(Age, form.Value(Age)) == "";
    AgeAcceptedIff(form.Value(Age));
  }
}
