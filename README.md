# Shuttlecav, modelled in Dafny

Shuttlecav is a shuttle fare system. It has three front ends:

- a kiosk web app (`web/`), where a passenger taps an RFID card and tops up a balance;
- an RFID reader script (`web/rfid_reader.py`), which prints the UID of every card held to the reader;
- two React Native apps (`app/`, `mobileapp/`) for passengers, inspectors, drivers and administrators.

This project models the logic of those front ends and proves what each part promises. It covers:

- the reader's poll loop;
- the kiosk's step wizard, amount keypad and manual tag entry;
- the idle-timer badge;
- the signup validators;
- the searches and groupings of the log screens;
- the role filter of the user manual;
- the fare editor and the mobile admin panel;
- the shuttle lists and add-shuttle forms;
- the inspector's scan log;
- the 12-hour clocks of the home screens.

Everything the code hands to another system is a parameter or an output of the model:

- the RFID driver's answers;
- every HTTP response;
- the NFC hook's tag;
- the clock.

Some parts of the code change state. Each of those becomes a `class` whose fields are that state. Its handlers are methods whose `modifies` clauses name the fields they may change. Pure helpers become functions, and the lemmas beside them state the properties.

Modules (one file each):

- `Common`: shared text and sequence helpers.
  - Case mapping is ASCII-only.
  - `trim` follows the ECMAScript whitespace set.
  - `split`/`join` work on one separator character.
  - The module also has decimal rendering and parsing, a `parseFloat` reading, `replace` of the first match, `find`, and the generic case-insensitive search.
- `Calendar`: the proleptic Gregorian calendar behind the JS `Date` operations that the activity log uses.
- `RfidReader`, `PaymentSteps`, `CustomAmount`, `ManualTagEntry`, `TimerDisplay`: the kiosk side.
- `Signup`, `ActivityLogs`, `UserManual`, `AdminPanel`, `FareRates`, `ShuttleList`, `ShuttleForm`, `Inspect`, `MobileInspect`, `TravelHistory`, `StartInspection`, `Clock`, `AppHome`, `MobileHome`: the apps.

Conventions:

- Amounts in the activity log are integer cents.
- A `parseFloat` result is a `Decimal` (sign, mantissa, scale).
- JavaScript truthiness is written out wherever the code relies on it. Examples: an id of 0 is falsy; `x || ''`; `parseFloat(x) || 0`.

## Model

| member | source | states |
|---|---|---|
| RfidReader.Pieces | web/rfid_reader.py:15 | one piece per UID byte, each the byte's decimal text |
| RfidReader.ParsePieces | web/rfid_reader.py:15 | a successful read-back gives one byte per piece |
| RfidReader.ParsePiecesOfUid | web/rfid_reader.py:15 | reading back the pieces of a UID gives the UID |
| RfidReader.PiecesHaveNoColon | web/rfid_reader.py:15 | no decimal piece contains ':' |
| RfidReader.TagIdRoundTrip | web/rfid_reader.py:15 | `ParseTagId` of `TagId(uid)` is uid: splitting the printed tag ID on ':' and reading each piece gives the UID bytes back |
| RfidReader.TagIdColons | web/rfid_reader.py:15 | `TagId` prints a UID of n > 0 bytes with n - 1 colons, and the empty UID as "" |
| RfidReader.Run | web/rfid_reader.py:7-21 | the loop, the interrupt handler and `finally` produce exactly the specified session trace |
| RfidReader.Poll | web/rfid_reader.py:10-17 | one pass waits, requests, and only on success runs anticollision and then, only on its success, prints the tag and sleeps |
| RfidReader.NoCleanupInLoop | web/rfid_reader.py:9-17 | no completed pass of the loop calls `cleanup()` |
| RfidReader.CleanupExactlyOnce | web/rfid_reader.py:18-21 | `cleanup()` runs exactly once, last, wherever the interrupt arrives |
| RfidReader.NoPromptInLoop | web/rfid_reader.py:9-17 | the loop never prints the prompt |
| RfidReader.NoPromptInTail | web/rfid_reader.py:9-21 | the interrupted pass and shutdown never print the prompt |
| RfidReader.PromptOnceFirst | web/rfid_reader.py:8 | the prompt is printed once, before the first driver call |
| RfidReader.CycleCounts | web/rfid_reader.py:10-17 | one pass prints and sleeps once when both driver calls succeed, otherwise neither; it calls `anticoll()` exactly when `request()` succeeded |
| RfidReader.LoopCounts | web/rfid_reader.py:9-17 | over all passes, detections, sleeps and `anticoll()` calls match the succeeding passes |
| RfidReader.DetectionsMatchSuccesses | web/rfid_reader.py:11-17 | detection lines and sleeps equal the passes where both `request()` and `anticoll()` succeeded; failures are silent |
| RfidReader.AnticollOnlyAfterRequest | web/rfid_reader.py:11-13 | `anticoll()` is called only after a successful `request()` |
| RfidReader.SessionDebounced | web/rfid_reader.py:16-17 | every detection line is followed at once by the 1.5 s sleep |
| RfidReader.ScenarioOneDetection | web/rfid_reader.py:7-21 | a failed request, a read of [4,130,22,9], then an interrupt give the prompt, one `4:130:22:9` line, the stop message and one cleanup |
| PaymentSteps.Next | web/src/pages/PaymentSteps.jsx:62-79 | step 1 moves to 2; a tag at step 2 is recorded and moves to 3; an amount at step 3 or 4 is recorded and moves to 5; a custom choice without an amount at step 3 moves to 4; the step never goes back; payment starts exactly at step 5 and changes nothing; an unmatched (step, data) changes nothing; validity is kept |
| PaymentSteps.PaymentRequest | web/src/pages/PaymentSteps.jsx:42-45 | a payment from a valid state carries the recorded tag and a non-zero amount |
| PaymentSteps.Apply | web/src/pages/PaymentSteps.jsx:22-33 | `handleNext` follows `Next`; success sets the success status, a failure the error prefix and the message, clearing the error sets no status, and none of these touches step, tag or amount; the success timer resets to the initial state; an idle tick at 0 resets and any other tick keeps the state; validity is kept |
| PaymentSteps.ReplayValid | web/src/pages/PaymentSteps.jsx:22-79 | any event sequence from a valid state ends in a valid state |
| PaymentSteps.Reachable | web/src/pages/PaymentSteps.jsx:11-14 | every state reachable from the initial state is valid: step 1..5, tag from step 3, amount at step 5 |
| PaymentSteps.AmountBeforeCustom | web/src/pages/PaymentSteps.jsx:68-72 | at step 3 an amount wins over `custom` and jumps to step 5 |
| PaymentSteps.ManualEntryStays | web/src/pages/PaymentSteps.jsx:65 | at the scan step `{manualEntry: true}` changes nothing and starts no payment |
| PaymentSteps.CustomAmountWalk | web/src/pages/PaymentSteps.jsx:62-79 | idle, tag, custom, amount, confirm starts payment with that tag and amount |
| PaymentSteps.Kiosk.constructor | web/src/pages/PaymentSteps.jsx:11-14 | starts at step 1 with nothing recorded |
| PaymentSteps.Kiosk.ResetState | web/src/pages/PaymentSteps.jsx:28-33 | back to the initial state |
| PaymentSteps.Kiosk.HandleNext | web/src/pages/PaymentSteps.jsx:62-79 | the new state and the payment flag are those of `Next` |
| PaymentSteps.Kiosk.OnPaymentResponse | web/src/pages/PaymentSteps.jsx:50-58 | success or the error message sets the status as `Apply` says |
| PaymentSteps.Kiosk.ClearStatus | web/src/pages/PaymentSteps.jsx:58 | the error timer clears the status |
| PaymentSteps.Kiosk.OnIdleTick | web/src/pages/PaymentSteps.jsx:22-26 | a countdown at 0 resets the wizard |
| CustomAmount.Pressed | web/src/pages/CustomAmount.jsx:16-26 | `<` drops the last character (no-op on empty); `.` is appended only if absent; a digit is appended |
| CustomAmount.PressedKeepsKeypadBuffer | web/src/pages/CustomAmount.jsx:9-26 | any keypad press keeps the buffer digits with at most one point |
| CustomAmount.PressAllKeepsKeypadBuffer | web/src/pages/CustomAmount.jsx:9-26 | `PressAll`, any sequence of key presses, keeps that invariant |
| CustomAmount.Submit | web/src/pages/CustomAmount.jsx:28-35 | an empty buffer or a parse of at most 0 is refused; otherwise the parsed amount is passed on |
| CustomAmount.ParseKeypadBuffer | web/src/pages/CustomAmount.jsx:29 | `parseFloat` of a keypad buffer reads all its digits as one mantissa |
| CustomAmount.SubmitAcceptsIff | web/src/pages/CustomAmount.jsx:29-31 | a keypad buffer is accepted exactly when it holds a non-zero digit |
| CustomAmount.ZeroAndPointRefused | web/src/pages/CustomAmount.jsx:29-31 | "0", "0.", "." and "" are refused |
| CustomAmount.AmountKeypad.constructor | web/src/pages/CustomAmount.jsx:7 | the buffer starts empty |
| CustomAmount.AmountKeypad.HandleKeypadClick | web/src/pages/CustomAmount.jsx:16-26 | the buffer becomes `Pressed` of the old one and stays a keypad buffer |
| ManualTagEntry.SubmitTag | web/src/pages/ManualTagEntry.jsx:8-14 | whitespace-only input is refused; otherwise a non-empty tag with no surrounding whitespace is passed on |
| ManualTagEntry.SubmitTagInfix | web/src/pages/ManualTagEntry.jsx:9-10 | the tag passed on is the input with only whitespace cut from both ends |
| ManualTagEntry.SubmitTagIdempotent | web/src/pages/ManualTagEntry.jsx:10 | submitting the passed-on tag again passes on the same tag |
| ManualTagEntry.SubmitTagExamples | web/src/pages/ManualTagEntry.jsx:8-14 | concrete inputs: padded, blank and empty |
| TimerDisplay.FormatTime | web/src/config.jsx:37-41 | minutes*60 + seconds = timeLeft, seconds < 60, seconds field two digits |
| TimerDisplay.ParseFormatTime | web/src/config.jsx:37-41 | reading `m:ss` back gives the seconds |
| TimerDisplay.FormatTimeExamples | web/src/config.jsx:5 | 0 s shows `0:00` and the 60 s default shows `1:00` |
| TimerDisplay.ExpiredExactlyAtZero | web/src/config.jsx:47-49 | the `expired` class is present exactly when no time is left |
| TimerDisplay.Render | web/src/config.jsx:13-52 | a badge exactly when visible, placed at 10px; its class is `timer-container-<type>` with `expired` exactly when no time is left (for a type without spaces); its text is the label, ": " and `formatTime()`, which reads back as the seconds left |
| TimerDisplay.IdleBadgeAtStart | web/src/config.jsx:4-11 | the idle badge starts visible at `1:00`, not expired |
| Signup.UsernameError | app/signup.jsx:27-36 | empty gives no error; the length rule is reported before the character rule; accepted iff length >= 8 and only a-z0-9 |
| Signup.CapitalizeWord | app/signup.jsx:72 | the length is kept and spaces stay exactly where they were |
| Signup.CapitalizeAll | app/signup.jsx:71-73 | every word capitalized, one for one |
| Signup.CapitalizeWordFixed | app/signup.jsx:72 | a word is unchanged exactly when it is already capitalized |
| Signup.CapitalizeWordsIdempotent | app/signup.jsx:69-73 | `CapitalizeWords` applied twice equals once |
| Signup.SplitCapitalizeWords | app/signup.jsx:69-73 | splitting `CapitalizeWords(s)` on ' ' gives the words of s, each capitalized |
| Signup.NameError | app/signup.jsx:75-83 | a name is accepted exactly when it equals its capitalization |
| Signup.CapitalizedNameAccepted | app/signup.jsx:69-83 | any output of `capitalizeWords` passes the name validators |
| Signup.NameAcceptedIff | app/signup.jsx:75-83 | accepted exactly when every space-separated word is capitalized |
| Signup.MiddleInitialError | app/signup.jsx:85-87 | accepted exactly when empty or one capital A-Z |
| Signup.AgeError | app/signup.jsx:89-92 | accepted exactly when all digits and `parseInt` is 1..120 |
| Signup.AgeAcceptedIff | app/signup.jsx:89-92 | accepted exactly for a non-empty digit string of value 1..120 |
| Signup.AgeLeadingZeros | app/signup.jsx:89-92 | leading zeros are accepted |
| Signup.AgeOutOfRange | app/signup.jsx:89-92 | 0, 121 and "" are refused |
| Signup.GenderError | app/signup.jsx:94-97 | accepted exactly when the lower-cased value is male, female or other |
| Signup.GenderIgnoresCase | app/signup.jsx:96 | letter case does not change the verdict |
| Signup.PhoneError | app/signup.jsx:99-101 | accepted exactly for 11 digits |
| Signup.MpinError | app/signup.jsx:103-105 | accepted exactly for 4 digits |
| Signup.UsernameCheckError | app/signup.jsx:43-49 | no error exactly when the check answered "not taken" |
| Signup.SignupForm.constructor | app/signup.jsx:11-20 | all fields empty, no error entries |
| Signup.SignupForm.HandleInputChange | app/signup.jsx:107-136 | the field gets the value; only `errors[field]` changes, to that field's validator result |
| Signup.SignupForm.HandleUsernameChange | app/signup.jsx:54-58 | the username and its immediate error are set; other entries unchanged |
| Signup.SignupForm.SetConfirmMpin | app/signup.jsx:339 | only the confirmation changes |
| Signup.SignupForm.NeedsUsernameCheck | app/signup.jsx:61-67 | the duplicate check is requested exactly for a username passing the immediate rules |
| Signup.SignupForm.OnUsernameChecked | app/signup.jsx:43-50 | only the username's error entry changes |
| Signup.SignupForm.HandleSignup | app/signup.jsx:160-178 | a body is sent exactly when `isFormValid`; it carries the fields and the MPIN as both passwords |
| Signup.ValidFormPassesValidators | app/signup.jsx:138-158 | a form that passes `IsFormValid` holds capitalized names, an age of 1..120, 11 phone digits and a confirmed 4-digit MPIN |
| ActivityLogs.CentsTextRoundTrip | app/activity-logs.jsx:128 | `parseFloat` of `CentsText`, the `toFixed(2)` amount, gives the same cents |
| ActivityLogs.SearchLogs | app/activity-logs.jsx:109-116 | kept exactly when date, plate or amount contains the search ignoring case; order kept; each kept log appears as often as in the input |
| ActivityLogs.EmptySearchKeepsAll | app/activity-logs.jsx:109-116 | an empty search keeps every log |
| ActivityLogs.SearchIgnoresCase | app/activity-logs.jsx:110 | the search text's case makes no difference |
| ActivityLogs.LongerSearchNarrows | app/activity-logs.jsx:109-116 | a longer search keeps a subsequence |
| ActivityLogs.ParseDate | app/activity-logs.jsx:50-61 | throws exactly on fewer than two words; falls back exactly on an unknown month name; a parsed date is a real day that a `Date` can hold |
| ActivityLogs.MonthIndex | app/activity-logs.jsx:44-47 | `fullMonths.indexOf`: a position 0..11 naming that month, or -1 |
| ActivityLogs.MonthIndexOfName | app/activity-logs.jsx:44-47 | every month name is found at its own position |
| ActivityLogs.ParseDateOfWords | app/activity-logs.jsx:50-61 | a known month name, a day and a year as the first three words give `new Date(year, month, day)`, or an Invalid Date when that day is outside the time range |
| ActivityLogs.ParseDateOfLogDate | app/activity-logs.jsx:50-61 | "January 09, 2025" parses as that calendar day when a `Date` can hold it, as every day up to the year 275759 can, and as an Invalid Date otherwise |
| ActivityLogs.UtcDay | app/activity-logs.jsx:146 | the UTC day of local midnight is a real day |
| ActivityLogs.WeekKeyIsSunday | app/activity-logs.jsx:140-146 | for either time zone, two days share a `WeekKey` exactly when they share a Sunday; the key reads back as that Sunday, or as the Saturday before it where the zone is ahead of UTC (keys of the years 0..9999) |
| ActivityLogs.WeekKeyReadsBack | app/activity-logs.jsx:146 | `WeekKey` reads back as the UTC day of its Sunday's local midnight, a Sunday or the Saturday before it |
| ActivityLogs.UtcDayInjective | app/activity-logs.jsx:146 | different local days have different UTC days at midnight |
| ActivityLogs.IsoDateIff | app/activity-logs.jsx:146 | two days of the years 0..9999 have the same ISO date exactly when they are the same day |
| ActivityLogs.MonthlyLabelPieces | app/activity-logs.jsx:64-68 | `MonthlyLabel` splits at its first space into the full month name and the year |
| ActivityLogs.MonthlyKeyIff | app/activity-logs.jsx:64-68 | two days have the same `MonthlyLabel` exactly when year and month agree |
| ActivityLogs.YearlyKeyIff | app/activity-logs.jsx:71-73 | two days have the same `YearlyLabel` exactly when the year agrees |
| ActivityLogs.ShortDatePieces | app/activity-logs.jsx:79-84 | `ShortDate` is the short month name, a space, the day's digits up to the first comma, ", " and the year |
| ActivityLogs.ShortDateIff | app/activity-logs.jsx:79-84 | two days have the same `ShortDate` exactly when they are the same day |
| ActivityLogs.WeekLabelSundayToSaturday | app/activity-logs.jsx:87-104 | `WeekLabel` runs from a Sunday to the Saturday six days later |
| ActivityLogs.KeyOf | app/activity-logs.jsx:127-169 | keeps the log's cents; Daily keys and shows the date text and fails exactly on fewer than two words; for a parsed date the Monthly key is `MonthlyLabel`, the Yearly key `YearlyLabel`, the Weekly key `WeekKey` shown as `WeekLabel`, and a key always exists; Monthly and Yearly show their key |
| ActivityLogs.SameMonthOrYearGroup | app/activity-logs.jsx:151-164 | two logs with parsed dates share a Monthly group exactly when year and month agree, and a Yearly group exactly when the year does |
| ActivityLogs.SameWeekGroup | app/activity-logs.jsx:140-148 | two logs with parsed dates share a Weekly group exactly when their weeks start on the same Sunday |
| ActivityLogs.AccumulateGroupedFrom | app/activity-logs.jsx:171-181 | taking one more log into groups that meet the grouping specification keeps it met |
| ActivityLogs.GroupAllGroupedFrom | app/activity-logs.jsx:124-183 | keys distinct, in order of first occurrence, each total the sum of its logs |
| ActivityLogs.AccumulateTotal | app/activity-logs.jsx:171-181 | taking one log into the groups raises the groups' total by its cents |
| ActivityLogs.GroupAllTotal | app/activity-logs.jsx:126-183 | the group totals add up to the total of the searched logs |
| ActivityLogs.PerTripShowsLogs | app/activity-logs.jsx:120-122 | `FilteredRows` for Per-Trip shows the searched logs unchanged |
| ActivityLogs.GroupedRows | app/activity-logs.jsx:124-189 | one row per distinct key, first-occurrence order, empty plate, totals as two decimals summing to the searched total |
| ActivityLogs.DailyKeyedAll | app/activity-logs.jsx:52-53 | keying every log Daily fails exactly when some log's date has fewer than two words |
| ActivityLogs.DailyFailsOnlyOnOneWord | app/activity-logs.jsx:52-53 | `FilteredRows` for Daily fails only on a date of fewer than two words |
| ActivityLogs.MapValues | app/activity-logs.jsx:186 | the values' keys follow the map's insertion order |
| ActivityLogs.TakeEntry | app/activity-logs.jsx:171-181 | one `forEach` step keeps the map consistent with its key order and adds the log to its group, or opens a new group last |
| ActivityLogs.GroupLogs | app/activity-logs.jsx:124-186 | the `forEach` filling `groupedMap` gives the specified groups, `Grouped` |
| ActivityLogs.GetFilteredLogs | app/activity-logs.jsx:119-190 | the rows are `FilteredRows`: those of the search then the grouping, or None where the screen throws or falls back |
| Calendar.DaysInMonth | app/activity-logs.jsx:60 | 28..31 days, 29 in February of a leap year |
| Calendar.Normalize | app/activity-logs.jsx:93 | `setDate` always gives a real day; a day inside the month is that day |
| Calendar.MakeDate | app/activity-logs.jsx:60 | `new Date(y, m, d)` is a real day; a day the month has is that very day of year y, years 0..99 meaning 1900..1999 |
| Calendar.TimeRangeEnds | app/activity-logs.jsx:60 | the time range counts from 1 January 1970 and runs from 20 April of year -271821 to 13 September 275760, 100,000,000 days either way |
| Calendar.InTimeRangeOfYear | app/activity-logs.jsx:60 | every day of the years -271820..275759 is inside the time range |
| Calendar.Weekday | app/activity-logs.jsx:90 | `getDay()` is 0..6 |
| Calendar.YearLength | app/activity-logs.jsx:93 | a year is 366 days long exactly when it is a leap year, else 365 |
| Calendar.MonthStart | app/activity-logs.jsx:93 | a month starts the previous month's length after the previous month's start |
| Calendar.NormalizeDayNumber | app/activity-logs.jsx:93 | `setDate(e)` lands e - 1 days after the first of the month, however far outside the month e is |
| Calendar.DayNumberBack | app/activity-logs.jsx:93 | `setDate(getDate() - k)` lands exactly k days earlier |
| Calendar.DayNumberForward | app/activity-logs.jsx:98 | `setDate(getDate() + k)` lands exactly k days later |
| Calendar.WeekdayBack | app/activity-logs.jsx:93 | going back any k days moves the weekday back by k, modulo 7 |
| Calendar.WeekdayForward | app/activity-logs.jsx:98 | going forward any k days moves the weekday on by k, modulo 7 |
| Calendar.WeekStartIsSunday | app/activity-logs.jsx:89-92 | going back `getDay()` days always lands on a Sunday |
| Calendar.WeekStart | app/activity-logs.jsx:93 | the week's start is a real day and a Sunday |
| Calendar.SixDaysLater | app/activity-logs.jsx:98 | six days on is a real day whose weekday is six on |
| Calendar.PrevDay | app/activity-logs.jsx:146 | the day before is a real day whose weekday is one back |
| Calendar.NextOfPrevDay | app/activity-logs.jsx:146 | the day after the day before is the day itself |
| Calendar.PrevDayInjective | app/activity-logs.jsx:146 | different days have different days before them |
| Calendar.WeekOfSunday | app/activity-logs.jsx:87-98 | the week start of a week start is itself, and six days after it is a Saturday |
| Calendar.IsoDate | app/activity-logs.jsx:146 | `toISOString().substring(0, 10)` is always ten characters |
| Calendar.IsoDateReadsBack | app/activity-logs.jsx:146 | the ISO date reads back as its year, month and day |
| Calendar.IsoDateInjective | app/activity-logs.jsx:146 | different days have different ISO dates |
| UserManual.ManualsToShow | mobileapp/app/user-manual.jsx:15-23 | exactly the visible manuals, in `availableManuals` order |
| UserManual.AdminSeesAll | mobileapp/app/user-manual.jsx:16-17 | admin sees all three manuals |
| UserManual.InspectorSeesTwo | mobileapp/app/user-manual.jsx:18-19 | inspector sees the user and inspector manuals, not the admin one |
| UserManual.OtherRolesSeeUserManualOnly | mobileapp/app/user-manual.jsx:20-21 | any other role, or none, sees only the user manual |
| UserManual.UserManualAlwaysFirst | mobileapp/app/user-manual.jsx:15-23 | the user manual is always shown, first |
| UserManual.VisibilityNested | mobileapp/app/user-manual.jsx:15-23 | user ⊆ inspector ⊆ admin visibility |
| UserManual.ListsNested | mobileapp/app/user-manual.jsx:15-23 | the lists are nested as subsequences |
| UserManual.Buttons | mobileapp/app/user-manual.jsx:27-31 | one button per shown manual, routing to the slideshow with its own role |
| UserManual.ButtonRoutesToVisibleRole | mobileapp/app/user-manual.jsx:31 | every button routes to a manual the role may see |
| AdminPanel.FullNameStartsWithSurname | mobileapp/app/admin-panel.jsx:660 | `FullName` opens with a surname that has no leading whitespace, followed by ',' |
| AdminPanel.FullNameOfNoNames | mobileapp/app/admin-panel.jsx:660 | with every name missing `FullName` is "," |
| AdminPanel.UserSearch | mobileapp/app/admin-panel.jsx:659-674 | kept exactly when full name or username contains the query ignoring case; order kept; each kept user appears as often as in the list |
| AdminPanel.EmptyQueryListsAll | mobileapp/app/admin-panel.jsx:659-674 | an empty query lists every user |
| AdminPanel.UserSearchIgnoresCase | mobileapp/app/admin-panel.jsx:662-663 | the query's case makes no difference |
| AdminPanel.LongerQueryNarrows | mobileapp/app/admin-panel.jsx:659-674 | a longer query keeps a subsequence |
| AdminPanel.UsernameFindsUser | mobileapp/app/admin-panel.jsx:663 | a user's own username finds that user |
| AdminPanel.PassengerTypesSection.constructor | mobileapp/app/admin-panel.jsx:172-209 | no edit open, new-type modal hidden, fields empty |
| AdminPanel.PassengerTypesSection.OpenPassengerEditModal | mobileapp/app/admin-panel.jsx:172-176 | the edit opens on the type with its name and rate text |
| AdminPanel.PassengerTypesSection.CancelPassengerEdit | mobileapp/app/admin-panel.jsx:205-209 | the edit closes and its fields become '' |
| AdminPanel.PassengerTypesSection.SavePassengerEdit | mobileapp/app/admin-panel.jsx:178-203 | nothing without an edit; otherwise PUT of the type and `parseFloat(rate) \|\| 0`; an accepted update closes the edit |
| AdminPanel.PassengerTypesSection.DeletePassengerTypeHandler | mobileapp/app/admin-panel.jsx:211-229 | nothing without an edit; otherwise DELETE of its id; accepted closes the edit |
| AdminPanel.PassengerTypesSection.OpenNewPassengerModal | mobileapp/app/admin-panel.jsx:298-302 | the modal shows with empty fields |
| AdminPanel.PassengerTypesSection.CancelNewPassengerModal | mobileapp/app/admin-panel.jsx:331-335 | the modal hides and its fields become '' |
| AdminPanel.PassengerTypesSection.SaveNewPassengerType | mobileapp/app/admin-panel.jsx:304-329 | nothing exactly when the trimmed type is empty; otherwise POST of the untrimmed type and parsed fare |
| AdminPanel.RoutesSection.constructor | mobileapp/app/admin-panel.jsx:232-274 | no routes, no edit open, new-route modal hidden |
| AdminPanel.RoutesSection.FetchRoutes | mobileapp/app/admin-panel.jsx:84-100 | a good response replaces the list, an error keeps it |
| AdminPanel.RoutesSection.OpenRouteEditModal | mobileapp/app/admin-panel.jsx:232-238 | the edit opens on the row at the index with its origin, destination and rate |
| AdminPanel.RoutesSection.CancelRouteEdit | mobileapp/app/admin-panel.jsx:269-274 | the edit closes and its fields become '' |
| AdminPanel.RoutesSection.SaveRouteEdit | mobileapp/app/admin-panel.jsx:240-267 | sends exactly when an index is set (0 included) and still in the list; PUT for that row's id |
| AdminPanel.RoutesSection.DeleteRouteEdit | mobileapp/app/admin-panel.jsx:276-295 | the same guards; DELETE of that row's id |
| AdminPanel.RoutesSection.OpenNewRouteModal | mobileapp/app/admin-panel.jsx:338-343 | the modal shows with empty fields |
| AdminPanel.RoutesSection.CancelNewRouteModal | mobileapp/app/admin-panel.jsx:373-378 | the modal hides and its fields become '' |
| AdminPanel.RoutesSection.SaveNewRoute | mobileapp/app/admin-panel.jsx:345-371 | sends exactly when both trimmed ends are non-empty; POST of both as typed and the parsed rate |
| AdminPanel.RoleSection.constructor | mobileapp/app/admin-panel.jsx:381-478 | every modal hidden, nothing selected, empty query and list |
| AdminPanel.RoleSection.ConfirmDelete | mobileapp/app/admin-panel.jsx:381-384 | remembers the user and shows the confirmation |
| AdminPanel.RoleSection.CancelDelete | mobileapp/app/admin-panel.jsx:386-389 | hides the confirmation and forgets the user |
| AdminPanel.RoleSection.HandleConfirmDelete | mobileapp/app/admin-panel.jsx:391-415 | nothing without a user; otherwise its role is set to null; accepted closes the confirmation |
| AdminPanel.RoleSection.OpenAddModal | mobileapp/app/admin-panel.jsx:417-435 | the modal shows; a good response becomes the user list |
| AdminPanel.RoleSection.CloseAddModal | mobileapp/app/admin-panel.jsx:437-441 | the modal hides, the query becomes '' and the list empties |
| AdminPanel.RoleSection.SetSearchQuery | mobileapp/app/admin-panel.jsx:662 | the query becomes the typed text |
| AdminPanel.RoleSection.SelectUser | mobileapp/app/admin-panel.jsx:443-446 | remembers the user and asks for confirmation |
| AdminPanel.RoleSection.ConfirmAssign | mobileapp/app/admin-panel.jsx:448-473 | nothing without a selection; otherwise the section's role is assigned; accepted hides both modals |
| AdminPanel.RoleSection.CancelAssign | mobileapp/app/admin-panel.jsx:475-478 | hides the confirmation and forgets the selection |
| AdminPanel.ShuttlesSection.constructor | mobileapp/app/admin-panel.jsx:582-632 | both modals hidden, empty plate, nothing to delete |
| AdminPanel.ShuttlesSection.OpenNewShuttleModal | mobileapp/app/admin-panel.jsx:582-585 | the modal shows with an empty plate |
| AdminPanel.ShuttlesSection.CancelNewShuttleModal | mobileapp/app/admin-panel.jsx:619-622 | the modal hides and the plate becomes '' |
| AdminPanel.ShuttlesSection.SaveNewShuttle | mobileapp/app/admin-panel.jsx:587-617 | the alert exactly on a blank plate, changing nothing; otherwise POST of the plate; accepted hides and empties |
| AdminPanel.ShuttlesSection.ConfirmDeleteShuttle | mobileapp/app/admin-panel.jsx:624-627 | remembers the plate and asks for confirmation |
| AdminPanel.ShuttlesSection.CancelDeleteShuttle | mobileapp/app/admin-panel.jsx:629-632 | hides the confirmation and forgets the plate |
| AdminPanel.ShuttlesSection.HandleConfirmDeleteShuttle | mobileapp/app/admin-panel.jsx:634-656 | nothing without a plate; otherwise DELETE of its id |
| FareRates.WithRate | app/admin-panel.jsx:31 | the edited role gets the new rate; every other role keeps its rate |
| FareRates.WithOwnRateUnchanged | app/admin-panel.jsx:24-34 | saving a role's own rate leaves the rates unchanged |
| FareRates.WithRateTwice | app/admin-panel.jsx:31 | the second save of a role overrides the first |
| FareRates.InitialRatesCoverRoles | app/admin-panel.jsx:8-21 | PWD 10, Senior 12, Student 8, Regular 15, one per listed role |
| FareRates.FareEditor.constructor | app/admin-panel.jsx:15-19 | the initial rates, no role edited, the modal hidden |
| FareRates.FareEditor.OpenModalForRole | app/admin-panel.jsx:24-27 | the role is edited with its current rate; the modal shows |
| FareRates.FareEditor.SetTempRate | app/admin-panel.jsx:19 | the typed rate is kept |
| FareRates.FareEditor.SaveModalRate | app/admin-panel.jsx:30-34 | the rates become `WithRate`; no role edited; the modal hides |
| FareRates.FareEditor.CancelModal | app/admin-panel.jsx:36-39 | the rates are unchanged; no role edited; the modal hides |
| FareRates.OpenThenSave | app/admin-panel.jsx:24-34 | opening a role and saving without editing leaves the rates unchanged |
| ShuttleList.SortByIdDescending | app/inspect.jsx:34 | the array ends sorted by id, largest first, as a permutation of itself |
| ShuttleList.InsertAt | app/inspect.jsx:34 | one insertion step extends the sorted prefix, as a permutation |
| ShuttleList.SwapWithPrevious | app/inspect.jsx:34 | two neighbours exchange places |
| ShuttleList.RemoveId | app/inspect.jsx:60 | exactly the shuttles with another id stay, in order |
| ShuttleList.RemoveAbsentId | app/inspect.jsx:60 | removing an absent id changes nothing |
| ShuttleList.RemoveIdCount | app/inspect.jsx:60 | the length drops by the number of shuttles with that id |
| ShuttleList.RemoveIdCons | app/inspect.jsx:60 | the filter keeps the head exactly when its id is another one, then filters the rest |
| ShuttleList.RemoveIdKeepsOrder | app/inspect.jsx:60 | a sorted list stays sorted after a delete |
| ShuttleForm.NewShuttle | app/add-shuttle.jsx:23-35 | a payload exists exactly when all five fields are non-blank |
| ShuttleForm.NewShuttleFields | app/add-shuttle.jsx:32-34 | driver `trim(first) + " " + trim(last)`, plate `trim(plate)`, route `trim(from) + " to " + trim(to)` |
| ShuttleForm.PayloadHasNoSurroundingWhitespace | app/add-shuttle.jsx:32-34 | no payload field starts or ends with whitespace |
| ShuttleForm.NewShuttleOfTrimmed | app/add-shuttle.jsx:24-34 | trimming the fields first changes nothing |
| ShuttleForm.NewShuttleSwapped | app/add-shuttle.jsx:18-34 | swapping the ends swaps them in the route |
| ShuttleForm.AddShuttlePage.constructor | app/add-shuttle.jsx:12-16 | empty names and plate; route from Carmona Estates to Waltermart |
| ShuttleForm.AddShuttlePage.SwapRoute | app/add-shuttle.jsx:18-21 | from and to exchange; nothing else changes |
| ShuttleForm.AddShuttlePage.AddShuttle | app/add-shuttle.jsx:23-61 | the post exactly when all fields are filled, with `NewShuttle`'s payload; otherwise the alert |
| ShuttleForm.SwapTwiceRestores | app/add-shuttle.jsx:18-21 | swapping twice restores both ends |
| Inspect.InspectScreen.constructor | app/inspect.jsx:25-145 | empty list, no modal, reset form |
| Inspect.InspectScreen.FetchShuttles | app/inspect.jsx:25-43 | a good response is stored sorted by id descending as a permutation; an error keeps the list |
| Inspect.InspectScreen.HandleDelete | app/inspect.jsx:52-68 | an accepted delete removes exactly that id |
| Inspect.InspectScreen.ConfirmDelete | app/inspect.jsx:71-74 | remembers the shuttle and shows the confirmation |
| Inspect.InspectScreen.HandleConfirmDelete | app/inspect.jsx:77-83 | nothing without a selection; otherwise deletes its id, clears it and hides the modal |
| Inspect.InspectScreen.CancelDelete | app/inspect.jsx:86-89 | clears the selection and hides the modal; the list is untouched |
| Inspect.InspectScreen.SwapRoute | app/inspect.jsx:92-95 | from and to exchange |
| Inspect.InspectScreen.OpenAddModal | app/inspect.jsx:152 | the "+" button shows the add-shuttle modal |
| Inspect.InspectScreen.CancelAddModal | app/inspect.jsx:287 | Cancel hides the add-shuttle modal |
| Inspect.InspectScreen.ResetForm | app/inspect.jsx:125-131 | the modal closes; fields '' and the default route |
| Inspect.InspectScreen.AddShuttle | app/inspect.jsx:98-145 | the post exactly when all five fields are filled, with the add-shuttle payload; accepted resets |
| Inspect.FetchThenDelete | app/inspect.jsx:34-60 | after a fetch and a delete the list is sorted and the id is gone |
| MobileInspect.SelectedDriverObj | mobileapp/app/inspect.jsx:183-185 | the first driver with the selected id, or none when no driver has it |
| MobileInspect.SelectedPlateObj | mobileapp/app/inspect.jsx:187-189 | the first plate with the selected id, or none |
| MobileInspect.SelectedRouteObj | mobileapp/app/inspect.jsx:179-181 | the first route with the selected id, or none |
| MobileInspect.NothingSelectedFindsNothing | mobileapp/app/inspect.jsx:179-189 | with nothing selected no lookup finds anything |
| MobileInspect.BuildShuttle | mobileapp/app/inspect.jsx:192-200 | the alert unless all three selections are truthy; a failed lookup throws; otherwise driver name, plate number and route id |
| MobileInspect.PostNamesFirstMatchingDriver | mobileapp/app/inspect.jsx:194-197 | the posted driver name is the first driver with the selected id |
| MobileInspect.MobileInspectScreen.constructor | mobileapp/app/inspect.jsx:27-37 | empty lists, no modal, nothing selected |
| MobileInspect.MobileInspectScreen.FetchShuttles | mobileapp/app/inspect.jsx:98-115 | stored sorted by id descending as a permutation; an error keeps the list |
| MobileInspect.MobileInspectScreen.FetchChoices | mobileapp/app/inspect.jsx:41-95 | each good response replaces its list |
| MobileInspect.MobileInspectScreen.OpenAddModal | mobileapp/app/inspect.jsx:130-136 | opening from closed clears all three selections |
| MobileInspect.MobileInspectScreen.CloseAddModal | mobileapp/app/inspect.jsx:493 | the modal closes; the selections stay |
| MobileInspect.MobileInspectScreen.PickDriver | mobileapp/app/inspect.jsx:526-527 | the driver's id is selected |
| MobileInspect.MobileInspectScreen.PickPlate | mobileapp/app/inspect.jsx:565-566 | the plate's id is selected |
| MobileInspect.MobileInspectScreen.PickRoute | mobileapp/app/inspect.jsx:604-605 | the route's id is selected |
| MobileInspect.MobileInspectScreen.HandleDelete | mobileapp/app/inspect.jsx:139-155 | an accepted delete removes exactly that id |
| MobileInspect.MobileInspectScreen.ConfirmDelete | mobileapp/app/inspect.jsx:158-161 | remembers the shuttle and shows the confirmation |
| MobileInspect.MobileInspectScreen.HandleConfirmDelete | mobileapp/app/inspect.jsx:164-170 | nothing without a selection; otherwise deletes, clears and hides |
| MobileInspect.MobileInspectScreen.CancelDelete | mobileapp/app/inspect.jsx:173-176 | clears and hides; the list is untouched |
| MobileInspect.MobileInspectScreen.AddShuttle | mobileapp/app/inspect.jsx:192-231 | `BuildShuttle`'s outcome; an accepted post closes the modal and clears the selections |
| MobileInspect.OpenThenAddAlerts | mobileapp/app/inspect.jsx:130-136 | adding right after opening gives the selection alert |
| TravelHistory.FilteredHistory | app/travel-history.jsx:32-39 | the trips shown: kept exactly when date, route or amount contains the search ignoring case; order kept |
| TravelHistory.SearchTrips | app/travel-history.jsx:32-39 | over any trip list: kept exactly when date, route or amount contains the search ignoring case; order kept; each kept trip appears as often as in the list |
| TravelHistory.EmptySearchShowsAll | app/travel-history.jsx:32-39 | an empty search shows every trip |
| TravelHistory.SearchIgnoresCase | app/travel-history.jsx:33 | the search text's case makes no difference |
| TravelHistory.LongerSearchNarrows | app/travel-history.jsx:32-39 | a longer search keeps a subsequence |
| StartInspection.TagIdOf | app/start-inspection.jsx:38 | the tag's id when a tag with an id is present, otherwise null |
| StartInspection.InspectionSession.constructor | app/start-inspection.jsx:22-23 | no logs, the modal closed |
| StartInspection.InspectionSession.TagEffect | app/start-inspection.jsx:26-30 | a tag with an id opens the closed modal |
| StartInspection.InspectionSession.TagRead | app/start-inspection.jsx:26-30 | a read tag opens the modal when it has an id; logs untouched |
| StartInspection.InspectionSession.StartScanning | app/start-inspection.jsx:45 | restarting scanning clears the tag |
| StartInspection.InspectionSession.HandlePassengerSelect | app/start-inspection.jsx:33-47 | one log prepended with the type and the tag's id; the modal closes; scanning restarts exactly with a tag id |
| StartInspection.InspectionSession.HandleManualAdd | app/start-inspection.jsx:50-52 | only opens the modal |
| StartInspection.InspectionSession.HandleCancel | app/start-inspection.jsx:55-61 | the modal closes; logs unchanged; scanning restarts exactly with a tag id |
| StartInspection.ScanAndSelect | app/start-inspection.jsx:26-47 | a read tag with an id is logged once and the modal stays closed |
| Clock.IsoText | app/home.jsx:19 | only the first space becomes 'T' |
| Clock.IsoTextSpaces | mobileapp/app/home.jsx:22 | one space fewer after the replacement |
| Clock.TwelveHour | app/home.jsx:25-26 | the 12-hour value is 1..12 and agrees with the hours modulo 12 |
| Clock.Suffix | app/home.jsx:24 | `am` exactly when the hours are below 12 |
| Clock.ParseClockText | app/home.jsx:25-28 | the `h:mm` text with its suffix reads back as the 24-hour time |
| AppHome.FormatDatetime | app/home.jsx:18-29 | None exactly when the date does not parse; otherwise `<datePart> at ` and a clock reading back as the time |
| MobileHome.DisplayHour | mobileapp/app/home.jsx:28 | `hours % 12 \|\| 12` is the 12-hour value |
| MobileHome.FormatDatetime | mobileapp/app/home.jsx:21-31 | the same shape and read-back as the app's version |
| MobileHome.LatestTransactions | mobileapp/app/home.jsx:71 | at most the first 10, in server order |
| MobileHome.LatestTransactionsIdempotent | mobileapp/app/home.jsx:71 | capping twice equals capping once |
| MobileHome.RoleOrDefault | mobileapp/app/home.jsx:48 | a non-empty role is kept; otherwise `Passenger` |
| MobileHome.GreetingRole | mobileapp/app/home.jsx:153 | first character upper-cased, the rest kept |
| MobileHome.GreetingRoleIdempotent | mobileapp/app/home.jsx:153 | applying it twice equals once |
| MobileHome.GreetingExamples | mobileapp/app/home.jsx:48 | admin reads Admin, inspector Inspector, a missing role Passenger |
| Common.ParseFloatOrZero | mobileapp/app/admin-panel.jsx:190 | a truthy parse is kept; NaN or 0 gives 0 |
| Common.TwoDigits | app/home.jsx:27 | two digits reading back as the number below 100 |
| Common.Find | mobileapp/app/inspect.jsx:180 | None exactly when nothing matches; otherwise the first match |
| Common.SearchBy | app/travel-history.jsx:32-39 | kept exactly when a field contains the search ignoring case; order kept; each kept item appears as often as in the input |
| Common.Filter | app/travel-history.jsx:32-39 | `Array.filter`: kept exactly when the test holds, order kept, each kept item as often as in the input |
| Common.IntToStringInjective | app/activity-logs.jsx:66-72 | `String` of an integer tells integers apart |
| Common.SearchByEmpty | app/travel-history.jsx:32-39 | an empty search keeps everything |
| Common.SearchByIgnoresCase | app/travel-history.jsx:33 | the search text's case makes no difference |
| Common.SearchByLongerNarrows | app/travel-history.jsx:32-39 | a longer search keeps a subsequence |
| Common.TrimEmptyIff | web/src/pages/ManualTagEntry.jsx:9 | `trim()` is empty exactly for whitespace-only text |
| Common.TrimInfix | web/src/pages/ManualTagEntry.jsx:9 | `trim()` is a contiguous piece of the text with only whitespace cut before and after it |
| Common.TrimIdempotent | web/src/pages/ManualTagEntry.jsx:10 | trimming twice equals once |
| Common.ReplaceFirst | app/home.jsx:19 | `replace` of a character changes only its first occurrence |

## Left out

- RFID driver: `wait_for_tag`, `request`, `anticoll` and `cleanup` belong to the external driver. A session is a script of the driver's answers. `time.sleep` and the interrupt are events in the trace.
- RFID interrupt timing: an interrupt that arrives while the startup prompt is being printed is not modelled. The interrupt always falls inside a driver call or the sleep.
- Network, storage and navigation: every `fetch`/`axios` call, `AsyncStorage`, `Alert`, the router and `alert` are I/O. A response is a parameter (`Option` or `accepted: bool`). A request is a returned value.
- List refreshes: the re-fetch that follows an accepted add or delete in the admin panel and the inspect screens is a separate `Fetch…` method, called by the caller.
- Async ordering and stale closures: each handler runs to completion on the state it sees. Interleaved `await`s are not modelled. Two examples: the username check racing a later edit, and `handleDelete` filtering a list captured earlier.
- NFC hooks: app/UseNFC.jsx is not part of this model. From it, only "restarting scanning clears the tag" is kept (`StartScanning`).
- `Date` parsing: `new Date(text)` is a parameter (`parseLocal`).
  - The fallback parse of the activity log is a failure outcome.
  - `Intl.DateTimeFormat` gives the date part as a parameter.
  - Time zones are reduced to "ahead of UTC or not".
  - Daylight saving, and years outside 0..9999 for the ISO key, are left out.
- Floating point:
  - Activity-log sums are exact cents, not binary floating-point sums.
  - `parseFloat` reads sign, digits and a fraction; exponents, `Infinity` and hexadecimal are not read.
  - A number's `toString` is taken to be the text the server sent (`rateText`).
- Case mapping and whitespace: `toLowerCase`/`toUpperCase` map ASCII letters only.
- Strings are sequences of Unicode code points. JavaScript's `length`, `charAt` and `slice` count UTF-16 code units, so a character outside the Basic Multilingual Plane counts once here and twice there.
- Signup.UsernameError: lengths are counted in code points, not UTF-16 units. For a name with a character outside the Basic Multilingual Plane and fewer than 8 code points but at least 8 units ("abcdef" followed by U+1F600, say), the source passes the length rule and reports the character rule, where the model reports the length rule. Whether the name is accepted is the same.
- Sorting: the shuttle sort is proved sorted and a permutation of its input. Stability and `parseInt` of a non-numeric id (NaN comparisons) are not modelled: ids are integers.
- Rendering: styles, layout and the order of React renders are left out. `TimerDisplay.Render` states placement, text and class, not the CSS rules those classes select.
- TravelHistory: the twenty constant trips are written out as data. The activity log's constant sample table is not reproduced: logs are a parameter.
- FareRates.FareEditor.OpenModalForRole: requires a role that has a rate, as every Edit button offers. Opening an unlisted role (`fareRates[role]` undefined) is not modelled.
- ActivityLogs.ParseDate: the time range is counted in local days from 1 January 1970. At each of the two end days the zone's offset can move local midnight just outside 8.64e15 ms, which makes the source's date invalid on one side of UTC; the model holds both end days valid.
- ActivityLogs.KeyOf: a Weekly key or label for a day in the first or last days of the time range, whose Sunday or Saturday falls outside it, is modelled as for any other day. The source throws at `toISOString` or shows "undefined NaN, NaN" for that end of the label.
- ActivityLogs.WeekKeyIsSunday: requires the key's UTC day to fall in the years 0..9999, the range in which `toISOString` writes a four-digit year; `SameWeekGroup` carries the same requirement.
- AdminPanel.RoutesSection.OpenRouteEditModal: requires an index inside the list, as the list's own rows provide.
- AdminPanel.RoleSection: the inspector and driver handlers are one class, made with the role "inspector" or "driver". The two request URLs (`/users/…/role` to remove, `/fetchusers/…/role` to assign) are both the `SetRole` request.
- AdminPanel: the passenger-type, route, inspector, driver and shuttle fetches that fill the lists are not modelled, except `FetchRoutes`, whose list the route edit reads by index.
- MobileInspect: picking a driver, plate or route (`PickDriver`, `PickPlate`, `PickRoute`) also closes that drop-down list. The list's visibility flag is modelled; its layout is not.
- Typing into a text field: each `onChangeText` setter is a single field assignment, so it has no method of its own. This covers the admin panel's `tempPassengerType`, `tempFareRate`, `newPassengerType`, `newPassengerFare`, `tempRouteFrom`, `tempRouteTo`, `tempRouteRate`, `newRouteFrom`, `newRouteTo`, `newRouteRate` and `newShuttlePlateNumber`, and the inspect screen's `newFirstName`, `newLastName`, `newPlate`, `newRouteFrom` and `newRouteTo`. The save and add methods read these fields as they stand. The one setter with more behaviour, the role search (`RoleSection.SetSearchQuery`), is modelled.
