/**
 * The RFID reader script of the kiosk (web/rfid_reader.py).
 *
 * The pirc522 driver is not modelled: what its calls return in one run of
 * the script is given as a `Session`, the cycles of the `while True` loop
 * that complete, followed by the point where the keyboard interrupt hits.
 * The script then becomes a map from a session to the trace of observable
 * events it produces: driver calls, printed lines, sleeps and the cleanup.
 */
module RfidReader {
  import opened Common

  type Byte = x: nat | x < 256

  const Prompt: string := "Place RFID card near the reader..."
  const StopMessage: string := "\nStopping RFID reader..."
  const DetectedPrefix: string := "Card detected! UID: "
  /** `time.sleep(1.5)`, in milliseconds. */
  const DebounceMs: nat := 1500

  // ---------------------------------------------------------------------
  // The tag ID: `':'.join([str(x) for x in uid])`

  function Pieces(uid: seq<Byte>): (ps: seq<string>)
    ensures |ps| == |uid|
    ensures forall i :: 0 <= i < |uid| ==> ps[i] == NatToString(uid[i])
  {
    seq(|uid|, i requires 0 <= i < |uid| => NatToString(uid[i]))
  }

  function TagId(uid: seq<Byte>): string
  {
    Join(Pieces(uid), ':')
  }

  /** Reads one decimal piece of a tag ID back; None when it is not a byte in decimal. */
  function ParseByte(p: string): Option<Byte>
  {
    if p != [] && AllDigits(p) && ParseNat(p) < 256 then Some(ParseNat(p)) else None
  }

  function ParsePieces(ps: seq<string>): (r: Option<seq<Byte>>)
    ensures r.Some? ==> |r.value| == |ps|
  {
    if ps == [] then Some([])
    else
      match ParseByte(ps[0])
      case None => None
      case Some(b) =>
        match ParsePieces(ps[1..])
        case None => None
        case Some(rest) => Some([b] + rest)
  }

  /** The inverse of `TagId`: split on ':' and read each piece as a decimal byte. */
  function ParseTagId(s: string): Option<seq<Byte>>
  {
    if s == [] then Some([]) else ParsePieces(Split(s, ':'))
  }

  lemma {:induction false} ParsePiecesOfUid(uid: seq<Byte>)
    ensures ParsePieces(Pieces(uid)) == Some(uid)
    decreases |uid|
  {
    if uid != [] {
      ParseNatString(uid[0]);
      assert Pieces(uid)[1..] == Pieces(uid[1..]);
      ParsePiecesOfUid(uid[1..]);
      assert [uid[0]] + uid[1..] == uid;
    }
  }

  lemma PiecesHaveNoColon(uid: seq<Byte>)
    ensures forall p :: p in Pieces(uid) ==> ':' !in p
  {
    forall p | p in Pieces(uid) ensures ':' !in p {
      var i :| 0 <= i < |uid| && Pieces(uid)[i] == p;
      assert AllDigits(NatToString(uid[i]));
    }
  }

  /** Round trip: splitting the rendered ID on ':' and reading each piece gives the UID back. */
  lemma TagIdRoundTrip(uid: seq<Byte>)
    ensures ParseTagId(TagId(uid)) == Some(uid)
  {
    if uid != [] {
      PiecesHaveNoColon(uid);
      assert TagId(uid) != [] by {
        assert Pieces(uid)[0] != [];
        if |uid| > 1 {
          assert TagId(uid) == Pieces(uid)[0] + [':'] + Join(Pieces(uid)[1..], ':');
        }
      }
      SplitJoin(Pieces(uid), ':');
      ParsePiecesOfUid(uid);
    }
  }

  /** A UID of n > 0 bytes renders with exactly n - 1 colons; the empty UID renders as "". */
  lemma TagIdColons(uid: seq<Byte>)
    ensures uid == [] ==> TagId(uid) == ""
    ensures uid != [] ==> Count(TagId(uid), ':') == |uid| - 1
  {
    if uid != [] {
      PiecesHaveNoColon(uid);
      JoinSeparatorCount(Pieces(uid), ':');
    }
  }

  // ---------------------------------------------------------------------
  // Driver script and observable events

  /** What the driver answers in one completed pass of the loop. */
  datatype Cycle = Cycle(requestError: bool, anticollError: bool, uid: seq<Byte>)
  {
    /** Both `request()` and `anticoll()` succeeded: a tag is reported. */
    predicate Detects() { !requestError && !anticollError }
  }

  /** The call during which the KeyboardInterrupt arrives, ending the loop. */
  datatype Interrupt =
    | InWait                      // during `wait_for_tag()`
    | InRequest                   // during `request()`
    | InAnticoll                  // during `anticoll()`, after a successful request
    | InSleep(uid: seq<Byte>)     // during the debounce sleep after reporting `uid`

  datatype Session = Session(cycles: seq<Cycle>, stop: Interrupt)

  datatype Event =
    | Print(line: string)
    | WaitForTag
    | Request
    | Anticoll
    | Sleep(ms: nat)
    | Cleanup

  function DetectionLine(uid: seq<Byte>): string
  {
    DetectedPrefix + TagId(uid)
  }

  predicate IsDetection(e: Event)
  {
    e.Print? && DetectedPrefix <= e.line
  }

  /** The events of one completed pass of the loop body (lines 10-17). */
  function CycleEvents(c: Cycle): seq<Event>
  {
    [WaitForTag, Request]
    + if c.requestError then []
      else [Anticoll] + if c.anticollError then [] else [Print(DetectionLine(c.uid)), Sleep(DebounceMs)]
  }

  function CyclesEvents(cs: seq<Cycle>): seq<Event>
  {
    if cs == [] then [] else CyclesEvents(cs[..|cs| - 1]) + CycleEvents(cs[|cs| - 1])
  }

  /** The calls of the last, interrupted pass: the interrupt arrives inside the last one. */
  function InterruptedEvents(stop: Interrupt): seq<Event>
  {
    match stop
    case InWait => [WaitForTag]
    case InRequest => [WaitForTag, Request]
    case InAnticoll => [WaitForTag, Request, Anticoll]
    case InSleep(uid) => [WaitForTag, Request, Anticoll, Print(DetectionLine(uid)), Sleep(DebounceMs)]
  }

  /** Everything the script does in a session, from the prompt to the cleanup. */
  function SessionTrace(s: Session): seq<Event>
  {
    [Print(Prompt)] + CyclesEvents(s.cycles) + InterruptedEvents(s.stop) + [Print(StopMessage), Cleanup]
  }

  /** The script itself: the polling loop, the interrupt handler and the `finally` clause. */
  method Run(s: Session) returns (trace: seq<Event>)
    ensures trace == SessionTrace(s)
  {
    trace := [Print(Prompt)];
    var i := 0;
    while i < |s.cycles|
      invariant 0 <= i <= |s.cycles|
      invariant trace == [Print(Prompt)] + CyclesEvents(s.cycles[..i])
    {
      var events := Poll(s.cycles[i]);
      assert s.cycles[..i + 1][..i] == s.cycles[..i];
      trace := trace + events;
      i := i + 1;
    }
    assert s.cycles[..i] == s.cycles;
    // except KeyboardInterrupt
    trace := trace + InterruptedEvents(s.stop) + [Print(StopMessage)];
    // finally
    trace := trace + [Cleanup];
  }

  /** One pass of the `while True` body: wait, request, anticollision, print and sleep. */
  method Poll(c: Cycle) returns (events: seq<Event>)
    ensures events == CycleEvents(c)
  {
    events := [WaitForTag, Request];
    if !c.requestError {
      events := events + [Anticoll];
      if !c.anticollError {
        var tagId := TagId(c.uid);
        events := events + [Print(DetectedPrefix + tagId), Sleep(DebounceMs)];
      }
    }
  }

  // ---------------------------------------------------------------------
  // Properties of the trace

  lemma {:induction false} NoCleanupInLoop(cs: seq<Cycle>)
    ensures multiset(CyclesEvents(cs))[Cleanup] == 0
    decreases |cs|
  {
    if cs != [] {
      NoCleanupInLoop(cs[..|cs| - 1]);
    }
  }

  /** `cleanup()` runs exactly once, as the very last thing, on every exit path. */
  lemma CleanupExactlyOnce(s: Session)
    ensures multiset(SessionTrace(s))[Cleanup] == 1
    ensures SessionTrace(s)[|SessionTrace(s)| - 1] == Cleanup
  {
    NoCleanupInLoop(s.cycles);
  }

  lemma {:induction false} NoPromptInLoop(cs: seq<Cycle>)
    ensures multiset(CyclesEvents(cs))[Print(Prompt)] == 0
    decreases |cs|
  {
    if cs != [] {
      NoPromptInLoop(cs[..|cs| - 1]);
      var c := cs[|cs| - 1];
      assert DetectionLine(c.uid)[0] != Prompt[0];
    }
  }

  lemma NoPromptInTail(stop: Interrupt)
    ensures multiset(InterruptedEvents(stop) + [Print(StopMessage), Cleanup])[Print(Prompt)] == 0
  {
    var stopLine := Print(StopMessage);
    assert stopLine != Print(Prompt) by { assert StopMessage[0] != Prompt[0]; }
    if stop.InSleep? {
      var line := Print(DetectionLine(stop.uid));
      assert line != Print(Prompt) by { assert DetectionLine(stop.uid)[0] != Prompt[0]; }
    }
  }

  /** The prompt is printed once, before the first call to the driver. */
  lemma PromptOnceFirst(s: Session)
    ensures SessionTrace(s)[0] == Print(Prompt)
    ensures multiset(SessionTrace(s))[Print(Prompt)] == 1
  {
    NoPromptInLoop(s.cycles);
    NoPromptInTail(s.stop);
    var loop := CyclesEvents(s.cycles);
    var tail := InterruptedEvents(s.stop) + [Print(StopMessage), Cleanup];
    assert SessionTrace(s) == [Print(Prompt)] + loop + tail;
    assert multiset(SessionTrace(s)) == multiset([Print(Prompt)]) + multiset(loop) + multiset(tail);
  }

  function NumDetecting(cs: seq<Cycle>): nat
  {
    if cs == [] then 0 else NumDetecting(cs[..|cs| - 1]) + if cs[|cs| - 1].Detects() then 1 else 0
  }

  function NumRequestOk(cs: seq<Cycle>): nat
  {
    if cs == [] then 0 else NumRequestOk(cs[..|cs| - 1]) + if cs[|cs| - 1].requestError then 0 else 1
  }

  /** Number of detection lines, of sleeps and of `anticoll()` calls in a trace. */
  function Detections(t: seq<Event>): nat
  {
    if t == [] then 0 else (if IsDetection(t[0]) then 1 else 0) + Detections(t[1..])
  }

  function Sleeps(t: seq<Event>): nat
  {
    if t == [] then 0 else (if t[0].Sleep? then 1 else 0) + Sleeps(t[1..])
  }

  function AnticollCalls(t: seq<Event>): nat
  {
    if t == [] then 0 else (if t[0] == Anticoll then 1 else 0) + AnticollCalls(t[1..])
  }

  lemma {:induction false} CountsAppend(a: seq<Event>, b: seq<Event>)
    ensures Detections(a + b) == Detections(a) + Detections(b)
    ensures Sleeps(a + b) == Sleeps(a) + Sleeps(b)
    ensures AnticollCalls(a + b) == AnticollCalls(a) + AnticollCalls(b)
    decreases |a|
  {
    if a == [] {
      assert a + b == b;
    } else {
      assert (a + b)[0] == a[0];
      assert (a + b)[1..] == a[1..] + b;
      CountsAppend(a[1..], b);
    }
  }

  lemma CountsCons(e: Event, t: seq<Event>)
    ensures Detections([e] + t) == (if IsDetection(e) then 1 else 0) + Detections(t)
    ensures Sleeps([e] + t) == (if e.Sleep? then 1 else 0) + Sleeps(t)
    ensures AnticollCalls([e] + t) == (if e == Anticoll then 1 else 0) + AnticollCalls(t)
  {
    assert ([e] + t)[0] == e;
    assert ([e] + t)[1..] == t;
  }

  /** The counts of the pass that starts with `wait_for_tag()` and ends as `c` says. */
  lemma PassCounts(requestOk: bool, anticollOk: bool, uid: seq<Byte>, rest: seq<Event>)
    ensures var t := [WaitForTag, Request]
                     + (if !requestOk then [] else [Anticoll] + if !anticollOk then [] else [Print(DetectionLine(uid)), Sleep(DebounceMs)]);
      && Detections(t + rest) == (if requestOk && anticollOk then 1 else 0) + Detections(rest)
      && Sleeps(t + rest) == (if requestOk && anticollOk then 1 else 0) + Sleeps(rest)
      && AnticollCalls(t + rest) == (if requestOk then 1 else 0) + AnticollCalls(rest)
  {
    var t := [WaitForTag, Request]
             + (if !requestOk then [] else [Anticoll] + if !anticollOk then [] else [Print(DetectionLine(uid)), Sleep(DebounceMs)]);
    var r0 := rest;
    var r1 := if requestOk && anticollOk then [Print(DetectionLine(uid)), Sleep(DebounceMs)] + rest else rest;
    if requestOk && anticollOk {
      assert DetectedPrefix <= DetectionLine(uid);
      CountsCons(Sleep(DebounceMs), rest);
      CountsCons(Print(DetectionLine(uid)), [Sleep(DebounceMs)] + rest);
      assert r1 == [Print(DetectionLine(uid))] + ([Sleep(DebounceMs)] + rest);
    }
    var r2 := if requestOk then [Anticoll] + r1 else r1;
    if requestOk {
      CountsCons(Anticoll, r1);
    }
    CountsCons(Request, r2);
    CountsCons(WaitForTag, [Request] + r2);
    assert t + rest == [WaitForTag] + ([Request] + r2);
  }

  lemma CycleCounts(c: Cycle)
    ensures Detections(CycleEvents(c)) == (if c.Detects() then 1 else 0)
    ensures Sleeps(CycleEvents(c)) == (if c.Detects() then 1 else 0)
    ensures AnticollCalls(CycleEvents(c)) == (if c.requestError then 0 else 1)
  {
    PassCounts(!c.requestError, !c.anticollError, c.uid, []);
    assert CycleEvents(c) + [] == CycleEvents(c);
  }

  lemma {:induction false} LoopCounts(cs: seq<Cycle>)
    ensures Detections(CyclesEvents(cs)) == NumDetecting(cs)
    ensures Sleeps(CyclesEvents(cs)) == NumDetecting(cs)
    ensures AnticollCalls(CyclesEvents(cs)) == NumRequestOk(cs)
    decreases |cs|
  {
    if cs != [] {
      LoopCounts(cs[..|cs| - 1]);
      CycleCounts(cs[|cs| - 1]);
      CountsAppend(CyclesEvents(cs[..|cs| - 1]), CycleEvents(cs[|cs| - 1]));
    }
  }

  lemma TailCounts(s: Session)
    ensures Detections(InterruptedEvents(s.stop) + [Print(StopMessage), Cleanup]) == (if s.stop.InSleep? then 1 else 0)
    ensures Sleeps(InterruptedEvents(s.stop) + [Print(StopMessage), Cleanup]) == (if s.stop.InSleep? then 1 else 0)
    ensures AnticollCalls(InterruptedEvents(s.stop) + [Print(StopMessage), Cleanup])
      == (if s.stop.InWait? || s.stop.InRequest? then 0 else 1)
  {
    var last := [Print(StopMessage), Cleanup];
    assert !IsDetection(Print(StopMessage)) by { assert StopMessage[0] != DetectedPrefix[0]; }
    CountsCons(Cleanup, []);
    CountsCons(Print(StopMessage), [Cleanup]);
    assert [Print(StopMessage)] + [Cleanup] == last;
    match s.stop
    case InWait =>
      CountsCons(WaitForTag, last);
    case InRequest =>
      CountsCons(Request, last);
      CountsCons(WaitForTag, [Request] + last);
      assert InterruptedEvents(s.stop) + last == [WaitForTag] + ([Request] + last);
    case InAnticoll =>
      PassCounts(true, false, [], last);
      assert InterruptedEvents(s.stop) == [WaitForTag, Request] + ([Anticoll] + []);
    case InSleep(uid) =>
      PassCounts(true, true, uid, last);
      assert InterruptedEvents(s.stop)
        == [WaitForTag, Request] + ([Anticoll] + [Print(DetectionLine(uid)), Sleep(DebounceMs)]);
  }

  /**
   * A detection line and a debounce sleep appear exactly once per pass in which
   * both `request()` and `anticoll()` succeeded (plus the pass cut short in its
   * sleep): a failed request or anticollision prints nothing and does not sleep.
   */
  lemma DetectionsMatchSuccesses(s: Session)
    ensures Detections(SessionTrace(s)) == NumDetecting(s.cycles) + (if s.stop.InSleep? then 1 else 0)
    ensures Sleeps(SessionTrace(s)) == NumDetecting(s.cycles) + (if s.stop.InSleep? then 1 else 0)
  {
    LoopCounts(s.cycles);
    TailCounts(s);
    var tail := InterruptedEvents(s.stop) + [Print(StopMessage), Cleanup];
    assert SessionTrace(s) == [Print(Prompt)] + (CyclesEvents(s.cycles) + tail);
    CountsAppend(CyclesEvents(s.cycles), tail);
    CountsAppend([Print(Prompt)], CyclesEvents(s.cycles) + tail);
    assert !IsDetection(Print(Prompt)) by { assert Prompt[0] != DetectedPrefix[0]; }
  }

  /** `anticoll()` is called only in passes whose `request()` succeeded. */
  lemma AnticollOnlyAfterRequest(s: Session)
    ensures AnticollCalls(SessionTrace(s))
      == NumRequestOk(s.cycles) + (if s.stop.InWait? || s.stop.InRequest? then 0 else 1)
  {
    LoopCounts(s.cycles);
    TailCounts(s);
    var tail := InterruptedEvents(s.stop) + [Print(StopMessage), Cleanup];
    assert SessionTrace(s) == [Print(Prompt)] + (CyclesEvents(s.cycles) + tail);
    CountsAppend(CyclesEvents(s.cycles), tail);
    CountsAppend([Print(Prompt)], CyclesEvents(s.cycles) + tail);
  }

  /** Every detection line is immediately followed by the 1.5 s debounce sleep. */
  ghost predicate Debounced(t: seq<Event>)
  {
    forall i :: 0 <= i < |t| && IsDetection(t[i]) ==> i + 1 < |t| && t[i + 1] == Sleep(DebounceMs)
  }

  lemma DebouncedAppend(a: seq<Event>, b: seq<Event>)
    requires Debounced(a) && Debounced(b)
    ensures Debounced(a + b)
  {
    forall i | 0 <= i < |a + b| && IsDetection((a + b)[i])
      ensures i + 1 < |a + b| && (a + b)[i + 1] == Sleep(DebounceMs)
    {
      if i < |a| {
        assert IsDetection(a[i]);
      } else {
        assert IsDetection(b[i - |a|]);
      }
    }
  }

  lemma CycleDebounced(c: Cycle)
    ensures Debounced(CycleEvents(c))
  {
  }

  lemma {:induction false} LoopDebounced(cs: seq<Cycle>)
    ensures Debounced(CyclesEvents(cs))
    decreases |cs|
  {
    if cs != [] {
      LoopDebounced(cs[..|cs| - 1]);
      CycleDebounced(cs[|cs| - 1]);
      DebouncedAppend(CyclesEvents(cs[..|cs| - 1]), CycleEvents(cs[|cs| - 1]));
    }
  }

  /** After every detection the script sleeps 1.5 s before it can wait for the next tag. */
  lemma SessionDebounced(s: Session)
    ensures Debounced(SessionTrace(s))
  {
    LoopDebounced(s.cycles);
    var tail := InterruptedEvents(s.stop) + [Print(StopMessage), Cleanup];
    assert Debounced(tail) by {
      assert !IsDetection(Print(StopMessage)) by { assert StopMessage[0] != DetectedPrefix[0]; }
    }
    assert Debounced([Print(Prompt)]) by { assert Prompt[0] != DetectedPrefix[0]; }
    DebouncedAppend(CyclesEvents(s.cycles), tail);
    DebouncedAppend([Print(Prompt)], CyclesEvents(s.cycles) + tail);
    assert SessionTrace(s) == [Print(Prompt)] + (CyclesEvents(s.cycles) + tail);
  }

  /**
   * A first pass with a failed request, a second that reads [4, 130, 22, 9],
   * then an interrupt while waiting: prompt, one detection line, the stop
   * message and one cleanup.
   */
  lemma ScenarioOneDetection()
    ensures SessionTrace(Session([Cycle(true, false, []), Cycle(false, false, [4, 130, 22, 9])], InWait))
      == [Print(Prompt), WaitForTag, Request,
          WaitForTag, Request, Anticoll, Print("Card detected! UID: 4:130:22:9"), Sleep(1500),
          WaitForTag, Print(StopMessage), Cleanup]
  {
    var cs := [Cycle(true, false, []), Cycle(false, false, [4, 130, 22, 9])];
    assert cs[..1][..0] == [];
    assert cs[..1] == [Cycle(true, false, [])];
    DetectionLineExample();
    assert CyclesEvents(cs) == CycleEvents(cs[0]) + CycleEvents(cs[1]);
    assert CycleEvents(cs[0]) == [WaitForTag, Request];
  }

  /** The UID bytes 4, 130, 22, 9 print as `4:130:22:9`. */
  lemma DetectionLineExample()
    ensures DetectionLine([4, 130, 22, 9]) == "Card detected! UID: 4:130:22:9"
  {
    PiecesExample();
    JoinExample();
  }

  /** Each of the bytes 4, 130, 22, 9 prints in decimal. */
  lemma PiecesExample()
    ensures Pieces([4, 130, 22, 9]) == ["4", "130", "22", "9"]
  {
    assert NatToString(130) == "130" by {
      assert NatToString(13) == "13";
    }
    assert NatToString(22) == "22";
  }

  /** The four pieces joined with colons. */
  lemma JoinExample()
    ensures Join(["4", "130", "22", "9"], ':') == "4:130:22:9"
  {
    assert Join(["22", "9"], ':') == "22:9";
    assert Join(["130", "22", "9"], ':') == "130:22:9" by {
      assert ["130", "22", "9"][1..] == ["22", "9"];
    }
    assert ["4", "130", "22", "9"][1..] == ["130", "22", "9"];
  }
}
