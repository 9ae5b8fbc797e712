/**
 * The kiosk's top-up wizard (web/src/pages/PaymentSteps.jsx).
 *
 * Five screens follow each other: 1 idle, 2 scan the card, 3 choose an
 * amount, 4 type an amount, 5 confirm. Every screen calls `handleNext` with
 * whatever it collected; the wizard keeps the step, the card's tag ID, the
 * amount and the status line of the last payment. The payment request itself,
 * its timers and the idle countdown are events fed to the wizard from outside.
 */
module PaymentSteps {
  import opened Common

  /**
   * The object a screen passes to `handleNext`; a field the screen does not
   * set is None or false. `amount` is the number `parseFloat` gave.
   */
  datatype NextData = NextData(rfid: Option<string>, amount: Option<Decimal>, custom: bool, manualEntry: bool)

  /** `data.rfid` is truthy: present and not the empty string. */
  predicate HasTag(data: NextData)
  {
    data.rfid.Some? && data.rfid.value != []
  }

  /** `data.amount` is truthy: present and not zero. */
  predicate HasAmount(data: NextData)
  {
    data.amount.Some? && data.amount.value.IsTruthy()
  }

  /** The four state cells: `currentStep`, `selectedAmount`, `rfidData`, `paymentStatus`. */
  datatype State = State(step: int, amount: Option<Decimal>, rfid: Option<string>, status: Option<string>)

  /** Step 1 with nothing recorded: the initial state and the state after `resetState`. */
  const Initial: State := State(1, None, None, None)

  /**
   * What the wizard can be in: a step of 1..5; a tag is recorded exactly from
   * step 3 on and is not empty; an amount is recorded exactly at step 5 and is
   * not zero.
   */
  predicate Valid(st: State)
  {
    && 1 <= st.step <= 5
    && (st.step >= 3 <==> st.rfid.Some?)
    && (st.rfid.Some? ==> st.rfid.value != [])
    && (st.step == 5 <==> st.amount.Some?)
    && (st.amount.Some? ==> st.amount.value.IsTruthy())
  }

  /** The new state after `handleNext(data)`, and whether it started `processPayment`. */
  datatype Outcome = Outcome(state: State, pay: bool)

  /**
   * One call of `handleNext`. The step never goes back, the status line is
   * never touched, payment starts exactly at step 5 and then nothing else
   * changes, and a (step, data) pair that none of the branches matches
   * changes nothing at all.
   */
  function Next(st: State, data: NextData): (r: Outcome)
    ensures r.pay <==> st.step == 5
    ensures r.pay ==> r.state == st
    ensures st.step <= r.state.step && r.state.status == st.status
    ensures (st.step == 2 && !HasTag(data)) || (st.step == 4 && !HasAmount(data))
            || (st.step == 3 && !HasAmount(data) && !data.custom) || !(1 <= st.step <= 5)
            ==> r == Outcome(st, false)
    ensures Valid(st) ==> Valid(r.state)
    // the branches that move on: 1 -> 2, a tag recorded -> 3, an amount recorded -> 5, custom -> 4
    ensures st.step == 1 ==> r == Outcome(st.(step := 2), false)
    ensures st.step == 2 && HasTag(data) ==> r == Outcome(st.(rfid := data.rfid, step := 3), false)
    ensures st.step == 3 && HasAmount(data) ==> r == Outcome(st.(amount := data.amount, step := 5), false)
    ensures st.step == 3 && !HasAmount(data) && data.custom ==> r == Outcome(st.(step := 4), false)
    ensures st.step == 4 && HasAmount(data) ==> r == Outcome(st.(amount := data.amount, step := 5), false)
  {
    if st.step == 1 then
      Outcome(st.(step := 2), false)
    else if st.step == 2 && HasTag(data) then
      Outcome(st.(rfid := data.rfid, step := 3), false)
    else if st.step == 3 && HasAmount(data) then
      Outcome(st.(amount := data.amount, step := 5), false)
    else if st.step == 3 && data.custom then
      Outcome(st.(step := 4), false)
    else if st.step == 4 && HasAmount(data) then
      Outcome(st.(amount := data.amount, step := 5), false)
    else if st.step == 5 then
      Outcome(st, true)
    else
      Outcome(st, false)
  }

  /** The body `processPayment` posts: `{tag_id: rfidData, amount: selectedAmount}`. */
  datatype PaymentBody = PaymentBody(tagId: Option<string>, amount: Option<Decimal>)

  /** A payment started from a valid state always carries a tag and a non-zero amount. */
  function PaymentRequest(st: State): (b: PaymentBody)
    ensures Valid(st) && st.step == 5 ==>
      b.tagId.Some? && b.tagId.value != [] && b.amount.Some? && b.amount.value.IsTruthy()
    ensures b.tagId == st.rfid && b.amount == st.amount
  {
    PaymentBody(st.rfid, st.amount)
  }

  /** Everything that changes the wizard's state. */
  datatype Event =
    | HandleNext(data: NextData)
    | PaymentSucceeded          // the server answered `success`
    | PaymentFailed(message: string)  // the server refused, or the request threw
    | ErrorCleared              // the 3 s timer after a failure
    | ResetTimer                // the 2 s timer after a success
    | IdleTick(timeLeft: nat)   // the idle countdown changed

  const SuccessStatus: string := "success"
  const ErrorPrefix: string := "Error: "

  /**
   * The state after one event. The payment outcome only sets the status line;
   * the success timer and a countdown that reaches 0 both go back to the
   * initial state. A valid state stays valid.
   */
  function Apply(st: State, e: Event): (r: State)
    ensures Valid(st) ==> Valid(r)
    ensures e.IdleTick? ==> (r == Initial <==> e.timeLeft == 0 || st == Initial)
    ensures e.PaymentSucceeded? || e.PaymentFailed? || e.ErrorCleared? ==>
      r.step == st.step && r.rfid == st.rfid && r.amount == st.amount
    ensures e.PaymentFailed? ==> r.status.Some? && ErrorPrefix <= r.status.value
    ensures e.HandleNext? ==> r == Next(st, e.data).state
    ensures e.PaymentSucceeded? ==> r.status == Some(SuccessStatus)
    ensures e.PaymentFailed? ==> r.status == Some(ErrorPrefix + e.message)
    ensures e.ErrorCleared? ==> r.status == None
    ensures e.ResetTimer? ==> r == Initial
    ensures e.IdleTick? && e.timeLeft != 0 ==> r == st
  {
    match e
    case HandleNext(data) => Next(st, data).state
    case PaymentSucceeded => st.(status := Some(SuccessStatus))
    case PaymentFailed(message) => st.(status := Some(ErrorPrefix + message))
    case ErrorCleared => st.(status := None)
    case ResetTimer => Initial
    case IdleTick(timeLeft) => if timeLeft == 0 then Initial else st
  }

  function Replay(st: State, events: seq<Event>): State
    decreases |events|
  {
    if events == [] then st else Replay(Apply(st, events[0]), events[1..])
  }

  /** Every state reachable from a valid state by any sequence of events is valid. */
  lemma {:induction false} ReplayValid(st: State, events: seq<Event>)
    requires Valid(st)
    ensures Valid(Replay(st, events))
    decreases |events|
  {
    if events != [] {
      ReplayValid(Apply(st, events[0]), events[1..]);
    }
  }

  /** The invariants hold in every state the wizard can reach from its start. */
  lemma Reachable(events: seq<Event>)
    ensures Valid(Replay(Initial, events))
  {
    ReplayValid(Initial, events);
  }

  /**
   * On the amount screen an amount wins over `custom`: it is recorded and the
   * wizard jumps straight to confirmation.
   */
  lemma AmountBeforeCustom(st: State, a: Decimal)
    requires Valid(st) && st.step == 3 && a.IsTruthy()
    ensures Next(st, NextData(None, Some(a), true, false)).state
      == State(5, Some(a), st.rfid, st.status)
  {
  }

  /** The scan screen's "enter manually" button (`{manualEntry: true}`) leaves the wizard where it is. */
  lemma ManualEntryStays(st: State)
    requires st.step == 2
    ensures Next(st, NextData(None, None, false, true)) == Outcome(st, false)
  {
  }

  /** Idle, card, custom amount, typed amount, confirm: payment starts with that card and amount. */
  lemma CustomAmountWalk(tag: string, a: Decimal)
    requires tag != [] && a.IsTruthy()
    ensures var s1 := Next(Initial, NextData(None, None, false, false)).state;
            var s2 := Next(s1, NextData(Some(tag), None, false, false)).state;
            var s3 := Next(s2, NextData(None, None, true, false)).state;
            var s4 := Next(s3, NextData(None, Some(a), false, false)).state;
            && s4 == State(5, Some(a), Some(tag), None)
            && Next(s4, NextData(None, None, false, false)).pay
            && PaymentRequest(s4) == PaymentBody(Some(tag), Some(a))
  {
  }

  /** The wizard as the component holds it: four state cells updated by its handlers. */
  class Kiosk {
    var currentStep: int
    var selectedAmount: Option<Decimal>
    var rfidData: Option<string>
    var paymentStatus: Option<string>

    function Snapshot(): State
      reads this
    {
      State(currentStep, selectedAmount, rfidData, paymentStatus)
    }

    constructor ()
      ensures Snapshot() == Initial
    {
      currentStep := 1;
      selectedAmount := None;
      rfidData := None;
      paymentStatus := None;
    }

    /** `resetState`. */
    method ResetState()
      modifies this
      ensures Snapshot() == Initial
    {
      currentStep := 1;
      selectedAmount := None;
      rfidData := None;
      paymentStatus := None;
    }

    /** `handleNext`; `pay` says that `processPayment` was started. */
    method HandleNext(data: NextData) returns (pay: bool)
      modifies this
      ensures Outcome(Snapshot(), pay) == Next(old(Snapshot()), data)
      ensures Valid(old(Snapshot())) ==> Valid(Snapshot())
    {
      pay := false;
      if currentStep == 1 {
        currentStep := 2;
      } else if currentStep == 2 && HasTag(data) {
        rfidData := data.rfid;
        currentStep := 3;
      } else if currentStep == 3 && HasAmount(data) {
        selectedAmount := data.amount;
        currentStep := 5;
      } else if currentStep == 3 && data.custom {
        currentStep := 4;
      } else if currentStep == 4 && HasAmount(data) {
        selectedAmount := data.amount;
        currentStep := 5;
      } else if currentStep == 5 {
        pay := true;
      }
    }

    /** The answer to the payment request: `success`, or the error message it carried. */
    method OnPaymentResponse(success: bool, message: string)
      modifies this
      ensures success ==> Snapshot() == Apply(old(Snapshot()), PaymentSucceeded)
      ensures !success ==> Snapshot() == Apply(old(Snapshot()), PaymentFailed(message))
    {
      if success {
        paymentStatus := Some(SuccessStatus);
      } else {
        paymentStatus := Some(ErrorPrefix + message);
      }
    }

    /** The timer set after a failure clears the status line. */
    method ClearStatus()
      modifies this
      ensures Snapshot() == Apply(old(Snapshot()), ErrorCleared)
    {
      paymentStatus := None;
    }

    /** The effect on `timeLeft`: reset once the idle countdown reaches 0. */
    method OnIdleTick(timeLeft: nat)
      modifies this
      ensures Snapshot() == Apply(old(Snapshot()), IdleTick(timeLeft))
    {
      if timeLeft == 0 {
        ResetState();
      }
    }
  }
}
