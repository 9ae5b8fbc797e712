/**
 * The typed "add shuttle" form (app/add-shuttle.jsx, and the same form in
 * the add modal of app/inspect.jsx): the default route, swapping its ends,
 * and the request body built when all five fields hold more than whitespace.
 */
module ShuttleForm {
  import opened Common

  const DefaultRouteFrom: string := "Carmona Estates"
  const DefaultRouteTo: string := "Waltermart"

  /** The JSON body posted to `/shuttles`. */
  datatype Payload = Payload(shuttleDriver: string, shuttlePlatNumber: string, route: string)

  /** Every field is non-blank once trimmed. */
  predicate AllFilled(first: string, last: string, plate: string, from: string, to: string)
  {
    Trim(first) != [] && Trim(last) != [] && Trim(plate) != [] && Trim(from) != [] && Trim(to) != []
  }

  /** The body `addShuttle` builds, or None for the validation alert. */
  function NewShuttle(first: string, last: string, plate: string, from: string, to: string): (r: Option<Payload>)
    ensures r.Some? <==> AllFilled(first, last, plate, from, to)
  {
    if AllFilled(first, last, plate, from, to) then
      Some(Payload(Trim(first) + " " + Trim(last), Trim(plate), Trim(from) + " to " + Trim(to)))
    else
      None
  }

  /**
   * The pieces of the body: the driver is the trimmed first name, a space
   * and the trimmed last name; the plate is the trimmed plate; the route is
   * the trimmed origin, " to " and the trimmed destination. Each piece can
   * be cut back out of the text by its length.
   */
  lemma NewShuttleFields(first: string, last: string, plate: string, from: string, to: string)
    requires NewShuttle(first, last, plate, from, to).Some?
    ensures var p := NewShuttle(first, last, plate, from, to).value;
      var d := p.shuttleDriver;
      && |d| == |Trim(first)| + 1 + |Trim(last)|
      && d[..|Trim(first)|] == Trim(first) && d[|Trim(first)|] == ' ' && d[|Trim(first)| + 1..] == Trim(last)
    ensures NewShuttle(first, last, plate, from, to).value.shuttlePlatNumber == Trim(plate)
    ensures var t := NewShuttle(first, last, plate, from, to).value.route;
      && |t| == |Trim(from)| + 4 + |Trim(to)|
      && t[..|Trim(from)|] == Trim(from) && t[|Trim(from)|..|Trim(from)| + 4] == " to " && t[|Trim(from)| + 4..] == Trim(to)
  {
    JoinedPieces(Trim(first), " ", Trim(last));
    JoinedPieces(Trim(from), " to ", Trim(to));
    var d := Trim(first) + " " + Trim(last);
    assert d[|Trim(first)|] == d[|Trim(first)|..|Trim(first)| + 1][0];
  }

  /** No field of the body starts or ends with whitespace, and none is empty. */
  lemma PayloadHasNoSurroundingWhitespace(first: string, last: string, plate: string, from: string, to: string)
    requires NewShuttle(first, last, plate, from, to).Some?
    ensures var p := NewShuttle(first, last, plate, from, to).value;
      && p.shuttleDriver != [] && !IsWhitespace(p.shuttleDriver[0]) && !IsWhitespace(p.shuttleDriver[|p.shuttleDriver| - 1])
      && p.shuttlePlatNumber != [] && !IsWhitespace(p.shuttlePlatNumber[0]) && !IsWhitespace(p.shuttlePlatNumber[|p.shuttlePlatNumber| - 1])
      && p.route != [] && !IsWhitespace(p.route[0]) && !IsWhitespace(p.route[|p.route| - 1])
  {
    TrimBounds(first);
    TrimBounds(last);
    TrimBounds(plate);
    TrimBounds(from);
    TrimBounds(to);
    var p := NewShuttle(first, last, plate, from, to).value;
    assert p.shuttleDriver[0] == Trim(first)[0];
    assert p.shuttleDriver[|p.shuttleDriver| - 1] == Trim(last)[|Trim(last)| - 1];
    assert p.route[0] == Trim(from)[0];
    assert p.route[|p.route| - 1] == Trim(to)[|Trim(to)| - 1];
  }

  /** The body depends only on the trimmed fields: trimming them first changes nothing. */
  lemma NewShuttleOfTrimmed(first: string, last: string, plate: string, from: string, to: string)
    ensures NewShuttle(Trim(first), Trim(last), Trim(plate), Trim(from), Trim(to)) == NewShuttle(first, last, plate, from, to)
  {
    TrimIdempotent(first);
    TrimIdempotent(last);
    TrimIdempotent(plate);
    TrimIdempotent(from);
    TrimIdempotent(to);
  }

  /** Swapping the route ends before adding gives the same driver and plate and the reversed route. */
  lemma NewShuttleSwapped(first: string, last: string, plate: string, from: string, to: string)
    requires NewShuttle(first, last, plate, from, to).Some?
    ensures var p := NewShuttle(first, last, plate, from, to).value;
      var q := NewShuttle(first, last, plate, to, from);
      && q.Some?
      && q.value.shuttleDriver == p.shuttleDriver && q.value.shuttlePlatNumber == p.shuttlePlatNumber
      && q.value.route == Trim(to) + " to " + Trim(from)
  {
  }

  /** What `addShuttle` does before any request: alert, or post this body. */
  datatype AddOutcome = ValidationAlert | Post(payload: Payload)

  /** The add-shuttle page: its five text fields. */
  class AddShuttlePage {
    var newFirstName: string
    var newLastName: string
    var newPlate: string
    var newRouteFrom: string
    var newRouteTo: string

    /** The page opens with empty names and plate and the default route. */
    constructor ()
      ensures newFirstName == "" && newLastName == "" && newPlate == ""
      ensures newRouteFrom == DefaultRouteFrom && newRouteTo == DefaultRouteTo
    {
      newFirstName, newLastName, newPlate := "", "", "";
      newRouteFrom, newRouteTo := DefaultRouteFrom, DefaultRouteTo;
    }

    /** `swapRoute`: the origin and destination change places; nothing else changes. */
    method SwapRoute()
      modifies this
      ensures newRouteFrom == old(newRouteTo) && newRouteTo == old(newRouteFrom)
      ensures newFirstName == old(newFirstName) && newLastName == old(newLastName) && newPlate == old(newPlate)
    {
      newRouteFrom, newRouteTo := newRouteTo, newRouteFrom;
    }

    /**
     * `addShuttle` up to the request: a post exactly when every field holds
     * more than whitespace, carrying the body built from the trimmed fields;
     * the fields themselves are not touched. The response and the navigation
     * back are not part of this model.
     */
    method AddShuttle() returns (outcome: AddOutcome)
      ensures outcome.Post? <==> AllFilled(newFirstName, newLastName, newPlate, newRouteFrom, newRouteTo)
      ensures outcome.Post? ==> Some(outcome.payload) == NewShuttle(newFirstName, newLastName, newPlate, newRouteFrom, newRouteTo)
    {
      var built := NewShuttle(newFirstName, newLastName, newPlate, newRouteFrom, newRouteTo);
      if built.Some? {
        outcome := Post(built.value);
      } else {
        outcome := ValidationAlert;
      }
    }
  }

  /** Swapping twice puts both route ends back. */
  method SwapTwiceRestores(page: AddShuttlePage)
    modifies page
    ensures page.newRouteFrom == old(page.newRouteFrom) && page.newRouteTo == old(page.newRouteTo)
  {
    page.SwapRoute();
    page.SwapRoute();
  }
}
