/**
 * The Inspect screen of app/inspect.jsx: the sorted shuttle list, the
 * delete confirmation, and the add-shuttle modal with its typed fields.
 * Requests are left to the caller: a fetch or delete response is passed in,
 * and `AddShuttle` returns the body it would post.
 */
module Inspect {
  import opened Common
  import opened ShuttleList
  import opened ShuttleForm

  class InspectScreen {
    var shuttleList: seq<Shuttle>
    var deleteModalVisible: bool
    var shuttleToDelete: Option<Shuttle>
    var addShuttleModalVisible: bool
    var newFirstName: string
    var newLastName: string
    var newPlate: string
    var newRouteFrom: string
    var newRouteTo: string

    /** The form is reset: empty names and plate, the default route. */
    predicate FormReset()
      reads this
    {
      newFirstName == "" && newLastName == "" && newPlate == ""
      && newRouteFrom == DefaultRouteFrom && newRouteTo == DefaultRouteTo
    }

    /** The screen mounts with an empty list, no modal open and a reset form. */
    constructor ()
      ensures shuttleList == [] && !deleteModalVisible && shuttleToDelete == None
      ensures !addShuttleModalVisible && FormReset()
    {
      shuttleList := [];
      deleteModalVisible, shuttleToDelete := false, None;
      addShuttleModalVisible := false;
      newFirstName, newLastName, newPlate := "", "", "";
      newRouteFrom, newRouteTo := DefaultRouteFrom, DefaultRouteTo;
    }

    /**
     * `fetchShuttles`: on a good response the list becomes the response's
     * shuttles sorted by id, largest first; on an error it is kept.
     */
    method FetchShuttles(response: Option<seq<Shuttle>>)
      modifies this
      ensures response.Some? ==> SortedByIdDescending(shuttleList) && multiset(shuttleList) == multiset(response.value)
      ensures response.None? ==> shuttleList == old(shuttleList)
      ensures deleteModalVisible == old(deleteModalVisible) && shuttleToDelete == old(shuttleToDelete)
      ensures addShuttleModalVisible == old(addShuttleModalVisible)
      ensures newFirstName == old(newFirstName) && newLastName == old(newLastName) && newPlate == old(newPlate)
      ensures newRouteFrom == old(newRouteFrom) && newRouteTo == old(newRouteTo)
    {
      if response.Some? {
        var data := new Shuttle[|response.value|](i requires 0 <= i < |response.value| => response.value[i]);
        assert data[..] == response.value;
        SortByIdDescending(data);
        shuttleList := data[..];
      }
    }

    /** `handleDelete`: a successful delete drops every shuttle with that id. */
    method HandleDelete(id: int, deleted: bool)
      modifies this`shuttleList
      ensures shuttleList == if deleted then RemoveId(old(shuttleList), id) else old(shuttleList)
    {
      if deleted {
        shuttleList := RemoveId(shuttleList, id);
      }
    }

    /** `confirmDelete`: remembers the shuttle and shows the confirmation. */
    method ConfirmDelete(shuttle: Shuttle)
      modifies this`shuttleToDelete, this`deleteModalVisible
      ensures shuttleToDelete == Some(shuttle) && deleteModalVisible
    {
      shuttleToDelete := Some(shuttle);
      deleteModalVisible := true;
    }

    /**
     * `handleConfirmDelete`: with nothing selected, nothing happens; otherwise
     * the selected id is deleted (as the response allows), the selection is
     * cleared and the confirmation hidden.
     */
    method HandleConfirmDelete(deleted: bool)
      modifies this`shuttleList, this`shuttleToDelete, this`deleteModalVisible
      ensures old(shuttleToDelete).None? ==>
        shuttleList == old(shuttleList) && shuttleToDelete == None && deleteModalVisible == old(deleteModalVisible)
      ensures old(shuttleToDelete).Some? ==>
        && shuttleList == (if deleted then RemoveId(old(shuttleList), old(shuttleToDelete).value.id) else old(shuttleList))
        && shuttleToDelete == None && !deleteModalVisible
    {
      if shuttleToDelete.Some? {
        HandleDelete(shuttleToDelete.value.id, deleted);
        shuttleToDelete := None;
        deleteModalVisible := false;
      }
    }

    /** `cancelDelete`: clears the selection and hides the confirmation; the list is untouched. */
    method CancelDelete()
      modifies this`shuttleToDelete, this`deleteModalVisible
      ensures shuttleToDelete == None && !deleteModalVisible
    {
      shuttleToDelete := None;
      deleteModalVisible := false;
    }

    /** `swapRoute`: the two route ends change places. */
    method SwapRoute()
      modifies this`newRouteFrom, this`newRouteTo
      ensures newRouteFrom == old(newRouteTo) && newRouteTo == old(newRouteFrom)
    {
      newRouteFrom, newRouteTo := newRouteTo, newRouteFrom;
    }

    /** The "+" button: shows the add-shuttle modal; the form keeps what was typed before. */
    method OpenAddModal()
      modifies this`addShuttleModalVisible
      ensures addShuttleModalVisible
    {
      addShuttleModalVisible := true;
    }

    /** The modal's Cancel button: hides the modal; the form keeps what was typed. */
    method CancelAddModal()
      modifies this`addShuttleModalVisible
      ensures !addShuttleModalVisible
    {
      addShuttleModalVisible := false;
    }

    /** The success branch of `addShuttle`: the modal closes and the fields go back to their defaults. */
    method ResetForm()
      modifies this`addShuttleModalVisible, this`newFirstName, this`newLastName, this`newPlate, this`newRouteFrom, this`newRouteTo
      ensures !addShuttleModalVisible && FormReset()
    {
      addShuttleModalVisible := false;
      newFirstName, newLastName, newPlate := "", "", "";
      newRouteFrom, newRouteTo := DefaultRouteFrom, DefaultRouteTo;
    }

    /**
     * `addShuttle`: the validation alert when a field is blank, nothing else
     * changing; otherwise the body is posted, and when the server accepts it
     * the modal closes and the form is reset. A refused post changes nothing.
     * The list refresh that follows is a separate `FetchShuttles`.
     */
    method AddShuttle(accepted: bool) returns (outcome: AddOutcome)
      modifies this`addShuttleModalVisible, this`newFirstName, this`newLastName, this`newPlate, this`newRouteFrom, this`newRouteTo
      ensures outcome.Post? <==> AllFilled(old(newFirstName), old(newLastName), old(newPlate), old(newRouteFrom), old(newRouteTo))
      ensures outcome.Post? ==> Some(outcome.payload) == NewShuttle(old(newFirstName), old(newLastName), old(newPlate), old(newRouteFrom), old(newRouteTo))
      ensures outcome.Post? && accepted ==> !addShuttleModalVisible && FormReset()
      ensures outcome.ValidationAlert? || !accepted ==>
        && addShuttleModalVisible == old(addShuttleModalVisible)
        && newFirstName == old(newFirstName) && newLastName == old(newLastName) && newPlate == old(newPlate)
        && newRouteFrom == old(newRouteFrom) && newRouteTo == old(newRouteTo)
    {
      var built := NewShuttle(newFirstName, newLastName, newPlate, newRouteFrom, newRouteTo);
      if built.None? {
        outcome := ValidationAlert;
      } else {
        outcome := Post(built.value);
        if accepted {
          ResetForm();
        }
      }
    }
  }

  /** After a good fetch and a successful delete the list is still sorted, largest id first, and the id is gone. */
  method FetchThenDelete(screen: InspectScreen, response: seq<Shuttle>, id: int)
    modifies screen
    ensures SortedByIdDescending(screen.shuttleList)
    ensures forall i :: 0 <= i < |screen.shuttleList| ==> screen.shuttleList[i].id != id
  {
    screen.FetchShuttles(Some(response));
    RemoveIdKeepsOrder(screen.shuttleList, id);
    screen.HandleDelete(id, true);
  }
}
