/**
 * The mobile admin panel (mobileapp/app/admin-panel.jsx): sections for
 * passenger types, routes, inspectors, drivers and shuttle plates. Each
 * section keeps its modal flags and temporary fields; a save or delete
 * handler either does nothing (its guard fails) or sends one request, and
 * when the server accepts it the handler closes its modal and resets its
 * fields. The list refreshes that follow an accepted request are left to the
 * caller.
 */
module AdminPanel {
  import opened Common

  datatype PassengerType = PassengerType(id: int, passengerType: string, rateText: string)
  datatype RouteRow = RouteRow(id: int, origin: string, destination: string, rateText: string)
  datatype User = User(id: int, surname: Option<string>, firstname: Option<string>,
                       middleinitial: Option<string>, username: Option<string>)
  datatype PlateRow = PlateRow(id: int, plateNumber: string)

  /** The requests the handlers send; a rate is `parseFloat(text) || 0`. */
  datatype Request =
    | PutPassengerType(passengerTypeId: int, passengerType: string, passengerRate: Decimal)
    | DeletePassengerType(passengerTypeId: int)
    | PostPassengerType(newType: string, newRate: Decimal)
    | PutRoute(routeId: int, origin: string, destination: string, addedRate: Decimal)
    | DeleteRoute(routeId: int)
    | PostRoute(newOrigin: string, newDestination: string, newAddedRate: Decimal)
    | SetRole(userId: int, role: Option<string>)
    | PostPlate(plateNumber: string)
    | DeletePlate(plateId: int)

  // ---------------------------------------------------------------------
  // The user search of the add-inspector and add-driver modals

  /** `x || ''`: a missing text is the empty string. */
  function OrEmpty(x: Option<string>): string
  {
    if x.Some? then x.value else ""
  }

  /** `${surname}, ${firstname} ${middleinitial}` with missing parts empty, then trimmed. */
  function FullName(u: User): string
  {
    Trim(OrEmpty(u.surname) + ", " + OrEmpty(u.firstname) + " " + OrEmpty(u.middleinitial))
  }

  /** Trimming the end keeps every character up to the last non-whitespace one. */
  lemma {:induction false} TrimEndKeeps(t: string, k: nat)
    requires k < |t| && !IsWhitespace(t[k])
    ensures |TrimEnd(t)| > k
    decreases |t|
  {
    if IsWhitespace(t[|t| - 1]) {
      TrimEndKeeps(t[..|t| - 1], k);
    }
  }

  /**
   * A surname that starts with a non-whitespace character opens the full
   * name, followed by the comma.
   */
  lemma FullNameStartsWithSurname(u: User)
    requires u.surname.Some? && u.surname.value != [] && !IsWhitespace(u.surname.value[0])
    ensures var s := u.surname.value; |FullName(u)| > |s| && FullName(u)[..|s| + 1] == s + ","
  {
    var s := u.surname.value;
    var rest := ", " + OrEmpty(u.firstname) + " " + OrEmpty(u.middleinitial);
    var t := s + rest;
    assert t == OrEmpty(u.surname) + ", " + OrEmpty(u.firstname) + " " + OrEmpty(u.middleinitial);
    assert t[0] == s[0];
    assert TrimStart(t) == t;
    assert t[|s|] == rest[0] == ',';
    TrimEndKeeps(t, |s|);
    var r := TrimEnd(t);
    assert r[..|s| + 1] == t[..|s| + 1];
    assert t[..|s| + 1] == s + [rest[0]];
  }

  /** A user with no names at all has the full name ",". */
  lemma FullNameOfNoNames(id: int, username: Option<string>)
    ensures FullName(User(id, None, None, None, username)) == ","
  {
    var u := User(id, None, None, None, username);
    assert OrEmpty(u.surname) + ", " + OrEmpty(u.firstname) + " " + OrEmpty(u.middleinitial) == [',', ' ', ' '];
    TrimCommaSpaces();
  }

  /** Trimming ",  " leaves the comma. */
  lemma TrimCommaSpaces()
    ensures Trim([',', ' ', ' ']) == [',']
  {
    var t := [',', ' ', ' '];
    assert !IsWhitespace(',') && IsWhitespace(' ');
    assert TrimStart(t) == t;
    assert t[..2] == [',', ' '] && t[..2][..1] == [','];
    assert TrailingWhitespace([',']) == 0;
    assert TrailingWhitespace([',', ' ']) == 1;
  }

  /** The fields the search looks at: the full name and the username. */
  function UserFields(u: User): seq<string>
  {
    [FullName(u), OrEmpty(u.username)]
  }

  /**
   * `filteredUsers` / `filteredDriverUsers`: exactly the users whose full
   * name or username contains the query, ignoring case, in their order.
   */
  function UserSearch(users: seq<User>, query: string): (r: seq<User>)
    ensures forall i :: 0 <= i < |r| ==> r[i] in users && AnyFieldContains(UserFields(r[i]), query)
    ensures forall i :: 0 <= i < |users| && AnyFieldContains(UserFields(users[i]), query) ==> users[i] in r
    ensures IsSubsequence(r, users)
    ensures forall u :: Count(r, u) == if AnyFieldContains(UserFields(u), query) then Count(users, u) else 0
  {
    SearchBy(users, UserFields, query)
  }

  /** An empty query lists every user. */
  lemma EmptyQueryListsAll(users: seq<User>)
    ensures UserSearch(users, "") == users
  {
    SearchByEmpty(users, UserFields);
  }

  /** The letter case of the query makes no difference. */
  lemma UserSearchIgnoresCase(users: seq<User>, query: string)
    ensures UserSearch(users, ToUpper(query)) == UserSearch(users, query)
  {
    SearchByIgnoresCase(users, UserFields, query);
  }

  /** Typing more at the end of the query never brings a user back. */
  lemma LongerQueryNarrows(users: seq<User>, query: string, more: string)
    ensures IsSubsequence(UserSearch(users, query + more), UserSearch(users, query))
  {
    SearchByLongerNarrows(users, UserFields, query, more);
  }

  /** Searching for a user's own username finds that user. */
  lemma UsernameFindsUser(users: seq<User>, i: nat)
    requires i < |users| && users[i].username.Some?
    ensures users[i] in UserSearch(users, users[i].username.value)
  {
    var name := users[i].username.value;
    assert Contains(ToLower(OrEmpty(users[i].username)), ToLower(name)) by {
      assert ToLower(name) <= ToLower(name)[0..];
    }
    assert UserFields(users[i])[1] == OrEmpty(users[i].username);
  }

  // ---------------------------------------------------------------------
  // Passenger types

  class PassengerTypesSection {
    var editingPassenger: Option<PassengerType>
    var tempPassengerType: string
    var tempFareRate: string
    var newPassengerModalVisible: bool
    var newPassengerType: string
    var newPassengerFare: string

    /** The edit modal is shown exactly while a passenger type is being edited. */
    predicate EditModalVisible()
      reads this
    {
      editingPassenger.Some?
    }

    /** No edit is open and its fields are empty. */
    predicate EditClosed()
      reads this
    {
      editingPassenger == None && tempPassengerType == "" && tempFareRate == ""
    }

    /** The new-type modal is hidden and its fields are empty. */
    predicate NewClosed()
      reads this
    {
      !newPassengerModalVisible && newPassengerType == "" && newPassengerFare == ""
    }

    constructor ()
      ensures EditClosed() && NewClosed()
    {
      editingPassenger, tempPassengerType, tempFareRate := None, "", "";
      newPassengerModalVisible, newPassengerType, newPassengerFare := false, "", "";
    }

    /** `openPassengerEditModal`: the edit opens on `p`, its fields holding its type and rate. */
    method OpenPassengerEditModal(p: PassengerType)
      modifies this`editingPassenger, this`tempPassengerType, this`tempFareRate
      ensures editingPassenger == Some(p) && tempPassengerType == p.passengerType && tempFareRate == p.rateText
      ensures EditModalVisible()
    {
      editingPassenger, tempPassengerType, tempFareRate := Some(p), p.passengerType, p.rateText;
    }

    /** `cancelPassengerEdit`: closes the edit and empties its fields. */
    method CancelPassengerEdit()
      modifies this`editingPassenger, this`tempPassengerType, this`tempFareRate
      ensures EditClosed() && !EditModalVisible()
    {
      editingPassenger, tempPassengerType, tempFareRate := None, "", "";
    }

    /**
     * `savePassengerEdit`: nothing without an edit open; otherwise the type
     * text and the parsed rate are sent, and an accepted update closes the edit.
     */
    method SavePassengerEdit(accepted: bool) returns (sent: Option<Request>)
      modifies this`editingPassenger, this`tempPassengerType, this`tempFareRate
      ensures old(editingPassenger).None? ==> sent == None && unchanged(this)
      ensures old(editingPassenger).Some? ==>
        sent == Some(PutPassengerType(old(editingPassenger).value.id, old(tempPassengerType), ParseFloatOrZero(old(tempFareRate))))
      ensures old(editingPassenger).Some? && accepted ==> EditClosed()
      ensures old(editingPassenger).Some? && !accepted ==> unchanged(this)
    {
      if editingPassenger.None? {
        return None;
      }
      sent := Some(PutPassengerType(editingPassenger.value.id, tempPassengerType, ParseFloatOrZero(tempFareRate)));
      if accepted {
        CancelPassengerEdit();
      }
    }

    /** `deletePassengerType`: nothing without an edit open; otherwise the delete is sent. */
    method DeletePassengerTypeHandler(accepted: bool) returns (sent: Option<Request>)
      modifies this`editingPassenger, this`tempPassengerType, this`tempFareRate
      ensures old(editingPassenger).None? ==> sent == None && unchanged(this)
      ensures old(editingPassenger).Some? ==> sent == Some(DeletePassengerType(old(editingPassenger).value.id))
      ensures old(editingPassenger).Some? && accepted ==> EditClosed()
      ensures old(editingPassenger).Some? && !accepted ==> unchanged(this)
    {
      if editingPassenger.None? {
        return None;
      }
      sent := Some(DeletePassengerType(editingPassenger.value.id));
      if accepted {
        CancelPassengerEdit();
      }
    }

    /** `openNewPassengerModal`: shows the new-type modal with empty fields. */
    method OpenNewPassengerModal()
      modifies this`newPassengerModalVisible, this`newPassengerType, this`newPassengerFare
      ensures newPassengerModalVisible && newPassengerType == "" && newPassengerFare == ""
    {
      newPassengerModalVisible, newPassengerType, newPassengerFare := true, "", "";
    }

    /** `cancelNewPassengerModal`: hides the modal and empties its fields. */
    method CancelNewPassengerModal()
      modifies this`newPassengerModalVisible, this`newPassengerType, this`newPassengerFare
      ensures NewClosed()
    {
      newPassengerModalVisible, newPassengerType, newPassengerFare := false, "", "";
    }

    /**
     * `saveNewPassengerType`: nothing when the type is blank after trimming;
     * otherwise the type as typed (not trimmed) and the parsed fare are sent,
     * and an accepted post closes the modal.
     */
    method SaveNewPassengerType(accepted: bool) returns (sent: Option<Request>)
      modifies this`newPassengerModalVisible, this`newPassengerType, this`newPassengerFare
      ensures sent.None? <==> Trim(old(newPassengerType)) == ""
      ensures sent.Some? ==> sent.value == PostPassengerType(old(newPassengerType), ParseFloatOrZero(old(newPassengerFare)))
      ensures sent.Some? && accepted ==> NewClosed()
      ensures sent.None? || !accepted ==> unchanged(this)
    {
      if Trim(newPassengerType) == "" {
        return None;
      }
      sent := Some(PostPassengerType(newPassengerType, ParseFloatOrZero(newPassengerFare)));
      if accepted {
        CancelNewPassengerModal();
      }
    }
  }

  // ---------------------------------------------------------------------
  // Routes

  class RoutesSection {
    var routes: seq<RouteRow>
    var editingRouteIndex: Option<nat>
    var tempRouteFrom: string
    var tempRouteTo: string
    var tempRouteRate: string
    var newRouteModalVisible: bool
    var newRouteFrom: string
    var newRouteTo: string
    var newRouteRate: string

    /** No edit is open and its fields are empty. */
    predicate EditClosed()
      reads this
    {
      editingRouteIndex == None && tempRouteFrom == "" && tempRouteTo == "" && tempRouteRate == ""
    }

    /** The new-route modal is hidden and its fields are empty. */
    predicate NewClosed()
      reads this
    {
      !newRouteModalVisible && newRouteFrom == "" && newRouteTo == "" && newRouteRate == ""
    }

    constructor ()
      ensures routes == [] && EditClosed() && NewClosed()
    {
      routes := [];
      editingRouteIndex, tempRouteFrom, tempRouteTo, tempRouteRate := None, "", "", "";
      newRouteModalVisible, newRouteFrom, newRouteTo, newRouteRate := false, "", "", "";
    }

    /** `fetchRoutes`: a good response replaces the list; the open edit keeps its index. */
    method FetchRoutes(response: Option<seq<RouteRow>>)
      modifies this`routes
      ensures routes == if response.Some? then response.value else old(routes)
    {
      if response.Some? {
        routes := response.value;
      }
    }

    /** `openRouteEditModal`: the edit opens on the row at `index`, its fields holding that route. */
    method OpenRouteEditModal(index: nat)
      requires index < |routes|
      modifies this`editingRouteIndex, this`tempRouteFrom, this`tempRouteTo, this`tempRouteRate
      ensures editingRouteIndex == Some(index)
      ensures tempRouteFrom == routes[index].origin && tempRouteTo == routes[index].destination
      ensures tempRouteRate == routes[index].rateText
    {
      var route := routes[index];
      editingRouteIndex := Some(index);
      tempRouteFrom, tempRouteTo, tempRouteRate := route.origin, route.destination, route.rateText;
    }

    /** `cancelRouteEdit`: closes the edit and empties its fields. */
    method CancelRouteEdit()
      modifies this`editingRouteIndex, this`tempRouteFrom, this`tempRouteTo, this`tempRouteRate
      ensures EditClosed()
    {
      editingRouteIndex, tempRouteFrom, tempRouteTo, tempRouteRate := None, "", "", "";
    }

    /**
     * `saveRouteEdit`: nothing without an edit open (index 0 counts as open:
     * the test is `=== null`); nothing either when the index is past the end
     * of a refreshed list, since reading `.id` of `undefined` throws and is
     * caught; otherwise the fields and the parsed rate are sent for the row's
     * id, and an accepted update closes the edit.
     */
    method SaveRouteEdit(accepted: bool) returns (sent: Option<Request>)
      modifies this`editingRouteIndex, this`tempRouteFrom, this`tempRouteTo, this`tempRouteRate
      ensures sent.Some? <==> old(editingRouteIndex).Some? && old(editingRouteIndex).value < |routes|
      ensures sent.Some? ==>
        sent.value == PutRoute(routes[old(editingRouteIndex).value].id, old(tempRouteFrom), old(tempRouteTo), ParseFloatOrZero(old(tempRouteRate)))
      ensures sent.Some? && accepted ==> EditClosed()
      ensures sent.None? || !accepted ==> unchanged(this)
    {
      if editingRouteIndex.None? || editingRouteIndex.value >= |routes| {
        return None;
      }
      var routeToEdit := routes[editingRouteIndex.value];
      sent := Some(PutRoute(routeToEdit.id, tempRouteFrom, tempRouteTo, ParseFloatOrZero(tempRouteRate)));
      if accepted {
        CancelRouteEdit();
      }
    }

    /** `deleteRouteEdit`: the same guards as the save; otherwise the delete of the row's id. */
    method DeleteRouteEdit(accepted: bool) returns (sent: Option<Request>)
      modifies this`editingRouteIndex, this`tempRouteFrom, this`tempRouteTo, this`tempRouteRate
      ensures sent.Some? <==> old(editingRouteIndex).Some? && old(editingRouteIndex).value < |routes|
      ensures sent.Some? ==> sent.value == DeleteRoute(routes[old(editingRouteIndex).value].id)
      ensures sent.Some? && accepted ==> EditClosed()
      ensures sent.None? || !accepted ==> unchanged(this)
    {
      if editingRouteIndex.None? || editingRouteIndex.value >= |routes| {
        return None;
      }
      sent := Some(DeleteRoute(routes[editingRouteIndex.value].id));
      if accepted {
        CancelRouteEdit();
      }
    }

    /** `openNewRouteModal`: shows the new-route modal with empty fields. */
    method OpenNewRouteModal()
      modifies this`newRouteModalVisible, this`newRouteFrom, this`newRouteTo, this`newRouteRate
      ensures newRouteModalVisible && newRouteFrom == "" && newRouteTo == "" && newRouteRate == ""
    {
      newRouteModalVisible, newRouteFrom, newRouteTo, newRouteRate := true, "", "", "";
    }

    /** `cancelNewRouteModal`: hides the modal and empties its fields. */
    method CancelNewRouteModal()
      modifies this`newRouteModalVisible, this`newRouteFrom, this`newRouteTo, this`newRouteRate
      ensures NewClosed()
    {
      newRouteModalVisible, newRouteFrom, newRouteTo, newRouteRate := false, "", "", "";
    }

    /**
     * `saveNewRoute`: nothing unless both origin and destination hold more
     * than whitespace; otherwise both as typed and the parsed rate are sent,
     * and an accepted post closes the modal.
     */
    method SaveNewRoute(accepted: bool) returns (sent: Option<Request>)
      modifies this`newRouteModalVisible, this`newRouteFrom, this`newRouteTo, this`newRouteRate
      ensures sent.Some? <==> Trim(old(newRouteFrom)) != "" && Trim(old(newRouteTo)) != ""
      ensures sent.Some? ==> sent.value == PostRoute(old(newRouteFrom), old(newRouteTo), ParseFloatOrZero(old(newRouteRate)))
      ensures sent.Some? && accepted ==> NewClosed()
      ensures sent.None? || !accepted ==> unchanged(this)
    {
      if Trim(newRouteFrom) == "" || Trim(newRouteTo) == "" {
        return None;
      }
      sent := Some(PostRoute(newRouteFrom, newRouteTo, ParseFloatOrZero(newRouteRate)));
      if accepted {
        CancelNewRouteModal();
      }
    }
  }

  // ---------------------------------------------------------------------
  // Inspectors and drivers: the same handlers, for the role "inspector" or "driver"

  class RoleSection {
    /** The role this section grants: "inspector" or "driver". */
    const role: string
    var deleteModalVisible: bool
    var toDelete: Option<User>
    var addModalVisible: bool
    var searchQuery: string
    var users: seq<User>
    var selectedUser: Option<User>
    var confirmationModalVisible: bool

    constructor (role: string)
      ensures this.role == role
      ensures !deleteModalVisible && toDelete == None && !addModalVisible && searchQuery == "" && users == []
      ensures selectedUser == None && !confirmationModalVisible
    {
      this.role := role;
      deleteModalVisible, toDelete, addModalVisible := false, None, false;
      searchQuery, users := "", [];
      selectedUser, confirmationModalVisible := None, false;
    }

    /** The users the add modal lists for the current query. */
    function FilteredUsers(): seq<User>
      reads this
    {
      UserSearch(users, searchQuery)
    }

    /** `confirmDelete` / `confirmDeleteDriver`: remembers the user and asks for confirmation. */
    method ConfirmDelete(u: User)
      modifies this`toDelete, this`deleteModalVisible
      ensures toDelete == Some(u) && deleteModalVisible
    {
      toDelete, deleteModalVisible := Some(u), true;
    }

    /** `cancelDelete` / `cancelDeleteDriver`: hides the confirmation and forgets the user. */
    method CancelDelete()
      modifies this`toDelete, this`deleteModalVisible
      ensures toDelete == None && !deleteModalVisible
    {
      toDelete, deleteModalVisible := None, false;
    }

    /**
     * `handleConfirmDelete` / `handleConfirmDeleteDriver`: nothing without a
     * user; otherwise the user's role is set to null, and an accepted request
     * closes the confirmation.
     */
    method HandleConfirmDelete(accepted: bool) returns (sent: Option<Request>)
      modifies this`toDelete, this`deleteModalVisible
      ensures old(toDelete).None? ==> sent == None && unchanged(this)
      ensures old(toDelete).Some? ==> sent == Some(SetRole(old(toDelete).value.id, None))
      ensures old(toDelete).Some? && accepted ==> toDelete == None && !deleteModalVisible
      ensures old(toDelete).Some? && !accepted ==> unchanged(this)
    {
      if toDelete.None? {
        return None;
      }
      sent := Some(SetRole(toDelete.value.id, None));
      if accepted {
        CancelDelete();
      }
    }

    /** `openAddInspectorModal` / `openAddDriverModal`: shows the modal; a good response becomes the user list. */
    method OpenAddModal(response: Option<seq<User>>)
      modifies this`addModalVisible, this`users
      ensures addModalVisible
      ensures users == if response.Some? then response.value else old(users)
    {
      addModalVisible := true;
      if response.Some? {
        users := response.value;
      }
    }

    /** `closeAddInspectorModal` / `closeAddDriverModal`: hides the modal, clears the query and the list. */
    method CloseAddModal()
      modifies this`addModalVisible, this`searchQuery, this`users
      ensures !addModalVisible && searchQuery == "" && users == []
    {
      addModalVisible, searchQuery, users := false, "", [];
    }

    /** Typing in the search field. */
    method SetSearchQuery(query: string)
      modifies this`searchQuery
      ensures searchQuery == query
    {
      searchQuery := query;
    }

    /** `selectUser` / `selectDriverUser`: remembers the user and asks for confirmation. */
    method SelectUser(u: User)
      modifies this`selectedUser, this`confirmationModalVisible
      ensures selectedUser == Some(u) && confirmationModalVisible
    {
      selectedUser, confirmationModalVisible := Some(u), true;
    }

    /**
     * `confirmAssignInspector` / `confirmAssignDriver`: nothing without a
     * selected user; otherwise the user gets this section's role, and an
     * accepted request hides both modals. The selection itself is kept.
     */
    method ConfirmAssign(accepted: bool) returns (sent: Option<Request>)
      modifies this`confirmationModalVisible, this`addModalVisible
      ensures old(selectedUser).None? ==> sent == None && unchanged(this)
      ensures old(selectedUser).Some? ==> sent == Some(SetRole(old(selectedUser).value.id, Some(role)))
      ensures old(selectedUser).Some? && accepted ==> !confirmationModalVisible && !addModalVisible
      ensures old(selectedUser).Some? && !accepted ==> unchanged(this)
    {
      if selectedUser.None? {
        return None;
      }
      sent := Some(SetRole(selectedUser.value.id, Some(role)));
      if accepted {
        confirmationModalVisible, addModalVisible := false, false;
      }
    }

    /** `cancelAssignInspector` / `cancelAssignDriver`: hides the confirmation and forgets the user. */
    method CancelAssign()
      modifies this`selectedUser, this`confirmationModalVisible
      ensures selectedUser == None && !confirmationModalVisible
    {
      selectedUser, confirmationModalVisible := None, false;
    }
  }

  // ---------------------------------------------------------------------
  // Shuttle plates

  /** What `saveNewShuttle` does: the blank-plate alert, or the post. */
  datatype PlateSave = BlankPlateAlert | Sent(request: Request)

  class ShuttlesSection {
    var newShuttleModalVisible: bool
    var newShuttlePlateNumber: string
    var deleteShuttleModalVisible: bool
    var shuttleToDelete: Option<PlateRow>

    constructor ()
      ensures !newShuttleModalVisible && newShuttlePlateNumber == ""
      ensures !deleteShuttleModalVisible && shuttleToDelete == None
    {
      newShuttleModalVisible, newShuttlePlateNumber := false, "";
      deleteShuttleModalVisible, shuttleToDelete := false, None;
    }

    /** `openNewShuttleModal`: shows the modal with an empty plate field. */
    method OpenNewShuttleModal()
      modifies this`newShuttleModalVisible, this`newShuttlePlateNumber
      ensures newShuttleModalVisible && newShuttlePlateNumber == ""
    {
      newShuttleModalVisible, newShuttlePlateNumber := true, "";
    }

    /** `cancelNewShuttleModal`: hides the modal and empties the field. */
    method CancelNewShuttleModal()
      modifies this`newShuttleModalVisible, this`newShuttlePlateNumber
      ensures !newShuttleModalVisible && newShuttlePlateNumber == ""
    {
      newShuttleModalVisible, newShuttlePlateNumber := false, "";
    }

    /**
     * `saveNewShuttle`: a blank plate (after trimming) gives the alert and
     * nothing else; otherwise the plate as typed is posted, and an accepted
     * post hides the modal and empties the field.
     */
    method SaveNewShuttle(accepted: bool) returns (outcome: PlateSave)
      modifies this`newShuttleModalVisible, this`newShuttlePlateNumber
      ensures outcome.BlankPlateAlert? <==> Trim(old(newShuttlePlateNumber)) == ""
      ensures outcome.Sent? ==> outcome.request == PostPlate(old(newShuttlePlateNumber))
      ensures outcome.Sent? && accepted ==> !newShuttleModalVisible && newShuttlePlateNumber == ""
      ensures outcome.BlankPlateAlert? || !accepted ==> unchanged(this)
    {
      if Trim(newShuttlePlateNumber) == "" {
        return BlankPlateAlert;
      }
      outcome := Sent(PostPlate(newShuttlePlateNumber));
      if accepted {
        newShuttleModalVisible, newShuttlePlateNumber := false, "";
      }
    }

    /** `confirmDeleteShuttle`: remembers the plate and asks for confirmation. */
    method ConfirmDeleteShuttle(p: PlateRow)
      modifies this`shuttleToDelete, this`deleteShuttleModalVisible
      ensures shuttleToDelete == Some(p) && deleteShuttleModalVisible
    {
      shuttleToDelete, deleteShuttleModalVisible := Some(p), true;
    }

    /** `cancelDeleteShuttle`: hides the confirmation and forgets the plate. */
    method CancelDeleteShuttle()
      modifies this`shuttleToDelete, this`deleteShuttleModalVisible
      ensures shuttleToDelete == None && !deleteShuttleModalVisible
    {
      shuttleToDelete, deleteShuttleModalVisible := None, false;
    }

    /** `handleConfirmDeleteShuttle`: nothing without a plate; otherwise its delete is sent. */
    method HandleConfirmDeleteShuttle(accepted: bool) returns (sent: Option<Request>)
      modifies this`shuttleToDelete, this`deleteShuttleModalVisible
      ensures old(shuttleToDelete).None? ==> sent == None && unchanged(this)
      ensures old(shuttleToDelete).Some? ==> sent == Some(DeletePlate(old(shuttleToDelete).value.id))
      ensures old(shuttleToDelete).Some? && accepted ==> shuttleToDelete == None && !deleteShuttleModalVisible
      ensures old(shuttleToDelete).Some? && !accepted ==> unchanged(this)
    {
      if shuttleToDelete.None? {
        return None;
      }
      sent := Some(DeletePlate(shuttleToDelete.value.id));
      if accepted {
        CancelDeleteShuttle();
      }
    }
  }
}
