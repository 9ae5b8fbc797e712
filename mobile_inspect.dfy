/**
 * The Inspect screen of mobileapp/app/inspect.jsx: the same sorted shuttle
 * list and delete confirmation as the app screen, and an add-shuttle modal
 * where the driver, plate and route are picked from fetched lists by id.
 */
module MobileInspect {
  import opened Common
  import opened ShuttleList

  datatype Driver = Driver(id: int, firstname: string, surname: string)
  datatype Plate = Plate(id: int, plateNumber: string)
  datatype Route = Route(id: int, origin: string, destination: string)

  /** The JSON body posted to `/shuttles` from this screen. */
  datatype Payload = Payload(shuttleDriver: string, shuttlePlatNumber: string, routeId: int)

  /**
   * What `addShuttle` does before any request: the selection alert, a
   * lookup that finds no object (reading a field of `undefined` throws, and
   * nothing is posted), or a post of the body.
   */
  datatype AddOutcome = SelectionAlert | LookupFailed | Post(payload: Payload)

  /** A selection passes the `&&` test: it is set (not null) and not the falsy id 0. */
  predicate Truthy(selection: Option<int>)
  {
    selection.Some? && selection.value != 0
  }

  /** `drivers.find((d) => d.id === selectedDriver)`. */
  function SelectedDriverObj(drivers: seq<Driver>, selected: Option<int>): (r: Option<Driver>)
    ensures r.None? <==> forall i :: 0 <= i < |drivers| ==> Some(drivers[i].id) != selected
    ensures r.Some? ==> exists i :: 0 <= i < |drivers| && drivers[i] == r.value && Some(r.value.id) == selected
                          && forall j :: 0 <= j < i ==> Some(drivers[j].id) != selected
  {
    Find(drivers, (d: Driver) => Some(d.id) == selected)
  }

  /** `plates.find((p) => p.id === selectedPlate)`. */
  function SelectedPlateObj(plates: seq<Plate>, selected: Option<int>): (r: Option<Plate>)
    ensures r.None? <==> forall i :: 0 <= i < |plates| ==> Some(plates[i].id) != selected
    ensures r.Some? ==> exists i :: 0 <= i < |plates| && plates[i] == r.value && Some(r.value.id) == selected
                          && forall j :: 0 <= j < i ==> Some(plates[j].id) != selected
  {
    Find(plates, (p: Plate) => Some(p.id) == selected)
  }

  /** `routes.find((r) => r.id === selectedRoute)`. */
  function SelectedRouteObj(routes: seq<Route>, selected: Option<int>): (r: Option<Route>)
    ensures r.None? <==> forall i :: 0 <= i < |routes| ==> Some(routes[i].id) != selected
    ensures r.Some? ==> exists i :: 0 <= i < |routes| && routes[i] == r.value && Some(r.value.id) == selected
                          && forall j :: 0 <= j < i ==> Some(routes[j].id) != selected
  {
    Find(routes, (r: Route) => Some(r.id) == selected)
  }

  /** With nothing selected (null), no lookup finds anything. */
  lemma NothingSelectedFindsNothing(drivers: seq<Driver>, plates: seq<Plate>, routes: seq<Route>)
    ensures SelectedDriverObj(drivers, None).None?
    ensures SelectedPlateObj(plates, None).None?
    ensures SelectedRouteObj(routes, None).None?
  {
  }

  /**
   * `addShuttle` up to the request. The selection alert unless all three
   * selections are truthy; a failed lookup when the selected driver or plate
   * is not in its list; otherwise a post of the driver's first name and
   * surname, the plate's number and the selected route id, which is not
   * looked up.
   */
  function BuildShuttle(drivers: seq<Driver>, plates: seq<Plate>, selectedDriver: Option<int>,
                        selectedPlate: Option<int>, selectedRoute: Option<int>): (r: AddOutcome)
    ensures r.SelectionAlert? <==> !(Truthy(selectedDriver) && Truthy(selectedPlate) && Truthy(selectedRoute))
    ensures r.LookupFailed? <==>
      && Truthy(selectedDriver) && Truthy(selectedPlate) && Truthy(selectedRoute)
      && (SelectedDriverObj(drivers, selectedDriver).None? || SelectedPlateObj(plates, selectedPlate).None?)
    ensures r.Post? ==>
      && (exists i :: 0 <= i < |drivers| && drivers[i].id == selectedDriver.value
            && r.payload.shuttleDriver == drivers[i].firstname + " " + drivers[i].surname)
      && (exists i :: 0 <= i < |plates| && plates[i].id == selectedPlate.value
            && r.payload.shuttlePlatNumber == plates[i].plateNumber)
      && Some(r.payload.routeId) == selectedRoute
  {
    if Truthy(selectedDriver) && Truthy(selectedPlate) && Truthy(selectedRoute) then
      match (SelectedDriverObj(drivers, selectedDriver), SelectedPlateObj(plates, selectedPlate))
      case (Some(driver), Some(plate)) =>
        Post(Payload(driver.firstname + " " + driver.surname, plate.plateNumber, selectedRoute.value))
      case _ => LookupFailed
    else
      SelectionAlert
  }

  /** The driver named in the body is the first one in the list with the selected id. */
  lemma PostNamesFirstMatchingDriver(drivers: seq<Driver>, plates: seq<Plate>, selectedDriver: Option<int>,
                                     selectedPlate: Option<int>, selectedRoute: Option<int>, i: nat)
    requires BuildShuttle(drivers, plates, selectedDriver, selectedPlate, selectedRoute).Post?
    requires i < |drivers| && Some(drivers[i].id) == selectedDriver
    requires forall j :: 0 <= j < i ==> Some(drivers[j].id) != selectedDriver
    ensures BuildShuttle(drivers, plates, selectedDriver, selectedPlate, selectedRoute).payload.shuttleDriver
      == drivers[i].firstname + " " + drivers[i].surname
  {
    var d := SelectedDriverObj(drivers, selectedDriver).value;
    var k :| 0 <= k < |drivers| && drivers[k] == d && Some(d.id) == selectedDriver
      && forall j :: 0 <= j < k ==> Some(drivers[j].id) != selectedDriver;
    assert k == i;
  }

  class MobileInspectScreen {
    var shuttleList: seq<Shuttle>
    var deleteModalVisible: bool
    var shuttleToDelete: Option<Shuttle>
    var addShuttleModalVisible: bool
    var drivers: seq<Driver>
    var plates: seq<Plate>
    var routes: seq<Route>
    var selectedDriver: Option<int>
    var selectedPlate: Option<int>
    var selectedRoute: Option<int>
    var showDriverModal: bool
    var showPlateModal: bool
    var showRouteModal: bool

    /** No selection is made. */
    predicate NoSelection()
      reads this
    {
      selectedDriver == None && selectedPlate == None && selectedRoute == None
    }

    /** The screen mounts with empty lists, no modal open and nothing selected. */
    constructor ()
      ensures shuttleList == [] && drivers == [] && plates == [] && routes == []
      ensures !deleteModalVisible && shuttleToDelete == None && !addShuttleModalVisible
      ensures NoSelection() && !showDriverModal && !showPlateModal && !showRouteModal
    {
      shuttleList, drivers, plates, routes := [], [], [], [];
      deleteModalVisible, shuttleToDelete, addShuttleModalVisible := false, None, false;
      selectedDriver, selectedPlate, selectedRoute := None, None, None;
      showDriverModal, showPlateModal, showRouteModal := false, false, false;
    }

    /** `fetchShuttles`: a good response is stored sorted by id, largest first; an error keeps the list. */
    method FetchShuttles(response: Option<seq<Shuttle>>)
      modifies this`shuttleList
      ensures response.Some? ==> SortedByIdDescending(shuttleList) && multiset(shuttleList) == multiset(response.value)
      ensures response.None? ==> shuttleList == old(shuttleList)
    {
      if response.Some? {
        var data := new Shuttle[|response.value|](i requires 0 <= i < |response.value| => response.value[i]);
        assert data[..] == response.value;
        SortByIdDescending(data);
        shuttleList := data[..];
      }
    }

    /** `fetchRoutes`, `fetchDrivers`, `fetchPlates`: a good response replaces its list. */
    method FetchChoices(routesResponse: Option<seq<Route>>, driversResponse: Option<seq<Driver>>, platesResponse: Option<seq<Plate>>)
      modifies this`routes, this`drivers, this`plates
      ensures routes == (if routesResponse.Some? then routesResponse.value else old(routes))
      ensures drivers == (if driversResponse.Some? then driversResponse.value else old(drivers))
      ensures plates == (if platesResponse.Some? then platesResponse.value else old(plates))
    {
      if routesResponse.Some? { routes := routesResponse.value; }
      if driversResponse.Some? { drivers := driversResponse.value; }
      if platesResponse.Some? { plates := platesResponse.value; }
    }

    /**
     * The header button opens the add modal; the effect on that flag clears
     * all three selections when the modal goes from closed to open. Setting
     * it while already open changes nothing, so the effect does not run.
     */
    method OpenAddModal()
      modifies this`addShuttleModalVisible, this`selectedDriver, this`selectedPlate, this`selectedRoute
      ensures addShuttleModalVisible
      ensures !old(addShuttleModalVisible) ==> NoSelection()
      ensures old(addShuttleModalVisible) ==>
        selectedDriver == old(selectedDriver) && selectedPlate == old(selectedPlate) && selectedRoute == old(selectedRoute)
    {
      if !addShuttleModalVisible {
        addShuttleModalVisible := true;
        selectedDriver, selectedPlate, selectedRoute := None, None, None;
      }
    }

    /** The modal's cancel button closes it; the selections stay until it is opened again. */
    method CloseAddModal()
      modifies this`addShuttleModalVisible
      ensures !addShuttleModalVisible
    {
      addShuttleModalVisible := false;
    }

    /** Picking a driver in the driver list selects its id and closes that list. */
    method PickDriver(driver: Driver)
      modifies this`selectedDriver, this`showDriverModal
      ensures selectedDriver == Some(driver.id) && !showDriverModal
    {
      selectedDriver := Some(driver.id);
      showDriverModal := false;
    }

    /** Picking a plate selects its id and closes the plate list. */
    method PickPlate(plate: Plate)
      modifies this`selectedPlate, this`showPlateModal
      ensures selectedPlate == Some(plate.id) && !showPlateModal
    {
      selectedPlate := Some(plate.id);
      showPlateModal := false;
    }

    /** Picking a route selects its id and closes the route list. */
    method PickRoute(route: Route)
      modifies this`selectedRoute, this`showRouteModal
      ensures selectedRoute == Some(route.id) && !showRouteModal
    {
      selectedRoute := Some(route.id);
      showRouteModal := false;
    }

    /** `handleDelete`: a successful delete drops every shuttle with that id. */
    method HandleDelete(id: int, deleted: bool)
      modifies this`shuttleList
      ensures shuttleList == if deleted then RemoveId(old(shuttleList), id) else old(shuttleList)
    {
      if deleted {
        shuttleList := RemoveId(shuttleList, id);
      }
    }

    /** `confirmDelete`: remembers the shuttle and shows the confirmation. */
    method ConfirmDelete(shuttle: Shuttle)
      modifies this`shuttleToDelete, this`deleteModalVisible
      ensures shuttleToDelete == Some(shuttle) && deleteModalVisible
    {
      shuttleToDelete := Some(shuttle);
      deleteModalVisible := true;
    }

    /**
     * `handleConfirmDelete`: with nothing selected, nothing happens; otherwise
     * the selected id is deleted (as the response allows), the selection is
     * cleared and the confirmation hidden.
     */
    method HandleConfirmDelete(deleted: bool)
      modifies this`shuttleList, this`shuttleToDelete, this`deleteModalVisible
      ensures old(shuttleToDelete).None? ==>
        shuttleList == old(shuttleList) && shuttleToDelete == None && deleteModalVisible == old(deleteModalVisible)
      ensures old(shuttleToDelete).Some? ==>
        && shuttleList == (if deleted then RemoveId(old(shuttleList), old(shuttleToDelete).value.id) else old(shuttleList))
        && shuttleToDelete == None && !deleteModalVisible
    {
      if shuttleToDelete.Some? {
        HandleDelete(shuttleToDelete.value.id, deleted);
        shuttleToDelete := None;
        deleteModalVisible := false;
      }
    }

    /** `cancelDelete`: clears the selection and hides the confirmation; the list is untouched. */
    method CancelDelete()
      modifies this`shuttleToDelete, this`deleteModalVisible
      ensures shuttleToDelete == None && !deleteModalVisible
    {
      shuttleToDelete := None;
      deleteModalVisible := false;
    }

    /**
     * `addShuttle`: nothing changes unless the body is posted and the server
     * accepts it; then the modal closes and all three selections are cleared.
     * The list refresh that follows is a separate `FetchShuttles`.
     */
    method AddShuttle(accepted: bool) returns (outcome: AddOutcome)
      modifies this`addShuttleModalVisible, this`selectedDriver, this`selectedPlate, this`selectedRoute
      ensures outcome == BuildShuttle(old(drivers), old(plates), old(selectedDriver), old(selectedPlate), old(selectedRoute))
      ensures outcome.Post? && accepted ==> !addShuttleModalVisible && NoSelection()
      ensures !(outcome.Post? && accepted) ==>
        && addShuttleModalVisible == old(addShuttleModalVisible)
        && selectedDriver == old(selectedDriver) && selectedPlate == old(selectedPlate) && selectedRoute == old(selectedRoute)
    {
      outcome := BuildShuttle(drivers, plates, selectedDriver, selectedPlate, selectedRoute);
      if outcome.Post? && accepted {
        addShuttleModalVisible := false;
        selectedDriver, selectedPlate, selectedRoute := None, None, None;
      }
    }
  }

  /** Right after the add modal is opened from closed, adding gives the selection alert. */
  method OpenThenAddAlerts(screen: MobileInspectScreen, accepted: bool) returns (outcome: AddOutcome)
    requires !screen.addShuttleModalVisible
    modifies screen
    ensures outcome == SelectionAlert
  {
    screen.OpenAddModal();
    outcome := screen.AddShuttle(accepted);
  }
}
