/** The top-level coordinator of the browser client as an object: one field per
    `useState` of the component, and one method per handler, or per part of an
    asynchronous handler that runs between two `await`s. Each method assigns the
    fields its handler sets, in the handler's order, and its contract ties the new
    state to the function of `AppState` that describes that handler; the
    properties of the handlers are proved about those functions. */
module App {
  import opened Common
  import opened ClientTypes
  import opened AppState

  class Coordinator {
    var mode: SidebarMode
    var selected: Option<ClientPin>
    var newPinCoords: Option<LatLng>
    var activePinId: Option<int>
    var tempMarker: Option<LatLng>
    var searchMarker: Option<LatLng>
    var allPins: seq<ClientPin>
    var nearbyPins: seq<ClientPin>
    var isNearbyMode: bool
    var userLocation: Option<LatLng>
    var isLoading: bool
    var mapError: Option<MapError>
    var availableTags: seq<string>
    var refreshKey: nat
    var notification: Notification
    var deleteDialogOpen: bool
    var pinToDeleteId: Option<int>

    /** The fields as one value. */
    function Snapshot(): State
      reads this
    {
      State(mode, selected, newPinCoords, activePinId, tempMarker, searchMarker, allPins, nearbyPins,
            isNearbyMode, userLocation, isLoading, mapError, availableTags, refreshKey, notification,
            deleteDialogOpen, pinToDeleteId)
    }

    /** The first render. */
    constructor ()
      ensures Snapshot() == Init()
      ensures Inv(Snapshot())
    {
      mode := List;
      selected := None;
      newPinCoords := None;
      activePinId := None;
      tempMarker := None;
      searchMarker := None;
      allPins := [];
      nearbyPins := [];
      isNearbyMode := false;
      userLocation := None;
      isLoading := true;
      mapError := None;
      availableTags := [];
      refreshKey := 0;
      notification := CLOSED;
      deleteDialogOpen := false;
      pinToDeleteId := None;
      InitRule();
    }

    // The state setters: each replaces one field and leaves the others alone.

    method SetSidebarMode(v: SidebarMode)
      modifies this
      ensures Snapshot() == old(Snapshot()).(mode := v)
    {
      mode := v;
    }

    method SetSelectedPinData(v: Option<ClientPin>)
      modifies this
      ensures Snapshot() == old(Snapshot()).(selected := v)
    {
      selected := v;
    }

    method SetNewPinCoords(v: Option<LatLng>)
      modifies this
      ensures Snapshot() == old(Snapshot()).(newPinCoords := v)
    {
      newPinCoords := v;
    }

    method SetActivePinId(v: Option<int>)
      modifies this
      ensures Snapshot() == old(Snapshot()).(activePinId := v)
    {
      activePinId := v;
    }

    method SetTempMarkerPos(v: Option<LatLng>)
      modifies this
      ensures Snapshot() == old(Snapshot()).(tempMarker := v)
    {
      tempMarker := v;
    }

    method SetSearchMarkerPos(v: Option<LatLng>)
      modifies this
      ensures Snapshot() == old(Snapshot()).(searchMarker := v)
    {
      searchMarker := v;
    }

    method SetAllPins(v: seq<ClientPin>)
      modifies this
      ensures Snapshot() == old(Snapshot()).(allPins := v)
    {
      allPins := v;
    }

    method SetNearbyPins(v: seq<ClientPin>)
      modifies this
      ensures Snapshot() == old(Snapshot()).(nearbyPins := v)
    {
      nearbyPins := v;
    }

    method SetIsNearbyMode(v: bool)
      modifies this
      ensures Snapshot() == old(Snapshot()).(isNearbyMode := v)
    {
      isNearbyMode := v;
    }

    method SetUserLocation(v: Option<LatLng>)
      modifies this
      ensures Snapshot() == old(Snapshot()).(userLocation := v)
    {
      userLocation := v;
    }

    method SetIsLoadingMapData(v: bool)
      modifies this
      ensures Snapshot() == old(Snapshot()).(isLoading := v)
    {
      isLoading := v;
    }

    method SetMapError(v: Option<MapError>)
      modifies this
      ensures Snapshot() == old(Snapshot()).(mapError := v)
    {
      mapError := v;
    }

    method SetAvailableTags(v: seq<string>)
      modifies this
      ensures Snapshot() == old(Snapshot()).(availableTags := v)
    {
      availableTags := v;
    }

    method SetRefreshMapDataKey(v: nat)
      modifies this
      ensures Snapshot() == old(Snapshot()).(refreshKey := v)
    {
      refreshKey := v;
    }

    method SetNotification(v: Notification)
      modifies this
      ensures Snapshot() == old(Snapshot()).(notification := v)
    {
      notification := v;
    }

    method SetDeleteDialogOpen(v: bool)
      modifies this
      ensures Snapshot() == old(Snapshot()).(deleteDialogOpen := v)
    {
      deleteDialogOpen := v;
    }

    method SetPinToDeleteId(v: Option<int>)
      modifies this
      ensures Snapshot() == old(Snapshot()).(pinToDeleteId := v)
    {
      pinToDeleteId := v;
    }

    method HandleCloseNotification(clickaway: bool)
      modifies this
      ensures Snapshot() == CloseNotification(old(Snapshot()), clickaway)
    {
      if clickaway {
        return;
      }
      SetNotification(notification.(open := false));
    }

    /** The data-loading effect: it starts a load outside nearby mode only. */
    method RunDataEffect() returns (started: bool)
      modifies this
      ensures started == LoadWanted(old(Snapshot()))
      ensures Snapshot() == if started then LoadBegun(old(Snapshot())) else old(Snapshot())
    {
      started := !isNearbyMode;
      if started {
        SetIsLoadingMapData(true);
        SetMapError(None);
      }
    }

    method LoadSucceeded(pins: Option<seq<ClientPin>>, tags: Option<seq<string>>)
      modifies this
      ensures Snapshot() == AppState.LoadSucceeded(old(Snapshot()), pins, tags)
    {
      SetAllPins(pins.GetOr([]));
      SetAvailableTags(tags.GetOr([]));
      SetIsLoadingMapData(false);
    }

    method LoadFailed()
      modifies this
      ensures Snapshot() == AppState.LoadFailed(old(Snapshot()))
    {
      SetMapError(Some(CouldNotLoad));
      SetAllPins([]);
      SetAvailableTags([]);
      SetNotification(Notification(true, LoadDataError, Error));
      SetIsLoadingMapData(false);
    }

    method HandleSelectItem(pinId: Option<int>)
      modifies this
      ensures Snapshot() == SelectItem(old(Snapshot()), pinId)
    {
      if !Truthy(pinId) {
        SetActivePinId(None);
        SetSelectedPinData(None);
        return;
      }
      var sourceList := if isNearbyMode then nearbyPins else allPins;
      var pinToView := FindPin(sourceList, pinId);
      if pinToView.Some? {
        SetActivePinId(pinId);
        SetSelectedPinData(pinToView);
        SetSidebarMode(View);
        SetTempMarkerPos(None);
        SetSearchMarkerPos(None);
        SetNewPinCoords(None);
      }
    }

    method HandlePrepareAddPin(coords: Option<LatLng>)
      modifies this
      ensures Snapshot() == PrepareAddPin(old(Snapshot()), coords)
    {
      SetSidebarMode(Add);
      SetActivePinId(None);
      SetSelectedPinData(None);
      SetSearchMarkerPos(None);
      if coords.Some? {
        SetNewPinCoords(coords);
        SetTempMarkerPos(coords);
      } else {
        SetNewPinCoords(None);
        SetTempMarkerPos(None);
      }
    }

    method HandleCancelSidebarAction()
      modifies this
      ensures Snapshot() == CancelSidebarAction(old(Snapshot()))
    {
      SetSidebarMode(List);
      SetTempMarkerPos(None);
      SetSearchMarkerPos(None);
      SetActivePinId(None);
      SetSelectedPinData(None);
      SetNewPinCoords(None);
    }

    method HandleEditRequest(pinToEdit: Option<ClientPin>)
      modifies this
      ensures Snapshot() == EditRequest(old(Snapshot()), pinToEdit)
    {
      if pinToEdit.None? || !Truthy(pinToEdit.value.id) {
        return;
      }
      SetSelectedPinData(pinToEdit);
      SetSidebarMode(Edit);
      SetActivePinId(pinToEdit.value.id);
      SetTempMarkerPos(None);
      SetSearchMarkerPos(None);
      SetNewPinCoords(None);
    }

    /** `handleSavePin` up to its `await`: the request it sends, if any. A save that
        throws before sending settles here, through the error path. */
    method HandleSavePin(form: SaveData) returns (request: Option<SaveRequest>)
      modifies this
      ensures request.Some? <==> PlanSave(old(Snapshot()), form).Send?
      ensures request.Some? ==> request.value == PlanSave(old(Snapshot()), form).request
      ensures Snapshot() == SaveCalled(old(Snapshot()), form)
    {
      var plan := PlanSave(Snapshot(), form);
      SetIsLoadingMapData(true);
      SetNotification(CLOSED);
      match plan
      case Send(r) =>
        request := Some(r);
      case Reject(reason) =>
        request := None;
        SetNotification(Notification(true, SaveRejected(reason), Error));
        SetIsLoadingMapData(false);
    }

    /** The save request resolved with `savedPin`; `isUpdate` is whether the save
        was called in edit mode. */
    method SaveSucceeded(isUpdate: bool, savedPin: Option<ClientPin>)
      modifies this
      ensures Snapshot() == AppState.SaveSucceeded(old(Snapshot()), isUpdate, savedPin)
    {
      SetNotification(Notification(true, if isUpdate then PinUpdated else PinCreated, Success));
      SetIsLoadingMapData(false);
      SetIsNearbyMode(false);
      SetRefreshMapDataKey(refreshKey + 1);
      if isUpdate && savedPin.Some? {
        SetActivePinId(savedPin.value.id);
        SetSelectedPinData(savedPin);
        SetSidebarMode(View);
        SetTempMarkerPos(None);
        SetSearchMarkerPos(None);
      } else {
        HandleCancelSidebarAction();
      }
    }

    method SaveFailed(err: JsError)
      modifies this
      ensures Snapshot() == AppState.SaveFailed(old(Snapshot()), err)
    {
      SetNotification(Notification(true, SaveError(err), Error));
      SetIsLoadingMapData(false);
    }

    method HandleDeleteRequest(idToDelete: Option<int>)
      modifies this
      ensures Snapshot() == DeleteRequest(old(Snapshot()), idToDelete)
    {
      if !Truthy(idToDelete) {
        return;
      }
      SetPinToDeleteId(idToDelete);
      SetDeleteDialogOpen(true);
    }

    /** `confirmDeletePin` up to its `await`: the id it asks the server to delete,
        if any. */
    method ConfirmDeletePin() returns (sent: Option<int>)
      modifies this
      ensures sent.Some? <==> Truthy(old(pinToDeleteId))
      ensures sent.Some? ==> sent == old(pinToDeleteId)
      ensures Snapshot() == DeleteConfirmed(old(Snapshot()))
    {
      if !Truthy(pinToDeleteId) {
        return None;
      }
      SetIsLoadingMapData(true);
      SetNotification(CLOSED);
      SetDeleteDialogOpen(false);
      sent := pinToDeleteId;
    }

    method DeleteSucceeded()
      modifies this
      ensures Snapshot() == AppState.DeleteSucceeded(old(Snapshot()))
    {
      SetNotification(Notification(true, PinDeleted, Success));
      HandleCancelSidebarAction();
      SetIsNearbyMode(false);
      SetRefreshMapDataKey(refreshKey + 1);
      SetIsLoadingMapData(false);
      SetPinToDeleteId(None);
    }

    method DeleteFailed(err: JsError)
      modifies this
      ensures Snapshot() == AppState.DeleteFailed(old(Snapshot()), err)
    {
      SetNotification(Notification(true, DeleteError(err), Error));
      SetIsLoadingMapData(false);
      SetPinToDeleteId(None);
    }

    method HandleCloseDeleteDialog()
      modifies this
      ensures Snapshot() == CloseDeleteDialog(old(Snapshot()))
    {
      if isLoading {
        return;
      }
      SetDeleteDialogOpen(false);
      SetPinToDeleteId(None);
    }

    /** `handleFindNearby` up to the position request; `geolocationSupported` is
        whether the browser offers geolocation. */
    method HandleFindNearby(geolocationSupported: bool)
      modifies this
      ensures Snapshot() == FindNearby(old(Snapshot()), geolocationSupported)
    {
      if !geolocationSupported {
        SetNotification(Notification(true, GeolocationUnsupported, Warning));
        return;
      }
      SetIsLoadingMapData(true);
      SetMapError(None);
      SetNotification(CLOSED);
      SetActivePinId(None);
      SetSelectedPinData(None);
      SetTempMarkerPos(None);
      SetSearchMarkerPos(None);
      SetSidebarMode(List);
    }

    /** The position arrived: the nearby query it sends, around that position
        within the fixed radius. */
    method PositionObtained(at: LatLng) returns (latitude: real, longitude: real, radius: nat)
      modifies this
      ensures latitude == at.lat && longitude == at.lng && radius == NEARBY_RADIUS_METERS
      ensures Snapshot() == AppState.PositionObtained(old(Snapshot()), at)
    {
      SetUserLocation(Some(at));
      latitude, longitude, radius := at.lat, at.lng, NEARBY_RADIUS_METERS;
    }

    method NearbyFetchFailed()
      modifies this
      ensures Snapshot() == AppState.NearbyFetchFailed(old(Snapshot()))
    {
      SetMapError(Some(CouldNotFindNearby));
      SetNearbyPins([]);
      SetIsNearbyMode(false);
      SetUserLocation(None);
      SetNotification(Notification(true, NearbyError, Error));
      SetIsLoadingMapData(false);
    }

    /** The nearby request resolved; a null body fails when its length is read. */
    method NearbyFetched(data: Option<seq<ClientPin>>)
      modifies this
      ensures Snapshot() == AppState.NearbyFetched(old(Snapshot()), data)
    {
      SetNearbyPins(data.GetOr([]));
      SetIsNearbyMode(true);
      match data
      case None =>
        NearbyFetchFailed();
      case Some(pins) =>
        SetNotification(Notification(true, NearbyShown(|pins|), Success));
        SetIsLoadingMapData(false);
    }

    method PositionFailed(code: int)
      modifies this
      ensures Snapshot() == AppState.PositionFailed(old(Snapshot()), code)
    {
      SetNotification(Notification(true, PositionError(code), Error));
      SetUserLocation(None);
      SetIsNearbyMode(false);
      SetIsLoadingMapData(false);
    }

    method HandleShowAll()
      modifies this
      ensures Snapshot() == ShowAll(old(Snapshot()))
    {
      SetIsNearbyMode(false);
      SetUserLocation(None);
      SetNearbyPins([]);
      SetMapError(None);
      SetActivePinId(None);
      SetSelectedPinData(None);
      SetTempMarkerPos(None);
      SetSearchMarkerPos(None);
      SetSidebarMode(List);
      SetNotification(Notification(true, AllPinsShown, Info));
      SetRefreshMapDataKey(refreshKey + 1);
    }

    method HandleSearchResult(coords: Option<LatLng>)
      modifies this
      ensures Snapshot() == SearchResult(old(Snapshot()), coords)
    {
      if coords.Some? {
        SetSearchMarkerPos(coords);
        SetTempMarkerPos(None);
        SetActivePinId(None);
        SetSelectedPinData(None);
        SetSidebarMode(List);
      } else {
        SetSearchMarkerPos(None);
      }
    }
  }
}
