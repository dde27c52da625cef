/** The state of the top-level coordinator of the browser client, and what each of
    its handlers does to it. Every asynchronous handler is split at its `await`
    into the part that runs when it is called and the parts that run when the
    request settles; each part is a function from the state it finds to the state
    it leaves. */
module AppState {
  import opened Common
  import opened ClientTypes
  import PinCard
  import PinSidebar

  const NEARBY_RADIUS_METERS: nat := 5000

  const NO_RESPONSE: string := "No response from server."

  /** The codes of `GeolocationPositionError`. */
  const PERMISSION_DENIED: int := 1
  const POSITION_UNAVAILABLE: int := 2
  const TIMEOUT: int := 3

  datatype Severity = Info | Success | Warning | Error

  /** What the snackbar says, named by its cause; `MessageText` renders it. */
  datatype Message =
    | Blank
    | LoadDataError
    | PinCreated
    | PinUpdated
    | PinDeleted
    | SaveRejected(reason: SaveRejection)
    | SaveError(err: JsError)
    | DeleteError(err: JsError)
    | GeolocationUnsupported
    | NearbyShown(count: nat)
    | NearbyError
    | PositionError(code: int)
    | AllPinsShown

  /** The single snackbar notification. */
  datatype Notification = Notification(open: bool, message: Message, severity: Severity)

  const CLOSED: Notification := Notification(false, Blank, Info)

  /** The two errors shown over the map. */
  datatype MapError = CouldNotLoad | CouldNotFindNearby

  function MapErrorText(e: MapError): string {
    match e
    case CouldNotLoad => "Could not load initial map data."
    case CouldNotFindNearby => "Could not find nearby locations."
  }

  /** Every `useState` field of the coordinator. */
  datatype State = State(
    mode: SidebarMode,
    selected: Option<ClientPin>,
    newPinCoords: Option<LatLng>,
    activePinId: Option<int>,
    tempMarker: Option<LatLng>,
    searchMarker: Option<LatLng>,
    allPins: seq<ClientPin>,
    nearbyPins: seq<ClientPin>,
    isNearbyMode: bool,
    userLocation: Option<LatLng>,
    isLoading: bool,
    mapError: Option<MapError>,
    availableTags: seq<string>,
    refreshKey: nat,
    notification: Notification,
    deleteDialogOpen: bool,
    pinToDeleteId: Option<int>)

  /** The state of the first render. */
  function Init(): State {
    State(List, None, None, None, None, None, [], [], false, None, true, None, [], 0, CLOSED, false, None)
  }

  function Notify(s: State, message: Message, severity: Severity): State {
    s.(notification := Notification(true, message, severity))
  }

  // ---------------------------------------------------------------------------
  // What the children are shown

  /** The pins on the map: the nearby ones in nearby mode, all pins otherwise. */
  function DisplayedPins(s: State): seq<ClientPin> {
    if s.isNearbyMode then s.nearbyPins else s.allPins
  }

  /** The pins in the sidebar list: always all pins, whatever the map shows. */
  function SidebarPins(s: State): seq<ClientPin> {
    s.allPins
  }

  function IsSaving(s: State): bool {
    s.isLoading && (s.mode == Add || s.mode == Edit)
  }

  function IsLoadingList(s: State): bool {
    s.isLoading && s.mode == List && !s.isNearbyMode
  }

  function MapLoading(s: State): bool {
    s.isLoading && |DisplayedPins(s)| == 0
  }

  function NearbyButtonLoading(s: State): bool {
    s.isLoading && s.userLocation.None?
  }

  /** What the floating button does when clicked. */
  datatype NearbyButtonAction = ShowAllPins | FindNearbyPins

  function NearbyButton(s: State): NearbyButtonAction {
    if s.isNearbyMode then ShowAllPins else FindNearbyPins
  }

  /** The props handed to the sidebar. */
  function SidebarPropsOf(s: State): PinSidebar.SidebarProps {
    PinSidebar.SidebarProps(s.mode, s.selected, s.newPinCoords, SidebarPins(s), s.activePinId, IsLoadingList(s))
  }

  /** The data-loading effect runs whenever the refresh key or the nearby switch
      changes, and only outside nearby mode. */
  predicate LoadWanted(s: State) {
    !s.isNearbyMode
  }

  // ---------------------------------------------------------------------------
  // Handlers

  /** `handleCloseNotification`: a click-away leaves the notification open. */
  function CloseNotification(s: State, clickaway: bool): State {
    if clickaway then s else s.(notification := s.notification.(open := false))
  }

  /** `loadInitialData` up to its `await`. */
  function LoadBegun(s: State): State {
    s.(isLoading := true, mapError := None)
  }

  /** Both fetches resolved; a null body counts as empty. */
  function LoadSucceeded(s: State, pins: Option<seq<ClientPin>>, tags: Option<seq<string>>): State {
    s.(allPins := pins.GetOr([]), availableTags := tags.GetOr([]), isLoading := false)
  }

  function LoadFailed(s: State): State {
    Notify(s.(mapError := Some(CouldNotLoad), allPins := [], availableTags := []), LoadDataError, Error)
      .(isLoading := false)
  }

  /** `handleSelectItem`: a falsy id clears the selection (and keeps the mode); a
      truthy id is looked up in the pins on the map. */
  function SelectItem(s: State, pinId: Option<int>): State {
    if !Truthy(pinId) then s.(activePinId := None, selected := None)
    else
      match FindPin(DisplayedPins(s), pinId)
      case None => s
      case Some(p) =>
        s.(activePinId := pinId, selected := Some(p), mode := View,
           tempMarker := None, searchMarker := None, newPinCoords := None)
  }

  /** `handlePrepareAddPin`: the add form, with the clicked coordinates (or none). */
  function PrepareAddPin(s: State, coords: Option<LatLng>): State {
    s.(mode := Add, activePinId := None, selected := None, searchMarker := None,
       newPinCoords := coords, tempMarker := coords)
  }

  /** `handleCancelSidebarAction`: back to the list with nothing selected or pending. */
  function CancelSidebarAction(s: State): State {
    s.(mode := List, tempMarker := None, searchMarker := None, activePinId := None,
       selected := None, newPinCoords := None)
  }

  /** `handleEditRequest`: ignored for a missing pin or a falsy id. */
  function EditRequest(s: State, pin: Option<ClientPin>): State {
    if pin.None? || !Truthy(pin.value.id) then s
    else
      s.(selected := pin, mode := Edit, activePinId := pin.value.id,
         tempMarker := None, searchMarker := None, newPinCoords := None)
  }

  // Saving

  /** The two server calls `handleSavePin` can make. */
  datatype SaveRequest =
    | CreateRequest(title: string, notes: string, tags: seq<TagEntry>, latitude: real, longitude: real)
    | UpdateRequest(id: int, title: string, notes: string, tags: seq<TagEntry>)

  /** Why a save throws before sending anything. */
  datatype SaveRejection = NoCoordinates | NoId | InvalidMode

  function RejectionText(r: SaveRejection): string {
    match r
    case NoCoordinates => "Cannot save pin without coordinates. Please click on the map."
    case NoId => "Cannot update pin without ID."
    case InvalidMode => "Invalid mode for saving pin."
  }

  /** A save either sends a request or throws before sending anything. */
  datatype SavePlan = Send(request: SaveRequest) | Reject(reason: SaveRejection)

  function PlanSave(s: State, form: SaveData): SavePlan {
    if s.mode == Add then
      match s.newPinCoords
      case None => Reject(NoCoordinates)
      case Some(c) => Send(CreateRequest(form.title, form.notes, form.tags, c.lat, c.lng))
    else if s.mode == Edit then
      if Truthy(form.id) then Send(UpdateRequest(form.id.value, form.title, form.notes, form.tags))
      else Reject(NoId)
    else Reject(InvalidMode)
  }

  /** The error a failed request rejects with: its message, the server's response
      (status and the `message` of its body) if one arrived, and whether a request
      was sent at all. */
  datatype ErrorResponse = ErrorResponse(status: nat, dataMessage: Option<string>)
  datatype JsError = JsError(message: Option<string>, response: Option<ErrorResponse>, request: bool)

  /** `new Error(message)` thrown by the handler itself. */
  function LocalError(message: string): JsError {
    JsError(Some(message), None, false)
  }

  function StatusSuffix(status: nat): string {
    " (Status: " + NatToString(status) + ")"
  }

  function SaveErrorText(err: JsError): string {
    var base := OrElse(err.message, "Failed to save pin.");
    match err.response
    case Some(r) => OrElse(r.dataMessage, base) + StatusSuffix(r.status)
    case None => if err.request then NO_RESPONSE else base
  }

  function DeleteErrorText(err: JsError): string {
    match err.response
    case Some(r) => OrElse(r.dataMessage, "Failed to delete pin.") + StatusSuffix(r.status)
    case None => if err.request then NO_RESPONSE else err.message.GetOr("")
  }

  /** `handleSavePin` up to its `await`. */
  function SaveBegun(s: State): State {
    s.(isLoading := true, notification := CLOSED)
  }

  function SaveFailed(s: State, err: JsError): State {
    Notify(s, SaveError(err), Error).(isLoading := false)
  }

  /** The whole synchronous part of `handleSavePin`: a rejected plan settles at
      once through the error path. */
  function SaveCalled(s: State, form: SaveData): State {
    match PlanSave(s, form)
    case Send(_) => SaveBegun(s)
    case Reject(reason) => Notify(SaveBegun(s), SaveRejected(reason), Error).(isLoading := false)
  }

  /** The request resolved; `isUpdate` is whether the handler was called in edit
      mode, and `savedPin` the pin the server returned. */
  function SaveSucceeded(s: State, isUpdate: bool, savedPin: Option<ClientPin>): State {
    var s1 := Notify(s, if isUpdate then PinUpdated else PinCreated, Success)
      .(isLoading := false, isNearbyMode := false, refreshKey := s.refreshKey + 1);
    if isUpdate && savedPin.Some? then
      s1.(activePinId := savedPin.value.id, selected := savedPin, mode := View,
          tempMarker := None, searchMarker := None)
    else CancelSidebarAction(s1)
  }

  // Deleting

  /** `handleDeleteRequest`: opens the confirmation dialog for a truthy id. */
  function DeleteRequest(s: State, id: Option<int>): State {
    if !Truthy(id) then s else s.(pinToDeleteId := id, deleteDialogOpen := true)
  }

  /** `confirmDeletePin` up to its `await`: the dialog closes before the call. */
  function DeleteConfirmed(s: State): State {
    if !Truthy(s.pinToDeleteId) then s
    else s.(isLoading := true, notification := CLOSED, deleteDialogOpen := false)
  }

  function DeleteSucceeded(s: State): State {
    CancelSidebarAction(Notify(s, PinDeleted, Success))
      .(isNearbyMode := false, refreshKey := s.refreshKey + 1, isLoading := false, pinToDeleteId := None)
  }

  function DeleteFailed(s: State, err: JsError): State {
    Notify(s, DeleteError(err), Error).(isLoading := false, pinToDeleteId := None)
  }

  /** `handleCloseDeleteDialog`: ignored while a request is in flight. */
  function CloseDeleteDialog(s: State): State {
    if s.isLoading then s else s.(deleteDialogOpen := false, pinToDeleteId := None)
  }

  // Nearby search

  /** `handleFindNearby` up to the position request. */
  function FindNearby(s: State, geolocationSupported: bool): State {
    if !geolocationSupported then Notify(s, GeolocationUnsupported, Warning)
    else
      s.(isLoading := true, mapError := None, notification := CLOSED, activePinId := None,
         selected := None, tempMarker := None, searchMarker := None, mode := List)
  }

  /** The position arrived; the nearby request is sent from here. */
  function PositionObtained(s: State, at: LatLng): State {
    s.(userLocation := Some(at))
  }

  function NearbyFetchFailed(s: State): State {
    Notify(s.(mapError := Some(CouldNotFindNearby), nearbyPins := [], isNearbyMode := false, userLocation := None),
           NearbyError, Error)
      .(isLoading := false)
  }

  /** The nearby request resolved. A null body throws when its length is read, after
      the pins and the switch were set, so it ends on the failure path. */
  function NearbyFetched(s: State, data: Option<seq<ClientPin>>): State {
    match data
    case None => NearbyFetchFailed(s)
    case Some(pins) =>
      Notify(s.(nearbyPins := pins, isNearbyMode := true), NearbyShown(|pins|), Success)
        .(isLoading := false)
  }

  function PositionErrorMessage(code: int): string {
    if code == PERMISSION_DENIED then "Location permission denied."
    else if code == POSITION_UNAVAILABLE then "Location information unavailable."
    else if code == TIMEOUT then "Location request timed out."
    else "Could not get your location."
  }

  function PositionFailed(s: State, code: int): State {
    Notify(s, PositionError(code), Error).(userLocation := None, isNearbyMode := false, isLoading := false)
  }

  /** `handleShowAll`. */
  function ShowAll(s: State): State {
    Notify(s.(isNearbyMode := false, userLocation := None, nearbyPins := [], mapError := None,
              activePinId := None, selected := None, tempMarker := None, searchMarker := None, mode := List),
           AllPinsShown, Info)
      .(refreshKey := s.refreshKey + 1)
  }

  /** `handleSearchResult`: coordinates place the search marker and return to the
      list; no coordinates only remove the search marker. */
  function SearchResult(s: State, coords: Option<LatLng>): State {
    if coords.Some? then
      s.(searchMarker := coords, tempMarker := None, activePinId := None, selected := None, mode := List)
    else s.(searchMarker := None)
  }

  /** The text the snackbar shows for each message. */
  function MessageText(m: Message): string {
    match m
    case Blank => ""
    case LoadDataError => "Error loading initial data."
    case PinCreated => "Pin created successfully!"
    case PinUpdated => "Pin updated successfully!"
    case PinDeleted => "Pin deleted successfully!"
    case SaveRejected(reason) => SaveErrorText(LocalError(RejectionText(reason)))
    case SaveError(err) => SaveErrorText(err)
    case DeleteError(err) => DeleteErrorText(err)
    case GeolocationUnsupported => "Geolocation is not supported."
    case NearbyShown(count) => "Showing " + NatToString(count) + " pins nearby."
    case NearbyError => "Error finding nearby pins."
    case PositionError(code) => PositionErrorMessage(code)
    case AllPinsShown => "Showing all pins."
  }

  // ---------------------------------------------------------------------------
  // Every event the coordinator reacts to

  /** The events of the selection and the sidebar panels. */
  datatype NavEvent =
    | Select(pinId: Option<int>)
    | PrepareAdd(coords: Option<LatLng>)
    | Cancel
    | EditReq(pin: Option<ClientPin>)
    | Search(coords: Option<LatLng>)

  /** A save: the call, and the two ways its request settles. */
  datatype SaveEvent =
    | SaveStart(form: SaveData)
    | SaveOk(isUpdate: bool, savedPin: Option<ClientPin>)
    | SaveFail(err: JsError)

  /** A delete: the request, the dialog's two buttons, and the two settlements. */
  datatype DeleteEvent =
    | DeleteReq(id: Option<int>)
    | DeleteConfirm
    | DeleteOk
    | DeleteFail(err: JsError)
    | CloseDialog

  /** The nearby search and its way back to all pins. */
  datatype NearbyEvent =
    | Nearby(geolocationSupported: bool)
    | PositionOk(at: LatLng)
    | NearbyOk(data: Option<seq<ClientPin>>)
    | NearbyFail
    | PositionFail(code: int)
    | ShowAllEvent

  /** The data load the effect starts, and its two settlements. */
  datatype LoadEvent =
    | LoadStart
    | LoadOk(pins: Option<seq<ClientPin>>, tags: Option<seq<string>>)
    | LoadFail

  /** Every event the coordinator reacts to, grouped by feature. */
  datatype Event =
    | Navigation(nav: NavEvent)
    | Saving(save: SaveEvent)
    | Deleting(del: DeleteEvent)
    | Locating(near: NearbyEvent)
    | Loading(load: LoadEvent)
    | NotificationClosed(clickaway: bool)

  function NavStep(s: State, e: NavEvent): State {
    match e
    case Select(pinId) => SelectItem(s, pinId)
    case PrepareAdd(coords) => PrepareAddPin(s, coords)
    case Cancel => CancelSidebarAction(s)
    case EditReq(pin) => EditRequest(s, pin)
    case Search(coords) => SearchResult(s, coords)
  }

  function SaveStep(s: State, e: SaveEvent): State {
    match e
    case SaveStart(form) => SaveCalled(s, form)
    case SaveOk(isUpdate, savedPin) => SaveSucceeded(s, isUpdate, savedPin)
    case SaveFail(err) => SaveFailed(s, err)
  }

  function DeleteStep(s: State, e: DeleteEvent): State {
    match e
    case DeleteReq(id) => DeleteRequest(s, id)
    case DeleteConfirm => DeleteConfirmed(s)
    case DeleteOk => DeleteSucceeded(s)
    case DeleteFail(err) => DeleteFailed(s, err)
    case CloseDialog => CloseDeleteDialog(s)
  }

  function NearbyStep(s: State, e: NearbyEvent): State {
    match e
    case Nearby(supported) => FindNearby(s, supported)
    case PositionOk(at) => PositionObtained(s, at)
    case NearbyOk(data) => NearbyFetched(s, data)
    case NearbyFail => NearbyFetchFailed(s)
    case PositionFail(code) => PositionFailed(s, code)
    case ShowAllEvent => ShowAll(s)
  }

  function LoadStep(s: State, e: LoadEvent): State {
    match e
    case LoadStart => LoadBegun(s)
    case LoadOk(pins, tags) => LoadSucceeded(s, pins, tags)
    case LoadFail => LoadFailed(s)
  }

  function Step(s: State, e: Event): State {
    match e
    case Navigation(nav) => NavStep(s, nav)
    case Saving(save) => SaveStep(s, save)
    case Deleting(del) => DeleteStep(s, del)
    case Locating(near) => NearbyStep(s, near)
    case Loading(load) => LoadStep(s, load)
    case NotificationClosed(clickaway) => CloseNotification(s, clickaway)
  }

  function Run(s: State, events: seq<Event>): State
    decreases |events|
  {
    if events == [] then s else Run(Step(s, events[0]), events[1..])
  }

  /** The intents of the pin card and the detail panel, as the sidebar forwards them. */
  function ApplyIntent(s: State, intent: Intent): State {
    match intent
    case SelectPin(id) => SelectItem(s, id)
    case EditPin(pin) => EditRequest(s, Some(pin))
    case DeletePin(id) => DeleteRequest(s, id)
    case ClosePanel => CancelSidebarAction(s)
  }

  // ---------------------------------------------------------------------------
  // The invariant every event keeps

  /** A selection exists only in view or edit mode and is the active pin; an
      active id always comes with a selection; the add marker exists only in add
      mode and sits at the pending coordinates; the search marker exists only in
      list mode. */
  predicate Inv(s: State) {
    && (s.selected.Some? ==> (s.mode == View || s.mode == Edit) && s.activePinId == s.selected.value.id)
    && (s.activePinId.Some? ==> s.selected.Some?)
    && (s.tempMarker.Some? ==> s.mode == Add && s.newPinCoords == s.tempMarker)
    && (s.searchMarker.Some? ==> s.mode == List)
  }

  lemma InitRule()
    ensures Inv(Init())
    ensures Init().mode == List && Init().isLoading && LoadWanted(Init())
    ensures DisplayedPins(Init()) == [] && Init().notification == CLOSED
  {
  }

  // One lemma per group of handlers keeps each proof small.

  lemma SelectKeepsInv(s: State, pinId: Option<int>)
    requires Inv(s)
    ensures Inv(SelectItem(s, pinId))
  {
    if Truthy(pinId) {
      var found := FindPin(DisplayedPins(s), pinId);
      if found.Some? {
        var k :| FirstWithId(DisplayedPins(s), k, pinId) && DisplayedPins(s)[k] == found.value;
      }
    }
  }

  lemma SaveCalledKeepsInv(s: State, form: SaveData)
    requires Inv(s)
    ensures Inv(SaveCalled(s, form))
  {
  }

  lemma SaveSettledKeepsInv(s: State, isUpdate: bool, savedPin: Option<ClientPin>, err: JsError)
    requires Inv(s)
    ensures Inv(SaveSucceeded(s, isUpdate, savedPin)) && Inv(SaveFailed(s, err))
  {
  }

  lemma DeleteStartKeepsInv(s: State, id: Option<int>)
    requires Inv(s)
    ensures Inv(DeleteRequest(s, id)) && Inv(DeleteConfirmed(s)) && Inv(CloseDeleteDialog(s))
  {
  }

  lemma DeleteSettledKeepsInv(s: State, err: JsError)
    requires Inv(s)
    ensures Inv(DeleteSucceeded(s)) && Inv(DeleteFailed(s, err))
  {
  }

  lemma NearbyStartKeepsInv(s: State, supported: bool, at: LatLng)
    requires Inv(s)
    ensures Inv(FindNearby(s, supported)) && Inv(PositionObtained(s, at)) && Inv(ShowAll(s))
  {
  }

  lemma NearbyFetchedKeepsInv(s: State, data: Option<seq<ClientPin>>)
    requires Inv(s)
    ensures Inv(NearbyFetched(s, data))
  {
  }

  lemma NearbyFailedKeepsInv(s: State, code: int)
    requires Inv(s)
    ensures Inv(NearbyFetchFailed(s)) && Inv(PositionFailed(s, code))
  {
  }

  lemma NavigationKeepsInv(s: State, coords: Option<LatLng>, pin: Option<ClientPin>)
    requires Inv(s)
    ensures Inv(PrepareAddPin(s, coords)) && Inv(CancelSidebarAction(s)) && Inv(EditRequest(s, pin))
    ensures Inv(SearchResult(s, coords))
  {
  }

  lemma {:induction false} NavStepKeepsInv(s: State, e: NavEvent)
    requires Inv(s)
    ensures Inv(NavStep(s, e))
  {
    match e
    case Select(pinId) => SelectKeepsInv(s, pinId);
    case PrepareAdd(coords) => NavigationKeepsInv(s, coords, None);
    case Cancel => NavigationKeepsInv(s, None, None);
    case EditReq(pin) => NavigationKeepsInv(s, None, pin);
    case Search(coords) => NavigationKeepsInv(s, coords, None);
  }

  lemma {:induction false} SaveStepKeepsInv(s: State, e: SaveEvent)
    requires Inv(s)
    ensures Inv(SaveStep(s, e))
  {
    match e
    case SaveStart(form) => SaveCalledKeepsInv(s, form);
    case SaveOk(isUpdate, savedPin) => SaveSettledKeepsInv(s, isUpdate, savedPin, LocalError(""));
    case SaveFail(err) => SaveSettledKeepsInv(s, false, None, err);
  }

  lemma {:induction false} DeleteStepKeepsInv(s: State, e: DeleteEvent)
    requires Inv(s)
    ensures Inv(DeleteStep(s, e))
  {
    match e
    case DeleteReq(id) => DeleteStartKeepsInv(s, id);
    case DeleteConfirm => DeleteStartKeepsInv(s, None);
    case DeleteOk => DeleteSettledKeepsInv(s, LocalError(""));
    case DeleteFail(err) => DeleteSettledKeepsInv(s, err);
    case CloseDialog => DeleteStartKeepsInv(s, None);
  }

  lemma {:induction false} NearbyStepKeepsInv(s: State, e: NearbyEvent)
    requires Inv(s)
    ensures Inv(NearbyStep(s, e))
  {
    match e
    case Nearby(supported) => NearbyStartKeepsInv(s, supported, LatLng(0.0, 0.0));
    case PositionOk(at) => NearbyStartKeepsInv(s, true, at);
    case NearbyOk(data) => NearbyFetchedKeepsInv(s, data);
    case NearbyFail => NearbyFailedKeepsInv(s, 0);
    case PositionFail(code) => NearbyFailedKeepsInv(s, code);
    case ShowAllEvent => NearbyStartKeepsInv(s, true, LatLng(0.0, 0.0));
  }

  lemma LoadStepKeepsInv(s: State, e: LoadEvent)
    requires Inv(s)
    ensures Inv(LoadStep(s, e))
  {
  }

  lemma {:induction false} StepKeepsInv(s: State, e: Event)
    requires Inv(s)
    ensures Inv(Step(s, e))
  {
    match e
    case Navigation(nav) => NavStepKeepsInv(s, nav);
    case Saving(save) => SaveStepKeepsInv(s, save);
    case Deleting(del) => DeleteStepKeepsInv(s, del);
    case Locating(near) => NearbyStepKeepsInv(s, near);
    case Loading(load) => LoadStepKeepsInv(s, load);
    case NotificationClosed(clickaway) => assert Step(s, e) == CloseNotification(s, clickaway);
  }

  /** Every state reachable from the first render by any sequence of events,
      including settlements that arrive in any order, satisfies the invariant. */
  lemma {:induction false} RunKeepsInv(s: State, events: seq<Event>)
    requires Inv(s)
    ensures Inv(Run(s, events))
    decreases |events|
  {
    if events != [] {
      StepKeepsInv(s, events[0]);
      RunKeepsInv(Step(s, events[0]), events[1..]);
    }
  }

  lemma ReachableKeepsInv(events: seq<Event>)
    ensures Inv(Run(Init(), events))
  {
    InitRule();
    RunKeepsInv(Init(), events);
  }

  // ---------------------------------------------------------------------------
  // What each handler promises

  /** A truthy id found among the pins on the map selects the first pin with that
      id, shows it and drops every pending marker and coordinate; an id not found
      there changes nothing; a falsy id only clears the selection. */
  lemma SelectItemRule(s: State, pinId: Option<int>)
    ensures !Truthy(pinId) ==> SelectItem(s, pinId) == s.(activePinId := None, selected := None)
    ensures Truthy(pinId) && (forall p :: p in DisplayedPins(s) ==> p.id != pinId) ==> SelectItem(s, pinId) == s
    ensures Truthy(pinId) && (exists p :: p in DisplayedPins(s) && p.id == pinId) ==>
      var r := SelectItem(s, pinId);
      && r.mode == View && r.activePinId == pinId
      && r.selected.Some? && r.selected.value.id == pinId
      && (exists k :: FirstWithId(DisplayedPins(s), k, pinId) && DisplayedPins(s)[k] == r.selected.value)
      && r.tempMarker.None? && r.searchMarker.None? && r.newPinCoords.None?
      && r == s.(activePinId := r.activePinId, selected := r.selected, mode := View,
                 tempMarker := None, searchMarker := None, newPinCoords := None)
  {
  }

  /** The add form always clears the selection and the search marker, and puts the
      add marker at the pending coordinates, both null when none were given. */
  lemma PrepareAddRule(s: State, coords: Option<LatLng>)
    ensures var r := PrepareAddPin(s, coords);
      && r.mode == Add && r.activePinId.None? && r.selected.None? && r.searchMarker.None?
      && r.newPinCoords == coords && r.tempMarker == coords
      && r.allPins == s.allPins && r.isNearbyMode == s.isNearbyMode && r.refreshKey == s.refreshKey
  {
  }

  /** Editing needs a pin with a truthy id, and then selects that pin, in any mode. */
  lemma EditRequestRule(s: State, pin: Option<ClientPin>)
    ensures pin.None? || !Truthy(pin.value.id) ==> EditRequest(s, pin) == s
    ensures pin.Some? && Truthy(pin.value.id) ==>
      var r := EditRequest(s, pin);
      && r.mode == Edit && r.selected == pin && r.activePinId == pin.value.id
      && r.tempMarker.None? && r.searchMarker.None? && r.newPinCoords.None?
  {
  }

  /** A save sends exactly one of two calls: a create only in add mode with pending
      coordinates, which it sends; an update only in edit mode with a truthy id,
      without coordinates. Everything else is rejected before any call. */
  lemma PlanSaveRule(s: State, form: SaveData)
    ensures var p := PlanSave(s, form);
      && (p.Send? && p.request.CreateRequest? <==> s.mode == Add && s.newPinCoords.Some?)
      && (p.Send? && p.request.UpdateRequest? <==> s.mode == Edit && Truthy(form.id))
      && (p.Send? && p.request.CreateRequest? ==>
            p.request == CreateRequest(form.title, form.notes, form.tags, s.newPinCoords.value.lat, s.newPinCoords.value.lng))
      && (p.Send? && p.request.UpdateRequest? ==>
            p.request == UpdateRequest(form.id.value, form.title, form.notes, form.tags))
      && (p.Reject? ==> p.reason == (if s.mode == Add then NoCoordinates else if s.mode == Edit then NoId else InvalidMode))
  {
  }

  /** A rejected save changes nothing but the notification, which shows the text
      of the error the handler threw. */
  lemma RejectedSaveRule(s: State, form: SaveData)
    requires PlanSave(s, form).Reject?
    ensures var reason := PlanSave(s, form).reason;
      && SaveCalled(s, form) == s.(notification := Notification(true, SaveRejected(reason), Error), isLoading := false)
      && MessageText(SaveRejected(reason)) == RejectionText(reason)
  {
  }

  /** A successful save shows all pins again and asks for a reload; an update with a
      returned pin shows that pin, anything else returns to the list. */
  lemma SaveSucceededRule(s: State, isUpdate: bool, savedPin: Option<ClientPin>)
    ensures var r := SaveSucceeded(s, isUpdate, savedPin);
      && !r.isNearbyMode && r.refreshKey == s.refreshKey + 1 && !r.isLoading
      && r.notification.severity == Success
      && (isUpdate && savedPin.Some? ==>
            r.mode == View && r.selected == savedPin && r.activePinId == savedPin.value.id
            && r.newPinCoords == s.newPinCoords)
      && (!(isUpdate && savedPin.Some?) ==> r == CancelSidebarAction(r))
  {
  }

  /** A failed save keeps the form, the selection and the pending coordinates. */
  lemma SaveFailedRule(s: State, err: JsError)
    ensures var r := SaveFailed(s, err);
      && r.mode == s.mode && r.selected == s.selected && r.activePinId == s.activePinId
      && r.newPinCoords == s.newPinCoords && r.tempMarker == s.tempMarker
      && r.notification == Notification(true, SaveError(err), Error)
      && r == s.(notification := r.notification, isLoading := false)
  {
  }

  /** The error texts. A server message in the response leads both texts; without
      one, saving falls back to the error's own message and then to a fixed text,
      while deleting goes straight to its fixed text. A request that got no response
      says so. Without a request the error's own message is shown, which for a
      delete may leave nothing at all; a save text is never empty. */
  lemma ErrorTextRule(err: JsError)
    ensures err.response.Some? && StrTruthy(err.response.value.dataMessage) ==>
      var m := err.response.value.dataMessage.value;
      m <= SaveErrorText(err) && m <= DeleteErrorText(err)
    ensures err.response.Some? && !StrTruthy(err.response.value.dataMessage) ==>
      && OrElse(err.message, "Failed to save pin.") <= SaveErrorText(err)
      && "Failed to delete pin." <= DeleteErrorText(err)
    ensures err.response.None? && err.request ==> SaveErrorText(err) == NO_RESPONSE == DeleteErrorText(err)
    ensures err.response.None? && !err.request && StrTruthy(err.message) ==>
      SaveErrorText(err) == err.message.value == DeleteErrorText(err)
    ensures err.response.None? && !err.request && !StrTruthy(err.message) ==>
      SaveErrorText(err) == "Failed to save pin."
    ensures SaveErrorText(err) != []
    ensures DeleteErrorText(err) == [] <==> err.response.None? && !err.request && !StrTruthy(err.message)
  {
    if err.response.Some? {
      var r := err.response.value;
      var suffix := StatusSuffix(r.status);
      assert SaveErrorText(err) == OrElse(r.dataMessage, OrElse(err.message, "Failed to save pin.")) + suffix;
      assert DeleteErrorText(err) == OrElse(r.dataMessage, "Failed to delete pin.") + suffix;
      assert |suffix| > 0;
    }
  }

  /** The status suffix ends every text built from a response, saving or deleting. */
  lemma StatusSuffixShown(err: JsError)
    requires err.response.Some?
    ensures var suffix := StatusSuffix(err.response.value.status);
      var t := SaveErrorText(err); |t| >= |suffix| && t[|t| - |suffix|..] == suffix
    ensures var suffix := StatusSuffix(err.response.value.status);
      var t := DeleteErrorText(err); |t| >= |suffix| && t[|t| - |suffix|..] == suffix
  {
  }

  /** Deleting: a falsy id opens nothing; a truthy one opens the dialog and touches
      nothing else; confirming closes the dialog before the call; success returns
      to the list and reloads, failure only reports; the pending id is always
      cleared; the dialog cannot be dismissed while a request is in flight. */
  lemma DeleteRule(s: State, id: Option<int>, err: JsError)
    ensures !Truthy(id) ==> DeleteRequest(s, id) == s
    ensures Truthy(id) ==> DeleteRequest(s, id) == s.(pinToDeleteId := id, deleteDialogOpen := true)
    ensures !Truthy(s.pinToDeleteId) ==> DeleteConfirmed(s) == s
    ensures Truthy(s.pinToDeleteId) ==>
      var r := DeleteConfirmed(s);
      !r.deleteDialogOpen && r.isLoading && r.pinToDeleteId == s.pinToDeleteId
      && r.mode == s.mode && r.selected == s.selected
    ensures var r := DeleteSucceeded(s);
      r.mode == List && r.selected.None? && r.activePinId.None? && !r.isNearbyMode
      && r.refreshKey == s.refreshKey + 1 && r.pinToDeleteId.None?
    ensures DeleteFailed(s, err) ==
      s.(notification := Notification(true, DeleteError(err), Error), isLoading := false, pinToDeleteId := None)
    ensures s.isLoading ==> CloseDeleteDialog(s) == s
  {
  }

  /** Nearby search: without geolocation only a warning; otherwise the list is shown
      with nothing selected and no add or search marker, but the pending add
      coordinates are kept. A failed fetch empties the nearby pins and forgets the
      location; the three positioning errors give three distinct messages. */
  lemma NearbyRule(s: State, supported: bool, code: int)
    ensures !supported ==>
      FindNearby(s, false) == s.(notification := Notification(true, GeolocationUnsupported, Warning))
    ensures supported ==>
      var r := FindNearby(s, true);
      && r.mode == List && r.selected.None? && r.activePinId.None?
      && r.tempMarker.None? && r.searchMarker.None? && r.isLoading
      && r.newPinCoords == s.newPinCoords && r.isNearbyMode == s.isNearbyMode
    ensures var r := NearbyFetchFailed(s);
      r.nearbyPins == [] && r.userLocation.None? && !r.isNearbyMode && !r.isLoading
      && r.mapError == Some(CouldNotFindNearby)
    ensures NearbyFetched(s, None) == NearbyFetchFailed(s)
    ensures var r := PositionFailed(s, code); r.userLocation.None? && !r.isNearbyMode && !r.isLoading
    ensures PositionFailed(s, code).notification == Notification(true, PositionError(code), Error)
  {
  }

  /** The three positioning errors read differently, and every other code gets the
      generic text; the nearby count is printed in decimal. */
  lemma PositionAndNearbyTexts(code: int, count: nat)
    ensures MessageText(PositionError(PERMISSION_DENIED)) != MessageText(PositionError(POSITION_UNAVAILABLE))
    ensures MessageText(PositionError(POSITION_UNAVAILABLE)) != MessageText(PositionError(TIMEOUT))
    ensures MessageText(PositionError(TIMEOUT)) != MessageText(PositionError(PERMISSION_DENIED))
    ensures code !in {PERMISSION_DENIED, POSITION_UNAVAILABLE, TIMEOUT} ==>
      MessageText(PositionError(code)) == "Could not get your location."
    ensures MessageText(NearbyShown(count)) == "Showing " + NatToString(count) + " pins nearby."
  {
  }

  /** Nearby mode is switched on by one event only: a nearby fetch that resolved
      with a body. */
  lemma NearbyModeOnlyFromFetch(s: State, e: Event)
    requires !s.isNearbyMode && Step(s, e).isNearbyMode
    ensures e.Locating? && e.near.NearbyOk? && e.near.data.Some?
    ensures DisplayedPins(Step(s, e)) == e.near.data.value
  {
  }

  /** The refresh key never decreases, and grows only on a successful save, a
      successful delete, and a switch back to all pins. */
  lemma SaveStepRefresh(s: State, e: SaveEvent)
    ensures SaveStep(s, e).refreshKey == if e.SaveOk? then s.refreshKey + 1 else s.refreshKey
  {
  }

  lemma DeleteStepRefresh(s: State, e: DeleteEvent)
    ensures DeleteStep(s, e).refreshKey == if e.DeleteOk? then s.refreshKey + 1 else s.refreshKey
  {
  }

  lemma NearbyStepRefresh(s: State, e: NearbyEvent)
    ensures NearbyStep(s, e).refreshKey == if e.ShowAllEvent? then s.refreshKey + 1 else s.refreshKey
  {
  }

  lemma RefreshKeyRule(s: State, e: Event)
    ensures Step(s, e).refreshKey >= s.refreshKey
    ensures Step(s, e).refreshKey != s.refreshKey ==>
      (e == Deleting(DeleteOk) || e == Locating(ShowAllEvent) || (e.Saving? && e.save.SaveOk?))
      && Step(s, e).refreshKey == s.refreshKey + 1
  {
    match e
    case Navigation(nav) => assert Step(s, e).refreshKey == NavStep(s, nav).refreshKey == s.refreshKey;
    case Saving(save) => SaveStepRefresh(s, save);
    case Deleting(del) => DeleteStepRefresh(s, del);
    case Locating(near) => NearbyStepRefresh(s, near);
    case Loading(load) => assert Step(s, e).refreshKey == LoadStep(s, load).refreshKey == s.refreshKey;
    case NotificationClosed(clickaway) => assert Step(s, e) == CloseNotification(s, clickaway);
  }

  /** Returning to the list twice is returning once; showing all pins twice differs
      from once only in the refresh key, which is bumped again. */
  lemma CancelAndShowAllRepeat(s: State)
    ensures CancelSidebarAction(CancelSidebarAction(s)) == CancelSidebarAction(s)
    ensures var once := ShowAll(s);
      ShowAll(once) == once.(refreshKey := once.refreshKey + 1)
    ensures var r := ShowAll(s);
      && r.mode == List && r.selected.None? && r.activePinId.None?
      && r.tempMarker.None? && r.searchMarker.None?
      && !r.isNearbyMode && r.userLocation.None? && r.nearbyPins == []
      && r.refreshKey == s.refreshKey + 1
  {
  }

  /** A search result with coordinates returns to the list with only the search
      marker; one without coordinates only removes the search marker. */
  lemma SearchResultRule(s: State, coords: Option<LatLng>)
    ensures coords.None? ==> SearchResult(s, coords) == s.(searchMarker := None)
    ensures coords.Some? ==>
      var r := SearchResult(s, coords);
      r.mode == List && r.searchMarker == coords && r.tempMarker.None? && r.selected.None?
      && r.newPinCoords == s.newPinCoords
  {
  }

  /** The floating button toggles: in nearby mode it shows all pins, otherwise it
      searches nearby; the sidebar list shows all pins even in nearby mode. */
  lemma ChildrenRule(s: State)
    ensures NearbyButton(s) == ShowAllPins <==> s.isNearbyMode
    ensures SidebarPropsOf(s).pinsToList == s.allPins
    ensures s.isNearbyMode ==> DisplayedPins(s) == s.nearbyPins && !SidebarPropsOf(s).isLoadingList
    ensures IsSaving(s) ==> !IsLoadingList(s)
  {
  }

  /** The card and panel buttons reach the handlers: selecting by id, editing the
      whole pin, deleting by id, and closing back to the list. */
  lemma IntentRule(s: State, pin: ClientPin)
    requires Truthy(pin.id)
    ensures ApplyIntent(s, PinCard.CardIntent(pin, PinCard.EditButton)).mode == Edit
    ensures ApplyIntent(s, PinCard.CardIntent(pin, PinCard.EditButton)).selected == Some(pin)
    ensures ApplyIntent(s, PinCard.CardIntent(pin, PinCard.DeleteButton)) == s.(pinToDeleteId := pin.id, deleteDialogOpen := true)
    ensures ApplyIntent(s, ClosePanel) == CancelSidebarAction(s)
  {
  }

  // ---------------------------------------------------------------------------
  // Behaviours of the code that its design does not suggest

  /** Pending add coordinates survive a nearby search, so they can exist outside add
      mode. */
  lemma PendingCoordsOutsideAdd(s: State, c: LatLng)
    ensures var r := FindNearby(PrepareAddPin(s, Some(c)), true);
      r.newPinCoords == Some(c) && r.mode == List
  {
  }

  /** A falsy selection clears the selection but stays in view mode. */
  lemma FalsySelectKeepsView(s: State)
    requires s.mode == View
    ensures SelectItem(s, Some(0)).mode == View && SelectItem(s, Some(0)).selected.None?
    ensures SelectItem(s, None).mode == View && SelectItem(s, None).selected.None?
  {
  }

  /** In nearby mode, clicking a sidebar card for a pin that is not nearby does
      nothing, because the list shows all pins but the lookup uses the nearby ones. */
  lemma SidebarCardMissInNearbyMode(s: State, pin: ClientPin)
    requires s.isNearbyMode && pin in SidebarPins(s) && Truthy(pin.id)
    requires forall p :: p in s.nearbyPins ==> p.id != pin.id
    ensures ApplyIntent(s, PinCard.CardIntent(pin, PinCard.Body)) == s
  {
  }

  /** The add flow sends the coordinates of the map click, whatever the form holds. */
  lemma AddFlowUsesClickedCoords(s: State, c: LatLng, form: SaveData)
    ensures PlanSave(PrepareAddPin(s, Some(c)), form) ==
      Send(CreateRequest(form.title, form.notes, form.tags, c.lat, c.lng))
  {
  }

  /** The "add" button opens the form without coordinates, so saving from it is
      rejected until the map is clicked. */
  lemma AddButtonNeedsMapClick(s: State, form: SaveData)
    ensures PlanSave(PrepareAddPin(s, None), form) == Reject(NoCoordinates)
  {
  }
}
