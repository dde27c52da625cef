/** The map panel: which Places search results get a marker, which pin marker is
    the active one, what a background click reports, and how the map camera is
    moved through the map instance the component keeps in a ref. */
module MapContainer {
  import opened Common
  import opened ClientTypes

  const DEFAULT_CENTER: LatLng := LatLng(51.5074, -0.1278)
  const DEFAULT_ZOOM: int := 12
  /** Below this zoom a pan to a single location zooms in ... */
  const MIN_PAN_ZOOM: int := 13
  /** ... to this level. */
  const PAN_ZOOM: int := 15
  const ACTIVE_MARKER_Z: int := 100
  const MARKER_Z: int := 1

  /** The place types that mark a specific location rather than a broad area. */
  const MARKER_TYPES: seq<string> := [
    "street_address", "premise", "subpremise", "point_of_interest",
    "establishment", "natural_feature", "airport", "park", "bus_station",
    "train_station", "transit_station", "church", "hospital", "school", "shopping_mall"]

  /** The bounds of a place, as the Places API reports them. */
  datatype Viewport = Viewport(south: real, west: real, north: real, east: real)

  datatype Geometry = Geometry(location: Option<LatLng>, viewport: Option<Viewport>)

  /** A Places result: `types` is `None` when the field is missing. */
  datatype Place = Place(name: Option<string>, geometry: Option<Geometry>, types: Option<seq<string>>)

  // ---------------------------------------------------------------------------
  // The marker rule for search results

  /** `types.some(type => MARKER_TYPES.includes(type))`, scanning left to right. */
  function AnyAllowed(types: seq<string>): bool {
    if types == [] then false
    else types[0] in MARKER_TYPES || AnyAllowed(types[1..])
  }

  /** `(place.types || []).some(...)`. */
  function ShouldShowMarker(types: Option<seq<string>>): bool {
    AnyAllowed(types.GetOr([]))
  }

  lemma {:induction false} AnyAllowedExists(types: seq<string>)
    ensures AnyAllowed(types) <==> exists i :: 0 <= i < |types| && types[i] in MARKER_TYPES
  {
    if types != [] {
      AnyAllowedExists(types[1..]);
      if AnyAllowed(types[1..]) {
        var i :| 0 <= i < |types[1..]| && types[1..][i] in MARKER_TYPES;
        assert types[i + 1] in MARKER_TYPES;
      }
      if exists i :: 0 <= i < |types| && types[i] in MARKER_TYPES {
        var i :| 0 <= i < |types| && types[i] in MARKER_TYPES;
        if i > 0 {
          assert types[1..][i - 1] in MARKER_TYPES;
        }
      }
    }
  }

  /** A search result gets a marker exactly when one of its types is in the
      fifteen-entry list; a place without types gets none, and so does a place
      that is only a locality or a political area. */
  lemma ShouldShowMarkerIff(types: Option<seq<string>>)
    ensures ShouldShowMarker(types) <==>
      types.Some? && exists i :: 0 <= i < |types.value| && types.value[i] in MARKER_TYPES
    ensures types.None? ==> !ShouldShowMarker(types)
    ensures !ShouldShowMarker(Some(["locality", "political"]))
  {
    AnyAllowedExists(types.GetOr([]));
    AnyAllowedExists(["locality", "political"]);
  }

  /** A place the map can move to: it has a geometry with a location. */
  predicate HasLocation(place: Option<Place>) {
    place.Some? && place.value.geometry.Some? && place.value.geometry.value.location.Some?
  }

  /** What `handlePlaceSelect` passes to `onSearchResult`: the marker coordinates
      (only for a specific place) and the place itself; `(null, null)` for a place
      without geometry or location. */
  function SearchResultOf(place: Option<Place>): (r: (Option<LatLng>, Option<Place>))
    ensures !HasLocation(place) ==> r == (None, None)
    ensures HasLocation(place) ==> r.1 == place
    ensures r.0.Some? <==> HasLocation(place) && ShouldShowMarker(place.value.types)
    ensures r.0.Some? ==> r.0 == place.value.geometry.value.location
  {
    if !HasLocation(place) then (None, None)
    else
      var p := place.value;
      (if ShouldShowMarker(p.types) then p.geometry.value.location else None, place)
  }

  // ---------------------------------------------------------------------------
  // Background clicks and pin markers

  /** A map click event: `latLng` is missing for clicks that carry no position. */
  datatype MapClick = MapClick(latLng: Option<LatLng>)

  /** `handleMapClick`: the coordinates handed to `onMapClick`, or nothing. */
  function MapClickCoords(event: MapClick): (r: Option<LatLng>)
    ensures r.None? <==> event.latLng.None?
    ensures r.Some? ==> r.value.lat == event.latLng.value.lat && r.value.lng == event.latLng.value.lng
  {
    match event.latLng
    case None => None
    case Some(p) => Some(LatLng(p.lat, p.lng))
  }

  /** One permanent marker: it reports `pinId` when clicked. */
  datatype PinMarker = PinMarker(
    pinId: Option<int>,
    title: Option<string>,
    isActive: bool,
    bounces: bool,
    zIndex: int)

  function MarkerOf(pin: ClientPin, activePinId: Option<int>, isLoaded: bool): PinMarker {
    var isActive := pin.id == activePinId;
    PinMarker(pin.id, pin.title, isActive, isActive && isLoaded, if isActive then ACTIVE_MARKER_Z else MARKER_Z)
  }

  function Markers(pins: seq<ClientPin>, activePinId: Option<int>, isLoaded: bool): seq<PinMarker> {
    seq(|pins|, i requires 0 <= i < |pins| => MarkerOf(pins[i], activePinId, isLoaded))
  }

  /** One marker per pin in order, reporting that pin's id; a marker is active
      exactly when its pin id equals the active id, and every active marker is
      drawn above every other one. With distinct pin ids at most one marker is
      active. */
  lemma ActiveMarkerRule(pins: seq<ClientPin>, activePinId: Option<int>, isLoaded: bool)
    ensures var ms := Markers(pins, activePinId, isLoaded);
      && |ms| == |pins|
      && (forall i :: 0 <= i < |ms| ==> ms[i].pinId == pins[i].id && (ms[i].isActive <==> pins[i].id == activePinId))
      && (forall i, j :: 0 <= i < |ms| && 0 <= j < |ms| && ms[i].isActive && !ms[j].isActive ==>
            ms[i].zIndex > ms[j].zIndex)
      && (forall i :: 0 <= i < |ms| && ms[i].bounces ==> ms[i].isActive)
    ensures (forall i, j :: 0 <= i < j < |pins| ==> pins[i].id != pins[j].id) ==>
      var ms := Markers(pins, activePinId, isLoaded);
      forall i, j :: 0 <= i < |ms| && 0 <= j < |ms| && ms[i].isActive && ms[j].isActive ==> i == j
  {
  }

  // ---------------------------------------------------------------------------
  // The camera

  /** What the map instance shows: its centre, its zoom, and the viewport it was
      last asked to fit (cleared by a pan). */
  datatype MapView = MapView(center: LatLng, zoom: int, fittedTo: Option<Viewport>)

  /** The camera after `panToLocation(location, viewport)`: nothing moves before the
      script has loaded; a viewport wins over a location; a location recentres the
      map and zooms a far-out map in to 15. */
  function PanResult(isLoaded: bool, v: MapView, location: Option<LatLng>, viewport: Option<Viewport>): MapView {
    if !isLoaded then v
    else if viewport.Some? then v.(fittedTo := viewport)
    else if location.Some? then MapView(location.value, if v.zoom < MIN_PAN_ZOOM then PAN_ZOOM else v.zoom, None)
    else v
  }

  /** The viewport takes precedence; a pan to a location never leaves the zoom
      below 13 and changes it only when it was below 13; repeating a pan changes
      nothing more. */
  lemma PanRule(isLoaded: bool, v: MapView, location: Option<LatLng>, viewport: Option<Viewport>)
    ensures var r := PanResult(isLoaded, v, location, viewport);
      && (isLoaded && viewport.Some? ==> r.fittedTo == viewport && r.center == v.center && r.zoom == v.zoom)
      && (isLoaded && viewport.None? && location.Some? ==>
            && r.center == location.value
            && r.zoom >= MIN_PAN_ZOOM
            && (v.zoom >= MIN_PAN_ZOOM ==> r.zoom == v.zoom)
            && (v.zoom < MIN_PAN_ZOOM ==> r.zoom == PAN_ZOOM))
      && (!isLoaded || (viewport.None? && location.None?) ==> r == v)
      && PanResult(isLoaded, r, location, viewport) == r
  {
  }

  /** The Google map instance. */
  class GoogleMap {
    var center: LatLng
    var zoom: int
    var fittedTo: Option<Viewport>

    function View(): MapView
      reads this
    {
      MapView(center, zoom, fittedTo)
    }

    constructor ()
      ensures View() == MapView(DEFAULT_CENTER, DEFAULT_ZOOM, None)
    {
      center := DEFAULT_CENTER;
      zoom := DEFAULT_ZOOM;
      fittedTo := None;
    }

    method FitBounds(viewport: Viewport)
      modifies this
      ensures View() == old(View()).(fittedTo := Some(viewport))
    {
      fittedTo := Some(viewport);
    }

    method PanTo(location: LatLng)
      modifies this
      ensures View() == MapView(location, old(zoom), None)
    {
      center := location;
      fittedTo := None;
    }

    method SetZoom(z: int)
      modifies this
      ensures View() == old(View()).(zoom := z)
    {
      zoom := z;
    }
  }

  /** The component: whether the Maps script has loaded, and the map instance kept
      in `mapRef` between `onLoad` and `onUnmount`. */
  class MapPanel {
    var isLoaded: bool
    var mapRef: GoogleMap?

    constructor ()
      ensures !isLoaded && mapRef == null
    {
      isLoaded := false;
      mapRef := null;
    }

    method ScriptLoaded()
      modifies this
      ensures isLoaded && mapRef == old(mapRef)
    {
      isLoaded := true;
    }

    method OnLoad(instance: GoogleMap)
      modifies this
      ensures mapRef == instance && isLoaded == old(isLoaded)
    {
      mapRef := instance;
    }

    method OnUnmount()
      modifies this
      ensures mapRef == null && isLoaded == old(isLoaded)
    {
      mapRef := null;
    }

    /** `panToLocation`: a no-op without a map instance or before the script has
        loaded, otherwise the camera moves as `PanResult` says. */
    method PanToLocation(location: Option<LatLng>, viewport: Option<Viewport>)
      modifies mapRef
      ensures mapRef != null ==> mapRef.View() == PanResult(isLoaded, old(mapRef.View()), location, viewport)
    {
      if mapRef != null && isLoaded {
        if viewport.Some? {
          mapRef.FitBounds(viewport.value);
        } else if location.Some? {
          mapRef.PanTo(location.value);
          if mapRef.zoom < MIN_PAN_ZOOM {
            mapRef.SetZoom(PAN_ZOOM);
          }
        }
      }
    }

    /** `handlePlaceSelect`: a place with a location moves the camera to its
        viewport or location; every place is reported as `SearchResultOf` says. */
    method HandlePlaceSelect(place: Option<Place>) returns (coords: Option<LatLng>, reported: Option<Place>)
      modifies mapRef
      ensures (coords, reported) == SearchResultOf(place)
      ensures mapRef != null ==>
        mapRef.View() == (
          if HasLocation(place) then
            PanResult(isLoaded, old(mapRef.View()), place.value.geometry.value.location, place.value.geometry.value.viewport)
          else old(mapRef.View()))
    {
      if !HasLocation(place) {
        return None, None;
      }
      var geometry := place.value.geometry.value;
      PanToLocation(geometry.location, geometry.viewport);
      coords, reported := SearchResultOf(place).0, place;
    }

    /** The effect that follows the user's location once it is known. */
    method FollowUserLocation(userLocation: Option<LatLng>)
      modifies mapRef
      ensures mapRef != null ==>
        mapRef.View() == (
          if userLocation.Some? then PanResult(isLoaded, old(mapRef.View()), userLocation, None) else old(mapRef.View()))
    {
      if userLocation.Some? && isLoaded {
        PanToLocation(userLocation, None);
      }
    }

    /** The effect that follows the active pin: the first pin whose id equals a
        truthy active id, when it has both coordinates. */
    method FollowActivePin(pins: seq<ClientPin>, activePinId: Option<int>)
      modifies mapRef
      ensures mapRef != null ==>
        mapRef.View() == (
          match ActivePinLocation(pins, activePinId)
          case Some(at) => PanResult(isLoaded, old(mapRef.View()), Some(at), None)
          case None => old(mapRef.View()))
    {
      var at := ActivePinLocation(pins, activePinId);
      if at.Some? && isLoaded && mapRef != null {
        PanToLocation(at, None);
      }
    }
  }

  /** The position of the first pin whose id equals a truthy active id. */
  function ActivePinLocation(pins: seq<ClientPin>, activePinId: Option<int>): Option<LatLng> {
    if !Truthy(activePinId) then None
    else match FindPin(pins, activePinId)
      case Some(p) =>
        if p.latitude.Some? && p.longitude.Some? then Some(LatLng(p.latitude.value, p.longitude.value)) else None
      case None => None
  }
}
