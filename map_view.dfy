/** The student map: where it centres, which markers it draws and the
    route line it fetches between the bus and the destination. */
module MapView {
  import opened Common
  import opened SharedState

  /** The centre used when the bus has no usable position (the campus). */
  const DefaultCenter: LatLng := LatLng(12.957952, 80.160793)

  /** What the dashboard passes when no tracking document exists. */
  const PlaceholderLocation: LatLng := LatLng(12.97, 77.59)

  /** The bus position the dashboard hands to the map: the tracking
      document, or a fixed placeholder when there is none. */
  function MapInput(busLocation: Option<Doc>): (r: Doc)
    ensures busLocation.Some? ==> r == busLocation.value
    ensures busLocation.None? ==>
              NumField(r, Lat) == Some(PlaceholderLocation.lat) &&
              NumField(r, Lng) == Some(PlaceholderLocation.lng)
  {
    if busLocation.Some? then busLocation.value
    else map[Lat := Num(PlaceholderLocation.lat), Lng := Num(PlaceholderLocation.lng)]
  }

  /** Both coordinates of the bus are numbers. */
  predicate HasValidLocation(bus: Option<Doc>) {
    bus.Some? && NumField(bus.value, Lat).Some? && NumField(bus.value, Lng).Some?
  }

  /** What the dashboard's map gets as a bus position: with no tracking
      document the placeholder counts as a valid location; an existing
      document is passed on as it is, so it gives a position exactly when
      it holds numeric coordinates. */
  lemma DashboardMapHasPosition(busLocation: Option<Doc>)
    ensures HasValidLocation(Some(MapInput(busLocation))) <==>
              busLocation.None? || HasValidLocation(busLocation)
  {
  }

  /** The map centre and bus marker position. */
  function Position(bus: Option<Doc>): (p: LatLng)
    ensures HasValidLocation(bus) ==>
              p == LatLng(NumField(bus.value, Lat).value, NumField(bus.value, Lng).value)
    ensures !HasValidLocation(bus) ==> p == DefaultCenter
  {
    if HasValidLocation(bus) then LatLng(NumField(bus.value, Lat).value, NumField(bus.value, Lng).value)
    else DefaultCenter
  }

  /** The user marker: drawn only when both coordinates are non-zero. */
  function UserPos(userLocation: Option<LatLng>): (r: Option<LatLng>)
    ensures r.Some? <==> userLocation.Some? && userLocation.value.lat != 0.0 && userLocation.value.lng != 0.0
    ensures r.Some? ==> r == userLocation
  {
    if userLocation.Some? && userLocation.value.lat != 0.0 && userLocation.value.lng != 0.0 then userLocation
    else None
  }

  /** The destination marker and route line are drawn only with both a
      destination and a valid bus location. */
  predicate ShowsDestination(bus: Option<Doc>, dest: Option<LatLng>) {
    dest.Some? && HasValidLocation(bus)
  }

  /** The bus popup's speed: the rounded stored speed, 0 when absent. */
  function PopupSpeed(bus: Doc): (r: int)
    ensures NumField(bus, Speed).None? ==> r == 0
    ensures NumField(bus, Speed).Some? ==>
              (r as real) - 0.5 <= NumField(bus, Speed).value < (r as real) + 0.5
  {
    JsRound(if NumField(bus, Speed).Some? then NumField(bus, Speed).value else 0.0)
  }

  /** One GeoJSON coordinate pair: longitude first. */
  datatype GeoPoint = GeoPoint(lng: real, lat: real)

  /** One route of the routing service's reply, with its full geometry. */
  datatype MapRoute = MapRoute(coordinates: seq<GeoPoint>)

  /** GeoJSON `[lng, lat]` pairs turned into the map's `[lat, lng]`. */
  function ToLatLng(path: seq<GeoPoint>): (r: seq<LatLng>)
    ensures |r| == |path|
    ensures forall i :: 0 <= i < |path| ==> r[i] == LatLng(path[i].lat, path[i].lng)
  {
    if path == [] then [] else [LatLng(path[0].lat, path[0].lng)] + ToLatLng(path[1..])
  }

  /** The reverse conversion, back to GeoJSON order. */
  function ToGeoJson(path: seq<LatLng>): (r: seq<GeoPoint>)
    ensures |r| == |path|
    ensures forall i :: 0 <= i < |path| ==> r[i] == GeoPoint(path[i].lng, path[i].lat)
  {
    if path == [] then [] else [GeoPoint(path[0].lng, path[0].lat)] + ToGeoJson(path[1..])
  }

  /** The swap loses nothing: the drawn path is the route's geometry, point
      for point. */
  lemma {:induction false} SwapRoundTrip(path: seq<GeoPoint>)
    ensures ToGeoJson(ToLatLng(path)) == path
  {
    if path != [] {
      SwapRoundTrip(path[1..]);
      assert ToLatLng(path)[1..] == ToLatLng(path[1..]);
      assert path == [path[0]] + path[1..];
    }
  }

  lemma {:induction false} SwapRoundTripBack(path: seq<LatLng>)
    ensures ToLatLng(ToGeoJson(path)) == path
  {
    if path != [] {
      SwapRoundTripBack(path[1..]);
      assert ToGeoJson(path)[1..] == ToGeoJson(path[1..]);
      assert path == [path[0]] + path[1..];
    }
  }

  /** The map component's route state. */
  class Map {
    var routePath: Option<seq<LatLng>>

    constructor ()
      ensures routePath == None
    {
      routePath := None;
    }

    /** The route effect, once its delayed request has completed: without a
        valid bus location or a destination the path is cleared; a failed
        request draws the straight line; a reply with routes draws the first
        route's geometry; a reply without routes leaves the path alone. */
    method RouteEffect(bus: Option<Doc>, dest: Option<LatLng>, reply: Reply<MapRoute>)
      modifies this`routePath
      ensures !ShowsDestination(bus, dest) ==> routePath == None
      ensures ShowsDestination(bus, dest) && reply.Failed? ==>
                routePath == Some([Position(bus), dest.value])
      ensures ShowsDestination(bus, dest) && reply.Replied? && |reply.routes| > 0 ==>
                routePath == Some(ToLatLng(reply.routes[0].coordinates))
      ensures ShowsDestination(bus, dest) && reply.Replied? && |reply.routes| == 0 ==>
                routePath == old(routePath)
      ensures ShowsRoute(bus, dest) <==>
                ShowsDestination(bus, dest) && (reply.Failed? || |reply.routes| > 0 || old(routePath).Some?)
    {
      if !HasValidLocation(bus) || dest.None? {
        routePath := None;
        return;
      }
      match reply
      case Failed =>
        routePath := Some([Position(bus), dest.value]);
      case Replied(routes) =>
        if |routes| > 0 {
          routePath := Some(ToLatLng(routes[0].coordinates));
        }
    }

    /** The route line is drawn only alongside the destination marker. */
    predicate ShowsRoute(bus: Option<Doc>, dest: Option<LatLng>)
      reads this
    {
      ShowsDestination(bus, dest) && routePath.Some?
    }
  }
}
