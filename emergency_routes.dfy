/** The emergency route planner page: picking an origin and a destination on the map, the
    route request that avoids high-risk incidents, and the incident colour banding. */
module EmergencyRoutes {
  import opened Common
  import opened JsSemantics
  import opened Reports

  datatype LatLng = LatLng(lat: real, lng: real)

  /** Which point the next map click sets. */
  datatype Selection = SelectOrigin | SelectDestination

  /** The square avoided around one incident: its centre and the radius in metres (the
      corner coordinates are trigonometry and are not modelled). */
  datatype AvoidZone = AvoidZone(lat: real, lng: real, radiusMeters: nat)

  const AVOID_RADIUS: nat := 150

  /** The routing request body: the `[lng, lat]` pairs of origin and destination, and the
      avoided areas, attached only when there is at least one. */
  datatype RouteRequest = RouteRequest(coordinates: seq<(real, real)>, avoid: Option<seq<AvoidZone>>)

  /** A calculated route: the decoded polyline, the distance in km and the duration in min. */
  datatype Route = Route(coordinates: seq<LatLng>, distanceKm: real, durationMin: real)

  /** What the routing service answered: an HTTP error, a reply without route geometry, or a
      route (decoded from its polyline). */
  datatype RouteResponse = HttpError(text: string) | NoGeometry | RouteFound(route: Route)

  const BOTH_POINTS_NEEDED: string := "Please set both origin and destination"
  const ROUTE_FAILED: string := "Failed to calculate route"

  /** `inc.risk_score >= 70 && inc.latitude && inc.longitude` (a null score compares as 0). */
  predicate IsHighRisk(r: Report) {
    RiskOrZero(r) >= 70 && HasLocation(r)
  }

  /** The incidents to avoid, in incident order. */
  function HighRiskIncidents(rs: seq<Report>): (hi: seq<Report>)
    ensures |hi| <= |rs|
    ensures forall r :: r in hi <==> r in rs && IsHighRisk(r)
    ensures forall k :: 0 <= k < |hi| ==> IsHighRisk(hi[k])
    ensures forall r :: multiset(hi)[r] == if IsHighRisk(r) then multiset(rs)[r] else 0
  {
    if rs == [] then []
    else
      var init, last := rs[..|rs| - 1], rs[|rs| - 1];
      assert rs == init + [last];
      HighRiskIncidents(init) + if IsHighRisk(last) then [last] else []
  }

  /** `createAvoidPolygon(inc.latitude, inc.longitude, 150)`, as its centre and radius. */
  function AvoidZoneOf(r: Report): AvoidZone
    requires HasLocation(r)
  {
    AvoidZone(r.latitude.value, r.longitude.value, AVOID_RADIUS)
  }

  /** One avoided area per high-risk incident, in the same order. */
  function AvoidZones(hi: seq<Report>): (zs: seq<AvoidZone>)
    requires forall k :: 0 <= k < |hi| ==> HasLocation(hi[k])
    ensures |zs| == |hi|
    ensures forall k :: 0 <= k < |hi| ==> zs[k] == AvoidZoneOf(hi[k])
  {
    seq(|hi|, k requires 0 <= k < |hi| => AvoidZoneOf(hi[k]))
  }

  /** The request body built by calculateRoute. */
  function RouteRequestFor(origin: LatLng, destination: LatLng, incidents: seq<Report>): (req: RouteRequest)
    ensures req.coordinates == [(origin.lng, origin.lat), (destination.lng, destination.lat)]
    ensures req.avoid.None? <==> forall r :: r in incidents ==> !IsHighRisk(r)
    ensures req.avoid.Some? ==> |HighRiskIncidents(incidents)| > 0 &&
                                req.avoid.value == AvoidZones(HighRiskIncidents(incidents))
  {
    var hi := HighRiskIncidents(incidents);
    assert |hi| > 0 ==> !forall r :: r in incidents ==> !IsHighRisk(r) by {
      if |hi| > 0 {
        assert hi[0] in hi;
      }
    }
    var zones := AvoidZones(hi);
    RouteRequest(
      [(origin.lng, origin.lat), (destination.lng, destination.lat)],
      if |zones| > 0 then Some(zones) else None)
  }

  /** Every incident of risk at least 70 with coordinates has an avoided area. */
  lemma AvoidedExactlyHighRisk(origin: LatLng, destination: LatLng, incidents: seq<Report>, r: Report)
    requires r in incidents && IsHighRisk(r)
    ensures var req := RouteRequestFor(origin, destination, incidents);
            req.avoid.Some? &&
            AvoidZoneOf(r) in req.avoid.value
  {
    var hi := HighRiskIncidents(incidents);
    var k :| 0 <= k < |hi| && hi[k] == r;
    assert AvoidZones(hi)[k] == AvoidZoneOf(r);
  }

  /** Every avoided area is centred on an incident of risk at least 70 with coordinates. */
  lemma AvoidZoneFromHighRiskIncident(origin: LatLng, destination: LatLng, incidents: seq<Report>, z: AvoidZone)
    requires var req := RouteRequestFor(origin, destination, incidents);
             req.avoid.Some? && z in req.avoid.value
    ensures exists r :: r in incidents && IsHighRisk(r) && z == AvoidZoneOf(r)
  {
    var hi := HighRiskIncidents(incidents);
    var zs := AvoidZones(hi);
    var k :| 0 <= k < |zs| && zs[k] == z;
    assert hi[k] in hi;
  }

  lemma HighRiskIncidentsSnoc(rs: seq<Report>, r: Report)
    ensures HighRiskIncidents(rs + [r]) == HighRiskIncidents(rs) + if IsHighRisk(r) then [r] else []
  {
    var s := rs + [r];
    assert s[..|s| - 1] == rs;
  }

  /** Filtering a concatenation filters each part and keeps them in order. */
  lemma {:induction false} HighRiskIncidentsAppend(a: seq<Report>, b: seq<Report>)
    ensures HighRiskIncidents(a + b) == HighRiskIncidents(a) + HighRiskIncidents(b)
  {
    if b == [] {
      assert a + b == a;
      assert HighRiskIncidents(a) + HighRiskIncidents(b) == HighRiskIncidents(a) + [];
    } else {
      var init, last := b[..|b| - 1], b[|b| - 1];
      var tail := if IsHighRisk(last) then [last] else [];
      assert HighRiskIncidents(a + b) == HighRiskIncidents(a + init) + tail by {
        assert a + b == (a + init) + [last];
        HighRiskIncidentsSnoc(a + init, last);
      }
      assert HighRiskIncidents(b) == HighRiskIncidents(init) + tail;
      HighRiskIncidentsAppend(a, init);
      ConcatAssociates(HighRiskIncidents(a), HighRiskIncidents(init), tail);
    }
  }

  lemma ConcatAssociates(x: seq<Report>, y: seq<Report>, z: seq<Report>)
    ensures x + (y + z) == (x + y) + z
  {
  }

  /** getIncidentColor. */
  function IncidentColor(riskScore: int): (c: string)
    ensures riskScore >= 80 ==> c == "#ef4444"
    ensures 50 <= riskScore < 80 ==> c == "#f59e0b"
    ensures riskScore < 50 ==> c == "#22c55e"
  {
    if riskScore >= 80 then "#ef4444" else if riskScore >= 50 then "#f59e0b" else "#22c55e"
  }

  /** Every incident the route avoids is drawn red or amber, never green. */
  lemma AvoidedIncidentsNotGreen(r: Report)
    requires IsHighRisk(r)
    ensures IncidentColor(RiskOrZero(r)) != "#22c55e"
  {
    assert IncidentColor(RiskOrZero(r))[1] != "#22c55e"[1];
  }

  /** The page's planning state. */
  class RoutePlanner {
    var incidents: seq<Report>
    var origin: Option<LatLng>
    var destination: Option<LatLng>
    var route: Option<Route>
    var selectionMode: Option<Selection>

    /** The page as first rendered: nothing chosen, no incidents loaded yet. */
    constructor()
      ensures incidents == [] && origin.None? && destination.None?
      ensures route.None? && selectionMode.None?
    {
      incidents := [];
      origin := None;
      destination := None;
      route := None;
      selectionMode := None;
    }

    /** fetchIncidents succeeded with the reports `rs`. */
    method LoadIncidents(rs: seq<Report>)
      modifies this
      ensures incidents == rs
      ensures origin == old(origin) && destination == old(destination)
      ensures route == old(route) && selectionMode == old(selectionMode)
    {
      incidents := rs;
    }

    /** The "set origin" or "set destination" button arms the next map click. */
    method Select(mode: Selection)
      modifies this
      ensures selectionMode == Some(mode)
      ensures incidents == old(incidents) && origin == old(origin)
      ensures destination == old(destination) && route == old(route)
    {
      selectionMode := Some(mode);
    }

    /** handleUseCurrentLocation with a position from the browser: it becomes the origin. */
    method UseCurrentLocation(p: LatLng)
      modifies this
      ensures origin == Some(p)
      ensures incidents == old(incidents) && destination == old(destination)
      ensures route == old(route) && selectionMode == old(selectionMode)
    {
      origin := Some(p);
    }

    /** MapClickHandler: an armed click sets the selected point and disarms; an unarmed click
        changes nothing. */
    method MapClick(p: LatLng)
      modifies this
      ensures old(selectionMode) == Some(SelectOrigin) ==>
                origin == Some(p) && destination == old(destination) && selectionMode.None?
      ensures old(selectionMode) == Some(SelectDestination) ==>
                destination == Some(p) && origin == old(origin) && selectionMode.None?
      ensures old(selectionMode).None? ==>
                origin == old(origin) && destination == old(destination) && selectionMode.None?
      ensures incidents == old(incidents) && route == old(route)
    {
      if selectionMode == Some(SelectOrigin) {
        origin := Some(p);
        selectionMode := None;
      } else if selectionMode == Some(SelectDestination) {
        destination := Some(p);
        selectionMode := None;
      }
    }

    /** clearRoute: origin, destination, route and selection are all reset. */
    method ClearRoute()
      modifies this
      ensures origin.None? && destination.None? && route.None? && selectionMode.None?
      ensures incidents == old(incidents)
    {
      origin := None;
      destination := None;
      route := None;
      selectionMode := None;
    }

    /** calculateRoute: refused without both points; otherwise the request is built (when the
        API key is configured) and the route replaced when the service answers with one.
        `request` is the body sent, `notice` the toast shown. */
    method CalculateRoute(apiKeyPresent: bool, response: RouteResponse)
      returns (request: Option<RouteRequest>, notice: string)
      modifies this
      ensures old(origin).None? || old(destination).None? ==>
                request.None? && notice == BOTH_POINTS_NEEDED && route == old(route)
      ensures old(origin).Some? && old(destination).Some? && !apiKeyPresent ==>
                request.None? && notice == ROUTE_FAILED && route == old(route)
      ensures old(origin).Some? && old(destination).Some? && apiKeyPresent ==>
                && request == Some(RouteRequestFor(old(origin).value, old(destination).value, old(incidents)))
                && (response.RouteFound? ==> route == Some(response.route) && notice != ROUTE_FAILED)
                && (!response.RouteFound? ==> route == old(route) && notice == ROUTE_FAILED)
      ensures incidents == old(incidents) && origin == old(origin)
      ensures destination == old(destination) && selectionMode == old(selectionMode)
    {
      if origin.None? || destination.None? {
        return None, BOTH_POINTS_NEEDED;
      }
      if !apiKeyPresent {
        return None, ROUTE_FAILED;
      }
      var req := RouteRequestFor(origin.value, destination.value, incidents);
      request := Some(req);
      if !response.RouteFound? {
        return request, ROUTE_FAILED;
      }
      route := Some(response.route);
      var avoided := |HighRiskIncidents(incidents)|;
      notice := "Route calculated" +
        if avoided > 0 then " (avoiding " + NatToString(avoided) + " high-risk areas)" else "";
      assert notice[0] != ROUTE_FAILED[0];
    }
  }
}
