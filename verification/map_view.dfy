/** The map page's own logic: its duration label (rounded to the nearest
    minute, unlike the backend's), the swap button, and what `fetchRoute`
    sends and stores. React state is one immutable record; the HTTP round
    trip to the backend is a function parameter from request to reply. */
module MapView {
  import opened Wrappers
  import opened JsNumber
  import opened DurationLabel
  import Server

  /** A geocoded place, `{ lat, lon }`. */
  datatype Coords = Coords(lat: real, lon: real)

  /** The component's state slots. `distanceKm` holds the kilometre value
      before its two-decimal display rounding. */
  datatype UiState = UiState(
    start: string,
    end: string,
    startCoords: Option<Coords>,
    endCoords: Option<Coords>,
    route: seq<Server.LatLon>,
    distanceKm: Option<real>,
    duration: Option<string>,
    loading: bool)

  /** The body posted to the backend's `/route`. */
  datatype RouteRequest = RouteRequest(start: Coords, end: Coords, mode: string)

  /** What the POST came back with: the response body, or a failure (network
      error or a non-2xx status, which makes axios throw). */
  datatype Reply = Delivered(data: Server.RouteResponse) | Failed

  // ---------------------------------------------------------------------
  // Duration label

  /** The frontend `formatDuration`: minutes rounded to the nearest whole
      minute, halves up, then the same hour split as the backend. */
  function FormatDuration(secs: real): (l: Label)
    ensures WellFormed(l)
    ensures TotalMinutes(l) == Round(secs / 60.0)
    ensures l.Minutes? <==> Round(secs / 60.0) < 60
  {
    var min := Round(secs / 60.0);
    if min < 60 then Minutes(min)
    else
      HourSplit(min);
      HoursMinutes(Floor(min as real / 60.0), Rem(min, 60))
  }

  /** Halves round up: 89 s shows "1 min", 90 s shows "2 min". */
  lemma FormatExamples()
    ensures FormatDuration(89.0) == Minutes(1) && Render(FormatDuration(89.0)) == "1 min"
    ensures FormatDuration(90.0) == Minutes(2) && Render(FormatDuration(90.0)) == "2 min"
  {
  }

  /** For the same seconds, the page shows either the backend's minute
      count or one minute more, and one more exactly when the leftover
      seconds reach half a minute. */
  lemma AtMostOneMinuteAboveServer(secs: real)
    ensures var diff := TotalMinutes(FormatDuration(secs)) - TotalMinutes(Server.FormatDuration(secs));
            (diff == 0 || diff == 1)
            && (diff == 1 <==> secs / 60.0 - Floor(secs / 60.0) as real >= 0.5)
  {
  }

  /** When both round to the same minute count, the two labels are the
      same label and the same text. */
  lemma SameMinutesSameLabel(secs: real)
    requires Round(secs / 60.0) == Floor(secs / 60.0)
    ensures FormatDuration(secs) == Server.FormatDuration(secs)
    ensures Render(FormatDuration(secs)) == Render(Server.FormatDuration(secs))
  {
  }

  /** Rounding can cross the hour: 3570 s shows "1 hr 0 min" on the page
      while the backend's own text for it is "59 min". */
  lemma HourCrossing()
    ensures Render(FormatDuration(3570.0)) == "1 hr 0 min"
    ensures Render(Server.FormatDuration(3570.0)) == "59 min"
    ensures Render(FormatDuration(3570.0)) != Render(Server.FormatDuration(3570.0))
  {
    assert FormatDuration(3570.0) == HoursMinutes(1, 0) by {
      HourSplit(60);
    }
    assert Server.FormatDuration(3570.0) == Minutes(59);
    assert NatToString(59) == "59" by {
      assert NatToString(5) == "5";
    }
  }

  // ---------------------------------------------------------------------
  // Swap button

  /** `switchPlaces`: start and end swap their text and their coordinates. */
  function SwitchPlaces(s: UiState): (t: UiState)
    ensures t.start == s.end && t.end == s.start
    ensures t.startCoords == s.endCoords && t.endCoords == s.startCoords
    ensures t.route == s.route && t.distanceKm == s.distanceKm
    ensures t.duration == s.duration && t.loading == s.loading
  {
    s.(start := s.end, end := s.start, startCoords := s.endCoords, endCoords := s.startCoords)
  }

  /** Swapping twice restores the original state. */
  lemma SwitchTwice(s: UiState)
    ensures SwitchPlaces(SwitchPlaces(s)) == s
  {
  }

  // ---------------------------------------------------------------------
  // Fetching the route

  /** The request `fetchRoute` would send: none while a coordinate is
      missing, and otherwise always with mode "driving". */
  function RequestFor(s: UiState): (r: Option<RouteRequest>)
    ensures r.Some? <==> s.startCoords.Some? && s.endCoords.Some?
    ensures r.Some? ==> r.value.start == s.startCoords.value && r.value.end == s.endCoords.value
    ensures r.Some? ==> r.value.mode == Server.Name(Server.Driving)
  {
    if s.startCoords.None? || s.endCoords.None? then None
    else Some(RouteRequest(s.startCoords.value, s.endCoords.value, "driving"))
  }

  /** The route stored from the reply: every received coordinate pair is
      copied into a new pair with the same latitude and longitude, in the
      order received. */
  function CopyRoute(coordinates: seq<Server.LatLon>): (route: seq<Server.LatLon>)
    ensures |route| == |coordinates|
    ensures forall i :: 0 <= i < |route| ==> route[i] == coordinates[i]
  {
    if |coordinates| == 0 then []
    else
      var p := coordinates[0];
      [Server.LatLon(p.lat, p.lon)] + CopyRoute(coordinates[1..])
  }

  /** `fetchRoute` run to completion against `server`: without both
      coordinates nothing happens; otherwise a delivered reply fills the
      route, distance and duration slots, a failed one leaves them, and
      loading ends false either way. */
  function FetchRoute(s: UiState, server: RouteRequest -> Reply): (t: UiState)
    ensures RequestFor(s).None? ==> t == s
    ensures RequestFor(s).Some? ==> !t.loading
    ensures t.start == s.start && t.end == s.end
    ensures t.startCoords == s.startCoords && t.endCoords == s.endCoords
    ensures RequestFor(s).Some? && server(RequestFor(s).value).Delivered? ==>
              var data := server(RequestFor(s).value).data;
              && t.route == data.coordinates
              && t.distanceKm == Some(data.distance / 1000.0)
              && t.duration.Some?
              && ParseLabel(t.duration.value) == Some(FormatDuration(data.duration))
    ensures RequestFor(s).Some? && server(RequestFor(s).value).Failed? ==>
              t == s.(loading := false)
  {
    match RequestFor(s)
    case None => s
    case Some(request) =>
      match server(request)
      case Delivered(data) =>
        ParseRender(FormatDuration(data.duration));
        s.(route := CopyRoute(data.coordinates),
           distanceKm := Some(data.distance / 1000.0),
           duration := Some(Render(FormatDuration(data.duration))),
           loading := false)
      case Failed =>
        s.(loading := false)
  }

  /** The page never reads the backend's `durationText`: two replies that
      differ only in that text leave the same state. */
  lemma IgnoresDurationText(s: UiState, data: Server.RouteResponse, text: string)
    ensures FetchRoute(s, _ => Delivered(data)) == FetchRoute(s, _ => Delivered(data.(durationText := text)))
  {
  }

  /** The backend's `/route` handler as the page sees it when the
      provider's first route has geometry `decoded` and length `distance`:
      every request is answered, the request's mode string goes through the
      backend's normaliser, and the body carries the decoded geometry, the
      provider's distance and the estimate for the normalised mode. */
  function Backend(decoded: seq<Server.LatLon>, distance: real): (server: RouteRequest -> Reply)
    ensures forall req: RouteRequest :: server(req).Delivered?
    ensures forall req: RouteRequest ::
              && server(req).data.coordinates == decoded
              && server(req).data.distance == distance
              && server(req).data.duration
                 == distance * Server.SecondsPerMeter(Server.ModeOf(Server.NormalizeMode(Server.Text(req.mode))))
  {
    (req: RouteRequest) => Delivered(Server.BuildResponse(decoded, distance, Server.Text(req.mode)))
  }

  /** Asked for "driving", the backend answers with the decoded geometry,
      the provider's distance and the driving estimate. */
  lemma BackendAnswersDriving(decoded: seq<Server.LatLon>, distance: real, request: RouteRequest)
    requires request.mode == Server.Name(Server.Driving)
    ensures Backend(decoded, distance)(request).Delivered?
    ensures var data := Backend(decoded, distance)(request).data;
            && data.coordinates == decoded
            && data.distance == distance
            && data.duration == distance * Server.SecondsPerMeter(Server.Driving)
  {
    var data := Server.BuildResponse(decoded, distance, Server.Text(Server.Name(Server.Driving)));
    Server.DrivingResponse(decoded, distance);
    assert Backend(decoded, distance)(request) == Delivered(data);
  }

  /** The text the page stores is exactly the rendering of the rounded
      label of the reply's duration. */
  lemma ShownTextIsRendered(s: UiState, server: RouteRequest -> Reply)
    requires RequestFor(s).Some? && server(RequestFor(s).value).Delivered?
    ensures FetchRoute(s, server).duration
            == Some(Render(FormatDuration(server(RequestFor(s).value).data.duration)))
  {
    var t := FetchRoute(s, server);
    ParsedIsRendered(t.duration.value, FormatDuration(server(RequestFor(s).value).data.duration));
  }

  /** End to end against the backend: since the page always asks for
      "driving", the normaliser keeps it, and the shown duration is the
      driving rate applied to the provider's distance, rounded to the
      nearest minute; the route is the decoded geometry, in order. */
  lemma AlwaysDrivingEndToEnd(s: UiState, decoded: seq<Server.LatLon>, distance: real)
    requires s.startCoords.Some? && s.endCoords.Some?
    ensures var t := FetchRoute(s, Backend(decoded, distance));
            && t.route == decoded
            && t.distanceKm == Some(distance / 1000.0)
            && t.duration == Some(Render(FormatDuration(distance * Server.SecondsPerMeter(Server.Driving))))
  {
    BackendAnswersDriving(decoded, distance, RequestFor(s).value);
    ShownTextIsRendered(s, Backend(decoded, distance));
  }
}
