/** The `/route` handler's post-processing in the backend: it normalises the
    requested travel mode, replaces the provider's duration with a custom
    estimate that scales linearly with distance from a 15 km calibration
    per mode, and formats that estimate as a label by truncating to whole
    minutes. The provider call and `polyline.decode` stay outside the model:
    the decoded coordinates and the reported distance arrive as parameters. */
module Server {
  import opened JsNumber
  import opened DurationLabel
  import opened Wrappers

  /** The `mode` field of the request body: a string, or anything else the
      client sent (missing, `null`, a number, ...). */
  datatype RequestedMode = Text(value: string) | NotText

  /** The closed set of profiles the provider is asked for. */
  datatype Mode = Driving | Cycling | Foot

  /** The profile name sent to the provider and compared against. */
  function Name(m: Mode): string {
    match m
    case Driving => "driving"
    case Cycling => "cycling"
    case Foot => "foot"
  }

  const ValidModes: seq<string> := [Name(Driving), Name(Cycling), Name(Foot)]

  /** The profile a valid mode name stands for. */
  function ModeOf(transportMode: string): (m: Mode)
    requires transportMode in ValidModes
    ensures Name(m) == transportMode
  {
    if transportMode == "driving" then Driving
    else if transportMode == "cycling" then Cycling
    else Foot
  }

  /** A decoded route point, `[lat, lng]` in the JSON response. */
  datatype LatLon = LatLon(lat: real, lon: real)

  /** The JSON body of a successful `/route` response. */
  datatype RouteResponse = RouteResponse(
    coordinates: seq<LatLon>,
    distance: real,       // metres, as the provider reported them
    duration: real,       // seconds, from the custom estimate
    durationText: string)

  // ---------------------------------------------------------------------
  // Mode normalisation

  /** The transport mode used for the route: the requested mode when it is
      a string equal to one of the three valid names, and "driving" for
      anything else. */
  function NormalizeMode(requested: RequestedMode): (transportMode: string)
    ensures transportMode in ValidModes
    ensures requested == Text(transportMode) <==> requested.Text? && requested.value in ValidModes
    ensures requested != Text(transportMode) ==> transportMode == Name(Driving)
  {
    if requested.Text? && requested.value in ValidModes then requested.value else "driving"
  }

  /** Normalising an already normalised mode changes nothing. */
  lemma NormalizeIdempotent(requested: RequestedMode)
    ensures NormalizeMode(Text(NormalizeMode(requested))) == NormalizeMode(requested)
  {
  }

  /** Each valid name is kept; "walking" (the everyday word the backend does
      not use), an empty string and a non-string all fall back to driving. */
  lemma NormalizeExamples()
    ensures forall m: Mode :: NormalizeMode(Text(Name(m))) == Name(m)
    ensures NormalizeMode(Text("walking")) == "driving"
    ensures NormalizeMode(Text("teleport")) == "driving"
    ensures NormalizeMode(Text("")) == "driving"
    ensures NormalizeMode(NotText) == "driving"
  {
  }

  // ---------------------------------------------------------------------
  // Custom duration

  /** The calibration table: minutes for the 15 km reference distance. */
  const ReferenceKm: real := 15.0

  function ReferenceMinutes(m: Mode): real {
    match m
    case Driving => 20.0
    case Cycling => 25.0
    case Foot => 208.0 // 3 hr 28 min
  }

  /** The custom estimate as a rate, independent of the code's stepwise
      arithmetic: seconds per metre of route. */
  function SecondsPerMeter(m: Mode): (rate: real)
    ensures rate > 0.0
  {
    ReferenceMinutes(m) * 60.0 / (ReferenceKm * 1000.0)
  }

  /** The `if` chain over the transport mode, starting from 0 minutes: an
      unrecognised mode string leaves the initial value in place. */
  function CustomDurationMinutes(transportMode: string, distanceKm: real): (minutes: real)
    ensures transportMode !in ValidModes ==> minutes == 0.0
    ensures forall m: Mode :: transportMode == Name(m) ==>
              minutes * ReferenceKm == distanceKm * ReferenceMinutes(m)
  {
    var customDurationMinutes := 0.0;
    if transportMode == "driving" then (distanceKm / 15.0) * 20.0
    else if transportMode == "cycling" then (distanceKm / 15.0) * 25.0
    else if transportMode == "foot" then (distanceKm / 15.0) * (3.0 * 60.0 + 28.0)
    else customDurationMinutes
  }

  /** The duration reported for a route of `distanceMeters` metres: the
      provider's distance in kilometres run through the mode's calibration,
      converted to seconds. */
  function CustomDurationSeconds(transportMode: string, distanceMeters: real): (seconds: real)
    ensures transportMode !in ValidModes ==> seconds == 0.0
    ensures forall m: Mode :: transportMode == Name(m) ==>
              seconds == distanceMeters * SecondsPerMeter(m)
  {
    var distanceKm := distanceMeters / 1000.0;
    CustomDurationMinutes(transportMode, distanceKm) * 60.0
  }

  /** The calibration points: 15 km take 20, 25 and 208 minutes. */
  lemma Calibration()
    ensures CustomDurationSeconds("driving", 15000.0) == 1200.0
    ensures CustomDurationSeconds("cycling", 15000.0) == 1500.0
    ensures CustomDurationSeconds("foot", 15000.0) == 12480.0
    ensures CustomDurationSeconds("driving", 150000.0) == 12000.0
  {
  }

  /** For every mode the normaliser can produce, the initial 0 survives
      exactly when the distance is 0: the branches cover every valid mode. */
  lemma ZeroOnlyForZeroDistance(requested: RequestedMode, distanceMeters: real)
    ensures (CustomDurationSeconds(NormalizeMode(requested), distanceMeters) == 0.0)
            <==> (distanceMeters == 0.0)
  {
  }

  /** The estimate never goes below zero for a real distance. */
  lemma NonNegative(transportMode: string, distanceMeters: real)
    requires distanceMeters >= 0.0
    ensures CustomDurationSeconds(transportMode, distanceMeters) >= 0.0
  {
  }

  /** Scaling the distance scales the duration by the same factor, and the
      duration of two legs is the sum of their durations. */
  lemma Linear(transportMode: string, k: real, a: real, b: real)
    ensures CustomDurationSeconds(transportMode, k * a) == k * CustomDurationSeconds(transportMode, a)
    ensures CustomDurationSeconds(transportMode, a + b)
              == CustomDurationSeconds(transportMode, a) + CustomDurationSeconds(transportMode, b)
  {
  }

  /** Over the same non-negative distance, driving is never slower than
      cycling and cycling never slower than walking. */
  lemma ModeOrdering(distanceMeters: real)
    requires distanceMeters >= 0.0
    ensures CustomDurationSeconds("driving", distanceMeters) <= CustomDurationSeconds("cycling", distanceMeters)
    ensures CustomDurationSeconds("cycling", distanceMeters) <= CustomDurationSeconds("foot", distanceMeters)
  {
    var d := distanceMeters;
    assert SecondsPerMeter(Driving) == 0.08 && SecondsPerMeter(Cycling) == 0.1;
    assert SecondsPerMeter(Foot) == 0.832;
    assert CustomDurationSeconds(Name(Driving), d) == d * 0.08;
    assert CustomDurationSeconds(Name(Cycling), d) == d * 0.1;
    assert CustomDurationSeconds(Name(Foot), d) == d * 0.832;
  }

  // ---------------------------------------------------------------------
  // Label

  /** The backend `formatDuration`: whole minutes by truncation, split into
      hours once there is at least one. */
  function FormatDuration(seconds: real): (l: Label)
    ensures WellFormed(l)
    ensures TotalMinutes(l) == Floor(seconds / 60.0)
    ensures l.Minutes? <==> Floor(seconds / 60.0) < 60
  {
    var minutes := Floor(seconds / 60.0);
    var hours := Floor(minutes as real / 60.0);
    if hours > 0 then
      HourSplit(minutes);
      HoursMinutes(hours, Rem(minutes, 60))
    else
      Minutes(minutes)
  }

  /** Minutes are truncated, never rounded up, on either side of the hour. */
  lemma FormatExamples()
    ensures FormatDuration(0.0) == Minutes(0) && Render(FormatDuration(0.0)) == "0 min"
    ensures FormatDuration(119.0) == Minutes(1) && Render(FormatDuration(119.0)) == "1 min"
    ensures FormatDuration(3599.0) == Minutes(59) && Render(FormatDuration(3599.0)) == "59 min"
    ensures FormatDuration(3600.0) == HoursMinutes(1, 0) && Render(FormatDuration(3600.0)) == "1 hr 0 min"
  {
    assert FormatDuration(0.0) == Minutes(0);
    assert FormatDuration(119.0) == Minutes(1);
    assert FormatDuration(3599.0) == Minutes(59);
    assert FormatDuration(3600.0) == HoursMinutes(1, 0) by {
      HourSplit(60);
    }
    assert NatToString(59) == "59" by {
      assert NatToString(5) == "5";
    }
  }

  /** The calibration points as labels: 15 km read "20 min", "25 min" and
      "3 hr 28 min"; 150 km driving reads "3 hr 20 min". */
  lemma CalibrationLabels()
    ensures Render(FormatDuration(CustomDurationSeconds("driving", 15000.0))) == "20 min"
    ensures Render(FormatDuration(CustomDurationSeconds("cycling", 15000.0))) == "25 min"
    ensures Render(FormatDuration(CustomDurationSeconds("foot", 15000.0))) == "3 hr 28 min"
    ensures Render(FormatDuration(CustomDurationSeconds("driving", 150000.0))) == "3 hr 20 min"
  {
    Calibration();
    assert FormatDuration(1200.0) == Minutes(20);
    assert FormatDuration(1500.0) == Minutes(25);
    assert FormatDuration(12480.0) == HoursMinutes(3, 28) by {
      HourSplit(208);
    }
    assert FormatDuration(12000.0) == HoursMinutes(3, 20) by {
      HourSplit(200);
    }
    assert NatToString(20) == "20" by {
      assert NatToString(2) == "2";
    }
    assert NatToString(25) == "25" by {
      assert NatToString(2) == "2";
    }
    assert NatToString(28) == "28" by {
      assert NatToString(2) == "2";
    }
  }

  // ---------------------------------------------------------------------
  // Response

  /** The JSON body built from the decoded geometry and the provider's
      distance: the distance passes through, the duration is the custom
      estimate for the normalised mode, and the text reads back as that
      duration's label (which, by `ParsedIsRendered`, makes it exactly the
      label's rendering). */
  function BuildResponse(decodedCoordinates: seq<LatLon>, distance: real, requested: RequestedMode): (r: RouteResponse)
    ensures r.coordinates == decodedCoordinates
    ensures r.distance == distance
    ensures r.duration == distance * SecondsPerMeter(ModeOf(NormalizeMode(requested)))
    ensures ParseLabel(r.durationText) == Some(FormatDuration(r.duration))
  {
    var transportMode := NormalizeMode(requested);
    var customDurationSeconds := CustomDurationSeconds(transportMode, distance);
    var text := Render(FormatDuration(customDurationSeconds));
    ParseRender(FormatDuration(customDurationSeconds));
    RouteResponse(decodedCoordinates, distance, customDurationSeconds, text)
  }

  /** A request for "driving" keeps the driving profile. */
  lemma DrivingIsKept()
    ensures ModeOf(NormalizeMode(Text(Name(Driving)))) == Driving
  {
    assert NormalizeMode(Text(Name(Driving))) == Name(Driving);
  }

  /** A request for "driving" is answered with the driving estimate. */
  lemma DrivingResponse(decodedCoordinates: seq<LatLon>, distance: real)
    ensures BuildResponse(decodedCoordinates, distance, Text(Name(Driving))).duration
            == distance * SecondsPerMeter(Driving)
  {
    DrivingIsKept();
  }

  /** The response's text is the very string the formatter renders for the
      returned duration, not merely some spelling of the same label. */
  lemma ResponseTextIsRendered(decodedCoordinates: seq<LatLon>, distance: real, requested: RequestedMode)
    ensures var r := BuildResponse(decodedCoordinates, distance, requested);
            r.durationText == Render(FormatDuration(r.duration))
  {
    var r := BuildResponse(decodedCoordinates, distance, requested);
    ParsedIsRendered(r.durationText, FormatDuration(r.duration));
  }
}
