# Route-time rule of a map route planner, modelled in Dafny

The planner lets a user pick two places and see a route with a distance and
an estimated travel time. Its backend `/route` handler asks a routing
provider for a route. It then discards the provider's own duration and
computes a custom one. The custom time scales linearly with distance and is
calibrated so that 15 km take 20 minutes driving, 25 minutes cycling and
3 hr 28 min on foot. The backend formats that time as a label by truncating
to whole minutes. The map page formats the same number of seconds again, but
it rounds to the nearest minute. It also swaps start and end on request, and
it always asks for a driving route.

The model is pure functions over exact `real` and unbounded `int`:

- `wrappers.dfy`: module `Wrappers`, the `Option` type (JavaScript `null`).
- `js_number.dfy`: module `JsNumber`, which gives `Math.floor`, `Math.round` (halves go up) and the
  integer `%` (truncating, sign of the dividend) the JavaScript semantics.
- `duration_label.dfy`: module `DurationLabel`, the label datatype
  `Minutes(n) | HoursMinutes(h, m)`. It also holds the rendering to text that
  template literals perform, and a parser that accepts exactly the rendered texts.
- `server.dfy`: module `Server`, from `backend/server.js`. It covers mode
  normalisation, the duration chain, `formatDuration` and the response body.
- `map_view.dfy`: module `MapView`, from `src/components/Map.jsx`. It covers the
  page's `formatDuration`, `switchPlaces` and `fetchRoute`. React state is
  one immutable record. The HTTP round trip is a function parameter.

Three behaviours of the code are worth stating plainly:

- The walking profile is named `"foot"`, and `"walking"` falls back to driving.
- The page's label rounds to the nearest minute, while the backend's truncates.
- The backend floors a negative number of seconds (it does not truncate toward zero).

## Model

| member | source | states |
|---|---|---|
| JsNumber.Floor | backend/server.js:98 | `Math.floor(x)` is the integer r with r ≤ x < r + 1 |
| JsNumber.Round | src/components/Map.jsx:62 | `Math.round(x)` is the integer r with r − ½ ≤ x < r + ½, so halves go up |
| JsNumber.Rem | backend/server.js:100 | JavaScript `%` is what remains after the quotient rounded towards zero: a = trunc(a/b)·b + r, with r in [0, b) for a ≥ 0 (where it equals the Euclidean remainder) and in (−b, 0] for a < 0 |
| JsNumber.HourSplit | backend/server.js:99-100 | for a non-negative minute count, floor(min/60)·60 + min % 60 = min, with the remainder in [0, 60) |
| JsNumber.RoundIsFloorOrNext | src/components/Map.jsx:62 | rounding gives the floor or the floor plus one, and plus one exactly when the fractional part is at least ½ |
| DurationLabel.DeterminedByTotal | src/components/Map.jsx:63 | two well-formed labels (minutes only below 60, otherwise h ≥ 1 and remainder below 60) with the same minute total are the same label |
| DurationLabel.NatRoundTrip | backend/server.js:103 | the decimal text of a natural number reads back as that number |
| DurationLabel.NatToString | backend/server.js:103 | the decimal text of a natural number is non-empty, all digits, and starts with "0" only for zero itself |
| DurationLabel.IntToString | backend/server.js:105 | an integer's text has no spaces, starts with "-" exactly for negative values, and otherwise is digits with no "-0" spelling |
| DurationLabel.Render | backend/server.js:102-105 | read at single spaces, a label's text is exactly the words [n, "min"] or [h, "hr", m, "min"] with each integer spelled as `String` spells integers of magnitude below 10^21 |
| DurationLabel.NatCanonical | backend/server.js:103 | a numeral without a leading zero is exactly the text `String` writes for its value |
| DurationLabel.IntCanonical | backend/server.js:105 | any text that reads as an integer is exactly that integer's `String` spelling |
| DurationLabel.IntRoundTrip | backend/server.js:105 | the text of any integer, negative ones included, reads back as that integer |
| DurationLabel.ParseRender | backend/server.js:102-105 | every label's text `"{n} min"` or `"{h} hr {m} min"` parses back to the same label |
| DurationLabel.ParsedIsRendered | backend/server.js:102-105 | a text that reads as a label is exactly that label's rendering, so leading zeros, "-0" or extra spaces never read as a label |
| DurationLabel.RenderInjective | backend/server.js:102-105 | two different labels never render to the same text |
| Server.NormalizeMode | backend/server.js:50-51 | the result is always one of driving/cycling/foot; it equals the request exactly when the request is one of those strings, else it is "driving" |
| Server.NormalizeIdempotent | backend/server.js:50-51 | normalising a normalised mode leaves it unchanged |
| Server.NormalizeExamples | backend/server.js:50-51 | each valid name is kept; "walking", "teleport", "" and a non-string become "driving" |
| Server.CustomDurationMinutes | backend/server.js:72-80 | an unrecognised mode string leaves the initial 0; for each mode, minutes × 15 = km × that mode's reference minutes (20, 25, 208) |
| Server.CustomDurationSeconds | backend/server.js:69-82 | for each valid mode the seconds equal the metres times that mode's rate, which is its reference minutes × 60 per 15 000 m; otherwise 0 |
| Server.Calibration | backend/server.js:74-82 | 15 000 m gives 1200 s driving, 1500 s cycling and 12 480 s on foot; 150 000 m driving gives 12 000 s |
| Server.ZeroOnlyForZeroDistance | backend/server.js:72-80 | for every normalised mode the duration is 0 exactly when the distance is 0, so the initial value survives only then |
| Server.NonNegative | backend/server.js:74-82 | a non-negative distance never gives a negative duration |
| Server.Linear | backend/server.js:74-82 | scaling the distance by k scales the duration by k, and the duration of a + b is the sum of the two durations |
| Server.ModeOrdering | backend/server.js:74-80 | at equal non-negative distance, driving ≤ cycling ≤ foot |
| Server.FormatDuration | backend/server.js:97-106 | the label is well formed, stands for floor(seconds/60) minutes, and has no hours part exactly when that count is below 60 |
| Server.FormatExamples | backend/server.js:98-105 | 0 s gives "0 min", 119 s gives "1 min", 3599 s gives "59 min" and 3600 s gives "1 hr 0 min" |
| Server.CalibrationLabels | backend/server.js:74-105 | 15 km reads "20 min", "25 min" and "3 hr 28 min" by mode; 150 km driving reads "3 hr 20 min" |
| Server.BuildResponse | backend/server.js:84-89 | coordinates and distance pass through unchanged; the duration is the distance times the normalised mode's rate; the text reads back as that duration's truncated label |
| Server.ResponseTextIsRendered | backend/server.js:88 | the response's `durationText` is exactly the formatter's text for the returned duration |
| Server.DrivingResponse | backend/server.js:50-51 | a request for "driving" is answered with distance × the driving rate |
| MapView.FormatDuration | src/components/Map.jsx:61-64 | the label is well formed, stands for round(secs/60) minutes, and has no hours part exactly when that count is below 60 |
| MapView.FormatExamples | src/components/Map.jsx:62 | 89 s shows "1 min" and 90 s shows "2 min" |
| MapView.AtMostOneMinuteAboveServer | src/components/Map.jsx:62 | the page's minute count is the backend's or one more, and one more exactly when the leftover seconds reach half a minute |
| MapView.SameMinutesSameLabel | src/components/Map.jsx:61-64 | when rounding and truncation agree, the page's label and text equal the backend's |
| MapView.HourCrossing | src/components/Map.jsx:62-63 | 3570 s shows "1 hr 0 min" on the page while the backend's text is "59 min" |
| MapView.SwitchPlaces | src/components/Map.jsx:66-71 | start/end text and start/end coordinates are exchanged; route, distance, duration and loading are unchanged |
| MapView.SwitchTwice | src/components/Map.jsx:66-71 | swapping twice restores the state |
| MapView.RequestFor | src/components/Map.jsx:41-49 | a request exists exactly when both coordinates are set; it carries them and always the mode "driving" |
| MapView.CopyRoute | src/components/Map.jsx:51 | the stored route has the received length, and each pair is unchanged and in the same place |
| MapView.FetchRoute | src/components/Map.jsx:40-59 | with a coordinate missing, the state is unchanged. Otherwise loading ends false and the places are kept. A delivered reply stores the route, the distance in km and a text that reads back as the rounded label of the reply's duration. A failed reply changes nothing else |
| MapView.ShownTextIsRendered | src/components/Map.jsx:53 | after a delivered reply, the stored duration text is exactly the rendering of the rounded label of the reply's duration |
| MapView.IgnoresDurationText | src/components/Map.jsx:53 | replies that differ only in `durationText` leave the same state |
| MapView.Backend | backend/server.js:43-89 | the handler as the page sees it: every request is delivered (the 400/404/500 replies are left out), the request's mode string goes through `NormalizeMode`, and the body carries the decoded geometry, the provider's distance and distance × the normalised mode's rate |
| MapView.BackendAnswersDriving | src/components/Map.jsx:45-49 | a request with mode "driving" is answered with the decoded geometry, the provider's distance and distance × the driving rate |
| MapView.AlwaysDrivingEndToEnd | src/components/Map.jsx:45-53 | against the backend, the stored route is the decoded geometry in order, the distance is metres / 1000, and the shown text is exactly the rendering of the rounded label of distance × the driving rate |

## Left out

- Polyline decoding (`polyline.decode`, backend/server.js:68) belongs to a library that is not part of this model. The decoded coordinates are a parameter of `Server.BuildResponse`.
- HTTP and I/O are left out: Express routing, the provider calls, the `/geocode` passthrough, the API-key check, `process.exit` and `app.listen`. So are the 400/404/500 replies of `/route`, because they are plumbing around the rule.
- The `/route` error path (backend/server.js:90-93) is left out as error-path plumbing. Its log line calls `mode.toUpperCase()`, which throws when `mode` is missing or not a string. In that case the 500 reply on the next line is never sent, and the handler's promise rejects with no response.
- The React and Leaflet UI is left out: hooks, `useEffect` (which refetches after coordinates change), JSX, `FitBounds`, markers, `alert`, geolocation and `fetchCoords`. `loading` is only modelled in its final value after `fetchRoute` finishes.
- MapView.FetchRoute: each call is modelled as one atomic step from the state at the time of the call, with the reply applied to that same state. In the page the reply is awaited and written into whatever state is current when it arrives. Calls can overlap, because the coordinate effect starts a new fetch while one is in flight (only the button is disabled). So a late reply that overwrites a newer route and label, and `loading` turning false while another request is pending, are not modelled.
- MapView.FetchRoute: the distance slot holds the kilometre value before `toFixed(2)`, because the two-decimal text is display formatting.
- IEEE-754 doubles are left out. Durations and distances are exact reals, so floating-point rounding in `distanceKm / 15 * 20` and similar is not modelled, and neither are NaN or infinities. Integers are unbounded, so the exponent form `String` uses from 10^21 on ("1e+21") and the loss of exactness above 2^53 are not modelled either.
