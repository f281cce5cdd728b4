# GPS track viewer — verified model of the data pipeline

The viewer loads one CSV file of GPS fixes per device (`device1`, `device2`),
keeps the rows whose coordinates and date parse, and draws each device's
track as a polyline. A user can hide devices with checkboxes and restrict
the points to a date-time window. The map is centred on the mean of the
visible points, or on `(43.5, 16.25)` when there are none.

This project models the data logic of `src/App.jsx` in Dafny:

- `points.dfy` (module `Points`): JavaScript numbers as `parseFloat` yields them
  (`NaN` or a finite value), `Date` objects (an invalid date or an instant in
  milliseconds), the point record `{lat, lon, datetime}`, the row test, and
  JavaScript `+`, `/` and date `<` on these values (NaN absorbs in `+`; every
  comparison with an invalid date is false).
- `seqs.dfy` (module `Seqs`): `Array.prototype.filter` as one generic function,
  with its laws (subsequence, exact multiplicities, append, congruence).
- `ingest.dfy` (module `Ingest`): the `parseCsv` completion callback — the
  row-to-record `.map`, the validity `.filter`, and the replacement of the
  device's track in the store.
- `visibility.dfy` (module `Visibility`): visibility flags (a device without a
  flag is hidden, since `undefined` is falsy) and the checkbox update.
- `window.dfy` (module `Window`): the bounds built from the two inputs, the
  window test, and `filteredDeviceData`, both as a specification function and
  as the imperative loop of the source.
- `center.dfy` (module `Center`): `mapCenter` as the imperative nested loop
  with its three accumulators, proved equal to an order-independent sum over
  the devices.
- `render.dfy` (module `Render`): the coordinate filter in front of each polyline.
- `app.dfy` (module `App`): the whole React state as a value, its two
  transitions, and what the derived filtered map and centre do across them.

The CSV field parsers (`parseFloat(s.trim())` and `new Date(s.trim())`) are
function parameters, so every result holds for any parser. The device maps
are Dafny maps. The loops visit the devices in an arbitrary order, so the
proofs also show that neither result depends on the order of `Object.keys`.

## Model

| member | source | states |
|---|---|---|
| `Seqs.Filter` | src/App.jsx:29-35 | `.filter` keeps no more elements than it is given, every kept element passes the test, and every kept element comes from the input |
| `Ingest.ToPoint` | src/App.jsx:23-27 | only a row that has all three columns can give a record that passes the row test: a missing column gives NaN or an invalid date |
| `Ingest.Parsed` | src/App.jsx:22-28 | the `.map` step gives one record per row, in row order, each built from its own row |
| `Ingest.Validate` | src/App.jsx:22-35 | every stored point has finite coordinates and a valid date, and there are no more points than rows |
| `Ingest.ValidateKeepsExactlyValidRows` | src/App.jsx:22-35 | a point is stored iff some row converts to it and it passes the row test; the stored points are an order-preserving subsequence of the converted rows |
| `Ingest.AppendRow` | src/App.jsx:29-35 | appending a row appends its point exactly when lat is not NaN, lon is not NaN and the date is valid; otherwise the track is unchanged |
| `Ingest.MissingColumnDropped` | src/App.jsx:24-26 | a row without a latitude, longitude or datetime column (`undefined`) is never stored, whatever the parsers do |
| `Ingest.Ingested` | src/App.jsx:36 | `{...old, [device]: parsed}` sets the completing device's track and keeps every other device's key and track |
| `Ingest.CompletionsCommute` | src/App.jsx:56-59 | the two devices' fetches may complete in either order and give the same store |
| `Visibility.Toggled` | src/App.jsx:130 | the toggled device's visibility flips (a missing flag becomes true) and every other flag is kept |
| `Visibility.ToggleTwice` | src/App.jsx:126-131 | two clicks on the same checkbox restore every device's visibility |
| `Window.BlankOrInvalidInputIgnored` | src/App.jsx:63-64 | an empty input, or one the date parser rejects, filters exactly like no bound, on either side |
| `Window.InWindow` | src/App.jsx:73-77 | for a valid date the test is `start <= t` and `t <= end`, both inclusive, and a missing or invalid bound imposes nothing |
| `Window.Select` | src/App.jsx:73-77 | the `.filter` call keeps no more points than the track has, and every kept point's date passes the window test |
| `Window.SelectKeepsExactlyWindow` | src/App.jsx:73-77 | the window keeps, as an order-preserving subsequence of the track, exactly the points whose date passes the test, each as many times as it occurs in the track |
| `Window.AppendPoint` | src/App.jsx:73-77 | points are judged one at a time and in order: appending a point appends it to the window exactly when its date passes the test |
| `Window.InclusiveBounds` | src/App.jsx:74-75 | on a validated track with valid bounds a point is kept iff it is in the track and `start <= t <= end` |
| `Window.EqualBounds` | src/App.jsx:74-75 | equal bounds keep exactly the points dated at that instant |
| `Window.InvertedBounds` | src/App.jsx:74-75 | a start after the end empties a validated track; the bounds are not swapped |
| `Window.InvalidBoundIgnored` | src/App.jsx:63-75 | a bound string that parses to an invalid date filters exactly like an empty input, on either side |
| `Window.StartOnlyExample` | src/App.jsx:73-77 | points at 2024-01-01T00:00 and 2024-01-02T00:00 with start 2024-01-01T12:00 and no end leave only the second |
| `Window.FilteredData` | src/App.jsx:66-79 | the filtered map has exactly the store's device keys |
| `Window.FilteredDataMeaning` | src/App.jsx:66-79 | a hidden device gets `[]` whatever its track; a visible one gets, in order, exactly the points of its own track inside the window, with their multiplicities |
| `Window.FilteredDataLocal` | src/App.jsx:66-79 | a device's entry depends only on its own track, its own flag and the bounds |
| `Window.InvertedBoundsEmptyAll` | src/App.jsx:66-79 | with valid bounds and start after end, every device's entry of a validated store is empty |
| `Window.FilterDevices` | src/App.jsx:62-80 | the loop with `continue` over the store's devices builds exactly the specified filtered map |
| `Center.TallyOf` | src/App.jsx:89-93 | the `forEach` counts every point of the track |
| `Center.TallyOfValidated` | src/App.jsx:89-93 | on a validated track the accumulators never become NaN: they hold the exact latitude and longitude sums and the number of points |
| `Center.TallyOverPick` | src/App.jsx:87-94 | the sums over the devices do not depend on the order the devices are visited in |
| `Center.CountZeroIff` | src/App.jsx:87-95 | the total count is zero iff every device is hidden or has an empty filtered entry |
| `Center.HiddenAddNothing` | src/App.jsx:88 | hidden devices add nothing to the sums, whatever their entries hold |
| `Center.CenterOf` | src/App.jsx:95-96 | the default `(43.5, 16.25)` when the count is zero, otherwise a coordinate that is NaN exactly when its sum is NaN and that, times the count, gives back its sum (the mean) |
| `Center.MapCenter` | src/App.jsx:83-97 | the nested loop returns the default when it counted nothing and the two means otherwise, over all points of visible devices |
| `Center.NothingVisibleGivesDefault` | src/App.jsx:95 | with no visible filtered point the centre is exactly `(43.5, 16.25)` |
| `Center.SingleDeviceMean` | src/App.jsx:95-96 | with one visible device whose entry is validated and non-empty, the centre is the mean latitude and mean longitude of that entry |
| `Center.TwoDeviceExample` | src/App.jsx:83-97 | `(1, 10)` on one visible device and `(3, 30)` on another give the centre `(2, 20)` |
| `Render.LatLngs` | src/App.jsx:149-151 | the polyline never has more vertices than the device has filtered points |
| `Render.HasCoordinates` | src/App.jsx:150 | every point that passed the row test is drawable |
| `Render.AppendCoordinate` | src/App.jsx:149-151 | points are judged one at a time and in order: a point contributes its `[lat, lon]` pair exactly when neither coordinate is NaN |
| `Render.ValidatedDrawnWhole` | src/App.jsx:149-151 | a validated track is drawn whole, one pair per point, in track order |
| `App.CompleteIngestion` | src/App.jsx:21-36 | completion keeps the store validated, adds only the completing device's key, gives that device the validated rows, and changes nothing else |
| `App.ToggleDevice` | src/App.jsx:129-131 | a click flips only that device's visibility and leaves tracks and inputs alone |
| `App.InitialCenter` | src/App.jsx:46-53 | the initial state is well formed and the first render is centred on the default |
| `App.ToggleOffEntries` | src/App.jsx:66-79 | hiding a visible device empties its entry and keeps every other device's entry |
| `App.ToggleOffRemovesContribution` | src/App.jsx:83-97 | hiding a visible device removes exactly its filtered points from the centre's sums and count, and nothing else |
| `App.InvertedInputsEmptyView` | src/App.jsx:62-97 | inputs parsing to a start after the end empty every entry and put the map at the default centre |
| `App.ViewCenterFinite` | src/App.jsx:83-97 | in a well-formed state the centre's two coordinates are numbers, never NaN |
| `App.DrawnWhole` | src/App.jsx:148-151 | in a well-formed state every filtered point reaches its polyline, in order |

## Left out

- Fetching and parsing the CSV text (`Papa.parse` with `download`, `header` and `skipEmptyLines`), its `error` callback and the asynchronous completion of the two fetches: a row arrives already split into its header-keyed fields, and the fetches' order is covered only by `Ingest.CompletionsCommute`.
- The semantics of `parseFloat`, `trim` and `new Date(...)`, including how a `datetime-local` string's time zone is read: these are parameters of the model.
- `Ingest.Validate`, `Center.TallyOfValidated`, `App.ViewCenterFinite`: numbers are modelled as NaN or finite reals only, so their "finite coordinates" and "never NaN" conclusions hold for finite coordinates only. `parseFloat` can return `Infinity` (for `"Infinity"` or `"1e400"`), which passes the NaN test, so such a row is stored; the sums then give a centre of `Infinity`, and with a second row at `"-1e400"` the latitude sum becomes NaN and the centre's latitude is NaN in a state the model calls well formed.
- IEEE-754 rounding in the sums and the division, and the ±8.64e15 ms range of `Date`: numbers are reals and times unbounded integers, so the means are exact.
- `Center.TallyOverPick`: the source visits devices in `Object.keys` insertion order; the model visits them in an arbitrary order, which gives the same sums over reals but not necessarily over floating point.
- React hooks, memoisation and re-rendering, the JSX controls, the Leaflet map, zoom, colours, tile layer and `console.log` calls, and `src/main.jsx`, which only mounts the component.
- The input widgets' setters (`setStartDateTime`, `setEndDateTime`) are plain replacements of the input strings; the model takes the strings as fields of `App.View`.
- Rendering beyond the coordinate list. The code creates a polyline for every device of the filtered map, including a hidden or empty one, rather than only for devices with visible points.
