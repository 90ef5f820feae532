# QuakeReport earthquake pipeline, modelled in Dafny

This project models the core of the QuakeReport Android app. The app asks the
USGS earthquake service for recent events, reads the GeoJSON reply, and lists
the events.

- `wrappers.dfy`: `Option` and `Result`.
- `json.dfy`: a parsed JSON tree. It also holds the org.json getters
  (`getJSONObject`, `getJSONArray`, `getDouble`, `getLong`, `getString`) as
  partial accessors, where `None` is the `JSONException` they throw.
- `quake.dfy`: the `Earthquake` record, an immutable datatype whose
  destructors are the four getters.
- `query_utils.dfy`: `QueryUtils`.
  - `ExtractFeatureFromJson` is the loop over `features`. It is proved equal
    to the specification `ExtractedRecords` / `ParsedFrom`.
  - `ReadFromStream` is the `readLine` loop, over a model of
    `BufferedReader.readLine`.
  - `MakeHttpRequest`, `CreateUrl` and `FetchEarthquakeData` model the
    request, with the network response given as a `Connection` value.
- `adapter.dfy`: two rules from `EarthquakeAdapter.getView`: how the location
  text is split, and which colour a magnitude gets. It also holds the list
  the adapter keeps.
- `activity.dfy`: `EarthquakeActivity`. It covers the request URI that
  `onCreateLoader` builds and the state that `onCreate`, `onLoadFinished` and
  `onLoaderReset` change.

Parsing is not all-or-nothing. The list exists before the `try`, and the
`catch` is outside the loop. So when a feature cannot be read, the result
is the records of all features before it (`FirstMalformedFeatureEndsList`,
`MalformedSecondFeatureKeepsFirst`). A malformed feature does not empty
the whole result.

Inputs that stand in for I/O and foreign code:
- The HTTP exchange is a `Connection`: either connecting fails, or there is a
  response code plus a body stream. The stream is its decoded characters plus
  a flag saying whether reading past them throws `IOException`.
- `new URL(...)` is a `malformed` flag.
- org.json's text parser is a function `parseJson: string -> Option<Json>`.
  The only thing required of it is that it rejects the empty text.
- Preference keys and defaults come from string resources. They are a
  `SettingsResources` parameter.

## Model

| member | source | states |
|---|---|---|
| `Quake.GettersReturnConstructorArguments` | app/src/main/java/com/example/android/quakereport/Earthquake.java:22-43 | each getter returns exactly the value passed to the constructor |
| `Quake.RecordDeterminedByGetters` | app/src/main/java/com/example/android/quakereport/Earthquake.java:9-27 | a record is fully determined by its four fields, which never change after construction |
| `QueryUtils.FeatureRecord` | app/src/main/java/com/example/android/quakereport/QueryUtils.java:166-174 | one feature gives a record exactly when it is an object with a `properties` object holding a numeric `mag`, string `place`, long `time` and string `url`; the record copies those four values unmodified |
| `QueryUtils.ParsedFrom` | app/src/main/java/com/example/android/quakereport/QueryUtils.java:165-178 | the records are one per feature, in array order, stopping just before the first feature that cannot be read; never more records than features |
| `QueryUtils.ExtractFeatureFromJson` | app/src/main/java/com/example/android/quakereport/QueryUtils.java:153-182 | the loop returns exactly the specified prefix of records; the list is empty when the root is not an object or has no `features` array |
| `QueryUtils.NoFeaturesArrayGivesEmptyList` | app/src/main/java/com/example/android/quakereport/QueryUtils.java:156-181 | unparsable text (including `""`), a non-object root, or a missing or non-array `features` gives an empty list |
| `QueryUtils.ExtractedNoLongerThanFeatures` | app/src/main/java/com/example/android/quakereport/QueryUtils.java:165-175 | the result is never longer than the `features` array |
| `QueryUtils.WellFormedFeaturesAllRecorded` | app/src/main/java/com/example/android/quakereport/QueryUtils.java:165-175 | with every feature well formed, there is exactly one record per feature, in order, each copying its feature's properties |
| `QueryUtils.FirstMalformedFeatureEndsList` | app/src/main/java/com/example/android/quakereport/QueryUtils.java:156-181 | if feature i is the first malformed one, the result is exactly the records of features 0..i-1 |
| `QueryUtils.CopiedRecordIsUnique` | app/src/main/java/com/example/android/quakereport/QueryUtils.java:169-174 | a feature's properties determine its record uniquely |
| `QueryUtils.SingleFeatureResponse` | app/src/main/java/com/example/android/quakereport/QueryUtils.java:159-181 | a response whose one feature has mag 5.1, place "5km E of Example, CA", time 1000 and url "http://x" gives that single record |
| `QueryUtils.MalformedSecondFeatureKeepsFirst` | app/src/main/java/com/example/android/quakereport/QueryUtils.java:156-181 | for any well-formed first feature, any malformed second feature and any features after them, the result is exactly one record, copied from the first feature: the result is a prefix, not all-or-nothing |
| `QueryUtils.StripLineBreaks` | app/src/main/java/com/example/android/quakereport/QueryUtils.java:138-144 | the concatenated output contains no CR or LF and is no longer than the body |
| `QueryUtils.StripDistributes` | app/src/main/java/com/example/android/quakereport/QueryUtils.java:139-142 | removing line breaks from two texts joined equals joining them after removal, so appending lines loses nothing |
| `QueryUtils.StripKeepsSingleLine` | app/src/main/java/com/example/android/quakereport/QueryUtils.java:138-144 | a body without line breaks is returned unchanged |
| `QueryUtils.LineEnd` | app/src/main/java/com/example/android/quakereport/QueryUtils.java:138-141 | `readLine` stops at the first CR or LF after the reader's position, or at the end |
| `QueryUtils.ReadLine` | app/src/main/java/com/example/android/quakereport/QueryUtils.java:138-141 | each line read moves the reader forward; null comes only at the end of a stream that does not fail; an exception only from a failing stream |
| `QueryUtils.ReadLineShape` | app/src/main/java/com/example/android/quakereport/QueryUtils.java:138-141 | a line is the text up to the next break, and only break characters are skipped after it |
| `QueryUtils.ReadLineSkipsOneTerminator` | app/src/main/java/com/example/android/quakereport/QueryUtils.java:138-141 | exactly one terminator is skipped after a line: CR LF together, otherwise a single LF or CR; at the end of the stream nothing is skipped, so a second break starts an empty line |
| `QueryUtils.ReadLineConsumesOneLine` | app/src/main/java/com/example/android/quakereport/QueryUtils.java:139-142 | one `readLine` plus `append` keeps the invariant: what is appended, followed by the rest with breaks removed, is the remaining body with breaks removed |
| `QueryUtils.ReadFromStream` | app/src/main/java/com/example/android/quakereport/QueryUtils.java:133-145 | a null stream gives `""`; a readable stream gives the body with every CR and LF removed and lines in order; a failing stream throws |
| `QueryUtils.CreateUrl` | app/src/main/java/com/example/android/quakereport/QueryUtils.java:71-79 | the URL is null exactly when the string is malformed, otherwise it is built from that string |
| `QueryUtils.MakeHttpRequest` | app/src/main/java/com/example/android/quakereport/QueryUtils.java:88-124 | a null URL returns `""` without opening a connection; the body is read only for code 200; the result is the read body for code 200, and `""` for any other code, a connection failure or a read failure |
| `QueryUtils.FetchEarthquakeData` | app/src/main/java/com/example/android/quakereport/QueryUtils.java:45-63 | a malformed URL, a non-200 code or a failed connection or read yields an empty list; otherwise the list extracted from the parsed body |
| `Adapter.FindSeparator` | app/src/main/java/com/example/android/quakereport/EarthquakeAdapter.java:59 | finds the first occurrence of `"of "` anywhere as a substring, or reports that there is none |
| `Adapter.SplitLocation` | app/src/main/java/com/example/android/quakereport/EarthquakeAdapter.java:57-66 | without `"of "` the offset is `near_the` and the primary location is the whole location; with `"of "` first at i, the offset is the text before i followed by `"of "` and the primary location holds no `"of "`; it throws exactly when only further `"of "` copies (or nothing) follow the first one. `SplitWithoutSeparator`, `SplitWithSeparator` and `SplitFailsIffOnlySeparatorsFollow` state each case as a lemma |
| `Adapter.SplitWithoutSeparator` | app/src/main/java/com/example/android/quakereport/EarthquakeAdapter.java:63-66 | without `"of "` the offset is the `near_the` resource and the primary location is the whole location |
| `Adapter.SplitWithSeparator` | app/src/main/java/com/example/android/quakereport/EarthquakeAdapter.java:59-62 | with `"of "` first at i, the offset is the text before i followed by `"of "`, and the primary location is the text from there up to the next `"of "` or the end; it holds no `"of "` itself |
| `Adapter.SplitFailsIffOnlySeparatorsFollow` | app/src/main/java/com/example/android/quakereport/EarthquakeAdapter.java:60-62 | `parts[1]` is out of bounds exactly when nothing but further `"of "` copies (or nothing) follows the first `"of "` |
| `Adapter.SplitLocationDropsTextAfterSecondSeparator` | app/src/main/java/com/example/android/quakereport/EarthquakeAdapter.java:60-62 | for an offset, a place and a non-empty tail none of which contains the letter `o` (such as offset "10km N ", place "Isle " and tail "Man", which make "10km N of Isle of Man"), the location offset + `"of "` + place + `"of "` + tail shows only the place and loses the tail (as written), while the split at the first separator keeps place, `"of "` and tail. The general case, the primary location ending at the second `"of "`, is `SplitWithSeparator`'s |
| `Adapter.SplitLocationFailsOnTrailingSeparator` | app/src/main/java/com/example/android/quakereport/EarthquakeAdapter.java:60-62 | any location whose only `"of "` is at its end (such as "5km N of " or "North of ") throws (as written), while the split at the first separator gives an empty primary location |
| `Adapter.SplitLocationAtFirst` | app/src/main/java/com/example/android/quakereport/EarthquakeAdapter.java:59-66 | corrected split: offset and primary location concatenate back to the location, and the offset ends right after the first `"of "` |
| `Adapter.ColorForFloor` | app/src/main/java/com/example/android/quakereport/EarthquakeAdapter.java:105-138 | floors 0 and 1 map to `magnitude1`, a floor k in 2..9 to `magnitude{k}`, and every other floor (negative or at least 10) to `magnitude10plus` |
| `Adapter.GetMagnitudeColor` | app/src/main/java/com/example/android/quakereport/EarthquakeAdapter.java:102-140 | magnitudes in [0, 2) get `magnitude1`; in [2, 10) the bucket whose number is the magnitude's floor; negative or at least 10 get `magnitude10plus` |
| `Adapter.LevelIsInjective` | app/src/main/java/com/example/android/quakereport/EarthquakeAdapter.java:106-137 | the ten colour resources stand for ten distinct buckets, so each magnitude gets exactly one bucket |
| `Adapter.ColorMonotoneForNonNegative` | app/src/main/java/com/example/android/quakereport/EarthquakeAdapter.java:102-138 | for non-negative magnitudes a larger magnitude never gets a lower bucket |
| `Adapter.EarthquakeAdapter.constructor` | app/src/main/java/com/example/android/quakereport/EarthquakeAdapter.java:25-27 | the adapter holds the list it is created with |
| `Adapter.EarthquakeAdapter.Clear` | app/src/main/java/com/example/android/quakereport/EarthquakeActivity.java:151 | after `clear` the adapter holds nothing |
| `Adapter.EarthquakeAdapter.AddAll` | app/src/main/java/com/example/android/quakereport/EarthquakeActivity.java:152-153 | `addAll` appends the given records, in order, to the current ones |
| `Activity.LoaderUri` | app/src/main/java/com/example/android/quakereport/EarthquakeActivity.java:119-140 | the request is `USGS_REQUEST_URL` with exactly five parameters in the order format=geojson, eventtype=earthquake, minmag, limit, orderby; the last three are the stored preference or its default |
| `Activity.StoredSettingsPassThrough` | app/src/main/java/com/example/android/quakereport/EarthquakeActivity.java:121-137 | any stored strings for the three settings reach the request verbatim, without validation |
| `Activity.EarthquakeActivity.OnCreate` | app/src/main/java/com/example/android/quakereport/EarthquakeActivity.java:53-99 | the adapter starts empty; a loader is started only with a connected network, otherwise the spinner is hidden and the empty view says `no_internet` |
| `Activity.EarthquakeActivity.OnLoadFinished` | app/src/main/java/com/example/android/quakereport/EarthquakeActivity.java:143-154 | afterwards the adapter holds exactly the delivered list if it is non-null and non-empty, and nothing otherwise; the spinner is hidden and the empty view says `no_earthquakes` |
| `Activity.EarthquakeActivity.OnLoaderReset` | app/src/main/java/com/example/android/quakereport/EarthquakeActivity.java:157-159 | afterwards the adapter is empty and nothing else changes |

## Left out

- Load lifecycle (coalescing duplicate starts, cancellation, stale results, background threads): Android's `AsyncTaskLoader` and `LoaderManager` do this, not the app's code. `EarthquakeLoader.java` is not part of this model; its null-URL check returns null, which `OnLoadFinished` already treats as an empty list.
- Real network I/O: opening the connection, the 10000 ms read timeout and the 15000 ms connect timeout, and the `disconnect`/`close` order in `finally`. The connection's outcome is an input instead.
- `FetchEarthquakeData`: leaves out the `IOException` that only `close()` can throw. On that path the JSON text is null.
- `ReadFromStream`: does not model UTF-8 decoding or `BufferedReader`'s buffering. A failing stream fails once the characters it delivered are used up. Any read failure has the same outcome (`""` from `makeHttpRequest`).
- org.json text parsing and its lenient type coercions. Examples: numeric strings read by `getDouble`, fractional numbers truncated by `getLong`, non-strings turned into text by `getString`. Each accessor accepts only the matching JSON kind.
- `new URL(...)` validity is a flag. `Uri.Builder` percent-encoding and `Uri.toString` are left out, so the request is the base URL plus an unencoded parameter list.
- Floating point: magnitudes are `real`. NaN and the infinities are not modelled, and neither is `(int)` cast saturation. `GetMagnitudeColor` uses the exact floor.
- Formatting with `DecimalFormat("0.0")` and `SimpleDateFormat`.
- UI plumbing: view inflation, text and colour updates on views, `ContextCompat.getColor` (the colour is a resource enum), menus, the settings and browser intents, and logging.
- The texts of the preference keys and defaults are resource data outside the source files. They are parameters.

## Findings

| source | as written | input that shows it | evidently intended | confidence | as-written member | corrected member |
|---|---|---|---|---|---|---|
| app/src/main/java/com/example/android/quakereport/EarthquakeAdapter.java:60-62 | `split` cuts at every `"of "`, and only `parts[1]` is shown | "10km N of Isle of Man" shows the primary location "Isle " | primary location "Isle of Man", everything after the first `"of "` | high; not executed | `Adapter.SplitLocationDropsTextAfterSecondSeparator` | `Adapter.SplitLocationAtFirst` |
| app/src/main/java/com/example/android/quakereport/EarthquakeAdapter.java:60-62 | `split` drops trailing empty pieces, so `parts[1]` can be missing | "5km N of " throws `ArrayIndexOutOfBoundsException` in `getView` | an empty primary location | medium; not executed | `Adapter.SplitLocationFailsOnTrailingSeparator` | `Adapter.SplitLocationAtFirst` |
