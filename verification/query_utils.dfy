/**
 * The fetch-and-parse pipeline of `QueryUtils`: `createUrl`, `makeHttpRequest`,
 * `readFromStream`, `extractFeatureFromJson` and their composition
 * `fetchEarthquakeData`. Network I/O is abstracted as a `Connection` value and
 * JSON text parsing as a function from text to a parsed tree.
 */
module QueryUtils {
  import opened Wrappers
  import opened Json
  import opened Quake

  // ---------------------------------------------------------------------------
  // extractFeatureFromJson
  // ---------------------------------------------------------------------------

  /** The `properties` object of a feature, when the feature is an object that has one. */
  ghost predicate HasPropertiesObject(feature: Json) {
    feature.JObject? && "properties" in feature.fields && feature.fields["properties"].JObject?
  }

  /** A feature from which the loop body builds a record without throwing. */
  ghost predicate HasEarthquakeSchema(feature: Json) {
    HasPropertiesObject(feature) &&
    var p := feature.fields["properties"].fields;
    "mag" in p && p["mag"].JNumber? &&
    "place" in p && p["place"].JString? &&
    "time" in p && IsLongNumber(p["time"]) &&
    "url" in p && p["url"].JString?
  }

  /** The record carries the feature's `mag`, `place`, `time` and `url`, unmodified. */
  ghost predicate CopiesProperties(feature: Json, q: Earthquake) {
    HasPropertiesObject(feature) &&
    var p := feature.fields["properties"].fields;
    "mag" in p && p["mag"] == JNumber(q.magnitude) &&
    "place" in p && p["place"] == JString(q.location) &&
    "time" in p && p["time"] == JNumber(q.timeInMilliseconds as real) &&
    "url" in p && p["url"] == JString(q.url)
  }

  /** One iteration of the loop: the record for `features[i]`, or None where a getter throws. */
  function FeatureRecord(features: seq<Json>, i: nat): (r: Option<Earthquake>)
    requires i < |features|
    ensures r.Some? <==> HasEarthquakeSchema(features[i])
    ensures r.Some? ==> CopiesProperties(features[i], r.value)
  {
    var currentFeature :- ArrayGetJSONObject(features, i);
    var properties :- GetJSONObject(currentFeature, "properties");
    var magnitude :- GetDouble(properties, "mag");
    var location :- GetString(properties, "place");
    var time :- GetLong(properties, "time");
    var url :- GetString(properties, "url");
    Some(Earthquake(magnitude, location, time, url))
  }

  /**
   * The records the loop appends from index `i` on: one per feature, in order,
   * up to the first feature whose getters throw.
   */
  function ParsedFrom(features: seq<Json>, i: nat): (r: seq<Earthquake>)
    requires i <= |features|
    decreases |features| - i
    ensures i + |r| <= |features|
    ensures forall j :: 0 <= j < |r| ==> FeatureRecord(features, i + j) == Some(r[j])
    ensures i + |r| < |features| ==> FeatureRecord(features, i + |r|).None?
  {
    if i == |features| then []
    else
      match FeatureRecord(features, i)
      case None => []
      case Some(q) => [q] + ParsedFrom(features, i + 1)
  }

  /** The `features` array of the root object, when the root is an object that has one. */
  function FeaturesArray(jsonResponse: Option<Json>): Option<seq<Json>> {
    var rootJsonResponse :- NewJSONObject(jsonResponse);
    GetJSONArray(rootJsonResponse, "features")
  }

  /** What `extractFeatureFromJson` returns for a response org.json parsed to `jsonResponse`. */
  function ExtractedRecords(jsonResponse: Option<Json>): seq<Earthquake> {
    match FeaturesArray(jsonResponse)
    case None => []
    case Some(features) => ParsedFrom(features, 0)
  }

  /**
   * `extractFeatureFromJson`. The list exists before the `try`; a getter that
   * throws leaves the loop for the `catch`, and the list built so far is
   * returned. `jsonResponse` is None when org.json cannot parse the text.
   */
  method ExtractFeatureFromJson(jsonResponse: Option<Json>) returns (earthquakeList: seq<Earthquake>)
    ensures earthquakeList == ExtractedRecords(jsonResponse)
    ensures FeaturesArray(jsonResponse).None? ==> earthquakeList == []
  {
    earthquakeList := [];
    var rootJsonResponse := NewJSONObject(jsonResponse);
    if rootJsonResponse.None? { return; }
    var featuresArray := GetJSONArray(rootJsonResponse.value, "features");
    if featuresArray.None? { return; }
    var features := featuresArray.value;
    var i := 0;
    while i < |features|
      invariant 0 <= i <= |features|
      invariant earthquakeList + ParsedFrom(features, i) == ParsedFrom(features, 0)
    {
      var currentFeature := ArrayGetJSONObject(features, i);
      if currentFeature.None? { return; }
      var properties := GetJSONObject(currentFeature.value, "properties");
      if properties.None? { return; }
      var magnitude := GetDouble(properties.value, "mag");
      if magnitude.None? { return; }
      var location := GetString(properties.value, "place");
      if location.None? { return; }
      var time := GetLong(properties.value, "time");
      if time.None? { return; }
      var url := GetString(properties.value, "url");
      if url.None? { return; }
      earthquakeList := earthquakeList + [Earthquake(magnitude.value, location.value, time.value, url.value)];
      i := i + 1;
    }
  }

  /** Any input that is not an object with a `features` array yields an empty list, never null. */
  lemma NoFeaturesArrayGivesEmptyList(jsonResponse: Option<Json>)
    requires jsonResponse.None? || !jsonResponse.value.JObject? || "features" !in jsonResponse.value.fields
             || !jsonResponse.value.fields["features"].JArray?
    ensures ExtractedRecords(jsonResponse) == []
  {
  }

  /** The result never has more records than the `features` array has elements. */
  lemma ExtractedNoLongerThanFeatures(jsonResponse: Option<Json>)
    ensures FeaturesArray(jsonResponse).Some? ==> |ExtractedRecords(jsonResponse)| <= |FeaturesArray(jsonResponse).value|
    ensures FeaturesArray(jsonResponse).None? ==> ExtractedRecords(jsonResponse) == []
  {
  }

  /** With every feature well formed: one record per feature, in order, fields copied. */
  lemma WellFormedFeaturesAllRecorded(features: seq<Json>)
    requires forall j :: 0 <= j < |features| ==> HasEarthquakeSchema(features[j])
    ensures |ParsedFrom(features, 0)| == |features|
    ensures forall j :: 0 <= j < |features| ==> CopiesProperties(features[j], ParsedFrom(features, 0)[j])
  {
    var r := ParsedFrom(features, 0);
    forall j | 0 <= j < |features|
      ensures CopiesProperties(features[j], r[j])
    {
      assert FeatureRecord(features, 0 + j) == Some(r[j]);
    }
  }

  /**
   * If feature `i` is the first malformed one, the result is exactly the
   * records of features `0..i-1`; nothing from feature `i` on is kept.
   */
  lemma FirstMalformedFeatureEndsList(features: seq<Json>, i: nat)
    requires i < |features|
    requires forall j :: 0 <= j < i ==> HasEarthquakeSchema(features[j])
    requires !HasEarthquakeSchema(features[i])
    ensures |ParsedFrom(features, 0)| == i
    ensures forall j :: 0 <= j < i ==> CopiesProperties(features[j], ParsedFrom(features, 0)[j])
  {
    var r := ParsedFrom(features, 0);
    ParsedFromStopsAt(features, 0, i);
    forall j | 0 <= j < i
      ensures CopiesProperties(features[j], r[j])
    {
      assert FeatureRecord(features, 0 + j) == Some(r[j]);
    }
  }

  /** From index `s` on, the loop appends one record per feature before the malformed feature `i`. */
  lemma {:induction false} ParsedFromStopsAt(features: seq<Json>, s: nat, i: nat)
    requires s <= i < |features|
    requires forall j :: s <= j < i ==> HasEarthquakeSchema(features[j])
    requires !HasEarthquakeSchema(features[i])
    ensures |ParsedFrom(features, s)| == i - s
    decreases i - s
  {
    if s < i {
      ParsedFromStopsAt(features, s + 1, i);
    }
  }

  /** Records copying the same properties are equal: a record is determined by its feature. */
  lemma CopiedRecordIsUnique(feature: Json, a: Earthquake, b: Earthquake)
    requires CopiesProperties(feature, a) && CopiesProperties(feature, b)
    ensures a == b
  {
  }

  /** A response whose one feature is well formed yields that feature's record. */
  lemma SingleFeatureResponse()
    ensures ExtractedRecords(Some(JObject(map["features" := JArray([SampleFeature()])])))
            == [Earthquake(5.1, "5km E of Example, CA", 1000, "http://x")]
  {
    var features := [SampleFeature()];
    assert FeatureRecord(features, 0) == Some(Earthquake(5.1, "5km E of Example, CA", 1000, "http://x"));
  }

  /**
   * A malformed second feature does not discard the first: the list is a
   * prefix of the features, not all-or-nothing, whatever follows.
   */
  lemma MalformedSecondFeatureKeepsFirst(first: Json, second: Json, more: seq<Json>)
    requires HasEarthquakeSchema(first) && !HasEarthquakeSchema(second)
    ensures var r := ExtractedRecords(Some(JObject(map["features" := JArray([first, second] + more)])));
      |r| == 1 && CopiesProperties(first, r[0])
  {
    var features := [first, second] + more;
    assert features[0] == first && features[1] == second;
    FirstMalformedFeatureEndsList(features, 1);
  }

  /** A well-formed feature: magnitude 5.1 at "5km E of Example, CA", time 1000, url "http://x". */
  function SampleFeature(): Json {
    JObject(map["properties" := JObject(map[
      "mag" := JNumber(5.1),
      "place" := JString("5km E of Example, CA"),
      "time" := JNumber(1000.0),
      "url" := JString("http://x")])])
  }

  // ---------------------------------------------------------------------------
  // readFromStream
  // ---------------------------------------------------------------------------

  /** The characters that end a line for `BufferedReader.readLine`. */
  predicate IsLineBreak(c: char) {
    c == '\n' || c == '\r'
  }

  /** `s` with every CR and LF removed and every other character kept, in order. */
  function StripLineBreaks(s: string): (r: string)
    ensures |r| <= |s|
    ensures forall k :: 0 <= k < |r| ==> !IsLineBreak(r[k])
  {
    if s == [] then []
    else (if IsLineBreak(s[0]) then [] else [s[0]]) + StripLineBreaks(s[1..])
  }

  /** Removing line breaks commutes with concatenation. */
  lemma {:induction false} StripDistributes(a: string, b: string)
    ensures StripLineBreaks(a + b) == StripLineBreaks(a) + StripLineBreaks(b)
  {
    if a == [] {
      assert a + b == b;
    } else {
      assert (a + b)[1..] == a[1..] + b;
      StripDistributes(a[1..], b);
    }
  }

  /** A text without line breaks is left as it is. */
  lemma {:induction false} StripKeepsSingleLine(s: string)
    requires forall k :: 0 <= k < |s| ==> !IsLineBreak(s[k])
    ensures StripLineBreaks(s) == s
  {
    if s != [] {
      StripKeepsSingleLine(s[1..]);
    }
  }

  /**
   * The decoded response body as the reader sees it: its characters, and
   * whether reading past them raises `IOException` instead of reporting the
   * end of the stream.
   */
  datatype InputStream = InputStream(chars: string, failsAtEnd: bool)

  /** One call of `readLine`: a line and the position after its terminator, null, or an exception. */
  datatype LineRead = Line(text: string, next: nat) | EndOfStream | ReadError

  /** The first line break at or after `pos`, or the end of the text. */
  function LineEnd(chars: string, pos: nat): (k: nat)
    requires pos <= |chars|
    decreases |chars| - pos
    ensures pos <= k <= |chars|
    ensures forall j :: pos <= j < k ==> !IsLineBreak(chars[j])
    ensures k < |chars| ==> IsLineBreak(chars[k])
  {
    if pos == |chars| || IsLineBreak(chars[pos]) then pos else LineEnd(chars, pos + 1)
  }

  /**
   * `BufferedReader.readLine()` with the reader at `pos`: a line ends at LF, at
   * CR, or at CR LF, and the terminator is not part of it; at the end of the
   * characters a non-empty last line is returned, then null.
   */
  function ReadLine(stream: InputStream, pos: nat): (r: LineRead)
    requires pos <= |stream.chars|
    ensures r.Line? ==> pos < r.next <= |stream.chars|
    ensures r.EndOfStream? ==> pos == |stream.chars| && !stream.failsAtEnd
    ensures r.ReadError? ==> stream.failsAtEnd
  {
    var chars := stream.chars;
    var k := LineEnd(chars, pos);
    if k == |chars| then
      if stream.failsAtEnd then ReadError
      else if k == pos then EndOfStream
      else Line(chars[pos..k], k)
    else
      Line(chars[pos..k], if chars[k] == '\r' && k + 1 < |chars| && chars[k + 1] == '\n' then k + 2 else k + 1)
  }

  /** A text made of line breaks only is removed entirely. */
  lemma {:induction false} StripOnlyBreaks(t: string)
    requires forall k :: 0 <= k < |t| ==> IsLineBreak(t[k])
    ensures StripLineBreaks(t) == []
  {
    if t != [] {
      StripOnlyBreaks(t[1..]);
    }
  }

  /** Removing breaks from a three-part text removes them part by part. */
  lemma SplitStrip(whole: string, a: string, b: string, c: string)
    requires whole == a + b + c
    ensures StripLineBreaks(whole) == StripLineBreaks(a) + StripLineBreaks(b) + StripLineBreaks(c)
  {
    StripDistributes(a + b, c);
    StripDistributes(a, b);
  }

  /** A line read returns the text up to the next break and skips only break characters after it. */
  lemma ReadLineShape(stream: InputStream, pos: nat)
    requires pos <= |stream.chars|
    requires ReadLine(stream, pos).Line?
    ensures LineEnd(stream.chars, pos) <= ReadLine(stream, pos).next
    ensures ReadLine(stream, pos).text == stream.chars[pos..LineEnd(stream.chars, pos)]
    ensures forall j :: LineEnd(stream.chars, pos) <= j < ReadLine(stream, pos).next ==> IsLineBreak(stream.chars[j])
  {
  }

  /**
   * A line read skips exactly one terminator: LF, CR, or CR LF taken together;
   * a second break after it starts the next (possibly empty) line.
   */
  lemma ReadLineSkipsOneTerminator(stream: InputStream, pos: nat)
    requires pos <= |stream.chars|
    requires ReadLine(stream, pos).Line?
    ensures var chars, k := stream.chars, LineEnd(stream.chars, pos);
      ReadLine(stream, pos).next
        == if k == |chars| then k
           else if chars[k] == '\r' && k + 1 < |chars| && chars[k + 1] == '\n' then k + 2
           else k + 1
  {
  }

  /** A line read consumes its text and its terminator and nothing else. */
  lemma ReadLineConsumesOneLine(stream: InputStream, pos: nat)
    requires pos <= |stream.chars|
    requires ReadLine(stream, pos).Line?
    ensures StripLineBreaks(stream.chars[pos..])
            == ReadLine(stream, pos).text + StripLineBreaks(stream.chars[ReadLine(stream, pos).next..])
  {
    ReadLineShape(stream, pos);
    var chars := stream.chars;
    var k := LineEnd(chars, pos);
    var next := ReadLine(stream, pos).next;
    var line, terminator, rest := chars[pos..k], chars[k..next], chars[next..];
    SplitStrip(chars[pos..], line, terminator, rest);
    StripKeepsSingleLine(line);
    StripOnlyBreaks(terminator);
  }

  /**
   * `readFromStream`: appends every line `readLine` returns, with no separator,
   * until it returns null. None is the `IOException` it lets escape.
   */
  method ReadFromStream(inputStream: Option<InputStream>) returns (output: Option<string>)
    ensures inputStream.None? ==> output == Some("")
    ensures inputStream.Some? && inputStream.value.failsAtEnd ==> output == None
    ensures inputStream.Some? && !inputStream.value.failsAtEnd
            ==> output == Some(StripLineBreaks(inputStream.value.chars))
  {
    var builder := "";
    if inputStream.Some? {
      var stream := inputStream.value;
      // The reader's position in the characters; BufferedReader keeps it internally.
      var pos := 0;
      var line := ReadLine(stream, pos);
      while line.Line?
        invariant pos <= |stream.chars|
        invariant line == ReadLine(stream, pos)
        invariant builder + StripLineBreaks(stream.chars[pos..]) == StripLineBreaks(stream.chars)
        decreases |stream.chars| - pos
      {
        ReadLineConsumesOneLine(stream, pos);
        builder := builder + line.text;
        pos := line.next;
        line := ReadLine(stream, pos);
      }
      if line.ReadError? {
        return None;
      }
      assert pos == |stream.chars|;
      assert stream.chars[pos..] == [];
      assert builder == StripLineBreaks(stream.chars);
    }
    return Some(builder);
  }

  // ---------------------------------------------------------------------------
  // createUrl, makeHttpRequest, fetchEarthquakeData
  // ---------------------------------------------------------------------------

  /** A `java.net.URL`; only the string it was built from is kept. */
  datatype Url = Url(spec: string)

  /** `createUrl`: null when `new URL` rejects the string as malformed. */
  function CreateUrl(requestUrl: string, malformed: bool): (url: Option<Url>)
    ensures url.None? <==> malformed
    ensures url.Some? ==> url.value.spec == requestUrl
  {
    if malformed then None else Some(Url(requestUrl))
  }

  /** What opening a connection to the URL results in. */
  datatype Connection =
    | ConnectFailed                                   // openConnection, connect or getResponseCode throws IOException
    | Responded(responseCode: int, body: InputStream)

  /** A response whose body `readFromStream` reads to the end. */
  predicate BodyDelivered(connection: Connection) {
    connection.Responded? && connection.responseCode == 200 && !connection.body.failsAtEnd
  }

  /**
   * `makeHttpRequest`. Besides the text it returns, it reports whether a
   * connection was opened and whether the body stream was read.
   */
  method MakeHttpRequest(url: Option<Url>, connection: Connection)
    returns (jsonResponse: string, connectionOpened: bool, bodyRead: bool)
    ensures connectionOpened <==> url.Some?
    ensures bodyRead <==> url.Some? && connection.Responded? && connection.responseCode == 200
    ensures jsonResponse == if url.Some? && BodyDelivered(connection)
                            then StripLineBreaks(connection.body.chars) else ""
  {
    jsonResponse := "";
    connectionOpened, bodyRead := false, false;
    if url.None? {
      return;
    }
    connectionOpened := true;
    match connection {
      case ConnectFailed =>
      case Responded(responseCode, body) =>
        if responseCode == 200 {
          bodyRead := true;
          var output := ReadFromStream(Some(body));
          if output.Some? {
            jsonResponse := output.value;
          }
        }
    }
  }

  /**
   * `fetchEarthquakeData`: `createUrl`, then `makeHttpRequest`, then
   * `extractFeatureFromJson`. `parseJson` is org.json's text parser, which
   * rejects the empty text.
   */
  method FetchEarthquakeData(requestUrl: string, urlMalformed: bool, connection: Connection,
                             parseJson: string -> Option<Json>)
    returns (earthquakeList: seq<Earthquake>)
    requires parseJson("") == None
    ensures urlMalformed ==> earthquakeList == []
    ensures !BodyDelivered(connection) ==> earthquakeList == []
    ensures !urlMalformed && BodyDelivered(connection)
            ==> earthquakeList == ExtractedRecords(parseJson(StripLineBreaks(connection.body.chars)))
  {
    var url := CreateUrl(requestUrl, urlMalformed);
    var jsonResponse, _, _ := MakeHttpRequest(url, connection);
    earthquakeList := ExtractFeatureFromJson(parseJson(jsonResponse));
  }
}
