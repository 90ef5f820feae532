/**
 * A parsed JSON document as org.json exposes it, and the typed getters of
 * `JSONObject` and `JSONArray` as partial accessors: `None` stands for the
 * `JSONException` the getter throws.
 */
module Json {
  import opened Wrappers

  /** Java's `long`. */
  const MinLong: int := -0x8000_0000_0000_0000
  const MaxLong: int := 0x7FFF_FFFF_FFFF_FFFF
  type Long = x: int | MinLong <= x <= MaxLong

  datatype Json =
    | JNull
    | JBool(b: bool)
    | JNumber(n: real)
    | JString(s: string)
    | JArray(elements: seq<Json>)
    | JObject(fields: map<string, Json>)

  /** A JSON number that `getLong` reads back exactly as a Java `long`. */
  predicate IsLongNumber(v: Json) {
    v.JNumber? && v.n.Floor as real == v.n && MinLong <= v.n.Floor <= MaxLong
  }

  /** `new JSONObject(text)`, given the tree org.json parsed from `text` (None: unparsable). */
  function NewJSONObject(parsed: Option<Json>): Option<map<string, Json>> {
    match parsed
    case Some(JObject(fields)) => Some(fields)
    case _ => None
  }

  /** `JSONArray.getJSONObject(i)`. */
  function ArrayGetJSONObject(elements: seq<Json>, i: nat): Option<map<string, Json>> {
    if i < |elements| && elements[i].JObject? then Some(elements[i].fields) else None
  }

  /** `JSONObject.getJSONObject(key)`. */
  function GetJSONObject(obj: map<string, Json>, key: string): Option<map<string, Json>> {
    if key in obj && obj[key].JObject? then Some(obj[key].fields) else None
  }

  /** `JSONObject.getJSONArray(key)`. */
  function GetJSONArray(obj: map<string, Json>, key: string): Option<seq<Json>> {
    if key in obj && obj[key].JArray? then Some(obj[key].elements) else None
  }

  /** `JSONObject.getDouble(key)`. */
  function GetDouble(obj: map<string, Json>, key: string): Option<real> {
    if key in obj && obj[key].JNumber? then Some(obj[key].n) else None
  }

  /** `JSONObject.getLong(key)`. */
  function GetLong(obj: map<string, Json>, key: string): Option<Long> {
    if key in obj && IsLongNumber(obj[key]) then Some(obj[key].n.Floor) else None
  }

  /** `JSONObject.getString(key)`. */
  function GetString(obj: map<string, Json>, key: string): Option<string> {
    if key in obj && obj[key].JString? then Some(obj[key].s) else None
  }
}
