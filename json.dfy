/**
 * The parsed JSON document the app receives from the dates endpoint, and the
 * three typed accessors the course-date parser reads it through: a subscript
 * by key and the optional `.bool`, `.string` and `.array` views. A subscript on
 * anything but an object, or with a key the object lacks, gives `null`; a typed
 * view of a value of another type gives no value at all.
 */
module Json {
  import opened Wrappers

  datatype Json =
    | JNull
    | JBool(b: bool)
    | JNumber(n: int)
    | JString(s: string)
    | JArray(items: seq<Json>)
    | JObject(fields: map<string, Json>)

  /** `json[key]` */
  function Member(json: Json, key: string): (r: Json)
    ensures json.JObject? && key in json.fields ==> r == json.fields[key]
    ensures !(json.JObject? && key in json.fields) ==> r == JNull
  {
    match json
    case JObject(fields) => if key in fields then fields[key] else JNull
    case _ => JNull
  }

  /** `json[key].bool` */
  function BoolAt(json: Json, key: string): (r: Option<bool>)
    ensures r.Some? <==> Member(json, key).JBool?
    ensures r.Some? ==> r.value == Member(json, key).b
  {
    match Member(json, key)
    case JBool(b) => Some(b)
    case _ => None
  }

  /** `json[key].string` */
  function StringAt(json: Json, key: string): (r: Option<string>)
    ensures r.Some? <==> Member(json, key).JString?
    ensures r.Some? ==> r.value == Member(json, key).s
  {
    match Member(json, key)
    case JString(s) => Some(s)
    case _ => None
  }

  /** `json[key].array` */
  function ArrayAt(json: Json, key: string): (r: Option<seq<Json>>)
    ensures r.Some? <==> Member(json, key).JArray?
    ensures r.Some? ==> r.value == Member(json, key).items
  {
    match Member(json, key)
    case JArray(items) => Some(items)
    case _ => None
  }
}
