/** JavaScript values as they reach the application: parsed JSON bodies, Redux
    payloads and the stored session. `undefined` is not a JSON value; where a
    property may be missing the model uses `Option<Json>` and `None` stands for
    `undefined`. */
module Json {

  datatype Option<+T> = None | Some(value: T)

  datatype Json =
    | JNull
    | JBool(b: bool)
    | JNumber(n: int)
    | JString(s: string)
    | JArray(items: seq<Json>)
    | JObject(fields: map<string, Json>)

  /** JavaScript truthiness: `null`, `false`, `0` and `""` are falsy, every
      array and object is truthy. */
  predicate Truthy(j: Json)
  {
    match j
    case JNull => false
    case JBool(b) => b
    case JNumber(n) => n != 0
    case JString(s) => s != ""
    case JArray(_) => true
    case JObject(_) => true
  }

  /** Truthiness of a possibly-`undefined` value. */
  predicate Present(v: Option<Json>)
  {
    v.Some? && Truthy(v.value)
  }

  /** Reading property `key` of a value that is known not to be
      `null`/`undefined`: objects answer from their fields, every other value
      answers `undefined` (array indices are not property names used here). */
  function Get(j: Json, key: string): (v: Option<Json>)
    ensures v.Some? ==> j.JObject? && key in j.fields && v.value == j.fields[key]
    ensures j.JObject? && key in j.fields ==> v.Some?
  {
    if j.JObject? && key in j.fields then Some(j.fields[key]) else None
  }

  /** `a.key` where `a` may be `undefined` or `null`: JavaScript throws a
      TypeError, which the model reports as `Threw`. */
  datatype Access = Threw | Value(v: Option<Json>)

  function Member(a: Option<Json>, key: string): (r: Access)
    ensures r.Threw? <==> (a.None? || a.value.JNull?)
    ensures r.Value? ==> r.v == Get(a.value, key)
  {
    match a
    case None => Threw
    case Some(JNull) => Threw
    case Some(j) => Value(Get(j, key))
  }

  /** The text written to storage by `JSON.stringify`. The character-level
      encoding is not modelled: the text is a token that remembers the value,
      so `JSON.parse(JSON.stringify(v)) == v` holds by construction. */
  datatype JsonText = JsonText(doc: Json)

  function Stringify(j: Json): JsonText
  {
    JsonText(j)
  }

  function Parse(t: JsonText): Json
  {
    t.doc
  }

  lemma ParseStringify(j: Json)
    ensures Parse(Stringify(j)) == j
  {
  }
}
