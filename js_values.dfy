/** JavaScript values as the client code sees them: optional values, the
    values `JSON.parse` produces, property reads on them, truthiness, and the
    outcome of code that may throw or of a promise that settles. */
module JsValues {

  datatype Option<+T> = None | Some(value: T)

  /** A value produced by `JSON.parse`. Numbers are kept as reals; `NaN`
      cannot come out of JSON, and an overflowing literal such as `1e999`,
      which parses to `Infinity`, is not distinguished from other non-zero
      numbers, which is all the pages' truthiness tests look at. */
  datatype Json =
    | JNull
    | JBool(b: bool)
    | JNumber(n: real)
    | JString(s: string)
    | JArray(items: seq<Json>)
    | JObject(fields: map<string, Json>)

  /** The result of evaluating `v.key` in JavaScript. */
  datatype Lookup = Throws | Undefined | Found(value: Json)

  /** `v.key`. Reading a property of `null` throws a TypeError; an object
      yields its own field or `undefined`. Only the property names this model
      reads are ever passed here ("type", "payload", "from", "system",
      "group"), and none of them is an inherited property of a primitive, an
      array or a plain object, so every other value yields `undefined`. */
  function Get(v: Json, key: string): (r: Lookup)
    ensures r.Throws? <==> v.JNull?
    ensures r.Found? <==> v.JObject? && key in v.fields
    ensures r.Found? ==> r.value == v.fields[key]
  {
    match v
    case JNull => Throws
    case JObject(fields) => if key in fields then Found(fields[key]) else Undefined
    case _ => Undefined
  }

  /** JavaScript truthiness of a JSON value. */
  predicate Truthy(v: Json): (r: bool)
    ensures !r <==> v in {JNull, JBool(false), JNumber(0.0), JString("")}
  {
    match v
    case JNull => false
    case JBool(b) => b
    case JNumber(n) => n != 0.0
    case JString(s) => s != ""
    case _ => true
  }

  /** Truthiness of the result of a property read that did not throw. */
  predicate TruthyLookup(l: Lookup)
  {
    l.Found? && Truthy(l.value)
  }

  /** A string held in a variable typed `string | null`, read as a condition. */
  predicate TruthyString(s: Option<string>)
  {
    s.Some? && s.value != ""
  }

  /** The message of the TypeError a read of `key` on `null` throws (the
      wording of the V8 engine). */
  function NullReadMessage(key: string): string
  {
    "Cannot read properties of null (reading '" + key + "')"
  }

  /** `e.message || fallback`: an empty or missing message gives way to the
      page's fixed text. */
  function ErrorText(message: string, fallback: string): (r: string)
    ensures fallback != "" ==> r != ""
    ensures message != "" ==> r == message
    ensures message == "" ==> r == fallback
  {
    if message != "" then message else fallback
  }

  /** Code that either returns a value or throws an error with a message. */
  datatype Outcome<+T> = Returned(value: T) | Threw(message: string)

  /** A settled promise for a value fetched from outside the client: fulfilled
      with a JSON value, or rejected with an error whose message may be empty. */
  datatype Settled = Resolved(value: Json) | Rejected(message: string)

  /** `Array.isArray(v) ? v : []`. */
  function ArrayOrEmpty(v: Json): (r: seq<Json>)
    ensures v.JArray? ==> r == v.items
    ensures !v.JArray? ==> r == []
  {
    if v.JArray? then v.items else []
  }
}
