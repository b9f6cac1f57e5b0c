/** Values shared by the three controllers: JavaScript's "defined" and
    "truthy" tests on request-body fields, the JSON documents stored as
    itinerary content, and the HTTP status codes the handlers answer with. */
module Common {

  /** A request-body field: `None` is `undefined` (the field is absent). */
  datatype Option<+T> = None | Some(value: T)

  /** Row identifiers; the store generates them, requests carry them as strings. */
  type Id = string

  /** A JSON value, as an itinerary's `content` column holds it. */
  datatype Json =
    | JNull
    | JBool(b: bool)
    | JNumber(n: int)
    | JString(s: string)
    | JArray(items: seq<Json>)
    | JObject(fields: map<string, Json>)

  // JavaScript truthiness of a request field: `undefined`, "" and 0 are
  // falsy; every array, even an empty one, is truthy.

  predicate TruthyString(x: Option<string>) {
    x.Some? && x.value != ""
  }

  predicate TruthyNumber(x: Option<int>) {
    x.Some? && x.value != 0
  }

  predicate TruthyArray<T>(x: Option<seq<T>>) {
    x.Some?
  }

  predicate TruthyJson(x: Option<Json>) {
    x.Some? &&
    match x.value
    case JNull => false
    case JBool(b) => b
    case JNumber(n) => n != 0
    case JString(s) => s != ""
    case JArray(_) => true
    case JObject(_) => true
  }

  // The status codes the handlers send.
  const StatusOk := 200
  const StatusCreated := 201
  const StatusNoContent := 204
  const StatusBadRequest := 400
  const StatusNotFound := 404
  const StatusServerError := 500
}
