/** JSON documents as the client's decoders see them, and the Swift types a payload may be decoded as. */
module JsonData {

  /** A parsed JSON value. Numbers are integers: the model has no floating point. */
  datatype Json =
    | JNull
    | JBool(b: bool)
    | JNumber(n: int)
    | JString(s: string)
    | JArray(items: seq<Json>)
    | JObject(fields: map<string, Json>)

  /**
   * The `Decodable` type a call expects as its result, or a subscription as its payload:
   * `String`, `Int`, `Bool`, an array `[E]`, or a struct (any object).
   */
  datatype PayloadType = StringPayload | IntPayload | BoolPayload | ArrayPayload(element: PayloadType) | ObjectPayload

  /** The range of Swift's 64-bit `Int`. */
  const IntMin: int := -0x8000_0000_0000_0000
  const IntMax: int := 0x7FFF_FFFF_FFFF_FFFF

  /**
   * `JSONDecoder` accepts `v` as a value of type `t`: an `Int` must fit in 64 bits and every
   * element of an array must be a value of the element type. A struct is approximated by
   * "any object". `null` is never a value of these types.
   */
  predicate Conforms(v: Json, t: PayloadType)
    decreases v
  {
    match t
    case StringPayload => v.JString?
    case IntPayload => v.JNumber? && IntMin <= v.n <= IntMax
    case BoolPayload => v.JBool?
    case ArrayPayload(element) => v.JArray? && forall i :: 0 <= i < |v.items| ==> Conforms(v.items[i], element)
    case ObjectPayload => v.JObject?
  }
}
