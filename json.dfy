/** A tokenised JSON document, as the JSON reader hands it to the loader.
    Integers and floating-point numbers stay distinct because the reader boxes
    them as different .NET types: an integer as a long, or as a BigInteger when
    it does not fit in 64 bits, and a floating-point number as a double. */
module JsonValue {

  datatype Json =
    | JNull
    | JBool(b: bool)
    | JInteger(i: int)
    | JFloat(r: real)
    | JString(s: string)
    | JArray(elems: seq<Json>)
    | JObject(members: map<string, Json>)

  /** `dict[key]` on an OrderedDictionary: a missing key reads as null. */
  function Field(members: map<string, Json>, key: string): Json {
    if key in members then members[key] else JNull
  }
}
