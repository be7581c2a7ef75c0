/**
 * The values JavaScript's JSON.parse can return, and JSON.parse itself
 * seen as a partial function from text to such a value.
 */
module Json {

  datatype Option<+T> = None | Some(value: T)

  /**
   * A parsed JSON value. Numbers are mathematical reals: the IEEE-754
   * double that JavaScript would produce is not modelled.
   */
  datatype Json =
    | JNull
    | JBool(b: bool)
    | JNumber(n: real)
    | JString(s: string)
    | JArray(elements: seq<Json>)
    | JObject(members: seq<(string, Json)>)

  /**
   * JSON.parse: Some(v) when the text is valid JSON denoting v, None when
   * JSON.parse would throw a SyntaxError. The grammar is not modelled; every
   * operation that parses takes the parser as a parameter.
   */
  type Parser = string -> Option<Json>
}
