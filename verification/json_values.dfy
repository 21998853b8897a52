/** The JSON values a field decoder is handed, and the decode errors it can raise.
    Parsing JSON text into these values is not modelled. */
module JsonValues {

  datatype JsonValue =
    | Null
    | Bool(b: bool)
    | Number(literal: string)
    | Str(text: string)
    | Array(items: seq<JsonValue>)
    | Object(members: seq<(string, JsonValue)>)

  /** A decode failure: a message raised by a custom decoder, a value of the wrong
      JSON type (with the decoder's description of what it expected), or malformed
      input reported by the JSON reader. */
  datatype JsonError =
    | Custom(message: string)
    | InvalidType(expected: string)
    | Syntax(message: string)
}
