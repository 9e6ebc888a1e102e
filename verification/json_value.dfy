/** JSON documents as Python's `json` module produces them: compared by deep equality. */
module JsonValue {

  /** A decoded JSON value. Objects are unordered, as Python dictionaries compare. */
  datatype Json =
    | JNull
    | JBool(b: bool)
    | JNum(n: real)
    | JStr(str: string)
    | JArr(items: seq<Json>)
    | JObj(fields: map<string, Json>)
}
