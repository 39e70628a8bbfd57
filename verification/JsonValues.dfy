/** Parsed JSON, as the settings and the socket messages carry it. */
module JsonValues {
  /** A JSON value. Numbers that are not integers are kept apart, with nothing said of them. */
  datatype Json =
    | Null
    | Bool(b: bool)
    | Int(n: int)
    | Fraction
    | Str(s: string)
    | Arr(items: seq<Json>)
    | Obj(fields: map<string, Json>)

  function Member(j: Json, name: string): Json {
    if j.Obj? && name in j.fields then j.fields[name] else Null
  }
}
