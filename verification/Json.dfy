/** JSON values and records. */
module Json {
  type Record = map<string, Value>

  /** A JSON number is an integer that fits 64 bits (signed or unsigned) or a floating-point number. */
  datatype Number = Integer(i: int) | Float(r: real)

  datatype Value =
    | Null
    | Bool(b: bool)
    | Num(n: Number)
    | Str(s: string)
    | Array(elements: seq<Value>)
    | Object(fields: map<string, Value>)

  /** The string under a field, or "" when the field is missing or is not a string. */
  function StringField(record: Record, field: string): string {
    if field in record && record[field].Str? then record[field].s else ""
  }

  /** A string under the field, and not the empty one. */
  predicate HasText(record: Record, field: string) {
    field in record && record[field].Str? && record[field].s != ""
  }
}
