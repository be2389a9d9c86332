/** The JSON values the data feeds deliver, as the source reads them with
    `dict.get`: a missing key reads as `None`. */
module Json {

  datatype Value = Null | Text(text: string) | Number(number: real)

  /** A JSON object. */
  type Record = map<string, Value>

  /** `record.get(key)`: the value under the key, `None` when absent. */
  function Get(r: Record, key: string): (v: Value)
    ensures key in r ==> v == r[key]
    ensures key !in r ==> v == Null
  {
    if key in r then r[key] else Null
  }

  /** Python truthiness: `None`, the empty string and zero are false. */
  predicate Truthy(v: Value) {
    match v
    case Null => false
    case Text(s) => s != ""
    case Number(x) => x != 0.0
  }
}
