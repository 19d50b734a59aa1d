/** JSON values as the catalog and schema code sees them. A missing key is the source's `undefined`. */
module Json {
  datatype Value = Null | Bool(b: bool) | Number(n: real) | Text(s: string)
                 | List(items: seq<Value>) | Record(fields: map<string, Value>)

  const MAX_SAFE_INTEGER := 9007199254740991

  predicate IsSafeInteger(n: real) {
    n == n.Floor as real && -MAX_SAFE_INTEGER <= n.Floor <= MAX_SAFE_INTEGER
  }

  /** `value == null`: absent or null. */
  predicate Missing(fields: map<string, Value>, key: string) {
    key !in fields || fields[key] == Null
  }
}
