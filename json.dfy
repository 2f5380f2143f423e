/** JSON-like values as the dataset's parsed records hold them. */
module Json {

  /** A parsed JSON value. Numbers are kept as integers: the model never
      computes with them, it only carries them through unchanged. */
  datatype Value =
    | Null
    | Bool(b: bool)
    | Number(n: int)
    | Str(s: string)
    | Array(elems: seq<Value>)
    | Object(members: map<string, Value>)

  /** The value stored under one key of a JSON object, or its absence. */
  datatype Field = Absent | Present(value: Value)

  /** Python's `dict.get(key)`: an absent key reads as `None`, which is also
      what a JSON `null` parses to, so the two cannot be told apart afterwards. */
  function Get(f: Field): Value {
    match f
    case Absent => Null
    case Present(x) => x
  }

  /** Python's `isinstance(x, str)` on a looked-up field. */
  predicate IsString(f: Field) {
    Get(f).Str?
  }
}
