/** Values shared by every component: an Option type, and the JSON-like documents that the
    credential store keeps and the identity authority returns (Python dicts and lists). */
module Values {

  datatype Option<+T> = None | Some(value: T)

  /** Whether a call ran to its end or raised to its caller (for code that catches nothing). */
  datatype Status = Completed | Raised

  /** The answer of a call that returns a value or raises. */
  datatype Outcome<T> = Returned(value: T) | RaisedError

  /** A JSON document as the Python code handles it. Numbers are integers here: the clock of
      this model counts whole seconds. */
  datatype Value =
    | Null
    | Int(i: int)
    | Str(s: string)
    | Dict(fields: map<string, Value>)
    | List(items: seq<Value>)

  type Dict = map<string, Value>

  /** `d.get(k)`: the value under `k`, or None (Null) when the key is missing. */
  function Get(d: Dict, k: string): (v: Value)
    ensures k !in d ==> v == Null
    ensures k in d ==> v == d[k]
  {
    if k in d then d[k] else Null
  }

  /** Python truthiness of a JSON value: None, 0, "" and empty containers are false. */
  predicate Truthy(v: Value) {
    match v
    case Null => false
    case Int(i) => i != 0
    case Str(s) => s != ""
    case Dict(m) => m != map[]
    case List(xs) => xs != []
  }

  /** `d.get(k)` on a dict of strings, followed by Python's `if not x` test: the value only when
      it is present and non-empty. */
  function NonEmptyField(d: map<string, string>, k: string): (r: Option<string>)
    ensures r.Some? <==> k in d && d[k] != ""
    ensures r.Some? ==> r.value == d[k]
  {
    if k in d && d[k] != "" then Some(d[k]) else None
  }
}
