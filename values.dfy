/** The decoded JSON payloads the nutrition code reads (USDA and OpenFoodFacts records)
    and Python's str() of them. */
module Values {
  import opened PyCore

  /** A decoded JSON value.  Objects are keyed by strings. */
  datatype Value =
    | Null
    | Num(x: real)
    | Str(s: string)
    | List(items: seq<Value>)
    | Dict(fields: map<string, Value>)

  /** A Python dict of decoded values.  None of the modelled operations observes the
      order of its keys: they look keys up by name or walk a fixed key list. */
  type Record = map<string, Value>

  /** type(v).__name__, as Python names it in its error messages. */
  function TypeName(v: Value): string
  {
    match v
    case Null => "NoneType"
    case Num(_) => "float"
    case Str(_) => "str"
    case List(_) => "list"
    case Dict(_) => "dict"
  }

  /** d.get(key, default) */
  function Get(d: Record, key: string, default: Value): Value
  {
    if key in d then d[key] else default
  }

  /** str(v) and f"{v}": a string is itself and None is "None"; numbers, lists and dicts
      are rendered by `repr`, which stands for Python's float and container formatting. */
  function Show(v: Value, repr: Value -> string): string
  {
    match v
    case Null => "None"
    case Str(s) => s
    case _ => repr(v)
  }
}
