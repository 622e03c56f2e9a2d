/** The JSON values that the scanning tools emit, as Python sees them after
    `json.loads`, and the two dictionary accessors the normaliser uses. */
module Json {
  import opened Wrappers

  datatype Value =
    | Null
    | Bool(b: bool)
    | Int(i: int)
    | Float(f: real)
    | Str(s: string)
    | Array(items: seq<Value>)
    | Object(fields: map<string, Value>)

  /** A decoded JSON object, i.e. a Python `dict` with string keys. */
  type Dict = map<string, Value>

  /** Python's `d.get(key, default)`: a present key wins even when it holds null. */
  function Get(d: Dict, key: string, default: Value): Value
  {
    if key in d then d[key] else default
  }

  /** The Python class name of a decoded JSON value. */
  function TypeName(v: Value): string
  {
    match v
    case Null => "NoneType"
    case Bool(_) => "bool"
    case Int(_) => "int"
    case Float(_) => "float"
    case Str(_) => "str"
    case Array(_) => "list"
    case Object(_) => "dict"
  }

  /** The text of the AttributeError raised by calling `.get` on a non-dict. */
  function NoGetMessage(v: Value): string
  {
    "'" + TypeName(v) + "' object has no attribute 'get'"
  }

  /** `d.get(outer, {})` can be followed by `.get(...)`: the key is absent or holds a dict. */
  predicate Gettable(d: Dict, outer: string)
  {
    outer !in d || d[outer].Object?
  }

  /** Python's `d.get(outer, {}).get(key, default)`, which raises when the
      outer value is present but is not a dict. */
  function GetNested(d: Dict, outer: string, key: string, default: Value): (r: Result<Value, string>)
    ensures r.Ok? <==> Gettable(d, outer)
    ensures outer !in d ==> r == Ok(default)
    ensures outer in d && d[outer].Object? ==> r == Ok(Get(d[outer].fields, key, default))
    ensures !Gettable(d, outer) ==> r == Err(NoGetMessage(d[outer]))
  {
    if outer !in d then Ok(default)
    else match d[outer]
      case Object(inner) => Ok(Get(inner, key, default))
      case other => Err(NoGetMessage(other))
  }
}
