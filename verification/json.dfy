/**
  The Python value that `json.loads` produces for a request body, and the bits of
  Python's object model the request handlers and services rely on: truthiness
  (`not x`), type names (which appear in error messages) and `dict.get`.
 */
module Json {

  /**
    A decoded JSON value as Python sees it. JSON numbers without a fraction or
    exponent decode to `int`, the others to `float`.
   */
  datatype Value =
    | Null
    | Bool(b: bool)
    | Int(i: int)
    | Float(f: real)
    | Str(s: string)
    | Arr(items: seq<Value>)
    | Obj(fields: map<string, Value>)

  /** Python's `bool(v)`: `None`, `False`, zero, and empty strings, lists and dicts are false. */
  predicate Truthy(v: Value) {
    match v
    case Null => false
    case Bool(b) => b
    case Int(i) => i != 0
    case Float(f) => f != 0.0
    case Str(s) => s != ""
    case Arr(items) => items != []
    case Obj(fields) => fields != map[]
  }

  /** The Python class name of the value, as `type(v).__name__` reports it. */
  function TypeName(v: Value): string {
    match v
    case Null => "NoneType"
    case Bool(_) => "bool"
    case Int(_) => "int"
    case Float(_) => "float"
    case Str(_) => "str"
    case Arr(_) => "list"
    case Obj(_) => "dict"
  }

  /** Python's `d.get(key, default)` on a dict. */
  function Get(fields: map<string, Value>, key: string, default: Value): (v: Value)
    ensures key in fields ==> v == fields[key]
    ensures key !in fields ==> v == default
  {
    if key in fields then fields[key] else default
  }

  /** The message of the `AttributeError` Python raises when `v` has no attribute `name`. */
  function NoAttribute(v: Value, name: string): string {
    "'" + TypeName(v) + "' object has no attribute '" + name + "'"
  }
}
