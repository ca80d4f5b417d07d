/**
 * Values produced by Python's `json.loads` and the few dynamic operations the core
 * applies to them: `dict.get`, truthiness, `len`, `isinstance(x, (int, float))`.
 */
module Json {
  import opened Wrappers

  /** A parsed JSON value. JSON integers and JSON floats stay apart, as they do in Python. */
  datatype Json =
    | JNull
    | JBool(b: bool)
    | JInt(i: int)
    | JFloat(f: real)
    | JStr(s: string)
    | JArray(items: seq<Json>)
    | JObject(fields: map<string, Json>)

  /** Python's `d.get(key, default)`. */
  function GetOr(d: map<string, Json>, key: string, default: Json): Json {
    if key in d then d[key] else default
  }

  /** Python's `bool(x)`. */
  predicate Truthy(j: Json) {
    match j
    case JNull => false
    case JBool(b) => b
    case JInt(i) => i != 0
    case JFloat(f) => f != 0.0
    case JStr(s) => s != []
    case JArray(xs) => xs != []
    case JObject(m) => m != map[]
  }

  /** Python's `type(x).__name__`. */
  function TypeName(j: Json): string {
    match j
    case JNull => "NoneType"
    case JBool(_) => "bool"
    case JInt(_) => "int"
    case JFloat(_) => "float"
    case JStr(_) => "str"
    case JArray(_) => "list"
    case JObject(_) => "dict"
  }

  /** Python's `len(x)`; `None` where `len` raises `TypeError`. */
  function Len(j: Json): Option<nat> {
    match j
    case JStr(s) => Some(|s|)
    case JArray(xs) => Some(|xs|)
    case JObject(m) => Some(|m|)
    case _ => None
  }

  /** `isinstance(x, int)`; in Python a `bool` is an `int`. */
  predicate IsInt(j: Json) {
    j.JInt? || j.JBool?
  }

  function IntValue(j: Json): int
    requires IsInt(j)
  {
    match j
    case JInt(i) => i
    case JBool(b) => if b then 1 else 0
  }

  /** `float(x)` when `isinstance(x, (int, float))`, and `None` otherwise. */
  function AsNumber(j: Json): Option<real> {
    match j
    case JInt(i) => Some(i as real)
    case JBool(b) => Some(if b then 1.0 else 0.0)
    case JFloat(f) => Some(f)
    case _ => None
  }
}
