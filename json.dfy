/**
 * Decoded JSON / YAML data as the program sees it after `json.loads` or
 * `yaml.safe_load`: Python `None`, `bool`, `int`, `float`, `str`, `list`
 * and insertion-ordered `dict` with string keys.
 */
module Json {
  import opened Wrappers
  import opened Strings
  import OrderedMap

  datatype Value =
    | Null
    | Bool(b: bool)
    | Int(i: int)
    | Float(r: real)
    | Str(s: string)
    | Arr(items: seq<Value>)
    | Obj(fields: OrderedMap.Dict<string, Value>)

  /** Python truthiness (`if value:`). */
  predicate Truthy(v: Value) {
    match v
    case Null => false
    case Bool(b) => b
    case Int(i) => i != 0
    case Float(r) => r != 0.0
    case Str(s) => s != []
    case Arr(items) => items != []
    case Obj(fields) => fields != []
  }

  const EmptyObj: Value := Obj([])

  /** Python's name for the type of a value. */
  function PyType(v: Value): string {
    match v
    case Null => "NoneType"
    case Bool(_) => "bool"
    case Int(_) => "int"
    case Float(_) => "float"
    case Str(_) => "str"
    case Arr(_) => "list"
    case Obj(_) => "dict"
  }

  /** `value.get(k)` on a dict; `None` when `value` is not a dict or lacks `k`. */
  function Field(v: Value, k: string): (r: Option<Value>)
    ensures r.Some? ==> v.Obj? && OrderedMap.HasKey(v.fields, k)
  {
    if v.Obj? then OrderedMap.Get(v.fields, k) else None
  }

  /** `value.get(k, d)` on a dict. */
  function FieldOr(v: Value, k: string, d: Value): Value {
    Field(v, k).GetOr(d)
  }

  /** `value.get(k, d)` read as a string: a value of another type counts as missing. */
  function StrFieldOr(v: Value, k: string, d: string): string {
    match Field(v, k)
    case Some(Str(s)) => s
    case _ => d
  }

  /** `value.get(k, d)` read as an integer: a value of another type counts as missing. */
  function IntFieldOr(v: Value, k: string, d: int): int {
    match Field(v, k)
    case Some(Int(i)) => i
    case _ => d
  }

  /**
   * `str(value)` for the scalar values; the text Python gives a float, a list
   * or a dict is not modelled and reads as `...`.
   */
  function Show(v: Value): string {
    match v
    case Null => "None"
    case Bool(b) => if b then "True" else "False"
    case Int(i) => IntToString(i)
    case Str(s) => s
    case _ => "..."
  }
}
