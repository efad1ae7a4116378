/**
 * JSON values as `json.load` returns them (floats are not modelled), Python
 * truthiness, `dict.get`, and `str()` of a value.
 */
module Json {
  import opened Text

  datatype Value = Null | Bool(b: bool) | Num(n: int) | Str(s: string) | Arr(items: seq<Value>)

  /** A JSON object, or one row of a table: string keys to values. */
  type Record = map<string, Value>

  /** `bool(v)` in Python. */
  predicate Truthy(v: Value) {
    match v
    case Null => false
    case Bool(b) => b
    case Num(n) => n != 0
    case Str(s) => s != []
    case Arr(xs) => xs != []
  }

  /** `d.get(k, default)`. */
  function GetOr(d: Record, k: string, default: Value): Value {
    if k in d then d[k] else default
  }

  /** `d.get(k)`: `None` when the key is absent. */
  function Get(d: Record, k: string): Value {
    GetOr(d, k, Null)
  }

  /** `str(v)`; a list prints the `repr` of its items. */
  function Show(v: Value): string
    decreases v, 2
  {
    match v
    case Null => "None"
    case Bool(b) => if b then "True" else "False"
    case Num(n) => IntText(n)
    case Str(s) => s
    case Arr(xs) => "[" + ReprItems(xs) + "]"
  }

  /** The items' `repr`s joined by ", ". */
  function ReprItems(xs: seq<Value>): (r: string)
    decreases xs, 1
  {
    if xs == [] then ""
    else if |xs| == 1 then Repr(xs[0])
    else Repr(xs[0]) + ", " + ReprItems(xs[1..])
  }

  /** `repr(v)`: strings are quoted (escape sequences are not modelled). */
  function Repr(v: Value): string
    decreases v, 3
  {
    match v
    case Str(s) => if '\'' in s && '"' !in s then "\"" + s + "\"" else "'" + s + "'"
    case _ => Show(v)
  }
}
