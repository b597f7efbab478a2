/**
 * Values as the Python programs of the early-warning system see them:
 * optional results, raised exceptions, dictionary entries that may be
 * missing or hold None, and pandas cells that may be NaN.
 */
module Py {
  datatype Option<T> = None | Some(value: T)

  /** The result of a computation that may raise; `Err` names the exception class. */
  datatype Result<T> = Ok(value: T) | Err(error: string)

  /**
   * One key of a dictionary (a Supabase row, a request body):
   * the key is missing, the key holds None (JSON null), or it holds a value.
   * `d.get(k, default)` and `d.get(k) or default` differ exactly on `Null`.
   */
  datatype Field<T> = Absent | Null | Val(v: T)

  /** `d.get(k, default)`: the default only when the key is missing. */
  function Get<T>(f: Field<T>, default: T): (r: Option<T>)
    ensures f.Absent? ==> r == Some(default)
    ensures f.Null? ==> r == None
    ensures f.Val? ==> r == Some(f.v)
  {
    match f
    case Absent => Some(default)
    case Null => None
    case Val(v) => Some(v)
  }

  /** `d.get(k)`: None both when the key is missing and when it holds None. */
  function GetOpt<T>(f: Field<T>): Option<T> {
    if f.Val? then Some(f.v) else None
  }

  /** Python truthiness of an optional string (None and "" are falsy). */
  predicate TruthyStr(s: Option<string>) {
    s.Some? && s.value != ""
  }

  /** `d.get(k) or ""` for a text field. */
  function StrOrEmpty(f: Field<string>): (r: string)
    ensures f.Val? && f.v != "" ==> r == f.v
    ensures !(f.Val? && f.v != "") ==> r == ""
  {
    if f.Val? then f.v else ""
  }

  /** Python truthiness of a boolean field read with `d.get(k, False)`. */
  predicate TruthyBool(f: Field<bool>) {
    f.Val? && f.v
  }

  /**
   * A pandas cell: NaN (an empty CSV/Excel cell or a missing column read
   * with `.get`), a string, an integer, or a float with the text Python's
   * `str()` gives it.
   */
  datatype Cell = NaN | Str(s: string) | Int(i: int) | Float(x: real, repr: string)

  /**
   * A Python value of a request or a dictionary entry whose type the code
   * inspects: None, a bool, an int, a float (with the text `str()` gives it),
   * a str, or anything else (a list, a dict), with its truthiness and text.
   */
  datatype Value =
    | VNone
    | VBool(b: bool)
    | VInt(i: int)
    | VFloat(x: real, repr: string)
    | VStr(s: string)
    | VOther(truthy: bool, repr: string)

  /** Python truthiness. */
  predicate Truthy(v: Value) {
    match v
    case VNone => false
    case VBool(b) => b
    case VInt(i) => i != 0
    case VFloat(x, _) => x != 0.0
    case VStr(s) => s != ""
    case VOther(t, _) => t
  }

  /** `int(x)` for a float: truncation toward zero. */
  function TruncToInt(x: real): (r: int)
    ensures x >= 0.0 ==> r as real <= x < r as real + 1.0
    ensures x < 0.0 ==> r as real - 1.0 < x <= r as real
  {
    if x >= 0.0 then x.Floor else -((-x).Floor)
  }
}
