/**
 * The JavaScript values that `JSON.parse` can produce, and the few pieces of
 * JavaScript semantics the bridge and the dashboard rely on: `undefined` for a
 * missing property, `typeof`, truthiness and `Number.isInteger`.
 */
module JsValue {

  /** `None` stands for `undefined` (or for "the call threw", where said so). */
  datatype Option<+T> = None | Some(value: T)

  /**
   * A decoded JSON value.  Numbers are exact reals: IEEE rounding, `-0`,
   * `NaN` and the `Infinity` an overflowing literal decodes to are not modelled.
   */
  datatype JsVal =
    | Num(n: real)
    | Str(s: string)
    | Bool(b: bool)
    | Null
    | Arr(items: seq<JsVal>)
    | Obj(props: map<string, JsVal>)

  /** A decoded JSON object; a key missing from the map reads as `undefined`. */
  type Record = map<string, JsVal>

  /** `r[key]`, with `None` for `undefined`. */
  function Get(r: Record, key: string): (v: Option<JsVal>)
    ensures v.Some? <==> key in r
    ensures v.Some? ==> v.value == r[key]
  {
    if key in r then Some(r[key]) else None
  }

  /** JavaScript truthiness of a value that is not `undefined`. */
  predicate Truthy(v: JsVal) {
    match v
    case Num(n) => n != 0.0
    case Str(s) => s != ""
    case Bool(b) => b
    case Null => false
    case Arr(_) => true
    case Obj(_) => true
  }

  /** `Number.isInteger(n)` for a finite number. */
  predicate IsInteger(n: real) {
    n.Floor as real == n
  }

  /**
   * The properties of `v` as seen by `v.key` for the payload keys read in this
   * model (`temp`, `status`, `counter`, `humidity`, `machine_id`): only an
   * object has them; on any other non-null value each of them is `undefined`.
   */
  function Props(v: JsVal): Record {
    if v.Obj? then v.props else map[]
  }
}
