/** JavaScript values as the request handlers and models see them: the values
    that arrive in `req.params`, `req.query` and `req.body`, the rows returned
    by the database driver, and the objects a promise is rejected with. */
module Js {

  /** A JavaScript value. Numbers are modelled as reals; NaN and the
      infinities are not represented. */
  datatype JsValue =
    | Undefined
    | Null
    | Bool(b: bool)
    | Num(n: real)
    | Str(s: string)
    | Arr(elems: seq<JsValue>)
    | Obj(props: map<string, JsValue>)

  /** The own properties of a plain object. A key that is absent reads as
      `undefined`. */
  type Props = map<string, JsValue>

  /** Property access `o.key` (and object destructuring `const { key } = o`). */
  function Get(o: Props, key: string): (v: JsValue)
    ensures key !in o ==> v == Undefined
    ensures key in o ==> v == o[key]
  {
    if key in o then o[key] else Undefined
  }

  /** JavaScript truthiness, as used by `if (x)`, `!x` and `a && b`:
      `undefined`, `null`, `false`, `0` and `''` are falsy, all else truthy
      (arrays and objects included, even empty ones). */
  predicate Truthy(v: JsValue)
  {
    match v
    case Undefined => false
    case Null => false
    case Bool(b) => b
    case Num(n) => n != 0.0
    case Str(s) => s != ""
    case Arr(_) => true
    case Obj(_) => true
  }

  /** `list.includes(v)` for an array literal of strings: SameValueZero
      comparison, so only a string equal character for character matches. */
  predicate Includes(list: seq<string>, v: JsValue)
  {
    v.Str? && v.s in list
  }

  /** A default parameter `p = d`: the default applies only when the argument
      is `undefined` (not for `null`, `''` or any other falsy value). */
  function WithDefault(v: JsValue, d: JsValue): (r: JsValue)
    ensures v != Undefined ==> r == v
    ensures v == Undefined ==> r == d
  {
    if v.Undefined? then d else v
  }

  datatype Option<T> = None | Some(value: T)

  /** How a promise settles: resolved with a value, or rejected with an
      error object. */
  datatype Outcome = Resolved(value: JsValue) | Rejected(reason: Props)

  /** The application error objects `{ status, msg }` that the models reject
      with. */
  function AppError(status: real, msg: string): (e: Props)
    ensures Get(e, "status") == Num(status) && Get(e, "msg") == Str(msg)
    ensures e.Keys == {"status", "msg"}
  {
    map["status" := Num(status), "msg" := Str(msg)]
  }
}
