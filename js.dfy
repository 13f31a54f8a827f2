/**
 * JavaScript values as the routes and pages see them (parsed JSON plus
 * `undefined`), the coercions they rely on (truthiness, `typeof`, `String`,
 * `Number`, `??`, `||`, `in`) and the library routines the model leaves
 * abstract.
 */
module Js {
  import opened Text

  datatype Option<+T> = None | Some(value: T)

  datatype Result<+T, +E> = Ok(value: T) | Err(error: E)

  newtype byte = b: int | 0 <= b < 256

  datatype Value =
    | Undefined
    | Null
    | Bool(b: bool)
    | Num(n: real)
    | Str(s: string)
    | Arr(items: seq<Value>)
    | Obj(props: map<string, Value>)

  /**
   * A JavaScript number as `Number(...)` may give it. `Value.Num` holds a
   * finite number only: `JSON.parse` reads an out-of-range literal such as
   * `1e400` as Infinity, which a `Value` cannot represent.
   */
  datatype Number = Finite(r: real) | NaN | Infinite(negative: bool)

  /** The parts of `new URL(href)` the pages look at. */
  datatype UrlParts = UrlParts(protocol: string, hostname: string)

  /**
   * Library routines whose algorithms are outside the model, passed in as
   * functions: `JSON.parse` (None when it throws), `JSON.stringify`,
   * `String(number)`, `Number(string)`, base64url and base64 decoding,
   * base64 to UTF-8 text, `decodeURIComponent` and `encodeURIComponent`
   * (None when they throw), `new URL` (None when it throws) and
   * `String.prototype.localeCompare`.
   */
  datatype Lib = Lib(
    parse: string -> Option<Value>,
    stringify: Value -> string,
    numberToString: real -> string,
    stringToNumber: string -> Number,
    base64UrlDecode: string -> Option<seq<byte>>,
    base64Decode: string -> seq<byte>,
    base64ToUtf8: string -> string,
    decodeUriComponent: string -> Option<string>,
    encodeUriComponent: string -> Option<string>,
    parseUrl: string -> Option<UrlParts>,
    localeCompare: (string, string) -> int
  )

  /** What ECMAScript fixes about those routines and the model relies on. */
  ghost predicate Lawful(lib: Lib)
  {
    && (forall s :: lib.parse(s) != Some(Undefined))
    && lib.parse("") == None
    && lib.stringToNumber("") == Finite(0.0)
  }

  predicate Truthy(v: Value)
  {
    match v
    case Undefined => false
    case Null => false
    case Bool(b) => b
    case Num(n) => n != 0.0
    case Str(s) => s != ""
    case Arr(_) => true
    case Obj(_) => true
  }

  /** `typeof v === "object"` (true of `null` too). */
  predicate TypeofObject(v: Value)
  {
    v.Null? || v.Arr? || v.Obj?
  }

  /** `v && typeof v === "object"` */
  predicate IsObject(v: Value)
  {
    v.Arr? || v.Obj?
  }

  /** `v == null` */
  predicate Nullish(v: Value)
  {
    v.Undefined? || v.Null?
  }

  /** `v?.[key]`: own properties of an object; `undefined` for everything else. */
  function Get(v: Value, key: string): Value
  {
    if v.Obj? && key in v.props then v.props[key] else Undefined
  }

  /** `key in v`, which throws (None) when `v` is not an object. */
  function HasKey(v: Value, key: string): Option<bool>
  {
    match v
    case Obj(props) => Some(key in props)
    case Arr(_) => Some(false)
    case _ => None
  }

  /** `a ?? b` */
  function Coalesce(a: Value, b: Value): (r: Value)
    ensures Nullish(r) ==> Nullish(b)
  {
    if Nullish(a) then b else a
  }

  /** `a || b` */
  function Or(a: Value, b: Value): (r: Value)
    ensures Truthy(r) <==> Truthy(a) || Truthy(b)
  {
    if Truthy(a) then a else b
  }

  /** `typeof v === "string" ? v.trim() : ""` */
  function AsStr(v: Value): (r: string)
    ensures IsTrimmed(r)
    ensures v.Str? ==> r == Trim(v.s)
  {
    if v.Str? then Trim(v.s) else ""
  }

  /** `v && typeof v === "object" ? v : {}` */
  function SafeObj(v: Value): (r: Value)
    ensures IsObject(r)
    ensures IsObject(v) ==> r == v
  {
    if IsObject(v) then v else Obj(map[])
  }

  /** `try { return JSON.parse(s) } catch { return null }` */
  function ParseOrNull(lib: Lib, s: string): Value
  {
    match lib.parse(s)
    case Some(v) => v
    case None => Null
  }

  function NumberToString(lib: Lib, n: Number): string
  {
    match n
    case Finite(r) => lib.numberToString(r)
    case NaN => "NaN"
    case Infinite(neg) => if neg then "-Infinity" else "Infinity"
  }

  /** `String(v)` */
  function JsString(lib: Lib, v: Value): (r: string)
    ensures v.Str? ==> r == v.s
  {
    match v
    case Undefined => "undefined"
    case Null => "null"
    case Bool(b) => if b then "true" else "false"
    case Num(n) => lib.numberToString(n)
    case Str(s) => s
    case Obj(_) => "[object Object]"
    case Arr(items) =>
      Join(seq(|items|, i requires 0 <= i < |items| =>
        if Nullish(items[i]) then "" else JsString(lib, items[i])), ",")
  }

  /** `Number(v)` */
  function ToNumber(lib: Lib, v: Value): (r: Number)
    ensures v.Num? ==> r == Finite(v.n)
  {
    match v
    case Undefined => NaN
    case Null => Finite(0.0)
    case Bool(b) => Finite(if b then 1.0 else 0.0)
    case Num(n) => Finite(n)
    case Str(s) => lib.stringToNumber(s)
    case Arr(_) => lib.stringToNumber(JsString(lib, v))
    case Obj(_) => NaN
  }

  /** `Math.trunc` on a finite number. */
  function Truncate(r: real): (i: int)
    ensures r >= 0.0 ==> i as real <= r < i as real + 1.0
    ensures r < 0.0 ==> i as real - 1.0 < r <= i as real
  {
    if r >= 0.0 then r.Floor else -((-r).Floor)
  }

  /** `Math.floor` */
  function Floor(r: real): (i: int)
    ensures i as real <= r < i as real + 1.0
  {
    r.Floor
  }

  /** `Math.ceil(a / b)` for integers, `b` positive. */
  function CeilDiv(a: int, b: int): (q: int)
    requires b > 0
    ensures (q - 1) * b < a <= q * b
  {
    -((-a) / b)
  }
}
