/**
 * The JavaScript values the cache module inspects, JavaScript truthiness,
 * the (err, result) shape of a completion, and the JSON codec, which is
 * abstract: a partial pair of functions supplied by the caller.
 */
module JsValues {

  datatype Option<+T> = None | Some(value: T)

  /** A JavaScript value as far as the cache module looks into it.
      Numbers are integers: NaN, -0 and fractions are not modelled. */
  datatype Value =
    | Undefined
    | Null
    | Bool(b: bool)
    | Num(n: int)
    | Str(s: string)
    | Arr(items: seq<Value>)
    | Obj(props: map<string, Value>)

  /** JavaScript truthiness: undefined, null, false, 0 and "" are falsy;
      every array and every object is truthy. */
  predicate Truthy(v: Value) {
    match v
    case Undefined => false
    case Null => false
    case Bool(b) => b
    case Num(n) => n != 0
    case Str(s) => s != ""
    case Arr(_) => true
    case Obj(_) => true
  }

  /** `o.name` on an object: a property it does not have reads as undefined. */
  function Prop(o: Value, name: string): Value
    requires o.Obj?
  {
    if name in o.props then o.props[name] else Undefined
  }

  /** What a client operation or a caller's callback reports: a falsy
      error (`Success`) or an error carrying its message. */
  datatype Reply = Success | Failure(message: string)

  /** JSON.stringify and JSON.parse. `None` means the call threw. */
  datatype Json = Json(stringify: Value -> Option<Value>, parse: Value -> Option<Value>)

  /** The value after `try { v = JSON.stringify(v) } catch { }`: the raw
      value is kept when encoding throws. */
  function Stringified(json: Json, v: Value): Value
  {
    match json.stringify(v)
    case Some(t) => t
    case None => v
  }

  /** The value after `try { v = JSON.parse(v) } catch { }`: the raw value
      is kept when decoding throws. */
  function Parsed(json: Json, v: Value): Value
  {
    match json.parse(v)
    case Some(t) => t
    case None => v
  }
}
