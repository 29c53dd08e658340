/** The JavaScript values that reach the form handler: the fields of a parsed
    request body (JSON or url-encoded) and the parsed reply of the bot-check
    service. */
module JsValues {

  /** A JSON-shaped JavaScript value, plus `undefined` for a missing field. */
  datatype JsValue =
    | Undefined
    | Null
    | Bool(b: bool)
    | Num(x: real)
    | Str(s: string)
    | Arr(items: seq<JsValue>)
    | Obj(fields: map<string, JsValue>)

  /** The error a property read on `null` or `undefined` throws. */
  datatype Thrown = TypeError

  datatype Result<T> = Ok(value: T) | Err(error: Thrown)

  /** JavaScript truthiness: `!v` is true exactly for the falsy values,
      which among these values are `undefined`, `null`, `false`, `0` and
      the empty string. */
  predicate Truthy(v: JsValue)
    ensures !Truthy(v) <==> v in {Undefined, Null, Bool(false), Num(0.0), Str("")}
  {
    match v
    case Undefined => false
    case Null => false
    case Bool(b) => b
    case Num(x) => x != 0.0
    case Str(s) => s != []
    case Arr(_) => true
    case Obj(_) => true
  }

  /** The property read `v.key` for a key that names no built-in property:
      a TypeError on `null`/`undefined`, the field of an object when it has
      one, and `undefined` otherwise. The own properties of strings and
      arrays (`length`, indices) are not modelled; the handler reads only
      `success`, which neither has. */
  function Member(v: JsValue, key: string): (r: Result<JsValue>)
    ensures r.Err? <==> v.Undefined? || v.Null?
    ensures r.Ok? && v.Obj? && key in v.fields ==> r.value == v.fields[key]
    ensures r.Ok? && !(v.Obj? && key in v.fields) ==> r.value == Undefined
  {
    match v
    case Undefined => Err(TypeError)
    case Null => Err(TypeError)
    case Obj(f) => if key in f then Ok(f[key]) else Ok(Undefined)
    case _ => Ok(Undefined)
  }

  /** Whether the string conversion `${v}` throws. For an object it calls
      `toString`, then `valueOf`. A parsed object with an own `toString`
      field holds a value that is not callable, and the inherited `valueOf`
      returns the object itself, so the conversion throws a TypeError. An
      array is converted by `join`, which converts each item, so it throws
      exactly when one of its items does. Strings, numbers, booleans,
      `null` and `undefined` always convert. */
  predicate ToStringThrows(v: JsValue)
    ensures ToStringThrows(v) ==> v.Obj? || v.Arr?
    decreases v
  {
    match v
    case Obj(f) => "toString" in f
    case Arr(items) => exists x :: x in items && ToStringThrows(x)
    case _ => false
  }
}
