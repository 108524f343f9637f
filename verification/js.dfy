/** The JavaScript values the worker inspects: values produced by JSON.parse,
    plus `undefined` for a property that is not there. */
module Js {
  import opened Wrappers

  datatype JsValue =
    | Undefined
    | Null
    | Bool(b: bool)
    | Num(n: real)
    | Str(s: string)
    | Arr(items: seq<JsValue>)
    | Obj(fields: map<string, JsValue>)

  /** JavaScript truthiness, as used by `!x`: undefined, null, false, 0 and
      the empty string are falsy; every array and every object is truthy. */
  predicate Truthy(v: JsValue)
  {
    match v
    case Undefined => false
    case Null => false
    case Bool(b) => b
    case Num(n) => n != 0.0
    case Str(s) => s != ""
    case Arr(_) => true
    case Obj(_) => true
  }

  /** `typeof v === 'number'`. */
  predicate IsNumber(v: JsValue)
  {
    v.Num?
  }

  /** Reading the property `name` of `v` (`v.name`, or destructuring
      `const { name } = v`). Reading a property of null or undefined throws a
      TypeError, modelled as None. The values read come from JSON.parse or
      request.json(), whose prototypes are those of Object, Array, String,
      Number and Boolean; none of these defines the names the worker reads,
      so a primitive or an array yields undefined, and an object yields its
      own field or undefined. */
  function Get(v: JsValue, name: string): (r: Option<JsValue>)
    ensures r.None? <==> (v.Null? || v.Undefined?)
    ensures r.Some? && r.value != Undefined ==> v.Obj? && name in v.fields && v.fields[name] == r.value
    ensures v.Obj? && name in v.fields ==> r == Some(v.fields[name])
    ensures v.Obj? && name !in v.fields ==> r == Some(Undefined)
  {
    match v
    case Undefined => None
    case Null => None
    case Obj(fields) => Some(if name in fields then fields[name] else Undefined)
    case _ => Some(Undefined)
  }
}
