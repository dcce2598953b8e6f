/** JavaScript values as the offline layer sees them: the payloads the backend
    produces, the order bodies the UI captures, and the truthiness tests the
    code applies to them (`x || fallback`, `if (x)`). */
module JsValues {

  datatype Option<T> = None | Some(value: T)

  /** A JSON-like JavaScript value. Numbers are reals; NaN is not modelled. */
  datatype Json =
    | Undefined
    | Null
    | Bool(b: bool)
    | Num(n: real)
    | Str(s: string)
    | Arr(elems: seq<Json>)
    | Obj(fields: map<string, Json>)

  /** JavaScript truthiness: undefined, null, false, 0 and "" are falsy;
      every array and every object, even an empty one, is truthy. */
  predicate Truthy(v: Json) {
    match v
    case Undefined => false
    case Null => false
    case Bool(b) => b
    case Num(n) => n != 0.0
    case Str(s) => s != ""
    case Arr(_) => true
    case Obj(_) => true
  }

  /** Property access `obj.f` on an object given by its fields: a missing
      property reads as undefined. */
  function Field(obj: map<string, Json>, f: string): (v: Json)
    ensures f !in obj ==> v == Undefined
    ensures f in obj ==> v == obj[f]
  {
    if f in obj then obj[f] else Undefined
  }

  /** `x || fallback`: the first operand when it is truthy, else the second. */
  function OrElse(x: Json, fallback: Json): (v: Json)
    ensures Truthy(x) ==> v == x
    ensures !Truthy(x) ==> v == fallback
  {
    if Truthy(x) then x else fallback
  }
}
