/** Values shared by every part of the model: optional values and the loosely
    typed JSON values that arrive in request bodies and document fields. */
module Common {

  datatype Option<+T> = None | Some(value: T)

  /** The operation a collection hook runs for. */
  datatype Operation = Create | Update

  /** A field validator's answer: `true`, or the message to show. */
  datatype Validation = Valid | Invalid(message: string)

  /** A JSON value as the handlers see it. `Undefined` stands for an absent key,
      `Num` for a number with no fractional part, `Frac` for a number that has
      one (its value is never inspected: no document id is fractional), and
      `Other` for any value whose contents the model does not inspect. */
  datatype Json =
    | Undefined | Null | Bool(b: bool) | Num(n: int) | Frac | Str(s: string)
    | Arr(items: seq<Json>) | Obj(fields: map<string, Json>) | Other

  /** `obj[key]` in JavaScript: an absent key reads as `undefined`. */
  function Lookup(obj: map<string, Json>, key: string): (v: Json)
    ensures v != Undefined ==> key in obj && obj[key] == v
    ensures key !in obj ==> v == Undefined
  {
    if key in obj then obj[key] else Undefined
  }

  /** `v.key` on a value of unknown shape: reading a property of `undefined`
      or `null` throws (`None`); an object yields the field, any other value
      has no such property. */
  function Member(v: Json, key: string): (r: Option<Json>)
    ensures r.None? <==> v == Undefined || v == Null
    ensures v.Obj? ==> r == Some(Lookup(v.fields, key))
  {
    match v
    case Undefined => None
    case Null => None
    case Obj(fields) => Some(Lookup(fields, key))
    case _ => Some(Undefined)
  }

  /** JavaScript truthiness (`if (x)`, `!x`, `x || y`). */
  predicate Truthy(v: Json)
  {
    match v
    case Undefined => false
    case Null => false
    case Bool(b) => b
    case Num(n) => n != 0
    case Frac => true
    case Str(s) => s != ""
    case Arr(_) => true
    case Obj(_) => true
    case Other => true
  }

  /** `value === undefined || value === null || value === ''`: the test the form
      handlers use for "no value". */
  predicate IsBlank(v: Json)
  {
    v == Undefined || v == Null || v == Str("")
  }

  /** `typeof v === 'number'`, whole or fractional. */
  predicate IsNumber(v: Json)
  {
    v.Num? || v.Frac?
  }

  /** `typeof v === 'string' && v.length > 0`. */
  predicate IsNonEmptyString(v: Json)
  {
    v.Str? && v.s != ""
  }
}
