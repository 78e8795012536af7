/**
  The JavaScript values that flow through the employee service: request
  payloads, stored record fields and bonus-service replies.

  Numbers are exact rationals here. The service never does arithmetic on
  them; it only asks whether a number is an integer and compares numbers
  for equality, and both questions have the same answer on a `real` as on
  a finite double.
 */
module JsValues {

  datatype Option<T> = None | Some(value: T)

  /** A defined JavaScript value. `undefined` is not a value of this type:
      an object key set to `undefined` is modelled as an absent key, which
      is how every lodash and joi call of the service treats it. */
  datatype Value =
    | Null
    | Bool(b: bool)
    | Num(x: real)
    | Str(s: string)
    | Arr(items: seq<Value>)
    | Obj(fields: map<string, Value>)

  /** One field of a sanitized employee record: either the value the caller
      supplied, or the joi schema object that `_.defaults` copies in for a
      missing key. The placeholder is an object, so it passes no rule of
      the schema. */
  datatype Field = Placeholder | Given(v: Value)

  predicate IsInteger(x: real) {
    x.Floor as real == x
  }

  /** The JavaScript number with integer value `n`. */
  function IntNum(n: int): (v: Value)
    ensures v.Num? && IsInteger(v.x)
  {
    Num(n as real)
  }
}
